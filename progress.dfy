/**
 * The completion map and the progress statistics of src/App.jsx:
 * `toggleSubtopicCompletion`, `isSubtopicCompleted`, `getTopicProgress`
 * and the specification of `getCourseProgress` (whose loop is the method
 * `AppState.App.GetCourseProgress`). The map is keyed by the string
 * `${courseId}-${topicId}-${subtopicId}`; that concatenation is not
 * injective, and nothing here assumes it is.
 */
module Progress {
  import opened JsText
  import opened JsValue
  import Seqs

  /** The completion map (`completedSubtopics`): property name to stored value. */
  type Completion = map<string, Value>

  /** `${courseId}-${topicId}-${subtopicId}`. */
  function Key(courseId: Value, topicId: Value, subtopicId: Value): (k: string)
    ensures |k| == |ToStr(courseId)| + |ToStr(topicId)| + |ToStr(subtopicId)| + 2
    ensures k[..|ToStr(courseId)|] == ToStr(courseId) && k[|ToStr(courseId)|] == '-'
    ensures k[|k| - |ToStr(subtopicId)|..] == ToStr(subtopicId)
  {
    ToStr(courseId) + "-" + ToStr(topicId) + "-" + ToStr(subtopicId)
  }

  /** `m[key]`: the stored value, `undefined` when absent. */
  function Lookup(m: Completion, key: string): (r: Value)
    ensures key !in m ==> r == Undefined
  {
    if key in m then m[key] else Undefined
  }

  /** `completedSubtopics[key] || false`. */
  function IsSubtopicCompleted(m: Completion, courseId: Value, topicId: Value, subtopicId: Value): (r: Value)
    ensures Truthy(r) <==> Key(courseId, topicId, subtopicId) in m && Truthy(m[Key(courseId, topicId, subtopicId)])
    ensures !Truthy(r) ==> r == Bool(false)
  {
    Or(Lookup(m, Key(courseId, topicId, subtopicId)), Bool(false))
  }

  /** `{...prev, [key]: !prev[key]}`: the one-key flip shared by both toggles of the application. */
  function Flip(m: Completion, key: string): (r: Completion)
    ensures r.Keys == m.Keys + {key}
    ensures Truthy(r[key]) <==> !Truthy(Lookup(m, key))
    ensures forall k :: k in m && k != key ==> r[k] == m[k]
  {
    m[key := Bool(!Truthy(Lookup(m, key)))]
  }

  /** `toggleSubtopicCompletion`'s new map. */
  function Toggle(m: Completion, courseId: Value, topicId: Value, subtopicId: Value): (r: Completion)
    ensures r.Keys == m.Keys + {Key(courseId, topicId, subtopicId)}
    ensures forall k :: k in m && k != Key(courseId, topicId, subtopicId) ==> r[k] == m[k]
  {
    Flip(m, Key(courseId, topicId, subtopicId))
  }

  /** A toggle negates the answer of `isSubtopicCompleted` for its key; absent counts as not done. */
  lemma ToggleNegates(m: Completion, c: Value, t: Value, s: Value)
    ensures Truthy(IsSubtopicCompleted(Toggle(m, c, t, s), c, t, s)) == !Truthy(IsSubtopicCompleted(m, c, t, s))
    ensures Key(c, t, s) !in m ==> IsSubtopicCompleted(Toggle(m, c, t, s), c, t, s) == Bool(true)
  {
  }

  /** A toggle leaves the answer for every other key unchanged. */
  lemma ToggleFrame(m: Completion, c: Value, t: Value, s: Value, c': Value, t': Value, s': Value)
    requires Key(c', t', s') != Key(c, t, s)
    ensures IsSubtopicCompleted(Toggle(m, c, t, s), c', t', s') == IsSubtopicCompleted(m, c', t', s')
  {
  }

  /** Toggling the same key twice restores every answer of `isSubtopicCompleted`, as a truth value. */
  lemma ToggleTwice(m: Completion, c: Value, t: Value, s: Value, c': Value, t': Value, s': Value)
    ensures Truthy(IsSubtopicCompleted(Toggle(Toggle(m, c, t, s), c, t, s), c', t', s'))
        == Truthy(IsSubtopicCompleted(m, c', t', s'))
  {
    if Key(c', t', s') == Key(c, t, s) {
      ToggleNegates(m, c, t, s);
      ToggleNegates(Toggle(m, c, t, s), c, t, s);
    }
  }

  /**
   * The map itself is not restored: toggling an absent key twice leaves an
   * explicit `false` entry behind.
   */
  lemma ToggleTwiceLeavesEntry(c: Value, t: Value, s: Value)
    ensures Toggle(Toggle(map[], c, t, s), c, t, s) == map[Key(c, t, s) := Bool(false)]
    ensures Toggle(Toggle(map[], c, t, s), c, t, s) != map[]
  {
  }

  /**
   * Two different id triples can share a key, so completing one subtopic
   * marks another as completed: a course `a-b` with topic `c` collides with
   * a course `a` with topic `b-c`.
   */
  lemma KeyCollision()
    ensures Key(Str("a-b"), Str("c"), Str("d")) == Key(Str("a"), Str("b-c"), Str("d"))
    ensures Truthy(IsSubtopicCompleted(Toggle(map[], Str("a-b"), Str("c"), Str("d")), Str("a"), Str("b-c"), Str("d")))
  {
    assert Key(Str("a-b"), Str("c"), Str("d")) == "a-b-c-d";
    assert Key(Str("a"), Str("b-c"), Str("d")) == "a-b-c-d";
  }

  // ---------------------------------------------------------------------
  // Progress statistics

  /** `{ completed, total, percentage }`. */
  datatype Stats = Stats(completed: nat, total: nat, percentage: nat)

  /**
   * `Math.round((done / total) * 100)`, or 0 for an empty total: the
   * nearest integer to `100 * done / total`, halves rounded up.
   */
  function Percentage(done: nat, total: nat): (p: nat)
    requires done <= total
    ensures p <= 100
    ensures total == 0 ==> p == 0
    ensures total > 0 ==> 2 * total * p <= 200 * done + total < 2 * total * (p + 1)
  {
    if total == 0 then 0
    else
      var num, den := 200 * done + total, 2 * total;
      var p := num / den;
      assert den * p <= num < den * (p + 1) by {
        assert num == den * p + num % den;
      }
      assert p <= 100 by {
        if p > 100 {
          MulMonotone(den, 101, p);
        }
      }
      p
  }

  /** Multiplication by a positive number is monotone. */
  lemma MulMonotone(k: nat, a: nat, b: nat)
    requires k > 0 && a <= b
    ensures k * a <= k * b
  {
  }

  /** The filter test of the progress functions: `isSubtopicCompleted(courseId, topicId, sub.id)`. */
  predicate SubtopicDone(m: Completion, courseId: Value, topicId: Value, sub: Value)
    ensures SubtopicDone(m, courseId, topicId, sub) <==>
      var k := Key(courseId, topicId, Get(sub, "id")); k in m && Truthy(m[k])
  {
    Truthy(IsSubtopicCompleted(m, courseId, topicId, Get(sub, "id")))
  }

  /** `subs.filter(sub => isSubtopicCompleted(courseId, topicId, sub.id)).length`. */
  function CountCompleted(m: Completion, courseId: Value, topicId: Value, subs: seq<Value>): (n: nat)
    ensures n <= |subs|
  {
    Seqs.CountWhere(subs, sub => SubtopicDone(m, courseId, topicId, sub))
  }

  /** The count is `filter(...).length`: the number of completed subtopics the filter keeps. */
  lemma CountCompletedIsFilterLength(m: Completion, courseId: Value, topicId: Value, subs: seq<Value>)
    ensures CountCompleted(m, courseId, topicId, subs) == |Seqs.Filter(subs, sub => SubtopicDone(m, courseId, topicId, sub))|
  {
    Seqs.FilterLength(subs, sub => SubtopicDone(m, courseId, topicId, sub));
  }

  /**
   * The completed count grows by one for each completed subtopic appended
   * and by nothing for any other, so it counts every completed entry, each
   * occurrence once.
   */
  lemma CountCompletedSnoc(m: Completion, courseId: Value, topicId: Value, subs: seq<Value>, sub: Value)
    ensures CountCompleted(m, courseId, topicId, subs + [sub])
         == CountCompleted(m, courseId, topicId, subs) + (if SubtopicDone(m, courseId, topicId, sub) then 1 else 0)
  {
    var done := s => SubtopicDone(m, courseId, topicId, s);
    Seqs.CountWhereAppend(subs, [sub], done);
    assert [sub][1..] == [];
  }

  /** `getTopicProgress(courseId, topic)`. */
  function TopicProgress(m: Completion, courseId: Value, topic: Value): (p: Stats)
    ensures !Truthy(topic) || !Get(topic, "subtopics").Arr? ==> p == Stats(0, 0, 0)
    ensures Truthy(topic) && Get(topic, "subtopics").Arr? ==>
      && p.total == |Get(topic, "subtopics").elems|
      && p.completed == CountCompleted(m, courseId, Get(topic, "id"), Get(topic, "subtopics").elems)
    ensures p.completed <= p.total && p.percentage == Percentage(p.completed, p.total)
  {
    if !Truthy(topic) || !Get(topic, "subtopics").Arr? then Stats(0, 0, 0)
    else
      var subs := Get(topic, "subtopics").elems;
      var done := CountCompleted(m, courseId, Get(topic, "id"), subs);
      Stats(done, |subs|, Percentage(done, |subs|))
  }

  /** Running totals of completed and all subtopics. */
  datatype Tally = Tally(done: nat, total: nat)

  /**
   * The sums, over `topics`, of each topic's completed and total counts:
   * every subtopic of every topic counts once, whatever topic it is in.
   */
  function SumTopics(m: Completion, courseId: Value, topics: seq<Value>): (t: Tally)
    ensures t.done <= t.total
    decreases |topics|
  {
    if topics == [] then Tally(0, 0)
    else
      var front := SumTopics(m, courseId, topics[..|topics| - 1]);
      var last := TopicProgress(m, courseId, topics[|topics| - 1]);
      Tally(front.done + last.completed, front.total + last.total)
  }

  /** `getCourseProgress(course)`: counts summed over all topics, then one percentage. */
  function CourseProgress(m: Completion, course: Value): (p: Stats)
    ensures !Truthy(course) || !Get(course, "topics").Arr? ==> p == Stats(0, 0, 0)
    ensures Truthy(course) && Get(course, "topics").Arr? ==>
      var t := SumTopics(m, Get(course, "id"), Get(course, "topics").elems);
      p.completed == t.done && p.total == t.total
    ensures p.completed <= p.total && p.percentage == Percentage(p.completed, p.total)
  {
    if !Truthy(course) || !Get(course, "topics").Arr? then Stats(0, 0, 0)
    else
      var t := SumTopics(m, Get(course, "id"), Get(course, "topics").elems);
      Stats(t.done, t.total, Percentage(t.done, t.total))
  }

  /** A subtopic with only an id, for the sample course below. */
  function Leaf(id: string): Value
  {
    Obj(map["id" := Str(id)])
  }

  /** A sample topic `a` with one subtopic `s`, and topic `b` with subtopics `x`, `y`, `z`. */
  const TopicA: Value := Obj(map["id" := Str("a"), "subtopics" := Arr([Leaf("s")])])
  const TopicB: Value := Obj(map["id" := Str("b"), "subtopics" := Arr([Leaf("x"), Leaf("y"), Leaf("z")])])

  /** Only subtopic `s` of topic `a` of course `c` is completed. */
  const OneDone: Completion := map["c-a-s" := Bool(true)]

  lemma TopicAComplete()
    ensures TopicProgress(OneDone, Str("c"), TopicA) == Stats(1, 1, 100)
  {
    assert Key(Str("c"), Str("a"), Str("s")) == "c-a-s";
    assert SubtopicDone(OneDone, Str("c"), Str("a"), Leaf("s"));
    assert [Leaf("s")][1..] == [];
  }

  /** No subtopic of topic `b` of course `c` is completed. */
  lemma NoneDoneInB()
    ensures CountCompleted(OneDone, Str("c"), Str("b"), [Leaf("x"), Leaf("y"), Leaf("z")]) == 0
  {
    var subs := [Leaf("x"), Leaf("y"), Leaf("z")];
    forall sub | sub in subs ensures !SubtopicDone(OneDone, Str("c"), Str("b"), sub) {
      var id := Get(sub, "id").s;
      assert Key(Str("c"), Str("b"), Str(id)) == "c-b-" + id;
      assert ("c-b-" + id)[2] != "c-a-s"[2];
    }
    Seqs.CountWhereNone(subs, sub => SubtopicDone(OneDone, Str("c"), Str("b"), sub));
  }

  lemma TopicBUntouched()
    ensures TopicProgress(OneDone, Str("c"), TopicB) == Stats(0, 3, 0)
  {
    NoneDoneInB();
    assert Get(TopicB, "subtopics").elems == [Leaf("x"), Leaf("y"), Leaf("z")];
    assert Percentage(0, 3) == 0;
  }

  /** The counts over a concatenation of topic lists are the sums of the counts over each part. */
  lemma {:induction false} SumTopicsAppend(m: Completion, courseId: Value, xs: seq<Value>, ys: seq<Value>)
    ensures var a, b := SumTopics(m, courseId, xs), SumTopics(m, courseId, ys);
      SumTopics(m, courseId, xs + ys) == Tally(a.done + b.done, a.total + b.total)
    decreases |ys|
  {
    if ys == [] {
      assert xs + ys == xs;
    } else {
      var front := ys[..|ys| - 1];
      SumTopicsAppend(m, courseId, xs, front);
      assert (xs + ys)[..|xs + ys| - 1] == xs + front;
      assert (xs + ys)[|xs + ys| - 1] == ys[|ys| - 1];
    }
  }

  /** The sums over two topics are the two topics' counts added. */
  lemma SumOfTwo(m: Completion, courseId: Value, a: Value, b: Value)
    ensures var pa, pb := TopicProgress(m, courseId, a), TopicProgress(m, courseId, b);
      SumTopics(m, courseId, [a, b]) == Tally(pa.completed + pb.completed, pa.total + pb.total)
  {
    assert [a][..0] == [] && [b][..0] == [];
    SumTopicsAppend(m, courseId, [a], [b]);
    assert [a] + [b] == [a, b];
  }

  /** A course with two topics: its counts are the sums of the two topics' counts. */
  lemma TwoTopicCourse(m: Completion, course: Value, a: Value, b: Value)
    requires Truthy(course) && Get(course, "topics") == Arr([a, b])
    ensures var pa, pb := TopicProgress(m, Get(course, "id"), a), TopicProgress(m, Get(course, "id"), b);
      CourseProgress(m, course)
        == Stats(pa.completed + pb.completed, pa.total + pb.total,
                 Percentage(pa.completed + pb.completed, pa.total + pb.total))
  {
    SumOfTwo(m, Get(course, "id"), a, b);
    assert Get(course, "topics").elems == [a, b];
  }

  /**
   * The course percentage comes from the summed counts, not from the mean of
   * the topic percentages: a topic at 1/1 (100%) beside a topic at 0/3 (0%)
   * gives a course at 1/4 (25%), not 50%. `TopicAComplete` and
   * `TopicBUntouched` exhibit two such topics.
   */
  lemma CourseNotAveraged(m: Completion, course: Value, a: Value, b: Value)
    requires Truthy(course) && Get(course, "topics") == Arr([a, b])
    requires TopicProgress(m, Get(course, "id"), a) == Stats(1, 1, 100)
    requires TopicProgress(m, Get(course, "id"), b) == Stats(0, 3, 0)
    ensures CourseProgress(m, course) == Stats(1, 4, 25)
    ensures CourseProgress(m, course).percentage != (100 + 0) / 2
  {
    TwoTopicCourse(m, course, a, b);
    assert Percentage(1, 4) == 25;
  }

  // ---------------------------------------------------------------------
  // Entries for ids outside the tree are inert

  /** Some subtopic of `topic` (in course `courseId`) is stored under `key`. */
  predicate TopicUsesKey(courseId: Value, topic: Value, key: string)
  {
    Get(topic, "subtopics").Arr?
    && exists sub :: sub in Get(topic, "subtopics").elems && Key(courseId, Get(topic, "id"), Get(sub, "id")) == key
  }

  /** Some subtopic of some topic of `course` is stored under `key`. */
  predicate CourseUsesKey(course: Value, key: string)
  {
    Get(course, "topics").Arr?
    && exists topic :: topic in Get(course, "topics").elems && TopicUsesKey(Get(course, "id"), topic, key)
  }

  lemma {:induction false} TopicIgnoresKey(m: Completion, key: string, v: Value, courseId: Value, topic: Value)
    requires !TopicUsesKey(courseId, topic, key)
    ensures TopicProgress(m[key := v], courseId, topic) == TopicProgress(m, courseId, topic)
  {
    if Truthy(topic) && Get(topic, "subtopics").Arr? {
      var subs := Get(topic, "subtopics").elems;
      var tid := Get(topic, "id");
      Seqs.FilterCongruent(subs, sub => SubtopicDone(m[key := v], courseId, tid, sub),
                                 sub => SubtopicDone(m, courseId, tid, sub));
      CountCompletedIsFilterLength(m[key := v], courseId, tid, subs);
      CountCompletedIsFilterLength(m, courseId, tid, subs);
    }
  }

  lemma {:induction false} SumIgnoresKey(m: Completion, key: string, v: Value, courseId: Value, topics: seq<Value>)
    requires forall topic :: topic in topics ==> !TopicUsesKey(courseId, topic, key)
    ensures SumTopics(m[key := v], courseId, topics) == SumTopics(m, courseId, topics)
    decreases |topics|
  {
    if topics != [] {
      SumIgnoresKey(m, key, v, courseId, topics[..|topics| - 1]);
      TopicIgnoresKey(m, key, v, courseId, topics[|topics| - 1]);
    }
  }

  /**
   * Whatever is stored under a key that no subtopic of `course` uses (a
   * stale entry of a deleted or renamed course) does not change its progress.
   */
  lemma {:induction false} StaleKeyInert(m: Completion, key: string, v: Value, course: Value)
    requires !CourseUsesKey(course, key)
    ensures CourseProgress(m[key := v], course) == CourseProgress(m, course)
  {
    if Truthy(course) && Get(course, "topics").Arr? {
      SumIgnoresKey(m, key, v, Get(course, "id"), Get(course, "topics").elems);
    }
  }
}
