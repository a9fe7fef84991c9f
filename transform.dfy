/**
 * `transformCoursesData` (src/App.jsx): the lenient course-tree normaliser
 * applied to the bundled catalogue, on reset and on import. It keeps every
 * field of every course, topic and subtopic, fills a falsy `id` with a
 * positional fallback and replaces a non-array child list with `[]`. Any
 * TypeError inside (a `null` entry whose `id` is read) is caught and yields
 * an empty course list.
 */
module Transform {
  import opened Wrappers
  import opened JsText
  import opened JsValue

  /** `rawData?.courses || rawData`: the wrapped list, or the input itself. */
  function Unwrap(raw: Value): (r: Value)
    ensures raw.Obj? && "courses" in raw.fields && Truthy(raw.fields["courses"]) ==> r == raw.fields["courses"]
    ensures !(raw.Obj? && "courses" in raw.fields && Truthy(raw.fields["courses"])) ==> r == raw
  {
    Or(if Nullish(raw) then Undefined else Get(raw, "courses"), raw)
  }

  /** `v.id || `${prefix}${index}``. */
  function IdOr(v: Value, prefix: string, index: nat): (r: Value)
    ensures Truthy(r)
    ensures Truthy(Get(v, "id")) ==> r == Get(v, "id")
  {
    Or(Get(v, "id"), Str(prefix + NatToString(index)))
  }

  /** The callback of the innermost `map`: `{...subtopic, id: subtopic.id || `subtopic-${k}`}`. */
  function TransformSubtopic(sub: Value, k: nat): (r: Option<Value>)
    ensures r.Some? <==> !Nullish(sub)
    ensures r.Some? ==> KeepsOtherFields(sub, r.value, {"id"}) && IdRule(sub, r.value, "subtopic-", k)
  {
    if Nullish(sub) then None
    else Some(Obj(Spread(sub)["id" := IdOr(sub, "subtopic-", k)]))
  }

  /** The callback of the middle `map`, over a course's topics. */
  function TransformTopic(topic: Value, j: nat): (r: Option<Value>)
    ensures Nullish(topic) ==> r == None
    ensures r.Some? ==> && KeepsOtherFields(topic, r.value, {"id", "subtopics"})
                        && IdRule(topic, r.value, "topic-", j)
                        && ChildList(topic, r.value, "subtopics")
  {
    if Nullish(topic) then None
    else
      var subs := Get(topic, "subtopics");
      var mapped := if subs.Arr? then MapAll(subs.elems, TransformSubtopic) else Some([]);
      match mapped
      case None => None
      case Some(ss) => Some(Obj(Spread(topic)["id" := IdOr(topic, "topic-", j)]["subtopics" := Arr(ss)]))
  }

  /** The callback of the outer `map`, over the course list. */
  function TransformCourse(course: Value, i: nat): (r: Option<Value>)
    ensures Nullish(course) ==> r == None
    ensures r.Some? ==> && KeepsOtherFields(course, r.value, {"id", "topics"})
                        && IdRule(course, r.value, "course-", i)
                        && ChildList(course, r.value, "topics")
  {
    if Nullish(course) then None
    else
      var topics := Get(course, "topics");
      var mapped := if topics.Arr? then MapAll(topics.elems, TransformTopic) else Some([]);
      match mapped
      case None => None
      case Some(ts) => Some(Obj(Spread(course)["id" := IdOr(course, "course-", i)]["topics" := Arr(ts)]))
  }

  /** `transformCoursesData(rawData)`; never fails. */
  function TransformCoursesData(raw: Value): (r: seq<Value>)
    ensures !Unwrap(raw).Arr? ==> r == []
    ensures r != [] ==> Unwrap(raw).Arr? && |r| == |Unwrap(raw).elems|
  {
    var list := Unwrap(raw);
    if !list.Arr? then []
    else
      match MapAll(list.elems, TransformCourse)
      case Some(cs) => cs
      case None => []
  }

  // ---------------------------------------------------------------------
  // Declarative description of the result

  /** No entry that the traversal reads a property of is `null` or `undefined`. */
  predicate SubtopicsWalkable(subs: Value)
  {
    subs.Arr? ==> forall k :: 0 <= k < |subs.elems| ==> !Nullish(subs.elems[k])
  }

  predicate TopicsWalkable(topics: Value)
  {
    topics.Arr? ==>
      forall j :: 0 <= j < |topics.elems| ==>
        !Nullish(topics.elems[j]) && SubtopicsWalkable(Get(topics.elems[j], "subtopics"))
  }

  predicate CoursesWalkable(courses: seq<Value>)
  {
    forall i :: 0 <= i < |courses| ==> !Nullish(courses[i]) && TopicsWalkable(Get(courses[i], "topics"))
  }

  /** `out` is an object holding exactly the fields of `{...inp}` outside `replaced`, unchanged. */
  ghost predicate KeepsOtherFields(inp: Value, out: Value, replaced: set<string>)
  {
    && out.Obj?
    && (forall key :: key !in replaced ==> (key in out.fields <==> key in Spread(inp)))
    && (forall key :: key !in replaced && key in out.fields ==> out.fields[key] == Spread(inp)[key])
  }

  /** The `id` of `out` is the truthy `id` of `inp`, else `prefix` followed by the position. */
  predicate IdRule(inp: Value, out: Value, prefix: string, index: nat)
  {
    && out.Obj? && "id" in out.fields
    && out.fields["id"] == (if Truthy(Get(inp, "id")) then Get(inp, "id") else Str(prefix + NatToString(index)))
  }

  /**
   * `out` is the child list `key` of the transformed entry: the transformed
   * children, one per input child in the same order, when `inp[key]` is an
   * array, else `[]`.
   */
  predicate ChildList(inp: Value, out: Value, key: string)
  {
    && out.Obj? && key in out.fields && out.fields[key].Arr?
    && (Get(inp, key).Arr? ==> |out.fields[key].elems| == |Get(inp, key).elems|)
    && (!Get(inp, key).Arr? ==> out.fields[key].elems == [])
  }

  ghost predicate SubtopicOut(inp: Value, out: Value, k: nat)
  {
    KeepsOtherFields(inp, out, {"id"}) && IdRule(inp, out, "subtopic-", k)
  }

  ghost predicate TopicOut(inp: Value, out: Value, j: nat)
  {
    && KeepsOtherFields(inp, out, {"id", "subtopics"})
    && IdRule(inp, out, "topic-", j)
    && ChildList(inp, out, "subtopics")
    && (Get(inp, "subtopics").Arr? ==>
          forall k :: 0 <= k < |Get(inp, "subtopics").elems| ==>
            SubtopicOut(Get(inp, "subtopics").elems[k], out.fields["subtopics"].elems[k], k))
  }

  ghost predicate CourseOut(inp: Value, out: Value, i: nat)
  {
    && KeepsOtherFields(inp, out, {"id", "topics"})
    && IdRule(inp, out, "course-", i)
    && ChildList(inp, out, "topics")
    && (Get(inp, "topics").Arr? ==>
          forall j :: 0 <= j < |Get(inp, "topics").elems| ==>
            TopicOut(Get(inp, "topics").elems[j], out.fields["topics"].elems[j], j))
  }

  lemma TopicResult(topic: Value, j: nat)
    ensures TransformTopic(topic, j).Some? <==> !Nullish(topic) && SubtopicsWalkable(Get(topic, "subtopics"))
    ensures TransformTopic(topic, j).Some? ==> TopicOut(topic, TransformTopic(topic, j).value, j)
  {
    if !Nullish(topic) {
      var subs := Get(topic, "subtopics");
      if subs.Arr? {
        var mapped := MapAll(subs.elems, TransformSubtopic);
        assert mapped.Some? <==> SubtopicsWalkable(subs);
        if mapped.Some? {
          var out := TransformTopic(topic, j).value;
          assert out.fields["subtopics"].elems == mapped.value;
          forall k | 0 <= k < |subs.elems| ensures SubtopicOut(subs.elems[k], mapped.value[k], k) {
            assert mapped.value[k] == TransformSubtopic(subs.elems[k], k).value;
          }
        }
      }
    }
  }

  lemma CourseResult(course: Value, i: nat)
    ensures TransformCourse(course, i).Some? <==> !Nullish(course) && TopicsWalkable(Get(course, "topics"))
    ensures TransformCourse(course, i).Some? ==> CourseOut(course, TransformCourse(course, i).value, i)
  {
    var topics := Get(course, "topics");
    if topics.Arr? {
      forall j | 0 <= j < |topics.elems| {
        TopicResult(topics.elems[j], j);
      }
    }
  }

  /**
   * The whole contract of `transformCoursesData`: `[]` when the unwrapped
   * input is not an array or the traversal would throw; otherwise one
   * output per input course, in order, each keeping all other fields, with
   * the id fallback and the array defaulting applied at every level.
   */
  lemma TransformSpec(raw: Value)
    ensures var list := Unwrap(raw);
      && (!(list.Arr? && CoursesWalkable(list.elems)) ==> TransformCoursesData(raw) == [])
      && (list.Arr? && CoursesWalkable(list.elems) ==>
            && |TransformCoursesData(raw)| == |list.elems|
            && forall i :: 0 <= i < |list.elems| ==> CourseOut(list.elems[i], TransformCoursesData(raw)[i], i))
  {
    var list := Unwrap(raw);
    if list.Arr? {
      forall i | 0 <= i < |list.elems| {
        CourseResult(list.elems[i], i);
      }
    }
  }

  // ---------------------------------------------------------------------
  // Idempotence

  /** An object whose `id` is truthy. */
  predicate HasId(v: Value)
  {
    v.Obj? && "id" in v.fields && Truthy(v.fields["id"])
  }

  /** An object whose `key` field is an array all of whose elements satisfy `p`. */
  predicate ArrayFieldAll(v: Value, key: string, p: Value -> bool)
  {
    v.Obj? && key in v.fields && v.fields[key].Arr? && forall x :: x in v.fields[key].elems ==> p(x)
  }

  predicate CanonicalTopic(v: Value)
  {
    HasId(v) && ArrayFieldAll(v, "subtopics", HasId)
  }

  /** The shape `transformCoursesData` produces: ids and child arrays present at every level. */
  predicate CanonicalCourse(v: Value)
  {
    HasId(v) && ArrayFieldAll(v, "topics", CanonicalTopic)
  }

  lemma {:induction false} TopicCanonical(topic: Value, j: nat)
    requires TransformTopic(topic, j).Some?
    ensures CanonicalTopic(TransformTopic(topic, j).value)
  {
    var subs := Get(topic, "subtopics");
    if subs.Arr? {
      var ss := MapAll(subs.elems, TransformSubtopic).value;
      forall x | x in ss ensures HasId(x) {
        var k :| 0 <= k < |ss| && ss[k] == x;
      }
    }
  }

  lemma {:induction false} CourseCanonical(course: Value, i: nat)
    requires TransformCourse(course, i).Some?
    ensures CanonicalCourse(TransformCourse(course, i).value)
  {
    var topics := Get(course, "topics");
    if topics.Arr? {
      var ts := MapAll(topics.elems, TransformTopic).value;
      forall x | x in ts ensures CanonicalTopic(x) {
        var j :| 0 <= j < |ts| && ts[j] == x;
        TopicCanonical(topics.elems[j], j);
      }
    }
  }

  /** Every course `transformCoursesData` returns is canonical. */
  lemma {:induction false} TransformCanonical(raw: Value)
    ensures forall c :: c in TransformCoursesData(raw) ==> CanonicalCourse(c)
  {
    var list := Unwrap(raw);
    if list.Arr? && MapAll(list.elems, TransformCourse).Some? {
      var cs := MapAll(list.elems, TransformCourse).value;
      forall c | c in cs ensures CanonicalCourse(c) {
        var i :| 0 <= i < |cs| && cs[i] == c;
        CourseCanonical(list.elems[i], i);
      }
    }
  }

  /** A canonical subtopic is left as it is, at any position. */
  lemma SubtopicFixpoint(sub: Value, k: nat)
    requires HasId(sub)
    ensures TransformSubtopic(sub, k) == Some(sub)
  {
    assert sub.fields["id" := sub.fields["id"]] == sub.fields;
  }

  lemma {:induction false} TopicFixpoint(topic: Value, j: nat)
    requires CanonicalTopic(topic)
    ensures TransformTopic(topic, j) == Some(topic)
  {
    var ss := topic.fields["subtopics"].elems;
    forall k | 0 <= k < |ss| ensures TransformSubtopic(ss[k], k) == Some(ss[k]) {
      SubtopicFixpoint(ss[k], k);
    }
    MapAllFixpoint(ss, TransformSubtopic);
    assert topic.fields["id" := topic.fields["id"]]["subtopics" := Arr(ss)] == topic.fields;
  }

  lemma {:induction false} CourseFixpoint(course: Value, i: nat)
    requires CanonicalCourse(course)
    ensures TransformCourse(course, i) == Some(course)
  {
    var ts := course.fields["topics"].elems;
    forall j | 0 <= j < |ts| ensures TransformTopic(ts[j], j) == Some(ts[j]) {
      TopicFixpoint(ts[j], j);
    }
    MapAllFixpoint(ts, TransformTopic);
    assert course.fields["id" := course.fields["id"]]["topics" := Arr(ts)] == course.fields;
  }

  /** A list of canonical courses is a fixpoint of `transformCoursesData`. */
  lemma {:induction false} CanonicalFixpoint(courses: seq<Value>)
    requires forall c :: c in courses ==> CanonicalCourse(c)
    ensures TransformCoursesData(Arr(courses)) == courses
  {
    forall i | 0 <= i < |courses| ensures TransformCourse(courses[i], i) == Some(courses[i]) {
      CourseFixpoint(courses[i], i);
    }
    MapAllFixpoint(courses, TransformCourse);
  }

  /** Transforming the output again changes nothing: existing ids and arrays are kept. */
  lemma {:induction false} TransformIdempotent(raw: Value)
    ensures TransformCoursesData(Arr(TransformCoursesData(raw))) == TransformCoursesData(raw)
  {
    TransformCanonical(raw);
    CanonicalFixpoint(TransformCoursesData(raw));
  }
}
