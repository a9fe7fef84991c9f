/**
 * `normalizeCourses` (src/components/normalizeCourses.js): the strict
 * normaliser. It rebuilds every course, topic and subtopic with only the
 * canonical fields, numbering missing ids from 1 and defaulting titles,
 * descriptions and contents. It has no try/catch: a `null` entry, or a
 * child list that is present but not an array (`x.map` is not a function),
 * makes it throw, modelled as `None`.
 */
module Normalize {
  import opened Wrappers
  import opened JsValue

  /** `children?.map(f) || []` over a child list that may be missing. */
  function MapChildren(children: Value, f: (Value, nat) -> Option<Value>): (r: Option<seq<Value>>)
    ensures Nullish(children) ==> r == Some([])
    ensures children.Arr? ==> r == MapAll(children.elems, f)
    ensures !Nullish(children) && !children.Arr? ==> r == None
  {
    if Nullish(children) then Some([])
    else if children.Arr? then MapAll(children.elems, f)
    else None
  }

  /** The callback of the innermost `map`: only `id`, `title` and `content`, with their fallbacks. */
  function NormalizeSubtopic(sub: Value, k: nat): (r: Option<Value>)
    ensures r.Some? <==> !Nullish(sub)
    ensures r.Some? ==> SubtopicShape(sub, r.value, k)
  {
    if Nullish(sub) then None
    else Some(Obj(map[
      "id" := Or(Get(sub, "id"), Num(k + 1)),
      "title" := Or(Get(sub, "title"), Str("Untitled Subtopic")),
      "content" := Or(Get(sub, "content"), Str(""))]))
  }

  /** The callback of the middle `map`: only `id`, `title` and `subtopics`, with their fallbacks. */
  function NormalizeTopic(topic: Value, j: nat): (r: Option<Value>)
    ensures Nullish(topic) ==> r == None
    ensures r.Some? ==> && r.value.Obj? && r.value.fields.Keys == {"id", "title", "subtopics"}
                        && r.value.fields["id"] == (if Truthy(Get(topic, "id")) then Get(topic, "id") else Num(j + 1))
                        && Truthy(r.value.fields["title"]) && r.value.fields["subtopics"].Arr?
  {
    if Nullish(topic) then None
    else
      match MapChildren(Get(topic, "subtopics"), NormalizeSubtopic)
      case None => None
      case Some(ss) => Some(Obj(map[
        "id" := Or(Get(topic, "id"), Num(j + 1)),
        "title" := Or(Get(topic, "title"), Or(Get(topic, "topicName"), Str("Untitled Topic"))),
        "subtopics" := Arr(ss)]))
  }

  /** The callback of the outer `map`: only `id`, `title`, `description` and `topics`, with their fallbacks. */
  function NormalizeCourse(course: Value, i: nat): (r: Option<Value>)
    ensures Nullish(course) ==> r == None
    ensures r.Some? ==> && r.value.Obj? && r.value.fields.Keys == {"id", "title", "description", "topics"}
                        && r.value.fields["id"] == (if Truthy(Get(course, "id")) then Get(course, "id") else Num(i + 1))
                        && Truthy(r.value.fields["title"]) && r.value.fields["topics"].Arr?
  {
    if Nullish(course) then None
    else
      match MapChildren(Get(course, "topics"), NormalizeTopic)
      case None => None
      case Some(ts) => Some(Obj(map[
        "id" := Or(Get(course, "id"), Num(i + 1)),
        "title" := Or(Get(course, "title"), Or(Get(course, "courseName"), Str("Untitled Course"))),
        "description" := Or(Get(course, "description"), Str("")),
        "topics" := Arr(ts)]))
  }

  /**
   * `normalizeCourses(courses)`; `None` is the TypeError it would throw,
   * which includes `courses.map` on anything but an array.
   */
  function NormalizeCourses(courses: Value): (r: Option<seq<Value>>)
    ensures !courses.Arr? ==> r == None
    ensures r.Some? ==> courses.Arr? && |r.value| == |courses.elems|
  {
    if courses.Arr? then MapAll(courses.elems, NormalizeCourse) else None
  }

  // ---------------------------------------------------------------------
  // When it succeeds

  /** A child list `normalizeCourses` can map: missing, or an array whose entries `ok` accepts. */
  predicate ChildrenOk(children: Value, ok: Value -> bool)
  {
    Nullish(children) || (children.Arr? && forall x :: x in children.elems ==> ok(x))
  }

  predicate SubtopicOk(sub: Value)
  {
    !Nullish(sub)
  }

  predicate TopicOk(topic: Value)
  {
    !Nullish(topic) && ChildrenOk(Get(topic, "subtopics"), SubtopicOk)
  }

  predicate CourseOk(course: Value)
  {
    !Nullish(course) && ChildrenOk(Get(course, "topics"), TopicOk)
  }

  lemma {:induction false} TopicSucceeds(topic: Value, j: nat)
    ensures NormalizeTopic(topic, j).Some? <==> TopicOk(topic)
  {
    var subs := Get(topic, "subtopics");
    if !Nullish(topic) && subs.Arr? {
      if forall k :: 0 <= k < |subs.elems| ==> NormalizeSubtopic(subs.elems[k], k).Some? {
        forall x | x in subs.elems ensures SubtopicOk(x) {
          var k :| 0 <= k < |subs.elems| && subs.elems[k] == x;
        }
      }
      if TopicOk(topic) {
        forall k | 0 <= k < |subs.elems| ensures NormalizeSubtopic(subs.elems[k], k).Some? {
          assert SubtopicOk(subs.elems[k]);
        }
      }
    }
  }

  lemma {:induction false} CourseSucceeds(course: Value, i: nat)
    ensures NormalizeCourse(course, i).Some? <==> CourseOk(course)
  {
    var topics := Get(course, "topics");
    if !Nullish(course) && topics.Arr? {
      forall j | 0 <= j < |topics.elems| {
        TopicSucceeds(topics.elems[j], j);
      }
      if forall j :: 0 <= j < |topics.elems| ==> NormalizeTopic(topics.elems[j], j).Some? {
        forall x | x in topics.elems ensures TopicOk(x) {
          var j :| 0 <= j < |topics.elems| && topics.elems[j] == x;
        }
      }
    }
  }

  /** `normalizeCourses` throws exactly when some entry or child list is malformed. */
  lemma {:induction false} NormalizeSucceeds(courses: Value)
    ensures NormalizeCourses(courses).Some? <==> courses.Arr? && forall c :: c in courses.elems ==> CourseOk(c)
  {
    if courses.Arr? {
      forall i | 0 <= i < |courses.elems| {
        CourseSucceeds(courses.elems[i], i);
      }
    }
  }

  // ---------------------------------------------------------------------
  // Shape of the result

  /** The first truthy of the candidates, else the placeholder. */
  function FirstTruthy(candidates: seq<Value>, placeholder: Value): (r: Value)
    ensures r in candidates || r == placeholder
    ensures (forall i :: 0 <= i < |candidates| ==> !Truthy(candidates[i])) ==> r == placeholder
    ensures forall i :: 0 <= i < |candidates| && Truthy(candidates[i]) ==>
      (forall j :: 0 <= j < i ==> !Truthy(candidates[j])) ==> r == candidates[i]
  {
    if candidates == [] then placeholder
    else
      var rest := FirstTruthy(candidates[1..], placeholder);
      assert forall i :: 1 <= i < |candidates| ==> candidates[i] == candidates[1..][i - 1];
      Or(candidates[0], rest)
  }

  /** Every id and title in the output is truthy, and `id` is the given truthy id or the 1-based position. */
  ghost predicate SubtopicShape(inp: Value, out: Value, k: nat)
  {
    && out.Obj? && out.fields.Keys == {"id", "title", "content"}
    && out.fields["id"] == (if Truthy(Get(inp, "id")) then Get(inp, "id") else Num(k + 1))
    && out.fields["title"] == FirstTruthy([Get(inp, "title")], Str("Untitled Subtopic"))
    && out.fields["content"] == FirstTruthy([Get(inp, "content")], Str(""))
    && Truthy(out.fields["id"]) && Truthy(out.fields["title"])
  }

  ghost predicate TopicShape(inp: Value, out: Value, j: nat)
  {
    && out.Obj? && out.fields.Keys == {"id", "title", "subtopics"}
    && out.fields["id"] == (if Truthy(Get(inp, "id")) then Get(inp, "id") else Num(j + 1))
    && out.fields["title"] == FirstTruthy([Get(inp, "title"), Get(inp, "topicName")], Str("Untitled Topic"))
    && Truthy(out.fields["id"]) && Truthy(out.fields["title"])
    && out.fields["subtopics"].Arr?
    && var outs := out.fields["subtopics"].elems;
       var ins := Get(inp, "subtopics");
       && (!ins.Arr? ==> outs == [])
       && (ins.Arr? ==> |outs| == |ins.elems| && forall k :: 0 <= k < |outs| ==> SubtopicShape(ins.elems[k], outs[k], k))
  }

  ghost predicate CourseShape(inp: Value, out: Value, i: nat)
  {
    && out.Obj? && out.fields.Keys == {"id", "title", "description", "topics"}
    && out.fields["id"] == (if Truthy(Get(inp, "id")) then Get(inp, "id") else Num(i + 1))
    && out.fields["title"] == FirstTruthy([Get(inp, "title"), Get(inp, "courseName")], Str("Untitled Course"))
    && out.fields["description"] == FirstTruthy([Get(inp, "description")], Str(""))
    && Truthy(out.fields["id"]) && Truthy(out.fields["title"])
    && out.fields["topics"].Arr?
    && var outs := out.fields["topics"].elems;
       var ins := Get(inp, "topics");
       && (!ins.Arr? ==> outs == [])
       && (ins.Arr? ==> |outs| == |ins.elems| && forall j :: 0 <= j < |outs| ==> TopicShape(ins.elems[j], outs[j], j))
  }

  lemma {:induction false} TopicHasShape(topic: Value, j: nat)
    requires NormalizeTopic(topic, j).Some?
    ensures TopicShape(topic, NormalizeTopic(topic, j).value, j)
  {
    var out := NormalizeTopic(topic, j).value;
    assert out.fields.Keys == {"id", "title", "subtopics"};
    var subs := Get(topic, "subtopics");
    if subs.Arr? {
      var outs := out.fields["subtopics"].elems;
      forall k | 0 <= k < |outs| ensures SubtopicShape(subs.elems[k], outs[k], k) {
        assert outs[k].fields.Keys == {"id", "title", "content"};
      }
    }
  }

  lemma {:induction false} CourseHasShape(course: Value, i: nat)
    requires NormalizeCourse(course, i).Some?
    ensures CourseShape(course, NormalizeCourse(course, i).value, i)
  {
    var out := NormalizeCourse(course, i).value;
    assert out.fields.Keys == {"id", "title", "description", "topics"};
    var topics := Get(course, "topics");
    if topics.Arr? {
      var outs := out.fields["topics"].elems;
      forall j | 0 <= j < |outs| ensures TopicShape(topics.elems[j], outs[j], j) {
        TopicHasShape(topics.elems[j], j);
      }
    }
  }

  /**
   * The contract of `normalizeCourses`: same length and order at every
   * level, only the canonical fields, the id, title, description and
   * content fallbacks, and truthy ids and titles throughout.
   */
  lemma {:induction false} NormalizeSpec(courses: Value)
    requires NormalizeCourses(courses).Some?
    ensures courses.Arr? && |NormalizeCourses(courses).value| == |courses.elems|
    ensures forall i :: 0 <= i < |courses.elems| ==>
      CourseShape(courses.elems[i], NormalizeCourses(courses).value[i], i)
  {
    forall i | 0 <= i < |courses.elems|
      ensures CourseShape(courses.elems[i], NormalizeCourses(courses).value[i], i)
    {
      CourseHasShape(courses.elems[i], i);
    }
  }

  // ---------------------------------------------------------------------
  // Idempotence

  /** A value that `||` with a `""` default leaves as it is. */
  predicate TextOrEmpty(v: Value)
  {
    Truthy(v) || v == Str("")
  }

  predicate NormalSubtopic(v: Value)
  {
    && v.Obj? && v.fields.Keys == {"id", "title", "content"}
    && Truthy(v.fields["id"]) && Truthy(v.fields["title"]) && TextOrEmpty(v.fields["content"])
  }

  predicate NormalTopic(v: Value)
  {
    && v.Obj? && v.fields.Keys == {"id", "title", "subtopics"}
    && Truthy(v.fields["id"]) && Truthy(v.fields["title"])
    && v.fields["subtopics"].Arr? && forall x :: x in v.fields["subtopics"].elems ==> NormalSubtopic(x)
  }

  /** The shape of every course `normalizeCourses` returns. */
  predicate NormalCourse(v: Value)
  {
    && v.Obj? && v.fields.Keys == {"id", "title", "description", "topics"}
    && Truthy(v.fields["id"]) && Truthy(v.fields["title"]) && TextOrEmpty(v.fields["description"])
    && v.fields["topics"].Arr? && forall x :: x in v.fields["topics"].elems ==> NormalTopic(x)
  }

  lemma {:induction false} TopicShapeIsNormal(inp: Value, out: Value, j: nat)
    requires TopicShape(inp, out, j)
    ensures NormalTopic(out)
  {
    var outs := out.fields["subtopics"].elems;
    var ins := Get(inp, "subtopics");
    forall x | x in outs ensures NormalSubtopic(x) {
      var k :| 0 <= k < |outs| && outs[k] == x;
      assert SubtopicShape(ins.elems[k], outs[k], k);
    }
  }

  lemma {:induction false} CourseShapeIsNormal(inp: Value, out: Value, i: nat)
    requires CourseShape(inp, out, i)
    ensures NormalCourse(out)
  {
    var outs := out.fields["topics"].elems;
    var ins := Get(inp, "topics");
    forall x | x in outs ensures NormalTopic(x) {
      var j :| 0 <= j < |outs| && outs[j] == x;
      TopicShapeIsNormal(ins.elems[j], outs[j], j);
    }
  }

  lemma SubtopicNormalFixpoint(sub: Value, k: nat)
    requires NormalSubtopic(sub)
    ensures NormalizeSubtopic(sub, k) == Some(sub)
  {
    var f := sub.fields;
    assert map["id" := f["id"], "title" := f["title"], "content" := Or(f["content"], Str(""))] == f;
  }

  lemma {:induction false} TopicNormalFixpoint(topic: Value, j: nat)
    requires NormalTopic(topic)
    ensures NormalizeTopic(topic, j) == Some(topic)
  {
    var f := topic.fields;
    var ss := f["subtopics"].elems;
    forall k | 0 <= k < |ss| ensures NormalizeSubtopic(ss[k], k) == Some(ss[k]) {
      SubtopicNormalFixpoint(ss[k], k);
    }
    MapAllFixpoint(ss, NormalizeSubtopic);
    assert map["id" := f["id"], "title" := f["title"], "subtopics" := Arr(ss)] == f;
  }

  lemma {:induction false} CourseNormalFixpoint(course: Value, i: nat)
    requires NormalCourse(course)
    ensures NormalizeCourse(course, i) == Some(course)
  {
    var f := course.fields;
    var ts := f["topics"].elems;
    forall j | 0 <= j < |ts| ensures NormalizeTopic(ts[j], j) == Some(ts[j]) {
      TopicNormalFixpoint(ts[j], j);
    }
    MapAllFixpoint(ts, NormalizeTopic);
    assert map["id" := f["id"], "title" := f["title"], "description" := Or(f["description"], Str("")),
               "topics" := Arr(ts)] == f;
  }

  /** Normalising an already normalised list returns it unchanged. */
  lemma {:induction false} NormalizeIdempotent(courses: Value)
    requires NormalizeCourses(courses).Some?
    ensures NormalizeCourses(Arr(NormalizeCourses(courses).value)) == NormalizeCourses(courses)
  {
    var out := NormalizeCourses(courses).value;
    NormalizeSpec(courses);
    forall i | 0 <= i < |out| ensures NormalizeCourse(out[i], i) == Some(out[i]) {
      CourseShapeIsNormal(courses.elems[i], out[i], i);
      CourseNormalFixpoint(out[i], i);
    }
    MapAllFixpoint(out, NormalizeCourse);
  }
}
