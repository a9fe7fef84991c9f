/**
 * The state of the `App` component (src/App.jsx) and its handlers: the
 * course list, the completion map and the course/topic/subtopic selection,
 * restored at start-up, edited by add/delete/reset/import, resolved from
 * URL parameters and changed by the select handlers.
 */
module AppState {
  import opened Wrappers
  import opened JsText
  import opened JsValue
  import opened Transform
  import opened Progress
  import Seqs
  import AddCourseModal

  /**
   * A JSON document read from local storage or from a chosen file:
   * `Missing` when there is none (`null` or `""` from storage, no file
   * chosen), `Unparseable` when `JSON.parse` throws.
   */
  datatype Loaded = Missing | Unparseable | Parsed(value: Value)

  /** `typeof v === 'object' && v !== null`: the values accepted as a completion map. */
  predicate IsObjectLike(v: Value)
    ensures IsObjectLike(v) <==> !(v.Undefined? || v.Null? || v.Bool? || v.Num? || v.Str?)
    ensures IsObjectLike(v) ==> Truthy(v) && !Nullish(v)
  {
    v.Obj? || v.Arr?
  }

  /**
   * The completion map held by an accepted value. An accepted array is held
   * as its index-keyed spread, which answers every lookup and toggle as the
   * array itself would (see `ArrayHoldsNoKey`).
   */
  function AsCompletion(v: Value): (m: Completion)
    requires IsObjectLike(v)
    ensures v.Obj? ==> m == v.fields
  {
    Spread(v)
  }

  /** No completion key is an array index, so an array read as a completion map marks nothing done. */
  lemma ArrayHoldsNoKey(items: seq<Value>, c: Value, t: Value, s: Value)
    ensures !Truthy(IsSubtopicCompleted(Spread(Arr(items)), c, t, s))
  {
    var k := Key(c, t, s);
    assert k[|ToStr(c)|] == '-';
  }

  // ---------------------------------------------------------------------
  // Start-up restore rules

  /** The initial course list: saved courses only if they parse to a non-empty array. */
  function RestoredCourses(saved: Loaded, bundled: Value): (r: seq<Value>)
    ensures r == TransformCoursesData(bundled) || (saved.Parsed? && saved.value.Arr? && r == saved.value.elems && r != [])
  {
    if saved.Parsed? && saved.value.Arr? && |saved.value.elems| > 0 then saved.value.elems
    else TransformCoursesData(bundled)
  }

  /** The initial completion map: the saved one if it parses to an object or array, else empty. */
  function RestoredCompletion(saved: Loaded): (r: Completion)
    ensures r == map[] || (saved.Parsed? && IsObjectLike(saved.value) && r == AsCompletion(saved.value))
  {
    if saved.Parsed? && IsObjectLike(saved.value) then AsCompletion(saved.value) else map[]
  }

  /**
   * Saved courses win exactly when they parse to a non-empty array; they
   * are taken as they are, without normalisation. Anything else, including
   * a saved empty list, falls back to the normalised bundled catalogue.
   */
  lemma RestoreCoursesRule(saved: Loaded, bundled: Value)
    ensures saved.Parsed? && saved.value.Arr? && saved.value.elems != [] ==>
      RestoredCourses(saved, bundled) == saved.value.elems
    ensures !(saved.Parsed? && saved.value.Arr? && saved.value.elems != []) ==>
      RestoredCourses(saved, bundled) == TransformCoursesData(bundled)
    ensures RestoredCourses(Parsed(Arr([])), bundled) == TransformCoursesData(bundled)
  {
  }

  /** A saved completion map survives only when it is a non-null object; storage errors give `{}`. */
  lemma RestoreCompletionRule(saved: Loaded)
    ensures saved.Parsed? && saved.value.Obj? ==> RestoredCompletion(saved) == saved.value.fields
    ensures saved.Missing? || saved.Unparseable? ==> RestoredCompletion(saved) == map[]
    ensures saved.Parsed? && !IsObjectLike(saved.value) ==> RestoredCompletion(saved) == map[]
  {
  }

  // ---------------------------------------------------------------------
  // Import and export

  /** The new courses, the new completion map and whether the "Invalid JSON file" alert is shown. */
  datatype ImportResult = ImportResult(courses: seq<Value>, completed: Completion, alerted: bool)

  /** The `reader.onload` step of `importData`. */
  function Import(file: Loaded, courses: seq<Value>, completed: Completion): (r: ImportResult)
    ensures r.alerted <==> file.Unparseable? || (file.Parsed? && Nullish(file.value))
    ensures file.Missing? ==> r == ImportResult(courses, completed, false)
  {
    match file
    case Missing => ImportResult(courses, completed, false)
    case Unparseable => ImportResult(courses, completed, true)
    case Parsed(data) =>
      if Nullish(data) then ImportResult(courses, completed, true)   // `data.courses` throws
      else
        var cs := Get(data, "courses");
        var m := Get(data, "completedSubtopics");
        ImportResult(
          if Truthy(cs) && cs.Arr? then TransformCoursesData(data) else courses,
          if Truthy(m) && IsObjectLike(m) then AsCompletion(m) else completed,
          false)
  }

  /** The document `exportData` writes: `{ courses, completedSubtopics }`. */
  function Export(courses: seq<Value>, completed: Completion): (v: Value)
    ensures v.Obj? && v.fields.Keys == {"courses", "completedSubtopics"}
    ensures Get(v, "courses") == Arr(courses) && Get(v, "completedSubtopics") == Obj(completed)
  {
    Obj(map["courses" := Arr(courses), "completedSubtopics" := Obj(completed)])
  }

  /**
   * Import replaces the courses only from an array `courses` field, with
   * its normalised form, and the map only from an object-like
   * `completedSubtopics` field; each field decides its part alone, and a
   * failed parse changes nothing.
   */
  lemma ImportRule(file: Loaded, courses: seq<Value>, completed: Completion)
    ensures var r := Import(file, courses, completed);
      && (r.alerted ==> r.courses == courses && r.completed == completed)
      && (r.courses != courses ==>
            file.Parsed? && Get(file.value, "courses").Arr? && r.courses == TransformCoursesData(Get(file.value, "courses")))
      && (r.completed != completed ==>
            file.Parsed? && IsObjectLike(Get(file.value, "completedSubtopics"))
            && r.completed == AsCompletion(Get(file.value, "completedSubtopics")))
      && (file.Parsed? && !Nullish(file.value) && Get(file.value, "courses").Arr? ==>
            r.courses == TransformCoursesData(Get(file.value, "courses")))
      && (file.Parsed? && Get(file.value, "completedSubtopics").Obj? ==>
            r.completed == Get(file.value, "completedSubtopics").fields)
  {
    if file.Parsed? && !Nullish(file.value) {
      var data := file.value;
      var cs, m := Get(data, "courses"), Get(data, "completedSubtopics");
      assert Import(file, courses, completed) == ImportResult(
        if Truthy(cs) && cs.Arr? then TransformCoursesData(data) else courses,
        if Truthy(m) && IsObjectLike(m) then AsCompletion(m) else completed,
        false);
      if cs.Arr? {
        assert Unwrap(cs) == cs && Unwrap(data) == cs;
      }
    }
  }

  /** Every course list an import installs is in the canonical shape. */
  lemma ImportCanonical(file: Loaded, courses: seq<Value>, completed: Completion)
    requires Import(file, courses, completed).courses != courses
    ensures forall c :: c in Import(file, courses, completed).courses ==> CanonicalCourse(c)
  {
    TransformCanonical(file.value);
  }

  /**
   * `{"courses": "not-an-array"}` changes nothing; the source shows no
   * alert for it either.
   */
  lemma ImportRejectsNonArray(courses: seq<Value>, completed: Completion)
    ensures Import(Parsed(Obj(map["courses" := Str("not-an-array")])), courses, completed)
         == ImportResult(courses, completed, false)
  {
  }

  /** Importing an exported snapshot of canonical courses restores both parts exactly. */
  lemma {:induction false} ExportImportRoundTrip(courses: seq<Value>, completed: Completion, current: seq<Value>, currentMap: Completion)
    requires forall c :: c in courses ==> CanonicalCourse(c)
    ensures Import(Parsed(Export(courses, completed)), current, currentMap) == ImportResult(courses, completed, false)
  {
    var data := Export(courses, completed);
    assert Unwrap(data) == Arr(courses);
    CanonicalFixpoint(courses);
  }

  // ---------------------------------------------------------------------
  // Selection from URL parameters

  /** The selected course, topic and subtopic (`null` is `None`). */
  datatype Selection = Selection(course: Option<Value>, topic: Option<Value>, subtopic: Option<Value>)

  /** A URL parameter that is present and non-empty (truthy). */
  predicate Given(param: Option<string>)
  {
    param.Some? && param.value != ""
  }

  /** `items.find(x => x.id === id)`: the first entry whose id is `id`. */
  function FindById(items: seq<Value>, id: Value): (r: Option<Value>)
    ensures r.Some? ==> exists i :: 0 <= i < |items| && items[i] == r.value && Get(items[i], "id") == id
                          && forall j :: 0 <= j < i ==> Get(items[j], "id") != id
    ensures r.None? ==> forall x :: x in items ==> Get(x, "id") != id
  {
    if items == [] then None
    else if Get(items[0], "id") == id then Some(items[0])
    else
      var r := FindById(items[1..], id);
      assert forall x :: x in items ==> x == items[0] || x in items[1..];
      assert r.Some? ==> exists i :: 1 <= i < |items| && items[i] == r.value && Get(items[i], "id") == id
                          && forall j :: 0 <= j < i ==> Get(items[j], "id") != id by {
        if r.Some? {
          var i :| 0 <= i < |items[1..]| && items[1..][i] == r.value && Get(items[1..][i], "id") == id
                   && forall j :: 0 <= j < i ==> Get(items[1..][j], "id") != id;
          assert items[i + 1] == r.value;
          assert forall j :: 1 <= j < i + 1 ==> Get(items[j], "id") != id by {
            forall j | 1 <= j < i + 1 ensures Get(items[j], "id") != id {
              assert items[j] == items[1..][j - 1];
            }
          }
        }
      }
      r
  }

  /** `FindById` on the `key` list of `parent`, when that list is an array. */
  function FindChild(parent: Value, key: string, id: Value): (r: Option<Value>)
    ensures !Get(parent, key).Arr? ==> r == None
    ensures r.Some? ==> r.value in Get(parent, key).elems && Get(r.value, "id") == id
    ensures r.Some? ==> var items := Get(parent, key).elems;
      exists i :: 0 <= i < |items| && items[i] == r.value && forall j :: 0 <= j < i ==> Get(items[j], "id") != id
    ensures Get(parent, key).Arr? && r.None? ==> forall x :: x in Get(parent, key).elems ==> Get(x, "id") != id
  {
    if Get(parent, key).Arr? then FindById(Get(parent, key).elems, id) else None
  }

  /** The effect that applies the `course`, `topic` and `subtopic` URL parameters to the selection. */
  function ResolveUrl(courses: seq<Value>, courseParam: Option<string>, topicParam: Option<string>,
                      subtopicParam: Option<string>, sel: Selection): (r: Selection)
    ensures !Given(courseParam) || FindById(courses, Str(courseParam.value)).None? ==> r == sel
    ensures r.course != sel.course ==> Given(courseParam) && r.course == FindById(courses, Str(courseParam.value))
    ensures r.topic != sel.topic ==>
      && Given(courseParam) && Given(topicParam)
      && r.course.Some? && r.course == FindById(courses, Str(courseParam.value))
      && r.topic.Some? && r.topic == FindChild(r.course.value, "topics", Str(topicParam.value))
    ensures r.subtopic != sel.subtopic ==>
      && Given(courseParam) && Given(topicParam) && Given(subtopicParam)
      && r.course.Some? && r.course == FindById(courses, Str(courseParam.value))
      && r.topic.Some? && r.topic == FindChild(r.course.value, "topics", Str(topicParam.value))
      && r.subtopic.Some? && r.subtopic == FindChild(r.topic.value, "subtopics", Str(subtopicParam.value))
    ensures Given(courseParam) && FindById(courses, Str(courseParam.value)).Some? ==>
      var course := FindById(courses, Str(courseParam.value)).value;
      && r.course == Some(course)
      && (Given(topicParam) && FindChild(course, "topics", Str(topicParam.value)).Some? ==>
            var topic := FindChild(course, "topics", Str(topicParam.value)).value;
            && r.topic == Some(topic)
            && (Given(subtopicParam) && FindChild(topic, "subtopics", Str(subtopicParam.value)).Some? ==>
                  r.subtopic == FindChild(topic, "subtopics", Str(subtopicParam.value))))
  {
    if !(Given(courseParam) && |courses| > 0) then sel
    else
      match FindById(courses, Str(courseParam.value))
      case None => sel
      case Some(course) =>
        if !(Given(topicParam) && Get(course, "topics").Arr?) then sel.(course := Some(course))
        else
          match FindChild(course, "topics", Str(topicParam.value))
          case None => sel.(course := Some(course))
          case Some(topic) =>
            if !(Given(subtopicParam) && Get(topic, "subtopics").Arr?) then sel.(course := Some(course), topic := Some(topic))
            else
              match FindChild(topic, "subtopics", Str(subtopicParam.value))
              case None => sel.(course := Some(course), topic := Some(topic))
              case Some(sub) => Selection(Some(course), Some(topic), Some(sub))
  }

  // ---------------------------------------------------------------------
  // Course list edits

  /** `{...newCourse, id: newCourse.id || Date.now().toString(), topics: newCourse.topics || []}`. */
  function WithDefaults(newCourse: map<string, Value>, now: nat): (c: Value)
    ensures c.Obj? && c.fields.Keys == newCourse.Keys + {"id", "topics"}
    ensures Truthy(c.fields["id"]) && Truthy(c.fields["topics"])
    ensures "id" in newCourse && Truthy(newCourse["id"]) ==> c.fields["id"] == newCourse["id"]
    ensures "topics" in newCourse && Truthy(newCourse["topics"]) ==> c.fields["topics"] == newCourse["topics"]
    ensures !("id" in newCourse && Truthy(newCourse["id"])) ==> c.fields["id"] == Str(NatToString(now))
    ensures !("topics" in newCourse && Truthy(newCourse["topics"])) ==> c.fields["topics"] == Arr([])
    ensures forall k :: k in newCourse && k != "id" && k != "topics" ==> c.fields[k] == newCourse[k]
  {
    var v := Obj(newCourse);
    Obj(newCourse["id" := Or(Get(v, "id"), Str(NatToString(now)))]["topics" := Or(Get(v, "topics"), Arr([]))])
  }

  /** `currentCourses.filter(c => c.id !== courseId)`. */
  function Remaining(courses: seq<Value>, courseId: Value): (r: seq<Value>)
    ensures forall c :: c in r <==> c in courses && Get(c, "id") != courseId
  {
    Seqs.Filter(courses, c => Get(c, "id") != courseId)
  }

  /**
   * `deleteCourse` keeps the surviving courses in their original order, each
   * as many times as it occurred.
   */
  lemma RemainingInOrder(courses: seq<Value>, courseId: Value)
    ensures Seqs.IsSubsequence(Remaining(courses, courseId), courses)
    ensures forall c :: multiset(Remaining(courses, courseId))[c]
                     == if Get(c, "id") != courseId then multiset(courses)[c] else 0
  {
    Seqs.FilterIsSubsequence(courses, c => Get(c, "id") != courseId);
    Seqs.FilterCounts(courses, c => Get(c, "id") != courseId);
  }

  /** A course value with a non-empty string id is appended by `addCourse` as it is. */
  lemma CourseValueKept(c: AddCourseModal.Course, now: nat)
    requires c.id != ""
    ensures WithDefaults(AddCourseModal.CourseValue(c).fields, now) == AddCourseModal.CourseValue(c)
  {
    var f := AddCourseModal.CourseValue(c).fields;
    assert f["id" := f["id"]]["topics" := f["topics"]] == f;
  }

  /**
   * A course built by the add-course form already has a truthy id and a
   * `topics` array, so `addCourse` appends it exactly as submitted.
   */
  lemma SubmittedCourseAddedAsIs(title: string, description: string, topics: seq<AddCourseModal.Topic>,
                                 stamp: nat, now: nat)
    requires AddCourseModal.Submit(title, description, topics, stamp).Success?
    ensures var c := AddCourseModal.CourseValue(AddCourseModal.Submit(title, description, topics, stamp).value);
      WithDefaults(c.fields, now) == c
  {
    var c := AddCourseModal.Submit(title, description, topics, stamp).value;
    assert c.id == "course-" + NatToString(stamp);
    CourseValueKept(c, now);
  }

  /**
   * `selectedCourse?.id === courseId`: with no selected course the optional
   * chain yields `undefined`, which equals an `undefined` course id.
   */
  predicate IsSelected(selected: Option<Value>, courseId: Value)
    ensures selected.Some? ==> (IsSelected(selected, courseId) <==> Get(selected.value, "id") == courseId)
    ensures selected.None? ==> (IsSelected(selected, courseId) <==> courseId == Undefined)
  {
    Get(if selected.Some? then selected.value else Undefined, "id") == courseId
  }


  /** The application state held by `App`. */
  class App {
    /** The bundled catalogue (`courses.json`). */
    const bundled: Value
    var courses: seq<Value>
    var completed: Completion
    var selCourse: Option<Value>
    var selTopic: Option<Value>
    var selSubtopic: Option<Value>

    /** The `useState` initialisers: restore from storage or fall back to defaults. */
    constructor (savedCourses: Loaded, savedCompletion: Loaded, bundled: Value)
      ensures this.bundled == bundled
      ensures courses == RestoredCourses(savedCourses, bundled)
      ensures completed == RestoredCompletion(savedCompletion)
      ensures selCourse == None && selTopic == None && selSubtopic == None
    {
      this.bundled := bundled;
      courses := RestoredCourses(savedCourses, bundled);
      completed := RestoredCompletion(savedCompletion);
      selCourse, selTopic, selSubtopic := None, None, None;
    }

    /** `toggleSubtopicCompletion`. */
    method ToggleSubtopicCompletion(courseId: Value, topicId: Value, subtopicId: Value)
      modifies this
      ensures completed == Toggle(old(completed), courseId, topicId, subtopicId)
      ensures courses == old(courses)
      ensures selCourse == old(selCourse) && selTopic == old(selTopic) && selSubtopic == old(selSubtopic)
    {
      completed := Toggle(completed, courseId, topicId, subtopicId);
    }

    /** `getCourseProgress`, with its `forEach` accumulation loop. */
    method GetCourseProgress(course: Value) returns (p: Stats)
      ensures p == CourseProgress(completed, course)
    {
      if !Truthy(course) || !Get(course, "topics").Arr? {
        return Stats(0, 0, 0);
      }
      var topics := Get(course, "topics").elems;
      var courseId := Get(course, "id");
      var totalSubtopics: nat := 0;
      var completedCount: nat := 0;
      for i := 0 to |topics|
        invariant Tally(completedCount, totalSubtopics) == SumTopics(completed, courseId, topics[..i])
      {
        var topic := topics[i];
        var subs := Get(topic, "subtopics");
        if subs.Arr? {
          totalSubtopics := totalSubtopics + |subs.elems|;
          completedCount := completedCount + CountCompleted(completed, courseId, Get(topic, "id"), subs.elems);
        }
        assert topics[..i + 1][..i] == topics[..i];
      }
      assert topics[..|topics|] == topics;
      p := Stats(completedCount, totalSubtopics, Percentage(completedCount, totalSubtopics));
    }

    /** `addCourse`: appends one course with its id and topics defaulted. */
    method AddCourse(newCourse: map<string, Value>, now: nat)
      modifies this
      ensures courses == old(courses) + [WithDefaults(newCourse, now)]
      ensures completed == old(completed)
      ensures selCourse == old(selCourse) && selTopic == old(selTopic) && selSubtopic == old(selSubtopic)
    {
      courses := courses + [WithDefaults(newCourse, now)];
    }

    /** `deleteCourse`: drops every course with that id and clears a selection of it. */
    method DeleteCourse(courseId: Value)
      modifies this
      ensures courses == Remaining(old(courses), courseId)
      ensures completed == old(completed)
      ensures IsSelected(old(selCourse), courseId) ==>
        selCourse == None && selTopic == None && selSubtopic == None
      ensures !IsSelected(old(selCourse), courseId) ==>
        selCourse == old(selCourse) && selTopic == old(selTopic) && selSubtopic == old(selSubtopic)
    {
      courses := Remaining(courses, courseId);
      if IsSelected(selCourse, courseId) {
        selCourse, selTopic, selSubtopic := None, None, None;
      }
    }

    /** `resetData`: normalised defaults, no completions, no selection. */
    method ResetData()
      modifies this
      ensures courses == TransformCoursesData(bundled)
      ensures completed == map[]
      ensures selCourse == None && selTopic == None && selSubtopic == None
    {
      courses := TransformCoursesData(bundled);
      completed := map[];
      selCourse, selTopic, selSubtopic := None, None, None;
    }

    /** `importData` once the chosen file has been read. */
    method ImportData(file: Loaded) returns (alerted: bool)
      modifies this
      ensures var r := Import(file, old(courses), old(completed));
        courses == r.courses && completed == r.completed && alerted == r.alerted
      ensures selCourse == old(selCourse) && selTopic == old(selTopic) && selSubtopic == old(selSubtopic)
    {
      var r := Import(file, courses, completed);
      courses, completed, alerted := r.courses, r.completed, r.alerted;
    }

    /** The URL-parameter effect. */
    method ApplyUrl(courseParam: Option<string>, topicParam: Option<string>, subtopicParam: Option<string>)
      modifies this
      ensures var r := ResolveUrl(old(courses), courseParam, topicParam, subtopicParam,
                                  Selection(old(selCourse), old(selTopic), old(selSubtopic)));
        selCourse == r.course && selTopic == r.topic && selSubtopic == r.subtopic
      ensures courses == old(courses) && completed == old(completed)
    {
      var r := ResolveUrl(courses, courseParam, topicParam, subtopicParam, Selection(selCourse, selTopic, selSubtopic));
      selCourse, selTopic, selSubtopic := r.course, r.topic, r.subtopic;
    }

    /** `handleSelectCourse`: select the course, clear topic and subtopic. */
    method HandleSelectCourse(course: Value)
      modifies this
      ensures selCourse == Some(course) && selTopic == None && selSubtopic == None
      ensures courses == old(courses) && completed == old(completed)
    {
      selCourse, selTopic, selSubtopic := Some(course), None, None;
    }

    /** `handleSelectTopic`: select the topic, clear the subtopic. */
    method HandleSelectTopic(topic: Value)
      modifies this
      ensures selTopic == Some(topic) && selSubtopic == None && selCourse == old(selCourse)
      ensures courses == old(courses) && completed == old(completed)
    {
      selTopic, selSubtopic := Some(topic), None;
    }

    /** `handleSelectSubtopic`: select the subtopic only. */
    method HandleSelectSubtopic(subtopic: Value)
      modifies this
      ensures selSubtopic == Some(subtopic) && selCourse == old(selCourse) && selTopic == old(selTopic)
      ensures courses == old(courses) && completed == old(completed)
    {
      selSubtopic := Some(subtopic);
    }
  }
}
