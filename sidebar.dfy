/**
 * The data logic of the `Sidebar` component (src/components/Sidebar.jsx):
 * the `filteredCourses` search and the `expandedTopics` flip. The search
 * evaluates `x.title?.toLowerCase().includes(query)` on values of any
 * shape; a title that is present but not a string, a `null` entry or a
 * `topics`/`subtopics` value without `some` makes it throw, modelled as
 * `None`.
 */
module Sidebar {
  import opened Wrappers
  import opened JsText
  import opened JsValue
  import Progress
  import Seqs

  /** `field?.toLowerCase().includes(query)` for an already lower-cased query. */
  function FieldIncludes(field: Value, query: string): (r: Option<bool>)
    ensures Nullish(field) ==> r == Some(false)
    ensures field.Str? ==> r == Some(Contains(Lower(field.s), query))
    ensures !Nullish(field) && !field.Str? ==> r == None
  {
    if Nullish(field) then Some(false)
    else if field.Str? then Some(Contains(Lower(field.s), query))
    else None
  }

  /** `items?.some(test)`; a missing list yields `undefined`, which the caller treats as false. */
  function SomeOf(items: Value, test: Value -> Option<bool>): (r: Option<bool>)
    ensures Nullish(items) ==> r == Some(false)
    ensures !Nullish(items) && !items.Arr? ==> r == None
    ensures r == Some(true) ==> items.Arr? && exists i :: 0 <= i < |items.elems| && test(items.elems[i]) == Some(true)
    ensures r == Some(false) && items.Arr? ==> forall x :: x in items.elems ==> test(x) == Some(false)
  {
    if Nullish(items) then Some(false)
    else if items.Arr? then SomeFrom(items.elems, test)
    else None
  }

  /** `Array.prototype.some`: stops at the first `true`; a throw before it propagates. */
  function SomeFrom(items: seq<Value>, test: Value -> Option<bool>): (r: Option<bool>)
    ensures r == Some(true) ==> exists i :: 0 <= i < |items| && test(items[i]) == Some(true)
    ensures r == Some(false) ==> forall x :: x in items ==> test(x) == Some(false)
    ensures (forall x :: x in items ==> test(x).Some?) ==> r.Some?
  {
    if items == [] then Some(false)
    else
      match test(items[0])
      case None => None
      case Some(true) => Some(true)
      case Some(false) =>
        var rest := SomeFrom(items[1..], test);
        assert forall x :: x in items ==> x == items[0] || x in items[1..];
        assert rest == Some(true) ==> exists i :: 1 <= i < |items| && test(items[i]) == Some(true) by {
          if rest == Some(true) {
            var i :| 0 <= i < |items[1..]| && test(items[1..][i]) == Some(true);
            assert items[i + 1] == items[1..][i];
          }
        }
        rest
  }

  /** The test on one subtopic: its title only (its content is not searched). */
  function SubtopicMatches(query: string): (r: Value -> Option<bool>)
    ensures forall sub :: Nullish(sub) ==> r(sub) == None
    ensures forall sub :: !Nullish(sub) ==> (r(sub) == Some(true) <==> TextHas(Get(sub, "title"), query))
    ensures forall sub :: !Nullish(sub) ==> (r(sub) == None <==> !TextOrMissing(Get(sub, "title")))
  {
    sub => if Nullish(sub) then None else FieldIncludes(Get(sub, "title"), query)
  }

  /** The test on one topic: its title, then its subtopics. */
  function TopicMatches(query: string): (r: Value -> Option<bool>)
    ensures forall topic :: Nullish(topic) ==> r(topic) == None
    ensures forall topic :: !Nullish(topic) && TextHas(Get(topic, "title"), query) ==> r(topic) == Some(true)
    ensures forall topic :: !Nullish(topic) && !TextOrMissing(Get(topic, "title")) ==> r(topic) == None
    ensures forall topic :: r(topic) == Some(false) ==> !TextHas(Get(topic, "title"), query) && !SubtopicsMention(topic, query)
  {
    topic =>
      if Nullish(topic) then None
      else
        match FieldIncludes(Get(topic, "title"), query)
        case None => None
        case Some(true) => Some(true)
        case Some(false) => SomeOf(Get(topic, "subtopics"), SubtopicMatches(query))
  }

  /** The `filter` callback on one course: title, description, then topics. */
  function CourseMatches(course: Value, query: string): (r: Option<bool>)
    ensures Nullish(course) ==> r == None
    ensures !Nullish(course) && TextHas(Get(course, "title"), query) ==> r == Some(true)
    ensures !Nullish(course) && !TextOrMissing(Get(course, "title")) ==> r == None
    ensures r == Some(false) ==> !Mentions(course, query)
  {
    if Nullish(course) then None
    else
      match FieldIncludes(Get(course, "title"), query)
      case None => None
      case Some(true) => Some(true)
      case Some(false) =>
        match FieldIncludes(Get(course, "description"), query)
        case None => None
        case Some(true) => Some(true)
        case Some(false) => SomeOf(Get(course, "topics"), TopicMatches(query))
  }

  /** `courses.filter(callback)` where the callback may throw. */
  function FilterMatching(courses: seq<Value>, query: string): (r: Option<seq<Value>>)
    ensures r.Some? <==> forall c :: c in courses ==> CourseMatches(c, query).Some?
    ensures r.Some? ==> r.value == Seqs.Filter(courses, c => CourseMatches(c, query) == Some(true))
    decreases |courses|
  {
    if courses == [] then Some([])
    else
      assert forall x :: x in courses ==> x == courses[0] || x in courses[1..];
      match CourseMatches(courses[0], query)
      case None => None
      case Some(keep) =>
        match FilterMatching(courses[1..], query)
        case None => None
        case Some(rest) => Some(if keep then [courses[0]] + rest else rest)
  }

  /** `filteredCourses`. */
  function FilteredCourses(courses: Value, searchQuery: string): (r: Option<seq<Value>>)
    ensures !courses.Arr? ==> r == Some([])
    ensures courses.Arr? && searchQuery == "" ==> r == Some(courses.elems)
  {
    if !courses.Arr? then Some([])
    else if searchQuery == "" then Some(courses.elems)
    else FilterMatching(courses.elems, Lower(searchQuery))
  }

  // ---------------------------------------------------------------------
  // What the search means

  /** A string field that contains the query once lower-cased. */
  predicate TextHas(field: Value, query: string)
  {
    field.Str? && Contains(Lower(field.s), query)
  }

  /** Some subtopic title of `topic` contains the query. */
  predicate SubtopicsMention(topic: Value, query: string)
  {
    var subs := Get(topic, "subtopics");
    subs.Arr? && exists sub :: sub in subs.elems && TextHas(Get(sub, "title"), query)
  }

  /** Some topic title, or subtopic title of some topic, contains the query. */
  predicate TopicsMention(course: Value, query: string)
  {
    var topics := Get(course, "topics");
    topics.Arr? && exists topic :: topic in topics.elems && (TextHas(Get(topic, "title"), query) || SubtopicsMention(topic, query))
  }

  /** The course title, description, a topic title or a subtopic title contains the query. */
  predicate Mentions(course: Value, query: string)
  {
    TextHas(Get(course, "title"), query) || TextHas(Get(course, "description"), query) || TopicsMention(course, query)
  }

  lemma {:induction false} TopicMatchMeaning(topic: Value, query: string)
    requires TopicMatches(query)(topic).Some?
    ensures TopicMatches(query)(topic).value <==> TextHas(Get(topic, "title"), query) || SubtopicsMention(topic, query)
  {
    var subs := Get(topic, "subtopics");
    if !TextHas(Get(topic, "title"), query) && subs.Arr? {
      var r := SomeFrom(subs.elems, SubtopicMatches(query));
      assert FieldIncludes(Get(topic, "title"), query) == Some(false);
      assert TopicMatches(query)(topic) == r;
      if r == Some(false) {
        forall sub | sub in subs.elems ensures !TextHas(Get(sub, "title"), query) {
          assert SubtopicMatches(query)(sub) == Some(false);
        }
      } else {
        assert r.Some?;
        assert r.value;
        assert r == Some(true);
        var i :| 0 <= i < |subs.elems| && SubtopicMatches(query)(subs.elems[i]) == Some(true);
        assert TextHas(Get(subs.elems[i], "title"), query);
      }
    }
  }

  /** When the callback does not throw, it keeps a course exactly when the course mentions the query. */
  lemma {:induction false} CourseMatchMeaning(course: Value, query: string)
    requires CourseMatches(course, query).Some?
    ensures CourseMatches(course, query).value <==> Mentions(course, query)
  {
    var topics := Get(course, "topics");
    if !TextHas(Get(course, "title"), query) && !TextHas(Get(course, "description"), query) && topics.Arr? {
      var r := SomeFrom(topics.elems, TopicMatches(query));
      assert CourseMatches(course, query) == r;
      if r == Some(false) {
        forall topic | topic in topics.elems
          ensures !(TextHas(Get(topic, "title"), query) || SubtopicsMention(topic, query))
        {
          TopicMatchMeaning(topic, query);
        }
      } else {
        assert r.Some?;
        assert r.value;
        assert r == Some(true);
        var i :| 0 <= i < |topics.elems| && TopicMatches(query)(topics.elems[i]) == Some(true);
        TopicMatchMeaning(topics.elems[i], query);
      }
    }
  }

  /**
   * The search result, when the search does not throw, is the
   * order-preserving subsequence of the courses that mention the
   * lower-cased query in a title, the description or a topic or subtopic
   * title.
   */
  lemma {:induction false} FilteredCoursesMeaning(courses: Value, searchQuery: string)
    requires courses.Arr? && searchQuery != ""
    requires FilteredCourses(courses, searchQuery).Some?
    ensures Seqs.IsSubsequence(FilteredCourses(courses, searchQuery).value, courses.elems)
    ensures forall c :: c in FilteredCourses(courses, searchQuery).value <==>
      c in courses.elems && Mentions(c, Lower(searchQuery))
    ensures var kept, q := FilteredCourses(courses, searchQuery).value, Lower(searchQuery);
      forall c :: multiset(kept)[c] == if c in courses.elems && Mentions(c, q) then multiset(courses.elems)[c] else 0
  {
    var q := Lower(searchQuery);
    Seqs.FilterIsSubsequence(courses.elems, c => CourseMatches(c, q) == Some(true));
    Seqs.FilterCounts(courses.elems, c => CourseMatches(c, q) == Some(true));
    forall c | c in courses.elems ensures CourseMatches(c, q) == Some(true) <==> Mentions(c, q) {
      CourseMatchMeaning(c, q);
    }
  }

  // ---------------------------------------------------------------------
  // When the search cannot throw

  /** A value that `?.toLowerCase()` accepts: missing or a string. */
  predicate TextOrMissing(v: Value)
  {
    Nullish(v) || v.Str?
  }

  predicate SearchableSubtopic(sub: Value)
  {
    !Nullish(sub) && TextOrMissing(Get(sub, "title"))
  }

  predicate SearchableTopic(topic: Value)
  {
    && !Nullish(topic) && TextOrMissing(Get(topic, "title"))
    && var subs := Get(topic, "subtopics");
       Nullish(subs) || (subs.Arr? && forall sub :: sub in subs.elems ==> SearchableSubtopic(sub))
  }

  /** A course whose every searched field is a string or missing and whose lists are arrays or missing. */
  predicate SearchableCourse(course: Value)
  {
    && !Nullish(course) && TextOrMissing(Get(course, "title")) && TextOrMissing(Get(course, "description"))
    && var topics := Get(course, "topics");
       Nullish(topics) || (topics.Arr? && forall topic :: topic in topics.elems ==> SearchableTopic(topic))
  }

  /** On searchable courses the search never throws. */
  lemma {:induction false} SearchableNeverThrows(courses: Value, searchQuery: string)
    requires courses.Arr? && forall c :: c in courses.elems ==> SearchableCourse(c)
    ensures FilteredCourses(courses, searchQuery).Some?
  {
    var q := Lower(searchQuery);
    forall c | c in courses.elems ensures CourseMatches(c, q).Some? {
      var topics := Get(c, "topics");
      if topics.Arr? {
        forall topic | topic in topics.elems ensures TopicMatches(q)(topic).Some? {
          var subs := Get(topic, "subtopics");
          if subs.Arr? {
            assert forall sub :: sub in subs.elems ==> SubtopicMatches(q)(sub).Some?;
          }
        }
      }
    }
  }

  // ---------------------------------------------------------------------
  // Expanded topics

  /** Expanded-or-not flags keyed by the topic id's property name. */
  type Flags = map<string, Value>

  /** The `expandedTopics` state of the sidebar. */
  class ExpandedTopics {
    var expanded: Flags

    constructor ()
      ensures expanded == map[]
    {
      expanded := map[];
    }

    /** `toggleTopic(topicId)`: flips the entry under the property name of `topicId`. */
    method ToggleTopic(topicId: Value)
      modifies this
      ensures expanded == Progress.Flip(old(expanded), ToStr(topicId))
    {
      expanded := Progress.Flip(expanded, ToStr(topicId));
    }
  }

  /** `toggleTopic` negates the entry it flips (absent counts as collapsed) and keeps every other entry. */
  lemma ToggleTopicEffect(expanded: Flags, topicId: Value)
    ensures var r := Progress.Flip(expanded, ToStr(topicId));
      && Truthy(r[ToStr(topicId)]) == !Truthy(Progress.Lookup(expanded, ToStr(topicId)))
      && (ToStr(topicId) !in expanded ==> Truthy(r[ToStr(topicId)]))
      && forall k :: k != ToStr(topicId) ==> Progress.Lookup(r, k) == Progress.Lookup(expanded, k)
  {
  }
}
