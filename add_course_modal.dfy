/**
 * The `AddCourseModal` form (src/components/AddCourseModal.jsx): a draft
 * course whose topic list is edited by id-keyed handlers, and the submit
 * step that validates the draft and builds the new course.
 */
module AddCourseModal {
  import opened Wrappers
  import opened JsText
  import opened JsValue
  import Seqs

  datatype Subtopic = Subtopic(id: string, title: string, content: string)
  datatype Topic = Topic(id: string, title: string, subtopics: seq<Subtopic>)
  datatype Course = Course(id: string, title: string, description: string, topics: seq<Topic>)

  /** The subtopic field an `updateSubtopic` call names. */
  datatype SubtopicField = TitleField | ContentField

  /** The two alerts that stop a submit. */
  datatype SubmitError = MissingTitle | NoTopics

  /** `{ id: `subtopic-${Date.now()}`, title: '', content: '' }`. */
  function BlankSubtopic(stamp: nat): Subtopic
  {
    Subtopic("subtopic-" + NatToString(stamp), "", "")
  }

  /** The topic `addTopic` appends: an empty title and one blank subtopic. */
  function BlankTopic(topicStamp: nat, subtopicStamp: nat): Topic
  {
    Topic("topic-" + NatToString(topicStamp), "", [BlankSubtopic(subtopicStamp)])
  }

  /** `topics.filter((t: Topic) => t.id !== topicId)`. */
  function WithoutTopic(topics: seq<Topic>, topicId: string): (r: seq<Topic>)
    ensures forall t :: t in r <==> t in topics && t.id != topicId
  {
    Seqs.Filter(topics, (t: Topic) => t.id != topicId)
  }

  /**
   * `removeTopic` keeps the remaining topics in their original order, each
   * as many times as it occurred, and drops every occurrence of the others.
   */
  lemma WithoutTopicInOrder(topics: seq<Topic>, topicId: string)
    ensures Seqs.IsSubsequence(WithoutTopic(topics, topicId), topics)
    ensures forall t :: multiset(WithoutTopic(topics, topicId))[t] == if t.id != topicId then multiset(topics)[t] else 0
  {
    Seqs.FilterIsSubsequence(topics, (t: Topic) => t.id != topicId);
    Seqs.FilterCounts(topics, (t: Topic) => t.id != topicId);
  }

  /** `updateTopic(topicId, 'title', value)`: retitles every topic with that id. */
  function RetitleTopic(topics: seq<Topic>, topicId: string, value: string): (r: seq<Topic>)
    ensures |r| == |topics|
    ensures forall i :: 0 <= i < |r| ==> r[i].id == topics[i].id && r[i].subtopics == topics[i].subtopics
    ensures forall i :: 0 <= i < |r| ==> r[i].title == if topics[i].id == topicId then value else topics[i].title
  {
    seq(|topics|, i requires 0 <= i < |topics| =>
      if topics[i].id == topicId then topics[i].(title := value) else topics[i])
  }

  /** `addSubtopic(topicId)`: one blank subtopic appended to every topic with that id. */
  function AppendSubtopic(topics: seq<Topic>, topicId: string, stamp: nat): (r: seq<Topic>)
    ensures |r| == |topics|
    ensures forall i :: 0 <= i < |r| && topics[i].id != topicId ==> r[i] == topics[i]
    ensures forall i :: 0 <= i < |r| && topics[i].id == topicId ==>
      r[i].id == topics[i].id && r[i].title == topics[i].title
      && r[i].subtopics == topics[i].subtopics + [BlankSubtopic(stamp)]
  {
    seq(|topics|, i requires 0 <= i < |topics| =>
      if topics[i].id == topicId then topics[i].(subtopics := topics[i].subtopics + [BlankSubtopic(stamp)])
      else topics[i])
  }

  /** `removeSubtopic(topicId, subtopicId)`: only the matching topics' subtopic lists shrink. */
  function DropSubtopic(topics: seq<Topic>, topicId: string, subtopicId: string): (r: seq<Topic>)
    ensures |r| == |topics|
    ensures forall i :: 0 <= i < |r| && topics[i].id != topicId ==> r[i] == topics[i]
    ensures forall i :: 0 <= i < |r| && topics[i].id == topicId ==>
      && r[i].id == topics[i].id && r[i].title == topics[i].title
      && Seqs.IsSubsequence(r[i].subtopics, topics[i].subtopics)
      && forall s :: s in r[i].subtopics <==> s in topics[i].subtopics && s.id != subtopicId
  {
    var keep := (s: Subtopic) => s.id != subtopicId;
    assert forall i :: 0 <= i < |topics| ==>
      Seqs.IsSubsequence(Seqs.Filter(topics[i].subtopics, keep), topics[i].subtopics) by {
      forall i | 0 <= i < |topics| {
        Seqs.FilterIsSubsequence(topics[i].subtopics, keep);
      }
    }
    seq(|topics|, i requires 0 <= i < |topics| =>
      if topics[i].id == topicId then topics[i].(subtopics := Seqs.Filter(topics[i].subtopics, keep))
      else topics[i])
  }

  /**
   * In a topic that `removeSubtopic` edits, every other subtopic stays as
   * many times as it occurred, and none with the removed id is left.
   */
  lemma DropSubtopicCounts(topics: seq<Topic>, topicId: string, subtopicId: string, i: nat)
    requires i < |topics| && topics[i].id == topicId
    ensures var after := DropSubtopic(topics, topicId, subtopicId)[i].subtopics;
      forall s :: multiset(after)[s] == if s.id != subtopicId then multiset(topics[i].subtopics)[s] else 0
  {
    Seqs.FilterCounts(topics[i].subtopics, (s: Subtopic) => s.id != subtopicId);
  }

  /** `{ ...s, [field]: value }` for one subtopic. */
  function SetField(s: Subtopic, field: SubtopicField, value: string): Subtopic
  {
    match field
    case TitleField => s.(title := value)
    case ContentField => s.(content := value)
  }

  /** `updateSubtopic(topicId, subtopicId, field, value)`. */
  function EditSubtopic(topics: seq<Topic>, topicId: string, subtopicId: string,
                        field: SubtopicField, value: string): (r: seq<Topic>)
    ensures |r| == |topics|
    ensures forall i :: 0 <= i < |r| && topics[i].id != topicId ==> r[i] == topics[i]
    ensures forall i :: 0 <= i < |r| && topics[i].id == topicId ==>
      && r[i].id == topics[i].id && r[i].title == topics[i].title
      && |r[i].subtopics| == |topics[i].subtopics|
      && forall j :: 0 <= j < |r[i].subtopics| ==>
           var before, after := topics[i].subtopics[j], r[i].subtopics[j];
           && after.id == before.id
           && after.title == (if before.id == subtopicId && field == TitleField then value else before.title)
           && after.content == (if before.id == subtopicId && field == ContentField then value else before.content)
  {
    seq(|topics|, i requires 0 <= i < |topics| =>
      if topics[i].id == topicId then
        var subs := topics[i].subtopics;
        topics[i].(subtopics := seq(|subs|, j requires 0 <= j < |subs| =>
          if subs[j].id == subtopicId then SetField(subs[j], field, value) else subs[j]))
      else topics[i])
  }

  // ---------------------------------------------------------------------
  // Submit

  /** The placeholder content of a subtopic submitted without content. */
  function DefaultContent(title: string): string
  {
    "# " + title + "\n\nContent coming soon..."
  }

  /** A submitted subtopic: trimmed title, trimmed content or the placeholder. */
  function FinishSubtopic(s: Subtopic): (r: Subtopic)
    ensures r.id == s.id && r.title == Trim(s.title)
    ensures r.title != "" <==> !IsBlank(s.title)
    ensures r.content != ""
    ensures !IsBlank(s.content) ==> r.content == Trim(s.content)
    ensures !IsBlank(s.title) ==> SubmittedSubtopic(s, r)
  {
    Subtopic(s.id, Trim(s.title), if IsBlank(s.content) then DefaultContent(Trim(s.title)) else Trim(s.content))
  }

  /** The subtopics with a non-blank title, in order. */
  function TitledSubtopics(subs: seq<Subtopic>): (r: seq<Subtopic>)
    ensures forall s :: s in r <==> s in subs && !IsBlank(s.title)
    ensures |r| <= |subs|
  {
    Seqs.Filter(subs, (s: Subtopic) => !IsBlank(s.title))
  }

  /** The topics with a non-blank title, in order (`validTopics`). */
  function TitledTopics(topics: seq<Topic>): (r: seq<Topic>)
    ensures forall t :: t in r <==> t in topics && !IsBlank(t.title)
    ensures |r| <= |topics|
  {
    Seqs.Filter(topics, (t: Topic) => !IsBlank(t.title))
  }

  /** A submitted topic: trimmed title and its finished titled subtopics. */
  function FinishTopic(t: Topic): (r: Topic)
    ensures r.id == t.id && r.title == Trim(t.title)
    ensures |r.subtopics| == |TitledSubtopics(t.subtopics)|
    ensures !IsBlank(t.title) ==> SubmittedTopic(t, r)
  {
    var subs := TitledSubtopics(t.subtopics);
    var finished := seq(|subs|, k requires 0 <= k < |subs| => FinishSubtopic(subs[k]));
    assert |finished| == |subs|;
    Topic(t.id, Trim(t.title), finished)
  }

  /** Every topic of `valid`, finished, in order. */
  function FinishTopics(valid: seq<Topic>): (r: seq<Topic>)
    ensures |r| == |valid|
    ensures forall j :: 0 <= j < |r| ==> r[j] == FinishTopic(valid[j])
  {
    seq(|valid|, j requires 0 <= j < |valid| => FinishTopic(valid[j]))
  }

  /** `handleSubmit`: the two early returns, or the course handed to `onAdd`. */
  function Submit(title: string, description: string, topics: seq<Topic>, stamp: nat): (r: Result<Course, SubmitError>)
    ensures IsBlank(title) ==> r == Failure(MissingTitle)
    ensures r.Success? ==> && r.value.id == "course-" + NatToString(stamp)
                           && r.value.title == Trim(title) && r.value.title != ""
                           && r.value.description == Trim(description)
                           && 0 < |r.value.topics| <= |topics|
  {
    if IsBlank(title) then Failure(MissingTitle)
    else
      var valid := TitledTopics(topics);
      if valid == [] then Failure(NoTopics)
      else Success(Course("course-" + NatToString(stamp), Trim(title), Trim(description), FinishTopics(valid)))
  }

  /** Submit refuses a blank title first, then a draft without a titled topic, and succeeds otherwise. */
  lemma SubmitErrors(title: string, description: string, topics: seq<Topic>, stamp: nat)
    ensures Submit(title, description, topics, stamp) == Failure(MissingTitle) <==> IsBlank(title)
    ensures Submit(title, description, topics, stamp) == Failure(NoTopics) <==>
      !IsBlank(title) && forall t :: t in topics ==> IsBlank(t.title)
    ensures Submit(title, description, topics, stamp).Success? <==>
      !IsBlank(title) && exists t :: t in topics && !IsBlank(t.title)
  {
    var valid := TitledTopics(topics);
    if valid == [] {
      assert forall t :: t in topics ==> IsBlank(t.title);
    } else {
      assert valid[0] in topics;
    }
  }

  /** One submitted subtopic: same id, trimmed non-empty title, content never empty. */
  ghost predicate SubmittedSubtopic(before: Subtopic, after: Subtopic)
  {
    && after.id == before.id
    && after.title == Trim(before.title) && after.title != ""
    && after.content == (if IsBlank(before.content) then DefaultContent(Trim(before.title)) else Trim(before.content))
    && after.content != ""
  }

  /** One submitted topic: same id, trimmed non-empty title, exactly its titled subtopics in order. */
  ghost predicate SubmittedTopic(before: Topic, after: Topic)
  {
    var kept := TitledSubtopics(before.subtopics);
    && after.id == before.id
    && after.title == Trim(before.title) && after.title != ""
    && |after.subtopics| == |kept|
    && forall k :: 0 <= k < |kept| ==> SubmittedSubtopic(kept[k], after.subtopics[k])
  }

  /**
   * The course a successful submit builds: trimmed title and description,
   * and exactly the titled topics of the draft, in order, each finished.
   */
  lemma {:induction false} SubmitBuilds(title: string, description: string, topics: seq<Topic>, stamp: nat)
    requires Submit(title, description, topics, stamp).Success?
    ensures var c := Submit(title, description, topics, stamp).value;
      var kept := TitledTopics(topics);
      && c.title == Trim(title) && c.title != "" && c.description == Trim(description)
      && Seqs.IsSubsequence(kept, topics) && |kept| > 0
      && |c.topics| == |kept|
      && forall j :: 0 <= j < |kept| ==> SubmittedTopic(kept[j], c.topics[j])
  {
    var kept := TitledTopics(topics);
    Seqs.FilterIsSubsequence(topics, (t: Topic) => !IsBlank(t.title));
    var c := Submit(title, description, topics, stamp).value;
    assert c.topics == FinishTopics(kept);
    forall j | 0 <= j < |kept| ensures SubmittedTopic(kept[j], c.topics[j]) {
      assert kept[j] in kept && c.topics[j] == FinishTopic(kept[j]);
    }
  }

  // ---------------------------------------------------------------------
  // The object handed to `onAdd`

  function SubtopicValue(s: Subtopic): Value
  {
    Obj(map["id" := Str(s.id), "title" := Str(s.title), "content" := Str(s.content)])
  }

  function TopicValue(t: Topic): Value
  {
    Obj(map["id" := Str(t.id), "title" := Str(t.title),
            "subtopics" := Arr(seq(|t.subtopics|, k requires 0 <= k < |t.subtopics| => SubtopicValue(t.subtopics[k])))])
  }

  /** The `course` object literal that `handleSubmit` passes to `onAdd`. */
  function CourseValue(c: Course): (v: Value)
    ensures v.Obj? && v.fields.Keys == {"id", "title", "description", "topics"}
    ensures v.fields["id"] == Str(c.id) && v.fields["topics"].Arr? && |v.fields["topics"].elems| == |c.topics|
  {
    Obj(map["id" := Str(c.id), "title" := Str(c.title), "description" := Str(c.description),
            "topics" := Arr(seq(|c.topics|, j requires 0 <= j < |c.topics| => TopicValue(c.topics[j])))])
  }

  // ---------------------------------------------------------------------
  // The form state

  /** The `title`, `description` and `topics` state of the modal. */
  class CourseForm {
    var title: string
    var description: string
    var topics: seq<Topic>

    /** The initial draft: empty fields and one blank topic with one blank subtopic. */
    constructor ()
      ensures title == "" && description == ""
      ensures topics == [Topic("topic-1", "", [Subtopic("subtopic-1", "", "")])]
    {
      title, description := "", "";
      topics := [Topic("topic-1", "", [Subtopic("subtopic-1", "", "")])];
    }

    /** The title input's `setTitle`. */
    method SetTitle(value: string)
      modifies this
      ensures title == value && description == old(description) && topics == old(topics)
    {
      title := value;
    }

    /** The description input's `setDescription`. */
    method SetDescription(value: string)
      modifies this
      ensures description == value && title == old(title) && topics == old(topics)
    {
      description := value;
    }

    /** `addTopic`. */
    method AddTopic(topicStamp: nat, subtopicStamp: nat)
      modifies this
      ensures topics == old(topics) + [BlankTopic(topicStamp, subtopicStamp)]
      ensures title == old(title) && description == old(description)
    {
      topics := topics + [BlankTopic(topicStamp, subtopicStamp)];
    }

    /** `removeTopic`. */
    method RemoveTopic(topicId: string)
      modifies this
      ensures topics == WithoutTopic(old(topics), topicId)
      ensures title == old(title) && description == old(description)
    {
      topics := WithoutTopic(topics, topicId);
    }

    /** `updateTopic(topicId, 'title', value)`, the only field the form edits on a topic. */
    method UpdateTopic(topicId: string, value: string)
      modifies this
      ensures topics == RetitleTopic(old(topics), topicId, value)
      ensures title == old(title) && description == old(description)
    {
      topics := RetitleTopic(topics, topicId, value);
    }

    /** `addSubtopic`. */
    method AddSubtopic(topicId: string, stamp: nat)
      modifies this
      ensures topics == AppendSubtopic(old(topics), topicId, stamp)
      ensures title == old(title) && description == old(description)
    {
      topics := AppendSubtopic(topics, topicId, stamp);
    }

    /** `removeSubtopic`. */
    method RemoveSubtopic(topicId: string, subtopicId: string)
      modifies this
      ensures topics == DropSubtopic(old(topics), topicId, subtopicId)
      ensures title == old(title) && description == old(description)
    {
      topics := DropSubtopic(topics, topicId, subtopicId);
    }

    /** `updateSubtopic`. */
    method UpdateSubtopic(topicId: string, subtopicId: string, field: SubtopicField, value: string)
      modifies this
      ensures topics == EditSubtopic(old(topics), topicId, subtopicId, field, value)
      ensures title == old(title) && description == old(description)
    {
      topics := EditSubtopic(topics, topicId, subtopicId, field, value);
    }

    /** `handleSubmit` on the current draft; `stamp` is the `Date.now()` of the new course id. */
    method HandleSubmit(stamp: nat) returns (r: Result<Course, SubmitError>)
      ensures r == Submit(title, description, topics, stamp)
    {
      r := Submit(title, description, topics, stamp);
    }
  }
}
