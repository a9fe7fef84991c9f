# Course Explorer data layer in Dafny

Course Explorer is a React application. It shows a catalogue of courses, each
made of topics, each made of subtopics. It tracks which subtopics a learner
has completed and searches the catalogue. `src/App.jsx` also defines
handlers to add, delete, reset, export and import courses, but the rendered
component tree hands none of them to a view that calls them (see "Left
out"). This project models the data layer under the views, handlers
included:

- **Course-tree transform and normaliser.** `transformCoursesData` in `src/App.jsx` is
  lenient: it keeps every field, fills missing ids with positional ones and
  replaces a non-array child list with `[]`. `normalizeCourses` in
  `src/components/normalizeCourses.js` is strict: it rebuilds each object with
  the canonical fields only.
- **Progress engine and application state.** This is the completion map
  keyed by `${courseId}-${topicId}-${subtopicId}`, its toggle and lookup, and
  topic and course progress. It also covers start-up restore, the
  add/delete/reset/import handlers, URL-parameter selection and the select
  handlers. All of these live in `src/App.jsx`.
- **Sidebar search.** The `filteredCourses` search and the `expandedTopics`
  flip, in `src/components/Sidebar.jsx`.
- **Add-course form.** Its id-keyed list edits and the validating
  `handleSubmit`, in `src/components/AddCourseModal.jsx`.

JSON values are the datatype `JsValue.Value`. Beside it sit the language
operations the code relies on: truthiness, `||`, property access, object
spread, template-literal string conversion, and `map` with a callback that
may throw. A `TypeError` thrown by reading a property of `null` or
`undefined` is modelled as `None` in three places:

- in `transformCoursesData`, whose `try`/`catch` turns it into `[]`;
- in `normalizeCourses`, which does not catch it;
- in the search.

State that the components replace with setters is modelled as the classes
`AppState.App`, `Sidebar.ExpandedTopics` and `AddCourseModal.CourseForm`.
Their methods are tied to pure functions, and the properties are proved
about those functions. `getCourseProgress` keeps its accumulation loop as a
method with a loop invariant.

Modules:

| file | module | models |
|---|---|---|
| `wrappers.dfy` | `Wrappers` | `Option`, `Result` |
| `seqs.dfy` | `Seqs` | order-preserving `filter` and the subsequence relation |
| `js_text.dfy` | `JsText` | decimal rendering, `trim`, `toLowerCase`, `includes` |
| `js_value.dfy` | `JsValue` | JSON values and the language operations above |
| `transform.dfy` | `Transform` | `transformCoursesData` |
| `normalize.dfy` | `Normalize` | `normalizeCourses` |
| `progress.dfy` | `Progress` | the completion map and the progress statistics |
| `app_state.dfy` | `AppState` | the `App` state, restore, import/export, URL selection, course edits |
| `sidebar.dfy` | `Sidebar` | `filteredCourses`, `toggleTopic` |
| `add_course_modal.dfy` | `AddCourseModal` | the add-course form and `handleSubmit` |

## Model

| member | source | states |
|---|---|---|
| JsText.NatToString | src/App.jsx:651 | the decimal text of a position is non-empty, made of digits, reads back as the number (`DigitsValue`), and has no leading zero other than `"0"` itself |
| JsText.IntToString | src/App.jsx:786 | a number renders with a leading minus sign exactly when it is negative; the digits after the sign read back as its magnitude and have no leading zero other than `"0"` itself |
| JsText.TrimStart | src/components/AddCourseModal.jsx:71 | the result is a suffix of the input; everything removed is white space; the result does not start with white space |
| JsText.TrimEnd | src/components/AddCourseModal.jsx:71 | the result is a prefix of the input; everything removed is white space; the result does not end with white space |
| JsText.Trim | src/components/AddCourseModal.jsx:71 | the result is the stretch of the input left once its leading and its trailing white space are removed: it sits at some position of the input, everything before and after it is white space, and it neither starts nor ends with white space. It is empty exactly when the input is all white space |
| JsText.Lower | src/components/Sidebar.jsx:35-43 | lower-casing keeps the length and lower-cases each character; no upper-case ASCII letter remains |
| JsText.Contains | src/components/Sidebar.jsx:37-38 | `includes`: the empty query is in every string, a contained query is no longer than the string, and every prefix of a string is contained in it |
| JsValue.Or | src/App.jsx:642 | `a \|\| b` is `a` when `a` is truthy and `b` otherwise, so it is truthy exactly when either operand is |
| JsValue.Get | src/App.jsx:651 | property access yields the own field, or `undefined` when the field is missing |
| JsValue.Spread | src/App.jsx:650 | spreading an object copies exactly its fields; a primitive other than a string contributes nothing |
| JsValue.MapAll | src/App.jsx:649-664 | `map` succeeds exactly when no callback throws; the result then has the input's length, and element i is the callback's value on element i at index i |
| JsValue.ToStr | src/App.jsx:786 | `String(v)`: `undefined` and `null` render as their names, booleans as `true`/`false`, a string as itself, a number as its sign and digits reading back as its magnitude, an empty array as `""` and an object as `[object Object]` |
| JsValue.ArrayText | src/App.jsx:786 | a non-empty array renders as its first element's text, then, when more follow, a comma and the text of the rest; a `null` or `undefined` element renders as empty text |
| Seqs.Filter | src/App.jsx:853 | `filter` keeps exactly the elements that pass the test; it never lengthens; it returns everything when all pass |
| Seqs.FilterCounts | src/App.jsx:853 | `filter` keeps each passing element exactly as many times as it occurs, and no occurrence of any other element |
| Seqs.FilterLength | src/App.jsx:802-804 | the length of a filtered list is the number of its elements that pass the test |
| Seqs.FilterLengthAppend | src/App.jsx:802-804 | the number of passing elements of a concatenation is the sum of the numbers for each part |
| Seqs.FilterIsSubsequence | src/components/Sidebar.jsx:36 | `filter` keeps the survivors in their original relative order |
| Transform.Unwrap | src/App.jsx:642 | the list is the `courses` field when that field is truthy, and the input itself otherwise |
| Transform.IdOr | src/App.jsx:651 | the id is truthy; a truthy given id is kept |
| Transform.TransformCoursesData | src/App.jsx:639-669 | the result is `[]` unless the unwrapped input is an array; a non-empty result has one course per input course |
| Transform.TransformSubtopic | src/App.jsx:657-660 | a subtopic transforms exactly when it is not nullish; the result keeps every other field of the subtopic and gets its truthy id or `subtopic-k` |
| Transform.TransformTopic | src/App.jsx:653-662 | a nullish topic throws. A transformed topic keeps every other field, gets its truthy id or `topic-j`, and has a `subtopics` array with one entry per input subtopic, or `[]` when the input has no array |
| Transform.TransformCourse | src/App.jsx:649-664 | a nullish course throws. A transformed course keeps every other field, gets its truthy id or `course-i`, and has a `topics` array with one entry per input topic, or `[]` when the input has no array |
| Transform.TopicResult | src/App.jsx:653-662 | a topic transforms without throwing exactly when it and its subtopics are not nullish; the transformed topic keeps the other fields, gets an id or `topic-j`, and maps the subtopics one for one (or gets `[]` when they are not an array) |
| Transform.CourseResult | src/App.jsx:649-664 | the same as `TopicResult`, one level up, for a course and its topics |
| Transform.TransformSpec | src/App.jsx:639-669 | the result is `[]` when the list is not an array or some entry is `null`/`undefined` (the caught `TypeError`). Otherwise it has one course per input course, in order. Each keeps its other fields, gets its id or `course-i`/`topic-j`/`subtopic-k`, and has child arrays defaulting to `[]` at every level |
| Transform.TopicCanonical | src/App.jsx:653-662 | every transformed topic has a truthy id and a subtopic array of entries with truthy ids |
| Transform.CourseCanonical | src/App.jsx:649-664 | every transformed course has a truthy id and an array of canonical topics |
| Transform.TransformCanonical | src/App.jsx:649-664 | every course in the result is canonical |
| Transform.SubtopicFixpoint | src/App.jsx:657-660 | a subtopic with a truthy id is returned unchanged |
| Transform.TopicFixpoint | src/App.jsx:653-662 | a canonical topic is returned unchanged |
| Transform.CourseFixpoint | src/App.jsx:649-664 | a canonical course is returned unchanged |
| Transform.CanonicalFixpoint | src/App.jsx:649-664 | a list of canonical courses is returned unchanged |
| Transform.TransformIdempotent | src/App.jsx:639-669 | transforming the result again returns the same list |
| Normalize.MapChildren | src/components/normalizeCourses.js:6-14 | a missing child list becomes `[]`; an array is mapped; any other value throws (`x.map` is not a function) |
| Normalize.NormalizeSubtopic | src/components/normalizeCourses.js:9-13 | a subtopic normalises exactly when it is not nullish, to an object with only id, title and content: the truthy id or k+1, the title or `"Untitled Subtopic"`, the content or `""` |
| Normalize.NormalizeTopic | src/components/normalizeCourses.js:6-14 | a nullish topic throws. A normalised topic has only id, title and subtopics; the id is the truthy id or j+1, the title is truthy and the subtopics are an array |
| Normalize.NormalizeCourse | src/components/normalizeCourses.js:2-15 | a nullish course throws. A normalised course has only id, title, description and topics; the id is the truthy id or i+1, the title is truthy and the topics are an array |
| Normalize.NormalizeCourses | src/components/normalizeCourses.js:1-16 | `courses.map` throws unless the input is an array; on success there is one output course per input course |
| Normalize.TopicSucceeds | src/components/normalizeCourses.js:6-14 | a topic normalises without throwing exactly when it is not nullish, and its subtopics are either missing or an array of non-nullish entries |
| Normalize.CourseSucceeds | src/components/normalizeCourses.js:2-15 | the same, one level up, for a course |
| Normalize.NormalizeSucceeds | src/components/normalizeCourses.js:1-16 | `normalizeCourses` throws exactly when the input is not an array or some course, topic, subtopic or child list is malformed |
| Normalize.FirstTruthy | src/components/normalizeCourses.js:4 | a fallback chain yields its first truthy candidate, and the placeholder when no candidate is truthy; the result is always a candidate or the placeholder |
| Normalize.TopicHasShape | src/components/normalizeCourses.js:6-14 | a normalised topic has exactly the fields id, title and subtopics. Its id is the truthy id or j+1. Its title is `title`, then `topicName`, then `"Untitled Topic"`. Its subtopics keep length and order, with the subtopic fallbacks |
| Normalize.CourseHasShape | src/components/normalizeCourses.js:2-15 | a normalised course has exactly id, title, description and topics. The id is the truthy id or i+1. The title is `title`, then `courseName`, then `"Untitled Course"`. The description defaults to `""`. The topics keep length and order |
| Normalize.NormalizeSpec | src/components/normalizeCourses.js:1-16 | the output keeps length and order, drops every non-canonical field, applies every fallback, and has truthy ids and titles throughout |
| Normalize.TopicShapeIsNormal | src/components/normalizeCourses.js:6-14 | a normalised topic is in normal form |
| Normalize.CourseShapeIsNormal | src/components/normalizeCourses.js:2-15 | a normalised course is in normal form |
| Normalize.SubtopicNormalFixpoint | src/components/normalizeCourses.js:9-13 | a subtopic in normal form is rebuilt unchanged |
| Normalize.TopicNormalFixpoint | src/components/normalizeCourses.js:6-14 | a topic in normal form is rebuilt unchanged |
| Normalize.CourseNormalFixpoint | src/components/normalizeCourses.js:2-15 | a course in normal form is rebuilt unchanged |
| Normalize.NormalizeIdempotent | src/components/normalizeCourses.js:1-16 | normalising a normalised list returns it unchanged |
| Progress.Key | src/App.jsx:786 | the key is the course id's text, a `-`, the topic id's text, a `-` and the subtopic id's text: it starts with the course id's text followed by `-`, ends with the subtopic id's text, and is two characters longer than the three texts together |
| Progress.Lookup | src/App.jsx:795 | an absent key reads as `undefined` |
| Progress.IsSubtopicCompleted | src/App.jsx:793-796 | the answer is truthy exactly when the key is present with a truthy value; otherwise it is `false` |
| Progress.Flip | src/App.jsx:785-791 | the flipped map has the old keys plus the key. The key's value negates the old truthiness, with absent counting as false. Every other entry is unchanged |
| Progress.Toggle | src/App.jsx:785-791 | `toggleSubtopicCompletion` adds only its own key to the map and leaves every other entry unchanged |
| Progress.ToggleNegates | src/App.jsx:785-796 | a toggle negates `isSubtopicCompleted` for its ids; the first toggle of an absent key gives `true` |
| Progress.ToggleFrame | src/App.jsx:785-796 | a toggle leaves the answer for every other key unchanged |
| Progress.ToggleTwice | src/App.jsx:785-796 | toggling the same ids twice restores every answer of `isSubtopicCompleted` |
| Progress.ToggleTwiceLeavesEntry | src/App.jsx:785-791 | toggling twice does not restore the map itself: an absent key comes back as an explicit `false` |
| Progress.KeyCollision | src/App.jsx:786 | the key is not injective: course `a-b`/topic `c` and course `a`/topic `b-c` share a key, so completing one marks the other |
| Progress.Percentage | src/App.jsx:808-810 | the percentage is 0 for an empty total; otherwise it is `100 * done / total` rounded to the nearest integer, halves up, and never above 100 |
| Progress.SubtopicDone | src/App.jsx:802-804 | a subtopic counts as completed exactly when the map holds a truthy value under the key of the course id, the topic id and the subtopic's `id` |
| Progress.CountCompleted | src/App.jsx:802-804 | the completed count never exceeds the number of subtopics |
| Progress.CountCompletedIsFilterLength | src/App.jsx:802-804 | the completed count is the length of the list `filter` keeps: the subtopics whose key the map marks done |
| Progress.CountCompletedSnoc | src/App.jsx:802-804 | appending a subtopic raises the completed count by one when that subtopic is completed and leaves it unchanged otherwise, so every completed entry is counted once per occurrence |
| Progress.TopicProgress | src/App.jsx:798-812 | a missing topic, or one without a subtopic array, gives `{0,0,0}`. Otherwise the total is the number of subtopics, completed is the number of them the map marks done (at most the total), and the percentage is the rounded ratio |
| Progress.SumTopics | src/App.jsx:822-828 | the summed completed count never exceeds the summed total |
| Progress.CourseProgress | src/App.jsx:814-837 | a missing course, or one without a topics array, gives `{0,0,0}`. Otherwise completed and total are the sums of the topics' completed and total counts, completed ≤ total, and the percentage is computed from the sums |
| Progress.SumTopicsAppend | src/App.jsx:822-828 | the counts over a concatenation of topic lists are the sums of the counts over each list, so every topic contributes its own counts once, whatever its position |
| Progress.SumOfTwo | src/App.jsx:822-828 | the sums over two topics are the two topics' completed and total counts added |
| Progress.TwoTopicCourse | src/App.jsx:820-836 | a two-topic course's counts are the sums of its two topics' counts, and its percentage is computed from those sums (the general sum over any list is `SumTopicsAppend`) |
| Progress.CourseNotAveraged | src/App.jsx:830-835 | topics at 1/1 and 0/3 give a course at 1/4 = 25%, not the 50% mean of the topic percentages |
| Progress.TopicAComplete | src/App.jsx:798-812 | a sample topic with its only subtopic completed is at 1/1, 100% |
| Progress.TopicBUntouched | src/App.jsx:798-812 | a sample topic with none of its three subtopics completed is at 0/3, 0% |
| Progress.TopicIgnoresKey | src/App.jsx:798-812 | an entry under a key that no subtopic of the topic uses does not change the topic's progress |
| Progress.SumIgnoresKey | src/App.jsx:822-828 | the same for the summed counts over a list of topics |
| Progress.StaleKeyInert | src/App.jsx:814-837 | a stale entry, for a key no subtopic of the course uses, does not change the course's progress |
| AppState.RestoredCourses | src/App.jsx:676-691 | the start-up courses are either the transformed bundled catalogue or a saved, parsed, non-empty array used as it is |
| AppState.RestoredCompletion | src/App.jsx:698-709 | the start-up map is either `{}` or the saved, parsed, object-like value |
| AppState.IsObjectLike | src/App.jsx:703 | `typeof parsed === 'object' && parsed !== null` holds exactly for arrays and objects, and such a value is truthy and not nullish |
| AppState.AsCompletion | src/App.jsx:703 | an accepted object is used as the completion map as it is |
| AppState.ArrayHoldsNoKey | src/App.jsx:703 | an array accepted as a completion map marks nothing completed, since every completion key contains `-` |
| AppState.RestoreCoursesRule | src/App.jsx:676-691 | saved courses are used exactly when they parse to a non-empty array, and are used untransformed; otherwise (missing, unparseable, not an array, or `[]`) the bundled catalogue is used, transformed by `transformCoursesData` |
| AppState.RestoreCompletionRule | src/App.jsx:698-709 | a saved object is restored; a missing or unparseable entry, or a non-object, gives `{}` |
| AppState.Import | src/App.jsx:886-906 | the alert fires exactly when the file does not parse or parses to `null`/`undefined`; with no file, nothing changes and no alert fires |
| AppState.Export | src/App.jsx:875-884 | the exported value has exactly the fields `courses` and `completedSubtopics`, holding the current courses and map |
| AppState.ImportRule | src/App.jsx:892-902 | an alert changes nothing. Courses are replaced only from an array `courses`, with its form transformed by `transformCoursesData`. The map is replaced only from an object-like `completedSubtopics`. Each part is decided independently |
| AppState.ImportCanonical | src/App.jsx:893-895 | imported courses are always in the canonical shape |
| AppState.ImportRejectsNonArray | src/App.jsx:893 | `{"courses": "not-an-array"}` changes nothing and shows no alert |
| AppState.ExportImportRoundTrip | src/App.jsx:875-898 | importing an export of canonical courses restores the courses and the completion map exactly |
| AppState.FindById | src/App.jsx:744 | `find` returns the first entry with the id, or none when no entry has it |
| AppState.FindChild | src/App.jsx:746-757 | a child list that is not an array finds nothing. `find` returns the first child with the id; when it finds none in an array, no child has the id |
| AppState.ResolveUrl | src/App.jsx:743-760 | a missing course parameter or a failed lookup keeps the selection. When the course is found it is selected; then, when the topic parameter is given and found in that course, that topic is selected; then, when the subtopic parameter is given and found in that topic, that subtopic is selected. Nothing is selected except such first id matches |
| AppState.WithDefaults | src/App.jsx:841-846 | an added course keeps every field. Its id is the given truthy id, and otherwise the text of the `Date.now()` stamp. Its `topics` is the given truthy value, and otherwise `[]` |
| AppState.IsSelected | src/App.jsx:855 | `selectedCourse?.id === courseId`: with a selection, it holds exactly when the selected id equals the given id; with none, exactly when the given id is `undefined` |
| AppState.Remaining | src/App.jsx:853-856 | after a deletion, a course remains exactly when it was present and its id differs |
| AppState.RemainingInOrder | src/App.jsx:853 | the remaining courses keep their original order, each with as many occurrences as before, and no course with the deleted id is left |
| AppState.CourseValueKept | src/App.jsx:841-846 | a course with a non-empty string id and a topics array is added exactly as given |
| AppState.SubmittedCourseAddedAsIs | src/components/AddCourseModal.jsx:82-99 | a course built by a successful submit passes through `addCourse`'s defaults unchanged |
| AppState.App.constructor | src/App.jsx:676-714 | the initial courses and completion map follow the restore rules, and nothing is selected |
| AppState.App.ToggleSubtopicCompletion | src/App.jsx:785-791 | the completion map is the toggled map; courses and selection are unchanged |
| AppState.App.GetCourseProgress | src/App.jsx:814-837 | the `forEach` accumulation loop returns exactly `CourseProgress` of the current map |
| AppState.App.AddCourse | src/App.jsx:839-848 | exactly one course is appended at the end; nothing else changes |
| AppState.App.DeleteCourse | src/App.jsx:850-861 | the course list becomes `Remaining`. When `IsSelected` holds, course, topic and subtopic selection are cleared (so with nothing selected, deleting an `undefined` id clears too). Otherwise the selection is kept |
| AppState.App.ResetData | src/App.jsx:863-873 | the courses become the bundled catalogue transformed by `transformCoursesData`, the map becomes empty, and nothing is selected |
| AppState.App.ImportData | src/App.jsx:886-906 | courses, map and alert are those of `Import`; the selection is unchanged |
| AppState.App.ApplyUrl | src/App.jsx:737-761 | the selection becomes `ResolveUrl` of the parameters; courses and map are unchanged |
| AppState.App.HandleSelectCourse | src/App.jsx:763-768 | the course is selected and the topic and subtopic are cleared |
| AppState.App.HandleSelectTopic | src/App.jsx:770-776 | the topic is selected, the subtopic is cleared, and the course is kept |
| AppState.App.HandleSelectSubtopic | src/App.jsx:778-783 | only the subtopic selection changes |
| Sidebar.FieldIncludes | src/components/Sidebar.jsx:37-38 | a missing field does not match; a string matches when it contains the query once lower-cased; any other value throws |
| Sidebar.SomeOf | src/components/Sidebar.jsx:40-45 | `items?.some(test)`: a missing list gives false and a non-array throws. True means some element's test is true; false means every element's test is false |
| Sidebar.SubtopicMatches | src/components/Sidebar.jsx:42-44 | a nullish subtopic throws. Otherwise it matches exactly when its title is a string containing the query, and throws exactly when its title is present but not a string |
| Sidebar.TopicMatches | src/components/Sidebar.jsx:40-45 | a nullish topic throws; a title containing the query matches; a present non-string title throws; a topic that does not match has neither its title nor any subtopic title containing the query |
| Sidebar.CourseMatches | src/components/Sidebar.jsx:36-46 | a nullish course throws; a title containing the query keeps the course; a present non-string title throws; a rejected course mentions the query nowhere |
| Sidebar.SomeFrom | src/components/Sidebar.jsx:40-45 | `some` is true only when some element's test is true, false only when every test is false, and defined when no test throws |
| Sidebar.FilterMatching | src/components/Sidebar.jsx:36-46 | the search succeeds exactly when no course's test throws, and then it is the order-preserving filter by that test |
| Sidebar.FilteredCourses | src/components/Sidebar.jsx:30-47 | a non-array `courses` gives `[]`; an empty query returns `courses` unchanged |
| Sidebar.TopicMatchMeaning | src/components/Sidebar.jsx:40-45 | a topic matches exactly when its title or some subtopic title contains the query |
| Sidebar.CourseMatchMeaning | src/components/Sidebar.jsx:36-46 | a course is kept exactly when its title, its description, a topic title or a subtopic title contains the query. Subtopic content is not searched |
| Sidebar.FilteredCoursesMeaning | src/components/Sidebar.jsx:30-47 | the result is a subsequence of `courses` in their order, holding exactly the courses that mention the lower-cased query, each as many times as it occurs in `courses` |
| Sidebar.SearchableNeverThrows | src/components/Sidebar.jsx:30-47 | when every searched field is a string or missing and every list is an array or missing, the search never throws |
| Sidebar.ExpandedTopics.constructor | src/components/Sidebar.jsx:20 | no topic starts expanded |
| Sidebar.ExpandedTopics.ToggleTopic | src/components/Sidebar.jsx:23-28 | the state becomes the flip of the entry under the topic id's property name |
| Sidebar.ToggleTopicEffect | src/components/Sidebar.jsx:23-28 | `toggleTopic` negates its entry (absent counts as collapsed, so the first flip expands) and leaves every other entry unchanged |
| AddCourseModal.WithoutTopic | src/components/AddCourseModal.jsx:26-28 | `removeTopic` keeps exactly the topics with another id |
| AddCourseModal.WithoutTopicInOrder | src/components/AddCourseModal.jsx:27 | the kept topics stay in their original order, each with as many occurrences as before, and no topic with the removed id is left |
| AddCourseModal.RetitleTopic | src/components/AddCourseModal.jsx:30-34 | `updateTopic` keeps the length. Matching topics get the new title. Ids, subtopics and every other topic are unchanged |
| AddCourseModal.AppendSubtopic | src/components/AddCourseModal.jsx:36-45 | `addSubtopic` appends exactly one blank subtopic to each matching topic and leaves the others unchanged |
| AddCourseModal.DropSubtopic | src/components/AddCourseModal.jsx:47-53 | `removeSubtopic` shrinks only the matching topics' lists. It keeps exactly the subtopics with another id, in order |
| AddCourseModal.DropSubtopicCounts | src/components/AddCourseModal.jsx:47-53 | in an edited topic, every subtopic with another id keeps all its occurrences and none with the removed id is left |
| AddCourseModal.EditSubtopic | src/components/AddCourseModal.jsx:55-66 | `updateSubtopic` changes only the named field of the matching subtopics of the matching topics. Lengths, ids and every other entry are unchanged |
| AddCourseModal.FinishSubtopic | src/components/AddCourseModal.jsx:91-95 | a submitted subtopic keeps its id and has its title trimmed, non-empty exactly when the title is not blank. Its content is never empty: the trimmed content, or the placeholder when the content is blank |
| AddCourseModal.TitledSubtopics | src/components/AddCourseModal.jsx:89-90 | exactly the subtopics whose title is not blank are kept, and the list never grows |
| AddCourseModal.TitledTopics | src/components/AddCourseModal.jsx:76 | `validTopics` holds exactly the topics whose title is not blank, and never grows |
| AddCourseModal.FinishTopic | src/components/AddCourseModal.jsx:86-96 | a submitted topic keeps its id, has its title trimmed and one subtopic per titled subtopic; a topic with a non-blank title becomes exactly a submitted topic of its titled subtopics |
| AddCourseModal.Submit | src/components/AddCourseModal.jsx:68-101 | a blank title is refused with the title alert. A built course has the id `course-` followed by the stamp, a trimmed non-empty title, a trimmed description and at least one, and at most as many, topics as the draft |
| AddCourseModal.SubmitErrors | src/components/AddCourseModal.jsx:68-80 | submit refuses a blank title; it then refuses a draft whose topics all have blank titles; it succeeds exactly otherwise |
| AddCourseModal.SubmitBuilds | src/components/AddCourseModal.jsx:82-97 | the built course has a trimmed, non-empty title and a trimmed description. Its topics are exactly the titled topics, in order, with ids kept and titles trimmed. Each keeps exactly its titled subtopics, in order, with the trimmed content or the `# title` placeholder |
| AddCourseModal.CourseValue | src/components/AddCourseModal.jsx:82-97 | the object handed to `onAdd` has exactly id, title, description and topics, with one topic object per topic |
| AddCourseModal.CourseForm.constructor | src/components/AddCourseModal.jsx:5-13 | the draft starts empty, with one blank topic `topic-1` holding one blank subtopic `subtopic-1` |
| AddCourseModal.CourseForm.SetTitle | src/components/AddCourseModal.jsx:124 | only the title changes |
| AddCourseModal.CourseForm.SetDescription | src/components/AddCourseModal.jsx:137 | only the description changes |
| AddCourseModal.CourseForm.AddTopic | src/components/AddCourseModal.jsx:15-24 | exactly one blank topic, holding one blank subtopic, is appended |
| AddCourseModal.CourseForm.RemoveTopic | src/components/AddCourseModal.jsx:26-28 | the topics become `WithoutTopic` |
| AddCourseModal.CourseForm.UpdateTopic | src/components/AddCourseModal.jsx:30-34 | the topics become `RetitleTopic` |
| AddCourseModal.CourseForm.AddSubtopic | src/components/AddCourseModal.jsx:36-45 | the topics become `AppendSubtopic` |
| AddCourseModal.CourseForm.RemoveSubtopic | src/components/AddCourseModal.jsx:47-53 | the topics become `DropSubtopic` |
| AddCourseModal.CourseForm.UpdateSubtopic | src/components/AddCourseModal.jsx:55-66 | the topics become `EditSubtopic` |
| AddCourseModal.CourseForm.HandleSubmit | src/components/AddCourseModal.jsx:68-101 | the outcome is `Submit` of the current draft, either one of the two alerts or the built course |

## Left out

- Rendering: the JSX markup of the core files, and `MainContent`, `Header` and `AdminPanel`, which are views only.
- The commented-out earlier versions at the top of `src/App.jsx`, and the users list, which is only displayed.
- Storage: the `localStorage` reads, writes, removals and save effects. A stored document is the datatype `Loaded`: missing, unparseable, or a parsed value.
- Serialisation: `JSON.parse` and `JSON.stringify`. Export is modelled as the value it serialises. The text layout, `Blob`, the download link and `FileReader` are left out; the imported file is the `Loaded` it parses to.
- `alert`, `window.confirm` and `console.*`. Only whether the import alert fires is kept.
- Navigation: `navigate`, `URLSearchParams` and `useLocation`. URL parameters are inputs that are already parsed.
- `Date.now()`: its values are natural-number parameters (`now`, `stamp`).
- Progress.Percentage: `Math.round((c / t) * 100)` is modelled as exact rational rounding, half up, not as floating point. Where the floating-point product falls just below a half the two differ by one: 23 of 40 gives 57 in the source (57.49999999999999) and 58 in the model; 29 of 200 gives 14 and 15.
- Object key order, `NaN`, and fractional or non-finite numbers: numbers are integers and objects are maps.
- Prototype properties: property access sees own fields only. A topic id such as `constructor` would read an inherited value in `toggleTopic`; completion keys always contain `-`, so the completion map is not affected.
- The wiring of the data handlers to the views. The handlers are modelled as `App` methods, but the rendered tree never calls them:
  - `Header` is given only `searchQuery` and `setSearchQuery` (`src/App.jsx:915`), yet its buttons call `exportData`, `importData` and `resetData` (`src/components/Header.jsx:65`, `:83`, `:88`).
  - `Sidebar` is given no `addCourse` or `deleteCourse` (`src/App.jsx:921-932`), yet it calls `deleteCourse` and hands `addCourse` to the `AddCourseModal` as `onAdd` (`src/components/Sidebar.jsx:98`, `:185`). `AppState.SubmittedCourseAddedAsIs` therefore describes the intended hand-off to `addCourse`.
  - `AdminPanel` receives all five handlers (`src/App.jsx:951-959`) but reads only `users` (`src/components/AdminPanel.jsx:4`).
  - `MainContent` is given no `onSelectCourse` (`src/App.jsx:933-944`), yet calls it (`src/components/MainContent.jsx:35`, `:110`).
- `normalizeCourses` has no caller among the core files. It is modelled on its own.
- JsText.Lower: lower-cases ASCII letters only, not the full Unicode case mapping of `toLowerCase`.
- JsText.IsSpace: lists the ECMAScript white-space and line-terminator code points explicitly, rather than consulting the Unicode database.
- Progress.SubtopicDone: a `null` or `undefined` subtopic makes the source throw at `sub.id` (`src/App.jsx:803`, `:825`); the model reads its id as `undefined` and counts it as not done. Such entries never reach the application state from `transformCoursesData`, whose subtopics are always objects (`Transform.TransformCanonical`), nor from `addCourse` of a submitted course. They come only from a hand-edited saved course list.
- Progress.CountCompleted: the same: a `null` subtopic counts as not done instead of throwing.
- Progress.TopicProgress: the same: a `null` subtopic counts toward the total as not done instead of throwing.
- Progress.SumTopics: the same: a `null` subtopic counts toward the total as not done instead of throwing.
- Progress.CourseProgress: the same: a `null` subtopic counts toward the total as not done instead of throwing.
- AppState.App.GetCourseProgress: a `null` entry in `course.topics` makes the source throw at `topic.subtopics`, but the model counts it as an empty topic; a `null` subtopic counts as not done instead of throwing at `sub.id`.
- AppState.Remaining: a `null` entry in the course list makes the source's `filter` throw at `c.id` (`src/App.jsx:853`); the model reads its id as `undefined` and keeps it unless the deleted id is `undefined`. As with subtopics, such entries come only from a hand-edited saved list.
- AppState.ResolveUrl: a `null` entry in a list searched by `find` makes the source throw at `c.id`, but the model skips it as a non-match.
- AppState.App.DeleteCourse: a `null` course entry is kept or dropped as `AppState.Remaining` says, instead of throwing. It also compares ids structurally. JavaScript `!==` and `===` compare objects by reference, so the model differs only when an id is itself an object or array.
- AppState.AsCompletion: an accepted array is held as its index-keyed spread rather than as an array. Lookups and toggles answer the same way, and the source's own first toggle spreads it the same way.
- AddCourseModal.CourseForm.UpdateTopic: models the `title` field only, the only field its call site (`AddCourseModal.jsx:166`) passes. `updateSubtopic` is modelled for `title` and `content`.
- Behaviour worth knowing: import of a non-array `courses` shows no alert; a saved empty course list is discarded at start-up; toggling twice restores every answer but not the map itself.
