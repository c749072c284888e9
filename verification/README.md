# GitLab task-data handler, modelled in Dafny

This project models the task-data handler of the Mylyn GitLab connector
(`GitlabTaskDataHandler`). The handler does three things:

- It turns a GitLab issue and its notes into a Mylyn task record.
- It initialises the record of a task that does not exist yet.
- It submits a record back to GitLab.

The project has four modules.

- `Common`:
  - optional values (Java `null`);
  - the decimal text Java gives `"" + n`;
  - substring occurrence;
  - `StringUtils.join`.
- `LabelHeuristics`: the priority and type heuristics.
  - A priority level (P1, P3 or P5) and an issue type are read off the comma-joined label text.
  - Each is read by running `Matcher.find` on an unanchored pattern of the shape `(?:prefix)?(a|b|c)`.
  - `Find` follows the regex engine step by step. It tries start positions left to right. At each position it tries the optional prefix first, then backtracks to the alternatives without it, and tries the alternatives in order.
  - `Leftmost` is the reference definition: the word at the leftmost position where any alternative occurs as a plain substring.
  - The two are proved equal for both patterns. So the priority and type are decided by whichever word occurs first, even inside another word: "debug" is a bug, "below" has priority P5 and "history" is a story.
- `TaskModel`: the task record.
  - It is a `TaskData` object whose root attributes form a map from attribute keys to values.
  - A value is empty, a text, or a comment entry.
- `GitlabTaskDataHandler`: the handler itself.
  - `createDefaultAttributes`.
  - `createTaskDataFromGitlabIssue`: sets the fields from the issue, sorts the notes in place by creation time, numbers the comments from 1 and adds one attribute per offered operation.
  - `initializeTaskData`.
  - `postTaskData`:
    - encodes the assignee as a three-way choice: 0 leaves it as is, -1 unassigns, otherwise the member id;
    - encodes the milestone as its id, or 0 when there is none;
    - chooses between creating and editing the issue;
    - on an edit, posts a non-empty new comment before the edit call.

Each method that changes the record is proved against a function that describes the record it
leaves:

- `DefaultValues` describes the default attributes.
- `IssueRecord` describes a record built from an issue.
- `NewTaskRecord` describes the record of a new task.

Lemmas then state what those records hold. A submission returns the remote calls it makes as an
ordered trace.

## Model

| member | source | states |
|---|---|---|
| Common.JoinContainsItem | de.weingardt.mylyn.gitlab.core/src/de/weingardt/mylyn/gitlab/core/GitlabTaskDataHandler.java:104 | every label appears whole in the label text joined with ", " |
| LabelHeuristics.Leftmost | de.weingardt.mylyn.gitlab.core/src/de/weingardt/mylyn/gitlab/core/GitlabTaskDataHandler.java:50-52 | the reference search: the word found is an alternative that occurs at the returned position, no alternative occurs earlier, and no result means no alternative occurs anywhere from the start position on |
| LabelHeuristics.AlternativeAt | de.weingardt.mylyn.gitlab.core/src/de/weingardt/mylyn/gitlab/core/GitlabTaskDataHandler.java:50-52 | the alternation tried at one position returns an alternative occurring there, or nothing when none occurs there |
| LabelHeuristics.FindIsLeftmost | de.weingardt.mylyn.gitlab.core/src/de/weingardt/mylyn/gitlab/core/GitlabTaskDataHandler.java:50-52 | when no alternative starts with a character of the optional prefix, the regex search returns the same token as the leftmost-substring search, so the prefix never changes which token wins |
| LabelHeuristics.LeftmostCharacterised | de.weingardt.mylyn.gitlab.core/src/de/weingardt/mylyn/gitlab/core/GitlabTaskDataHandler.java:50-52 | with alternatives of distinct initials, a word is the leftmost search's result exactly when it occurs with no alternative occurring before it |
| LabelHeuristics.PriorityPatternFacts | de.weingardt.mylyn.gitlab.core/src/de/weingardt/mylyn/gitlab/core/GitlabTaskDataHandler.java:50 | high, normal and low start with different letters, none of which occurs in "priority:" |
| LabelHeuristics.TypePatternFacts | de.weingardt.mylyn.gitlab.core/src/de/weingardt/mylyn/gitlab/core/GitlabTaskDataHandler.java:52 | bug, feature and story start with different letters, none of which occurs in "type:" |
| LabelHeuristics.PriorityByFirstWord | de.weingardt.mylyn.gitlab.core/src/de/weingardt/mylyn/gitlab/core/GitlabTaskDataHandler.java:203-215 | the priority is P1 iff "high" is the first priority word in the labels and P5 iff "low" is; it is P3 iff neither is first (covering "normal" first and no word at all); it is always one of P1, P3 or P5 |
| LabelHeuristics.PriorityDefault | de.weingardt.mylyn.gitlab.core/src/de/weingardt/mylyn/gitlab/core/GitlabTaskDataHandler.java:203-215 | labels holding no priority word get P3 |
| LabelHeuristics.PriorityAfterPlainText | de.weingardt.mylyn.gitlab.core/src/de/weingardt/mylyn/gitlab/core/GitlabTaskDataHandler.java:203-215 | a priority word preceded only by text without any priority word's initial decides the priority (high gives P1, low gives P5, normal gives P3) |
| LabelHeuristics.TypeByFirstWord | de.weingardt.mylyn.gitlab.core/src/de/weingardt/mylyn/gitlab/core/GitlabTaskDataHandler.java:224-231 | the type is one of "", bug, feature or story; it is "" iff no type word occurs anywhere; it is a given type word iff that word occurs first |
| LabelHeuristics.TypeAfterPlainText | de.weingardt.mylyn.gitlab.core/src/de/weingardt/mylyn/gitlab/core/GitlabTaskDataHandler.java:224-231 | a type word preceded only by text without any type word's initial is the type |
| LabelHeuristics.TypeFromLabel | de.weingardt.mylyn.gitlab.core/src/de/weingardt/mylyn/gitlab/core/GitlabTaskDataHandler.java:104-123 | an issue with a label containing a type word anywhere gets a non-empty type |
| LabelHeuristics.PrefixedLabelsExample | de.weingardt.mylyn.gitlab.core/src/de/weingardt/mylyn/gitlab/core/GitlabTaskDataHandler.java:50-52 | "priority:high, type:bug" gives priority P1 and type bug |
| LabelHeuristics.DebugExample | de.weingardt.mylyn.gitlab.core/src/de/weingardt/mylyn/gitlab/core/GitlabTaskDataHandler.java:52 | the label "debug" gives type bug (substring match) |
| LabelHeuristics.BelowExample | de.weingardt.mylyn.gitlab.core/src/de/weingardt/mylyn/gitlab/core/GitlabTaskDataHandler.java:50 | the label "below" gives priority P5 (substring match) |
| LabelHeuristics.HistoryExample | de.weingardt.mylyn.gitlab.core/src/de/weingardt/mylyn/gitlab/core/GitlabTaskDataHandler.java:52 | the label "history" gives type story (substring match) |
| LabelHeuristics.EmptyLabelsExample | de.weingardt.mylyn.gitlab.core/src/de/weingardt/mylyn/gitlab/core/GitlabTaskDataHandler.java:203-231 | empty label text gives priority P3 and type "" |
| TaskModel.TaskData.constructor | de.weingardt.mylyn.gitlab.core/src/de/weingardt/mylyn/gitlab/core/GitlabTaskDataHandler.java:100-102 | a new record has the given task id and no attributes |
| TaskModel.TaskData.CreateAttribute | de.weingardt.mylyn.gitlab.core/src/de/weingardt/mylyn/gitlab/core/GitlabTaskDataHandler.java:56-63 | creating an attribute adds it with no value and changes no other attribute |
| TaskModel.TaskData.SetValue | de.weingardt.mylyn.gitlab.core/src/de/weingardt/mylyn/gitlab/core/GitlabTaskDataHandler.java:109-143 | setting an existing attribute's value changes that attribute only |
| TaskModel.TaskData.SetComment | de.weingardt.mylyn.gitlab.core/src/de/weingardt/mylyn/gitlab/core/GitlabTaskDataHandler.java:153-160 | filling a comment attribute changes that attribute only |
| GitlabTaskDataHandler.DefaultKeyIs | de.weingardt.mylyn.gitlab.core/src/de/weingardt/mylyn/gitlab/core/GitlabTaskDataHandler.java:65-95 | the default attributes, one key at a time: every schema field except the author, the operation, and the new-comment and author attributes exactly for an existing task |
| GitlabTaskDataHandler.DefaultKeysShape | de.weingardt.mylyn.gitlab.core/src/de/weingardt/mylyn/gitlab/core/GitlabTaskDataHandler.java:65-95 | the defaults always hold the 13 schema fields and OPERATION; they hold COMMENT_NEW and AUTHOR iff the task exists; they hold no comment or operation-option key |
| GitlabTaskDataHandler.CreateDefaultAttributes | de.weingardt.mylyn.gitlab.core/src/de/weingardt/mylyn/gitlab/core/GitlabTaskDataHandler.java:65-95 | the record gains exactly the default attributes; all are empty except CREATED, which holds the time `now`; other attributes keep their values |
| GitlabTaskDataHandler.DefaultsComposed | de.weingardt.mylyn.gitlab.core/src/de/weingardt/mylyn/gitlab/core/GitlabTaskDataHandler.java:65-95 | the four creation stages together add exactly the default attributes with their default values |
| GitlabTaskDataHandler.SortNotesByCreation | de.weingardt.mylyn.gitlab.core/src/de/weingardt/mylyn/gitlab/core/GitlabTaskDataHandler.java:145-150 | the notes end up ordered by non-decreasing creation time and are a permutation of the input |
| GitlabTaskDataHandler.InsertNote | de.weingardt.mylyn.gitlab.core/src/de/weingardt/mylyn/gitlab/core/GitlabTaskDataHandler.java:145-150 | one insertion step extends the ordered prefix by one note; the new prefix is a permutation of the old one, and the notes after it are unchanged |
| GitlabTaskDataHandler.SwapDown | de.weingardt.mylyn.gitlab.core/src/de/weingardt/mylyn/gitlab/core/GitlabTaskDataHandler.java:145-150 | swapping the inserted note with a later-created left neighbour keeps the prefix ordered apart from the inserted note; the notes stay a permutation and the notes after the prefix stay unchanged |
| GitlabTaskDataHandler.Inserted | de.weingardt.mylyn.gitlab.core/src/de/weingardt/mylyn/gitlab/core/GitlabTaskDataHandler.java:145-150 | once the inserted note is no earlier than its left neighbour, the whole prefix is ordered and is a permutation of the prefix the step started from |
| GitlabTaskDataHandler.CreateTaskDataFromGitlabIssue | de.weingardt.mylyn.gitlab.core/src/de/weingardt/mylyn/gitlab/core/GitlabTaskDataHandler.java:97-171 | returns a fresh record of an existing task with the issue's iid as its id; the notes are sorted by creation time and are a permutation of the input; the attributes are exactly the issue's record built from the sorted notes and the offered operations |
| GitlabTaskDataHandler.SetIssueFields | de.weingardt.mylyn.gitlab.core/src/de/weingardt/mylyn/gitlab/core/GitlabTaskDataHandler.java:108-143 | from the defaults of an existing task, setting the fields gives the issue's record without comments or operations |
| GitlabTaskDataHandler.SetPlainFields | de.weingardt.mylyn.gitlab.core/src/de/weingardt/mylyn/gitlab/core/GitlabTaskDataHandler.java:109-119 | sets author, creation time, body, labels, project, state and title to the issue's values, in source order |
| GitlabTaskDataHandler.SetLabelFields | de.weingardt.mylyn.gitlab.core/src/de/weingardt/mylyn/gitlab/core/GitlabTaskDataHandler.java:121-123 | sets the iid, and the priority and type read from the joined labels |
| GitlabTaskDataHandler.SetOptionalFields | de.weingardt.mylyn.gitlab.core/src/de/weingardt/mylyn/gitlab/core/GitlabTaskDataHandler.java:125-143 | sets the milestone, update time and assignee only when the issue has them, and the completion time only for a closed issue; otherwise each stays empty |
| GitlabTaskDataHandler.SetFilled | de.weingardt.mylyn.gitlab.core/src/de/weingardt/mylyn/gitlab/core/GitlabTaskDataHandler.java:108-143 | setting the next field in order takes the record one step along the filling sequence |
| GitlabTaskDataHandler.FillComplete | de.weingardt.mylyn.gitlab.core/src/de/weingardt/mylyn/gitlab/core/GitlabTaskDataHandler.java:108-143 | filling all fields of the defaults with the issue's values gives the issue's record without comments or operations |
| GitlabTaskDataHandler.AddComments | de.weingardt.mylyn.gitlab.core/src/de/weingardt/mylyn/gitlab/core/GitlabTaskDataHandler.java:152-161 | the loop adds comment attributes 1 to N, each holding the matching note, and changes nothing else |
| GitlabTaskDataHandler.CommentValuesFacts | de.weingardt.mylyn.gitlab.core/src/de/weingardt/mylyn/gitlab/core/GitlabTaskDataHandler.java:152-161 | the comments added are numbered 1 to N with no gap, and comment i+1 holds note i's author, date, text and number |
| GitlabTaskDataHandler.AddOperations | de.weingardt.mylyn.gitlab.core/src/de/weingardt/mylyn/gitlab/core/GitlabTaskDataHandler.java:163-168 | the loop adds one attribute per offered operation and changes nothing else |
| GitlabTaskDataHandler.OperationValuesFacts | de.weingardt.mylyn.gitlab.core/src/de/weingardt/mylyn/gitlab/core/GitlabTaskDataHandler.java:163-168 | each offered operation has exactly one attribute, which holds its label, and there is no other |
| GitlabTaskDataHandler.RecordExtended | de.weingardt.mylyn.gitlab.core/src/de/weingardt/mylyn/gitlab/core/GitlabTaskDataHandler.java:152-168 | adding the comments and then the operations to the field record gives the full record |
| GitlabTaskDataHandler.RecordAt | de.weingardt.mylyn.gitlab.core/src/de/weingardt/mylyn/gitlab/core/GitlabTaskDataHandler.java:97-171 | a built record's attributes are exactly the defaults of an existing task, comments 1 to N and the offered operations |
| GitlabTaskDataHandler.IssueRecordLabels | de.weingardt.mylyn.gitlab.core/src/de/weingardt/mylyn/gitlab/core/GitlabTaskDataHandler.java:104-123 | LABELS is the issue's labels joined with ", "; PRIORITY and TYPE are the heuristics applied to that LABELS text |
| GitlabTaskDataHandler.IssueRecordOptional | de.weingardt.mylyn.gitlab.core/src/de/weingardt/mylyn/gitlab/core/GitlabTaskDataHandler.java:111-143 | a missing description gives BODY ""; CREATED is the issue's creation time (not the clock's); MILESTONE, UPDATED and ASSIGNEE have a value iff the issue has one |
| GitlabTaskDataHandler.IssueRecordCompletion | de.weingardt.mylyn.gitlab.core/src/de/weingardt/mylyn/gitlab/core/GitlabTaskDataHandler.java:130-138 | COMPLETED has a value iff the issue is closed, and then it equals UPDATED |
| GitlabTaskDataHandler.IssueRecordComments | de.weingardt.mylyn.gitlab.core/src/de/weingardt/mylyn/gitlab/core/GitlabTaskDataHandler.java:152-161 | comment i+1 holds sorted note i, and no other comment key exists |
| GitlabTaskDataHandler.InitializeTaskData | de.weingardt.mylyn.gitlab.core/src/de/weingardt/mylyn/gitlab/core/GitlabTaskDataHandler.java:233-248 | returns true; the record gains exactly the new-task record (project name, LABELS "", STATUS "open", MILESTONE "", CREATED `now`, the rest empty, and no COMMENT_NEW or AUTHOR); other attributes keep their values |
| GitlabTaskDataHandler.NewTaskComposed | de.weingardt.mylyn.gitlab.core/src/de/weingardt/mylyn/gitlab/core/GitlabTaskDataHandler.java:241-245 | the four overrides, applied after the defaults of a new task, give the new-task record on top of the earlier attributes |
| GitlabTaskDataHandler.NewTaskDefaults | de.weingardt.mylyn.gitlab.core/src/de/weingardt/mylyn/gitlab/core/GitlabTaskDataHandler.java:241-245 | the four overrides turn the defaults of a new task into the new-task record |
| GitlabTaskDataHandler.AssigneeWireRoundTrip | de.weingardt.mylyn.gitlab.core/src/de/weingardt/mylyn/gitlab/core/GitlabTaskDataHandler.java:265-270 | for positive member ids, the 0 / -1 / id encoding reads back as the same choice: leave as is, unassign, or assign |
| GitlabTaskDataHandler.ResolveAssigneeId | de.weingardt.mylyn.gitlab.core/src/de/weingardt/mylyn/gitlab/core/GitlabTaskDataHandler.java:263-279 | the id is 0 when the assignee is not among the changed attributes; otherwise it is the id of the member with the displayed name, or -1 when there is none |
| GitlabTaskDataHandler.PostTaskData | de.weingardt.mylyn.gitlab.core/src/de/weingardt/mylyn/gitlab/core/GitlabTaskDataHandler.java:250-312 | a new task makes exactly one create call and answers TASK_CREATED. An existing task makes a note call iff COMMENT_NEW exists and is non-empty; that call comes first and carries the comment. The single edit call comes last, carries the action found for OPERATION, and the answer is TASK_UPDATED. Both create and edit calls carry the assignee id, the milestone id (0 when none is found), labels, body and title |

## Left out

- The following are I/O and are left out: the connection lookup (`ConnectionManager.get`), the GitLab API network calls and the wrapping of `IOException` into `GitlabException`. The remote calls are returned as a trace, and the iid the create or edit call returns is a parameter.
- `downloadTaskData` is left out; it is network I/O around `createTaskDataFromGitlabIssue`.
- `getAttributeMapper` and its `Error` wrapping are left out; they are a lookup in the host framework.
- The progress monitor's begin and done calls are left out; they are user-interface plumbing.
- Attribute metadata is not modelled: type, kind, display label and read-only flag. `TaskCommentMapper.applyTo` is modelled as the comment entry it stores. `TaskOperation.applyTo` is modelled as the operation's label.
- A comment's author is kept as the author's name. The host's person object is not modelled.
- The clock reading `new Date().getTime()` is the parameter `now`.
- Dates are integers of milliseconds, written as decimal text. The 64-bit width of Java's `long` is not modelled.
- These lookups are treated as uninterpreted functions of `Lookups`: the attribute mapper's member and milestone lookups, `GitlabAction.getActions`, `GitlabAction.find` and `GitlabConnector.getTicketId`.
- Whether a record is new is fixed when the record is constructed. The host's notion of a new task is not modelled.
- The Java regex engine is modelled only for the two patterns' shape: an optional literal prefix followed by an alternation of literal words.
- SortNotesByCreation: proves ordered and permutation but not stability. `Collections.sort` is stable. Each insertion step here swaps a note only past strictly later notes, and `InsertNote` states that the notes after the step's prefix stay where they were. The stability itself is not stated as a contract.
- `createTaskDataFromGitlabIssue` is one method in the source. Here it is split into field-setting, sorting, comment and operation steps. The steps run in the same order and make the same attribute updates.
- CreateTaskDataFromGitlabIssue: requires an update time for a closed issue. The source dereferences it without a null check and would throw `NullPointerException`.
- PostTaskData: requires LABELS, TITLE, BODY and MILESTONE to be present, since the source always reads these attributes without a null check. It also requires OPERATION to be present for an existing task.
- PostTaskData: requires that the OPERATION label of an existing task is one the action table knows. The source calls `getGitlabIssueAction` on the result of `GitlabAction.find` without a null check.
- ResolveAssigneeId: requires the ASSIGNEE attribute to exist when it is among the changed attributes. The source would throw `NullPointerException` otherwise. The changed attributes are modelled as a set of keys, since only their ids are read.
- The issue's author, creation time, state and title are non-null values of their types. The source dereferences each of them without a null check: `getAuthor().getName()`, `getCreatedAt().getTime()`, `getState().equals` and `setValue(getTitle())`. A null there would throw, or store a null value, and the model does not represent that.
- The issue's labels are a sequence, never null. With a null label array, `StringUtils.join` returns null and the priority matcher then throws `NullPointerException`; the model does not represent that case.
- Each note's author and creation time are non-null values. The source dereferences both without a null check: in the sort comparator and in `getAuthor().getName()`.
- Attribute ids are taken to be pairwise distinct: the schema fields' task keys, COMMENT_NEW, OPERATION, the comment ids `PREFIX_COMMENT + n` and the operation ids `PREFIX_OPERATION + label`. They are modelled as distinct constructors of `Key`. `GitlabAttribute.getTaskKey()` and the host's prefixes are not part of this model, so a clash between them is not represented.
