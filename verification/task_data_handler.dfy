/** The task-data handler of the GitLab connector: builds a task record from a GitLab issue and
    its notes, initialises the record of a task not yet created, and submits a record back as
    a create call or as an optional note call followed by an edit call.

    Calls into code that is not part of this model (the attribute mapper's member and milestone
    lookups, the action table, the task-id parser) are the fields of `Lookups`; the remote API
    calls a submission makes are returned as a trace of `RemoteCall`s. */
module GitlabTaskDataHandler {
  import opened Common
  import opened LabelHeuristics
  import opened TaskModel

  // ---------------------------------------------------------------------------------------
  // Inputs from GitLab and from code outside this model

  /** A GitLab issue as the client library reads it; `None` stands for a `null` field. */
  datatype Issue = Issue(
    iid: int,
    title: string,
    description: Option<string>,
    labels: seq<string>,
    state: string,
    author: string,            // the author's name
    assignee: Option<string>,  // the assignee's name
    milestone: Option<string>, // the milestone's title
    createdAt: int,            // milliseconds since the epoch
    updatedAt: Option<int>)

  /** A note (comment) on an issue. */
  datatype Note = Note(author: string, createdAt: int, body: string)

  /** The issue action the client library sends with an edit (close, reopen, ...). */
  datatype IssueAction = IssueAction(name: string)

  /** The repository's connection: the GitLab project the tasks belong to. */
  datatype Connection = Connection(projectId: int, projectName: string)

  /** Lookups whose code is not part of this model. */
  datatype Lookups = Lookups(
    getActions: Issue -> seq<string>,                // labels of GitlabAction.getActions(issue)
    findAction: string -> Option<IssueAction>,       // GitlabAction.find(label), as its issue action
    findProjectMemberByName: string -> Option<int>,  // id of the project member with that name
    findMilestoneByName: string -> Option<int>,      // id of the milestone with that title
    ticketId: string -> int)                         // GitlabConnector.getTicketId

  const StateClosed: string := "closed"

  // ---------------------------------------------------------------------------------------
  // Attribute schema

  /** The thirteen schema fields every record holds. */
  const SchemaFields: set<GitlabAttribute> :=
    {Body, Title, Labels, Status, Project, Created, Completed, Updated, Assignee, Milestone, Iid, Priority, Type}

  /** The attributes `createDefaultAttributes` creates. */
  function DefaultKeys(existingTask: bool): set<Key>
  {
    {Field(Body), Field(Title), Field(Labels), Field(Status), Field(Project)} +
    {Field(Created), Field(Completed), Field(Updated), Field(Assignee), Field(Milestone)} +
    {Field(Iid), Field(Priority), Field(Type)} +
    (if existingTask then {CommentNew, Field(Author)} else {}) +
    {Operation}
  }

  /** Membership of the default attributes, one attribute at a time. */
  predicate IsDefaultKey(existingTask: bool, k: Key)
  {
    match k
    case Field(a) => a != Author || existingTask
    case CommentNew => existingTask
    case Operation => true
    case _ => false
  }

  lemma DefaultKeyIs(existingTask: bool, k: Key)
    ensures k in DefaultKeys(existingTask) <==> IsDefaultKey(existingTask, k)
  {
  }

  /** The default attributes are the schema fields and the operation, plus the new-comment and
      author attributes exactly for an existing task; none is a comment or an offered operation. */
  lemma DefaultKeysShape(existingTask: bool)
    ensures forall a :: a in SchemaFields ==> Field(a) in DefaultKeys(existingTask)
    ensures Operation in DefaultKeys(existingTask)
    ensures CommentNew in DefaultKeys(existingTask) <==> existingTask
    ensures Field(Author) in DefaultKeys(existingTask) <==> existingTask
    ensures forall k :: k in DefaultKeys(existingTask) ==> !k.Comment? && !k.OperationOption?
  {
  }

  /** The values `createDefaultAttributes` leaves in the default attributes: CREATED holds the
      time `now`, every other one is empty. */
  function DefaultValues(existingTask: bool, now: int): map<Key, Value>
  {
    map k | k in DefaultKeys(existingTask) :: if k == Field(Created) then Text(Decimal(now)) else Unset
  }

  /** `createDefaultAttributes`: creates the default attributes empty, except CREATED, which
      holds the time `now` (the clock reading the source takes itself).  Attributes outside
      the defaults keep their values. */
  method CreateDefaultAttributes(data: TaskData, existingTask: bool, now: int)
    modifies data
    ensures data.attributes == old(data.attributes) + DefaultValues(existingTask, now)
  {
    ghost var a0 := data.attributes;
    data.CreateAttribute(Field(Body));
    data.CreateAttribute(Field(Title));
    data.CreateAttribute(Field(Labels));
    data.CreateAttribute(Field(Status));
    data.CreateAttribute(Field(Project));

    data.CreateAttribute(Field(Created));
    data.CreateAttribute(Field(Completed));
    data.CreateAttribute(Field(Updated));
    data.CreateAttribute(Field(Assignee));
    data.CreateAttribute(Field(Milestone));

    data.CreateAttribute(Field(Iid));
    data.CreateAttribute(Field(Priority));
    data.CreateAttribute(Field(Type));
    ghost var a1 := data.attributes;
    assert a1 == a0[Field(Body) := Unset][Field(Title) := Unset][Field(Labels) := Unset]
      [Field(Status) := Unset][Field(Project) := Unset][Field(Created) := Unset]
      [Field(Completed) := Unset][Field(Updated) := Unset][Field(Assignee) := Unset]
      [Field(Milestone) := Unset][Field(Iid) := Unset][Field(Priority) := Unset][Field(Type) := Unset];

    data.SetValue(Field(Created), Decimal(now));
    ghost var a2 := data.attributes;

    if existingTask {
      data.CreateAttribute(CommentNew);
      data.CreateAttribute(Field(Author));
    }
    ghost var a3 := data.attributes;
    data.CreateAttribute(Operation);
    DefaultsComposed(a0, a1, a2, a3, data.attributes, existingTask, now);
  }

  /** Two records agree on attribute `k`: both hold it with the same value, or neither holds it. */
  ghost predicate AgreeAt(m: map<Key, Value>, r: map<Key, Value>, k: Key)
  {
    (k in m <==> k in r) && (k in m ==> m[k] == r[k])
  }

  /** Records that agree on every attribute are equal. */
  lemma Extensional(m: map<Key, Value>, r: map<Key, Value>)
    requires forall k :: AgreeAt(m, r, k)
    ensures m == r
  {
    assert m.Keys == r.Keys by {
      forall k | k in m.Keys ensures k in r.Keys { assert AgreeAt(m, r, k); }
      forall k | k in r.Keys ensures k in m.Keys { assert AgreeAt(m, r, k); }
    }
    forall k | k in m ensures m[k] == r[k] { assert AgreeAt(m, r, k); }
  }

  /** The four stages of `createDefaultAttributes`: the thirteen schema fields created empty,
      CREATED set to `now`, the existing-task attributes, then the operation. */
  ghost predicate DefaultStages(a0: map<Key, Value>, a1: map<Key, Value>, a2: map<Key, Value>,
                                a3: map<Key, Value>, a4: map<Key, Value>, existingTask: bool, now: int)
  {
    && a1 == a0[Field(Body) := Unset][Field(Title) := Unset][Field(Labels) := Unset]
      [Field(Status) := Unset][Field(Project) := Unset][Field(Created) := Unset]
      [Field(Completed) := Unset][Field(Updated) := Unset][Field(Assignee) := Unset]
      [Field(Milestone) := Unset][Field(Iid) := Unset][Field(Priority) := Unset][Field(Type) := Unset]
    && a2 == a1[Field(Created) := Text(Decimal(now))]
    && a3 == (if existingTask then a2[CommentNew := Unset][Field(Author) := Unset] else a2)
    && a4 == a3[Operation := Unset]
  }

  /** The stages together add exactly `DefaultValues` and keep every other attribute. */
  lemma DefaultsComposed(a0: map<Key, Value>, a1: map<Key, Value>, a2: map<Key, Value>,
                         a3: map<Key, Value>, a4: map<Key, Value>, existingTask: bool, now: int)
    requires DefaultStages(a0, a1, a2, a3, a4, existingTask, now)
    ensures a4 == a0 + DefaultValues(existingTask, now)
  {
    forall k
      ensures AgreeAt(a4, a0 + DefaultValues(existingTask, now), k)
    {
      DefaultsAt(a0, a1, a2, a3, a4, existingTask, now, k);
    }
    Extensional(a4, a0 + DefaultValues(existingTask, now));
  }

  lemma DefaultsAt(a0: map<Key, Value>, a1: map<Key, Value>, a2: map<Key, Value>,
                   a3: map<Key, Value>, a4: map<Key, Value>, existingTask: bool, now: int, k: Key)
    requires DefaultStages(a0, a1, a2, a3, a4, existingTask, now)
    ensures AgreeAt(a4, a0 + DefaultValues(existingTask, now), k)
  {
    DefaultKeyIs(existingTask, k);
  }

  // ---------------------------------------------------------------------------------------
  // Building a record from an issue

  /** Notes in non-decreasing order of creation time. */
  ghost predicate OrderedByCreation(notes: seq<Note>)
  {
    forall i, j :: 0 <= i < j < |notes| ==> notes[i].createdAt <= notes[j].createdAt
  }

  /** Sorts the notes in place by creation time (the `Collections.sort` of the builder). */
  method SortNotesByCreation(notes: array<Note>)
    modifies notes
    ensures OrderedByCreation(notes[..])
    ensures multiset(notes[..]) == multiset(old(notes[..]))
  {
    var i := 0;
    while i < notes.Length
      invariant 0 <= i <= notes.Length
      invariant OrderedByCreation(notes[..i])
      invariant multiset(notes[..]) == multiset(old(notes[..]))
    {
      InsertNote(notes, i);
      i := i + 1;
    }
    assert notes[..i] == notes[..];
  }

  /** Moves note `i` down into the ordered notes before it. */
  method InsertNote(notes: array<Note>, i: nat)
    requires i < notes.Length && OrderedByCreation(notes[..i])
    modifies notes
    ensures OrderedByCreation(notes[..i + 1])
    ensures multiset(notes[..i + 1]) == multiset(old(notes[..i + 1]))
    ensures notes[i + 1..] == old(notes[i + 1..])
    ensures multiset(notes[..]) == multiset(old(notes[..]))
  {
    ghost var s0 := notes[..];
    var j := i;
    while j > 0 && notes[j - 1].createdAt > notes[j].createdAt
      invariant 0 <= j <= i && Inserting(notes[..], s0, i, j)
    {
      ghost var s := notes[..];
      notes[j - 1], notes[j] := notes[j], notes[j - 1];
      SwapDown(s, s0, i, j);
      assert notes[..] == s[j - 1 := s[j]][j := s[j - 1]];
      j := j - 1;
    }
    Inserted(notes[..], s0, i, j);
  }

  /** Two permutations of each other with the same suffix have permuted prefixes. */
  lemma PrefixPermutation(s: seq<Note>, t: seq<Note>, n: nat)
    requires n <= |s| == |t| && s[n..] == t[n..] && multiset(s) == multiset(t)
    ensures multiset(s[..n]) == multiset(t[..n])
  {
    assert s == s[..n] + s[n..];
    assert t == t[..n] + t[n..];
    var a, b, c := multiset(s[..n]), multiset(t[..n]), multiset(s[n..]);
    assert a + c == b + c;
    forall x
      ensures a[x] == b[x]
    {
      assert (a + c)[x] == a[x] + c[x] && (b + c)[x] == b[x] + c[x];
    }
    assert a == b;
  }

  /** The first `i + 1` notes are in order, except that the one at `j` may be later than
      those after it. */
  ghost predicate OrderedBut(s: seq<Note>, i: nat, j: nat)
    requires i < |s|
  {
    forall a, b :: 0 <= a < b <= i && b != j ==> s[a].createdAt <= s[b].createdAt
  }

  /** The state of one insertion step that started from `s0`: the notes are a permutation of
      `s0`, those after `i` are untouched, and the first `i + 1` are in order but for `j`. */
  ghost predicate Inserting(s: seq<Note>, s0: seq<Note>, i: nat, j: nat)
  {
    i < |s| == |s0| && OrderedBut(s, i, j) &&
    multiset(s) == multiset(s0) && s[i + 1..] == s0[i + 1..]
  }

  /** Swapping the note at `j` with a later-created one before it moves the gap down. */
  lemma SwapDown(s: seq<Note>, s0: seq<Note>, i: nat, j: nat)
    requires 0 < j <= i && Inserting(s, s0, i, j) && s[j - 1].createdAt > s[j].createdAt
    ensures Inserting(s[j - 1 := s[j]][j := s[j - 1]], s0, i, j - 1)
  {
    var t := s[j - 1 := s[j]][j := s[j - 1]];
    assert t[i + 1..] == s[i + 1..];
  }

  /** Once the note at `j` is no earlier than the one before it, the first `i + 1` notes are in
      order and are a permutation of the first `i + 1` of `s0`. */
  lemma Inserted(s: seq<Note>, s0: seq<Note>, i: nat, j: nat)
    requires j <= i && Inserting(s, s0, i, j)
    requires j == 0 || s[j - 1].createdAt <= s[j].createdAt
    ensures OrderedByCreation(s[..i + 1])
    ensures multiset(s[..i + 1]) == multiset(s0[..i + 1])
  {
    PrefixPermutation(s, s0, i + 1);
  }

  /** The comment attributes numbered 1 to n. */
  function CommentKeys(n: nat): set<Key>
  {
    set j | 1 <= j <= n :: Comment(j)
  }

  /** The attributes offering the given operation labels. */
  function OperationKeys(labels: seq<string>): set<Key>
  {
    set l | l in labels :: OperationOption(l)
  }

  /** The comment entry a note becomes as comment number `number`. */
  function EntryFor(note: Note, number: int): CommentEntry
  {
    CommentEntry(note.author, note.createdAt, note.body, number)
  }

  /** The value a built record holds in schema field `a`: what the issue says, a `null` field
      left empty except the description, which reads as "", and the priority and type read from
      the labels joined with ", ".  Only a closed issue has a completion time: its update time. */
  function FieldValue(issue: Issue, connection: Connection, a: GitlabAttribute): Value
    requires issue.state == StateClosed ==> issue.updatedAt.Some?
  {
    match a
    case Author => Text(issue.author)
    case Created => Text(Decimal(issue.createdAt))
    case Body => Text(if issue.description.None? then "" else issue.description.value)
    case Labels => Text(Join(issue.labels, ", "))
    case Project => Text(connection.projectName)
    case Status => Text(issue.state)
    case Title => Text(issue.title)
    case Iid => Text(Decimal(issue.iid))
    case Priority => Text(GetPriority(Join(issue.labels, ", ")))
    case Type => Text(GetType(Join(issue.labels, ", ")))
    case Milestone => if issue.milestone.Some? then Text(issue.milestone.value) else Unset
    case Updated => if issue.updatedAt.Some? then Text(Decimal(issue.updatedAt.value)) else Unset
    case Completed => if issue.state == StateClosed then Text(Decimal(issue.updatedAt.value)) else Unset
    case Assignee => if issue.assignee.Some? then Text(issue.assignee.value) else Unset
  }

  /** The value of attribute `k` in a built record: comment `j` holds note `j - 1` of the
      sorted notes, an offered operation holds its label, the new-comment and operation
      attributes are empty. */
  function RecordValue(issue: Issue, connection: Connection, notes: seq<Note>, k: Key): Value
    requires issue.state == StateClosed ==> issue.updatedAt.Some?
  {
    match k
    case Field(a) => FieldValue(issue, connection, a)
    case Comment(j) => if 1 <= j <= |notes| then CommentOf(EntryFor(notes[j - 1], j)) else Unset
    case OperationOption(l) => Text(l)
    case CommentNew => Unset
    case Operation => Unset
  }

  /** The record `createTaskDataFromGitlabIssue` builds from an issue, its notes after sorting
      and the labels of the operations offered for it: the default attributes of an existing
      task, comments 1 to |notes| and one attribute per offered operation. */
  function IssueRecord(issue: Issue, connection: Connection, notes: seq<Note>, actions: seq<string>)
    : map<Key, Value>
    requires issue.state == StateClosed ==> issue.updatedAt.Some?
  {
    map k | k in DefaultKeys(true) + CommentKeys(|notes|) + OperationKeys(actions) ::
      RecordValue(issue, connection, notes, k)
  }

  /** Comment attributes 1 to |notes|, added one by one. */
  function CommentValues(notes: seq<Note>): map<Key, Value>
    decreases |notes|
  {
    if notes == [] then map[]
    else
      var n := |notes|;
      CommentValues(notes[..n - 1])[Comment(n) := CommentOf(EntryFor(notes[n - 1], n))]
  }

  /** Operation attributes, added one by one. */
  function OperationValues(actions: seq<string>): map<Key, Value>
    decreases |actions|
  {
    if actions == [] then map[]
    else
      var n := |actions|;
      OperationValues(actions[..n - 1])[OperationOption(actions[n - 1]) := Text(actions[n - 1])]
  }

  /** `createTaskDataFromGitlabIssue`: sorts the notes by creation time and builds the record. */
  method CreateTaskDataFromGitlabIssue(issue: Issue, connection: Connection, lookups: Lookups,
                                       notes: array<Note>, now: int)
    returns (data: TaskData)
    requires issue.state == StateClosed ==> issue.updatedAt.Some?
    modifies notes
    ensures fresh(data) && data.taskId == Decimal(issue.iid) && !data.isNew
    ensures OrderedByCreation(notes[..]) && multiset(notes[..]) == multiset(old(notes[..]))
    ensures data.attributes == IssueRecord(issue, connection, notes[..], lookups.getActions(issue))
  {
    data := new TaskData(Decimal(issue.iid), false);

    CreateDefaultAttributes(data, true, now);
    assert data.attributes == DefaultValues(true, now);
    SetIssueFields(data, issue, connection, now);

    SortNotesByCreation(notes);
    AddComments(data, notes);
    AddOperations(data, lookups.getActions(issue));
    RecordExtended(issue, connection, notes[..], lookups.getActions(issue));
  }

  /** The field-setting part of `createTaskDataFromGitlabIssue`: ten fields set from the issue,
      then the milestone, updated, completed and assignee fields, each only when the issue has
      a value for it.  The fields are set in `FillOrder`. */
  method SetIssueFields(data: TaskData, issue: Issue, connection: Connection, now: int)
    requires issue.state == StateClosed ==> issue.updatedAt.Some?
    requires data.attributes == DefaultValues(true, now)
    modifies data
    ensures data.attributes == IssueRecord(issue, connection, [], [])
  {
    var labels := Join(issue.labels, ", ");
    ghost var vals := IssueValues(issue, connection);
    ghost var base := DefaultValues(true, now);
    assert data.attributes == Filled(vals, base, 0);
    DefaultsFillBase(now);
    PlainValuesAre(issue, connection);
    StatusValuesAre(issue, connection);
    SetPlainFields(data, issue, connection, labels, vals, base);
    LabelValuesAre(issue, connection);
    SetLabelFields(data, issue, labels, vals, base);
    OptionalValuesAre(issue, connection);
    SetOptionalFields(data, issue, vals, base);
    FillComplete(issue, connection, now);
  }

  /** The seven fields copied from the issue and the connection, in the source's order. */
  method SetPlainFields(data: TaskData, issue: Issue, connection: Connection, labels: string,
                        ghost vals: seq<Value>, ghost base: map<Key, Value>)
    requires |vals| == |FillOrder| && vals[0] == Text(issue.author) && vals[1] == Text(Decimal(issue.createdAt))
    requires vals[2] == Text(if issue.description.None? then "" else issue.description.value)
    requires vals[3] == Text(labels) && vals[4] == Text(connection.projectName)
    requires vals[5] == Text(issue.state) && vals[6] == Text(issue.title)
    requires FillBase(base) && data.attributes == Filled(vals, base, 0)
    modifies data
    ensures data.attributes == Filled(vals, base, 7)
  {
    SetFilled(data, vals, base, 0, Author, issue.author);
    SetFilled(data, vals, base, 1, Created, Decimal(issue.createdAt));
    SetFilled(data, vals, base, 2, Body, if issue.description.None? then "" else issue.description.value);
    SetFilled(data, vals, base, 3, Labels, labels);
    SetFilled(data, vals, base, 4, Project, connection.projectName);
    SetFilled(data, vals, base, 5, Status, issue.state);
    SetFilled(data, vals, base, 6, Title, issue.title);
  }

  /** The issue number and the two fields read off the joined labels. */
  method SetLabelFields(data: TaskData, issue: Issue, labels: string,
                        ghost vals: seq<Value>, ghost base: map<Key, Value>)
    requires issue.state == StateClosed ==> issue.updatedAt.Some?
    requires |vals| == |FillOrder| && vals[7] == Text(Decimal(issue.iid))
    requires vals[8] == Text(GetPriority(labels)) && vals[9] == Text(GetType(labels))
    requires FillBase(base) && data.attributes == Filled(vals, base, 7)
    modifies data
    ensures data.attributes == Filled(vals, base, 10)
  {
    SetFilled(data, vals, base, 7, Iid, Decimal(issue.iid));
    SetFilled(data, vals, base, 8, Priority, GetPriority(labels));
    SetFilled(data, vals, base, 9, Type, GetType(labels));
  }

  /** The four fields set only when the issue carries them; otherwise they keep their default. */
  method SetOptionalFields(data: TaskData, issue: Issue, ghost vals: seq<Value>, ghost base: map<Key, Value>)
    requires issue.state == StateClosed ==> issue.updatedAt.Some?
    requires |vals| == |FillOrder|
    requires vals[10] == if issue.milestone.Some? then Text(issue.milestone.value) else Unset
    requires vals[11] == if issue.updatedAt.Some? then Text(Decimal(issue.updatedAt.value)) else Unset
    requires vals[12] == if issue.state == StateClosed then Text(Decimal(issue.updatedAt.value)) else Unset
    requires vals[13] == if issue.assignee.Some? then Text(issue.assignee.value) else Unset
    requires FillBase(base) && data.attributes == Filled(vals, base, 10)
    modifies data
    ensures data.attributes == Filled(vals, base, 14)
  {
    if issue.milestone.Some? {
      SetFilled(data, vals, base, 10, Milestone, issue.milestone.value);
    } else {
      FillSkip(vals, base, 10, Milestone);
    }

    if issue.updatedAt.Some? {
      SetFilled(data, vals, base, 11, Updated, Decimal(issue.updatedAt.value));
    } else {
      FillSkip(vals, base, 11, Updated);
    }

    if issue.state == StateClosed {
      SetFilled(data, vals, base, 12, Completed, Decimal(issue.updatedAt.value));
    } else {
      FillSkip(vals, base, 12, Completed);
    }

    if issue.assignee.Some? {
      SetFilled(data, vals, base, 13, Assignee, issue.assignee.value);
    } else {
      FillSkip(vals, base, 13, Assignee);
    }
  }

  /** One `setValue` of the field-setting part: field `a`, the next in `FillOrder`, gets its
      value. */
  method SetFilled(data: TaskData, ghost vals: seq<Value>, ghost base: map<Key, Value>, n: nat,
                   a: GitlabAttribute, v: string)
    requires |vals| == |FillOrder| && FillRank(a) == n && vals[n] == Text(v) && Field(a) in base
    requires data.attributes == Filled(vals, base, n)
    modifies data
    ensures data.attributes == Filled(vals, base, n + 1)
  {
    FillStep(vals, base, n, a);
    data.SetValue(Field(a), v);
  }

  /** The comment loop of `createTaskDataFromGitlabIssue`: note `i` becomes comment `i + 1`. */
  method AddComments(data: TaskData, notes: array<Note>)
    modifies data
    ensures data.attributes == old(data.attributes) + CommentValues(notes[..])
  {
    ghost var before := data.attributes;
    var i := 0;
    while i < notes.Length
      invariant 0 <= i <= notes.Length
      invariant data.attributes == before + CommentValues(notes[..i])
    {
      data.CreateAttribute(Comment(i + 1));
      data.SetComment(Comment(i + 1), EntryFor(notes[i], i + 1));
      assert notes[..i + 1][..i] == notes[..i];
      UnionUpdate(before, CommentValues(notes[..i]), Comment(i + 1), CommentOf(EntryFor(notes[i], i + 1)));
      i := i + 1;
    }
    assert notes[..i] == notes[..];
  }

  /** The operation loop of `createTaskDataFromGitlabIssue`: one attribute per offered action. */
  method AddOperations(data: TaskData, actions: seq<string>)
    modifies data
    ensures data.attributes == old(data.attributes) + OperationValues(actions)
  {
    ghost var before := data.attributes;
    var n := 0;
    while n < |actions|
      invariant 0 <= n <= |actions|
      invariant data.attributes == before + OperationValues(actions[..n])
    {
      data.CreateAttribute(OperationOption(actions[n]));
      data.SetValue(OperationOption(actions[n]), actions[n]);
      assert actions[..n + 1][..n] == actions[..n];
      UnionUpdate(before, OperationValues(actions[..n]), OperationOption(actions[n]), Text(actions[n]));
      n := n + 1;
    }
    assert actions[..n] == actions;
  }

  /** Updating a union at a key is updating its right operand there. */
  lemma UnionUpdate(m: map<Key, Value>, d: map<Key, Value>, k: Key, v: Value)
    ensures (m + d)[k := v] == m + d[k := v]
  {
  }

  /** The order in which the builder sets the fields. */
  const FillOrder: seq<GitlabAttribute> :=
    [Author, Created, Body, Labels, Project, Status, Title, Iid, Priority, Type,
     Milestone, Updated, Completed, Assignee]

  /** The position of a field in `FillOrder`. */
  function FillRank(a: GitlabAttribute): (n: nat)
    ensures n < |FillOrder| && FillOrder[n] == a
  {
    match a
    case Author => 0     case Created => 1    case Body => 2       case Labels => 3
    case Project => 4    case Status => 5     case Title => 6      case Iid => 7
    case Priority => 8   case Type => 9       case Milestone => 10 case Updated => 11
    case Completed => 12 case Assignee => 13
  }

  /** The values the builder gives the fields, in `FillOrder`. */
  function IssueValues(issue: Issue, connection: Connection): (vs: seq<Value>)
    requires issue.state == StateClosed ==> issue.updatedAt.Some?
    ensures |vs| == |FillOrder|
  {
    var labels := Join(issue.labels, ", ");
    [Text(issue.author), Text(Decimal(issue.createdAt)),
     Text(if issue.description.None? then "" else issue.description.value),
     Text(labels), Text(connection.projectName), Text(issue.state), Text(issue.title),
     Text(Decimal(issue.iid)), Text(GetPriority(labels)), Text(GetType(labels)),
     if issue.milestone.Some? then Text(issue.milestone.value) else Unset,
     if issue.updatedAt.Some? then Text(Decimal(issue.updatedAt.value)) else Unset,
     if issue.state == StateClosed then Text(Decimal(issue.updatedAt.value)) else Unset,
     if issue.assignee.Some? then Text(issue.assignee.value) else Unset]
  }

  /** The builder gives each field the value the issue's record holds there. */
  lemma IssueValuesAt(issue: Issue, connection: Connection, a: GitlabAttribute)
    requires issue.state == StateClosed ==> issue.updatedAt.Some?
    ensures IssueValues(issue, connection)[FillRank(a)] == FieldValue(issue, connection, a)
  {
  }

  /** A record the fields can be filled into: it holds every field, all empty except CREATED. */
  ghost predicate FillBase(base: map<Key, Value>)
  {
    forall a :: Field(a) in base && (a != Created ==> base[Field(a)] == Unset)
  }

  /** The defaults of an existing task are such a record. */
  lemma DefaultsFillBase(now: int)
    ensures FillBase(DefaultValues(true, now))
  {
    forall a
      ensures Field(a) in DefaultValues(true, now)
      ensures a != Created ==> DefaultValues(true, now)[Field(a)] == Unset
    {
      DefaultKeyIs(true, Field(a));
    }
  }

  /** `base` with the first `n` fields of `FillOrder` set, one after the other, to `vals`:
      what the builder holds while it fills the fields. */
  function Filled(vals: seq<Value>, base: map<Key, Value>, n: nat): map<Key, Value>
    requires n <= |vals| == |FillOrder|
  {
    if n == 0 then base
    else Filled(vals, base, n - 1)[Field(FillOrder[n - 1]) := vals[n - 1]]
  }

  /** The first `n` fields hold their values, every other attribute is as in `base`. */
  lemma {:induction false} FilledAt(vals: seq<Value>, base: map<Key, Value>, n: nat, k: Key)
    requires n <= |vals| == |FillOrder|
    ensures k in Filled(vals, base, n) <==> k in base || (k.Field? && FillRank(k.attribute) < n)
    ensures k in Filled(vals, base, n) ==>
      Filled(vals, base, n)[k] ==
        if k.Field? && FillRank(k.attribute) < n then vals[FillRank(k.attribute)] else base[k]
  {
    if n > 0 {
      FilledAt(vals, base, n - 1, k);
      if k.Field? && FillRank(k.attribute) == n - 1 {
        assert k == Field(FillOrder[n - 1]);
      }
    }
  }

  /** The next field is an attribute of the record, and setting it fills it. */
  lemma FillStep(vals: seq<Value>, base: map<Key, Value>, n: nat, a: GitlabAttribute)
    requires |vals| == |FillOrder| && FillRank(a) == n && Field(a) in base
    ensures Field(a) in Filled(vals, base, n)
    ensures Filled(vals, base, n + 1) == Filled(vals, base, n)[Field(a) := vals[n]]
  {
    FilledAt(vals, base, n, Field(a));
  }

  /** The next field, empty in `base` and with no value, is filled without being set. */
  lemma FillSkip(vals: seq<Value>, base: map<Key, Value>, n: nat, a: GitlabAttribute)
    requires |vals| == |FillOrder| && FillRank(a) == n && vals[n] == Unset
    requires Field(a) in base && base[Field(a)] == Unset
    ensures Filled(vals, base, n + 1) == Filled(vals, base, n)
  {
    FilledAt(vals, base, n, Field(a));
    var m := Filled(vals, base, n);
    assert m[Field(a) := Unset] == m;
  }

  /** Every field of the defaults filled with the issue's values gives the record of the issue
      without notes and operations: the new-comment and operation attributes keep their empty
      defaults. */
  lemma FillComplete(issue: Issue, connection: Connection, now: int)
    requires issue.state == StateClosed ==> issue.updatedAt.Some?
    ensures Filled(IssueValues(issue, connection), DefaultValues(true, now), |FillOrder|) ==
      IssueRecord(issue, connection, [], [])
  {
    var m := Filled(IssueValues(issue, connection), DefaultValues(true, now), |FillOrder|);
    var r := IssueRecord(issue, connection, [], []);
    forall k
      ensures AgreeAt(m, r, k)
    {
      FillCompleteAt(issue, connection, now, k);
    }
    Extensional(m, r);
  }

  lemma FillCompleteAt(issue: Issue, connection: Connection, now: int, k: Key)
    requires issue.state == StateClosed ==> issue.updatedAt.Some?
    ensures AgreeAt(Filled(IssueValues(issue, connection), DefaultValues(true, now), |FillOrder|),
                    IssueRecord(issue, connection, [], []), k)
  {
    FilledAt(IssueValues(issue, connection), DefaultValues(true, now), |FillOrder|, k);
    DefaultKeyIs(true, k);
    assert k !in CommentKeys(0);
    if k.Field? {
      IssueValuesAt(issue, connection, k.attribute);
    }
  }

  /** The builder's values for the author, creation time, description and labels. */
  lemma PlainValuesAre(issue: Issue, connection: Connection)
    requires issue.state == StateClosed ==> issue.updatedAt.Some?
    ensures var vals := IssueValues(issue, connection);
      && vals[0] == Text(issue.author) && vals[1] == Text(Decimal(issue.createdAt))
      && vals[2] == Text(if issue.description.None? then "" else issue.description.value)
      && vals[3] == Text(Join(issue.labels, ", "))
  {
  }

  /** The builder's values for the project, state and title. */
  lemma StatusValuesAre(issue: Issue, connection: Connection)
    requires issue.state == StateClosed ==> issue.updatedAt.Some?
    ensures var vals := IssueValues(issue, connection);
      && vals[4] == Text(connection.projectName) && vals[5] == Text(issue.state) && vals[6] == Text(issue.title)
  {
  }

  /** The builder's values for the issue number and the fields read off the labels. */
  lemma LabelValuesAre(issue: Issue, connection: Connection)
    requires issue.state == StateClosed ==> issue.updatedAt.Some?
    ensures var vals := IssueValues(issue, connection); var labels := Join(issue.labels, ", ");
      && vals[7] == Text(Decimal(issue.iid))
      && vals[8] == Text(GetPriority(labels)) && vals[9] == Text(GetType(labels))
  {
  }

  /** The builder's values for the fields the issue may lack. */
  lemma OptionalValuesAre(issue: Issue, connection: Connection)
    requires issue.state == StateClosed ==> issue.updatedAt.Some?
    ensures var vals := IssueValues(issue, connection);
      && vals[10] == (if issue.milestone.Some? then Text(issue.milestone.value) else Unset)
      && vals[11] == (if issue.updatedAt.Some? then Text(Decimal(issue.updatedAt.value)) else Unset)
      && vals[12] == (if issue.state == StateClosed then Text(Decimal(issue.updatedAt.value)) else Unset)
      && vals[13] == (if issue.assignee.Some? then Text(issue.assignee.value) else Unset)
  {
  }

  // ---------------------------------------------------------------------------------------
  // What a built record holds

  /** Comment attributes are numbered from 1 with no gap, comment `i + 1` holding note `i`. */
  lemma {:induction false} CommentValuesFacts(notes: seq<Note>)
    ensures CommentValues(notes).Keys == CommentKeys(|notes|)
    ensures forall i :: 0 <= i < |notes| ==>
      CommentValues(notes)[Comment(i + 1)] == CommentOf(EntryFor(notes[i], i + 1))
    decreases |notes|
  {
    if notes != [] {
      var n := |notes|;
      CommentValuesFacts(notes[..n - 1]);
      assert CommentKeys(n) == CommentKeys(n - 1) + {Comment(n)};
      forall i | 0 <= i < n
        ensures CommentValues(notes)[Comment(i + 1)] == CommentOf(EntryFor(notes[i], i + 1))
      {
        if i < n - 1 {
          assert notes[..n - 1][i] == notes[i];
        }
      }
    }
  }

  /** Every offered operation has an attribute holding its label, and there is no other. */
  lemma {:induction false} OperationValuesFacts(actions: seq<string>)
    ensures OperationValues(actions).Keys == OperationKeys(actions)
    ensures forall l :: l in actions ==> OperationValues(actions)[OperationOption(l)] == Text(l)
    decreases |actions|
  {
    if actions != [] {
      var n := |actions|;
      OperationValuesFacts(actions[..n - 1]);
      assert actions == actions[..n - 1] + [actions[n - 1]];
      assert OperationKeys(actions) == OperationKeys(actions[..n - 1]) + {OperationOption(actions[n - 1])};
    }
  }

  /** Adding the comments and then the operations to the record without them gives the
      record with them. */
  lemma RecordExtended(issue: Issue, connection: Connection, notes: seq<Note>, actions: seq<string>)
    requires issue.state == StateClosed ==> issue.updatedAt.Some?
    ensures IssueRecord(issue, connection, [], []) + CommentValues(notes) + OperationValues(actions)
            == IssueRecord(issue, connection, notes, actions)
  {
    var m := IssueRecord(issue, connection, [], []) + CommentValues(notes) + OperationValues(actions);
    var r := IssueRecord(issue, connection, notes, actions);
    forall k
      ensures AgreeAt(m, r, k)
    {
      ExtendedAt(issue, connection, notes, actions, k);
    }
    Extensional(m, r);
  }

  lemma ExtendedAt(issue: Issue, connection: Connection, notes: seq<Note>, actions: seq<string>, k: Key)
    requires issue.state == StateClosed ==> issue.updatedAt.Some?
    ensures AgreeAt(IssueRecord(issue, connection, [], []) + CommentValues(notes) + OperationValues(actions),
                    IssueRecord(issue, connection, notes, actions), k)
  {
    RecordAt(issue, connection, [], [], k);
    RecordAt(issue, connection, notes, actions, k);
    CommentValuesFacts(notes);
    OperationValuesFacts(actions);
    CommentKeyIs(|notes|, k);
    OperationKeyIs(actions, k);
    if k.Comment? && 1 <= k.number <= |notes| {
      assert CommentValues(notes)[Comment(k.number - 1 + 1)] ==
        CommentOf(EntryFor(notes[k.number - 1], k.number - 1 + 1));
    }
  }

  /** The attributes of a record: the defaults of an existing task, comments 1 to |notes| and
      one attribute per offered operation, each holding its `RecordValue`. */
  lemma RecordAt(issue: Issue, connection: Connection, notes: seq<Note>, actions: seq<string>, k: Key)
    requires issue.state == StateClosed ==> issue.updatedAt.Some?
    ensures k in IssueRecord(issue, connection, notes, actions) <==>
      IsDefaultKey(true, k) || (k.Comment? && 1 <= k.number <= |notes|) || (k.OperationOption? && k.name in actions)
    ensures k in IssueRecord(issue, connection, notes, actions) ==>
      IssueRecord(issue, connection, notes, actions)[k] == RecordValue(issue, connection, notes, k)
  {
    DefaultKeyIs(true, k);
    CommentKeyIs(|notes|, k);
    OperationKeyIs(actions, k);
  }

  lemma CommentKeyIs(n: nat, k: Key)
    ensures k in CommentKeys(n) <==> k.Comment? && 1 <= k.number <= n
  {
  }

  lemma OperationKeyIs(actions: seq<string>, k: Key)
    ensures k in OperationKeys(actions) <==> k.OperationOption? && k.name in actions
  {
  }

  /** A closed issue's record has a completion time, equal to its update time; any other
      issue's record has none. */
  lemma IssueRecordCompletion(issue: Issue, connection: Connection, notes: seq<Note>,
                              actions: seq<string>)
    requires issue.state == StateClosed ==> issue.updatedAt.Some?
    ensures var r := IssueRecord(issue, connection, notes, actions);
      && (r[Field(Completed)].Text? <==> issue.state == StateClosed)
      && (issue.state == StateClosed ==> r[Field(Completed)] == r[Field(Updated)])
  {
    RecordField(issue, connection, notes, actions, Completed);
    RecordField(issue, connection, notes, actions, Updated);
    CompletionValue(issue, connection);
  }

  /** The priority and type of a record are read off its own label text, which is the issue's
      labels joined with ", ". */
  lemma IssueRecordLabels(issue: Issue, connection: Connection, notes: seq<Note>, actions: seq<string>)
    requires issue.state == StateClosed ==> issue.updatedAt.Some?
    ensures var r := IssueRecord(issue, connection, notes, actions);
      && r[Field(Labels)] == Text(Join(issue.labels, ", "))
      && r[Field(Priority)] == Text(GetPriority(r[Field(Labels)].text))
      && r[Field(Type)] == Text(GetType(r[Field(Labels)].text))
  {
    RecordField(issue, connection, notes, actions, Labels);
    RecordField(issue, connection, notes, actions, Priority);
    RecordField(issue, connection, notes, actions, Type);
    LabelValues(issue, connection);
  }

  lemma LabelValues(issue: Issue, connection: Connection)
    requires issue.state == StateClosed ==> issue.updatedAt.Some?
    ensures FieldValue(issue, connection, Labels) == Text(Join(issue.labels, ", "))
    ensures FieldValue(issue, connection, Priority) == Text(GetPriority(Join(issue.labels, ", ")))
    ensures FieldValue(issue, connection, Type) == Text(GetType(Join(issue.labels, ", ")))
  {
  }

  /** A missing description reads as "", while a missing milestone, update time or assignee
      leaves its attribute empty; CREATED holds the issue's creation time, not the clock's. */
  lemma IssueRecordOptional(issue: Issue, connection: Connection, notes: seq<Note>, actions: seq<string>)
    requires issue.state == StateClosed ==> issue.updatedAt.Some?
    ensures var r := IssueRecord(issue, connection, notes, actions);
      && r[Field(Body)] == Text(if issue.description.Some? then issue.description.value else "")
      && r[Field(Created)] == Text(Decimal(issue.createdAt))
      && (r[Field(Milestone)].Text? <==> issue.milestone.Some?)
      && (r[Field(Updated)].Text? <==> issue.updatedAt.Some?)
      && (r[Field(Assignee)].Text? <==> issue.assignee.Some?)
  {
    RecordField(issue, connection, notes, actions, Body);
    RecordField(issue, connection, notes, actions, Created);
    RecordField(issue, connection, notes, actions, Milestone);
    RecordField(issue, connection, notes, actions, Updated);
    RecordField(issue, connection, notes, actions, Assignee);
    OptionalValues(issue, connection);
  }

  lemma OptionalValues(issue: Issue, connection: Connection)
    requires issue.state == StateClosed ==> issue.updatedAt.Some?
    ensures FieldValue(issue, connection, Body) ==
      Text(if issue.description.Some? then issue.description.value else "")
    ensures FieldValue(issue, connection, Created) == Text(Decimal(issue.createdAt))
    ensures FieldValue(issue, connection, Milestone).Text? <==> issue.milestone.Some?
    ensures FieldValue(issue, connection, Updated).Text? <==> issue.updatedAt.Some?
    ensures FieldValue(issue, connection, Assignee).Text? <==> issue.assignee.Some?
  {
  }

  /** Only a closed issue has a completion time, and it is its update time. */
  lemma CompletionValue(issue: Issue, connection: Connection)
    requires issue.state == StateClosed ==> issue.updatedAt.Some?
    ensures FieldValue(issue, connection, Completed).Text? <==> issue.state == StateClosed
    ensures issue.state == StateClosed ==>
      FieldValue(issue, connection, Completed) == FieldValue(issue, connection, Updated)
  {
  }

  /** Every schema field and the author are attributes of a record, holding the issue's value. */
  lemma RecordField(issue: Issue, connection: Connection, notes: seq<Note>, actions: seq<string>,
                    a: GitlabAttribute)
    requires issue.state == StateClosed ==> issue.updatedAt.Some?
    ensures Field(a) in IssueRecord(issue, connection, notes, actions)
    ensures IssueRecord(issue, connection, notes, actions)[Field(a)] == FieldValue(issue, connection, a)
  {
    DefaultKeyIs(true, Field(a));
  }

  /** Comment `i + 1` of a record holds note `i`, and no other comment attribute exists. */
  lemma IssueRecordComments(issue: Issue, connection: Connection, notes: seq<Note>,
                            actions: seq<string>)
    requires issue.state == StateClosed ==> issue.updatedAt.Some?
    ensures var r := IssueRecord(issue, connection, notes, actions);
      && (forall i :: 0 <= i < |notes| ==> r[Comment(i + 1)] == CommentOf(EntryFor(notes[i], i + 1)))
      && (forall k :: k in r && k.Comment? ==> 1 <= k.number <= |notes|)
  {
    forall i | 0 <= i < |notes|
      ensures IssueRecord(issue, connection, notes, actions)[Comment(i + 1)]
              == CommentOf(EntryFor(notes[i], i + 1))
    {
      RecordCommentAt(issue, connection, notes, actions, i);
    }
    forall k | k in IssueRecord(issue, connection, notes, actions) && k.Comment?
      ensures 1 <= k.number <= |notes|
    {
      RecordCommentNumber(issue, connection, notes, actions, k);
    }
  }

  lemma RecordCommentAt(issue: Issue, connection: Connection, notes: seq<Note>, actions: seq<string>,
                        i: nat)
    requires issue.state == StateClosed ==> issue.updatedAt.Some?
    requires i < |notes|
    ensures Comment(i + 1) in IssueRecord(issue, connection, notes, actions)
    ensures IssueRecord(issue, connection, notes, actions)[Comment(i + 1)] == CommentOf(EntryFor(notes[i], i + 1))
  {
    assert Comment(i + 1) in CommentKeys(|notes|);
  }

  lemma RecordCommentNumber(issue: Issue, connection: Connection, notes: seq<Note>, actions: seq<string>,
                            k: Key)
    requires issue.state == StateClosed ==> issue.updatedAt.Some?
    requires k in IssueRecord(issue, connection, notes, actions) && k.Comment?
    ensures 1 <= k.number <= |notes|
  {
    assert k !in DefaultKeys(true) && k !in OperationKeys(actions);
  }

  /** The value of default attribute `k` in the record of a task not yet created: the
      repository's project, empty labels, state "open", an empty milestone and the creation time
      `now`; every other attribute is empty. */
  function NewTaskValue(connection: Connection, now: int, k: Key): Value
  {
    match k
    case Field(Project) => Text(connection.projectName)
    case Field(Labels) => Text("")
    case Field(Status) => Text("open")
    case Field(Milestone) => Text("")
    case Field(Created) => Text(Decimal(now))
    case _ => Unset
  }

  /** The attributes `initializeTaskData` leaves in the record of a task not yet created. */
  function NewTaskRecord(connection: Connection, now: int): map<Key, Value>
  {
    map k | k in DefaultKeys(false) :: NewTaskValue(connection, now, k)
  }

  /** `initializeTaskData`: the record of a task not yet created.  Attributes outside the
      defaults keep their values. */
  method InitializeTaskData(data: TaskData, connection: Connection, now: int) returns (ok: bool)
    modifies data
    ensures ok
    ensures data.attributes == old(data.attributes) + NewTaskRecord(connection, now)
  {
    ghost var a0 := data.attributes;
    CreateDefaultAttributes(data, false, now);
    ghost var a1 := data.attributes;
    assert Field(Project) in DefaultKeys(false);

    data.SetValue(Field(Project), connection.projectName);
    data.SetValue(Field(Labels), "");
    data.SetValue(Field(Status), "open");
    data.SetValue(Field(Milestone), "");
    assert data.attributes == NewTaskOverrides(connection, a1);
    NewTaskComposed(connection, now, a0, a1, data.attributes);

    ok := true;
  }

  /** The four overrides of `initializeTaskData` on the defaults of a new task. */
  function NewTaskOverrides(connection: Connection, d: map<Key, Value>): map<Key, Value>
  {
    d[Field(Project) := Text(connection.projectName)][Field(Labels) := Text("")]
     [Field(Status) := Text("open")][Field(Milestone) := Text("")]
  }

  /** Overriding four defaults of a new task gives the new-task record. */
  lemma NewTaskComposed(connection: Connection, now: int, a0: map<Key, Value>, a1: map<Key, Value>,
                        a2: map<Key, Value>)
    requires a1 == a0 + DefaultValues(false, now)
    requires a2 == NewTaskOverrides(connection, a1)
    ensures a2 == a0 + NewTaskRecord(connection, now)
  {
    var d := DefaultValues(false, now);
    UnionUpdate(a0, d, Field(Project), Text(connection.projectName));
    UnionUpdate(a0, d[Field(Project) := Text(connection.projectName)], Field(Labels), Text(""));
    UnionUpdate(a0, d[Field(Project) := Text(connection.projectName)][Field(Labels) := Text("")],
                Field(Status), Text("open"));
    UnionUpdate(a0, d[Field(Project) := Text(connection.projectName)][Field(Labels) := Text("")]
                     [Field(Status) := Text("open")], Field(Milestone), Text(""));
    NewTaskDefaults(connection, now);
  }

  /** The overrides turn the defaults of a new task into the new-task record. */
  lemma NewTaskDefaults(connection: Connection, now: int)
    ensures NewTaskOverrides(connection, DefaultValues(false, now)) == NewTaskRecord(connection, now)
  {
    var m := NewTaskOverrides(connection, DefaultValues(false, now));
    var r := NewTaskRecord(connection, now);
    forall k
      ensures AgreeAt(m, r, k)
    {
      NewTaskDefaultsAt(connection, now, k);
    }
    Extensional(m, r);
  }

  lemma NewTaskDefaultsAt(connection: Connection, now: int, k: Key)
    ensures AgreeAt(NewTaskOverrides(connection, DefaultValues(false, now)), NewTaskRecord(connection, now), k)
  {
    DefaultKeyIs(false, k);
    if k.Field? {
      NewTaskFieldAt(connection, now, k.attribute);
    }
  }

  lemma NewTaskFieldAt(connection: Connection, now: int, a: GitlabAttribute)
    ensures AgreeAt(NewTaskOverrides(connection, DefaultValues(false, now)), NewTaskRecord(connection, now), Field(a))
  {
    DefaultKeyIs(false, Field(a));
    var d := DefaultValues(false, now);
    if a != Author && !(a == Project || a == Labels || a == Status || a == Milestone) {
      OverridesKeep(connection, d, Field(a));
    }
  }

  /** The overrides touch only the project, labels, status and milestone. */
  lemma OverridesKeep(connection: Connection, d: map<Key, Value>, k: Key)
    requires k in d && k !in {Field(Project), Field(Labels), Field(Status), Field(Milestone)}
    ensures k in NewTaskOverrides(connection, d) && NewTaskOverrides(connection, d)[k] == d[k]
  {
  }

  // ---------------------------------------------------------------------------------------
  // Submitting a record

  /** What a submission asks of the remote assignee. */
  datatype AssigneeUpdate = LeaveAsIs | Unassign | AssignTo(memberId: int)

  /** The assignee id the GitLab API expects: 0 leaves as is, -1 unassigns, otherwise a member id. */
  function AssigneeWireId(u: AssigneeUpdate): int
  {
    match u
    case LeaveAsIs => 0
    case Unassign => -1
    case AssignTo(id) => id
  }

  /** How the GitLab API reads an assignee id. */
  function AssigneeUpdateOf(wire: int): AssigneeUpdate
  {
    if wire == 0 then LeaveAsIs else if wire == -1 then Unassign else AssignTo(wire)
  }

  /** The wire encoding loses nothing as long as member ids are positive. */
  lemma AssigneeWireRoundTrip(u: AssigneeUpdate)
    requires u.AssignTo? ==> u.memberId > 0
    ensures AssigneeUpdateOf(AssigneeWireId(u)) == u
  {
  }

  /** The assignee update a submission means: untouched unless the assignee is among the changed
      attributes; then the member with the displayed name, or no one if there is none. */
  function RequestedAssignee(changed: set<Key>, assigneeName: string, lookups: Lookups): AssigneeUpdate
  {
    if Field(Assignee) !in changed then LeaveAsIs
    else match lookups.findProjectMemberByName(assigneeName)
      case Some(id) => AssignTo(id)
      case None => Unassign
  }

  /** The displayed assignee name, where the record has the attribute. */
  function AssigneeName(data: TaskData): string
    reads data
  {
    if Field(Assignee) in data.attributes then data.GetValue(Field(Assignee)) else ""
  }

  /** The loop over the changed attributes that computes the assignee id. */
  method ResolveAssigneeId(data: TaskData, changed: set<Key>, lookups: Lookups) returns (assigneeId: int)
    requires Field(Assignee) in changed ==> Field(Assignee) in data.attributes
    ensures Field(Assignee) !in changed ==> assigneeId == 0
    ensures Field(Assignee) in changed ==>
      match lookups.findProjectMemberByName(data.GetValue(Field(Assignee)))
      case Some(id) => assigneeId == id
      case None => assigneeId == -1
    ensures assigneeId == AssigneeWireId(RequestedAssignee(changed, AssigneeName(data), lookups))
  {
    assigneeId := 0;
    var remaining := changed;
    while remaining != {}
      invariant remaining <= changed
      invariant Field(Assignee) in changed - remaining ==>
        assigneeId == AssigneeWireId(RequestedAssignee(changed, AssigneeName(data), lookups))
      invariant Field(Assignee) !in changed - remaining ==> assigneeId == 0
      decreases remaining
    {
      var a :| a in remaining;
      if a == Field(Assignee) {
        var assignee := lookups.findProjectMemberByName(data.GetValue(Field(Assignee)));
        assigneeId := if assignee.None? then -1 else assignee.value;
      }
      remaining := remaining - {a};
    }
  }

  /** The milestone id sent: the milestone with the displayed title, or 0 if there is none. */
  function MilestoneId(data: TaskData, lookups: Lookups): int
    reads data
    requires Field(Milestone) in data.attributes
  {
    match lookups.findMilestoneByName(data.GetValue(Field(Milestone)))
    case Some(id) => id
    case None => 0
  }

  /** The record carries a new comment to post. */
  predicate HasNewComment(data: TaskData)
    reads data
  {
    CommentNew in data.attributes && data.GetValue(CommentNew) != ""
  }

  /** A call to the GitLab API. */
  datatype RemoteCall =
    | CreateIssue(projectId: int, assigneeId: int, milestoneId: int, labels: string, body: string, title: string)
    | CreateNote(projectId: int, ticketId: int, body: string)
    | EditIssue(projectId: int, ticketId: int, assigneeId: int, milestoneId: int,
                labels: string, body: string, title: string, action: IssueAction)

  datatype ResponseKind = TaskCreated | TaskUpdated

  /** The answer to the host: what happened and the id of the task. */
  datatype RepositoryResponse = RepositoryResponse(kind: ResponseKind, taskId: string)

  /** `postTaskData`: returns the response and the remote calls made, in order.  `returnedIid`
      is the iid of the issue the create or edit call returns. */
  method PostTaskData(data: TaskData, connection: Connection, lookups: Lookups, changed: set<Key>,
                      returnedIid: int)
    returns (response: RepositoryResponse, calls: seq<RemoteCall>)
    requires Field(Labels) in data.attributes && Field(Title) in data.attributes
    requires Field(Body) in data.attributes && Field(Milestone) in data.attributes
    requires Field(Assignee) in changed ==> Field(Assignee) in data.attributes
    requires !data.isNew ==> Operation in data.attributes && lookups.findAction(data.GetValue(Operation)).Some?
    ensures data.isNew ==>
      calls == [CreateIssue(connection.projectId,
                            AssigneeWireId(RequestedAssignee(changed, AssigneeName(data), lookups)),
                            MilestoneId(data, lookups), data.GetValue(Field(Labels)),
                            data.GetValue(Field(Body)), data.GetValue(Field(Title)))] &&
      response == RepositoryResponse(TaskCreated, Decimal(returnedIid))
    ensures !data.isNew ==>
      |calls| == (if HasNewComment(data) then 2 else 1) &&
      calls[|calls| - 1] == EditIssue(connection.projectId, lookups.ticketId(data.taskId),
                                      AssigneeWireId(RequestedAssignee(changed, AssigneeName(data), lookups)),
                                      MilestoneId(data, lookups), data.GetValue(Field(Labels)),
                                      data.GetValue(Field(Body)), data.GetValue(Field(Title)),
                                      lookups.findAction(data.GetValue(Operation)).value) &&
      response == RepositoryResponse(TaskUpdated, Decimal(returnedIid))
    ensures !data.isNew && HasNewComment(data) ==>
      calls[0] == CreateNote(connection.projectId, lookups.ticketId(data.taskId), data.GetValue(CommentNew))
  {
    var labels := data.GetValue(Field(Labels));
    var title := data.GetValue(Field(Title));
    var body := data.GetValue(Field(Body));

    var assigneeId := ResolveAssigneeId(data, changed, lookups);

    var milestone := lookups.findMilestoneByName(data.GetValue(Field(Milestone)));
    var milestoneId := if milestone.None? then 0 else milestone.value;

    calls := [];
    if data.isNew {
      calls := calls + [CreateIssue(connection.projectId, assigneeId, milestoneId, labels, body, title)];
      response := RepositoryResponse(TaskCreated, Decimal(returnedIid));
    } else {
      if CommentNew in data.attributes && data.GetValue(CommentNew) != "" {
        calls := calls + [CreateNote(connection.projectId, lookups.ticketId(data.taskId), data.GetValue(CommentNew))];
      }

      var action := data.GetValue(Operation);

      calls := calls + [EditIssue(connection.projectId, lookups.ticketId(data.taskId), assigneeId,
                                  milestoneId, labels, body, title, lookups.findAction(action).value)];
      response := RepositoryResponse(TaskUpdated, Decimal(returnedIid));
    }
  }
}
