/** The data and the validation schema of the note-creation form: the three
    fields, the note being edited, the yup rules of each field written out as
    explicit tests, and the error list a whole-form validation reports. */
module NoteSchema {

  /** The three inputs of the form, by their `name` attribute. */
  datatype Field = Title | Content | Tag

  /** A new note as the form holds it (the shape of `NewNoteData`). */
  datatype NoteData = NoteData(title: string, content: string, tag: string)
  {
    /** The value of one field. */
    function Get(f: Field): string
    {
      match f
      case Title => title
      case Content => content
      case Tag => tag
    }

    /** The note with field `f` replaced by `v` (`{ ...note, [f]: v }`). */
    function With(f: Field, v: string): (r: NoteData)
      ensures r.Get(f) == v
      ensures forall g :: g != f ==> r.Get(g) == Get(g)
    {
      match f
      case Title => this.(title := v)
      case Content => this.(content := v)
      case Tag => this.(tag := v)
    }
  }

  /** One yup string test and the message it reports when it fails.
      Lengths are counted in characters. */
  datatype Test =
    | Required(message: string)
    | Min(limit: nat, message: string)
    | Max(limit: nat, message: string)

  /** `required` rejects the empty string; `min` and `max` bound the length. */
  predicate Passes(t: Test, v: string)
  {
    match t
    case Required(_) => |v| > 0
    case Min(n, _) => |v| >= n
    case Max(n, _) => |v| <= n
  }

  const TitleRequired: string := "Title is required"
  const TitleTooShort: string := "Title must be at least 3 characters"
  const ContentRequired: string := "Content is required"
  const ContentTooLong: string := "Content is too long"
  const TagRequired: string := "Tag is required"

  /** The schema: the tests of each field, in the order they are declared. */
  function Rules(f: Field): seq<Test>
  {
    match f
    case Title => [Required(TitleRequired), Min(3, TitleTooShort)]
    case Content => [Required(ContentRequired), Max(500, ContentTooLong)]
    case Tag => [Required(TagRequired)]
  }

  /** The messages of `tests`. */
  function MessagesOf(tests: seq<Test>): set<string>
  {
    if tests == [] then {} else {tests[0].message} + MessagesOf(tests[1..])
  }

  /** The messages of the tests among `tests` that `v` fails. */
  function FailedMessages(tests: seq<Test>, v: string): (r: set<string>)
    ensures r <= MessagesOf(tests)
  {
    if tests == [] then {}
    else (if Passes(tests[0], v) then {} else {tests[0].message}) + FailedMessages(tests[1..], v)
  }

  /** A message is reported exactly when some test with that message fails. */
  lemma {:induction false} FailedMessagesSpec(tests: seq<Test>, v: string, m: string)
    ensures m in FailedMessages(tests, v) <==> exists t :: t in tests && !Passes(t, v) && t.message == m
  {
    if tests != [] {
      FailedMessagesSpec(tests[1..], v, m);
      forall t | t in tests && t != tests[0]
        ensures t in tests[1..]
      {
      }
    }
  }

  /** Every message a field's tests can report. */
  function Messages(f: Field): set<string>
  {
    MessagesOf(Rules(f))
  }

  /** The messages of the tests of `f` that `v` fails. Which of them yup
      reports first when there are several is left open. */
  function Violations(f: Field, v: string): (r: set<string>)
    ensures r <= Messages(f)
  {
    FailedMessages(Rules(f), v)
  }

  predicate FieldValid(f: Field, v: string)
  {
    Violations(f, v) == {}
  }

  /** The failed messages of a field with two tests. */
  lemma FailedPair(a: Test, b: Test, v: string)
    ensures FailedMessages([a, b], v) ==
      (if Passes(a, v) then {} else {a.message}) + (if Passes(b, v) then {} else {b.message})
  {
    assert [a, b][1..] == [b];
    assert [b][1..] == [];
  }

  /** The failed messages of a field with one test. */
  lemma FailedSingle(a: Test, v: string)
    ensures FailedMessages([a], v) == if Passes(a, v) then {} else {a.message}
  {
    assert [a][1..] == [];
  }

  /** No test reports an empty message, so "" can mark a cleared error. */
  lemma MessagesNonEmpty(f: Field)
    ensures "" !in Messages(f)
  {
    match f
    case Title =>
      assert [Min(3, TitleTooShort)][1..] == [];
      assert Rules(f)[1..] == [Min(3, TitleTooShort)];
    case Content =>
      assert [Max(500, ContentTooLong)][1..] == [];
      assert Rules(f)[1..] == [Max(500, ContentTooLong)];
    case Tag =>
      assert Rules(f)[1..] == [];
  }

  lemma TitleRule(v: string)
    ensures FieldValid(Title, v) <==> |v| >= 3
    ensures |v| == 0 ==> Violations(Title, v) == {TitleRequired, TitleTooShort}
    ensures 1 <= |v| < 3 ==> Violations(Title, v) == {TitleTooShort}
  {
    FailedPair(Required(TitleRequired), Min(3, TitleTooShort), v);
  }

  lemma ContentRule(v: string)
    ensures FieldValid(Content, v) <==> 1 <= |v| <= 500
    ensures |v| == 0 ==> Violations(Content, v) == {ContentRequired}
    ensures |v| > 500 ==> Violations(Content, v) == {ContentTooLong}
  {
    FailedPair(Required(ContentRequired), Max(500, ContentTooLong), v);
  }

  /** Any non-empty tag passes, not only the options the select lists. */
  lemma TagRule(v: string)
    ensures FieldValid(Tag, v) <==> |v| > 0
    ensures |v| == 0 ==> Violations(Tag, v) == {TagRequired}
  {
    FailedSingle(Required(TagRequired), v);
  }

  /** The whole note passes the schema. */
  predicate FormValid(d: NoteData)
  {
    FieldValid(Title, d.title) && FieldValid(Content, d.content) && FieldValid(Tag, d.tag)
  }

  /** The fields whose value fails some test. */
  function InvalidFields(d: NoteData): (r: set<Field>)
    ensures r == {} <==> FormValid(d)
  {
    (if FieldValid(Title, d.title) then {} else {Title})
    + (if FieldValid(Content, d.content) then {} else {Content})
    + (if FieldValid(Tag, d.tag) then {} else {Tag})
  }

  lemma InvalidField(d: NoteData, f: Field)
    ensures f in InvalidFields(d) <==> !FieldValid(f, d.Get(f))
  {
    match f
    case Title =>
    case Content =>
    case Tag =>
  }

  lemma FormValidIff(d: NoteData)
    ensures FormValid(d) <==> |d.title| >= 3 && 1 <= |d.content| <= 500 && |d.tag| > 0
  {
    TitleRule(d.title);
    ContentRule(d.content);
    TagRule(d.tag);
    assert d.Get(Title) == d.title && d.Get(Content) == d.content && d.Get(Tag) == d.tag;
  }

  /** One entry of a yup `ValidationError.inner` list: the field it is about
      and its message. */
  datatype Issue = Issue(path: Field, message: string)

  /** What a whole-form validation with `abortEarly: false` reports about `d`:
      every entry is a test its field really fails, and every field that fails
      some test has at least one entry. Order and multiplicity are left open. */
  predicate IsReport(d: NoteData, issues: seq<Issue>)
  {
    && (forall i :: 0 <= i < |issues| ==> issues[i].message in Violations(issues[i].path, d.Get(issues[i].path)))
    && (forall f :: f in InvalidFields(d) ==> exists i :: 0 <= i < |issues| && issues[i].path == f)
  }

  /** The failed tests among `tests`, each as an issue about `f`, in order. */
  function FailedTests(f: Field, v: string, tests: seq<Test>): seq<Issue>
  {
    if tests == [] then []
    else (if Passes(tests[0], v) then [] else [Issue(f, tests[0].message)]) + FailedTests(f, v, tests[1..])
  }

  /** One report of every failed test, field by field in schema order. */
  function Issues(d: NoteData): seq<Issue>
  {
    FailedTests(Title, d.title, Rules(Title))
    + FailedTests(Content, d.content, Rules(Content))
    + FailedTests(Tag, d.tag, Rules(Tag))
  }

  lemma {:induction false} FailedTestsSpec(f: Field, v: string, tests: seq<Test>)
    ensures forall i :: 0 <= i < |FailedTests(f, v, tests)| ==>
      var issue := FailedTests(f, v, tests)[i];
      issue.path == f && exists t :: t in tests && !Passes(t, v) && t.message == issue.message
    ensures (exists t :: t in tests && !Passes(t, v)) ==> |FailedTests(f, v, tests)| > 0
  {
    if tests != [] {
      FailedTestsSpec(f, v, tests[1..]);
      var head := if Passes(tests[0], v) then [] else [Issue(f, tests[0].message)];
      assert FailedTests(f, v, tests) == head + FailedTests(f, v, tests[1..]);
      forall t | t in tests && !Passes(t, v) && t != tests[0]
        ensures t in tests[1..]
      {
      }
    }
  }

  /** The reference report is a report: yup's aggregated error can exist. */
  lemma IssuesIsReport(d: NoteData)
    ensures IsReport(d, Issues(d))
  {
    var a := FailedTests(Title, d.title, Rules(Title));
    var b := FailedTests(Content, d.content, Rules(Content));
    var c := FailedTests(Tag, d.tag, Rules(Tag));
    FailedTestsSpec(Title, d.title, Rules(Title));
    FailedTestsSpec(Content, d.content, Rules(Content));
    FailedTestsSpec(Tag, d.tag, Rules(Tag));
    var issues := Issues(d);
    assert issues == a + b + c;
    forall i | 0 <= i < |issues|
      ensures issues[i].message in Violations(issues[i].path, d.Get(issues[i].path))
    {
      var issue := issues[i];
      if i < |a| {
        assert issue == a[i];
      } else if i < |a| + |b| {
        assert issue == b[i - |a|];
      } else {
        assert issue == c[i - |a| - |b|];
      }
      FailedMessagesSpec(Rules(issue.path), d.Get(issue.path), issue.message);
    }
    forall f | f in InvalidFields(d)
      ensures exists i :: 0 <= i < |issues| && issues[i].path == f
    {
      InvalidField(d, f);
      var m :| m in Violations(f, d.Get(f));
      FailedMessagesSpec(Rules(f), d.Get(f), m);
      var t :| t in Rules(f) && !Passes(t, d.Get(f)) && t.message == m;
      match f
      case Title => assert issues[0] == a[0];
      case Content => assert issues[|a|] == b[0];
      case Tag => assert issues[|a| + |b|] == c[0];
    }
  }

  /** The field errors `forEach` leaves behind: each issue in turn writes its
      message under its field, so a later issue overwrites an earlier one. */
  function Aggregate(issues: seq<Issue>): map<Field, string>
  {
    if issues == [] then map[]
    else
      var last := issues[|issues| - 1];
      Aggregate(issues[..|issues| - 1])[last.path := last.message]
  }

  /** The aggregated map has an entry for exactly the fields the issues
      name. */
  lemma {:induction false} AggregateKeys(issues: seq<Issue>)
    ensures forall f :: f in Aggregate(issues) <==> exists i :: 0 <= i < |issues| && issues[i].path == f
  {
    if issues != [] {
      var n := |issues| - 1;
      var front := issues[..n];
      AggregateKeys(front);
      forall f | exists i :: 0 <= i < |issues| && issues[i].path == f
        ensures f in Aggregate(issues)
      {
        var i :| 0 <= i < |issues| && issues[i].path == f;
        if i < n { assert front[i] == issues[i]; }
      }
      forall f | f in Aggregate(front)
        ensures exists i :: 0 <= i < |issues| && issues[i].path == f
      {
        var i :| 0 <= i < |front| && front[i].path == f;
        assert issues[i] == front[i];
      }
    }
  }

  /** Each entry of the aggregated map is the message of the last issue about
      that field. */
  lemma {:induction false} AggregateLast(issues: seq<Issue>, f: Field)
    requires f in Aggregate(issues)
    ensures exists i :: && 0 <= i < |issues| && issues[i].path == f && issues[i].message == Aggregate(issues)[f]
                        && forall j :: i < j < |issues| ==> issues[j].path != f
  {
    var n := |issues| - 1;
    var front := issues[..n];
    if f == issues[n].path {
      assert issues[n].message == Aggregate(issues)[f];
    } else {
      AggregateLast(front, f);
      var i :| && 0 <= i < |front| && front[i].path == f && front[i].message == Aggregate(front)[f]
               && forall j :: i < j < |front| ==> front[j].path != f;
      assert issues[i] == front[i];
      forall j | i < j < |issues|
        ensures issues[j].path != f
      {
        if j < n { assert issues[j] == front[j]; }
      }
    }
  }

  /** Aggregating a report yields an error for every invalid field and for no
      valid one, each error being a message of a test that field fails. */
  lemma ReportErrors(d: NoteData, issues: seq<Issue>)
    requires IsReport(d, issues)
    ensures Aggregate(issues).Keys == InvalidFields(d)
    ensures forall f :: f in Aggregate(issues) ==> Aggregate(issues)[f] in Violations(f, d.Get(f))
  {
    AggregateKeys(issues);
    forall f | f in Aggregate(issues)
      ensures f in InvalidFields(d) && Aggregate(issues)[f] in Violations(f, d.Get(f))
    {
      AggregateLast(issues, f);
      var i :| 0 <= i < |issues| && issues[i].path == f && issues[i].message == Aggregate(issues)[f]
        && forall j :: i < j < |issues| ==> issues[j].path != f;
      assert issues[i].message in Violations(f, d.Get(f));
      InvalidField(d, f);
    }
  }

  /** A report is empty exactly when the note passes the schema: validation
      throws exactly when some field fails. */
  lemma ReportEmptyIffValid(d: NoteData, issues: seq<Issue>)
    requires IsReport(d, issues)
    ensures issues == [] <==> FormValid(d)
  {
    if issues != [] {
      var f := issues[0].path;
      assert issues[0].message in Violations(f, d.Get(f));
      assert !FieldValid(f, d.Get(f));
    }
    if !FormValid(d) {
      var f :| f in InvalidFields(d);
    }
  }
}
