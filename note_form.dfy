/** The note-creation form component: its state (the form values, the shared
    draft, the per-field errors and the submitting flag) and its three event
    handlers. Handlers run one at a time and to completion. What the form does
    to the outside world (the create call, notifications, navigation, draft
    writes) is recorded as a log of events. */
module NoteFormComponent {
  import opened NoteSchema

  /** An effect the form has on something outside its own state. */
  datatype Event =
    | DraftSet(value: NoteData)       // `setDraft(value)` on the shared store
    | DraftCleared                    // `clearDraft()` on the shared store
    | CreateCalled(payload: NoteData) // `createNote(payload)`
    | NotifiedSuccess                 // success toast
    | NotifiedError                   // error toast
    | NavigatedBack                   // `router.back()`

  /** Every error entry is cleared ("") or a message of that field's tests. */
  predicate ErrorsWellFormed(errors: map<Field, string>)
  {
    forall f :: f in errors ==> errors[f] == "" || errors[f] in Messages(f)
  }

  /** The `forEach` over `ValidationError.inner` that fills `fieldErrors`. */
  method CollectFieldErrors(issues: seq<Issue>) returns (fieldErrors: map<Field, string>)
    ensures fieldErrors == Aggregate(issues)
  {
    fieldErrors := map[];
    var i := 0;
    while i < |issues|
      invariant 0 <= i <= |issues|
      invariant fieldErrors == Aggregate(issues[..i])
    {
      assert issues[..i + 1][..i] == issues[..i];
      fieldErrors := fieldErrors[issues[i].path := issues[i].message];
      i := i + 1;
    }
    assert issues[..i] == issues;
  }

  class NoteForm {
    /** The store's default draft; its value is not part of this model. */
    const initialDraft: NoteData
    var formData: NoteData
    /** The shared store's draft. */
    var draft: NoteData
    /** A partial map from field to message; "" means the error was cleared. */
    var errors: map<Field, string>
    var isSubmitting: bool
    var events: seq<Event>

    /** Between two handlers: the draft-sync effect has made `formData`
        follow `draft`, no submission is pending (so the inputs and buttons
        are enabled and can raise the next event), and every error entry is
        cleared or a message of its field. */
    ghost predicate Valid()
      reads this
    {
      Synced() && ErrorsWellFormed(errors) && !InputsDisabled()
    }

    /** `formData` follows `draft`. */
    ghost predicate Synced()
      reads this
    {
      formData == draft
    }

    /** Inputs and buttons are rendered with `disabled={isSubmitting}`. */
    predicate InputsDisabled()
      reads this
    {
      isSubmitting
    }

    /** Mounting the form: `formData` starts as the store's draft, with no
        errors and nothing submitted. */
    constructor (storedDraft: NoteData, initial: NoteData)
      ensures Valid()
      ensures initialDraft == initial
      ensures formData == storedDraft && draft == storedDraft
      ensures errors == map[] && events == []
    {
      initialDraft := initial;
      formData := storedDraft;
      draft := storedDraft;
      errors := map[];
      isSubmitting := false;
      events := [];
    }

    /** Records one effect. */
    method Emit(e: Event)
      modifies this
      ensures events == old(events) + [e]
      ensures formData == old(formData) && draft == old(draft)
      ensures errors == old(errors) && isSubmitting == old(isSubmitting)
    {
      events := events + [e];
    }

    /** A store write followed by the effect that copies the draft into the
        form. */
    method SetDraft(d: NoteData)
      modifies this
      ensures draft == d && formData == d
      ensures events == old(events) + [DraftSet(d)]
      ensures errors == old(errors) && isSubmitting == old(isSubmitting)
    {
      draft := d;
      Emit(DraftSet(d));
      formData := draft;
    }

    /** `clearDraft()` followed by the effect that copies the draft into the
        form. */
    method ClearDraft()
      modifies this
      ensures draft == initialDraft && formData == initialDraft
      ensures events == old(events) + [DraftCleared]
      ensures errors == old(errors) && isSubmitting == old(isSubmitting)
    {
      draft := initialDraft;
      Emit(DraftCleared);
      formData := draft;
    }

    /** A change event on input `f` with new value `value`. The input is
        disabled while submitting, so no change arrives then. */
    method HandleChange(f: Field, value: string)
      requires Valid()
      modifies this
      ensures Valid()
      ensures formData == old(formData).With(f, value)
      ensures formData.Get(f) == value
      ensures forall g :: g != f ==> formData.Get(g) == old(formData).Get(g)
      ensures draft == formData
      ensures events == old(events) + [DraftSet(formData)]
      ensures errors.Keys == old(errors).Keys + {f}
      ensures errors[f] == "" <==> FieldValid(f, value)
      ensures !FieldValid(f, value) ==> errors[f] in Violations(f, value)
      ensures forall g :: g in old(errors) && g != f ==> errors[g] == old(errors)[g]
    {
      MessagesNonEmpty(f);
      var updated := formData.With(f, value);
      formData := updated;
      SetDraft(updated);
      var failed := Violations(f, value);
      if failed == {} {
        errors := errors[f := ""];
      } else {
        var message :| message in failed;
        errors := errors[f := message];
      }
    }

    /** A submit event. `issues` is the `inner` list of the error a
        whole-form validation of `formData` throws (empty when it does not
        throw); `createOk` is whether `createNote` resolves. */
    method HandleSubmit(createOk: bool, issues: seq<Issue>)
      requires Valid()
      requires IsReport(formData, issues)
      modifies this
      ensures Valid()
      // an invalid form: every invalid field and only those get an error,
      // nothing is sent and the draft stays
      ensures !FormValid(old(formData)) ==>
        && errors == Aggregate(issues)
        && errors.Keys == InvalidFields(old(formData))
        && (forall g :: g in errors ==> errors[g] in Violations(g, old(formData).Get(g)))
        && formData == old(formData) && draft == old(draft)
        && events == old(events)
      // a valid form whose create succeeds: create once with the form's
      // values, clear the draft, notify, go back
      ensures FormValid(old(formData)) && createOk ==>
        && events == old(events) + [CreateCalled(old(formData)), DraftCleared, NotifiedSuccess, NavigatedBack]
        && draft == initialDraft && formData == initialDraft
        && errors == old(errors)
      // a valid form whose create fails: notify, keep everything
      ensures FormValid(old(formData)) && !createOk ==>
        && events == old(events) + [CreateCalled(old(formData)), NotifiedError]
        && formData == old(formData) && draft == old(draft)
        && errors == old(errors)
    {
      isSubmitting := true;
      ReportEmptyIffValid(formData, issues);
      if issues != [] {
        ShowFieldErrors(issues);
      } else {
        CreateAndLeave(createOk);
      }
      isSubmitting := false;
    }

    /** The `ValidationError` branch of a submit: the collected field errors
        replace all previous ones. */
    method ShowFieldErrors(issues: seq<Issue>)
      requires Synced() && ErrorsWellFormed(errors)
      requires IsReport(formData, issues)
      modifies this
      ensures Synced() && ErrorsWellFormed(errors)
      ensures errors == Aggregate(issues)
      ensures errors.Keys == InvalidFields(formData)
      ensures forall g :: g in errors ==> errors[g] in Violations(g, formData.Get(g))
      ensures formData == old(formData) && draft == old(draft)
      ensures events == old(events) && isSubmitting == old(isSubmitting)
    {
      ReportErrors(formData, issues);
      var fieldErrors := CollectFieldErrors(issues);
      assert ErrorsWellFormed(fieldErrors) by {
        forall g | g in fieldErrors ensures fieldErrors[g] in Messages(g) {
          assert fieldErrors[g] in Violations(g, formData.Get(g));
        }
      }
      errors := fieldErrors;
    }

    /** The branch of a submit that passed validation: `createNote(formData)`;
        on success clear the draft, notify and go back, on failure notify. */
    method CreateAndLeave(createOk: bool)
      requires Synced() && ErrorsWellFormed(errors)
      requires InputsDisabled()
      modifies this
      ensures Synced() && ErrorsWellFormed(errors)
      ensures createOk ==>
        && events == old(events) + [CreateCalled(old(formData)), DraftCleared, NotifiedSuccess, NavigatedBack]
        && draft == initialDraft && formData == initialDraft
      ensures !createOk ==>
        && events == old(events) + [CreateCalled(old(formData)), NotifiedError]
        && formData == old(formData) && draft == old(draft)
      ensures errors == old(errors) && isSubmitting == old(isSubmitting)
    {
      Emit(CreateCalled(formData));
      if createOk {
        ClearDraft();
        Emit(NotifiedSuccess);
        Emit(NavigatedBack);
      } else {
        Emit(NotifiedError);
      }
    }

    /** The cancel button: go back; the draft is kept. */
    method HandleCancel()
      requires Valid()
      modifies this
      ensures Valid()
      ensures events == old(events) + [NavigatedBack]
      ensures formData == old(formData) && draft == old(draft) && errors == old(errors)
    {
      Emit(NavigatedBack);
    }
  }

  /** Submitting {title: "Hi", content: "valid content", tag: "Work"} reports
      the short title, sends nothing and keeps the draft, whatever order and
      multiplicity the validation report has. */
  method ShortTitleScenario(issues: seq<Issue>, initial: NoteData, createOk: bool)
    requires IsReport(NoteData("Hi", "valid content", "Work"), issues)
  {
    var d := NoteData("Hi", "valid content", "Work");
    var form := new NoteForm(d, initial);
    TitleRule(d.title);
    ContentRule(d.content);
    TagRule(d.tag);
    form.HandleSubmit(createOk, issues);
    assert form.errors.Keys == {Title};
    assert form.errors == map[Title := TitleTooShort];
    assert form.events == [];
    assert form.draft == d;
  }

  /** Submitting {title: "", content: "x", tag: ""} reports the title and the
      tag, and only those, and sends nothing. */
  method EmptyTitleAndTagScenario(issues: seq<Issue>, initial: NoteData, createOk: bool)
    requires IsReport(NoteData("", "x", ""), issues)
  {
    var d := NoteData("", "x", "");
    var form := new NoteForm(d, initial);
    TitleRule(d.title);
    ContentRule(d.content);
    TagRule(d.tag);
    form.HandleSubmit(createOk, issues);
    assert form.errors.Keys == {Title, Tag};
    assert form.errors[Tag] == TagRequired;
    assert form.events == [];
    assert form.draft == d;
  }

  /** Submitting {title: "Groceries", content: "Milk, eggs, bread",
      tag: "Shopping"} sends exactly that note, resets the draft and goes
      back. */
  method GroceriesScenario(initial: NoteData)
  {
    var d := NoteData("Groceries", "Milk, eggs, bread", "Shopping");
    var form := new NoteForm(d, initial);
    FormValidIff(d);
    form.HandleSubmit(true, []);
    assert form.events == [CreateCalled(d), DraftCleared, NotifiedSuccess, NavigatedBack];
    assert form.draft == initial && form.formData == initial;
  }

  /** Typing into a field and then mounting a new form on the same store
      restores what was typed. */
  method DraftSurvivesRemount(stored: NoteData, initial: NoteData, f: Field, value: string)
  {
    var form := new NoteForm(stored, initial);
    form.HandleChange(f, value);
    var again := new NoteForm(form.draft, initial);
    assert again.formData == stored.With(f, value);
  }
}
