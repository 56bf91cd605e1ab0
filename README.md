# Note-creation form: a verified model

This project models the note-creation form of a note-taking web application
(`components/NoteForm/NoteForm.tsx`). It covers two things:

- **The validation schema.** A title is required and has at least 3
  characters. Content is required and has at most 500 characters. A tag is
  required. Each rule is written as a list of yup-style tests (`required`,
  `min`, `max`) with their messages. Field validity, whole-form validity and
  the set of messages a value triggers are defined from those lists.
- **The form component**, as the class `NoteForm`. Its fields are:
  - `formData`: the note being edited;
  - `draft`: the shared store's draft;
  - `errors`: a partial map from field to message, where `""` means cleared;
  - `isSubmitting`;
  - `events`: a log of the form's outside effects, in order. The effects
    are draft writes, the draft clear, `createNote` calls, success and error
    toasts, and `router.back()`.

  The class has the three handlers `HandleChange`, `HandleSubmit` and
  `HandleCancel`.

The model lives in two modules:

- `NoteSchema` (`note_schema.dfy`) holds the schema, whole-form validation
  and the aggregation of a validation report into field errors.
- `NoteFormComponent` (`note_form.dfy`) holds the component class and the
  `forEach` loop that builds `fieldErrors`. It ends with three concrete
  submit scenarios and a draft-survives-remount client, each written as a
  method whose assertions follow from the handler contracts. The "Hi" and
  the empty-title-and-tag scenarios accept any validation report, so their
  outcome does not depend on the order or repeats of yup's error list; the
  "Groceries" scenario submits a valid note.

What is proved:

- The three rules, as if-and-only-if statements over lengths. Any non-empty
  tag passes, not only the listed options.
- A change to field `f`:
  - sets `formData[f]` and the draft;
  - keeps the other fields;
  - sets `errors[f]` to `""` exactly when the value passes, and otherwise to
    one of the messages the value triggers;
  - leaves every other error entry alone.
- A submit of an invalid form sends nothing and keeps the draft. It replaces
  `errors` with a map whose keys are exactly the invalid fields, all of
  them, each holding a message of a test that field fails.
- A submit of a valid form calls create exactly once, with exactly
  `formData`.
  - If create succeeds, the form clears the draft, so `formData` and `draft`
    become `initialDraft`. It then shows the success toast and navigates
    back. `errors` is left as it was.
  - If create fails, the form shows the error toast and changes nothing
    else.
- `isSubmitting` is false after every handler.
- Between handlers, `formData` equals `draft` (the draft-sync effect), and
  every error entry is `""` or a message of its field.

Choices where the source is not visible:

- **Which message wins is left open.** yup decides which message a failing
  field reports when it fails two tests (an empty title fails both
  `required` and `min`), and that code is not part of this model. So
  `HandleChange` picks *some* violated message. `HandleSubmit` takes the
  `ValidationError.inner` list as a parameter. Its precondition `IsReport`
  says only two things: every entry is a test its field really fails, and
  every invalid field has at least one entry. `Issues` is one such report,
  and the lemma `IssuesIsReport` proves it is one for every note.
- **External effects are inputs or log entries.** The `createNote` outcome
  is the oracle input `createOk`. Toasts and `router.back()` become entries
  in the event log.
- **The store's default draft is a constant.** `initialDraft` comes from a
  store file that is not part of this model. It is a constructor parameter
  held in a `const` field.
- **The draft fallback is dropped.** `draft || initialDraft` at lines 36
  and 43 is modelled as `draft`; the assumption this rests on is listed
  under "Left out".
- **Any non-empty tag passes.** The schema at line 27 does not limit the
  tag to the select's options (lines 150-161); `TagRule` states this.

## Model

| member | source | states |
|---|---|---|
| `NoteSchema.NoteData.With` | components/NoteForm/NoteForm.tsx:52 | `{ ...formData, [name]: value }`: for every field, the updated field reads `v` and every other field keeps its old value |
| `NoteSchema.Passes` | components/NoteForm/NoteForm.tsx:18-28 | a yup `required` test passes exactly the non-empty strings, `min(n)` those of length at least `n`, `max(n)` those of length at most `n` |
| `NoteSchema.Rules` | components/NoteForm/NoteForm.tsx:18-28 | the schema as data: title has `required` then `min(3)`, content `required` then `max(500)`, tag only `required`, each with its exact message |
| `NoteSchema.Violations` | components/NoteForm/NoteForm.tsx:18-28 | the messages a value triggers for a field are always among that field's schema messages |
| `NoteSchema.FailedMessagesSpec` | components/NoteForm/NoteForm.tsx:18-28 | a message is reported exactly when some test of the field that carries it fails on the value |
| `NoteSchema.MessagesNonEmpty` | components/NoteForm/NoteForm.tsx:21-27 | no schema message is empty, so `""` can only mean "cleared" |
| `NoteSchema.TitleRule` | components/NoteForm/NoteForm.tsx:19-22 | a title passes iff its length is at least 3; an empty title fails both `required` and `min`; a title of length 1 or 2 triggers exactly "Title must be at least 3 characters" |
| `NoteSchema.ContentRule` | components/NoteForm/NoteForm.tsx:23-26 | content passes iff 1 <= length <= 500; empty content triggers exactly "Content is required"; content longer than 500 triggers exactly "Content is too long" |
| `NoteSchema.TagRule` | components/NoteForm/NoteForm.tsx:27 | a tag passes iff it is non-empty, whatever the select offers; an empty tag triggers exactly "Tag is required" |
| `NoteSchema.InvalidFields` | components/NoteForm/NoteForm.tsx:72 | the set of failing fields is empty exactly when the whole note passes the schema |
| `NoteSchema.InvalidField` | components/NoteForm/NoteForm.tsx:72 | a field is among the failing fields of the whole-form validation iff its value fails that field's own rule, the same rule as the per-field validation at line 58 |
| `NoteSchema.FormValidIff` | components/NoteForm/NoteForm.tsx:18-28 | a note passes the schema iff title length >= 3, 1 <= content length <= 500 and the tag is non-empty |
| `NoteSchema.IsReport` | components/NoteForm/NoteForm.tsx:72-88 | the only thing `HandleSubmit` requires of the `err.inner` list thrown by `schema.validate(formData, { abortEarly: false })`: every entry names a field and a message of a test that field's value really fails, and every failing field has at least one entry; order and repeats are left open. `IssuesIsReport` proves such a list exists for every note |
| `NoteSchema.Issues` | components/NoteForm/NoteForm.tsx:72 | the reference `abortEarly: false` report: every failed test of every field, field by field in schema order |
| `NoteSchema.IssuesIsReport` | components/NoteForm/NoteForm.tsx:72 | listing every failed test field by field (validation with `abortEarly: false`) is a report: every entry is a real failure and every failing field is covered |
| `NoteSchema.Aggregate` | components/NoteForm/NoteForm.tsx:86-90 | the `fieldErrors` object the `forEach` builds: each error in turn writes its message under its path, so a later error about a field overwrites an earlier one |
| `NoteSchema.AggregateKeys` | components/NoteForm/NoteForm.tsx:87-90 | the `fieldErrors` built from a list of errors has a key for exactly the fields the list names |
| `NoteSchema.AggregateLast` | components/NoteForm/NoteForm.tsx:87-90 | each `fieldErrors` entry is the message of the last error about that field |
| `NoteSchema.ReportErrors` | components/NoteForm/NoteForm.tsx:86-91 | aggregating a report gives an error for every invalid field and for no valid one, each a message of a test that field fails |
| `NoteSchema.ReportEmptyIffValid` | components/NoteForm/NoteForm.tsx:72 | validation reports no error exactly when the note passes the schema, so create is reached exactly for valid notes |
| `NoteFormComponent.CollectFieldErrors` | components/NoteForm/NoteForm.tsx:87-90 | the `forEach` loop leaves exactly the aggregate of the error list: one entry per named field, last message wins |
| `NoteFormComponent.NoteForm.constructor` | components/NoteForm/NoteForm.tsx:36-40 | mounting starts `formData` from the stored draft, with no errors, not submitting and an empty log |
| `NoteFormComponent.NoteForm.SetDraft` | components/NoteForm/NoteForm.tsx:42-44 | a draft write is followed by `formData := draft` (the sync effect); the log gains exactly the write, and errors and `isSubmitting` are unchanged |
| `NoteFormComponent.NoteForm.ClearDraft` | components/NoteForm/NoteForm.tsx:74 | clearing resets the draft, and through the effect `formData`, to `initialDraft` |
| `NoteFormComponent.NoteForm.HandleChange` | components/NoteForm/NoteForm.tsx:46-65 | sets field `f` to `v`, keeps the other fields, writes the draft; `errors[f]` becomes `""` iff `v` passes f's rule and otherwise a message `v` triggers; every other error entry is preserved; the form invariant holds |
| `NoteFormComponent.NoteForm.HandleSubmit` | components/NoteForm/NoteForm.tsx:67-102 | invalid form: no create call, draft and data unchanged, errors keyed by exactly the invalid fields; valid form with create success: one create with exactly `formData`, then draft cleared, success toast, back; valid form with create failure: one create, error toast, errors/data/draft unchanged, no navigation; `isSubmitting` false afterwards in every case |
| `NoteFormComponent.NoteForm.ShowFieldErrors` | components/NoteForm/NoteForm.tsx:86-91 | the validation-error branch replaces `errors` with the aggregated field errors, keyed by exactly the invalid fields, and touches nothing else |
| `NoteFormComponent.NoteForm.CreateAndLeave` | components/NoteForm/NoteForm.tsx:73-98 | the branch after validation passes: create is called once with `formData` while the inputs are disabled; on success the draft is cleared, then the success toast, then back; on failure only the error toast |
| `NoteFormComponent.NoteForm.HandleCancel` | components/NoteForm/NoteForm.tsx:104-106 | cancel navigates back and keeps the draft, the form data and the errors |

## Left out

- `app/notes/action/create/CreateNoteClient.tsx` is not part of this model. It is a static page shell that loads the form on the client only, with no logic of its own.
- `app/notes/filter/[...slug]/page.tsx` (the filtered notes page, its metadata and its not-found rule) is not part of this model. It is page glue over a fetch call.
- The rendered markup, CSS and the tag `<option>` list (lines 108-184) are left out. Only `disabled={isSubmitting}` (lines 120, 135, 148, 171, 178) is kept, as `InputsDisabled`, which `Valid` requires to be false between handlers.
- Toasts are modelled as `NotifiedSuccess` and `NotifiedError` log entries, without their title, message or position. The `typeof window !== 'undefined'` checks are taken as always true: the form runs only in the browser.
- The error notification is modelled for every create failure. The source shows it only when the thrown value is an `Error`, and a non-`Error` rejection of `createNote` is not modelled.
- `createNote` and the HTTP API are not modelled. The call's outcome is the input `createOk`, and the created note it returns is not used by the form.
- `router.back()` is recorded as a `NavigatedBack` entry only.
- The zustand store and the value of `initialDraft` are not part of this model. The default draft is a constructor parameter.
- NoteFormComponent.NoteForm.constructor: assumes that the store's `draft` is always a `NewNoteData` object, hence truthy, so `draft || initialDraft` (lines 36 and 43) is modelled as `draft`. The store file is not part of this model; a store that held a falsy draft would make the source fall back to `initialDraft`, which the model does not capture.
- yup internals are left out: `yup.reach` name dispatch, and which message wins or in what order errors are listed when one field fails several tests. The schema is explicit per-field test lists. The per-field error is some violated message, and the submit error list is any list satisfying `IsReport`.
- Handlers are atomic and run one at a time. Async interleaving, React batching, stale closures over `formData`, and effect scheduling are not modelled. So `isSubmitting` is true only inside `HandleSubmit`, and a hung `createNote` leaving the form in the submitting state cannot be expressed.
- Lengths are counted in Dafny characters. JavaScript counts UTF-16 code units, so characters outside the Basic Multilingual Plane would be counted differently.
