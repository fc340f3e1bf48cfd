# NoteForm: validation schema and submission lifecycle

A model of the note-creation form `NoteForm` (a React component using
Formik for form state, Yup for the validation schema and react-query for the
create-note mutation) and proofs about it.

- `Schema` (schema.dfy) is the validation schema: a required title of at
  least 3 characters, a required content of at least 5, and a tag that must be
  one of `Todo`, `Work`, `Personal`, `Meeting`, `Shopping`. Every field's error
  is computed from that field alone and all of them are collected into one map
  from field to message, with the component's own message strings. Lengths are
  the JavaScript string length (UTF-16 code units), untrimmed. The form library
  hands an empty string to the schema as "absent". So `""` gets only the
  "required" message, and an empty tag passes the one-of rule, which is not
  marked required.
- `Lifecycle` (lifecycle.dfy) is the lifecycle as a state machine on values.
  The state holds the form's values and errors, the mutation status (`Idle`,
  `Pending`, `Succeeded`, `Failed`, each but `Idle` carrying the submitted
  values), and a log of effects: `CreateNote(values)` for a call to the note
  service, `InvalidateNotes` for invalidating the `["notes"]` query, and
  `CloseForm` for a call to the host's `onCancel`. The events are edit, blur,
  submit, remote success, remote failure and cancel. Counts of
  effects are occurrence counts in the log, and the log also records their
  order. `Inv` is the invariant of every reachable state, and the lemmas state
  the properties the component promises.
- `Component` (component.dfy) is the component as a class. Its fields are
  updated in place by the handlers, and each handler is proved to perform
  exactly the transition `Lifecycle.Step` specifies and to keep `Inv`.
  Submit follows the code: `mutate(values)` and then `resetForm()` run
  straight away. So the draft is cleared on every accepted submit, whatever
  the later outcome.
- `Wrappers` (wrappers.dfy) holds `Option`.

## Model

| member | source | states |
|---|---|---|
| `Schema.JsLength` | components/NoteForm/NoteForm.tsx:14-15 | the string's `.length` in UTF-16 code units, which the `min` rules measure; it lies between the number of characters and twice it, and is 0 exactly for the empty string |
| `Schema.JsLengthOfBmp` | components/NoteForm/NoteForm.tsx:14-15 | for text without astral characters the JavaScript length is the number of characters |
| `Schema.Prepared` | components/NoteForm/NoteForm.tsx:33 | the schema sees a field as absent exactly when its value is the empty string, and otherwise sees the value unchanged |
| `Schema.RequiredMin` | components/NoteForm/NoteForm.tsx:14-15 | `string().required(m1).min(n, m2)`: no error iff the value is present with length at least n; an absent value gets m1; a present shorter value gets m2 |
| `Schema.OneOf` | components/NoteForm/NoteForm.tsx:16 | `mixed().oneOf(values)` on a field that is not required: no error iff the value is absent or one of the values; otherwise the one-of message |
| `Schema.FieldError` | components/NoteForm/NoteForm.tsx:14-16 | the rule of one field applied to its value: any error is one of that field's own messages, and an empty value fails exactly the two required text fields |
| `Schema.IsValid` | components/NoteForm/NoteForm.tsx:13-17 | the schema passes iff every one of the three field rules passes |
| `Schema.Draft.Set` | components/NoteForm/NoteForm.tsx:42-58 | the field update on a change of one `Field`: that field takes the new value and every other field keeps its own |
| `Schema.Errors` | components/NoteForm/NoteForm.tsx:13-17 | the error map only has keys among the three fields |
| `Schema.ErrorsPerField` | components/NoteForm/NoteForm.tsx:13-17 | a field is in the error map iff its own rule fails, and its entry is that rule's message |
| `Schema.ErrorIndependentOfOtherFields` | components/NoteForm/NoteForm.tsx:13-17 | two drafts with the same value in a field get the same error for that field, whatever the other fields hold |
| `Schema.RequiredMinMessages` | components/NoteForm/NoteForm.tsx:14-15 | a required string with a minimum length gets the required message iff it is empty, the length message iff 0 < length < min, and no error iff length >= min |
| `Schema.TitleMessages` | components/NoteForm/NoteForm.tsx:14 | "Title is required" iff the title is empty; "Must be at least 3 characters" iff its length is 1 or 2; no error iff its length is at least 3 |
| `Schema.ContentMessages` | components/NoteForm/NoteForm.tsx:15 | "Content is required" iff the content is empty; "Must be at least 5 characters" iff its length is 1 to 4; no error iff its length is at least 5 |
| `Schema.LongTitlePasses` | components/NoteForm/NoteForm.tsx:14 | with no trimming, any title of three or more characters passes, including one made only of whitespace |
| `Schema.LongContentPasses` | components/NoteForm/NoteForm.tsx:15 | with no trimming, any content of five or more characters passes |
| `Schema.TagMessages` | components/NoteForm/NoteForm.tsx:16 | the tag passes iff it is one of the five categories or empty; each of the five passes; any other value gets the one-of message |
| `Schema.ValidIff` | components/NoteForm/NoteForm.tsx:13-17 | a draft is valid iff the title has length >= 3, the content has length >= 5 and the tag passes, all three together |
| `Schema.InitialValuesErrors` | components/NoteForm/NoteForm.tsx:32 | the initial values `{"", "", "Todo"}` fail with exactly "Title is required" and "Content is required" |
| `Schema.ShortTitleAndContentErrors` | components/NoteForm/NoteForm.tsx:13-17 | `{"Hi", "abc", "Todo"}` gets both the title and the content length messages, and nothing for the tag |
| `Schema.BuyMilkIsValid` | components/NoteForm/NoteForm.tsx:13-17 | `{"Buy milk", "2% organic", "Shopping"}` is valid |
| `Lifecycle.Step` | components/NoteForm/NoteForm.tsx:22-37 | one event of the form: the effect log only grows (the old log is a prefix of the new), edits and blurs leave the status alone, and edits, blurs and failures add no effect |
| `Lifecycle.Run` | components/NoteForm/NoteForm.tsx:22-37 | events applied in order: the starting effect log is a prefix of the final one |
| `Lifecycle.SubmitDisabled` | components/NoteForm/NoteForm.tsx:63 | the Save button's guard `isSubmitting \|\| isPending` with only `isPending` kept, since the submitting flag is false at every event boundary (see "Left out"); a disabled button means a call is in flight and never shows beside the failure banner |
| `Lifecycle.SubmitLabel` | components/NoteForm/NoteForm.tsx:63-64 | the button reads "Saving..." iff the button is disabled (mutation pending), and "Save" otherwise |
| `Lifecycle.Banner` | components/NoteForm/NoteForm.tsx:71-72 | the banner is shown iff the mutation failed, and its text is "Failed to save note. Try again." |
| `Lifecycle.InitialInv` | components/NoteForm/NoteForm.tsx:32 | the mounted form satisfies the invariant |
| `Lifecycle.EditInv` | components/NoteForm/NoteForm.tsx:42-58 | editing a field keeps the invariant |
| `Lifecycle.BlurInv` | components/NoteForm/NoteForm.tsx:33 | leaving a field keeps the invariant |
| `Lifecycle.SubmitInv` | components/NoteForm/NoteForm.tsx:34-37 | a submit keeps the invariant |
| `Lifecycle.SuccessInv` | components/NoteForm/NoteForm.tsx:24-27 | a remote success keeps the invariant, which includes "every invalidation is followed at once by onCancel" |
| `Lifecycle.FailureInv` | components/NoteForm/NoteForm.tsx:22-28 | a remote failure keeps the invariant |
| `Lifecycle.CancelInv` | components/NoteForm/NoteForm.tsx:66 | a cancel keeps the invariant |
| `Lifecycle.StepInv` | components/NoteForm/NoteForm.tsx:22-37 | every event keeps the invariant |
| `Lifecycle.RunInv` | components/NoteForm/NoteForm.tsx:22-37 | every sequence of events keeps the invariant |
| `Lifecycle.ReachableInv` | components/NoteForm/NoteForm.tsx:22-37 | in every reachable state: the errors are none or the schema's errors for the current values; each invalidation is directly followed by onCancel; the status is Idle iff nothing was created; a non-idle status holds the values of the last createNote call; invalidations plus the pending call never outnumber createNote calls |
| `Lifecycle.AcceptedSubmit` | components/NoteForm/NoteForm.tsx:34-36 | a submit of a valid draft while not pending calls createNote once with exactly those values; there is no invalidation and no onCancel; the status becomes Pending with those values; the form is reset to the initial values with no errors |
| `Lifecycle.RejectedSubmit` | components/NoteForm/NoteForm.tsx:33-34 | a submit of an invalid draft while not pending calls nothing, keeps the values and the status, and shows the schema's (non-empty) errors |
| `Lifecycle.SubmitWhilePendingIsNoOp` | components/NoteForm/NoteForm.tsx:63 | while the mutation is pending, a submit leaves the whole state unchanged: values, errors, status and effects |
| `Lifecycle.NothingCreatedWhilePending` | components/NoteForm/NoteForm.tsx:63 | while pending, any sequence of submits, edits, blurs and cancels calls createNote no more, invalidates nothing and leaves the status unchanged |
| `Lifecycle.SuccessEffects` | components/NoteForm/NoteForm.tsx:24-27 | a success of the pending call appends exactly one invalidation followed by one onCancel; it creates nothing, sets the status to Succeeded, hides the banner and keeps the values and the errors |
| `Lifecycle.FailureEffects` | components/NoteForm/NoteForm.tsx:71-72 | a failure of the pending call causes no effect, sets the status to Failed, shows the banner, re-enables the button and keeps the values and the errors |
| `Lifecycle.StaleCompletionIsNoOp` | components/NoteForm/NoteForm.tsx:22-28 | a completion while nothing is pending changes nothing |
| `Lifecycle.CancelEffects` | components/NoteForm/NoteForm.tsx:66 | cancel calls onCancel once and changes nothing else: no createNote, no invalidation, same values, errors and status |
| `Lifecycle.EditTouchesOneField` | components/NoteForm/NoteForm.tsx:42-58 | editing one field leaves every other field's value as it was; another field's error becomes the schema's verdict on its unchanged value (present iff its rule fails, with that rule's message); status and effects are unchanged |
| `Lifecycle.SubmitThenSuccess` | components/NoteForm/NoteForm.tsx:22-37 | submit and then success append createNote, invalidate and onCancel in that order, leave the status Succeeded and the form reset |
| `Lifecycle.SubmitThenFailure` | components/NoteForm/NoteForm.tsx:34-36 | submit and then failure append one createNote, leave the status Failed and the banner shown, and the values are the initial values with no errors: the draft is not kept for correction |
| `Lifecycle.FillInSetsValues` | components/NoteForm/NoteForm.tsx:42-58 | typing the three fields sets the form's values to that draft without any effect |
| `Lifecycle.OneCycle` | components/NoteForm/NoteForm.tsx:22-37 | typing a valid draft, saving and a success append createNote with that draft, invalidate and onCancel, and leave status Succeeded and a reset form |
| `Lifecycle.SameDraftTwiceCreatesTwo` | components/NoteForm/NoteForm.tsx:22-37 | two full save cycles of the same draft call createNote twice with it and invalidate twice: no deduplication |
| `Lifecycle.BuyMilkScenario` | components/NoteForm/NoteForm.tsx:22-37 | from a fresh form, saving `{"Buy milk", "2% organic", "Shopping"}` and a success give the whole final state: reset form, status Succeeded, effects createNote, invalidate, onCancel |
| `Component.NoteForm.constructor` | components/NoteForm/NoteForm.tsx:32 | the mounted form is the initial state |
| `Component.NoteForm.Edit` | components/NoteForm/NoteForm.tsx:42-58 | the field takes the typed value and the errors are recomputed; this is exactly the edit step |
| `Component.NoteForm.Blur` | components/NoteForm/NoteForm.tsx:33 | the errors become the schema's errors for the current values; this is exactly the blur step |
| `Component.NoteForm.Mutate` | components/NoteForm/NoteForm.tsx:35 | the status becomes Pending with the values and one createNote call is logged; the form is untouched |
| `Component.NoteForm.ResetForm` | components/NoteForm/NoteForm.tsx:36 | the values become the initial values and the errors none; the mutation is untouched |
| `Component.NoteForm.Submit` | components/NoteForm/NoteForm.tsx:34-37 | exactly the submit step: accepted iff not pending and valid, and then one createNote with the old values; otherwise no effect; while pending, nothing changes at all |
| `Component.NoteForm.OnSuccess` | components/NoteForm/NoteForm.tsx:24-27 | while the call is pending, the "notes" invalidation and then onCancel are logged, in that order, and nothing else changes |
| `Component.NoteForm.RemoteSuccess` | components/NoteForm/NoteForm.tsx:22-28 | exactly the success step |
| `Component.NoteForm.RemoteFailure` | components/NoteForm/NoteForm.tsx:22-28 | exactly the failure step; a failed pending call shows the banner |
| `Component.NoteForm.Cancel` | components/NoteForm/NoteForm.tsx:66 | exactly the cancel step: one onCancel logged |
| `Component.NoteForm.ButtonText` | components/NoteForm/NoteForm.tsx:64 | the label of `Lifecycle.SubmitLabel` for the object's status: "Saving..." iff pending, "Save" otherwise |
| `Component.NoteForm.ErrorBanner` | components/NoteForm/NoteForm.tsx:71-72 | the banner of `Lifecycle.Banner` for the object's status: present iff the mutation failed, reading "Failed to save note. Try again." |

## Left out

- Layout, CSS classes and the rendering of `Field` and `ErrorMessage`.
  `ErrorMessage` shows a field's error only when the field is touched and has
  an error, and a submit attempt marks every field touched; the `touched`
  flags decide only that display, so they are not modelled. Nothing in the
  component reads the submit count.
- The internals of the form, schema and query libraries. Only the behaviour
  the component relies on is modelled: the schema rules and the empty-string-
  as-absent convention, validation on change, blur and submit, `resetForm`,
  the mutation status and `onSuccess`.
- The note service (`services/noteService`) is not part of this model. Its
  outcome arrives as the `RemoteSuccess` or `RemoteFailure` event, and the
  note the server returns is not modelled.
- Asynchrony: events are applied one at a time. The form library's
  `isSubmitting` flag is set when a submit starts. It stays set through
  validation and, for a valid draft, through the submit handler's call to
  `mutate`, until `resetForm()` clears it; after a rejected submit the library
  clears it itself. So at every event boundary the flag is false and the
  button's guard `isSubmitting || isPending` is `isPending`, which is what
  the model uses.
- Closing is the host's business: `onCancel` is logged, but the model does not
  unmount the form. A completion that arrives after a cancel still settles the
  status, and a success then invalidates "notes" and calls `onCancel` again,
  as the mutation-level `onSuccess` does.
- The `onSubmit` prop is declared but never used by the component.
- There is no retry, deduplication or optimistic update in the code, so none
  is modelled.
- After a failed submission the field values are not kept for correction,
  because the code calls `resetForm()` on every accepted submit, right after
  `mutate` (`Lifecycle.SubmitThenFailure`).
- An empty tag reaches the schema as absent, and the one-of rule, which is
  not marked required, admits it (`Schema.TagMessages`). The five-option
  select cannot produce an empty tag.
- The tag rule has no message of its own. `Schema.TagNotOneOf` is the schema
  library's default text for a failed one-of rule.
