/**
 * The note form's submission lifecycle as a state machine on values:
 * the form's values and errors, the create-note mutation's status, and a
 * log of the effects the form has caused (calls to the note service,
 * invalidations of the "notes" query, calls to the host's onCancel).
 * The class in module Component implements these transitions in place;
 * this module is its specification and holds the properties.
 */
module Lifecycle {

  import opened Wrappers
  import opened Schema

  /** The mutation's status; every status but Idle remembers the variables
      of the last call. */
  datatype Status = Idle | Pending(variables: Draft) | Succeeded(variables: Draft) | Failed(variables: Draft)

  /** What the form does to its collaborators. */
  datatype Effect =
    | CreateNote(note: Draft)   // the mutation calls the note service with these values
    | InvalidateNotes           // the query client marks the "notes" query stale
    | CloseForm                 // the host's onCancel callback is called

  datatype Event =
    | Edit(field: Field, value: string)
    | Blur(field: Field)
    | Submit
    | RemoteSuccess
    | RemoteFailure
    | Cancel

  datatype State = State(values: Draft, errors: map<Field, string>, status: Status, effects: seq<Effect>)

  const SaveLabel := "Save"
  const SavingLabel := "Saving..."
  const FailureBanner := "Failed to save note. Try again."

  const Initial: State := State(InitialValues, map[], Idle, [])

  /** The submit button is disabled while the mutation is in flight; the
      form library's own submitting flag is false between events. A disabled
      button never shows beside the failure banner. */
  predicate SubmitDisabled(status: Status)
    ensures SubmitDisabled(status) ==> !status.Idle? && Banner(status) == None
  {
    status.Pending?
  }

  function SubmitLabel(status: Status): (r: string)
    ensures r == SavingLabel <==> SubmitDisabled(status)
    ensures r == SaveLabel <==> !SubmitDisabled(status)
  {
    if status.Pending? then SavingLabel else SaveLabel
  }

  /** The error banner under the form. */
  function Banner(status: Status): (r: Option<string>)
    ensures r.Some? <==> status.Failed?
    ensures r.Some? ==> r.value == FailureBanner
  {
    if status.Failed? then Some(FailureBanner) else None
  }

  /** One event. A submit is ignored while the button is disabled; otherwise
      the schema runs, and a valid draft is sent to the mutation and the form
      is reset straight away. A completion only settles a pending mutation;
      a success invalidates "notes" and then closes the form. Cancel only
      calls the host. Editing and leaving a field re-validate (validation on
      change and on blur). The effect log only grows, and only submit,
      success and cancel add to it. */
  function Step(s: State, e: Event): (t: State)
    ensures |s.effects| <= |t.effects| && t.effects[..|s.effects|] == s.effects
    ensures e.Edit? || e.Blur? ==> t.status == s.status
    ensures e.Edit? || e.Blur? || e.RemoteFailure? ==> t.effects == s.effects
  {
    match e
    case Edit(f, v) =>
      var vs := s.values.Set(f, v);
      s.(values := vs, errors := Errors(vs))
    case Blur(_) =>
      s.(errors := Errors(s.values))
    case Submit =>
      if SubmitDisabled(s.status) then s
      else if !IsValid(s.values) then s.(errors := Errors(s.values))
      else State(InitialValues, map[], Pending(s.values), s.effects + [CreateNote(s.values)])
    case RemoteSuccess =>
      if s.status.Pending? then
        s.(status := Succeeded(s.status.variables), effects := s.effects + [InvalidateNotes, CloseForm])
      else s
    case RemoteFailure =>
      if s.status.Pending? then s.(status := Failed(s.status.variables)) else s
    case Cancel =>
      s.(effects := s.effects + [CloseForm])
  }

  /** Events applied in order; the effect log of the start is kept as a prefix. */
  function Run(s: State, es: seq<Event>): (t: State)
    ensures |s.effects| <= |t.effects| && t.effects[..|s.effects|] == s.effects
    decreases |es|
  {
    if es == [] then s else Run(Step(s, es[0]), es[1..])
  }

  /** The values sent to the note service, in order. */
  function Created(log: seq<Effect>): seq<Draft> {
    if log == [] then []
    else (if log[0].CreateNote? then [log[0].note] else []) + Created(log[1..])
  }

  /** How many times `e` occurs in the log. */
  function Count(log: seq<Effect>, e: Effect): nat {
    multiset(log)[e]
  }

  /** Every invalidation is followed at once by a call to onCancel. */
  ghost predicate InvalidateThenClose(log: seq<Effect>) {
    forall i :: 0 <= i < |log| && log[i] == InvalidateNotes ==> i + 1 < |log| && log[i + 1] == CloseForm
  }

  /** What holds in every reachable state. */
  ghost predicate Inv(s: State) {
    && (s.errors == map[] || s.errors == Errors(s.values))
    && InvalidateThenClose(s.effects)
    && (s.status == Idle <==> Created(s.effects) == [])
    && (s.status != Idle ==> Created(s.effects)[|Created(s.effects)| - 1] == s.status.variables)
    && Count(s.effects, InvalidateNotes) + (if s.status.Pending? then 1 else 0) <= |Created(s.effects)|
  }

  // ---------------------------------------------------------------------
  // Effect log arithmetic
  // ---------------------------------------------------------------------

  lemma {:induction false} CreatedAppend(a: seq<Effect>, b: seq<Effect>)
    ensures Created(a + b) == Created(a) + Created(b)
    decreases |a|
  {
    if a != [] {
      var head := if a[0].CreateNote? then [a[0].note] else [];
      assert (a + b)[0] == a[0];
      assert (a + b)[1..] == a[1..] + b;
      calc {
        Created(a + b);
        head + Created(a[1..] + b);
        { CreatedAppend(a[1..], b); }
        head + (Created(a[1..]) + Created(b));
        Created(a) + Created(b);
      }
    } else {
      assert a + b == b;
    }
  }

  lemma CreatedOfOthers(a: seq<Effect>, b: seq<Effect>)
    requires forall i :: 0 <= i < |b| ==> !b[i].CreateNote?
    ensures Created(a + b) == Created(a)
  {
    CreatedAppend(a, b);
    CreatedNone(b);
  }

  lemma {:induction false} CreatedNone(b: seq<Effect>)
    requires forall i :: 0 <= i < |b| ==> !b[i].CreateNote?
    ensures Created(b) == []
  {
    if b != [] {
      CreatedNone(b[1..]);
    }
  }

  lemma CreatedOne(a: seq<Effect>, d: Draft)
    ensures Created(a + [CreateNote(d)]) == Created(a) + [d]
  {
    CreatedAppend(a, [CreateNote(d)]);
  }

  // ---------------------------------------------------------------------
  // The invariant
  // ---------------------------------------------------------------------

  lemma InitialInv()
    ensures Inv(Initial)
  {
  }

  lemma EditInv(s: State, f: Field, v: string)
    requires Inv(s)
    ensures Inv(Step(s, Edit(f, v)))
  {
  }

  lemma BlurInv(s: State, f: Field)
    requires Inv(s)
    ensures Inv(Step(s, Blur(f)))
  {
  }

  lemma SubmitInv(s: State)
    requires Inv(s)
    ensures Inv(Step(s, Submit))
  {
    if !SubmitDisabled(s.status) && IsValid(s.values) {
      CreatedOne(s.effects, s.values);
      var t := Step(s, Submit);
      assert Count(t.effects, InvalidateNotes) == Count(s.effects, InvalidateNotes);
    }
  }

  lemma SuccessInv(s: State)
    requires Inv(s)
    ensures Inv(Step(s, RemoteSuccess))
  {
    if s.status.Pending? {
      var t := Step(s, RemoteSuccess);
      CreatedOfOthers(s.effects, [InvalidateNotes, CloseForm]);
      assert Count(t.effects, InvalidateNotes) == Count(s.effects, InvalidateNotes) + 1;
      forall i | 0 <= i < |t.effects| && t.effects[i] == InvalidateNotes
        ensures i + 1 < |t.effects| && t.effects[i + 1] == CloseForm
      {
        if i < |s.effects| {
          assert t.effects[i] == s.effects[i];
          if i + 1 < |s.effects| {
            assert t.effects[i + 1] == s.effects[i + 1];
          }
        }
      }
    }
  }

  lemma FailureInv(s: State)
    requires Inv(s)
    ensures Inv(Step(s, RemoteFailure))
  {
  }

  lemma CancelInv(s: State)
    requires Inv(s)
    ensures Inv(Step(s, Cancel))
  {
    var t := Step(s, Cancel);
    CreatedOfOthers(s.effects, [CloseForm]);
    assert Count(t.effects, InvalidateNotes) == Count(s.effects, InvalidateNotes);
    forall i | 0 <= i < |t.effects| && t.effects[i] == InvalidateNotes
      ensures i + 1 < |t.effects| && t.effects[i + 1] == CloseForm
    {
      assert t.effects[i] == s.effects[i];
      if i + 1 < |s.effects| {
        assert t.effects[i + 1] == s.effects[i + 1];
      }
    }
  }

  lemma StepInv(s: State, e: Event)
    requires Inv(s)
    ensures Inv(Step(s, e))
  {
    match e
    case Edit(f, v) => EditInv(s, f, v);
    case Blur(f) => BlurInv(s, f);
    case Submit => SubmitInv(s);
    case RemoteSuccess => SuccessInv(s);
    case RemoteFailure => FailureInv(s);
    case Cancel => CancelInv(s);
  }

  lemma {:induction false} RunInv(s: State, es: seq<Event>)
    requires Inv(s)
    ensures Inv(Run(s, es))
    decreases |es|
  {
    if es != [] {
      StepInv(s, es[0]);
      RunInv(Step(s, es[0]), es[1..]);
    }
  }

  /** Every reachable state satisfies the invariant. */
  lemma ReachableInv(es: seq<Event>)
    ensures Inv(Run(Initial, es))
  {
    InitialInv();
    RunInv(Initial, es);
  }

  lemma {:induction false} RunAppend(s: State, a: seq<Event>, b: seq<Event>)
    ensures Run(s, a + b) == Run(Run(s, a), b)
    decreases |a|
  {
    if a != [] {
      assert (a + b)[0] == a[0];
      assert (a + b)[1..] == a[1..] + b;
      calc {
        Run(s, a + b);
        Run(Step(s, a[0]), a[1..] + b);
        { RunAppend(Step(s, a[0]), a[1..], b); }
        Run(Run(Step(s, a[0]), a[1..]), b);
        Run(Run(s, a), b);
      }
    } else {
      assert a + b == b;
    }
  }

  // ---------------------------------------------------------------------
  // One event at a time
  // ---------------------------------------------------------------------

  /** An accepted submit calls the note service once with exactly the
      submitted values, and resets the form whatever the outcome will be. */
  lemma AcceptedSubmit(s: State)
    requires !SubmitDisabled(s.status) && IsValid(s.values)
    ensures var t := Step(s, Submit);
      && Created(t.effects) == Created(s.effects) + [s.values]
      && Count(t.effects, InvalidateNotes) == Count(s.effects, InvalidateNotes)
      && Count(t.effects, CloseForm) == Count(s.effects, CloseForm)
      && t.status == Pending(s.values)
      && t.values == InitialValues && t.errors == map[]
  {
    CreatedOne(s.effects, s.values);
  }

  /** A submit of an invalid draft calls nothing and keeps the draft; the
      errors shown are the schema's. */
  lemma RejectedSubmit(s: State)
    requires !SubmitDisabled(s.status) && !IsValid(s.values)
    ensures var t := Step(s, Submit);
      && t.effects == s.effects && t.status == s.status && t.values == s.values
      && t.errors == Errors(s.values) && t.errors != map[]
  {
  }

  /** While the mutation is pending, the disabled Save button changes nothing. */
  lemma SubmitWhilePendingIsNoOp(s: State)
    requires SubmitDisabled(s.status)
    ensures Step(s, Submit) == s
  {
  }

  /** While the mutation is pending, no sequence of submits, edits and
      cancels calls the note service again, invalidates, or changes the status. */
  lemma {:induction false} NothingCreatedWhilePending(s: State, es: seq<Event>)
    requires s.status.Pending?
    requires forall i :: 0 <= i < |es| ==> es[i] != RemoteSuccess && es[i] != RemoteFailure
    ensures var t := Run(s, es);
      && t.status == s.status
      && Created(t.effects) == Created(s.effects)
      && Count(t.effects, InvalidateNotes) == Count(s.effects, InvalidateNotes)
    decreases |es|
  {
    if es != [] {
      var s1 := Step(s, es[0]);
      if es[0] == Cancel {
        CreatedOfOthers(s.effects, [CloseForm]);
      }
      assert Created(s1.effects) == Created(s.effects);
      assert Count(s1.effects, InvalidateNotes) == Count(s.effects, InvalidateNotes);
      NothingCreatedWhilePending(s1, es[1..]);
    }
  }

  /** A success invalidates "notes" once and then calls onCancel once. */
  lemma SuccessEffects(s: State)
    requires s.status.Pending?
    ensures var t := Step(s, RemoteSuccess);
      && t.effects == s.effects + [InvalidateNotes, CloseForm]
      && Created(t.effects) == Created(s.effects)
      && Count(t.effects, InvalidateNotes) == Count(s.effects, InvalidateNotes) + 1
      && Count(t.effects, CloseForm) == Count(s.effects, CloseForm) + 1
      && t.status == Succeeded(s.status.variables) && Banner(t.status) == None
      && t.values == s.values && t.errors == s.errors
  {
    CreatedOfOthers(s.effects, [InvalidateNotes, CloseForm]);
  }

  /** A failure causes no effect and shows the banner. */
  lemma FailureEffects(s: State)
    requires s.status.Pending?
    ensures var t := Step(s, RemoteFailure);
      && t.effects == s.effects
      && t.status == Failed(s.status.variables)
      && Banner(t.status) == Some(FailureBanner)
      && !SubmitDisabled(t.status)
      && t.values == s.values && t.errors == s.errors
  {
  }

  /** A completion when nothing is in flight changes nothing. */
  lemma StaleCompletionIsNoOp(s: State)
    requires !s.status.Pending?
    ensures Step(s, RemoteSuccess) == s && Step(s, RemoteFailure) == s
  {
  }

  /** Cancel calls onCancel once and nothing else. */
  lemma CancelEffects(s: State)
    ensures var t := Step(s, Cancel);
      && Created(t.effects) == Created(s.effects)
      && Count(t.effects, InvalidateNotes) == Count(s.effects, InvalidateNotes)
      && Count(t.effects, CloseForm) == Count(s.effects, CloseForm) + 1
      && t.values == s.values && t.status == s.status && t.errors == s.errors
  {
    CreatedOfOthers(s.effects, [CloseForm]);
  }

  /** Editing one field leaves another field's value as it was, and that
      field's error becomes the schema's verdict on its unchanged value. */
  lemma EditTouchesOneField(s: State, f: Field, v: string, g: Field)
    requires g != f
    ensures var t := Step(s, Edit(f, v));
      && t.values.Get(g) == s.values.Get(g)
      && (g in t.errors <==> FieldError(g, s.values.Get(g)).Some?)
      && (g in t.errors ==> t.errors[g] == FieldError(g, s.values.Get(g)).value)
      && t.status == s.status && t.effects == s.effects
  {
    var t := Step(s, Edit(f, v));
    ErrorsPerField(t.values, g);
  }

  // ---------------------------------------------------------------------
  // Whole submissions
  // ---------------------------------------------------------------------

  /** Submit then success: one note created, "notes" invalidated, form
      closed, status Succeeded, draft cleared. */
  lemma SubmitThenSuccess(s: State)
    requires !SubmitDisabled(s.status) && IsValid(s.values)
    ensures var t := Run(s, [Submit, RemoteSuccess]);
      && t.effects == s.effects + [CreateNote(s.values), InvalidateNotes, CloseForm]
      && t.status == Succeeded(s.values)
      && t.values == InitialValues && t.errors == map[]
  {
    assert [Submit, RemoteSuccess][1..] == [RemoteSuccess];
    var t1 := Step(s, Submit);
    assert t1.effects + [InvalidateNotes, CloseForm] == s.effects + [CreateNote(s.values), InvalidateNotes, CloseForm];
  }

  /** Submit then failure: one note requested, nothing invalidated, banner
      shown, and the draft is NOT restored, since the form was reset on submit. */
  lemma SubmitThenFailure(s: State)
    requires !SubmitDisabled(s.status) && IsValid(s.values)
    ensures var t := Run(s, [Submit, RemoteFailure]);
      && t.effects == s.effects + [CreateNote(s.values)]
      && t.status == Failed(s.values)
      && Banner(t.status) == Some(FailureBanner)
      && t.values == InitialValues && t.errors == map[]
  {
    assert [Submit, RemoteFailure][1..] == [RemoteFailure];
  }

  /** The edits that type a whole draft into the form. */
  function FillIn(d: Draft): seq<Event> {
    [Edit(Title, d.title), Edit(Content, d.content), Edit(Tag, d.tag)]
  }

  lemma FillInSetsValues(s: State, d: Draft)
    ensures Run(s, FillIn(d)).values == d
    ensures Run(s, FillIn(d)).status == s.status && Run(s, FillIn(d)).effects == s.effects
  {
    var es := FillIn(d);
    var s1 := Step(s, Edit(Title, d.title));
    var s2 := Step(s1, Edit(Content, d.content));
    var s3 := Step(s2, Edit(Tag, d.tag));
    assert es[1..] == [Edit(Content, d.content), Edit(Tag, d.tag)];
    assert es[1..][1..] == [Edit(Tag, d.tag)];
    assert Run(s2, [Edit(Tag, d.tag)]) == s3;
    assert Run(s1, es[1..]) == s3;
    assert s3.values == d;
  }

  /** Type a draft in, save it, and the service succeeds. */
  function SaveCycle(d: Draft): seq<Event> {
    FillIn(d) + [Submit, RemoteSuccess]
  }

  /** One save cycle from a state that is not pending. */
  lemma OneCycle(s: State, d: Draft) returns (t: State)
    requires !SubmitDisabled(s.status) && IsValid(d)
    ensures t == Run(s, SaveCycle(d))
    ensures t.effects == s.effects + [CreateNote(d), InvalidateNotes, CloseForm]
    ensures t.status == Succeeded(d) && t.values == InitialValues && t.errors == map[]
  {
    RunAppend(s, FillIn(d), [Submit, RemoteSuccess]);
    var f := Run(s, FillIn(d));
    FillInSetsValues(s, d);
    SubmitThenSuccess(f);
    t := Run(f, [Submit, RemoteSuccess]);
  }

  lemma CycleEffects(log: seq<Effect>, d: Draft)
    ensures Created(log + [CreateNote(d), InvalidateNotes, CloseForm]) == Created(log) + [d]
    ensures Count(log + [CreateNote(d), InvalidateNotes, CloseForm], InvalidateNotes) == Count(log, InvalidateNotes) + 1
  {
    var added := [CreateNote(d), InvalidateNotes, CloseForm];
    CreatedAppend(log, added);
    assert added[1..] == [InvalidateNotes, CloseForm];
    CreatedNone([InvalidateNotes, CloseForm]);
  }

  /** No deduplication: saving the same draft in two full success cycles
      creates two notes and invalidates twice. */
  lemma SameDraftTwiceCreatesTwo(s: State, d: Draft)
    requires !SubmitDisabled(s.status) && IsValid(d)
    ensures Created(Run(s, SaveCycle(d) + SaveCycle(d)).effects) == Created(s.effects) + [d, d]
    ensures Count(Run(s, SaveCycle(d) + SaveCycle(d)).effects, InvalidateNotes) == Count(s.effects, InvalidateNotes) + 2
  {
    var s1 := OneCycle(s, d);
    var s2 := OneCycle(s1, d);
    RunAppend(s, SaveCycle(d), SaveCycle(d));
    CycleEffects(s.effects, d);
    CycleEffects(s1.effects, d);
  }

  /** From a fresh form: type "Buy milk" / "2% organic" / "Shopping", save,
      and the service succeeds. */
  lemma BuyMilkScenario()
    ensures var d := Draft("Buy milk", "2% organic", "Shopping");
      Run(Initial, SaveCycle(d))
        == State(InitialValues, map[], Succeeded(d), [CreateNote(d), InvalidateNotes, CloseForm])
  {
    var d := Draft("Buy milk", "2% organic", "Shopping");
    BuyMilkIsValid();
    var t := OneCycle(Initial, d);
  }
}
