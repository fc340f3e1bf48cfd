/**
 * The NoteForm component as an object whose fields the event handlers
 * update in place: the form library's values and errors, the mutation's
 * status, and the log of effects on the note service, the query client and
 * the host. Each handler is proved to perform exactly the transition
 * Lifecycle.Step specifies, so every property proved there holds of it.
 */
module Component {

  import Wrappers
  import opened Schema
  import L = Lifecycle

  class NoteForm {
    var values: Draft
    var errors: map<Field, string>
    var status: L.Status
    var effects: seq<L.Effect>

    function Snapshot(): L.State
      reads this
    {
      L.State(values, errors, status, effects)
    }

    ghost predicate Valid()
      reads this
    {
      L.Inv(Snapshot())
    }

    /** Mounting the form: the initial values, no errors, an idle mutation. */
    constructor ()
      ensures Valid()
      ensures Snapshot() == L.Initial
    {
      values := InitialValues;
      errors := map[];
      status := L.Idle;
      effects := [];
      L.InitialInv();
    }

    /** The user changes one field; the schema runs on the new values. */
    method Edit(f: Field, v: string)
      requires Valid()
      modifies this
      ensures Valid()
      ensures Snapshot() == L.Step(old(Snapshot()), L.Edit(f, v))
      ensures values.Get(f) == v && status == old(status) && effects == old(effects)
    {
      L.EditInv(Snapshot(), f, v);
      values := values.Set(f, v);
      errors := Errors(values);
    }

    /** The user leaves a field; the schema runs on the current values. */
    method Blur(f: Field)
      requires Valid()
      modifies this
      ensures Valid()
      ensures Snapshot() == L.Step(old(Snapshot()), L.Blur(f))
      ensures errors == Errors(values) && values == old(values)
    {
      L.BlurInv(Snapshot(), f);
      errors := Errors(values);
    }

    /** The mutation's `mutate`: the note service is called with `v`. An
        internal step of Submit, which calls it only when nothing is pending;
        it does not keep Valid() on its own. */
    method Mutate(v: Draft)
      modifies this
      ensures status == L.Pending(v)
      ensures effects == old(effects) + [L.CreateNote(v)]
      ensures values == old(values) && errors == old(errors)
    {
      status := L.Pending(v);
      effects := effects + [L.CreateNote(v)];
    }

    /** The form library's `resetForm`: back to the initial values, no errors.
        An internal step of Submit, right after Mutate. */
    method ResetForm()
      modifies this
      ensures values == InitialValues && errors == map[]
      ensures status == old(status) && effects == old(effects)
    {
      values := InitialValues;
      errors := map[];
    }

    /** The Save button. Ignored while the mutation is pending; otherwise the
        schema runs and, if the values pass, they are sent and the form reset. */
    method Submit() returns (accepted: bool)
      requires Valid()
      modifies this
      ensures Valid()
      ensures Snapshot() == L.Step(old(Snapshot()), L.Submit)
      ensures accepted <==> !L.SubmitDisabled(old(status)) && IsValid(old(values))
      ensures accepted ==> effects == old(effects) + [L.CreateNote(old(values))]
      ensures !accepted ==> effects == old(effects)
      ensures L.SubmitDisabled(old(status)) ==> Snapshot() == old(Snapshot())
    {
      L.SubmitInv(Snapshot());
      if L.SubmitDisabled(status) {
        return false;
      }
      var e := Errors(values);
      errors := e;
      if e != map[] {
        return false;
      }
      Mutate(values);
      ResetForm();
      accepted := true;
    }

    /** The mutation's `onSuccess`: invalidate "notes", then call onCancel.
        An internal step of RemoteSuccess, run while the call is still pending. */
    method OnSuccess()
      requires status.Pending?
      modifies this
      ensures effects == old(effects) + [L.InvalidateNotes, L.CloseForm]
      ensures values == old(values) && errors == old(errors) && status == old(status)
    {
      effects := effects + [L.InvalidateNotes];
      effects := effects + [L.CloseForm];
    }

    /** The note service resolves the pending call. */
    method RemoteSuccess()
      requires Valid()
      modifies this
      ensures Valid()
      ensures Snapshot() == L.Step(old(Snapshot()), L.RemoteSuccess)
    {
      L.SuccessInv(Snapshot());
      if status.Pending? {
        var v := status.variables;
        OnSuccess();
        status := L.Succeeded(v);
      }
    }

    /** The note service rejects the pending call. */
    method RemoteFailure()
      requires Valid()
      modifies this
      ensures Valid()
      ensures Snapshot() == L.Step(old(Snapshot()), L.RemoteFailure)
      ensures old(status).Pending? ==> L.Banner(status).Some?
    {
      L.FailureInv(Snapshot());
      if status.Pending? {
        status := L.Failed(status.variables);
      }
    }

    /** The Cancel button: calls onCancel and nothing else. */
    method Cancel()
      requires Valid()
      modifies this
      ensures Valid()
      ensures Snapshot() == L.Step(old(Snapshot()), L.Cancel)
      ensures effects == old(effects) + [L.CloseForm]
    {
      L.CancelInv(Snapshot());
      effects := effects + [L.CloseForm];
    }

    /** The Save button's label. */
    function ButtonText(): (text: string)
      reads this
      ensures text == L.SavingLabel <==> status.Pending?
      ensures text == L.SaveLabel <==> !status.Pending?
    {
      L.SubmitLabel(status)
    }

    /** The banner shown under the form, if any. */
    function ErrorBanner(): (banner: Wrappers.Option<string>)
      reads this
      ensures banner.Some? <==> status.Failed?
      ensures banner.Some? ==> banner.value == L.FailureBanner
    {
      L.Banner(status)
    }
  }
}
