/**
 * The contact form: its controls, clearErrors, showError, validateField and
 * validateForm. Each record stands for one control together with its error
 * element, the element whose id is the control's id followed by "Error".
 */
module Form {
  import opened Wrappers
  import opened Text
  import opened Validation

  /** The two border colours the validator writes. */
  const NeutralBorder: string := "#e9ecef"
  const AlertBorder: string := "#e63946"

  /** The ids validateForm looks up, in the order it validates them. */
  const SubmitIds: seq<string> := ["name", "email", "subject", "message"]

  /** What the user and the markup decide about a control: none of it is
      changed by the validator. */
  datatype Control = Control(
    id: string,
    value: string,
    defaultValue: string,   // what form.reset() restores
    required: bool)

  /** A control, the border the validator paints on it, and its error
      element. */
  datatype Field = Field(
    control: Control,
    border: string,         // style.borderColor of the control
    errorText: string,      // textContent of the error element
    errorShown: bool)       // style.display of the error element is 'block'

  function FieldOutcome(f: Field): Outcome {
    Check(f.control.id, f.control.required, f.control.value)
  }

  /** The control after validateField decided o: its border is reset, then
      an invalid outcome is shown by showError. */
  function Shown(f: Field, o: Outcome): Field {
    match o
    case Valid => f.(border := NeutralBorder)
    case Invalid(m) => f.(border := AlertBorder, errorText := m, errorShown := true)
  }

  /** The control after validateField. */
  function Validated(f: Field): Field {
    Shown(f, FieldOutcome(f))
  }

  /** The control after clearErrors. */
  function Cleared(f: Field): Field {
    f.(border := NeutralBorder, errorText := "", errorShown := false)
  }

  function ClearAll(fs: seq<Field>): (r: seq<Field>) {
    seq(|fs|, k requires 0 <= k < |fs| => Cleared(fs[k]))
  }

  /** The controls after form.reset(): every value goes back to its default;
      borders and error elements are not form state and stay as they are. */
  function ResetAll(fs: seq<Field>): (r: seq<Field>) {
    seq(|fs|, k requires 0 <= k < |fs| =>
      fs[k].(control := fs[k].control.(value := fs[k].control.defaultValue)))
  }

  /** validateField touches only the border and, on failure, the error
      element; a passing control keeps whatever error text and visibility it
      had. Validating again changes nothing more. */
  lemma ValidatedEffect(f: Field)
    ensures Validated(f).control == f.control
    ensures FieldOutcome(f).Valid? ==> Validated(f) == f.(border := NeutralBorder)
    ensures FieldOutcome(f).Invalid? ==>
              Validated(f).border == AlertBorder && Validated(f).errorShown
              && Validated(f).errorText == FieldOutcome(f).message
    ensures Validated(Validated(f)) == Validated(f)
  {
  }

  /** getElementById: the first control with the given id, if any. */
  function FindField(fs: seq<Field>, id: string): (r: Option<nat>)
    ensures r.Some? ==> r.value < |fs| && fs[r.value].control.id == id
                        && forall k :: 0 <= k < r.value ==> fs[k].control.id != id
    ensures r.None? ==> forall k :: 0 <= k < |fs| ==> fs[k].control.id != id
  {
    if fs == [] then None
    else if fs[0].control.id == id then Some(0)
    else match FindField(fs[1..], id)
      case None => None
      case Some(k) => Some(k + 1)
  }

  /** Two tables with the same ids in the same places answer every lookup
      alike. */
  lemma FindFieldSameIds(a: seq<Field>, b: seq<Field>)
    requires |a| == |b| && forall k :: 0 <= k < |a| ==> a[k].control.id == b[k].control.id
    ensures forall id :: FindField(a, id) == FindField(b, id)
  {
    forall id
      ensures FindField(a, id) == FindField(b, id)
    {
    }
  }

  predicate HasAll(fs: seq<Field>, ids: seq<string>) {
    forall j :: 0 <= j < |ids| ==> FindField(fs, ids[j]).Some?
  }

  /** The positions getElementById finds for ids, in order. */
  function Lookup(fs: seq<Field>, ids: seq<string>): (idx: seq<nat>)
    requires HasAll(fs, ids)
    ensures |idx| == |ids|
    ensures forall j :: 0 <= j < |ids| ==>
              idx[j] < |fs| && fs[idx[j]].control.id == ids[j]
              && forall k :: 0 <= k < idx[j] ==> fs[k].control.id != ids[j]
  {
    seq(|ids|, j requires 0 <= j < |ids| => FindField(fs, ids[j]).value)
  }

  predicate InRange(fs: seq<Field>, idx: seq<nat>) {
    forall j :: 0 <= j < |idx| ==> idx[j] < |fs|
  }

  /** The outcome validateField decides for each control, by position. */
  function Outcomes(fs: seq<Field>): (os: seq<Outcome>)
    ensures |os| == |fs|
  {
    seq(|fs|, k requires 0 <= k < |fs| => FieldOutcome(fs[k]))
  }

  /** Validates the controls at the first n positions of idx, in that order,
      without stopping at the first failure; os[k] is the outcome of control
      k, which validation cannot change since it never touches a control. The
      flag says whether every one passed. */
  function ValidateAt(fs: seq<Field>, os: seq<Outcome>, idx: seq<nat>, n: nat): (r: (seq<Field>, bool))
    requires |os| == |fs| && InRange(fs, idx) && n <= |idx|
    ensures |r.0| == |fs|
    ensures forall k :: 0 <= k < |fs| ==> r.0[k].control == fs[k].control
  {
    if n == 0 then (fs, true)
    else
      var done := ValidateAt(fs, os, idx, n - 1);
      var i := idx[n - 1];
      (done.0[i := Shown(done.0[i], os[i])], done.1 && os[i].Valid?)
  }

  /** k is one of the first n positions of idx. */
  predicate AmongFirst(idx: seq<nat>, n: nat, k: nat)
    requires n <= |idx|
  {
    exists j :: 0 <= j < n && idx[j] == k
  }

  /** Showing the same outcome twice is showing it once. */
  lemma ShownTwice(f: Field, o: Outcome)
    ensures Shown(Shown(f, o), o) == Shown(f, o)
  {
  }

  /** Validating the first n positions validates exactly the controls there,
      each once however often it is named, and leaves every other control as
      it was. */
  lemma {:induction false} ValidateAtEffect(fs: seq<Field>, os: seq<Outcome>, idx: seq<nat>, n: nat)
    requires |os| == |fs| && InRange(fs, idx) && n <= |idx|
    ensures forall k :: 0 <= k < |fs| ==>
              ValidateAt(fs, os, idx, n).0[k] == if AmongFirst(idx, n, k) then Shown(fs[k], os[k]) else fs[k]
  {
    if n > 0 {
      ValidateAtEffect(fs, os, idx, n - 1);
      var i := idx[n - 1];
      forall k | 0 <= k < |fs|
        ensures ValidateAt(fs, os, idx, n).0[k] == if AmongFirst(idx, n, k) then Shown(fs[k], os[k]) else fs[k]
      {
        assert AmongFirst(idx, n, k) <==> k == i || AmongFirst(idx, n - 1, k);
        ShownTwice(fs[k], os[k]);
      }
    }
  }

  /** The flag is true exactly when every control at the first n positions
      passes. */
  lemma {:induction false} ValidateAtPasses(fs: seq<Field>, os: seq<Outcome>, idx: seq<nat>, n: nat)
    requires |os| == |fs| && InRange(fs, idx) && n <= |idx|
    ensures ValidateAt(fs, os, idx, n).1 <==> forall j :: 0 <= j < n ==> os[idx[j]].Valid?
  {
    if n > 0 {
      ValidateAtPasses(fs, os, idx, n - 1);
    }
  }

  /** One more step of ValidateAt is validateField on the control at the
      next position, as it now stands. */
  lemma ValidateAtStep(fs: seq<Field>, idx: seq<nat>, n: nat, cur: seq<Field>, ok: bool)
    requires InRange(fs, idx) && 0 < n <= |idx|
    requires (cur, ok) == ValidateAt(fs, Outcomes(fs), idx, n - 1)
    ensures ValidateAt(fs, Outcomes(fs), idx, n)
            == (cur[idx[n - 1] := Validated(cur[idx[n - 1]])], ok && FieldOutcome(cur[idx[n - 1]]).Valid?)
  {
  }

  /** Validates the controls named by ids, in that order. */
  function ValidateIds(fs: seq<Field>, ids: seq<string>): (seq<Field>, bool)
    requires HasAll(fs, ids)
  {
    ValidateAt(fs, Outcomes(fs), Lookup(fs, ids), |ids|)
  }

  /** Control k is the one getElementById finds for one of ids. */
  predicate Consulted(fs: seq<Field>, ids: seq<string>, k: nat)
    requires HasAll(fs, ids)
  {
    k in Lookup(fs, ids)
  }

  /** Validating a list of ids validates exactly the controls they name, and
      passes exactly when every one of them passes. */
  lemma ValidateIdsEffect(fs: seq<Field>, ids: seq<string>)
    requires HasAll(fs, ids)
    ensures |ValidateIds(fs, ids).0| == |fs|
    ensures forall k :: 0 <= k < |fs| ==>
              ValidateIds(fs, ids).0[k] == if Consulted(fs, ids, k) then Validated(fs[k]) else fs[k]
    ensures ValidateIds(fs, ids).1 <==>
              forall k :: 0 <= k < |fs| && Consulted(fs, ids, k) ==> FieldOutcome(fs[k]).Valid?
  {
    var idx := Lookup(fs, ids);
    var os := Outcomes(fs);
    ValidateAtEffect(fs, os, idx, |ids|);
    ValidateAtPasses(fs, os, idx, |ids|);
    forall k | 0 <= k < |fs|
      ensures Consulted(fs, ids, k) <==> AmongFirst(idx, |ids|, k)
    {
      AmongAllIsIn(idx, k);
    }
    assert (forall j :: 0 <= j < |idx| ==> os[idx[j]].Valid?) <==>
           (forall k :: 0 <= k < |fs| && k in idx ==> os[k].Valid?);
  }

  /** Among all the positions of idx is in idx. */
  lemma AmongAllIsIn(idx: seq<nat>, k: nat)
    ensures AmongFirst(idx, |idx|, k) <==> k in idx
  {
  }

  /** A table holds each of validateForm's controls. */
  predicate HasSubmitFields(fs: seq<Field>) {
    HasAll(fs, SubmitIds)
  }

  /** The controls after a submit attempt (clearErrors, then validateForm),
      and whether the attempt passed. */
  function SubmitAttempt(fs: seq<Field>): (seq<Field>, bool)
    requires HasSubmitFields(fs)
  {
    FindFieldSameIds(fs, ClearAll(fs));
    ValidateIds(ClearAll(fs), SubmitIds)
  }

  /** Control after shows the outcome of a submit attempt on control
      before: an error, with its own message, exactly when the control is
      one validateForm consults and it fails; otherwise no error and a
      neutral border. Nothing but the border and error element changes. */
  predicate ShowsSubmitOutcome(before: Field, after: Field, consulted: bool) {
    var failing := consulted && FieldOutcome(before).Invalid?;
    after.control == before.control
    && after.errorShown == failing
    && after.errorText == (if failing then FieldOutcome(before).message else "")
    && after.border == (if failing then AlertBorder else NeutralBorder)
  }

  /** Clearing the errors and then validating the controls named by ids
      leaves shown exactly the failing named controls, each with its own
      message, and passes exactly when every named control passes. */
  lemma {:induction false} ClearThenValidateEffect(fs: seq<Field>, ids: seq<string>)
    requires HasAll(fs, ids)
    ensures HasAll(ClearAll(fs), ids)
    ensures |ValidateIds(ClearAll(fs), ids).0| == |fs|
    ensures forall k :: 0 <= k < |fs| ==>
              ShowsSubmitOutcome(fs[k], ValidateIds(ClearAll(fs), ids).0[k], Consulted(fs, ids, k))
    ensures ValidateIds(ClearAll(fs), ids).1 <==>
              forall k :: 0 <= k < |fs| && Consulted(fs, ids, k) ==> FieldOutcome(fs[k]).Valid?
  {
    var cs := ClearAll(fs);
    FindFieldSameIds(fs, cs);
    ValidateIdsEffect(cs, ids);
    var after := ValidateIds(cs, ids);
    forall k | 0 <= k < |fs|
      ensures Consulted(cs, ids, k) == Consulted(fs, ids, k)
      ensures FieldOutcome(cs[k]) == FieldOutcome(fs[k])
      ensures ShowsSubmitOutcome(fs[k], after.0[k], Consulted(fs, ids, k))
    {
      assert cs[k] == Cleared(fs[k]);
    }
  }

  /** After a submit attempt exactly the failing controls among name, email,
      subject and message show an error, each with its own message; every
      other control shows none and has a neutral border. The attempt passes
      exactly when none of the four fails. */
  lemma SubmitAttemptEffect(fs: seq<Field>)
    requires HasSubmitFields(fs)
    ensures |SubmitAttempt(fs).0| == |fs|
    ensures forall k :: 0 <= k < |fs| ==>
              ShowsSubmitOutcome(fs[k], SubmitAttempt(fs).0[k], Consulted(fs, SubmitIds, k))
    ensures SubmitAttempt(fs).1 <==>
              forall k :: 0 <= k < |fs| && Consulted(fs, SubmitIds, k) ==> FieldOutcome(fs[k]).Valid?
  {
    ClearThenValidateEffect(fs, SubmitIds);
  }

  /** The phone control is never consulted on submit, whatever its value. */
  lemma PhoneNotCheckedOnSubmit(fs: seq<Field>, k: nat)
    requires HasSubmitFields(fs) && k < |fs| && fs[k].control.id == "phone"
    ensures SubmitAttempt(fs).0[k] == Cleared(fs[k])
  {
    assert "phone" !in SubmitIds by {
      assert "phone"[0] != "email"[0];
      assert |"phone"| != |"name"| && |"phone"| != |"subject"| && |"phone"| != |"message"|;
    }
    assert !Consulted(fs, SubmitIds, k);
    SubmitAttemptEffect(fs);
    UnconsultedIsCleared(fs[k], SubmitAttempt(fs).0[k]);
  }

  lemma UnconsultedIsCleared(before: Field, after: Field)
    requires ShowsSubmitOutcome(before, after, false)
    ensures after == Cleared(before)
  {
  }

  /** A consulted control that is required and blank fails the attempt and
      shows "This field is required", whatever its id and whatever the other
      controls hold. */
  lemma BlankRequiredBlocksSubmit(fs: seq<Field>, k: nat)
    requires HasSubmitFields(fs) && k < |fs| && Consulted(fs, SubmitIds, k)
    requires fs[k].control.required && AllWhitespace(fs[k].control.value)
    ensures !SubmitAttempt(fs).1
    ensures SubmitAttempt(fs).0[k].errorShown && SubmitAttempt(fs).0[k].errorText == RequiredMessage
    ensures SubmitAttempt(fs).0[k].border == AlertBorder
  {
    SubmitAttemptEffect(fs);
    assert FieldOutcome(fs[k]) == Invalid(RequiredMessage);
  }

  /** After an attempt that passes no control shows an error, the phone
      control included: clearErrors hid any error a blur had shown. */
  lemma PassingAttemptShowsNoError(fs: seq<Field>)
    requires HasSubmitFields(fs) && SubmitAttempt(fs).1
    ensures forall k :: 0 <= k < |fs| ==>
              var f := SubmitAttempt(fs).0[k];
              !f.errorShown && f.errorText == "" && f.border == NeutralBorder
  {
    SubmitAttemptEffect(fs);
  }

  /** After clearErrors no control shows an error, every border is neutral
      and no control changes; clearing twice is clearing once. */
  lemma ClearAllEffect(fs: seq<Field>)
    ensures |ClearAll(fs)| == |fs|
    ensures forall k :: 0 <= k < |fs| ==>
              var f := ClearAll(fs)[k];
              f.control == fs[k].control && !f.errorShown && f.errorText == "" && f.border == NeutralBorder
    ensures ClearAll(ClearAll(fs)) == ClearAll(fs)
  {
  }

  /** form.reset() puts every control's default value back and changes
      nothing else, neither the ids, the required flags, the borders nor the
      error elements; resetting twice is resetting once. */
  lemma ResetAllEffect(fs: seq<Field>)
    ensures |ResetAll(fs)| == |fs|
    ensures forall k :: 0 <= k < |fs| ==>
              var f := ResetAll(fs)[k];
              f.control.value == fs[k].control.defaultValue
              && f.control.id == fs[k].control.id && f.control.required == fs[k].control.required
              && f.control.defaultValue == fs[k].control.defaultValue
              && f.border == fs[k].border && f.errorText == fs[k].errorText
              && f.errorShown == fs[k].errorShown
    ensures ResetAll(ResetAll(fs)) == ResetAll(fs)
  {
  }

  /** The browser side of the form: its controls, updated in place by the
      validator's functions. */
  class ContactForm {
    var fields: seq<Field>

    constructor (controls: seq<Field>)
      ensures fields == controls
    {
      fields := controls;
    }

    /** clearErrors: hide and empty every error element, then reset every
        control's border. */
    method ClearErrors()
      modifies this
      ensures fields == ClearAll(old(fields))
    {
      var i := 0;
      while i < |fields|
        invariant 0 <= i <= |fields| == |old(fields)|
        invariant forall k :: 0 <= k < i ==>
                    fields[k] == old(fields)[k].(errorText := "", errorShown := false)
        invariant forall k :: i <= k < |fields| ==> fields[k] == old(fields)[k]
      {
        fields := fields[i := fields[i].(errorShown := false, errorText := "")];
        i := i + 1;
      }
      i := 0;
      while i < |fields|
        invariant 0 <= i <= |fields| == |old(fields)|
        invariant forall k :: 0 <= k < i ==> fields[k] == Cleared(old(fields)[k])
        invariant forall k :: i <= k < |fields| ==>
                    fields[k] == old(fields)[k].(errorText := "", errorShown := false)
      {
        fields := fields[i := fields[i].(border := NeutralBorder)];
        i := i + 1;
      }
    }

    /** showError: alert border on control i, message shown in its error
        element; nothing else changes. */
    method ShowError(i: nat, message: string)
      requires i < |fields|
      modifies this
      ensures fields == old(fields)[i := old(fields)[i].(border := AlertBorder,
                                                         errorText := message,
                                                         errorShown := true)]
    {
      fields := fields[i := fields[i].(border := AlertBorder, errorText := message, errorShown := true)];
    }

    /** validateField on control i (the blur handler, and each step of
        validateForm). */
    method ValidateField(i: nat) returns (ok: bool)
      requires i < |fields|
      modifies this
      ensures ok <==> FieldOutcome(old(fields)[i]).Valid?
      ensures fields == old(fields)[i := Validated(old(fields)[i])]
    {
      var f := fields[i];
      fields := fields[i := f.(border := NeutralBorder)];
      var outcome := Check(f.control.id, f.control.required, f.control.value);
      if outcome.Invalid? {
        ShowError(i, outcome.message);
        ok := false;
      } else {
        ok := true;
      }
    }

    /** One line of validateForm: validate control i, the n-th of the
        controls at idx, and clear the running flag if it fails. */
    method ValidateNext(ghost before: seq<Field>, ghost idx: seq<nat>, ghost n: nat, i: nat, okSoFar: bool)
      returns (ok: bool)
      requires InRange(before, idx) && 0 < n <= |idx| && idx[n - 1] == i
      requires (fields, okSoFar) == ValidateAt(before, Outcomes(before), idx, n - 1)
      modifies this
      ensures (fields, ok) == ValidateAt(before, Outcomes(before), idx, n)
    {
      ghost var cur := fields;
      ValidateAtStep(before, idx, n, cur, okSoFar);
      var passed := ValidateField(i);
      ok := okSoFar && passed;
    }

    /** validateForm: name, email, subject and message are looked up, then
        each is validated, in that order, without stopping at the first
        failure. */
    method ValidateForm() returns (ok: bool)
      requires HasSubmitFields(fields)
      modifies this
      ensures (fields, ok) == ValidateIds(old(fields), SubmitIds)
    {
      ghost var before := fields;
      ghost var idx := Lookup(before, SubmitIds);
      assert SubmitIds[0] == "name" && SubmitIds[1] == "email";
      assert SubmitIds[2] == "subject" && SubmitIds[3] == "message";
      var name := FindField(fields, "name").value;
      var email := FindField(fields, "email").value;
      var subject := FindField(fields, "subject").value;
      var message := FindField(fields, "message").value;
      assert idx[0] == name && idx[1] == email && idx[2] == subject && idx[3] == message;
      ok := true;
      ghost var n := 1;
      ok := ValidateNext(before, idx, n, name, ok);
      n := n + 1;
      ok := ValidateNext(before, idx, n, email, ok);
      n := n + 1;
      ok := ValidateNext(before, idx, n, subject, ok);
      n := n + 1;
      ok := ValidateNext(before, idx, n, message, ok);
    }

    /** form.reset(). */
    method Reset()
      modifies this
      ensures fields == ResetAll(old(fields))
    {
      fields := ResetAll(fields);
    }
  }
}
