/**
 * The simulated submission: the submit button's text, icon and disabled
 * flag, changed when a valid form is submitted and restored by the timer
 * callback 1500 ms later; and the submit handler that ties the form and the
 * button together.
 */
module Submission {
  import opened Form

  const SendingLabel: string := "Sending..."
  const SpinnerIcon: string := "fas fa-spinner fa-spin"

  /** The span text and icon class a pending timer callback will put back:
      the values the button showed when that submission started. */
  datatype Snapshot = Snapshot(text: string, icon: string)

  /** The submit button: the text of its span, the class name of its icon,
      its disabled flag, and the snapshots captured by the submissions whose
      timer has not fired yet, oldest first. Timers all wait the same delay,
      so they fire in the order they were set. */
  datatype Button = Button(text: string, icon: string, disabled: bool, pending: seq<Snapshot>)

  /** The synchronous half of simulateFormSubmission: capture the text and
      icon, show the spinner, disable the button and set the timer. */
  function Started(b: Button): Button {
    Button(SendingLabel, SpinnerIcon, true, b.pending + [Snapshot(b.text, b.icon)])
  }

  /** The timer callback of the oldest pending submission: put back what it
      captured and enable the button. */
  function Completed(b: Button): Button
    requires b.pending != []
  {
    Button(b.pending[0].text, b.pending[0].icon, false, b.pending[1..])
  }

  /** While a submission is pending the button is disabled and shows the
      spinner and "Sending...". */
  lemma StartedShowsSending(b: Button)
    ensures Started(b).text == SendingLabel && Started(b).icon == SpinnerIcon
    ensures Started(b).disabled && Started(b).pending != []
  {
  }

  /** Starting and completing one submission puts back the text and icon
      the button had and leaves it enabled: an enabled button comes back
      exactly as it was. */
  lemma StartThenCompleteRestores(b: Button)
    requires b.pending == []
    ensures Completed(Started(b)) == b.(disabled := false)
    ensures !b.disabled ==> Completed(Started(b)) == b
  {
  }

  /** Were the handler to run twice before the first timer fires, the second
      run would capture the spinner itself, and that is what the button shows
      once both timers have fired. A disabled submit button cannot be
      activated, which keeps this from happening (see RunAlternates). */
  lemma StartedTwiceEndsSending(text: string, icon: string)
    ensures var b := Started(Started(Button(text, icon, false, [])));
            b.pending != [] && Completed(b).pending != []
            && Completed(Completed(b)).text == SendingLabel
            && Completed(Completed(b)).icon == SpinnerIcon
            && !Completed(Completed(b)).disabled
  {
  }

  /** What reaches the button: an activation of the submit button, with
      whether validateForm passed, or the firing of the oldest timer. */
  datatype Event = Activate(formValid: bool) | TimerFires

  /** One event. A disabled button ignores activation, as the browser does;
      an invalid form does not start a submission; a timer fires only when
      one is pending. */
  function Step(b: Button, e: Event): Button {
    match e
    case Activate(valid) => if !b.disabled && valid then Started(b) else b
    case TimerFires => if b.pending != [] then Completed(b) else b
  }

  /** An enabled button starts a submission when activated on a valid form
      and is left as it is on an invalid one; a disabled button ignores every
      activation; a firing timer completes the oldest pending submission. */
  lemma StepEffect(b: Button, valid: bool)
    ensures !b.disabled ==> Step(b, Activate(true)) == Started(b)
    ensures Step(b, Activate(false)) == b
    ensures b.disabled ==> Step(b, Activate(valid)) == b
    ensures b.pending != [] ==> Step(b, TimerFires) == Completed(b)
    ensures b.pending == [] ==> Step(b, TimerFires) == b
  {
  }

  function Run(b: Button, events: seq<Event>): Button
    decreases |events|
  {
    if events == [] then b else Run(Step(b, events[0]), events[1..])
  }

  /** Idle: enabled, showing text and icon, nothing pending. */
  predicate Idle(b: Button, text: string, icon: string) {
    b == Button(text, icon, false, [])
  }

  /** Busy: one submission pending that will put back text and icon. */
  predicate Busy(b: Button, text: string, icon: string) {
    b == Button(SendingLabel, SpinnerIcon, true, [Snapshot(text, icon)])
  }

  /** Whatever happens, a button that starts idle is always either idle with
      its own text and icon or busy with one submission that will put them
      back: the original text and icon are never lost. */
  lemma {:induction false} RunAlternates(b: Button, events: seq<Event>, text: string, icon: string)
    requires Idle(b, text, icon) || Busy(b, text, icon)
    ensures Idle(Run(b, events), text, icon) || Busy(Run(b, events), text, icon)
    decreases |events|
  {
    if events != [] {
      var next := Step(b, events[0]);
      assert Idle(next, text, icon) || Busy(next, text, icon) by {
        if Busy(b, text, icon) && events[0] == TimerFires {
          assert b.pending == [Snapshot(text, icon)];
          assert Completed(b).pending == [];
        }
      }
      RunAlternates(next, events[1..], text, icon);
    }
  }

  /** The submit button as the page holds it. */
  class SubmitButton {
    var text: string
    var icon: string
    var disabled: bool
    var pending: seq<Snapshot>

    constructor (text0: string, icon0: string)
      ensures State() == Button(text0, icon0, false, [])
    {
      text := text0;
      icon := icon0;
      disabled := false;
      pending := [];
    }

    function State(): Button
      reads this
    {
      Button(text, icon, disabled, pending)
    }

    /** simulateFormSubmission up to setting the timer. */
    method Start()
      modifies this
      ensures State() == Started(old(State()))
    {
      pending := pending + [Snapshot(text, icon)];
      text := SendingLabel;
      icon := SpinnerIcon;
      disabled := true;
    }

    /** The timer callback: form.reset(), then the captured text and icon
        are put back and the button is enabled. */
    method Complete(form: ContactForm)
      requires pending != []
      modifies this, form
      ensures State() == Completed(old(State()))
      ensures form.fields == ResetAll(old(form.fields))
    {
      form.Reset();
      text := pending[0].text;
      icon := pending[0].icon;
      disabled := false;
      pending := pending[1..];
    }
  }

  /** The submit handler: clearErrors, then validateForm, then, only if it
      passed, simulateFormSubmission. */
  method OnSubmit(form: ContactForm, button: SubmitButton) returns (sent: bool)
    requires HasSubmitFields(form.fields)
    modifies form, button
    ensures (form.fields, sent) == SubmitAttempt(old(form.fields))
    ensures button.State() == if sent then Started(old(button.State())) else old(button.State())
  {
    FindFieldSameIds(form.fields, ClearAll(form.fields));
    form.ClearErrors();
    sent := form.ValidateForm();
    if sent {
      button.Start();
    }
  }
}
