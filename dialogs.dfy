/** The life of one dialog, from the moment `show` has built it to the
    moment its promise resolves: the dismissal triggers, the confirm handler
    with its asynchronous `preConfirm` step, the `finish` routine with its
    200 ms exit delay, the timer, the input control and the drag handler.
    Time is an explicit `now` in milliseconds; the promise is a one-shot
    result cell. */
module Dialogs {
  import opened JsValues
  import opened Resolver
  import opened Inputs
  import opened Layout
  import opened Popups
  import opened Drag

  /** The delay between `finish` and the removal of the dialog. */
  const ExitDelay: int := 200

  datatype DismissReason = CancelDismiss | BackdropDismiss | CloseDismiss | TimerDismiss

  /** The object the promise resolves with. `value` is set only on confirm,
      `dismiss` only on dismissals. */
  datatype DialogResult = DialogResult(
    isConfirmed: bool, isDenied: bool, isDismissed: bool,
    value: Option<Value>, dismiss: Option<DismissReason>)

  function Confirmed(v: Value): DialogResult {
    DialogResult(true, false, false, Some(v), None)
  }

  function Denied(): DialogResult {
    DialogResult(false, true, false, None, None)
  }

  function Dismissed(reason: DismissReason): DialogResult {
    DialogResult(false, false, true, None, Some(reason))
  }

  /** Exactly one of the three flags is set; a dismissal carries its reason
      and a confirmation its value, and nothing else does. */
  predicate WellShaped(r: DialogResult) {
    && (if r.isConfirmed then 1 else 0) + (if r.isDenied then 1 else 0) + (if r.isDismissed then 1 else 0) == 1
    && (r.dismiss.Some? <==> r.isDismissed)
    && (r.value.Some? <==> r.isConfirmed)
  }

  /** A removal `finish` has scheduled, and the result it resolves with. */
  datatype PendingClose = PendingClose(due: int, result: DialogResult)

  /** How a `preConfirm` promise settled: rejected with an error whose string
      form is `error`, or fulfilled with a value. */
  datatype Outcome = Threw(error: string) | Returned(result: Value)

  /** The state of one dialog.
      - `config`, `view`: what `show` resolved and built;
      - `popup`: the state the popup-scoped calls change;
      - `control`: the input widget's current state;
      - `container`: the toast container holding the box, for toasts;
      - `attached`: the box (or its overlay) is still in the document;
      - `timerDue`: when the auto-close timer fires, while it is pending;
      - `closeQueue`: the removals `finish` has scheduled, oldest first;
      - `result`: the promise's value once resolved;
      - `finishes`: how many times `finish` ran;
      - `pendingConfirms`: the values handed to `preConfirm` whose promise
        has not settled yet;
      - `drag`: the drag handler's state. */
  datatype Dialog = Dialog(
    config: Config,
    view: View,
    popup: Popup,
    control: Option<Control>,
    container: Option<nat>,
    attached: bool,
    timerDue: Option<int>,
    closeQueue: seq<PendingClose>,
    result: Option<DialogResult>,
    finishes: nat,
    pendingConfirms: seq<Value>,
    drag: DragState)

  /** Something that happens to a dialog. Clicks name the element clicked;
      `BackdropMouseDown` carries whether the target is the overlay itself
      and what an `allowOutsideClick` function returns; `PopupCallMade` is a
      popup-scoped call that reaches this dialog because it is the current
      popup. */
  datatype Event =
    | CancelClick
    | DenyClick
    | ConfirmClick
    | HeaderCloseClick
    | ToastCloseClick
    | BackdropMouseDown(onOverlay: bool, predicateResult: Value)
    | PreConfirmSettled(index: nat, outcome: Outcome)
    | TimerElapsed
    | ExitAnimationDone
    | SelectItemClick(item: nat)
    | RadioClick(item: nat)
    | CheckboxClick
    | InputTyped(text: string)
    | HeaderMouseDown(x: real, y: real, onCloseButton: bool, boxLeft: real, boxTop: real)
    | PointerMove(x: real, y: real)
    | PointerUp
    | PopupCallMade(call: PopupCall, kind: LoaderKind)

  datatype Phase = Open | Closing | Closed

  /** Open until the first `finish`, closing during the exit delay, closed
      once the box is removed. */
  function PhaseOf(d: Dialog): Phase {
    if !d.attached then Closed else if |d.closeQueue| == 0 then Open else Closing
  }

  /** The invariant every dialog keeps:
      - the box is attached exactly while the promise is unresolved;
      - the timer is pending only before the first `finish`;
      - every scheduled and delivered result is well shaped;
      - `finish` ran at least once per scheduled removal, and at least once
        before the promise resolved;
      - only a present actions row is hidden. */
  ghost predicate DialogValid(d: Dialog) {
    && (d.attached <==> d.result.None?)
    && (d.timerDue.Some? ==> d.attached && |d.closeQueue| == 0 && d.finishes == 0)
    && (d.result.Some? ==> WellShaped(d.result.value))
    && (forall i :: 0 <= i < |d.closeQueue| ==> WellShaped(d.closeQueue[i].result))
    && |d.closeQueue| <= d.finishes
    && (d.result.Some? ==> d.finishes > 0)
    && PopupValid(d.popup)
  }

  /** A dialog as `show` leaves it at time `now`: attached, unresolved, the
      input in its initial state, and the timer pending when one is set. */
  function Opened(c: Config, now: int, container: Option<nat>): (d: Dialog)
    ensures DialogValid(d) && PhaseOf(d) == Open
    ensures d.timerDue.Some? <==> c.timer.Some?
    ensures c.timer.Some? ==> d.timerDue == Some(now + c.timer.value)
    ensures d.control == InitialControl(c) && d.view == ViewOf(c)
    ensures d.popup.hasActions <==> Truthy(c.showCancelButton) || Truthy(c.showDenyButton) || c.showConfirmButton
    ensures d.popup == FreshPopup(d.popup.hasActions)
    ensures d.config == c && d.container == container && d.attached && d.result.None?
    ensures d.closeQueue == [] && d.finishes == 0 && d.pendingConfirms == [] && d.drag == Idle()
  {
    Dialog(c, ViewOf(c),
           FreshPopup(Truthy(c.showCancelButton) || Truthy(c.showDenyButton) || c.showConfirmButton),
           InitialControl(c), container, true,
           if c.timer.Some? then Some(now + c.timer.value) else None,
           [], None, 0, [], Idle())
  }

  /** How many times the `willClose` callback has run. */
  function WillCloseCalls(d: Dialog): nat {
    if Truthy(d.config.willClose) then d.finishes else 0
  }

  /** `finish`: cancels the timer, runs `willClose` and schedules the removal
      with its result after the exit delay. Nothing stops a second call. */
  function Finish(d: Dialog, r: DialogResult, now: int): (d': Dialog)
    ensures d'.timerDue.None?
    ensures d'.closeQueue == d.closeQueue + [PendingClose(now + ExitDelay, r)]
    ensures d'.finishes == d.finishes + 1
    ensures d'.(timerDue := d.timerDue, closeQueue := d.closeQueue, finishes := d.finishes) == d
    ensures DialogValid(d) && WellShaped(r) ==> DialogValid(d')
  {
    d.(timerDue := None, closeQueue := d.closeQueue + [PendingClose(now + ExitDelay, r)], finishes := d.finishes + 1)
  }

  /** The end of the exit delay of the oldest scheduled removal: the box is
      removed and the promise resolves, which only the first time has an
      effect. */
  function ExitDone(d: Dialog, now: int): (d': Dialog)
    ensures |d.closeQueue| > 0 && d.closeQueue[0].due <= now ==>
              && !d'.attached && d'.closeQueue == d.closeQueue[1..]
              && d'.result == (if d.result.None? then Some(d.closeQueue[0].result) else d.result)
              && d'.(closeQueue := d.closeQueue, attached := d.attached, result := d.result) == d
    ensures !(|d.closeQueue| > 0 && d.closeQueue[0].due <= now) ==> d' == d
    ensures DialogValid(d) ==> DialogValid(d')
  {
    if |d.closeQueue| > 0 && d.closeQueue[0].due <= now then
      d.(closeQueue := d.closeQueue[1..], attached := false,
         result := if d.result.None? then Some(d.closeQueue[0].result) else d.result)
    else d
  }

  /** Whether `allowOutsideClick` lets a backdrop press close the dialog:
      a function's return value, otherwise the option itself. */
  function OutsideClickAllowed(c: Config, predicateResult: Value): (allowed: bool)
    ensures c.allowOutsideClick == Bool(true) ==> allowed
    ensures !Truthy(c.allowOutsideClick) ==> !allowed
    ensures c.allowOutsideClick.Fn? ==> (allowed <==> Truthy(predicateResult))
    ensures !c.allowOutsideClick.Fn? ==> (allowed <==> Truthy(c.allowOutsideClick))
  {
    if c.allowOutsideClick.Fn? then Truthy(predicateResult) else Truthy(c.allowOutsideClick)
  }

  /** The value a settled `preConfirm` leaves: its result when that is
      defined and differs from the value passed in, else the value passed in. */
  function SettledValue(passed: Value, returned: Value): (v: Value)
    ensures returned == Undefined || returned == passed ==> v == passed
    ensures returned != Undefined && returned != passed ==> v == returned
  {
    if returned != Undefined && returned != passed then returned else passed
  }

  /** The confirm button's handler up to the `await`: reads the input's value;
      without `preConfirm` it finishes with it, otherwise it resets the
      validation message, shows the loader when asked to, and hands the
      value to `preConfirm`. */
  function ConfirmStep(d: Dialog, now: int): (out: (Dialog, seq<PopupCall>))
    ensures !Truthy(d.config.preConfirm) ==>
              out.0 == Finish(d, Confirmed(ConfirmValue(d.control)), now) && out.1 == []
    ensures Truthy(d.config.preConfirm) ==>
              && out.0 == d.(pendingConfirms := d.pendingConfirms + [ConfirmValue(d.control)])
              && out.1 == [ResetValidationCall] + (if Truthy(d.config.showLoaderOnConfirm) then [ShowLoadingCall] else [])
  {
    var v := ConfirmValue(d.control);
    if !Truthy(d.config.preConfirm) then (Finish(d, Confirmed(v), now), [])
    else
      (d.(pendingConfirms := d.pendingConfirms + [v]),
       [ResetValidationCall] + (if Truthy(d.config.showLoaderOnConfirm) then [ShowLoadingCall] else []))
  }

  /** The confirm handler after `preConfirm` number `k` settles. A rejection
      shows "Request failed: <error>" and hides the loader; `false` hides the
      loader; otherwise, unless the dialog's own validation message is
      displayed (then only the loader is hidden), it finishes confirmed with
      the settled value. Except in that last case the dialog stays as it
      was, apart from forgetting the settled call. */
  function SettleStep(d: Dialog, k: nat, outcome: Outcome, now: int): (out: (Dialog, seq<PopupCall>))
    requires k < |d.pendingConfirms|
    ensures outcome.Threw? ==>
              out.1 == [ShowValidationCall("Request failed: " + outcome.error), HideLoadingCall]
    ensures outcome == Returned(Bool(false)) ==> out.1 == [HideLoadingCall]
    ensures outcome.Returned? && outcome.result != Bool(false) && ValidationVisible(d.popup) ==>
              out.1 == [HideLoadingCall]
    ensures outcome.Threw? || outcome == Returned(Bool(false)) || ValidationVisible(d.popup) ==>
              out.0 == d.(pendingConfirms := d.pendingConfirms[..k] + d.pendingConfirms[k + 1..])
    ensures outcome.Returned? && outcome.result != Bool(false) && !ValidationVisible(d.popup) ==>
              out.1 == [] &&
              out.0 == Finish(d.(pendingConfirms := d.pendingConfirms[..k] + d.pendingConfirms[k + 1..]),
                              Confirmed(SettledValue(d.pendingConfirms[k], outcome.result)), now)
    ensures |out.0.pendingConfirms| == |d.pendingConfirms| - 1
  {
    var passed := d.pendingConfirms[k];
    var rest := d.(pendingConfirms := d.pendingConfirms[..k] + d.pendingConfirms[k + 1..]);
    match outcome
    case Threw(error) => (rest, [ShowValidationCall("Request failed: " + error), HideLoadingCall])
    case Returned(x) =>
      if x == Bool(false) then (rest, [HideLoadingCall])
      else if ValidationVisible(rest.popup) then (rest, [HideLoadingCall])
      else (Finish(rest, Confirmed(SettledValue(passed, x)), now), [])
  }

  /** A button of the actions row can be clicked: the box is in the document
      and the row is not hidden by the loader. */
  predicate ButtonsClickable(d: Dialog) {
    d.attached && !d.popup.actionsHidden
  }

  /** One event at time `now`: the dialog's new state and the popup-scoped
      calls it makes. */
  function Step(d: Dialog, e: Event, now: int): (out: (Dialog, seq<PopupCall>))
    ensures out.1 != [] ==> e.ConfirmClick? || e.PreConfirmSettled?
    ensures !e.PopupCallMade? ==> out.0.popup == d.popup
    ensures out.0.result != d.result ==> e.ExitAnimationDone?
    ensures !out.0.attached && d.attached ==> e.ExitAnimationDone?
  {
    match e
    case CancelClick =>
      if ButtonsClickable(d) && Truthy(d.config.showCancelButton)
      then (Finish(d, Dismissed(CancelDismiss), now), []) else (d, [])
    case DenyClick =>
      if ButtonsClickable(d) && Truthy(d.config.showDenyButton)
      then (Finish(d, Denied(), now), []) else (d, [])
    case ConfirmClick =>
      if ButtonsClickable(d) && d.config.showConfirmButton then ConfirmStep(d, now) else (d, [])
    case HeaderCloseClick =>
      if d.attached && Truthy(d.config.showCloseButton) && !Truthy(d.config.toast)
      then (Finish(d, Dismissed(CloseDismiss), now), []) else (d, [])
    case ToastCloseClick =>
      if d.attached && Truthy(d.config.toast) && Truthy(d.config.showCloseButton)
      then (Finish(d, Dismissed(CloseDismiss), now), []) else (d, [])
    case BackdropMouseDown(onOverlay, predicateResult) =>
      if d.attached && !Truthy(d.config.toast) && onOverlay && OutsideClickAllowed(d.config, predicateResult)
      then (Finish(d, Dismissed(BackdropDismiss), now), []) else (d, [])
    case PreConfirmSettled(k, outcome) =>
      if k < |d.pendingConfirms| then SettleStep(d, k, outcome, now) else (d, [])
    case TimerElapsed =>
      if d.timerDue.Some? && d.timerDue.value <= now
      then (Finish(d, Dismissed(TimerDismiss), now), []) else (d, [])
    case ExitAnimationDone =>
      (ExitDone(d, now), [])
    case SelectItemClick(i) =>
      if d.attached && d.control.Some? then (d.(control := Some(PickItem(d.control.value, i))), []) else (d, [])
    case RadioClick(i) =>
      if d.attached && d.control.Some? then (d.(control := Some(PickRadio(d.control.value, i))), []) else (d, [])
    case CheckboxClick =>
      if d.attached && d.control.Some? then (d.(control := Some(Flip(d.control.value))), []) else (d, [])
    case InputTyped(text) =>
      if d.attached && d.control.Some? then (d.(control := Some(Type(d.control.value, text))), []) else (d, [])
    case HeaderMouseDown(x, y, onCloseButton, boxLeft, boxTop) =>
      if d.attached && Truthy(d.config.draggable)
      then (d.(drag := Press(d.drag, x, y, onCloseButton, boxLeft, boxTop)), []) else (d, [])
    case PointerMove(x, y) =>
      (d.(drag := Move(d.drag, x, y)), [])
    case PointerUp =>
      (d.(drag := Release(d.drag)), [])
    case PopupCallMade(call, kind) =>
      (d.(popup := ApplyCall(d.popup, call, kind)), [])
  }

  /** The result the dialog will resolve with, once some trigger has run
      `finish`: the delivered result, or else the oldest scheduled one. */
  function Decided(d: Dialog): Option<DialogResult> {
    if d.result.Some? then d.result
    else if |d.closeQueue| > 0 then Some(d.closeQueue[0].result)
    else None
  }

  /** What every step keeps, from `d` to `d'`: the invariant holds, a
      resolved promise keeps its value, a removed box is never reattached, a
      decided result never changes, `finish` runs are never undone, and the
      configuration and container stay. */
  ghost predicate StepKeeps(d: Dialog, d': Dialog) {
    && DialogValid(d')
    && (d.result.Some? ==> d'.result == d.result)
    && (!d.attached ==> !d'.attached)
    && (Decided(d).Some? ==> Decided(d') == Decided(d))
    && d'.finishes >= d.finishes
    && d'.config == d.config && d'.container == d.container
  }

  /** Every step keeps the invariant, never resolves the promise a second
      time, never reattaches a removed box, and never changes a decided
      result. */
  lemma StepPreserves(d: Dialog, e: Event, now: int)
    requires DialogValid(d)
    ensures StepKeeps(d, Step(d, e, now).0)
  {
    match e
    case PreConfirmSettled(k, outcome) => SettlePreserves(d, k, outcome, now);
    case ExitAnimationDone => ExitPreserves(d, now);
    case ConfirmClick => ConfirmPreserves(d, now);
    case CancelClick => TriggerPreserves(d, e, now);
    case DenyClick => TriggerPreserves(d, e, now);
    case HeaderCloseClick => TriggerPreserves(d, e, now);
    case ToastCloseClick => TriggerPreserves(d, e, now);
    case BackdropMouseDown(_, _) => TriggerPreserves(d, e, now);
    case TimerElapsed => TriggerPreserves(d, e, now);
    case _ => LocalPreserves(d, e, now);
  }

  /** A dismissal trigger either does nothing or runs `finish`. */
  lemma TriggerPreserves(d: Dialog, e: Event, now: int)
    requires DialogValid(d)
    requires e.CancelClick? || e.DenyClick? || e.HeaderCloseClick? || e.ToastCloseClick? || e.BackdropMouseDown? || e.TimerElapsed?
    ensures StepKeeps(d, Step(d, e, now).0)
  {
  }

  /** A confirm click finishes at once or waits for `preConfirm`. */
  lemma ConfirmPreserves(d: Dialog, now: int)
    requires DialogValid(d)
    ensures StepKeeps(d, Step(d, ConfirmClick, now).0)
  {
  }

  /** A settled `preConfirm` forgets its call and may finish. */
  lemma SettlePreserves(d: Dialog, k: nat, outcome: Outcome, now: int)
    requires DialogValid(d)
    ensures StepKeeps(d, Step(d, PreConfirmSettled(k, outcome), now).0)
  {
    if k < |d.pendingConfirms| {
      var rest := d.(pendingConfirms := d.pendingConfirms[..k] + d.pendingConfirms[k + 1..]);
      assert DialogValid(rest);
      assert WellShaped(Confirmed(SettledValue(d.pendingConfirms[k], Null)));
    }
  }

  /** The end of an exit delay removes the box and resolves at most once. */
  lemma ExitPreserves(d: Dialog, now: int)
    requires DialogValid(d)
    ensures StepKeeps(d, Step(d, ExitAnimationDone, now).0)
  {
    if |d.closeQueue| > 0 && d.closeQueue[0].due <= now && d.result.None? {
      assert Decided(d) == Some(d.closeQueue[0].result);
    }
  }

  /** Input edits, drag events and popup calls touch only their own part. */
  lemma LocalPreserves(d: Dialog, e: Event, now: int)
    requires DialogValid(d)
    requires e.SelectItemClick? || e.RadioClick? || e.CheckboxClick? || e.InputTyped?
             || e.HeaderMouseDown? || e.PointerMove? || e.PointerUp? || e.PopupCallMade?
    ensures StepKeeps(d, Step(d, e, now).0)
  {
  }

  /** The events of a run, each with the time it happens. */
  function Run(d: Dialog, events: seq<(Event, int)>): Dialog
    decreases |events|
  {
    if |events| == 0 then d else Run(Step(d, events[0].0, events[0].1).0, events[1..])
  }

  /** Over any run the invariant holds, a resolved promise keeps its value,
      and once a trigger has run `finish` the dialog resolves with that first
      trigger's result, whatever triggers follow. */
  lemma {:induction false} RunPreserves(d: Dialog, events: seq<(Event, int)>)
    requires DialogValid(d)
    ensures var d' := Run(d, events);
      && DialogValid(d')
      && (d.result.Some? ==> d'.result == d.result)
      && (Decided(d).Some? ==> Decided(d') == Decided(d))
      && d'.finishes >= d.finishes
    decreases |events|
  {
    if |events| > 0 {
      StepPreserves(d, events[0].0, events[0].1);
      RunPreserves(Step(d, events[0].0, events[0].1).0, events[1..]);
    }
  }

  /** The first trigger wins: if a dialog has been finished with result `r`
      and later resolves, it resolves with `r`. */
  lemma FirstTriggerWins(d: Dialog, events: seq<(Event, int)>)
    requires DialogValid(d) && d.result.None? && |d.closeQueue| > 0
    ensures Run(d, events).result.Some? ==> Run(d, events).result == Some(d.closeQueue[0].result)
  {
    RunPreserves(d, events);
  }

  /** Every result a dialog resolves with has exactly one flag set. */
  lemma ResultsWellShaped(d: Dialog, events: seq<(Event, int)>)
    requires DialogValid(d)
    ensures Run(d, events).result.Some? ==> WellShaped(Run(d, events).result.value)
  {
    RunPreserves(d, events);
  }

  /** A backdrop press closes the dialog exactly when the box is a modal
      still in the document, the press is on the overlay itself and
      `allowOutsideClick` (or its return value) is truthy; the result is a
      backdrop dismissal. */
  lemma BackdropPress(d: Dialog, onOverlay: bool, predicateResult: Value, now: int)
    ensures var d' := Step(d, BackdropMouseDown(onOverlay, predicateResult), now).0;
      && (d' != d <==> d.attached && !Truthy(d.config.toast) && onOverlay && OutsideClickAllowed(d.config, predicateResult))
      && (d' != d ==> d'.closeQueue == d.closeQueue + [PendingClose(now + ExitDelay, Dismissed(BackdropDismiss))])
  {
    var d' := Step(d, BackdropMouseDown(onOverlay, predicateResult), now).0;
    if d.attached && !Truthy(d.config.toast) && onOverlay && OutsideClickAllowed(d.config, predicateResult) {
      assert d'.finishes == d.finishes + 1;
    }
  }

  /** Each trigger finishes with its own result: cancel, deny, the close
      icon (title bar for a modal, toast button for a toast) and the timer;
      the action buttons do nothing while the loader hides them. */
  lemma DismissalTriggers(d: Dialog, now: int)
    ensures ButtonsClickable(d) && Truthy(d.config.showCancelButton) ==>
              Step(d, CancelClick, now).0 == Finish(d, Dismissed(CancelDismiss), now)
    ensures ButtonsClickable(d) && Truthy(d.config.showDenyButton) ==>
              Step(d, DenyClick, now).0 == Finish(d, Denied(), now)
    ensures d.attached && Truthy(d.config.showCloseButton) ==>
              Step(d, if Truthy(d.config.toast) then ToastCloseClick else HeaderCloseClick, now).0
                == Finish(d, Dismissed(CloseDismiss), now)
    ensures d.timerDue.Some? && d.timerDue.value <= now ==>
              Step(d, TimerElapsed, now).0 == Finish(d, Dismissed(TimerDismiss), now)
    ensures !ButtonsClickable(d) ==>
              Step(d, CancelClick, now) == (d, []) && Step(d, DenyClick, now) == (d, []) && Step(d, ConfirmClick, now) == (d, [])
  {
  }

  /** Two triggers during the exit delay: a cancel click, then a deny click
      50 ms later. `finish` runs twice, so `willClose` runs twice, and the
      promise still resolves with the cancel. */
  lemma SecondTriggerRerunsWillClose(c: Config, now: int)
    requires Truthy(c.showCancelButton) && Truthy(c.showDenyButton) && Truthy(c.willClose)
    ensures var events := [(CancelClick, now), (DenyClick, now + 50), (ExitAnimationDone, now + 200), (ExitAnimationDone, now + 250)];
      var d := Run(Opened(c, now, None), events);
      WillCloseCalls(d) == 2 && d.result == Some(Dismissed(CancelDismiss)) && !d.attached && |d.closeQueue| == 0
  {
    var d0 := Opened(c, now, None);
    assert ButtonsClickable(d0) && d0.finishes == 0 && d0.result.None? && d0.closeQueue == [];
    CancelThenDeny(d0, now);
  }

  /** The run of `SecondTriggerRerunsWillClose` from any open dialog whose
      buttons can be clicked. */
  lemma CancelThenDeny(d0: Dialog, now: int)
    requires ButtonsClickable(d0) && Truthy(d0.config.showCancelButton) && Truthy(d0.config.showDenyButton)
    requires d0.finishes == 0 && d0.result.None? && d0.closeQueue == []
    ensures var events := [(CancelClick, now), (DenyClick, now + 50), (ExitAnimationDone, now + 200), (ExitAnimationDone, now + 250)];
      var d := Run(d0, events);
      d.finishes == 2 && d.result == Some(Dismissed(CancelDismiss)) && !d.attached && |d.closeQueue| == 0 && d.config == d0.config
  {
    var d1 := Step(d0, CancelClick, now).0;
    assert d1 == Finish(d0, Dismissed(CancelDismiss), now);
    var d2 := Step(d1, DenyClick, now + 50).0;
    assert d2 == Finish(d1, Denied(), now + 50);
    assert d2.closeQueue == [PendingClose(now + ExitDelay, Dismissed(CancelDismiss)), PendingClose(now + 50 + ExitDelay, Denied())];
    var d3 := Step(d2, ExitAnimationDone, now + 200).0;
    assert d3 == ExitDone(d2, now + 200);
    assert d3.result == Some(Dismissed(CancelDismiss)) && d3.closeQueue == [PendingClose(now + 50 + ExitDelay, Denied())];
    var d4 := Step(d3, ExitAnimationDone, now + 250).0;
    assert d4 == ExitDone(d3, now + 250);
    var events := [(CancelClick, now), (DenyClick, now + 50), (ExitAnimationDone, now + 200), (ExitAnimationDone, now + 250)];
    assert Run(d0, events) == Run(d1, events[1..]);
    assert Run(d1, events[1..]) == Run(d2, events[2..]);
    assert Run(d2, events[2..]) == Run(d3, events[3..]);
    assert Run(d3, events[3..]) == Run(d4, events[4..]);
  }

  /** A `preConfirm` that fulfils with `undefined` or with the value it was
      given leaves the confirmed value unchanged; one that fulfils with
      another value replaces it. */
  lemma PreConfirmValue(d: Dialog, k: nat, x: Value, now: int)
    requires k < |d.pendingConfirms| && x != Bool(false) && !ValidationVisible(d.popup)
    ensures var d' := SettleStep(d, k, Returned(x), now).0;
      d'.closeQueue[|d'.closeQueue| - 1].result.value
        == Some(if x == Undefined || x == d.pendingConfirms[k] then d.pendingConfirms[k] else x)
  {
  }
}
