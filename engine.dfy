/** The `Alert90s` engine: the static state shared by all invocations (the
    last options passed, the current modal, the last timer's end time, the
    toast containers) and the dialogs it has opened, with the calls a page
    makes on it. The clock stands for `Date.now()`. */
module Engine {
  import opened JsValues
  import opened Resolver
  import opened Inputs
  import opened Layout
  import opened Popups
  import opened Timer
  import opened Dialogs

  /** No position has two containers. */
  predicate Distinct(xs: seq<string>) {
    forall i, j :: 0 <= i < j < |xs| ==> xs[i] != xs[j]
  }

  /** The index of the first occurrence of `x` in `xs`. */
  function FirstIndex(xs: seq<string>, x: string): (r: Option<nat>)
    ensures r.Some? ==> r.value < |xs| && xs[r.value] == x && forall j :: 0 <= j < r.value ==> xs[j] != x
    ensures r.None? <==> x !in xs
    decreases |xs|
  {
    if |xs| == 0 then None
    else if xs[0] == x then Some(0)
    else
      var rest := FirstIndex(xs[1..], x);
      if rest.Some? then Some(rest.value + 1) else None
  }

  /** The containers after a get-or-create for `position`. */
  function WithContainer(containers: seq<string>, position: string): (r: seq<string>)
    ensures position in r
    ensures Distinct(containers) ==> Distinct(r)
    ensures position in containers ==> r == containers
    ensures position !in containers ==> r == containers + [position]
  {
    if position in containers then containers else containers + [position]
  }

  /** Asking twice for the same position's container creates at most one. */
  lemma WithContainerIdempotent(containers: seq<string>, position: string)
    ensures WithContainer(WithContainer(containers, position), position) == WithContainer(containers, position)
    ensures |WithContainer(containers, position)| <= |containers| + 1
  {
  }

  /** The dialogs after popup-scoped calls on the current popup, if any. */
  function WithCalls(dialogs: seq<Dialog>, current: Option<nat>, calls: seq<PopupCall>, kind: LoaderKind): (r: seq<Dialog>)
    ensures |r| == |dialogs|
    ensures forall i :: 0 <= i < |dialogs| && current != Some(i) ==> r[i] == dialogs[i]
    ensures current.Some? && current.value < |dialogs| ==>
              r[current.value] == dialogs[current.value].(popup := ApplyCalls(dialogs[current.value].popup, calls, kind))
  {
    if current.Some? && current.value < |dialogs|
    then dialogs[current.value := dialogs[current.value].(popup := ApplyCalls(dialogs[current.value].popup, calls, kind))]
    else dialogs
  }

  /** The engine's invariant over its state: the current popup is a modal
      that was opened; every dialog keeps its own invariant; each position
      has one container, and each toast sits in the container of its
      position. */
  ghost predicate StateValid(currentPopup: Option<nat>, dialogs: seq<Dialog>, containers: seq<string>) {
    && (currentPopup.Some? ==> currentPopup.value < |dialogs| && !Truthy(dialogs[currentPopup.value].config.toast))
    && (forall i :: 0 <= i < |dialogs| ==> DialogValid(dialogs[i]))
    && Distinct(containers)
    && (forall i :: 0 <= i < |dialogs| && Truthy(dialogs[i].config.toast) ==>
          && dialogs[i].container.Some? && dialogs[i].container.value < |containers|
          && containers[dialogs[i].container.value] == ToStr(dialogs[i].config.position))
  }

  /** Adding a dialog keeps the invariant: a modal becomes the current
      popup, a toast must sit in its position's container. */
  lemma AddKeepsValid(currentPopup: Option<nat>, dialogs: seq<Dialog>, containers: seq<string>, d: Dialog)
    requires StateValid(currentPopup, dialogs, containers) && DialogValid(d)
    requires Truthy(d.config.toast) ==> d.container.Some? && d.container.value < |containers| && containers[d.container.value] == ToStr(d.config.position)
    ensures StateValid(if Truthy(d.config.toast) then currentPopup else Some(|dialogs|), dialogs + [d], containers)
  {
    var ds := dialogs + [d];
    assert forall i :: 0 <= i < |dialogs| ==> ds[i] == dialogs[i];
  }

  /** Replacing a dialog by a valid one with the same configuration and
      container keeps the invariant. */
  lemma ReplaceKeepsValid(currentPopup: Option<nat>, dialogs: seq<Dialog>, containers: seq<string>, i: nat, d: Dialog)
    requires StateValid(currentPopup, dialogs, containers) && i < |dialogs|
    requires DialogValid(d) && d.config == dialogs[i].config && d.container == dialogs[i].container
    ensures StateValid(currentPopup, dialogs[i := d], containers)
  {
  }

  /** Popup-scoped calls on the current popup keep the invariant. */
  lemma CallsKeepValid(currentPopup: Option<nat>, dialogs: seq<Dialog>, containers: seq<string>, calls: seq<PopupCall>, kind: LoaderKind)
    requires StateValid(currentPopup, dialogs, containers)
    ensures StateValid(currentPopup, WithCalls(dialogs, currentPopup, calls, kind), containers)
  {
    if currentPopup.Some? {
      var p := currentPopup.value;
      ReplaceKeepsValid(currentPopup, dialogs, containers, p, dialogs[p].(popup := ApplyCalls(dialogs[p].popup, calls, kind)));
    }
  }

  /** What opening a dialog for configuration `c` at time `clock` does to
      the engine's state (before: `dialogs0` … `timer0`; after: `dialogs` …
      `timer`): the opened dialog is appended as number `id` and the others
      are kept; a modal becomes the current popup and a toast leaves it
      alone; a toast's position gets its container, created only when
      missing; a timer sets the shared end time, and without one the old end
      time stays. */
  ghost predicate OpensDialog(c: Config, clock: int,
                              dialogs0: seq<Dialog>, popup0: Option<nat>, containers0: seq<string>, timer0: Option<int>,
                              id: nat, dialogs: seq<Dialog>, popup: Option<nat>, containers: seq<string>, timer: Option<int>)
  {
    && id == |dialogs0| && |dialogs| == id + 1 && dialogs[..id] == dialogs0
    && dialogs[id] == Opened(c, clock, dialogs[id].container)
    && (Truthy(c.toast) ==> popup == popup0 && containers == WithContainer(containers0, ToStr(c.position)))
    && (!Truthy(c.toast) ==> popup == Some(id) && containers == containers0)
    && timer == (if c.timer.Some? then Some(clock + c.timer.value) else timer0)
  }

  class Alert90s {
    /** The options of the last `show` call. */
    var currentOptions: Option<Options>
    /** The last modal (non-toast) dialog opened. */
    var currentPopup: Option<nat>
    /** The end time of the last timer started. */
    var timerEnd: Option<int>
    /** `Date.now()`. */
    var clock: int
    /** The toast containers' positions, in creation order. */
    var containers: seq<string>
    /** Every dialog opened, by opening order. */
    var dialogs: seq<Dialog>

    /** The current popup is a modal that was opened; every dialog keeps its
        own invariant; each position has one container, and each toast sits
        in the container of its position. */
    ghost predicate Valid()
      reads this
    {
      StateValid(currentPopup, dialogs, containers)
    }

    /** The engine before any call, at time `now`. */
    constructor(now: int)
      ensures Valid()
      ensures currentOptions.None? && currentPopup.None? && timerEnd.None?
      ensures clock == now && containers == [] && dialogs == []
    {
      currentOptions := None;
      currentPopup := None;
      timerEnd := None;
      clock := now;
      containers := [];
      dialogs := [];
    }

    /** `getOptions`: the last options passed to `show`, or `{}`. */
    method GetOptions() returns (o: Options)
      ensures currentOptions.Some? ==> o == currentOptions.value
      ensures currentOptions.None? ==> o == EmptyOptions()
    {
      o := if currentOptions.Some? then currentOptions.value else EmptyOptions();
    }

    /** `getPopup`: the last modal opened, or null before any. */
    method GetPopup() returns (p: Option<nat>)
      requires Valid()
      ensures p == currentPopup
      ensures p.Some? ==> p.value < |dialogs| && !Truthy(dialogs[p.value].config.toast)
    {
      p := currentPopup;
    }

    /** `getTimerLeft` now. */
    method GetTimerLeft() returns (left: Option<int>)
      ensures left == TimerLeft(timerEnd, clock)
      ensures left.Some? ==> left.value >= 0
    {
      if timerEnd.None? || timerEnd.value == 0 {
        left := None;
      } else {
        var remaining := timerEnd.value - clock;
        left := Some(if remaining > 0 then remaining else 0);
      }
    }

    /** `isLoading`: false without a current popup. */
    method IsLoading() returns (loading: bool)
      requires Valid()
      ensures loading <==> currentPopup.Some? && Popups.IsLoading(dialogs[currentPopup.value].popup)
    {
      loading := currentPopup.Some? && Popups.IsLoading(dialogs[currentPopup.value].popup);
    }

    /** The popup-scoped calls: each changes the current popup, if there is
        one, and nothing else. */
    method Call(call: PopupCall)
      requires Valid()
      modifies this
      ensures Valid()
      ensures dialogs == WithCalls(old(dialogs), currentPopup, [call], LoaderKindOf(currentOptions))
      ensures currentPopup.Some? ==>
                dialogs[currentPopup.value].popup == ApplyCall(old(dialogs)[currentPopup.value].popup, call, LoaderKindOf(currentOptions))
      ensures currentOptions == old(currentOptions) && currentPopup == old(currentPopup) && timerEnd == old(timerEnd)
      ensures clock == old(clock) && containers == old(containers)
    {
      if currentPopup.Some? {
        var p := dialogs[currentPopup.value].popup;
        var kind := LoaderKindOf(currentOptions);
        assert [call][1..] == [];
        assert ApplyCalls(ApplyCall(p, call, kind), [], kind) == ApplyCall(p, call, kind);
      }
      dialogs := WithCalls(dialogs, currentPopup, [call], LoaderKindOf(currentOptions));
    }

    /** `showLoading`: afterwards `isLoading` holds, if there is a popup. */
    method ShowLoading()
      requires Valid()
      modifies this
      ensures Valid()
      ensures dialogs == WithCalls(old(dialogs), currentPopup, [ShowLoadingCall], LoaderKindOf(currentOptions))
      ensures currentPopup.Some? ==> Popups.IsLoading(dialogs[currentPopup.value].popup)
      ensures currentPopup.None? ==> dialogs == old(dialogs)
      ensures currentOptions == old(currentOptions) && currentPopup == old(currentPopup) && timerEnd == old(timerEnd)
      ensures clock == old(clock) && containers == old(containers)
    {
      Call(ShowLoadingCall);
    }

    /** `hideLoading`: afterwards `isLoading` is false. */
    method HideLoading()
      requires Valid()
      modifies this
      ensures Valid()
      ensures dialogs == WithCalls(old(dialogs), currentPopup, [HideLoadingCall], LoaderKindOf(currentOptions))
      ensures !Popups.IsLoading(if currentPopup.Some? then dialogs[currentPopup.value].popup else FreshPopup(false))
      ensures currentOptions == old(currentOptions) && currentPopup == old(currentPopup) && timerEnd == old(timerEnd)
      ensures clock == old(clock) && containers == old(containers)
    {
      Call(HideLoadingCall);
    }

    /** `showValidationMessage(message)`: the message is displayed. */
    method ShowValidationMessage(message: string)
      requires Valid()
      modifies this
      ensures Valid()
      ensures dialogs == WithCalls(old(dialogs), currentPopup, [ShowValidationCall(message)], LoaderKindOf(currentOptions))
      ensures currentPopup.Some? ==>
                dialogs[currentPopup.value].popup.validation == Some(ValidationMessage(true, message))
      ensures currentOptions == old(currentOptions) && currentPopup == old(currentPopup) && timerEnd == old(timerEnd)
      ensures clock == old(clock) && containers == old(containers)
    {
      Call(ShowValidationCall(message));
    }

    /** `resetValidationMessage`: the message, if any, is hidden. */
    method ResetValidationMessage()
      requires Valid()
      modifies this
      ensures Valid()
      ensures dialogs == WithCalls(old(dialogs), currentPopup, [ResetValidationCall], LoaderKindOf(currentOptions))
      ensures currentPopup.Some? ==> !ValidationVisible(dialogs[currentPopup.value].popup)
      ensures currentOptions == old(currentOptions) && currentPopup == old(currentPopup) && timerEnd == old(timerEnd)
      ensures clock == old(clock) && containers == old(containers)
    {
      Call(ResetValidationCall);
    }

    /** The search of the document for a position's container. */
    method FindContainer(position: string) returns (index: Option<nat>)
      ensures index == FirstIndex(containers, position)
    {
      index := None;
      var i := 0;
      while i < |containers| && index.None?
        invariant 0 <= i <= |containers|
        invariant index.None? ==> forall j :: 0 <= j < i ==> containers[j] != position
        invariant index.Some? ==>
                    && index.value < |containers| && containers[index.value] == position
                    && forall j :: 0 <= j < index.value ==> containers[j] != position
      {
        if containers[i] == position {
          index := Some(i);
        }
        i := i + 1;
      }
    }

    /** `getToastContainer(position)`: the container for `position`, created
        and appended to the document only when there is none yet. */
    method GetToastContainer(position: string) returns (index: nat)
      requires Valid()
      modifies this
      ensures Valid()
      ensures containers == WithContainer(old(containers), position)
      ensures index < |containers| && containers[index] == position
      ensures dialogs == old(dialogs) && currentOptions == old(currentOptions) && currentPopup == old(currentPopup)
      ensures timerEnd == old(timerEnd) && clock == old(clock)
    {
      var found := FindContainer(position);
      if found.Some? {
        index := found.value;
      } else {
        containers := containers + [position];
        index := |containers| - 1;
      }
    }

    /** The building part of `show`: the box with its body, and the dialog's
        initial state, its timer set to fire `timer` milliseconds from now. */
    method Build(c: Config, container: Option<nat>) returns (d: Dialog)
      ensures d == Opened(c, clock, container)
    {
      var body := BuildBody(c);
      var view := View(if c.timer.Some? && Truthy(c.timerProgressBar) then c.timer else None,
                       Header(Truthy(c.showCloseButton), Truthy(c.draggable)), body);
      assert view == ViewOf(c);
      var timerDue := None;
      if c.timer.Some? {
        timerDue := Some(clock + c.timer.value);
      }
      assert timerDue == Opened(c, clock, container).timerDue;
      d := Dialog(c, view, FreshPopup(Truthy(c.showCancelButton) || Truthy(c.showDenyButton) || c.showConfirmButton),
                  InitialControl(c), container, true, timerDue, [], None, 0, [], Drag.Idle());
    }

    /** `show(arg)`: records the options, resolves them and opens the dialog
        they describe, as a toast or as a modal. */
    method Show(arg: ShowArg) returns (id: nat)
      requires Valid()
      modifies this
      ensures Valid()
      ensures currentOptions == Some(Normalize(arg)) && clock == old(clock)
      ensures OpensDialog(ResolveArg(arg), clock, old(dialogs), old(currentPopup), old(containers), old(timerEnd),
                          id, dialogs, currentPopup, containers, timerEnd)
    {
      currentOptions := Some(Normalize(arg));
      var c := ResolveArg(arg);
      if Truthy(c.toast) {
        id := OpenToast(c);
      } else {
        id := OpenModal(c);
      }
    }

    /** The rest of `show` for a toast: the toast goes into its position's
        container, created when missing; a timer sets the shared end time. */
    method OpenToast(c: Config) returns (id: nat)
      requires Valid() && Truthy(c.toast)
      modifies this
      ensures Valid()
      ensures currentOptions == old(currentOptions) && clock == old(clock)
      ensures OpensDialog(c, clock, old(dialogs), old(currentPopup), old(containers), old(timerEnd),
                          id, dialogs, currentPopup, containers, timerEnd)
    {
      var k := GetToastContainer(ToStr(c.position));
      StartTimer(c);
      var d := Build(c, Some(k));
      assert d.config == c && d.container == Some(k) && DialogValid(d);
      id := Add(d);
      assert dialogs[id] == d && dialogs[..id] == old(dialogs);
    }

    /** The rest of `show` for a modal: it becomes the current popup; a timer
        sets the shared end time. */
    method OpenModal(c: Config) returns (id: nat)
      requires Valid() && !Truthy(c.toast)
      modifies this
      ensures Valid()
      ensures currentOptions == old(currentOptions) && clock == old(clock)
      ensures OpensDialog(c, clock, old(dialogs), old(currentPopup), old(containers), old(timerEnd),
                          id, dialogs, currentPopup, containers, timerEnd)
    {
      StartTimer(c);
      var d := Build(c, None);
      assert d.config == c && DialogValid(d);
      id := Add(d);
      assert dialogs[id] == d && dialogs[..id] == old(dialogs);
    }

    /** The timer part of `show`: the shared end time is `timer` from now. */
    method StartTimer(c: Config)
      modifies this
      ensures timerEnd == (if c.timer.Some? then Some(clock + c.timer.value) else old(timerEnd))
      ensures dialogs == old(dialogs) && currentOptions == old(currentOptions) && currentPopup == old(currentPopup)
      ensures clock == old(clock) && containers == old(containers)
    {
      if c.timer.Some? {
        timerEnd := Some(clock + c.timer.value);
      }
    }

    /** The last step of `show`: the new dialog joins the others and, when it
        is a modal, becomes the current popup. */
    method Add(d: Dialog) returns (id: nat)
      requires Valid() && DialogValid(d)
      requires Truthy(d.config.toast) ==>
                 d.container.Some? && d.container.value < |containers| && containers[d.container.value] == ToStr(d.config.position)
      modifies this
      ensures Valid()
      ensures id == |old(dialogs)| && dialogs == old(dialogs) + [d]
      ensures currentPopup == (if Truthy(d.config.toast) then old(currentPopup) else Some(id))
      ensures currentOptions == old(currentOptions) && timerEnd == old(timerEnd)
      ensures clock == old(clock) && containers == old(containers)
    {
      AddKeepsValid(currentPopup, dialogs, containers, d);
      id := |dialogs|;
      dialogs := dialogs + [d];
      if !Truthy(d.config.toast) {
        currentPopup := Some(id);
      }
    }

    /** Time passes. */
    method Advance(dt: nat)
      modifies this
      ensures clock == old(clock) + dt
      ensures dialogs == old(dialogs) && currentOptions == old(currentOptions) && currentPopup == old(currentPopup)
      ensures timerEnd == old(timerEnd) && containers == old(containers)
    {
      clock := clock + dt;
    }

    /** An event reaches dialog `id` now; the popup-scoped calls its handler
        makes then act on the current popup, whichever dialog that is. A
        resolved promise keeps its result. */
    method Deliver(id: nat, e: Event)
      requires Valid() && id < |dialogs|
      requires !e.PopupCallMade? && !e.PointerMove? && !e.PointerUp?
      modifies this
      ensures Valid()
      ensures var out := Step(old(dialogs)[id], e, clock);
        dialogs == WithCalls(old(dialogs)[id := out.0], currentPopup, out.1, LoaderKindOf(currentOptions))
      ensures old(dialogs)[id].result.Some? ==> dialogs[id].result == old(dialogs)[id].result
      ensures currentOptions == old(currentOptions) && currentPopup == old(currentPopup) && timerEnd == old(timerEnd)
      ensures clock == old(clock) && containers == old(containers)
    {
      var out := Step(dialogs[id], e, clock);
      StepPreserves(dialogs[id], e, clock);
      ReplaceKeepsValid(currentPopup, dialogs, containers, id, out.0);
      CallsKeepValid(currentPopup, dialogs[id := out.0], containers, out.1, LoaderKindOf(currentOptions));
      dialogs := WithCalls(dialogs[id := out.0], currentPopup, out.1, LoaderKindOf(currentOptions));
    }

    /** A pointer move or release in the document reaches the drag handler of
        every dialog, in opening order. */
    method Broadcast(e: Event)
      requires Valid() && (e.PointerMove? || e.PointerUp?)
      modifies this
      ensures Valid()
      ensures |dialogs| == |old(dialogs)|
      ensures forall i :: 0 <= i < |dialogs| ==> dialogs[i] == Step(old(dialogs)[i], e, clock).0
      ensures currentOptions == old(currentOptions) && currentPopup == old(currentPopup) && timerEnd == old(timerEnd)
      ensures clock == old(clock) && containers == old(containers)
    {
      var i := 0;
      while i < |dialogs|
        invariant 0 <= i <= |dialogs| && |dialogs| == |old(dialogs)|
        invariant forall j :: 0 <= j < i ==> dialogs[j] == Step(old(dialogs)[j], e, clock).0
        invariant forall j :: i <= j < |dialogs| ==> dialogs[j] == old(dialogs)[j]
        invariant Valid()
        invariant currentOptions == old(currentOptions) && currentPopup == old(currentPopup) && timerEnd == old(timerEnd)
        invariant clock == old(clock) && containers == old(containers)
      {
        StepPreserves(dialogs[i], e, clock);
        ReplaceKeepsValid(currentPopup, dialogs, containers, i, Step(dialogs[i], e, clock).0);
        dialogs := dialogs[i := Step(dialogs[i], e, clock).0];
        i := i + 1;
      }
    }
  }
}
