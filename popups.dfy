/** The parts of a dialog box that the popup-scoped calls (`showLoading`,
    `hideLoading`, `showValidationMessage`, `resetValidationMessage`) change,
    and those calls as functions on that state. */
module Popups {
  import opened JsValues
  import opened Resolver

  /** The spinner styles `loaderType` selects. */
  datatype LoaderKind = Hourglass | AsciiSpinner | BlinkingCursor | ProgressSpinner | SegmentedBar

  /** The validation message element: whether it is displayed, and its text. */
  datatype ValidationMessage = ValidationMessage(visible: bool, text: string)

  /** What the popup-scoped calls see of a dialog box.
      - `hasActions`: the actions row is in the box (some button is shown);
      - `actionsHidden`: that row is hidden;
      - `loader`: the loader element, when present, and its kind;
      - `validation`: the validation message element, once created. */
  datatype Popup = Popup(hasActions: bool, actionsHidden: bool, loader: Option<LoaderKind>, validation: Option<ValidationMessage>)

  /** A call a dialog's confirm handler makes on the engine's current popup. */
  datatype PopupCall =
    | ShowLoadingCall
    | HideLoadingCall
    | ShowValidationCall(message: string)
    | ResetValidationCall

  /** Only a present actions row can be hidden. */
  predicate PopupValid(p: Popup) {
    p.actionsHidden ==> p.hasActions
  }

  /** A freshly built box: nothing hidden, no loader, no message. */
  function FreshPopup(hasActions: bool): (p: Popup)
    ensures PopupValid(p) && !IsLoading(p) && !ValidationVisible(p)
  {
    Popup(hasActions, false, None, None)
  }

  /** `isLoading` on a box: the actions row is hidden or a loader is present. */
  predicate IsLoading(p: Popup) {
    (p.hasActions && p.actionsHidden) || p.loader.Some?
  }

  /** The confirm handler's test: a validation message is displayed. */
  predicate ValidationVisible(p: Popup) {
    p.validation.Some? && p.validation.value.visible
  }

  /** The loader kind for `loaderType` of the last options passed to `show`:
      'ascii', 'blinking', 'progress' or 'segmented', and the hourglass for
      anything else or when no options were passed yet. */
  function LoaderKindOf(currentOptions: Option<Options>): (k: LoaderKind)
    ensures currentOptions.None? ==> k == Hourglass
    ensures currentOptions.Some? && currentOptions.value.loaderType == Str("segmented") ==> k == SegmentedBar
    ensures k != Hourglass ==> currentOptions.Some? && Truthy(currentOptions.value.loaderType)
    ensures currentOptions.Some? && currentOptions.value.loaderType == Str("ascii") ==> k == AsciiSpinner
    ensures currentOptions.Some? && currentOptions.value.loaderType == Str("blinking") ==> k == BlinkingCursor
    ensures currentOptions.Some? && currentOptions.value.loaderType == Str("progress") ==> k == ProgressSpinner
    ensures currentOptions.Some? && currentOptions.value.loaderType !in {Str("ascii"), Str("blinking"), Str("progress"), Str("segmented")} ==>
              k == Hourglass
  {
    if currentOptions.None? then Hourglass
    else
      var t := Or(currentOptions.value.loaderType, Str("hourglass"));
      if t == Str("ascii") then AsciiSpinner
      else if t == Str("blinking") then BlinkingCursor
      else if t == Str("progress") then ProgressSpinner
      else if t == Str("segmented") then SegmentedBar
      else Hourglass
  }

  /** `showLoading`: hides the actions row and adds a loader unless one is
      already there. */
  function ShowLoading(p: Popup, kind: LoaderKind): (p': Popup)
    ensures IsLoading(p')
    ensures p'.loader == (if p.loader.Some? then p.loader else Some(kind))
    ensures p'.actionsHidden == p.hasActions || p.actionsHidden
    ensures p'.hasActions == p.hasActions && p'.validation == p.validation
  {
    Popup(p.hasActions, p.hasActions || p.actionsHidden, if p.loader.Some? then p.loader else Some(kind), p.validation)
  }

  /** `hideLoading`: shows the actions row again and removes the loader. */
  function HideLoading(p: Popup): (p': Popup)
    ensures !IsLoading(p') && PopupValid(p')
    ensures p'.hasActions == p.hasActions && p'.validation == p.validation
  {
    Popup(p.hasActions, false, None, p.validation)
  }

  /** `showValidationMessage`: creates the message element if needed, sets its
      text and displays it. */
  function ShowValidation(p: Popup, message: string): (p': Popup)
    ensures p'.validation == Some(ValidationMessage(true, message))
    ensures p'.hasActions == p.hasActions && p'.actionsHidden == p.actionsHidden && p'.loader == p.loader
  {
    Popup(p.hasActions, p.actionsHidden, p.loader, Some(ValidationMessage(true, message)))
  }

  /** `resetValidationMessage`: hides the message element, if there is one,
      and keeps it with its text. */
  function ResetValidation(p: Popup): (p': Popup)
    ensures !ValidationVisible(p')
    ensures p'.validation.Some? <==> p.validation.Some?
    ensures p.validation.Some? ==> p'.validation.value.text == p.validation.value.text
    ensures p'.hasActions == p.hasActions && p'.actionsHidden == p.actionsHidden && p'.loader == p.loader
  {
    match p.validation
    case None => p
    case Some(m) => Popup(p.hasActions, p.actionsHidden, p.loader, Some(ValidationMessage(false, m.text)))
  }

  /** The effect of one call on a box. */
  function ApplyCall(p: Popup, call: PopupCall, kind: LoaderKind): (p': Popup)
    ensures PopupValid(p) ==> PopupValid(p')
    ensures p'.hasActions == p.hasActions
  {
    match call
    case ShowLoadingCall => ShowLoading(p, kind)
    case HideLoadingCall => HideLoading(p)
    case ShowValidationCall(message) => ShowValidation(p, message)
    case ResetValidationCall => ResetValidation(p)
  }

  /** The effect of a sequence of calls, in order. */
  function ApplyCalls(p: Popup, calls: seq<PopupCall>, kind: LoaderKind): (p': Popup)
    ensures PopupValid(p) ==> PopupValid(p')
    ensures p'.hasActions == p.hasActions
    decreases |calls|
  {
    if |calls| == 0 then p else ApplyCalls(ApplyCall(p, calls[0], kind), calls[1..], kind)
  }

  /** A second `showLoading` changes nothing: at most one loader is created. */
  lemma ShowLoadingIdempotent(p: Popup, kind: LoaderKind, kind': LoaderKind)
    ensures ShowLoading(ShowLoading(p, kind), kind') == ShowLoading(p, kind)
  {
  }

  /** `hideLoading` undoes `showLoading` entirely, whatever the box was. */
  lemma HideLoadingUndoesShowLoading(p: Popup, kind: LoaderKind)
    requires PopupValid(p)
    ensures HideLoading(ShowLoading(p, kind)) == HideLoading(p)
    ensures !p.actionsHidden && p.loader.None? ==> HideLoading(ShowLoading(p, kind)) == p
  {
  }

  /** Showing a message twice leaves only the second text, in one element;
      resetting it afterwards hides it but keeps that text. */
  lemma ValidationMessageLastWins(p: Popup, first: string, second: string)
    ensures ShowValidation(ShowValidation(p, first), second) == ShowValidation(p, second)
    ensures var r := ResetValidation(ShowValidation(p, second));
      r.validation == Some(ValidationMessage(false, second))
  {
  }
}
