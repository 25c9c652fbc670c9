# alert90s dialog engine, modelled in Dafny

This project models the `Alert90s` dialog engine of `src/index.js`. The engine
is a static JavaScript class: `show` (and its alias `fire`) opens a modal alert
or a toast and returns a promise of the user's answer. The model covers
these parts of it:

- **Option resolution** (`Resolver`). An options object, or a bare title string,
  becomes a fully defaulted configuration. The JavaScript operators it uses are
  written out in `JsValues`: truthiness, `||` and `String(v)`. The
  `!== undefined ? x : d` defaulting is `IfDefined` in `Resolver`.
- **Content layout** (`Layout`). These are the blocks the box's body gets and
  their fixed order, and the action buttons and their order. `BuildBody` is
  the step-by-step builder, with its loops over `inputOptions` and
  `inputAttributes`. It is proved to produce the specified layout.
- **Input controls** (`Inputs`). This covers the drop-down, the radio group,
  the checkbox and toggle, and the text fields: their initial state, the
  user's changes, and the value a confirm reads.
- **Popup-scoped calls** (`Popups`). These are `showLoading`, `hideLoading`,
  `showValidationMessage` and `resetValidationMessage`, as functions on the
  part of a box they change.
- **Dialog lifecycle** (`Dialogs`). A dialog is a state machine with phases
  open, closing and closed. It reacts to clicks, the backdrop, the timer, the
  asynchronous `preConfirm` step and the end of the 200 ms exit delay. The
  promise is a one-shot result cell.
- **The engine** (`Engine.Alert90s`). This class holds the state the static
  class keeps: the last options, the current modal popup, the last timer's end
  time, the toast containers and every dialog opened. Its methods are
  `show`, the popup calls, `getTimerLeft`, `getToastContainer`, and event
  delivery.
- **Small arithmetic pieces.** These are the remaining time of the timer
  (`Timer`), tooltip placement and viewport clamping (`Tooltips`), and
  dragging a box by its title bar (`Drag`).

Time is an explicit clock in milliseconds. User actions, timer expiry, the
end of the exit delay, and the settling of a `preConfirm` promise are events
delivered in any order. Every path below is relative to the repository root.

## Model

| member | source | states |
|---|---|---|
| Resolver.Normalize | src/index.js:120-122 | a string argument becomes an options object with only `title` set; an object is used as given |
| Resolver.Resolve | src/index.js:125-196 | every button has a truthy label; the text is meaningful or empty; a position is always set; a falsy input is none; the input value is truthy or empty |
| Resolver.BodyAndIconAliases | src/index.js:127-129 | `message` wins over `text` and `type` over `icon` when truthy, and the empty string is the fallback |
| Resolver.ButtonLabelAliases | src/index.js:139-141 | `confirmText`, `cancelText` and `denyText` win over the long names; the labels default to 'OK', 'Cancel' and 'No' |
| Resolver.VisibilityDefaults | src/index.js:133-137 | the confirm button shows unless its option is exactly false; the close icon and outside clicks keep any given value and default to true only when absent; cancel and deny show only when truthy |
| Resolver.PositionAndTitleDefaults | src/index.js:126-178 | position defaults to 'top-end' for a toast and 'center' otherwise; a present title is kept even when falsy |
| Resolver.InputTimerAndCallbackDefaults | src/index.js:167-195 | a zero or absent timer means none and any other timer is kept; a truthy input, inputValue, preConfirm or willClose is kept as given, and a falsy one is falsy; inputOptions defaults to none |
| Resolver.TitleOnlyIsPlainAlert | src/index.js:120-196 | `show("title")` gives a centred modal with only an OK button, the close icon, outside clicks allowed, and no body, icon, input or timer |
| Inputs.LastMatch | src/index.js:472-489 | the index of the last option whose key is strictly equal to the value: it matches and no later option does; none means no option matches |
| Inputs.AttributeMap | src/index.js:655-659 | the attributes set are exactly the keys of the entries |
| Inputs.AttributeMapLastWins | src/index.js:656-658 | each attribute holds the value of the last entry with its name |
| Inputs.InitialRadio | src/index.js:500-505 | the radio loop leaves checked exactly the last option equal to the initial value |
| Inputs.InitialSelectLabel | src/index.js:445-489 | the drop-down shows the text of the last option equal to the initial value, else the placeholder |
| Inputs.ApplyAttributes | src/index.js:655-659 | the attribute loop yields exactly the attribute map |
| Inputs.InitialControl | src/index.js:426-652 | a control exists exactly for a truthy input; gives the select's hidden value and options, the checked radio (the last option equal to inputValue), the checkbox or toggle state (the truthiness of inputValue) and the field text |
| Inputs.SelectCaption | src/index.js:445-478 | the closed drop-down shows the text of the last option equal to the initial value, else the placeholder or '-- Select --' |
| Inputs.FieldControls | src/index.js:639-652 | 'textarea' builds a multi-line field; any other input that is not a widget builds a single-line `<input>` whose type is the input's name; both start with inputValue's text and the placeholder |
| Inputs.InputAttributes | src/index.js:655 | a radio group gets no attributes; any other input gets every attribute key |
| Inputs.ConfirmValue | src/index.js:703-712 | `true` without an input; the checked radio's key, and null exactly when none is checked; the checkbox's state; the field's current text |
| Inputs.PickItem | src/index.js:479-486 | clicking a drop-down item makes its key the confirmed value and shows its text |
| Inputs.PickRadio | src/index.js:500-536 | clicking a radio makes its key the confirmed value |
| Inputs.Flip | src/index.js:539-545 | clicking a checkbox negates the confirmed value and changes nothing else |
| Inputs.Type | src/index.js:639-652 | typing into a field makes the text the confirmed value and changes only the field's text, keeping its kind, multiline flag and placeholder |
| Inputs.SelectConfirmedUnchanged | src/index.js:472-489 | a drop-down opened on "C" shows that option's text, and confirming it unchanged yields "C" |
| Inputs.CheckboxFlippedOnce | src/index.js:539-545 | a checkbox opened unchecked and clicked once confirms `true` |
| Layout.GlyphOf | src/index.js:353-365 | a glyph exists exactly for custom markup or a known icon name; custom markup comes first; 'error' uses the danger glyph |
| Layout.ImagePart | src/index.js:329-344 | one image block exactly when imageUrl is truthy; it shows imageUrl with the alt text, width and height when set |
| Layout.IconPart | src/index.js:346-381 | one icon block exactly when icon is truthy and it has markup or a known name; that block carries the icon's name as its type class ('danger' for 'error') and the glyph chosen for it |
| Layout.ContentPart | src/index.js:383-413 | one title/text block exactly when title, html or text is truthy; it carries the title's text exactly when title is truthy; its body is the html when truthy, else the plain text when truthy, else empty |
| Layout.ToastClosePart | src/index.js:415-421 | the toast close button appears exactly for a toast with showCloseButton |
| Layout.InputPart | src/index.js:426-662 | one input block exactly when input is truthy; that block holds the control in its initial state and the attributes the input gets |
| Layout.Buttons | src/index.js:744-773 | buttons come in the order cancel, deny, confirm; each is present exactly when its option asks for it; the confirm button carries the confirm label |
| Layout.ButtonLabels | src/index.js:744-773 | the cancel, deny and confirm buttons carry their own captions and, when set, their aria labels |
| Layout.ActionsPart | src/index.js:775-777 | the actions row is present exactly when some button is shown |
| Layout.FooterPart | src/index.js:779-785 | one footer block exactly when footer is truthy; it shows the footer's markup |
| Layout.BodyBlocks | src/index.js:329-785 | the blocks come in the order image, icon, title/text, toast close, input, actions, footer, each at most once; the actions row holds the buttons |
| Layout.ActionsFromActionsPart | src/index.js:775-777 | every actions row in the body is the one row holding the configured buttons |
| Layout.BodyKinds | src/index.js:329-785 | each kind of block is present exactly when the configuration asks for it |
| Layout.BuildBody | src/index.js:329-785 | the step-by-step builder yields exactly the specified body |
| Layout.BuildImage | src/index.js:329-344 | the step of `BuildBody` that appends the image; it adds exactly the image part |
| Layout.BuildIcon | src/index.js:346-381 | the step of `BuildBody` that appends the icon; it adds exactly the icon part |
| Layout.BuildContent | src/index.js:383-413 | the step of `BuildBody` that appends the title/text wrapper; it adds exactly the content part |
| Layout.BuildToastClose | src/index.js:415-421 | the step of `BuildBody` that appends the toast close button; it adds exactly that part |
| Layout.BuildInput | src/index.js:426-662 | the step of `BuildBody` that appends the input, with its option and attribute loops; it adds exactly the input block |
| Layout.BuildButtons | src/index.js:744-773 | the step of `BuildActions` that appends the cancel, deny and confirm buttons; it yields exactly the specified buttons |
| Layout.BuildActions | src/index.js:775-777 | the step of `BuildBody` that appends the actions row; it adds exactly the actions part |
| Layout.BuildFooter | src/index.js:779-785 | the step of `BuildBody` that appends the footer; it adds exactly the footer part |
| Layout.ViewOf | src/index.js:259-327 | a progress bar for the timer's duration exactly when there is a timer and timerProgressBar; the close icon and the drag handle follow their options; the body is exactly the specified blocks, in order |
| Popups.FreshPopup | src/index.js:664-777 | a new box is not loading and shows no validation message |
| Popups.LoaderKindOf | src/index.js:33-53 | the loader kind comes from the last options' loaderType: 'ascii', 'blinking', 'progress' and 'segmented' select their spinners; it is the hourglass when there are no options or the type is any other value |
| Popups.ShowLoading | src/index.js:23-65 | afterwards the box is loading; an existing loader is kept, otherwise one of the given kind is added; the actions row is hidden |
| Popups.HideLoading | src/index.js:66-75 | afterwards the box is not loading; the validation message is untouched |
| Popups.ShowValidation | src/index.js:76-94 | the message is displayed with exactly the given text; loader and actions are untouched |
| Popups.ResetValidation | src/index.js:95-101 | the message is hidden, and an existing element keeps its text; no element is created |
| Popups.ApplyCall | src/index.js:23-101 | every call keeps the invariant that only a present actions row is hidden |
| Popups.ApplyCalls | src/index.js:714-738 | a sequence of calls keeps that invariant too |
| Popups.ShowLoadingIdempotent | src/index.js:29-30 | a second showLoading changes nothing, so at most one loader is created |
| Popups.HideLoadingUndoesShowLoading | src/index.js:66-75 | hideLoading after showLoading equals hideLoading alone |
| Popups.ValidationMessageLastWins | src/index.js:76-101 | two messages leave the second text in one element; a reset then hides it and keeps the text |
| Timer.TimerLeft | src/index.js:10-14 | none before any timer; otherwise never negative; zero exactly when the end has passed; the exact difference while positive |
| Timer.TimerLeftNonIncreasing | src/index.js:10-14 | as time passes the time left never grows, and it shrinks by the elapsed time until it reaches zero |
| Drag.Idle | src/index.js:287-288 | before any press the box is not being dragged |
| Drag.Press | src/index.js:290-303 | a press off the close button records the pointer and box positions and starts dragging; a press on the close button changes nothing |
| Drag.Move | src/index.js:306-310 | while dragging, the box is at its start position plus the pointer's travel; otherwise nothing changes |
| Drag.Release | src/index.js:312-317 | a release stops dragging and leaves the box where it is |
| Drag.DragFollowsPointer | src/index.js:306-310 | after any moves the box is at its start plus the last point's offset from the press point |
| Drag.ReleasedIgnoresMoves | src/index.js:306-307 | after a release, no move changes the box |
| Tooltips.RawPlacement | src/index.js:876-895 | the tooltip sits on the requested side at the offset distance, centred on the element; any other side gives (0, 0) |
| Tooltips.Clamp | src/index.js:897-903 | afterwards top >= offset and left + width <= innerWidth - offset; left >= offset holds exactly when width <= innerWidth - 2*offset; a fitting tooltip is not moved |
| Tooltips.ShowTooltip | src/index.js:857-903 | a tooltip is shown exactly for a non-empty message; it shows the message; the side is the position attribute unless that is missing or empty, then 'top', and the colour likewise with 'yellow'; its place is the raw placement on that side, clamped to the viewport and shifted by the page scroll; so its top is at least the offset below the scrolled top edge, and its right edge at least the offset inside the scrolled right edge |
| Tooltips.FittingTooltipUnmoved | src/index.js:876-903 | a tooltip that fits above its element sits exactly above it, centred |
| Dialogs.Opened | src/index.js:118-833 | a new dialog is open, unresolved and valid; its timer is due `timer` ms after opening; the input is in its initial state; it keeps the resolved options and its container; the popup is fresh; no removal is scheduled, `finish` has not run, no confirm is pending and no drag is under way |
| Dialogs.Finish | src/index.js:671-699 | finish cancels the timer, counts a willClose run, and schedules one removal with its result 200 ms later; nothing else changes; it keeps the invariant |
| Dialogs.ExitDone | src/index.js:687-698 | the oldest due removal detaches the box and resolves the promise only if it was not resolved yet; nothing else changes, and before its due time nothing changes at all |
| Dialogs.OutsideClickAllowed | src/index.js:207-208 | the default `true` allows a backdrop close and a falsy option never does; a function's return value decides for it |
| Dialogs.SettledValue | src/index.js:725-727 | an undefined or identical preConfirm result keeps the value; any other result replaces it |
| Dialogs.ConfirmStep | src/index.js:702-741 | without preConfirm the confirm finishes with the input's value; with it the handler resets validation, shows the loader when asked, and waits |
| Dialogs.SettleStep | src/index.js:719-739 | a rejection shows "Request failed: ..." and hides the loader; `false`, or a visible validation message, hides the loader and stays open; otherwise it makes no call and the new state is exactly `finish` applied, with the settled value as the confirmed value, to the dialog less that pending confirm; in every case that pending confirm is removed |
| Dialogs.Step | src/index.js:198-833 | the handlers: only the confirm handler makes popup calls; a box's loader and message change only through popup calls; only the end of an exit delay resolves the promise or removes the box |
| Dialogs.StepPreserves | src/index.js:198-833 | every event keeps the dialog invariant, never re-resolves the promise, never reattaches a removed box, and never changes a decided result |
| Dialogs.TriggerPreserves | src/index.js:205-211 | the dismissal triggers (cancel, deny, close icons, backdrop, timer) keep the dialog invariant and the decided result |
| Dialogs.ConfirmPreserves | src/index.js:764-773 | a confirm click keeps the dialog invariant and the decided result |
| Dialogs.SettlePreserves | src/index.js:714-739 | a settled preConfirm keeps the dialog invariant and the decided result |
| Dialogs.ExitPreserves | src/index.js:687-698 | the end of an exit delay keeps the dialog invariant and resolves with the decided result |
| Dialogs.LocalPreserves | src/index.js:285-317 | input edits, drag events and popup calls keep the dialog invariant and the decided result |
| Dialogs.RunPreserves | src/index.js:198-833 | over any sequence of events the invariant holds, a resolved result never changes, and a decided result stays the one the first trigger decided |
| Dialogs.FirstTriggerWins | src/index.js:671-699 | once a trigger has finished the dialog, the promise resolves, if at all, with that first result |
| Dialogs.ResultsWellShaped | src/index.js:209 | every result has exactly one of isConfirmed, isDenied, isDismissed; it carries a dismiss reason exactly when dismissed and a value exactly when confirmed |
| Dialogs.BackdropPress | src/index.js:205-211 | a backdrop press closes exactly a modal still shown, pressed on the overlay itself, with allowOutsideClick (or its return value) truthy; the reason is 'backdrop' |
| Dialogs.DismissalTriggers | src/index.js:419-832 | cancel, deny, the close icons and the timer each finish with their own result; hidden action buttons do nothing |
| Dialogs.SecondTriggerRerunsWillClose | src/index.js:671-699 | a cancel followed by a deny during the exit delay runs willClose twice, yet the promise resolves with the cancel |
| Dialogs.CancelThenDeny | src/index.js:671-699 | from any open dialog with clickable cancel and deny buttons, that run finishes twice, removes the box, empties the removal queue and resolves with the cancel |
| Dialogs.PreConfirmValue | src/index.js:725-741 | the confirmed value after preConfirm is the passed value when the result is undefined or the same, else the result |
| Engine.FirstIndex | src/index.js:105 | the first container of a position, or none exactly when the position has no container |
| Engine.WithContainer | src/index.js:103-112 | after get-or-create the position has a container; positions stay distinct; nothing is added when one exists |
| Engine.WithContainerIdempotent | src/index.js:103-112 | asking twice for a position's container creates at most one |
| Engine.WithCalls | src/index.js:7-101 | popup calls change only the current popup's box, and nothing without one |
| Engine.AddKeepsValid | src/index.js:251-254 | adding a dialog keeps the engine invariant; only a modal becomes the current popup |
| Engine.ReplaceKeepsValid | src/index.js:198-833 | a dialog stepping in place keeps the engine invariant |
| Engine.CallsKeepValid | src/index.js:7-101 | popup calls on the current popup keep the engine invariant |
| Engine.Alert90s.constructor | src/index.js:3-14 | before any call there are no options, no popup, no timer and no dialogs |
| Engine.Alert90s.GetOptions | src/index.js:4-6 | the last options passed to show, or `{}` |
| Engine.Alert90s.GetPopup | src/index.js:7-9 | the current popup is the last modal opened, never a toast; none before any modal |
| Engine.Alert90s.GetTimerLeft | src/index.js:10-14 | the time left on the last started timer, never negative |
| Engine.Alert90s.IsLoading | src/index.js:15-22 | false without a current popup; otherwise that box's loading state |
| Engine.Alert90s.Call | src/index.js:7-101 | a popup call changes the current popup's box only |
| Engine.Alert90s.ShowLoading | src/index.js:23-65 | afterwards isLoading holds when there is a popup; nothing changes without one |
| Engine.Alert90s.HideLoading | src/index.js:66-75 | afterwards isLoading is false |
| Engine.Alert90s.ShowValidationMessage | src/index.js:76-94 | the current popup shows exactly the given message |
| Engine.Alert90s.ResetValidationMessage | src/index.js:95-101 | the current popup shows no validation message |
| Engine.Alert90s.FindContainer | src/index.js:105 | the document search finds the first container of the position |
| Engine.Alert90s.GetToastContainer | src/index.js:103-112 | returns the position's container, and creates one only when there is none |
| Engine.Alert90s.Build | src/index.js:198-833 | builds the box and gives the opened dialog its initial state |
| Engine.Alert90s.Show | src/index.js:118-833 | records the options and appends the dialog the resolved options open, keeping the others; a modal becomes the current popup and a toast leaves it; a toast gets its position's container, created only when missing; a timer overwrites the shared end time |
| Engine.Alert90s.OpenToast | src/index.js:787-800 | a toast is appended in its position's container, created only when missing; the current popup stays |
| Engine.Alert90s.OpenModal | src/index.js:251-254 | a modal is appended and becomes the current popup; the containers stay |
| Engine.Alert90s.StartTimer | src/index.js:828-829 | a timer sets the shared end time to now plus its duration; without one it stays |
| Engine.Alert90s.Add | src/index.js:251-254 | the new dialog joins the list; only a modal becomes the current popup |
| Engine.Alert90s.Advance | src/index.js:12 | time passes and nothing else changes |
| Engine.Alert90s.Deliver | src/index.js:198-833 | a dialog's own event (a click, a backdrop press, a settled preConfirm, its timer, the end of its exit delay, an input edit, a title-bar press) steps that dialog; the popup calls its handler makes act on the current popup, whichever dialog that is, with the loader kind of the last options; a resolved result never changes |
| Engine.Alert90s.Broadcast | src/index.js:306-317 | a document-level pointer move or release reaches every dialog's drag handler |

## Left out

- Markup, SVG, class names, inline styles and colours are abstracted to block records. So are animations, `showClass` and `hideClass`, the theme and `dir`.
- Focus scheduling (`focusConfirm`) and `didOpen` are left out. They are timed callbacks with no effect on the result.
- Real time is an explicit clock and explicit events. This covers `setTimeout`, `Date.now` and the browser event loop.
- What `willClose`, `didOpen`, `preConfirm` and an `allowOutsideClick` function do is not modelled. Their return values and the calls they make on the engine are inputs.
- The tooltip hide path and the listener registration in `initTooltips` are browser plumbing. So is the `closest` lookup of the hovered element.
- The standalone widgets (`renderThemeToggle`, `renderCheckbox`, `renderToggle`, `renderRadio`, `renderSelect`), the global `window` export and the auto-init are left out.
- Numbers are integers. Fractions, NaN and the string forms of non-integral numbers are not modelled. Tooltip and drag coordinates are reals.
- `show` arguments other than a string or an options object are left out, such as `null` or a number.
- The ordering `Object.entries` gives integer-like keys is left out. The entries are taken in the order given.
- The browser's sanitising of input values is left out, for example a non-numeric value in a number field.
- Special characters in a position string used as a CSS selector are left out. Positions are compared as strings.
- Dialogs.Finish: a `willClose` that throws is not modelled. In the code it aborts `finish` after the timer is cleared and before the removal is scheduled, so the box stays and the promise never resolves; the model always schedules the removal.
- `timer` is an integer number of milliseconds. A string timer, which makes the end time a string concatenation, is not modelled. Neither is a delay above 2^31 - 1 ms, which browsers fire at once.
- Inputs.ConfirmValue: radios in two open dialogs share the document-wide group name `alert90s-radio`, so checking one unchecks the other dialog's radio. The model keeps each dialog's radio group separate.
- Inputs.AttributeMap: attribute names are kept as given. `setAttribute` lowercases them on HTML elements, so `maxLength` and `maxlength` name the same attribute there and the later entry wins.
- Inputs.AttributeMap: an attribute name `setAttribute` refuses, such as `a b`, is not modelled. In the code the call throws inside the promise's executor, so the promise rejects. For a modal this happens after the box became the current popup (src/index.js:253) and before the overlay is attached (src/index.js:811), so `getPopup` returns a box that is never shown.
- Engine.Alert90s.Show: a truthy `position` without an `includes` method, such as a number, a boolean or a plain object, is not modelled. When neither `document.dir` nor the `dir` option is 'rtl', the code calls `config.position.includes` (src/index.js:229). For such a position that call throws, so the promise rejects and no dialog opens, yet the options were already recorded (src/index.js:123). The model opens the dialog. A string or an array position has `includes` and does not throw, and an 'rtl' direction skips the call.
- Engine.Alert90s.Show: the throw of `setAttribute` on an invalid `inputAttributes` name is not modelled. The model always opens the dialog; the code rejects the promise after a modal already became the current popup.
- Inputs.ConfirmValue: an `inputAttributes` entry named `value` can overwrite the value the drop-down's hidden input holds, or that of a field opened without `inputValue`. The model keeps the attributes apart from the control's value.

## Where the code and its documentation differ

The model follows the code in each of these cases.

- When both spellings of an option are truthy, the short alias wins (`message`, `type`, `confirmText`, `cancelText`, `denyText`). The long name does not.
- `finish` has no closed flag. A second trigger during the 200 ms exit delay runs `willClose` again and schedules a second removal. The promise still keeps the first result (`Dialogs.SecondTriggerRerunsWillClose`).
- `currentPopup` is never cleared when its dialog closes. `getPopup` keeps returning the closed modal, and the popup calls keep acting on it.
- An icon block needs a truthy `icon` even when `iconHtml` is given.
- The loader's kind comes from the options of the most recent `show` call, not from the dialog whose confirm handler asks for it.
- `showLoading`, `hideLoading` and the validation calls made by a confirm handler act on the current popup. That can be a different modal than the one being confirmed.
- The timer's end time is shared. The last timed dialog overwrites it, toast or modal, and it is never cleared.
- A tooltip is clamped at its top, left and right edges only. The bottom edge is not clamped, and a tooltip wider than the viewport ends up left of the margin, so it can leave the viewport.
