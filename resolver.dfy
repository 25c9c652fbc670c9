/** Option resolution: the mapping from what a caller passes to `show` (an
    options object or a bare string) to the fully defaulted configuration
    record the rest of the engine reads. */
module Resolver {
  import opened JsValues

  /** Key/value pairs in the order `Object.entries` yields them. */
  type Entries = seq<(string, string)>

  /** A caller's options object. Every key the engine reads is a field;
      `Undefined` means the key is absent. `iconType` is the key `type`, the
      short alias of `icon`. `timer` is a number of milliseconds, and the two
      maps are given by their entries. */
  datatype Options = Options(
    title: Value, message: Value, text: Value, html: Value,
    iconType: Value, icon: Value, iconHtml: Value,
    showConfirmButton: Value, showCancelButton: Value, showDenyButton: Value,
    showCloseButton: Value, loaderType: Value,
    confirmText: Value, confirmButtonText: Value,
    cancelText: Value, cancelButtonText: Value,
    denyText: Value, denyButtonText: Value,
    confirmButtonColor: Value, cancelButtonColor: Value, denyButtonColor: Value,
    background: Value, color: Value, titleColor: Value, iconColor: Value,
    confirmButtonAriaLabel: Value, cancelButtonAriaLabel: Value, denyButtonAriaLabel: Value,
    focusConfirm: Value, footer: Value,
    imageUrl: Value, imageWidth: Value, imageHeight: Value, imageAlt: Value,
    input: Value, inputPlaceholder: Value, inputValue: Value,
    inputOptions: Option<Entries>, inputAttributes: Option<Entries>,
    showLoaderOnConfirm: Value, preConfirm: Value,
    toast: Value, draggable: Value, position: Value, allowOutsideClick: Value,
    dir: Value, theme: Value,
    timer: Option<int>, timerProgressBar: Value,
    didOpen: Value, willClose: Value)

  /** The resolved configuration of one invocation. */
  datatype Config = Config(
    title: Value, text: Value, html: Value, icon: Value, iconHtml: Value,
    showConfirmButton: bool, showCancelButton: Value, showDenyButton: Value,
    showCloseButton: Value, loaderType: Value,
    confirmButtonText: Value, cancelButtonText: Value, denyButtonText: Value,
    confirmButtonColor: Value, cancelButtonColor: Value, denyButtonColor: Value,
    background: Value, color: Value, titleColor: Value, iconColor: Value,
    confirmButtonAriaLabel: Value, cancelButtonAriaLabel: Value, denyButtonAriaLabel: Value,
    focusConfirm: bool, footer: Value,
    imageUrl: Value, imageWidth: Value, imageHeight: Value, imageAlt: Value,
    input: Value, inputPlaceholder: Value, inputValue: Value,
    inputOptions: Entries, inputAttributes: Entries,
    showLoaderOnConfirm: Value, preConfirm: Value,
    toast: Value, draggable: Value, position: Value, allowOutsideClick: Value,
    dir: Value, theme: Value,
    timer: Option<int>, timerProgressBar: Value,
    didOpen: Value, willClose: Value)

  /** The argument of `show`: a bare string or an options object. */
  datatype ShowArg = TitleOnly(title: string) | WithOptions(options: Options)

  /** `{}`: every key absent. */
  function EmptyOptions(): Options {
    Options(
      Undefined, Undefined, Undefined, Undefined,
      Undefined, Undefined, Undefined,
      Undefined, Undefined, Undefined,
      Undefined, Undefined,
      Undefined, Undefined,
      Undefined, Undefined,
      Undefined, Undefined,
      Undefined, Undefined, Undefined,
      Undefined, Undefined, Undefined, Undefined,
      Undefined, Undefined, Undefined,
      Undefined, Undefined,
      Undefined, Undefined, Undefined, Undefined,
      Undefined, Undefined, Undefined,
      None, None,
      Undefined, Undefined,
      Undefined, Undefined, Undefined, Undefined,
      Undefined, Undefined,
      None, Undefined,
      Undefined, Undefined)
  }

  /** A string argument becomes `{title: s}`; an object is used as it is. */
  function Normalize(arg: ShowArg): (o: Options)
    ensures arg.TitleOnly? ==> o == EmptyOptions().(title := Str(arg.title))
    ensures arg.WithOptions? ==> o == arg.options
  {
    match arg
    case TitleOnly(s) => EmptyOptions().(title := Str(s))
    case WithOptions(o) => o
  }

  /** `x !== undefined ? x : d` */
  function IfDefined(x: Value, d: Value): Value {
    if x != Undefined then x else d
  }

  /** The configuration record built from an options object. Where both
      spellings of an aliased option are truthy the short one (`message`,
      `type`, `confirmText`, `cancelText`, `denyText`) is taken. */
  function Resolve(o: Options): (c: Config)
    // every button always has a truthy label
    ensures Truthy(c.confirmButtonText) && Truthy(c.cancelButtonText) && Truthy(c.denyButtonText)
    // the text body is either meaningful or the empty string, never another falsy value
    ensures Truthy(c.text) || c.text == Str("")
    // the position is always set
    ensures Truthy(c.position)
    // a falsy input means none, and the input value is never another falsy value than ""
    ensures !Truthy(c.input) ==> c.input == Null
    ensures Truthy(c.inputValue) || c.inputValue == Str("")
  {
    Config(
      title := IfDefined(o.title, Str("")),
      text := Or(Or(o.message, o.text), Str("")),
      html := Or(o.html, Str("")),
      icon := Or(Or(o.iconType, o.icon), Str("")),
      iconHtml := Or(o.iconHtml, Str("")),
      showConfirmButton := o.showConfirmButton != Bool(false),
      showCancelButton := Or(o.showCancelButton, Bool(false)),
      showDenyButton := Or(o.showDenyButton, Bool(false)),
      showCloseButton := IfDefined(o.showCloseButton, Bool(true)),
      loaderType := Or(o.loaderType, Str("hourglass")),
      confirmButtonText := Or(Or(o.confirmText, o.confirmButtonText), Str("OK")),
      cancelButtonText := Or(Or(o.cancelText, o.cancelButtonText), Str("Cancel")),
      denyButtonText := Or(Or(o.denyText, o.denyButtonText), Str("No")),
      confirmButtonColor := Or(o.confirmButtonColor, Str("")),
      cancelButtonColor := Or(o.cancelButtonColor, Str("")),
      denyButtonColor := Or(o.denyButtonColor, Str("")),
      background := Or(o.background, Str("")),
      color := Or(o.color, Str("")),
      titleColor := Or(o.titleColor, Str("")),
      iconColor := Or(o.iconColor, Str("")),
      confirmButtonAriaLabel := Or(o.confirmButtonAriaLabel, Str("")),
      cancelButtonAriaLabel := Or(o.cancelButtonAriaLabel, Str("")),
      denyButtonAriaLabel := Or(o.denyButtonAriaLabel, Str("")),
      focusConfirm := o.focusConfirm != Bool(false),
      footer := Or(o.footer, Str("")),
      imageUrl := Or(o.imageUrl, Str("")),
      imageWidth := Or(o.imageWidth, Null),
      imageHeight := Or(o.imageHeight, Null),
      imageAlt := Or(o.imageAlt, Str("")),
      input := Or(o.input, Null),
      inputPlaceholder := Or(o.inputPlaceholder, Str("")),
      inputValue := Or(o.inputValue, Str("")),
      inputOptions := if o.inputOptions.Some? then o.inputOptions.value else [],
      inputAttributes := if o.inputAttributes.Some? then o.inputAttributes.value else [],
      showLoaderOnConfirm := Or(o.showLoaderOnConfirm, Bool(false)),
      preConfirm := Or(o.preConfirm, Null),
      toast := Or(o.toast, Bool(false)),
      draggable := Or(o.draggable, Bool(false)),
      position := Or(o.position, if Truthy(o.toast) then Str("top-end") else Str("center")),
      allowOutsideClick := IfDefined(o.allowOutsideClick, Bool(true)),
      dir := Or(o.dir, Str("auto")),
      theme := Or(o.theme, Str("light")),
      timer := if o.timer.Some? && o.timer.value != 0 then o.timer else None,
      timerProgressBar := Or(o.timerProgressBar, Bool(false)),
      didOpen := Or(o.didOpen, Null),
      willClose := Or(o.willClose, Null))
  }

  /** The configuration of one `show` call. */
  function ResolveArg(arg: ShowArg): Config {
    Resolve(Normalize(arg))
  }

  /** Body and icon aliases: the short spelling (`message`, `type`) wins when
      truthy, then the long one (`text`, `icon`), then the empty string. */
  lemma BodyAndIconAliases(o: Options)
    ensures var c := Resolve(o);
      && (Truthy(o.message) ==> c.text == o.message)
      && (!Truthy(o.message) && Truthy(o.text) ==> c.text == o.text)
      && (!Truthy(o.message) && !Truthy(o.text) ==> c.text == Str(""))
      && (Truthy(o.iconType) ==> c.icon == o.iconType)
      && (!Truthy(o.iconType) && Truthy(o.icon) ==> c.icon == o.icon)
      && (!Truthy(o.iconType) && !Truthy(o.icon) ==> c.icon == Str(""))
  {
  }

  /** Button-label aliases: `confirmText`, `cancelText` and `denyText` win when
      truthy, then the long names, then 'OK', 'Cancel' and 'No'. */
  lemma ButtonLabelAliases(o: Options)
    ensures var c := Resolve(o);
      && (Truthy(o.confirmText) ==> c.confirmButtonText == o.confirmText)
      && (!Truthy(o.confirmText) && Truthy(o.confirmButtonText) ==> c.confirmButtonText == o.confirmButtonText)
      && (!Truthy(o.confirmText) && !Truthy(o.confirmButtonText) ==> c.confirmButtonText == Str("OK"))
      && (Truthy(o.cancelText) ==> c.cancelButtonText == o.cancelText)
      && (!Truthy(o.cancelText) && Truthy(o.cancelButtonText) ==> c.cancelButtonText == o.cancelButtonText)
      && (!Truthy(o.cancelText) && !Truthy(o.cancelButtonText) ==> c.cancelButtonText == Str("Cancel"))
      && (Truthy(o.denyText) ==> c.denyButtonText == o.denyText)
      && (!Truthy(o.denyText) && Truthy(o.denyButtonText) ==> c.denyButtonText == o.denyButtonText)
      && (!Truthy(o.denyText) && !Truthy(o.denyButtonText) ==> c.denyButtonText == Str("No"))
  {
  }

  /** The confirm button is shown unless the option is exactly `false`; the
      close icon and outside clicks keep any value that is given (even a falsy
      one such as `null`) and are `true` only when the key is absent; the
      cancel and deny buttons are shown only when their option is truthy. */
  lemma VisibilityDefaults(o: Options)
    ensures var c := Resolve(o);
      && (c.showConfirmButton <==> o.showConfirmButton != Bool(false))
      && c.showCloseButton == (if o.showCloseButton == Undefined then Bool(true) else o.showCloseButton)
      && c.allowOutsideClick == (if o.allowOutsideClick == Undefined then Bool(true) else o.allowOutsideClick)
      && (Truthy(c.showCancelButton) <==> Truthy(o.showCancelButton))
      && (Truthy(c.showDenyButton) <==> Truthy(o.showDenyButton))
      && (c.focusConfirm <==> o.focusConfirm != Bool(false))
  {
  }

  /** The position is the caller's when truthy, otherwise 'top-end' for a
      toast and 'center' for a modal; the title is kept whenever the key is
      present, even when it is falsy. */
  lemma PositionAndTitleDefaults(o: Options)
    ensures var c := Resolve(o);
      && (Truthy(o.position) ==> c.position == o.position)
      && (!Truthy(o.position) ==> c.position == (if Truthy(o.toast) then Str("top-end") else Str("center")))
      && (Truthy(c.toast) <==> Truthy(o.toast))
      && c.title == (if o.title != Undefined then o.title else Str(""))
  {
  }

  /** A zero or absent timer means no timer; an absent input means none;
      callbacks are kept only when truthy. */
  lemma InputTimerAndCallbackDefaults(o: Options)
    ensures var c := Resolve(o);
      && (c.timer.Some? <==> o.timer.Some? && o.timer.value != 0)
      && (c.timer.Some? ==> c.timer == o.timer)
      && (Truthy(c.input) <==> Truthy(o.input))
      && (Truthy(o.input) ==> c.input == o.input)
      && (Truthy(o.inputValue) ==> c.inputValue == o.inputValue)
      && c.inputOptions == (if o.inputOptions.Some? then o.inputOptions.value else [])
      && (Truthy(c.preConfirm) <==> Truthy(o.preConfirm))
      && (Truthy(o.preConfirm) ==> c.preConfirm == o.preConfirm)
      && (Truthy(c.willClose) <==> Truthy(o.willClose))
      && (Truthy(o.willClose) ==> c.willClose == o.willClose)
  {
  }

  /** `show("Saved")` opens a centred modal titled "Saved" with no body, no
      icon, no input and a single OK button, a close icon, outside clicks
      allowed and no timer. */
  lemma TitleOnlyIsPlainAlert(s: string)
    ensures var c := ResolveArg(TitleOnly(s));
      && c.title == Str(s) && c.text == Str("") && c.html == Str("") && c.icon == Str("")
      && c.showConfirmButton && !Truthy(c.showCancelButton) && !Truthy(c.showDenyButton)
      && c.confirmButtonText == Str("OK")
      && c.showCloseButton == Bool(true) && c.allowOutsideClick == Bool(true)
      && !Truthy(c.toast) && c.position == Str("center")
      && !Truthy(c.input) && c.timer.None? && !Truthy(c.preConfirm)
  {
  }
}
