/** The input control of a dialog: which widget a configuration builds, the
    state the user changes by interacting with it, and the value a confirm
    reads from it. */
module Inputs {
  import opened JsValues
  import opened Resolver

  /** The state of the one input widget a dialog can hold.
      - `SelectControl`: the custom drop-down; `value` is its hidden input's
        value and `caption` the text shown in the closed box.
      - `RadioControl`: the option group; `selected` is the index of the checked
        radio, if any (the radios share one name, so at most one is checked).
      - `CheckControl`: a checkbox, or the toggle switch when `toggle`.
      - `FieldControl`: a textarea when `multiline`, otherwise an `<input>` of
        type `kind`. */
  datatype Control =
    | SelectControl(options: Entries, value: string, caption: string)
    | RadioControl(options: Entries, selected: Option<nat>)
    | CheckControl(toggle: bool, checked: bool, caption: string)
    | FieldControl(multiline: bool, kind: string, placeholder: string, value: string)

  /** The index of the last entry whose key is strictly equal (`===`) to `v`. */
  function LastMatch(entries: Entries, v: Value): (r: Option<nat>)
    ensures r.Some? ==> r.value < |entries| && Str(entries[r.value].0) == v
    ensures r.Some? ==> forall j :: r.value < j < |entries| ==> Str(entries[j].0) != v
    ensures r.None? ==> forall j :: 0 <= j < |entries| ==> Str(entries[j].0) != v
    decreases |entries|
  {
    if |entries| == 0 then None
    else if Str(entries[|entries| - 1].0) == v then Some(|entries| - 1)
    else LastMatch(entries[..|entries| - 1], v)
  }

  /** The attributes an element ends up with after `setAttribute(key, value)`
      for each entry in order. */
  function AttributeMap(entries: Entries): (m: map<string, string>)
    ensures m.Keys == set i | 0 <= i < |entries| :: entries[i].0
    decreases |entries|
  {
    if |entries| == 0 then map[]
    else
      var n := |entries| - 1;
      AttributeMap(entries[..n])[entries[n].0 := entries[n].1]
  }

  /** A later entry overrides an earlier one: each attribute holds the value
      of the last entry with its name. */
  lemma {:induction false} AttributeMapLastWins(entries: Entries, i: nat)
    requires i < |entries|
    requires forall j :: i < j < |entries| ==> entries[j].0 != entries[i].0
    ensures entries[i].0 in AttributeMap(entries) && AttributeMap(entries)[entries[i].0] == entries[i].1
    decreases |entries|
  {
    var n := |entries| - 1;
    if i < n {
      AttributeMapLastWins(entries[..n], i);
    }
  }

  /** The radio group's loop over the options: each radio whose key equals
      the initial value is checked, and a later one unchecks an earlier one. */
  method InitialRadio(entries: Entries, initial: Value) returns (checked: Option<nat>)
    ensures checked == LastMatch(entries, initial)
  {
    checked := None;
    var i := 0;
    while i < |entries|
      invariant 0 <= i <= |entries|
      invariant checked == LastMatch(entries[..i], initial)
    {
      assert entries[..i + 1][..i] == entries[..i];
      if Str(entries[i].0) == initial {
        checked := Some(i);
      }
      i := i + 1;
    }
    assert entries[..i] == entries;
  }

  /** The drop-down's loop over the options: the box starts with the
      placeholder and shows the text of each option whose key equals the
      initial value, so the last such option's text remains. */
  method InitialSelectLabel(entries: Entries, initial: Value, placeholder: string) returns (caption: string)
    ensures LastMatch(entries, initial).Some? ==> caption == entries[LastMatch(entries, initial).value].1
    ensures LastMatch(entries, initial).None? ==> caption == placeholder
  {
    caption := placeholder;
    var i := 0;
    while i < |entries|
      invariant 0 <= i <= |entries|
      invariant LastMatch(entries[..i], initial).Some? ==> caption == entries[LastMatch(entries[..i], initial).value].1
      invariant LastMatch(entries[..i], initial).None? ==> caption == placeholder
    {
      assert entries[..i + 1][..i] == entries[..i];
      if Str(entries[i].0) == initial {
        caption := entries[i].1;
      }
      i := i + 1;
    }
    assert entries[..i] == entries;
  }

  /** The loop that copies `inputAttributes` onto the input element. */
  method ApplyAttributes(entries: Entries) returns (attrs: map<string, string>)
    ensures attrs == AttributeMap(entries)
  {
    attrs := map[];
    var i := 0;
    while i < |entries|
      invariant 0 <= i <= |entries|
      invariant attrs == AttributeMap(entries[..i])
    {
      assert entries[..i + 1][..i] == entries[..i];
      attrs := attrs[entries[i].0 := entries[i].1];
      i := i + 1;
    }
    assert entries[..i] == entries;
  }

  /** The widget a configuration builds, with its initial state. */
  function InitialControl(c: Config): (r: Option<Control>)
    ensures r.Some? <==> Truthy(c.input)
    ensures c.input == Str("select") ==>
              && r.Some? && r.value.SelectControl?
              && r.value.value == ToStr(c.inputValue)
              && r.value.options == c.inputOptions
    ensures c.input == Str("radio") ==>
              && r.Some? && r.value.RadioControl?
              && r.value.options == c.inputOptions
              && r.value.selected == LastMatch(c.inputOptions, c.inputValue)
    ensures c.input == Str("checkbox") || c.input == Str("toggle") ==>
              r.Some? && r.value.CheckControl? && (r.value.checked <==> Truthy(c.inputValue))
    ensures r.Some? && r.value.FieldControl? ==> r.value.value == TextIfSet(c.inputValue)
  {
    if !Truthy(c.input) then None
    else if c.input == Str("select") then
      var m := LastMatch(c.inputOptions, c.inputValue);
      var caption := if m.Some? then c.inputOptions[m.value].1
                   else ToStr(Or(c.inputPlaceholder, Str("-- Select --")));
      Some(SelectControl(c.inputOptions, ToStr(c.inputValue), caption))
    else if c.input == Str("radio") then
      Some(RadioControl(c.inputOptions, LastMatch(c.inputOptions, c.inputValue)))
    else if c.input == Str("checkbox") then
      Some(CheckControl(false, Truthy(c.inputValue), ToStr(Or(c.inputPlaceholder, Str("Check me")))))
    else if c.input == Str("toggle") then
      Some(CheckControl(true, Truthy(c.inputValue), TextIfSet(c.inputPlaceholder)))
    else if c.input == Str("textarea") then
      Some(FieldControl(true, "textarea", TextIfSet(c.inputPlaceholder), TextIfSet(c.inputValue)))
    else
      Some(FieldControl(false, ToStr(c.input), TextIfSet(c.inputPlaceholder), TextIfSet(c.inputValue)))
  }

  /** The closed drop-down shows the text of the last option whose key equals
      the initial value, and otherwise the placeholder or '-- Select --'. */
  lemma SelectCaption(c: Config)
    requires c.input == Str("select")
    ensures var m := LastMatch(c.inputOptions, c.inputValue);
      && InitialControl(c).Some? && InitialControl(c).value.SelectControl?
      && (m.Some? ==> InitialControl(c).value.caption == c.inputOptions[m.value].1)
      && (m.None? ==> InitialControl(c).value.caption == ToStr(Or(c.inputPlaceholder, Str("-- Select --"))))
  {
  }

  /** A textarea input builds a multi-line field; any other truthy input
      that is not one of the widgets builds a single-line `<input>` whose type
      is the input's name. Both start with the initial value's text, if any. */
  lemma FieldControls(c: Config)
    requires Truthy(c.input) && c.input != Str("select") && c.input != Str("radio")
    requires c.input != Str("checkbox") && c.input != Str("toggle")
    ensures InitialControl(c).Some? && InitialControl(c).value.FieldControl?
    ensures InitialControl(c).value.multiline <==> c.input == Str("textarea")
    ensures c.input != Str("textarea") ==> InitialControl(c).value.kind == ToStr(c.input)
    ensures InitialControl(c).value.value == TextIfSet(c.inputValue)
    ensures InitialControl(c).value.placeholder == TextIfSet(c.inputPlaceholder)
  {
  }

  /** The attributes copied onto the input element: all of `inputAttributes`,
      except for the radio group, which gets none. */
  function InputAttributes(c: Config): (m: map<string, string>)
    ensures c.input == Str("radio") ==> m == map[]
    ensures c.input != Str("radio") ==> m.Keys == set i | 0 <= i < |c.inputAttributes| :: c.inputAttributes[i].0
  {
    if c.input == Str("radio") then map[] else AttributeMap(c.inputAttributes)
  }

  /** The value a confirm reads from the input: the checked radio's key (or
      `null` when none is checked), the checkbox's checked state, the field's
      current text, or `true` when the dialog has no input. */
  function ConfirmValue(control: Option<Control>): (v: Value)
    ensures control.None? ==> v == Bool(true)
    ensures control.Some? && control.value.RadioControl? ==>
              (v == Null <==> control.value.selected.None? || control.value.selected.value >= |control.value.options|)
    ensures control.Some? && control.value.RadioControl? && control.value.selected.Some?
              && control.value.selected.value < |control.value.options| ==>
              v == Str(control.value.options[control.value.selected.value].0)
    ensures control.Some? && control.value.CheckControl? ==> v == Bool(control.value.checked)
    ensures control.Some? && (control.value.SelectControl? || control.value.FieldControl?) ==> v == Str(control.value.value)
  {
    match control
    case None => Bool(true)
    case Some(SelectControl(_, value, _)) => Str(value)
    case Some(RadioControl(options, selected)) =>
      if selected.Some? && selected.value < |options| then Str(options[selected.value].0) else Null
    case Some(CheckControl(_, checked, _)) => Bool(checked)
    case Some(FieldControl(_, _, _, value)) => Str(value)
  }

  /** A click on the drop-down's item `i`: the hidden value becomes the item's
      key and the box shows its text. */
  function PickItem(c: Control, i: nat): (c': Control)
    ensures c.SelectControl? && i < |c.options| ==>
              ConfirmValue(Some(c')) == Str(c.options[i].0) && c'.SelectControl? && c'.caption == c.options[i].1 && c'.options == c.options
    ensures !(c.SelectControl? && i < |c.options|) ==> c' == c
  {
    if c.SelectControl? && i < |c.options| then SelectControl(c.options, c.options[i].0, c.options[i].1) else c
  }

  /** A click on radio `i`: it becomes the one checked radio of the group. */
  function PickRadio(c: Control, i: nat): (c': Control)
    ensures c.RadioControl? && i < |c.options| ==> ConfirmValue(Some(c')) == Str(c.options[i].0) && c'.RadioControl? && c'.options == c.options
    ensures !(c.RadioControl? && i < |c.options|) ==> c' == c
  {
    if c.RadioControl? && i < |c.options| then RadioControl(c.options, Some(i)) else c
  }

  /** A click on the checkbox or toggle flips it. */
  function Flip(c: Control): (c': Control)
    ensures c.CheckControl? ==> c'.CheckControl? && ConfirmValue(Some(c')) == Bool(!c.checked) && c'.(checked := c.checked) == c
    ensures !c.CheckControl? ==> c' == c
  {
    if c.CheckControl? then CheckControl(c.toggle, !c.checked, c.caption) else c
  }

  /** Typing into a text field or textarea replaces its text. */
  function Type(c: Control, text: string): (c': Control)
    ensures c.FieldControl? ==> ConfirmValue(Some(c')) == Str(text) && c' == c.(value := text)
    ensures !c.FieldControl? ==> c' == c
  {
    if c.FieldControl? then FieldControl(c.multiline, c.kind, c.placeholder, text) else c
  }

  /** A drop-down opened with `inputOptions = {A: "Drive A", C: "Drive C"}`
      and `inputValue = "C"` shows "Drive C" and, confirmed without a change,
      yields "C". */
  lemma SelectConfirmedUnchanged()
    ensures var o := EmptyOptions().(input := Str("select"), inputValue := Str("C"),
                                     inputOptions := Some([("A", "Drive A"), ("C", "Drive C")]));
      var control := InitialControl(Resolve(o));
      control.Some? && control.value.SelectControl? && control.value.caption == "Drive C"
      && ConfirmValue(control) == Str("C")
  {
  }

  /** A checkbox opened with `inputValue = false`, clicked once and confirmed
      yields `true`. */
  lemma CheckboxFlippedOnce()
    ensures var o := EmptyOptions().(input := Str("checkbox"), inputValue := Bool(false));
      var control := InitialControl(Resolve(o));
      control.Some? && ConfirmValue(Some(Flip(control.value))) == Bool(true)
  {
  }
}
