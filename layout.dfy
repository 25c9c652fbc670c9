/** Content layout: the blocks a configuration puts into the dialog box, in
    the order they are appended, and the action buttons in their row. Markup,
    SVG glyphs, class names and inline styles are abstracted away. */
module Layout {
  import opened JsValues
  import opened Resolver
  import opened Inputs

  /** The built-in glyphs, or the caller's own markup (`iconHtml`). */
  datatype Glyph = WarningGlyph | DangerGlyph | InfoGlyph | SuccessGlyph | QuestionGlyph | CustomGlyph(html: string)

  datatype Body = NoBody | HtmlBody(html: string) | TextBody(text: string)

  datatype Role = CancelRole | DenyRole | ConfirmRole

  datatype Button = Button(role: Role, caption: string, ariaLabel: string)

  /** The children of the dialog's body container. */
  datatype Block =
    | ImageBlock(url: string, alt: string, width: string, height: string)
    | IconBlock(typeClass: string, glyph: Glyph)
    | ContentBlock(title: Option<string>, body: Body)
    | ToastCloseBlock
    | InputBlock(control: Control, attributes: map<string, string>)
    | ActionsBlock(buttons: seq<Button>)
    | FooterBlock(html: string)

  /** The title bar: whether it holds the close icon and acts as drag handle. */
  datatype Header = Header(closeButton: bool, dragHandle: bool)

  /** The dialog box: an optional progress bar (its duration in
      milliseconds), the title bar and the body's blocks. */
  datatype View = View(progressBar: Option<int>, header: Header, body: seq<Block>)

  /** The position of each kind of block in the fixed order image, icon,
      title/text, toast close button, input, actions, footer. */
  function Rank(b: Block): nat {
    match b
    case ImageBlock(_, _, _, _) => 0
    case IconBlock(_, _) => 1
    case ContentBlock(_, _) => 2
    case ToastCloseBlock => 3
    case InputBlock(_, _) => 4
    case ActionsBlock(_) => 5
    case FooterBlock(_) => 6
  }

  function RoleRank(r: Role): nat {
    match r
    case CancelRole => 0
    case DenyRole => 1
    case ConfirmRole => 2
  }

  /** Blocks appear in the fixed order, each kind at most once. */
  ghost predicate InOrder(blocks: seq<Block>) {
    forall i, j :: 0 <= i < j < |blocks| ==> Rank(blocks[i]) < Rank(blocks[j])
  }

  ghost predicate RolesInOrder(buttons: seq<Button>) {
    forall i, j :: 0 <= i < j < |buttons| ==> RoleRank(buttons[i].role) < RoleRank(buttons[j].role)
  }

  /** Some block of the given kind is present. */
  predicate HasKind(blocks: seq<Block>, rank: nat) {
    exists b :: b in blocks && Rank(b) == rank
  }

  predicate HasRole(buttons: seq<Button>, role: Role) {
    exists b :: b in buttons && b.role == role
  }

  ghost predicate RanksBelow(blocks: seq<Block>, k: nat) {
    forall b :: b in blocks ==> Rank(b) < k
  }

  /** At most one block, of the given kind. */
  ghost predicate SingleOfRank(part: seq<Block>, k: nat) {
    |part| <= 1 && forall b :: b in part ==> Rank(b) == k
  }

  /** The icon names that have a built-in glyph. */
  predicate KnownIcon(icon: Value) {
    icon in {Str("warning"), Str("danger"), Str("error"), Str("info"), Str("success"), Str("question")}
  }

  /** The glyph an icon block shows, if any: the custom markup first, then
      the built-in glyph of a known name ('error' shares the danger glyph). */
  function GlyphOf(c: Config): (g: Option<Glyph>)
    ensures g.Some? <==> Truthy(c.iconHtml) || KnownIcon(c.icon)
    ensures Truthy(c.iconHtml) ==> g == Some(CustomGlyph(ToStr(c.iconHtml)))
    ensures c.icon == Str("error") && !Truthy(c.iconHtml) ==> g == Some(DangerGlyph)
  {
    if Truthy(c.iconHtml) then Some(CustomGlyph(ToStr(c.iconHtml)))
    else if c.icon == Str("warning") then Some(WarningGlyph)
    else if c.icon == Str("danger") || c.icon == Str("error") then Some(DangerGlyph)
    else if c.icon == Str("info") then Some(InfoGlyph)
    else if c.icon == Str("success") then Some(SuccessGlyph)
    else if c.icon == Str("question") then Some(QuestionGlyph)
    else None
  }

  function ImagePart(c: Config): (part: seq<Block>)
    ensures SingleOfRank(part, 0) && (|part| == 1 <==> Truthy(c.imageUrl))
    ensures |part| == 1 ==>
              part[0] == ImageBlock(ToStr(c.imageUrl), TextIfSet(c.imageAlt), TextIfSet(c.imageWidth), TextIfSet(c.imageHeight))
  {
    if Truthy(c.imageUrl)
    then [ImageBlock(ToStr(c.imageUrl), TextIfSet(c.imageAlt), TextIfSet(c.imageWidth), TextIfSet(c.imageHeight))]
    else []
  }

  /** An icon block needs a truthy `icon` and a glyph for it. */
  function IconPart(c: Config): (part: seq<Block>)
    ensures SingleOfRank(part, 1) && (|part| == 1 <==> Truthy(c.icon) && (Truthy(c.iconHtml) || KnownIcon(c.icon)))
    ensures |part| == 1 ==>
              GlyphOf(c).Some? && part[0] == IconBlock(if c.icon == Str("error") then "danger" else ToStr(c.icon), GlyphOf(c).value)
  {
    var g := GlyphOf(c);
    if Truthy(c.icon) && g.Some?
    then [IconBlock(if c.icon == Str("error") then "danger" else ToStr(c.icon), g.value)]
    else []
  }

  /** The title/text wrapper: the title when truthy, and the HTML body,
      which takes precedence over the plain text. */
  function ContentPart(c: Config): (part: seq<Block>)
    ensures SingleOfRank(part, 2) && (|part| == 1 <==> Truthy(c.title) || Truthy(c.html) || Truthy(c.text))
    ensures |part| == 1 ==> part[0].ContentBlock? && part[0].title == (if Truthy(c.title) then Some(ToStr(c.title)) else None)
    ensures |part| == 1 && Truthy(c.html) ==> part[0].ContentBlock? && part[0].body == HtmlBody(ToStr(c.html))
    ensures |part| == 1 && !Truthy(c.html) && Truthy(c.text) ==> part[0].ContentBlock? && part[0].body == TextBody(ToStr(c.text))
    ensures |part| == 1 && !Truthy(c.html) && !Truthy(c.text) ==> part[0].ContentBlock? && part[0].body == NoBody
  {
    if Truthy(c.title) || Truthy(c.html) || Truthy(c.text)
    then
      var title := if Truthy(c.title) then Some(ToStr(c.title)) else None;
      var body := if Truthy(c.html) then HtmlBody(ToStr(c.html))
                  else if Truthy(c.text) then TextBody(ToStr(c.text))
                  else NoBody;
      [ContentBlock(title, body)]
    else []
  }

  function ToastClosePart(c: Config): (part: seq<Block>)
    ensures SingleOfRank(part, 3) && (|part| == 1 <==> Truthy(c.toast) && Truthy(c.showCloseButton))
  {
    if Truthy(c.toast) && Truthy(c.showCloseButton) then [ToastCloseBlock] else []
  }

  function InputPart(c: Config): (part: seq<Block>)
    ensures SingleOfRank(part, 4) && (|part| == 1 <==> Truthy(c.input))
    ensures |part| == 1 ==>
              InitialControl(c).Some? && part[0] == InputBlock(InitialControl(c).value, InputAttributes(c))
  {
    var control := InitialControl(c);
    if control.Some? then [InputBlock(control.value, InputAttributes(c))] else []
  }

  /** The action buttons, in the order cancel, deny, confirm. */
  function Buttons(c: Config): (buttons: seq<Button>)
    ensures RolesInOrder(buttons)
    ensures HasRole(buttons, CancelRole) <==> Truthy(c.showCancelButton)
    ensures HasRole(buttons, DenyRole) <==> Truthy(c.showDenyButton)
    ensures HasRole(buttons, ConfirmRole) <==> c.showConfirmButton
    ensures forall b :: b in buttons && b.role == ConfirmRole ==> b.caption == ToStr(c.confirmButtonText)
  {
    (if Truthy(c.showCancelButton) then [Button(CancelRole, ToStr(c.cancelButtonText), TextIfSet(c.cancelButtonAriaLabel))] else [])
    + (if Truthy(c.showDenyButton) then [Button(DenyRole, ToStr(c.denyButtonText), TextIfSet(c.denyButtonAriaLabel))] else [])
    + (if c.showConfirmButton then [Button(ConfirmRole, ToStr(c.confirmButtonText), TextIfSet(c.confirmButtonAriaLabel))] else [])
  }

  /** Each shown button carries its role's caption and, when set, its aria
      label. */
  lemma ButtonLabels(c: Config)
    ensures forall b :: b in Buttons(c) && b.role == CancelRole ==>
              b.caption == ToStr(c.cancelButtonText) && b.ariaLabel == TextIfSet(c.cancelButtonAriaLabel)
    ensures forall b :: b in Buttons(c) && b.role == DenyRole ==>
              b.caption == ToStr(c.denyButtonText) && b.ariaLabel == TextIfSet(c.denyButtonAriaLabel)
    ensures forall b :: b in Buttons(c) && b.role == ConfirmRole ==>
              b.caption == ToStr(c.confirmButtonText) && b.ariaLabel == TextIfSet(c.confirmButtonAriaLabel)
  {
  }

  /** The actions row is added only when at least one button is shown. */
  function ActionsPart(c: Config): (part: seq<Block>)
    ensures SingleOfRank(part, 5) && (|part| == 1 <==> Truthy(c.showCancelButton) || Truthy(c.showDenyButton) || c.showConfirmButton)
    ensures forall b :: b in part ==> b == ActionsBlock(Buttons(c))
  {
    if Truthy(c.showCancelButton) || Truthy(c.showDenyButton) || c.showConfirmButton
    then [ActionsBlock(Buttons(c))]
    else []
  }

  function FooterPart(c: Config): (part: seq<Block>)
    ensures SingleOfRank(part, 6) && (|part| == 1 <==> Truthy(c.footer))
    ensures |part| == 1 ==> part[0] == FooterBlock(ToStr(c.footer))
  {
    if Truthy(c.footer) then [FooterBlock(ToStr(c.footer))] else []
  }

  /** The body's blocks, in the order the builder appends them. */
  function Assemble(c: Config): seq<Block> {
    ImagePart(c) + IconPart(c) + ContentPart(c) + ToastClosePart(c) + InputPart(c) + ActionsPart(c) + FooterPart(c)
  }

  /** The body's blocks, in the fixed order. */
  function BodyBlocks(c: Config): (blocks: seq<Block>)
    ensures InOrder(blocks)
    ensures forall b :: b in blocks && b.ActionsBlock? ==> b.buttons == Buttons(c)
  {
    PartsInOrder(c);
    ActionsFromActionsPart(c);
    Assemble(c)
  }

  /** Each kind of block is present exactly when the configuration asks for it. */
  lemma BodyKinds(c: Config)
    ensures var blocks := BodyBlocks(c);
      && (HasKind(blocks, 0) <==> Truthy(c.imageUrl))
      && (HasKind(blocks, 1) <==> Truthy(c.icon) && (Truthy(c.iconHtml) || KnownIcon(c.icon)))
      && (HasKind(blocks, 2) <==> Truthy(c.title) || Truthy(c.html) || Truthy(c.text))
      && (HasKind(blocks, 3) <==> Truthy(c.toast) && Truthy(c.showCloseButton))
      && (HasKind(blocks, 4) <==> Truthy(c.input))
      && (HasKind(blocks, 5) <==> Truthy(c.showCancelButton) || Truthy(c.showDenyButton) || c.showConfirmButton)
      && (HasKind(blocks, 6) <==> Truthy(c.footer))
  {
    KindPresence(c, 0);
    KindPresence(c, 1);
    KindPresence(c, 2);
    KindPresence(c, 3);
    KindPresence(c, 4);
    KindPresence(c, 5);
    KindPresence(c, 6);
  }

  function PartOfRank(c: Config, k: nat): seq<Block>
    requires k <= 6
  {
    [ImagePart(c), IconPart(c), ContentPart(c), ToastClosePart(c), InputPart(c), ActionsPart(c), FooterPart(c)][k]
  }

  /** A kind is present in the body exactly when its part is not empty. */
  lemma KindPresence(c: Config, k: nat)
    requires k <= 6
    ensures HasKind(Assemble(c), k) <==> |PartOfRank(c, k)| == 1
  {
    var p0, p1, p2, p3 := ImagePart(c), IconPart(c), ContentPart(c), ToastClosePart(c);
    var p4, p5, p6 := InputPart(c), ActionsPart(c), FooterPart(c);
    HasKindConcat(p0, p1, k);
    HasKindConcat(p0 + p1, p2, k);
    HasKindConcat(p0 + p1 + p2, p3, k);
    HasKindConcat(p0 + p1 + p2 + p3, p4, k);
    HasKindConcat(p0 + p1 + p2 + p3 + p4, p5, k);
    HasKindConcat(p0 + p1 + p2 + p3 + p4 + p5, p6, k);
    HasKindSingle(p0, 0, k);
    HasKindSingle(p1, 1, k);
    HasKindSingle(p2, 2, k);
    HasKindSingle(p3, 3, k);
    HasKindSingle(p4, 4, k);
    HasKindSingle(p5, 5, k);
    HasKindSingle(p6, 6, k);
  }

  /** A kind is present in a concatenation exactly when it is in one half. */
  lemma HasKindConcat(a: seq<Block>, b: seq<Block>, k: nat)
    ensures HasKind(a + b, k) <==> HasKind(a, k) || HasKind(b, k)
  {
    if HasKind(a + b, k) {
      var x :| x in a + b && Rank(x) == k;
      assert x in a || x in b;
    }
    if HasKind(a, k) {
      var x :| x in a && Rank(x) == k;
      assert x in a + b;
    }
    if HasKind(b, k) {
      var x :| x in b && Rank(x) == k;
      assert x in a + b;
    }
  }

  /** A part of one kind holds that kind exactly when it is not empty. */
  lemma HasKindSingle(part: seq<Block>, r: nat, k: nat)
    requires SingleOfRank(part, r)
    ensures HasKind(part, k) <==> |part| == 1 && r == k
  {
    if |part| == 1 {
      assert part[0] in part;
    }
  }

  /** Appending a block of a later kind keeps the order. */
  lemma AppendPart(blocks: seq<Block>, part: seq<Block>, k: nat)
    requires InOrder(blocks) && RanksBelow(blocks, k) && SingleOfRank(part, k)
    ensures InOrder(blocks + part) && RanksBelow(blocks + part, k + 1)
  {
    forall i, j | 0 <= i < j < |blocks + part|
      ensures Rank((blocks + part)[i]) < Rank((blocks + part)[j])
    {
      assert (blocks + part)[i] in blocks + part;
      if j >= |blocks| {
        assert (blocks + part)[j] in part;
        assert i < |blocks| && (blocks + part)[i] in blocks;
      } else {
        assert blocks[i] == (blocks + part)[i] && blocks[j] == (blocks + part)[j];
      }
    }
  }

  lemma PartsInOrder(c: Config)
    ensures RanksBelow(ImagePart(c) + IconPart(c) + ContentPart(c) + ToastClosePart(c) + InputPart(c), 5)
    ensures InOrder(ImagePart(c) + IconPart(c) + ContentPart(c) + ToastClosePart(c) + InputPart(c) + ActionsPart(c) + FooterPart(c))
  {
    assert ImagePart(c) == [] + ImagePart(c);
    AppendPart([], ImagePart(c), 0);
    AppendPart(ImagePart(c), IconPart(c), 1);
    AppendPart(ImagePart(c) + IconPart(c), ContentPart(c), 2);
    AppendPart(ImagePart(c) + IconPart(c) + ContentPart(c), ToastClosePart(c), 3);
    AppendPart(ImagePart(c) + IconPart(c) + ContentPart(c) + ToastClosePart(c), InputPart(c), 4);
    AppendPart(ImagePart(c) + IconPart(c) + ContentPart(c) + ToastClosePart(c) + InputPart(c), ActionsPart(c), 5);
    AppendPart(ImagePart(c) + IconPart(c) + ContentPart(c) + ToastClosePart(c) + InputPart(c) + ActionsPart(c), FooterPart(c), 6);
  }

  /** The only actions row of the body is the one of `ActionsPart`. */
  lemma ActionsFromActionsPart(c: Config)
    ensures forall b :: b in Assemble(c) && b.ActionsBlock? ==> b == ActionsBlock(Buttons(c))
  {
    PartsInOrder(c);
    var front := ImagePart(c) + IconPart(c) + ContentPart(c) + ToastClosePart(c) + InputPart(c);
    assert Assemble(c) == front + ActionsPart(c) + FooterPart(c);
    forall b | b in Assemble(c) && b.ActionsBlock?
      ensures b == ActionsBlock(Buttons(c))
    {
      assert Rank(b) == 5;
      assert b !in front && b !in FooterPart(c);
    }
  }

  /** The builder: it appends the body's children one by one, running the
      option loops of the drop-down and the radio group and the attribute
      loop, and yields exactly the specified blocks. */
  method BuildBody(c: Config) returns (body: seq<Block>)
    ensures body == BodyBlocks(c)
  {
    var image := BuildImage(c);
    var icon := BuildIcon(c);
    var content := BuildContent(c);
    var toastClose := BuildToastClose(c);
    var input := BuildInput(c);
    var actions := BuildActions(c);
    var footer := BuildFooter(c);
    body := image;
    body := body + icon;
    body := body + content;
    body := body + toastClose;
    body := body + input;
    body := body + actions;
    body := body + footer;
    assert body == Assemble(c);
  }

  /** The image, when `imageUrl` is set. */
  method BuildImage(c: Config) returns (part: seq<Block>)
    ensures part == ImagePart(c)
  {
    part := [];
    if Truthy(c.imageUrl) {
      part := [ImageBlock(ToStr(c.imageUrl), TextIfSet(c.imageAlt), TextIfSet(c.imageWidth), TextIfSet(c.imageHeight))];
    }
  }

  /** The icon, when `icon` is set and has a glyph. */
  method BuildIcon(c: Config) returns (part: seq<Block>)
    ensures part == IconPart(c)
  {
    part := [];
    if Truthy(c.icon) {
      var glyph := GlyphOf(c);
      if glyph.Some? {
        var typeClass := if c.icon == Str("error") then "danger" else ToStr(c.icon);
        part := [IconBlock(typeClass, glyph.value)];
      }
    }
  }

  /** The toast's own close button. */
  method BuildToastClose(c: Config) returns (part: seq<Block>)
    ensures part == ToastClosePart(c)
  {
    part := [];
    if Truthy(c.toast) && Truthy(c.showCloseButton) {
      part := [ToastCloseBlock];
    }
  }

  /** The actions row, when some button is shown. */
  method BuildActions(c: Config) returns (part: seq<Block>)
    ensures part == ActionsPart(c)
  {
    part := [];
    var buttons := BuildButtons(c);
    if Truthy(c.showCancelButton) || Truthy(c.showDenyButton) || c.showConfirmButton {
      part := [ActionsBlock(buttons)];
    }
  }

  /** The footer, when `footer` is set. */
  method BuildFooter(c: Config) returns (part: seq<Block>)
    ensures part == FooterPart(c)
  {
    part := [];
    if Truthy(c.footer) {
      part := [FooterBlock(ToStr(c.footer))];
    }
  }

  /** The title/text wrapper: the title, then the HTML or else the text. */
  method BuildContent(c: Config) returns (part: seq<Block>)
    ensures part == ContentPart(c)
  {
    part := [];
    if Truthy(c.title) || Truthy(c.html) || Truthy(c.text) {
      var title := None;
      if Truthy(c.title) {
        title := Some(ToStr(c.title));
      }
      var text := NoBody;
      if Truthy(c.html) {
        text := HtmlBody(ToStr(c.html));
      } else if Truthy(c.text) {
        text := TextBody(ToStr(c.text));
      }
      part := [ContentBlock(title, text)];
    }
  }

  /** The input container: the control built with its option loop, and the
      attributes copied by the attribute loop. */
  method BuildInput(c: Config) returns (part: seq<Block>)
    ensures part == InputPart(c)
  {
    part := [];
    if Truthy(c.input) {
      var control;
      if c.input == Str("select") {
        var caption := InitialSelectLabel(c.inputOptions, c.inputValue, ToStr(Or(c.inputPlaceholder, Str("-- Select --"))));
        control := SelectControl(c.inputOptions, ToStr(c.inputValue), caption);
      } else if c.input == Str("radio") {
        var selected := InitialRadio(c.inputOptions, c.inputValue);
        control := RadioControl(c.inputOptions, selected);
      } else if c.input == Str("checkbox") || c.input == Str("toggle") {
        var toggle := c.input == Str("toggle");
        var caption := if toggle then TextIfSet(c.inputPlaceholder) else ToStr(Or(c.inputPlaceholder, Str("Check me")));
        control := CheckControl(toggle, Truthy(c.inputValue), caption);
      } else if c.input == Str("textarea") {
        control := FieldControl(true, "textarea", TextIfSet(c.inputPlaceholder), TextIfSet(c.inputValue));
      } else {
        control := FieldControl(false, ToStr(c.input), TextIfSet(c.inputPlaceholder), TextIfSet(c.inputValue));
      }
      assert InitialControl(c) == Some(control);
      var attributes := map[];
      if c.input != Str("radio") {
        attributes := ApplyAttributes(c.inputAttributes);
      }
      part := [InputBlock(control, attributes)];
    }
  }

  /** The action row's buttons, appended cancel, deny, confirm. */
  method BuildButtons(c: Config) returns (buttons: seq<Button>)
    ensures buttons == Buttons(c)
  {
    var cancel := Button(CancelRole, ToStr(c.cancelButtonText), TextIfSet(c.cancelButtonAriaLabel));
    var deny := Button(DenyRole, ToStr(c.denyButtonText), TextIfSet(c.denyButtonAriaLabel));
    var confirm := Button(ConfirmRole, ToStr(c.confirmButtonText), TextIfSet(c.confirmButtonAriaLabel));
    buttons := [];
    if Truthy(c.showCancelButton) {
      buttons := buttons + [cancel];
    }
    assert buttons == (if Truthy(c.showCancelButton) then [cancel] else []);
    if Truthy(c.showDenyButton) {
      buttons := buttons + [deny];
    }
    assert buttons == (if Truthy(c.showCancelButton) then [cancel] else [])
                      + (if Truthy(c.showDenyButton) then [deny] else []);
    if c.showConfirmButton {
      buttons := buttons + [confirm];
    }
  }

  /** The dialog box a configuration yields: a progress bar running for the
      timer's duration when one is asked for, the title bar, and the body. */
  function ViewOf(c: Config): (v: View)
    ensures v.progressBar.Some? <==> c.timer.Some? && Truthy(c.timerProgressBar)
    ensures v.progressBar.Some? ==> v.progressBar == c.timer
    ensures v.header.closeButton <==> Truthy(c.showCloseButton)
    ensures v.header.dragHandle <==> Truthy(c.draggable)
    ensures v.body == BodyBlocks(c) && InOrder(v.body)
  {
    View(if c.timer.Some? && Truthy(c.timerProgressBar) then c.timer else None,
         Header(Truthy(c.showCloseButton), Truthy(c.draggable)),
         BodyBlocks(c))
  }
}
