/** Tooltip placement: where the tooltip for a hovered or focused element
    goes, next to the element on the requested side and kept inside the
    viewport. */
module Tooltips {
  import opened JsValues

  /** The gap between the element and its tooltip, and the viewport margin. */
  const Offset: real := 10.0

  /** A bounding rectangle in viewport coordinates. */
  datatype Rect = Rect(left: real, top: real, width: real, height: real)

  /** The element's tooltip attributes; `None` is an absent attribute. */
  datatype TooltipAttrs = TooltipAttrs(message: Option<string>, position: Option<string>, color: Option<string>)

  /** The shown tooltip: its markup, its side and colour classes, and its
      position in page coordinates. */
  datatype Tooltip = Tooltip(html: string, side: string, color: string, top: real, left: real)

  /** The position before clamping, as (top, left). The four sides put the
      tooltip beside the element, centred on it; any other side leaves
      (0, 0). */
  function RawPlacement(side: string, target: Rect, tipWidth: real, tipHeight: real): (p: (real, real))
    ensures side == "top" ==> p.0 + tipHeight + Offset == target.top
    ensures side == "bottom" ==> p.0 == target.top + target.height + Offset
    ensures side == "left" ==> p.1 + tipWidth + Offset == target.left
    ensures side == "right" ==> p.1 == target.left + target.width + Offset
    ensures side == "top" || side == "bottom" ==> p.1 + tipWidth / 2.0 == target.left + target.width / 2.0
    ensures side == "left" || side == "right" ==> p.0 + tipHeight / 2.0 == target.top + target.height / 2.0
    ensures side !in {"top", "bottom", "left", "right"} ==> p == (0.0, 0.0)
  {
    if side == "top" then
      (target.top - tipHeight - Offset, target.left + target.width / 2.0 - tipWidth / 2.0)
    else if side == "bottom" then
      (target.top + target.height + Offset, target.left + target.width / 2.0 - tipWidth / 2.0)
    else if side == "left" then
      (target.top + target.height / 2.0 - tipHeight / 2.0, target.left - tipWidth - Offset)
    else if side == "right" then
      (target.top + target.height / 2.0 - tipHeight / 2.0, target.left + target.width + Offset)
    else (0.0, 0.0)
  }

  /** The boundary constraints, applied in order: left and top at least the
      margin, then the right edge pulled inside the viewport, which wins over
      the left margin when the tooltip is too wide. */
  function Clamp(top: real, left: real, tipWidth: real, innerWidth: real): (p: (real, real))
    ensures p.0 >= Offset
    ensures p.1 + tipWidth <= innerWidth - Offset
    ensures p.1 >= Offset <==> tipWidth <= innerWidth - 2.0 * Offset
    ensures top >= Offset ==> p.0 == top
    ensures Offset <= left && left + tipWidth <= innerWidth - Offset ==> p.1 == left
  {
    var left1 := if left < Offset then Offset else left;
    var top1 := if top < Offset then Offset else top;
    var left2 := if left1 + tipWidth > innerWidth - Offset then innerWidth - tipWidth - Offset else left1;
    (top1, left2)
  }

  /** The tooltip shown for an element: none when its message is absent or
      empty; otherwise the message on the requested side (default 'top') in
      the requested colour (default 'yellow'), clamped to the viewport and
      shifted by the page scroll. */
  function ShowTooltip(attrs: TooltipAttrs, target: Rect, tipWidth: real, tipHeight: real,
                       innerWidth: real, scrollX: real, scrollY: real): (t: Option<Tooltip>)
    ensures t.Some? <==> attrs.message.Some? && attrs.message.value != ""
    ensures t.Some? ==> t.value.html == attrs.message.value
    ensures t.Some? ==> t.value.side == (if attrs.position.Some? && attrs.position.value != "" then attrs.position.value else "top")
    ensures t.Some? ==> t.value.color == (if attrs.color.Some? && attrs.color.value != "" then attrs.color.value else "yellow")
    ensures t.Some? ==> var raw := RawPlacement(t.value.side, target, tipWidth, tipHeight);
      var p := Clamp(raw.0, raw.1, tipWidth, innerWidth);
      t.value.top == p.0 + scrollY && t.value.left == p.1 + scrollX
    ensures t.Some? ==> t.value.top >= Offset + scrollY && t.value.left + tipWidth <= innerWidth - Offset + scrollX
  {
    if attrs.message.None? || attrs.message.value == "" then None
    else
      var side := if attrs.position.Some? && attrs.position.value != "" then attrs.position.value else "top";
      var color := if attrs.color.Some? && attrs.color.value != "" then attrs.color.value else "yellow";
      var raw := RawPlacement(side, target, tipWidth, tipHeight);
      var p := Clamp(raw.0, raw.1, tipWidth, innerWidth);
      Some(Tooltip(attrs.message.value, side, color, p.0 + scrollY, p.1 + scrollX))
  }

  /** A tooltip that fits above its element, away from the viewport edges,
      sits exactly there: the clamp only moves tooltips that would leave the
      viewport. */
  lemma FittingTooltipUnmoved(target: Rect, tipWidth: real, tipHeight: real, innerWidth: real)
    requires target.top - tipHeight - Offset >= Offset
    requires var left := target.left + target.width / 2.0 - tipWidth / 2.0;
      Offset <= left && left + tipWidth <= innerWidth - Offset
    ensures var t := ShowTooltip(TooltipAttrs(Some("hi"), None, None), target, tipWidth, tipHeight, innerWidth, 0.0, 0.0);
      t.Some? && t.value.top + tipHeight + Offset == target.top
      && t.value.left + tipWidth / 2.0 == target.left + target.width / 2.0
  {
  }
}
