/** Dragging a dialog box by its title bar: a press records where the
    pointer and the box were, each move puts the box at its start position
    plus the pointer's travel, and a release stops following the pointer. */
module Drag {
  import opened JsValues

  /** The drag handler's closure state and the box's inline position. */
  datatype DragState = DragState(
    dragging: bool,
    startX: real, startY: real,
    initialX: real, initialY: real,
    left: Option<real>, top: Option<real>)

  /** Before any press: not dragging, the box where the layout puts it. */
  function Idle(): (d: DragState)
    ensures !d.dragging && d.left.None? && d.top.None?
  {
    DragState(false, 0.0, 0.0, 0.0, 0.0, None, None)
  }

  /** A press on the title bar at (x, y), with the box's rectangle at
      (boxLeft, boxTop). A press on the close button does not start a drag. */
  function Press(d: DragState, x: real, y: real, onCloseButton: bool, boxLeft: real, boxTop: real): (d': DragState)
    ensures onCloseButton ==> d' == d
    ensures !onCloseButton ==>
              && d'.dragging && d'.left == Some(boxLeft) && d'.top == Some(boxTop)
              && d'.startX == x && d'.startY == y && d'.initialX == boxLeft && d'.initialY == boxTop
  {
    if onCloseButton then d
    else DragState(true, x, y, boxLeft, boxTop, Some(boxLeft), Some(boxTop))
  }

  /** A pointer move to (x, y) anywhere in the document. */
  function Move(d: DragState, x: real, y: real): (d': DragState)
    ensures !d.dragging ==> d' == d
    ensures d.dragging ==>
              d'.left == Some(d.initialX + (x - d.startX)) && d'.top == Some(d.initialY + (y - d.startY))
    ensures d'.dragging == d.dragging && d'.startX == d.startX && d'.startY == d.startY
    ensures d'.initialX == d.initialX && d'.initialY == d.initialY
  {
    if !d.dragging then d
    else d.(left := Some(d.initialX + (x - d.startX)), top := Some(d.initialY + (y - d.startY)))
  }

  /** A pointer release anywhere in the document. */
  function Release(d: DragState): (d': DragState)
    ensures !d'.dragging && d'.left == d.left && d'.top == d.top
  {
    d.(dragging := false)
  }

  /** A sequence of pointer moves, in order. */
  function MoveAll(d: DragState, points: seq<(real, real)>): DragState
    decreases |points|
  {
    if |points| == 0 then d else MoveAll(Move(d, points[0].0, points[0].1), points[1..])
  }

  /** During a drag the box follows the pointer: after any moves it sits at
      its position at the press plus the last point's distance from the
      press point, so the intermediate points do not matter. */
  lemma {:induction false} DragFollowsPointer(d: DragState, points: seq<(real, real)>)
    requires d.dragging && |points| > 0
    ensures var last := points[|points| - 1];
      && MoveAll(d, points).dragging
      && MoveAll(d, points).left == Some(d.initialX + (last.0 - d.startX))
      && MoveAll(d, points).top == Some(d.initialY + (last.1 - d.startY))
    decreases |points|
  {
    if |points| > 1 {
      var d1 := Move(d, points[0].0, points[0].1);
      DragFollowsPointer(d1, points[1..]);
      assert points[1..][|points[1..]| - 1] == points[|points| - 1];
    }
  }

  /** After a release, moves no longer change the box. */
  lemma {:induction false} ReleasedIgnoresMoves(d: DragState, points: seq<(real, real)>)
    requires !d.dragging
    ensures MoveAll(d, points) == d
    decreases |points|
  {
    if |points| > 0 {
      ReleasedIgnoresMoves(Move(d, points[0].0, points[0].1), points[1..]);
    }
  }
}
