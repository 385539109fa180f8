// frontend/components/ResizableContainer.tsx: the desktop frame around the
// app that the user resizes by dragging one of its eight handles. A drag
// records the mouse and the size at mousedown; every move recomputes the
// size from those and the mouse's total offset, clamped to the bounds.

module Resize {

  function Max(a: int, b: int): int {
    if a >= b then a else b
  }

  function Min(a: int, b: int): int {
    if a <= b then a else b
  }

  /** `Math.max(lo, Math.min(hi, v))`. */
  function Clamp(lo: int, hi: int, v: int): (r: int)
    ensures r >= lo
    ensures lo <= hi ==> r <= hi
    ensures lo <= v <= hi ==> r == v
  {
    Max(lo, Min(hi, v))
  }

  datatype Bounds = Bounds(minWidth: int, minHeight: int, maxWidth: int, maxHeight: int)

  /** The component's default bounds. */
  const DefaultBounds: Bounds := Bounds(375, 477, 1200, 830)

  /** The size for a drag in `direction` from `(startWidth, startHeight)` by the
      mouse offset `(dx, dy)`: `e` then `w` set the width, `s` then `n` the
      height, so `w` and `n` win when both letters of an axis are present. */
  function NewSize(b: Bounds, startWidth: int, startHeight: int, direction: string, dx: int, dy: int): (int, int) {
    var w0 := startWidth;
    var w1 := if 'e' in direction then Clamp(b.minWidth, b.maxWidth, startWidth + dx) else w0;
    var w2 := if 'w' in direction then Clamp(b.minWidth, b.maxWidth, startWidth - dx) else w1;
    var h0 := startHeight;
    var h1 := if 's' in direction then Clamp(b.minHeight, b.maxHeight, startHeight + dy) else h0;
    var h2 := if 'n' in direction then Clamp(b.minHeight, b.maxHeight, startHeight - dy) else h1;
    (w2, h2)
  }

  /** Each letter moves its edge with the mouse; a resized dimension stays in
      its bounds; a dimension without its letters keeps its start value. */
  lemma NewSizeSpec(b: Bounds, startWidth: int, startHeight: int, direction: string, dx: int, dy: int)
    requires b.minWidth <= b.maxWidth && b.minHeight <= b.maxHeight
    ensures var (w, h) := NewSize(b, startWidth, startHeight, direction, dx, dy);
      && ('e' in direction || 'w' in direction ==> b.minWidth <= w <= b.maxWidth)
      && ('n' in direction || 's' in direction ==> b.minHeight <= h <= b.maxHeight)
      && ('w' in direction ==> w == Clamp(b.minWidth, b.maxWidth, startWidth - dx))
      && ('e' in direction && 'w' !in direction ==> w == Clamp(b.minWidth, b.maxWidth, startWidth + dx))
      && ('n' in direction ==> h == Clamp(b.minHeight, b.maxHeight, startHeight - dy))
      && ('s' in direction && 'n' !in direction ==> h == Clamp(b.minHeight, b.maxHeight, startHeight + dy))
      && ('e' !in direction && 'w' !in direction ==> w == startWidth)
      && ('n' !in direction && 's' !in direction ==> h == startHeight)
  {
  }

  /** A mouse back at its mousedown position restores a size that was within
      the bounds, whatever the handle and whatever moves came before. */
  lemma DragBackRestores(b: Bounds, startWidth: int, startHeight: int, direction: string)
    requires b.minWidth <= startWidth <= b.maxWidth && b.minHeight <= startHeight <= b.maxHeight
    ensures NewSize(b, startWidth, startHeight, direction, 0, 0) == (startWidth, startHeight)
  {
  }

  /** `getCursor`: the cursor for a handle, `default` for anything else. */
  function Cursor(direction: string): string {
    if direction == "n" || direction == "s" then "ns-resize"
    else if direction == "e" || direction == "w" then "ew-resize"
    else if direction == "ne" || direction == "sw" then "nesw-resize"
    else if direction == "nw" || direction == "se" then "nwse-resize"
    else "default"
  }

  /** The eight handles of the frame. */
  const Handles: seq<string> := ["nw", "ne", "sw", "se", "n", "s", "e", "w"]

  /** The cursor of a handle shows the axes it resizes: vertical for `n` and `s`,
      horizontal for `e` and `w`, a diagonal for corners, slanted along the
      corner's own diagonal; the empty direction of an idle frame has the
      default cursor. */
  lemma CursorMatchesAxes(direction: string)
    requires direction in Handles
    ensures var vertical, horizontal := 'n' in direction || 's' in direction, 'e' in direction || 'w' in direction;
      && (Cursor(direction) == "ns-resize" <==> vertical && !horizontal)
      && (Cursor(direction) == "ew-resize" <==> horizontal && !vertical)
      && (Cursor(direction) == "nwse-resize" <==> direction == "nw" || direction == "se")
      && (Cursor(direction) == "nesw-resize" <==> direction == "ne" || direction == "sw")
    ensures Cursor("") == "default"
  {
  }

  /** The frame's state: its size, whether a drag is on, the drag's handle and
      the mouse position and size recorded at mousedown. */
  class Frame {
    const bounds: Bounds
    var width: int
    var height: int
    var isResizing: bool
    var resizeDirection: string
    var startX: int
    var startY: int
    var startWidth: int
    var startHeight: int

    /** An idle frame has no handle. */
    ghost predicate Valid()
      reads this
    {
      !isResizing ==> resizeDirection == ""
    }

    constructor (bounds: Bounds, defaultWidth: int, defaultHeight: int)
      ensures Valid() && this.bounds == bounds
      ensures width == defaultWidth && height == defaultHeight && !isResizing
      ensures startX == 0 && startY == 0 && startWidth == 0 && startHeight == 0
    {
      this.bounds := bounds;
      width := defaultWidth;
      height := defaultHeight;
      isResizing := false;
      resizeDirection := "";
      startX, startY, startWidth, startHeight := 0, 0, 0, 0;
    }

    /** `handleMouseDown`: a drag starts on a handle at mouse `(x, y)`. */
    method MouseDown(direction: string, x: int, y: int)
      modifies this
      ensures Valid() && isResizing && resizeDirection == direction
      ensures startX == x && startY == y && startWidth == old(width) && startHeight == old(height)
      ensures width == old(width) && height == old(height)
    {
      isResizing := true;
      resizeDirection := direction;
      startX, startY := x, y;
      startWidth, startHeight := width, height;
    }

    /** `handleMouseMove`: during a drag the size follows the mouse's total offset. */
    method MouseMove(x: int, y: int)
      requires Valid()
      modifies this
      ensures Valid()
      ensures old(isResizing) ==>
        (width, height) == NewSize(bounds, startWidth, startHeight, resizeDirection, x - startX, y - startY)
      ensures !old(isResizing) ==> width == old(width) && height == old(height)
      ensures isResizing == old(isResizing) && resizeDirection == old(resizeDirection)
      ensures startX == old(startX) && startY == old(startY)
      ensures startWidth == old(startWidth) && startHeight == old(startHeight)
    {
      if !isResizing {
        return;
      }
      var dx := x - startX;
      var dy := y - startY;
      var newWidth := startWidth;
      var newHeight := startHeight;
      if 'e' in resizeDirection {
        newWidth := Clamp(bounds.minWidth, bounds.maxWidth, startWidth + dx);
      }
      if 'w' in resizeDirection {
        newWidth := Clamp(bounds.minWidth, bounds.maxWidth, startWidth - dx);
      }
      if 's' in resizeDirection {
        newHeight := Clamp(bounds.minHeight, bounds.maxHeight, startHeight + dy);
      }
      if 'n' in resizeDirection {
        newHeight := Clamp(bounds.minHeight, bounds.maxHeight, startHeight - dy);
      }
      width, height := newWidth, newHeight;
    }

    /** `handleMouseUp`: the drag ends and the handle is cleared. */
    method MouseUp()
      modifies this
      ensures Valid() && !isResizing && resizeDirection == ""
      ensures width == old(width) && height == old(height)
      ensures startX == old(startX) && startY == old(startY)
      ensures startWidth == old(startWidth) && startHeight == old(startHeight)
    {
      isResizing := false;
      resizeDirection := "";
    }

    /** The cursor shown on the page: the handle's while dragging, else the default. */
    function PageCursor(): (r: string)
      reads this
      requires Valid()
      ensures !isResizing ==> r == "default"
    {
      Cursor(resizeDirection)
    }
  }
}
