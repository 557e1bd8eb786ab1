/** The placement of the keyboard popup that follows the mouse pointer
    (`KeyboardPopupCursor._move_to_cursor` in poppy/keyboard_popup_cursor.py):
    the pointer plus a fixed offset, pulled back inside the screen's work
    area. */
module Cursor {
  import opened Popups

  /** The offset from the pointer, so that the popup does not cover it. */
  const OffsetX: int := 10
  const OffsetY: int := 23

  /** A `QRect` work area; `right()` and `bottom()` are the last column and
      row inside it, so one less than `left + width` and `top + height`. */
  datatype Rect = Rect(left: int, top: int, width: int, height: int)

  function Right(r: Rect): int {
    r.left + r.width - 1
  }

  function Bottom(r: Rect): int {
    r.top + r.height - 1
  }

  /** One axis of the clamp: first the far edge (`v + size > hi`), then the
      near edge (`v < lo`), so the near edge wins when the popup is larger
      than the screen. */
  function ClampAxis(v: int, lo: int, hi: int, size: int): (r: int)
    ensures r >= lo
    ensures size <= hi - lo ==> r <= hi - size
    ensures lo <= v && v + size <= hi ==> r == v
    ensures size > hi - lo ==> r == lo
  {
    var pulled := if v + size > hi then hi - size else v;
    if pulled < lo then lo else pulled
  }

  /** When the popup fits, the clamp picks the allowed position nearest to
      the target. */
  lemma ClampNearest(v: int, lo: int, hi: int, size: int, other: int)
    requires size <= hi - lo && lo <= other <= hi - size
    ensures var r := ClampAxis(v, lo, hi, size);
      (if r >= v then r - v else v - r) <= (if other >= v then other - v else v - other)
  {
  }

  /** `_move_to_cursor`: the new top-left corner for a popup of the given
      size and the pointer at `cursor`. */
  function MoveToCursor(cursor: Vec, screen: Rect, width: int, height: int): (r: Vec)
    ensures r.x >= screen.left && r.y >= screen.top
    ensures width <= Right(screen) - screen.left ==> r.x <= Right(screen) - width
    ensures height <= Bottom(screen) - screen.top ==> r.y <= Bottom(screen) - height
    ensures var t := Add(cursor, Vec(OffsetX, OffsetY));
      screen.left <= t.x && t.x + width <= Right(screen) ==> r.x == t.x
    ensures var t := Add(cursor, Vec(OffsetX, OffsetY));
      screen.top <= t.y && t.y + height <= Bottom(screen) ==> r.y == t.y
    ensures width > Right(screen) - screen.left ==> r.x == screen.left
    ensures height > Bottom(screen) - screen.top ==> r.y == screen.top
  {
    var t := Add(cursor, Vec(OffsetX, OffsetY));
    Vec(ClampAxis(t.x, screen.left, Right(screen), width),
        ClampAxis(t.y, screen.top, Bottom(screen), height))
  }

  /** A pointer well inside the screen puts the popup at the fixed offset. */
  lemma InsideFollowsPointer(cursor: Vec, screen: Rect, width: int, height: int)
    requires screen.left <= cursor.x + OffsetX && cursor.x + OffsetX + width <= Right(screen)
    requires screen.top <= cursor.y + OffsetY && cursor.y + OffsetY + height <= Bottom(screen)
    ensures MoveToCursor(cursor, screen, width, height) == Vec(cursor.x + 10, cursor.y + 23)
  {
  }

  /** Moving again from the placed position changes nothing: a placed popup
      is its own target once the offset is taken back. */
  lemma MoveIdempotent(cursor: Vec, screen: Rect, width: int, height: int)
    requires width <= Right(screen) - screen.left && height <= Bottom(screen) - screen.top
    ensures var r := MoveToCursor(cursor, screen, width, height);
      MoveToCursor(Vec(r.x - OffsetX, r.y - OffsetY), screen, width, height) == r
  {
  }
}
