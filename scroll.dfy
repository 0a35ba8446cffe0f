/**
  The cursor and scroll arithmetic of the listing: the moves of `Update`
  (`service/filemanager.go`), the offset restored by `navigateBack` and
  `handleEnter`, and the window of rows `renderNavigation` draws.

  `n` is the number of rows in the listing, `v` the number of rows that fit on
  the screen (`visibleItems`), `c` the cursor and `o` the scroll offset.
 */
module Scroll {

  function Min(a: int, b: int): int { if a < b then a else b }
  function Max(a: int, b: int): int { if a < b then b else a }

  /** A cursor and a scroll offset. */
  datatype Pos = Pos(cursor: int, offset: int)

  /** `min(cursor - visibleItems + 1, len(files) - visibleItems)`: the offset that puts the cursor on the last screen row. */
  function FollowOffset(c: int, n: int, v: int): int
  {
    Min(c - v + 1, n - v)
  }

  /** "up" / "k". */
  function Up(p: Pos): Pos
  {
    if p.cursor > 0 then
      var c := p.cursor - 1;
      Pos(c, if c < p.offset then Max(c, 0) else p.offset)
    else p
  }

  /** "ctrl+k": ten rows up, stopping at the first. */
  function PageUp(p: Pos): Pos
  {
    if p.cursor > 0 then
      var c := Max(p.cursor - 10, 0);
      Pos(c, if c < p.offset then Max(c, 0) else p.offset)
    else p
  }

  /** "down" / "j". */
  function Down(p: Pos, n: int, v: int): Pos
  {
    if p.cursor < n - 1 then
      var c := p.cursor + 1;
      Pos(c, if c >= p.offset + v then FollowOffset(c, n, v) else p.offset)
    else p
  }

  /** "ctrl+j": ten rows down, stopping at the last; the new offset adds 11 rather than 1. */
  function PageDown(p: Pos, n: int, v: int): Pos
  {
    if p.cursor < n - 1 then
      var c := Min(p.cursor + 10, n - 1);
      Pos(c, if c >= p.offset + v then Min(c - v + 11, n - v) else p.offset)
    else p
  }

  /** "ctrl+u": the first row. */
  function Top(p: Pos): Pos
  {
    Pos(0, if 0 < p.offset then 0 else p.offset)
  }

  /** "ctrl+d": the last row. */
  function Bottom(p: Pos, n: int, v: int): Pos
  {
    var c := n - 1;
    Pos(c, if c >= p.offset + v then FollowOffset(c, n, v) else p.offset)
  }

  /** The rows `renderNavigation` draws, `[start, end)`, for a non-empty listing. */
  function Window(v: int, o: int, n: int): (r: (int, int))
  {
    var count := Min(v, n);
    var start := Max(0, Min(o, n - count));
    (start, start + count)
  }

  /** Every row the window draws exists, whatever the offset and the screen size. */
  lemma WindowInBounds(v: int, o: int, n: int, i: int)
    requires n > 0
    requires Window(v, o, n).0 <= i < Window(v, o, n).1
    ensures 0 <= i < n
  {
  }

  /** The cursor is on a screen row: the offset invariant the moves aim to keep. */
  predicate OnScreen(p: Pos, v: int)
  {
    0 <= p.offset <= p.cursor < p.offset + v
  }

  /** A cursor on a screen row is among the rows drawn. */
  lemma OnScreenIsDrawn(p: Pos, n: int, v: int)
    requires OnScreen(p, v) && p.cursor < n
    ensures Window(v, p.offset, n).0 <= p.cursor < Window(v, p.offset, n).1
  {
  }

  /** The moves by one row, by ten rows up, and to either end keep the cursor on screen. */
  lemma MovesKeepCursorOnScreen(p: Pos, n: int, v: int)
    requires v >= 1 && OnScreen(p, v) && p.cursor < n
    ensures OnScreen(Up(p), v) && OnScreen(PageUp(p), v) && OnScreen(Top(p), v)
    ensures OnScreen(Down(p, n, v), v) && OnScreen(Bottom(p, n, v), v)
    ensures Up(p).cursor < n && PageUp(p).cursor < n && Top(p).cursor < n
    ensures Down(p, n, v).cursor < n && Bottom(p, n, v).cursor < n
  {
  }

  /**
    On a row of a listing, "ctrl+k" and "ctrl+j" move up to ten rows, stopping at
    the first and the last; "ctrl+u" and "ctrl+d" go to the first and the last.
   */
  lemma JumpsAreClamped(p: Pos, n: int, v: int)
    requires 0 <= p.cursor < n
    ensures p.cursor - PageUp(p).cursor == Min(10, p.cursor)
    ensures PageDown(p, n, v).cursor - p.cursor == Min(10, n - 1 - p.cursor)
    ensures Top(p).cursor == 0 && Bottom(p, n, v).cursor == n - 1
  {
  }

  /** When a one-row move down leaves the window, the new offset puts the cursor on the last screen row. */
  lemma DownScrollsToCursor(p: Pos, n: int, v: int)
    requires 0 <= p.cursor < n - 1 && p.cursor + 1 >= p.offset + v
    ensures Down(p, n, v).cursor == p.cursor + 1 && Down(p, n, v).offset == Down(p, n, v).cursor - v + 1
  {
  }

  /**
    Ten rows down can scroll past the cursor: with 30 rows, 5 on screen and the
    cursor on the first, the cursor moves to row 10 but the offset to row 16,
    and the window drawn is rows 16 to 20.
   */
  lemma PageDownCanHideCursor()
    ensures PageDown(Pos(0, 0), 30, 5) == Pos(10, 16)
    ensures !OnScreen(PageDown(Pos(0, 0), 30, 5), 5)
    ensures Window(5, 16, 30) == (16, 21)
  {
  }

  /** On an empty listing "ctrl+d" puts the cursor on row -1. */
  lemma BottomOfEmpty(p: Pos, v: int)
    ensures Bottom(p, 0, v).cursor == -1
  {
  }

  /**
    A cursor restored next to `FollowOffset` (entering or leaving a directory) is
    always among the rows drawn, even though the offset itself can be negative.
   */
  lemma RestoredCursorIsDrawn(c: int, n: int, v: int)
    requires 0 <= c < n && v >= 1
    ensures var o := FollowOffset(c, n, v);
            Window(v, o, n).0 <= c < Window(v, o, n).1
  {
  }

  /** The restored offset is negative exactly when the cursor is above the last screen row of the first page. */
  lemma RestoredOffsetSign(c: int, n: int, v: int)
    requires 0 <= c < n && v >= 1
    ensures FollowOffset(c, n, v) < 0 <==> c < v - 1
  {
  }
}
