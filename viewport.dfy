/**
  The scrolling text pane of the preview (`previewView`).  The program only sets
  its size and content and moves its first visible line; this module models that
  much of the pane as a value, with the first visible line kept between 0 and
  the last line that still fills the pane.  The pane's own key map is an oracle
  of the environment (module `Backend`).
 */
module Viewport {
  import opened Text

  datatype Viewport = Viewport(width: int, height: int, yOffset: int, lines: seq<string>)

  /** A pane with no content (`viewport.New(0, 0)`, whose lines are nil). */
  const EmptyPane: Viewport := Viewport(0, 0, 0, [])

  /** The largest first visible line. */
  function MaxYOffset(v: Viewport): (r: int)
    ensures r >= 0 && r >= |v.lines| - v.height
  {
    if |v.lines| - v.height > 0 then |v.lines| - v.height else 0
  }

  /** Scrolls to line `n`, clamped to the content. */
  function SetYOffset(v: Viewport, n: int): (r: Viewport)
    ensures 0 <= r.yOffset <= MaxYOffset(v)
    ensures 0 <= n <= MaxYOffset(v) ==> r.yOffset == n
    ensures r == v.(yOffset := r.yOffset)
  {
    v.(yOffset := if n < 0 then 0 else if n > MaxYOffset(v) then MaxYOffset(v) else n)
  }

  predicate AtTop(v: Viewport)
  {
    v.yOffset <= 0
  }

  predicate AtBottom(v: Viewport)
  {
    v.yOffset >= MaxYOffset(v)
  }

  function GotoTop(v: Viewport): Viewport
  {
    if AtTop(v) then v else SetYOffset(v, 0)
  }

  function GotoBottom(v: Viewport): Viewport
  {
    SetYOffset(v, MaxYOffset(v))
  }

  function LineUp(v: Viewport, n: int): Viewport
  {
    if AtTop(v) || n == 0 || |v.lines| == 0 then v else SetYOffset(v, v.yOffset - n)
  }

  function LineDown(v: Viewport, n: int): Viewport
  {
    if AtBottom(v) || n == 0 || |v.lines| == 0 then v else SetYOffset(v, v.yOffset + n)
  }

  /** Replaces the content, moving to the bottom when the old position lies past its end. */
  function SetContent(v: Viewport, s: string): (r: Viewport)
    ensures r.lines == Split(s, '\n') && r.width == v.width && r.height == v.height
    ensures v.yOffset <= |r.lines| - 1 ==> r.yOffset == v.yOffset
    ensures v.yOffset > |r.lines| - 1 ==> r.yOffset == MaxYOffset(r)
  {
    var w := v.(lines := Split(s, '\n'));
    if v.yOffset > |w.lines| - 1 then GotoBottom(w) else w
  }

  /** Scrolling `n` lines down from a position in the content stops at the last position. */
  lemma LineDownClamps(v: Viewport, n: nat)
    requires 0 <= v.yOffset <= MaxYOffset(v) && |v.lines| > 0
    ensures LineDown(v, n).yOffset == if v.yOffset + n < MaxYOffset(v) then v.yOffset + n else MaxYOffset(v)
  {
  }

  /** After a clamped scroll, the pane shows the positions it should. */
  lemma ScrollStaysInContent(v: Viewport, n: int)
    requires 0 <= v.yOffset <= MaxYOffset(v)
    ensures 0 <= LineUp(v, n).yOffset <= MaxYOffset(v)
    ensures 0 <= LineDown(v, n).yOffset <= MaxYOffset(v)
    ensures 0 <= GotoTop(v).yOffset <= MaxYOffset(v)
    ensures GotoTop(v).yOffset == 0 && GotoBottom(v).yOffset == MaxYOffset(v)
  {
  }
}
