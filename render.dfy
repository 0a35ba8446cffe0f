/**
  The part of `View` (`service/filemanager.go`) that changes the state, and the
  turn of the program around it.  `View` has a pointer receiver and is drawn
  after every `Update`; while the preview is shown it calls `renderPreview`,
  which sets the pane's size to fit its panel.  So the size the next key sees
  is the one the last drawing set, not the one of the last resize.

  The text `View` returns is not modelled.
 */
module Render {
  import opened Backend
  import opened Viewport
  import opened State
  import opened Update

  /** `int(float64(width) * 0.4)`: the width of the listing's panel. */
  function LeftWidth(width: int): (r: int)
    ensures width >= 0 ==> 0 <= 5 * r <= 2 * width < 5 * r + 5
    ensures width < 0 ==> 5 * r - 5 < 2 * width <= 5 * r <= 0
  {
    if width >= 0 then (2 * width) / 5 else -((-2 * width) / 5)
  }

  /** The width of the preview's panel. */
  function RightWidth(width: int): int
  {
    width - LeftWidth(width) - 6
  }

  /** The height of both panels. */
  function PanelHeight(height: int): int
  {
    height - 6
  }

  /** The state once `View` has drawn it: `renderPreview` sizes the pane to its panel, inside its frame. */
  function ViewSpec(s: Model): Model
  {
    if s.preview then
      s.(previewView := s.previewView.(width := RightWidth(s.width) - 4, height := PanelHeight(s.height) - 2))
    else s
  }

  method View(m: FileManagerState)
    modifies m
    ensures m.Snap() == ViewSpec(old(m.Snap()))
  {
    var leftWidth := LeftWidth(m.width);
    var rightWidth := m.width - leftWidth - 6;
    var panelHeight := m.height - 6;
    if m.preview {
      RenderPreview(m, rightWidth, panelHeight);
    }
  }

  /** The size `renderPreview(width, height)` gives the pane; its text is not modelled. */
  method RenderPreview(m: FileManagerState, width: int, height: int)
    modifies m
    ensures m.Snap() == old(m.Snap()).(previewView := old(m.previewView).(width := width - 4, height := height - 2))
  {
    m.previewView := m.previewView.(width := width - 4, height := height - 2);
  }

  /**
    Drawing while the preview is shown makes the pane eight rows shorter than the
    terminal, and its width that of the terminal less the listing's panel and
    ten columns of frames; it scrolls nothing and changes nothing else.  Without
    the preview it changes nothing.
   */
  lemma ViewSizesPane(s: Model)
    ensures s.preview ==> ViewSpec(s) == s.(previewView := ViewSpec(s).previewView)
    ensures ViewSpec(s).previewView.lines == s.previewView.lines && ViewSpec(s).previewView.yOffset == s.previewView.yOffset
    ensures s.preview ==> ViewSpec(s).previewView.height == s.height - 8
    ensures s.preview ==> ViewSpec(s).previewView.width == s.width - LeftWidth(s.width) - 10
    ensures !s.preview ==> ViewSpec(s) == s
  {
  }

  /** The pane drawn on a terminal `width` columns wide is about three fifths of it, less ten columns. */
  lemma PaneWidth(width: int)
    requires width >= 0
    ensures 3 * width - 50 <= 5 * (RightWidth(width) - 4) < 3 * width - 45
  {
  }

  /** Drawing twice is drawing once. */
  lemma ViewIdempotent(s: Model)
    ensures ViewSpec(ViewSpec(s)) == ViewSpec(s)
  {
  }

  /** At start-up the preview is hidden, so the first drawing changes nothing. */
  lemma InitialViewUnchanged(env: Env)
    ensures ViewSpec(InitialSpec(env)) == InitialSpec(env)
  {
  }

  // ---------------------------------------------------------------------------
  // One turn of the program: a message is handled and the state is drawn.

  /** A message handled by `Update`, then the drawing; a panic ends the program before it draws. */
  function TurnSpec(s: Model, env: Env, msg: Msg): Step
  {
    var u := UpdateSpec(s, env, msg);
    if u.out.Panicked? then u else Step(ViewSpec(u.next), u.out)
  }

  method Turn(m: FileManagerState, env: Env, msg: Msg) returns (out: Outcome)
    modifies m
    ensures Step(m.Snap(), out) == TurnSpec(old(m.Snap()), env, msg)
  {
    out := Update.Update(m, env, msg);
    if out.Returned? {
      View(m);
    }
  }

  /** After every turn that ends with the preview shown, the pane is eight rows shorter than the terminal. */
  lemma TurnSizesPane(s: Model, env: Env, msg: Msg)
    ensures var t := TurnSpec(s, env, msg);
            t.out.Returned? && t.next.preview ==> t.next.previewView.height == t.next.height - 8
  {
    ViewSizesPane(UpdateSpec(s, env, msg).next);
  }

  /** A resize gives the pane four rows less than the terminal, or eight once the preview is drawn. */
  lemma ResizeThenDraw(s: Model, env: Env, width: int, height: int)
    ensures var t := TurnSpec(s, env, WindowSize(width, height));
            && t.next.height == height && t.next.visibleItems == height - 8
            && t.next.previewView.height == (if s.preview then height - 8 else height - 4)
  {
  }

  /** A scroll key in the preview moves the pane, and the drawing then sizes it. */
  lemma PaneTurn(s: Model, env: Env, key: string)
    requires s.preview && !s.searchMode && key !in {"f", "esc", "h", "ctrl+c", "q"}
    ensures TurnSpec(s, env, Key(key)) ==
            Step(ViewSpec(s.(previewView := PaneScroll(s.previewView, env, key))), Returned(NoCmd))
  {
    assert UpdateSpec(s, env, Key(key)) == PaneKeySpec(s, env, key);
  }

  /** The last line that still fills a pane eight rows shorter than a terminal `height` rows high. */
  function DrawnBottomLine(lines: nat, height: int): int
  {
    if lines > height - 8 then lines - (height - 8) else 0
  }

  /**
    In a pane drawn by the last turn, "ctrl+d" goes to the last line that still
    fills a pane eight rows shorter than the terminal.
   */
  lemma DrawnBottom(s: Model, env: Env)
    requires s.preview && !s.searchMode && s.previewView.height == s.height - 8
    ensures var t := TurnSpec(s, env, Key("ctrl+d"));
            && t.out == Returned(NoCmd) && t.next.preview
            && t.next.previewView.yOffset == DrawnBottomLine(|s.previewView.lines|, s.height)
  {
    PaneTurn(s, env, "ctrl+d");
    ViewSizesPane(s.(previewView := GotoBottom(s.previewView)));
  }

  /**
    In a pane drawn by the last turn, "ctrl+j" scrolls ten lines down, stopping
    at the last line that fills a pane eight rows shorter than the terminal.
   */
  lemma DrawnPageDown(s: Model, env: Env)
    requires s.preview && !s.searchMode && s.previewView.height == s.height - 8
    requires 0 <= s.previewView.yOffset <= MaxYOffset(s.previewView) && |s.previewView.lines| > 0
    ensures var t := TurnSpec(s, env, Key("ctrl+j"));
            var bottom := DrawnBottomLine(|s.previewView.lines|, s.height);
            && t.out == Returned(NoCmd)
            && t.next.previewView.yOffset == (if s.previewView.yOffset + 10 < bottom then s.previewView.yOffset + 10 else bottom)
  {
    var v := s.previewView;
    PaneTurn(s, env, "ctrl+j");
    LinesDownIsLineDown(v, PageLines);
    LineDownClamps(v, PageLines);
    ViewSizesPane(s.(previewView := LineDown(v, PageLines)));
  }
}
