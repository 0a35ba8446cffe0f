/**
  `Update` in `service/filemanager.go`: how the file manager reacts to a resize
  of the terminal and to each key.  While the preview is shown the keys scroll
  the pane or search its text; while a prompt is shown they edit the input; in
  normal mode they move the cursor, open prompts, enter and leave directories,
  and connect to, disconnect from and download from an SFTP server.

  Every branch has a function on `Model` giving its effect and a method on
  `FileManagerState` proved to have that effect; `Update` dispatches to them.
 */
module Update {
  import opened Common
  import opened Text
  import opened Paths
  import opened Entries
  import opened Models
  import opened Viewport
  import opened Backend
  import opened State
  import opened Scroll
  import opened Preview
  import opened Navigation
  import opened Sftp
  import opened Input

  const Disconnected: string := "Отключено от SFTP"
  const NotConnected: string := "SFTP не подключен"

  // ---------------------------------------------------------------------------
  // The size of the terminal.

  /** `tea.WindowSizeMsg`: eight rows go to the frame of the listing, four to the frame of the pane. */
  function ResizeSpec(s: Model, width: int, height: int): Model
  {
    s.(width := width, height := height, visibleItems := height - 8,
       previewView := s.previewView.(width := width, height := height - 4))
  }

  method Resize(m: FileManagerState, width: int, height: int)
    modifies m
    ensures m.Snap() == ResizeSpec(old(m.Snap()), width, height)
  {
    SetSize(m, width, height);
    SetLayout(m, height - 8, m.previewView.(width := width, height := height - 4));
  }

  method SetSize(m: FileManagerState, width: int, height: int)
    modifies m
    ensures m.Snap() == old(m.Snap()).(width := width, height := height)
  {
    m.width, m.height := width, height;
  }

  method SetLayout(m: FileManagerState, visibleItems: int, view: Viewport)
    modifies m
    ensures m.Snap() == old(m.Snap()).(visibleItems := visibleItems, previewView := view)
  {
    m.visibleItems, m.previewView := visibleItems, view;
  }

  // ---------------------------------------------------------------------------
  // Searching the previewed text.

  /** The fields the search keys work on. */
  datatype Search = Search(active: bool, query: string, matches: seq<int>, current: int, position: int, view: Viewport)

  function SearchOf(s: Model): Search
  {
    Search(s.searchMode, s.searchQuery, s.searchMatches, s.currentMatch, s.searchPosition, s.previewView)
  }

  function WithSearch(s: Model, r: Search): Model
  {
    s.(searchMode := r.active, searchQuery := r.query, searchMatches := r.matches, currentMatch := r.current,
       searchPosition := r.position, previewView := r.view)
  }

  /** Moves to the match numbered `c`, or None when `c` indexes past the matches. */
  function GoToMatch(r: Search, c: int): Option<Search>
  {
    if 0 <= c < |r.matches| then Some(r.(current := c, position := r.matches[c], view := SetYOffset(r.view, r.matches[c])))
    else None
  }

  /**
    A key while searching: "esc" ends the search, "enter" finds the matching lines
    and moves to the first, "n" and "p" cycle through them, "backspace" drops the
    last character and any other one-byte key is typed into the query.  None
    stands for a panic of the Go code.
   */
  function SearchKeyOf(r: Search, content: string, key: string): Option<Search>
  {
    if key == "esc" then Some(r.(active := false, query := ""))
    else if key == "enter" then
      var found := Matches(content, r.query);
      if |found| > 0 then GoToMatch(r.(matches := found), 0) else Some(r.(matches := found))
    else if key == "backspace" then
      if |r.query| > 0 then Some(r.(query := r.query[..|r.query| - 1])) else Some(r)
    else if key == "n" then
      if |r.matches| > 0 then GoToMatch(r, NextMatch(r.current, |r.matches|)) else Some(r)
    else if key == "p" then
      if |r.matches| > 0 then GoToMatch(r, PrevMatch(r.current, |r.matches|)) else Some(r)
    else if ByteLen(key) == 1 then Some(r.(query := r.query + key))
    else Some(r)
  }

  function SearchSpec(s: Model, key: string): Step
  {
    match SearchKeyOf(SearchOf(s), s.previewContent, key)
    case None => Step(s, Panicked)
    case Some(r) => Step(WithSearch(s, r), Returned(NoCmd))
  }

  method SetSearch(m: FileManagerState, r: Search)
    modifies m
    ensures m.Snap() == WithSearch(old(m.Snap()), r)
  {
    SetQuery(m, r.active, r.query);
    SetMatches(m, r.matches, r.current, r.position, r.view);
  }

  method SetQuery(m: FileManagerState, active: bool, query: string)
    modifies m
    ensures m.Snap() == old(m.Snap()).(searchMode := active, searchQuery := query)
  {
    m.searchMode := active;
    m.searchQuery := query;
  }

  method SetMatches(m: FileManagerState, matches: seq<int>, current: int, position: int, view: Viewport)
    modifies m
    ensures m.Snap() == old(m.Snap()).(searchMatches := matches, currentMatch := current, searchPosition := position,
                                       previewView := view)
  {
    m.searchMatches, m.currentMatch := matches, current;
    SetPlace(m, position, view);
  }

  method SetPlace(m: FileManagerState, position: int, view: Viewport)
    modifies m
    ensures m.Snap() == old(m.Snap()).(searchPosition := position, previewView := view)
  {
    m.searchPosition, m.previewView := position, view;
  }

  /** The search keys, on the search fields alone. */
  method SearchFields(m: FileManagerState, key: string) returns (r: Option<Search>)
    ensures r == SearchKeyOf(SearchOf(m.Snap()), m.previewContent, key)
  {
    var cur := Search(m.searchMode, m.searchQuery, m.searchMatches, m.currentMatch, m.searchPosition, m.previewView);
    r := Some(cur);
    if key == "esc" {
      r := Some(cur.(active := false, query := ""));
    } else if key == "enter" {
      var found := FindMatches(m, m.searchQuery);
      r := Some(cur.(matches := found));
      if |found| > 0 {
        r := Some(cur.(matches := found, current := 0, position := found[0], view := SetYOffset(cur.view, found[0])));
      }
    } else if key == "backspace" {
      if |cur.query| > 0 {
        r := Some(cur.(query := cur.query[..|cur.query| - 1]));
      }
    } else if key == "n" || key == "p" {
      if |cur.matches| > 0 {
        var c := if key == "n" then GoMod(cur.current + 1, |cur.matches|)
                 else GoMod(cur.current - 1 + |cur.matches|, |cur.matches|);
        if !(0 <= c < |cur.matches|) {
          return None;
        }
        r := Some(cur.(current := c, position := cur.matches[c], view := SetYOffset(cur.view, cur.matches[c])));
      }
    } else if ByteLen(key) == 1 {
      r := Some(cur.(query := cur.query + key));
    }
  }

  method SearchKey(m: FileManagerState, key: string) returns (out: Outcome)
    modifies m
    ensures Step(m.Snap(), out) == SearchSpec(old(m.Snap()), key)
  {
    var r := SearchFields(m, key);
    if r.None? {
      return Panicked;
    }
    SetSearch(m, r.value);
    out := Returned(NoCmd);
  }

  /** "esc" ends the search and empties the query, but keeps the matches, the current match and the pane where they are. */
  lemma SearchEscapeKeepsMatches(s: Model)
    ensures SearchSpec(s, "esc") == Step(s.(searchMode := false, searchQuery := ""), Returned(NoCmd))
  {
  }

  /** "enter" replaces the matches by the lines of the previewed text holding the query, and moves to the first of them. */
  lemma SearchEnterFinds(s: Model)
    ensures var r := SearchSpec(s, "enter");
            && r.out == Returned(NoCmd)
            && r.next.searchMatches == Matches(s.previewContent, s.searchQuery)
            && r.next.searchQuery == s.searchQuery && r.next.searchMode == s.searchMode
            && (|r.next.searchMatches| > 0 ==>
                  r.next.currentMatch == 0 && r.next.searchPosition == r.next.searchMatches[0]
                  && r.next.previewView == SetYOffset(s.previewView, r.next.searchPosition))
            && (|r.next.searchMatches| == 0 ==> r.next == s.(searchMatches := []))
  {
  }

  /**
    "n" and "p" are never typed into the query: with matches they move to the
    next or previous one, wrapping around, and the pane shows its line; with
    none they change nothing.
   */
  lemma SearchCycles(s: Model, key: string)
    requires key == "n" || key == "p"
    requires 0 <= s.currentMatch < |s.searchMatches|
    ensures var r := SearchSpec(s, key);
            && r.out == Returned(NoCmd)
            && r.next.searchQuery == s.searchQuery && r.next.searchMatches == s.searchMatches
            && r.next.currentMatch == (if key == "n" then (s.currentMatch + 1) % |s.searchMatches|
                                       else (s.currentMatch + |s.searchMatches| - 1) % |s.searchMatches|)
            && r.next.searchPosition == s.searchMatches[r.next.currentMatch]
            && r.next.previewView == SetYOffset(s.previewView, r.next.searchPosition)
  {
    var n := |s.searchMatches|;
    var c := if key == "n" then NextMatch(s.currentMatch, n) else PrevMatch(s.currentMatch, n);
    assert 0 <= c < n;
    assert SearchKeyOf(SearchOf(s), s.previewContent, key) == GoToMatch(SearchOf(s), c);
  }

  /** Without matches "n" and "p" change nothing. */
  lemma SearchCyclesNothing(s: Model, key: string)
    requires key == "n" || key == "p"
    requires |s.searchMatches| == 0
    ensures SearchSpec(s, key) == Step(s, Returned(NoCmd))
  {
  }

  // ---------------------------------------------------------------------------
  // Scrolling the pane.

  /** `LineUp(1)` called `k` times. */
  function LinesUp(v: Viewport, k: nat): Viewport
    decreases k
  {
    if k == 0 then v else LinesUp(LineUp(v, 1), k - 1)
  }

  /** `LineDown(1)` called `k` times. */
  function LinesDown(v: Viewport, k: nat): Viewport
    decreases k
  {
    if k == 0 then v else LinesDown(LineDown(v, 1), k - 1)
  }

  /** The loop of "ctrl+k". */
  method ScrollUp(v0: Viewport, times: nat) returns (v: Viewport)
    ensures v == LinesUp(v0, times)
  {
    v := v0;
    var i := 0;
    while i < times
      invariant 0 <= i <= times
      invariant LinesUp(v, times - i) == LinesUp(v0, times)
    {
      v := LineUp(v, 1);
      i := i + 1;
    }
  }

  /** The loop of "ctrl+j". */
  method ScrollDown(v0: Viewport, times: nat) returns (v: Viewport)
    ensures v == LinesDown(v0, times)
  {
    v := v0;
    var i := 0;
    while i < times
      invariant 0 <= i <= times
      invariant LinesDown(v, times - i) == LinesDown(v0, times)
    {
      v := LineDown(v, 1);
      i := i + 1;
    }
  }

  /**
    A key while the preview is shown and no search runs: "f" starts a search,
    "esc" and "h" close the preview, "ctrl+c" and "q" quit, "ctrl+k" and
    "ctrl+j" scroll ten lines, "ctrl+u" and "ctrl+d" go to either end, and any
    other key goes to the pane itself.
   */
  function PaneKeySpec(s: Model, env: Env, key: string): Step
  {
    if key == "f" then Step(s.(searchMode := true, searchQuery := ""), Returned(NoCmd))
    else if key == "esc" || key == "h" then Step(s.(preview := false), Returned(NoCmd))
    else if key == "ctrl+c" || key == "q" then Step(s, Returned(Quit))
    else Step(s.(previewView := PaneScroll(s.previewView, env, key)), Returned(NoCmd))
  }

  /** How many single-line scrolls "ctrl+k" and "ctrl+j" make in the preview. */
  const PageLines: nat := 10

  /** Where the remaining keys leave the pane. */
  function PaneScroll(v: Viewport, env: Env, key: string): Viewport
  {
    if key == "ctrl+k" then LinesUp(v, PageLines)
    else if key == "ctrl+j" then LinesDown(v, PageLines)
    else if key == "ctrl+u" then GotoTop(v)
    else if key == "ctrl+d" then GotoBottom(v)
    else env.viewportKey(v, key)
  }

  method ScrollPane(v0: Viewport, env: Env, key: string) returns (v: Viewport)
    ensures v == PaneScroll(v0, env, key)
  {
    if key == "ctrl+k" {
      v := ScrollUp(v0, PageLines);
    } else if key == "ctrl+j" {
      v := ScrollDown(v0, PageLines);
    } else if key == "ctrl+u" {
      v := GotoTop(v0);
    } else if key == "ctrl+d" {
      v := GotoBottom(v0);
    } else {
      v := env.viewportKey(v0, key);
    }
  }

  method PaneKey(m: FileManagerState, env: Env, key: string) returns (out: Outcome)
    modifies m
    ensures Step(m.Snap(), out) == PaneKeySpec(old(m.Snap()), env, key)
  {
    out := Returned(NoCmd);
    if key == "f" {
      SetQuery(m, true, "");
    } else if key == "esc" || key == "h" {
      SetPreview(m, false);
    } else if key == "ctrl+c" || key == "q" {
      out := Returned(Quit);
    } else {
      var v := ScrollPane(m.previewView, env, key);
      m.previewView := v;
    }
  }

  // ---------------------------------------------------------------------------
  // Editing the input of a prompt.

  /** A key while a prompt is shown: "esc" closes it, "enter" submits it, "backspace" and one-byte keys edit it. */
  function EditKeySpec(s: Model, env: Env, key: string): Step
  {
    if key == "esc" then Step(s.(mode := Normal), Returned(NoCmd))
    else if key == "enter" then InputSpec(s, env)
    else Step(s.(input := Edited(s.input, key)), Returned(NoCmd))
  }

  /** "esc" leaves the prompt without touching the filesystem, and keeps what was typed. */
  lemma PromptEscapeKeepsInput(s: Model, env: Env)
    ensures EditKeySpec(s, env, "esc") == Step(s.(mode := Normal), Returned(NoCmd))
  {
  }

  /** The input after "backspace" or a typed key. */
  function Edited(input: string, key: string): string
  {
    if key == "backspace" then (if |input| > 0 then input[..|input| - 1] else input)
    else if ByteLen(key) == 1 then input + key
    else input
  }

  method EditKey(m: FileManagerState, env: Env, key: string) returns (out: Outcome)
    modifies m
    ensures Step(m.Snap(), out) == EditKeySpec(old(m.Snap()), env, key)
  {
    if key == "esc" {
      m.mode := Normal;
      out := Returned(NoCmd);
    } else if key == "enter" {
      out := HandleInput(m, env);
    } else {
      var input := m.input;
      if key == "backspace" {
        if |input| > 0 {
          input := input[..|input| - 1];
        }
      } else if ByteLen(key) == 1 {
        input := input + key;
      }
      m.input := input;
      out := Returned(NoCmd);
    }
  }

  // ---------------------------------------------------------------------------
  // Normal mode.

  /** The keys that move the cursor. */
  predicate IsMoveKey(key: string)
  {
    key == "ctrl+k" || key == "up" || key == "k" || key == "ctrl+j" || key == "down" || key == "j" ||
    key == "ctrl+u" || key == "ctrl+d"
  }

  /** Where a cursor key moves the cursor and the scroll offset. */
  function MoveTo(key: string, p: Pos, n: int, v: int): Pos
  {
    if key == "ctrl+k" then PageUp(p)
    else if key == "up" || key == "k" then Up(p)
    else if key == "ctrl+j" then PageDown(p, n, v)
    else if key == "down" || key == "j" then Down(p, n, v)
    else if key == "ctrl+u" then Top(p)
    else Bottom(p, n, v)
  }

  /**
    Opening the prompt of `mode` ("a" create, "r" rename, "m" move, "d" delete):
    renaming fills the prompt with the selected name, and panics when the cursor
    is off the listing; deleting also clears the confirmation flag.
   */
  function PromptSpec(s: Model, mode: Mode): Step
  {
    if mode == Rename then
      if 0 <= s.cursor < |s.files| then Step(s.(mode := Rename, input := s.files[s.cursor].name), Returned(NoCmd))
      else Step(s, Panicked)
    else if mode == Delete then Step(s.(mode := Delete, input := "", confirmDelete := false), Returned(NoCmd))
    else Step(s.(mode := mode, input := ""), Returned(NoCmd))
  }

  /** Whether the saved credentials load and are complete. */
  predicate HasSavedCredentials(env: Env)
  {
    env.savedConfig.Some? && env.savedConfig.value.host != "" && env.savedConfig.value.user != "" &&
    env.savedConfig.value.password != ""
  }

  /**
    "ctrl+s": disconnects when connected; otherwise asks whether to use the saved
    credentials when there are complete ones, and for a host when there are not.
   */
  function SftpKeySpec(s: Model, env: Env): Step
  {
    if s.isRemote then Step(DisconnectSpec(s, env), Returned(Print(Disconnected)))
    else if HasSavedCredentials(env) then Step(s.(mode := SftpConfirm, input := ""), Returned(NoCmd))
    else Step(s.(mode := SftpHost, input := ""), Returned(NoCmd))
  }

  /** " ": loads the preview of the selected row and shows it. */
  function PreviewKeySpec(s: Model, env: Env): Step
  {
    var loaded := LoadPreviewSpec(s, env);
    if loaded.out.Panicked? then loaded else Step(loaded.next.(preview := true), Returned(NoCmd))
  }

  /** What a key does in normal mode; the Go `switch` tells them apart by their exact text. */
  datatype KeyAction = Prompt(opens: Mode) | Exit | Cursor | Open | Peek | Back | ExitInDir | ToggleSftp | Download | Ignore

  function ActionOf(key: string): KeyAction
  {
    if key == "a" then Prompt(Create)
    else if key == "r" then Prompt(Rename)
    else if key == "m" then Prompt(Move)
    else if key == "d" then Prompt(Delete)
    else if key == "ctrl+c" || key == "q" then Exit
    else if IsMoveKey(key) then Cursor
    else if key == "enter" || key == "l" then Open
    else if key == " " then Peek
    else if key == "b" || key == "h" then Back
    else if key == "ctrl+o" then ExitInDir
    else if key == "ctrl+s" then ToggleSftp
    else if key == "ctrl+x" then Download
    else Ignore
  }

  /** A key in normal mode. */
  function NormalKeySpec(s: Model, env: Env, key: string): Step
  {
    ActionSpec(s, env, key, ActionOf(key))
  }

  /** What the action `a` of `key` does in normal mode. */
  function ActionSpec(s: Model, env: Env, key: string, a: KeyAction): Step
  {
    match a
    case Prompt(mode) => PromptSpec(s, mode)
    case Exit => Step(s, Returned(Quit))
    case Cursor =>
      var p := MoveTo(key, Pos(s.cursor, s.offset), |s.files|, s.visibleItems);
      Step(s.(cursor := p.cursor, offset := p.offset), Returned(NoCmd))
    case Open => EnterSpec(s, env)
    case Peek => PreviewKeySpec(s, env)
    case Back => Step(BackSpec(s, env), Returned(NoCmd))
    case ExitInDir => Step(s.(exitWithDir := true), Returned(Quit))
    case ToggleSftp => SftpKeySpec(s, env)
    case Download => if s.isRemote then DownloadSpec(s, env) else Step(s, Returned(Print(NotConnected)))
    case Ignore => Step(s, Returned(NoCmd))
  }

  method PromptKey(m: FileManagerState, mode: Mode) returns (out: Outcome)
    modifies m
    ensures Step(m.Snap(), out) == PromptSpec(old(m.Snap()), mode)
  {
    out := Returned(NoCmd);
    if mode == Rename {
      if !(0 <= m.cursor < |m.files|) {
        return Panicked;
      }
      SetEditing(m, Rename, m.files[m.cursor].name);
    } else if mode == Delete {
      SetEditing(m, Delete, "");
      m.confirmDelete := false;
    } else {
      SetEditing(m, mode, "");
    }
  }

  method MoveKey(m: FileManagerState, key: string)
    modifies m
    ensures var s := old(m.Snap());
            var p := MoveTo(key, Pos(s.cursor, s.offset), |s.files|, s.visibleItems);
            m.Snap() == s.(cursor := p.cursor, offset := p.offset)
  {
    var p := MoveTo(key, Pos(m.cursor, m.offset), |m.files|, m.visibleItems);
    SetPosition(m, p.cursor, p.offset);
  }

  method SftpKey(m: FileManagerState, env: Env) returns (out: Outcome)
    modifies m
    ensures Step(m.Snap(), out) == SftpKeySpec(old(m.Snap()), env)
  {
    if m.isRemote {
      DisconnectSftp(m, env);
      return Returned(Print(Disconnected));
    }
    var config := env.savedConfig;
    if config.Some? && config.value.host != "" && config.value.user != "" && config.value.password != "" {
      SetEditing(m, SftpConfirm, "");
    } else {
      SetEditing(m, SftpHost, "");
    }
    out := Returned(NoCmd);
  }

  method PreviewKey(m: FileManagerState, env: Env) returns (out: Outcome)
    modifies m
    ensures Step(m.Snap(), out) == PreviewKeySpec(old(m.Snap()), env)
  {
    out := LoadPreview(m, env);
    if out.Panicked? {
      return;
    }
    SetPreview(m, true);
    out := Returned(NoCmd);
  }

  /** The `switch` of normal mode. */
  method NormalKey(m: FileManagerState, env: Env, key: string) returns (out: Outcome)
    modifies m
    ensures Step(m.Snap(), out) == NormalKeySpec(old(m.Snap()), env, key)
  {
    out := ActionKey(m, env, key, ActionOf(key));
  }

  /** The action `a` of `key`. */
  method ActionKey(m: FileManagerState, env: Env, key: string, a: KeyAction) returns (out: Outcome)
    modifies m
    ensures Step(m.Snap(), out) == ActionSpec(old(m.Snap()), env, key, a)
  {
    out := Returned(NoCmd);
    match a {
      case Prompt(mode) => out := PromptKey(m, mode);
      case Exit => out := Returned(Quit);
      case Cursor => MoveKey(m, key);
      case Open => out := HandleEnter(m, env);
      case Peek => out := PreviewKey(m, env);
      case Back => NavigateBack(m, env);
      case ExitInDir =>
        m.exitWithDir := true;
        out := Returned(Quit);
      case ToggleSftp => out := SftpKey(m, env);
      case Download =>
        if !m.isRemote {
          return Returned(Print(NotConnected));
        }
        var cmd := DownloadFile(m, env);
        out := Returned(cmd);
      case Ignore =>
    }
  }


  // ---------------------------------------------------------------------------
  // The dispatcher.

  /** `Update`. */
  function UpdateSpec(s: Model, env: Env, msg: Msg): Step
  {
    match msg
    case WindowSize(w, h) => Step(ResizeSpec(s, w, h), Returned(NoCmd))
    case Key(key) =>
      if s.preview then (if s.searchMode then SearchSpec(s, key) else PaneKeySpec(s, env, key))
      else if s.mode != Normal then EditKeySpec(s, env, key)
      else NormalKeySpec(s, env, key)
    case OtherMsg => Step(s, Returned(NoCmd))
  }

  method Update(m: FileManagerState, env: Env, msg: Msg) returns (out: Outcome)
    modifies m
    ensures Step(m.Snap(), out) == UpdateSpec(old(m.Snap()), env, msg)
  {
    match msg {
      case WindowSize(w, h) =>
        Resize(m, w, h);
        out := Returned(NoCmd);
      case Key(key) =>
        if m.preview {
          if m.searchMode {
            out := SearchKey(m, key);
          } else {
            out := PaneKey(m, env, key);
          }
        } else if m.mode != Normal {
          out := EditKey(m, env, key);
        } else {
          out := NormalKey(m, env, key);
        }
      case OtherMsg =>
        out := Returned(NoCmd);
    }
  }

  // ---------------------------------------------------------------------------
  // Scrolling by ten lines.

  /** Ten steps of one line scroll as far as one step of ten lines, when the pane starts inside its content. */
  lemma {:induction false} LinesUpIsLineUp(v: Viewport, k: nat)
    requires 0 <= v.yOffset <= MaxYOffset(v)
    ensures LinesUp(v, k) == LineUp(v, k)
    decreases k
  {
    if k > 0 {
      var w := LineUp(v, 1);
      ScrollStaysInContent(v, 1);
      assert MaxYOffset(w) == MaxYOffset(v);
      LinesUpIsLineUp(w, k - 1);
    }
  }

  lemma {:induction false} LinesDownIsLineDown(v: Viewport, k: nat)
    requires 0 <= v.yOffset <= MaxYOffset(v)
    ensures LinesDown(v, k) == LineDown(v, k)
    decreases k
  {
    if k > 0 {
      var w := LineDown(v, 1);
      ScrollStaysInContent(v, 1);
      assert MaxYOffset(w) == MaxYOffset(v);
      LinesDownIsLineDown(w, k - 1);
    }
  }

  /** "ctrl+k" and "ctrl+j" in the preview move ten lines, stopping at either end of the content. */
  lemma PageKeysScrollTen(s: Model, env: Env)
    requires s.preview && !s.searchMode && 0 <= s.previewView.yOffset <= MaxYOffset(s.previewView)
    ensures var v := s.previewView;
            && UpdateSpec(s, env, Key("ctrl+k")).next.previewView == LineUp(v, PageLines)
            && UpdateSpec(s, env, Key("ctrl+j")).next.previewView == LineDown(v, PageLines)
            && 0 <= LineUp(v, PageLines).yOffset <= MaxYOffset(v) && 0 <= LineDown(v, PageLines).yOffset <= MaxYOffset(v)
  {
    LinesUpIsLineUp(s.previewView, PageLines);
    LinesDownIsLineDown(s.previewView, PageLines);
    ScrollStaysInContent(s.previewView, PageLines);
  }

  // ---------------------------------------------------------------------------
  // The search invariant.

  /** While there are matches, the current one is one of them. */
  predicate MatchValid(s: Model)
  {
    |s.searchMatches| > 0 ==> 0 <= s.currentMatch < |s.searchMatches|
  }

  /** From a valid match, the search keys never index past the matches, and keep the match valid. */
  lemma SearchKeepsMatchValid(s: Model, key: string)
    requires MatchValid(s)
    ensures SearchSpec(s, key).out == Returned(NoCmd) && MatchValid(SearchSpec(s, key).next)
  {
    if |s.searchMatches| > 0 {
      MatchCycling(s.currentMatch, |s.searchMatches|);
    }
  }

  /** The keys of the preview pane leave the matches and the connection alone. */
  lemma PaneKeyFrame(s: Model, env: Env, key: string)
    ensures SameMatches(s, PaneKeySpec(s, env, key).next) && SameConnection(s, PaneKeySpec(s, env, key).next)
  {
    if key == "f" || key == "esc" || key == "h" || key == "ctrl+c" || key == "q" {
      PaneNamedKeyFrame(s, env, key);
    } else {
      PaneScrollFrame(s, env, key);
    }
  }

  lemma PaneNamedKeyFrame(s: Model, env: Env, key: string)
    requires key == "f" || key == "esc" || key == "h" || key == "ctrl+c" || key == "q"
    ensures SameMatches(s, PaneKeySpec(s, env, key).next) && SameConnection(s, PaneKeySpec(s, env, key).next)
  {
    var t := PaneKeySpec(s, env, key).next;
    assert t == s || t == s.(searchMode := true, searchQuery := "") || t == s.(preview := false);
  }

  lemma PaneScrollFrame(s: Model, env: Env, key: string)
    requires key != "f" && key != "esc" && key != "h" && key != "ctrl+c" && key != "q"
    ensures SameMatches(s, PaneKeySpec(s, env, key).next) && SameConnection(s, PaneKeySpec(s, env, key).next)
  {
  }

  /** Opening a prompt leaves the matches and the connection alone. */
  lemma PromptFrame(s: Model, mode: Mode)
    ensures SameMatches(s, PromptSpec(s, mode).next) && SameConnection(s, PromptSpec(s, mode).next)
  {
    if mode == Rename { RenamePromptFrame(s, mode); } else { OtherPromptFrame(s, mode); }
  }

  lemma RenamePromptFrame(s: Model, mode: Mode)
    requires mode == Rename
    ensures SameMatches(s, PromptSpec(s, mode).next) && SameConnection(s, PromptSpec(s, mode).next)
  {
    if 0 <= s.cursor < |s.files| {
      assert PromptSpec(s, mode) == Step(s.(mode := Rename, input := s.files[s.cursor].name), Returned(NoCmd));
    } else {
      assert PromptSpec(s, mode) == Step(s, Panicked);
    }
  }

  lemma OtherPromptFrame(s: Model, mode: Mode)
    requires mode != Rename
    ensures SameMatches(s, PromptSpec(s, mode).next) && SameConnection(s, PromptSpec(s, mode).next)
  {
    if mode == Delete {
      assert PromptSpec(s, mode) == Step(s.(mode := Delete, input := "", confirmDelete := false), Returned(NoCmd));
    } else {
      assert PromptSpec(s, mode) == Step(s.(mode := mode, input := ""), Returned(NoCmd));
    }
  }

  lemma DisconnectKeyFrame(s: Model, env: Env)
    requires s.isRemote
    ensures SameMatches(s, SftpKeySpec(s, env).next) && ConnectionConsistent(SftpKeySpec(s, env).next)
  {
    DisconnectKeepsSearch(s, env);
    DisconnectEffect(s, env);
  }

  lemma AskCredentialsFrame(s: Model, env: Env)
    requires !s.isRemote
    ensures SameMatches(s, SftpKeySpec(s, env).next) && SameConnection(s, SftpKeySpec(s, env).next)
  {
    if HasSavedCredentials(env) {
      assert SftpKeySpec(s, env) == Step(s.(mode := SftpConfirm, input := ""), Returned(NoCmd));
    } else {
      assert SftpKeySpec(s, env) == Step(s.(mode := SftpHost, input := ""), Returned(NoCmd));
    }
  }

  /** "ctrl+s" leaves the matches alone and the handles set exactly while the listing is remote. */
  lemma SftpKeyFrame(s: Model, env: Env)
    requires ConnectionConsistent(s)
    ensures SameMatches(s, SftpKeySpec(s, env).next) && ConnectionConsistent(SftpKeySpec(s, env).next)
  {
    if s.isRemote { DisconnectKeyFrame(s, env); } else { AskCredentialsFrame(s, env); }
  }

  lemma EnterKeyFrame(s: Model, env: Env)
    ensures SameMatches(s, EnterSpec(s, env).next) && SameConnection(s, EnterSpec(s, env).next)
  {
    EnterFrame(s, env);
  }

  lemma DownloadKeyFrame(s: Model, env: Env)
    ensures SameMatches(s, DownloadSpec(s, env).next) && SameConnection(s, DownloadSpec(s, env).next)
  {
  }

  /**
    A key in the listing leaves the matches alone, and every key but "ctrl+s"
    leaves the connection alone.
   */
  lemma NormalKeyFrame(s: Model, env: Env, key: string)
    ensures SameMatches(s, NormalKeySpec(s, env, key).next)
    ensures ActionOf(key) != ToggleSftp ==> SameConnection(s, NormalKeySpec(s, env, key).next)
  {
    ActionFrame(s, env, key, ActionOf(key));
  }

  lemma ActionFrame(s: Model, env: Env, key: string, a: KeyAction)
    ensures SameMatches(s, ActionSpec(s, env, key, a).next)
    ensures a != ToggleSftp ==> SameConnection(s, ActionSpec(s, env, key, a).next)
  {
    match a {
      case Prompt(mode) =>
        assert ActionSpec(s, env, key, a) == PromptSpec(s, mode);
        PromptFrame(s, mode);
      case Open =>
        assert ActionSpec(s, env, key, a) == EnterSpec(s, env);
        EnterKeyFrame(s, env);
      case ToggleSftp =>
        assert ActionSpec(s, env, key, a) == SftpKeySpec(s, env);
        if s.isRemote { DisconnectKeepsSearch(s, env); } else { AskCredentialsFrame(s, env); }
      case Download =>
        if s.isRemote {
          assert ActionSpec(s, env, key, a) == DownloadSpec(s, env);
          DownloadKeyFrame(s, env);
        } else {
          assert ActionSpec(s, env, key, a) == Step(s, Returned(Print(NotConnected)));
        }
      case Exit =>
        assert ActionSpec(s, env, key, a) == Step(s, Returned(Quit));
      case Cursor =>
        var p := MoveTo(key, Pos(s.cursor, s.offset), |s.files|, s.visibleItems);
        assert ActionSpec(s, env, key, a) == Step(s.(cursor := p.cursor, offset := p.offset), Returned(NoCmd));
      case Peek =>
        assert ActionSpec(s, env, key, a) == PreviewKeySpec(s, env);
        PeekFrame(s, env);
      case Back =>
        assert ActionSpec(s, env, key, a) == Step(BackSpec(s, env), Returned(NoCmd));
        BackFrame(s, env);
      case ExitInDir =>
        assert ActionSpec(s, env, key, a) == Step(s.(exitWithDir := true), Returned(Quit));
      case Ignore =>
        assert ActionSpec(s, env, key, a) == Step(s, Returned(NoCmd));
    }
  }

  /** " " writes only the pane fields. */
  lemma PeekFrame(s: Model, env: Env)
    ensures SameMatches(s, PreviewKeySpec(s, env).next) && SameConnection(s, PreviewKeySpec(s, env).next)
  {
    var p := LoadPane(s, env);
    var loaded := s.(previewView := p.view, previewContent := p.content, previewFile := p.file);
    assert LoadPreviewSpec(s, env) == Step(loaded, p.out);
    if p.out.Panicked? {
      assert PreviewKeySpec(s, env) == Step(loaded, p.out);
    } else {
      assert PreviewKeySpec(s, env) == Step(loaded.(preview := true), Returned(NoCmd));
    }
  }

  /** "b" writes only the navigation fields. */
  lemma BackFrame(s: Model, env: Env)
    ensures SameMatches(s, BackSpec(s, env)) && SameConnection(s, BackSpec(s, env))
  {
    var n := if s.inArchive then LeaveArchiveNav(s, env) else LeaveDirectoryNav(s, env);
    assert BackSpec(s, env) == WithNav(s, n);
  }

  /** A key in a prompt leaves the matches alone and keeps the connection consistent. */
  lemma EditKeyFrame(s: Model, env: Env, key: string)
    requires ConnectionConsistent(s)
    ensures SameMatches(s, EditKeySpec(s, env, key).next) && ConnectionConsistent(EditKeySpec(s, env, key).next)
  {
    if key == "esc" {
      assert EditKeySpec(s, env, key) == Step(s.(mode := Normal), Returned(NoCmd));
    } else if key == "enter" {
      assert EditKeySpec(s, env, key) == InputSpec(s, env);
      InputKeepsSearch(s, env);
      InputKeepsConnectionConsistent(s, env);
    } else {
      assert EditKeySpec(s, env, key) == Step(s.(input := Edited(s.input, key)), Returned(NoCmd));
    }
  }

  /** Every message keeps the current match among the matches. */
  lemma UpdateKeepsMatchValid(s: Model, env: Env, msg: Msg)
    requires MatchValid(s)
    ensures MatchValid(UpdateSpec(s, env, msg).next)
  {
    if msg.Key? {
      var key := msg.key;
      if s.preview && s.searchMode {
        assert UpdateSpec(s, env, msg) == SearchSpec(s, key);
        SearchKeepsMatchValid(s, key);
      } else if s.preview {
        assert UpdateSpec(s, env, msg) == PaneKeySpec(s, env, key);
        PaneKeyFrame(s, env, key);
      } else if s.mode != Normal {
        assert UpdateSpec(s, env, msg) == EditKeySpec(s, env, key);
        EditMatches(s, env, key);
      } else {
        assert UpdateSpec(s, env, msg) == NormalKeySpec(s, env, key);
        NormalKeyFrame(s, env, key);
      }
    }
  }

  /** A key in a prompt leaves the matches alone. */
  lemma EditMatches(s: Model, env: Env, key: string)
    ensures SameMatches(s, EditKeySpec(s, env, key).next)
  {
    if key == "esc" {
      assert EditKeySpec(s, env, key) == Step(s.(mode := Normal), Returned(NoCmd));
    } else if key == "enter" {
      assert EditKeySpec(s, env, key) == InputSpec(s, env);
      InputKeepsSearch(s, env);
    } else {
      assert EditKeySpec(s, env, key) == Step(s.(input := Edited(s.input, key)), Returned(NoCmd));
    }
  }

  // ---------------------------------------------------------------------------
  // The connection invariant.

  /** Every message keeps the SFTP handles set exactly while the listing is remote. */
  lemma UpdateKeepsConnectionConsistent(s: Model, env: Env, msg: Msg)
    requires ConnectionConsistent(s)
    ensures ConnectionConsistent(UpdateSpec(s, env, msg).next)
  {
    if msg.Key? {
      var key := msg.key;
      if s.preview && s.searchMode {
        assert UpdateSpec(s, env, msg) == SearchSpec(s, key);
      } else if s.preview {
        assert UpdateSpec(s, env, msg) == PaneKeySpec(s, env, key);
        PaneKeyFrame(s, env, key);
      } else if s.mode != Normal {
        assert UpdateSpec(s, env, msg) == EditKeySpec(s, env, key);
        EditKeyFrame(s, env, key);
      } else {
        assert UpdateSpec(s, env, msg) == NormalKeySpec(s, env, key);
        NormalKeepsConnection(s, env, key);
      }
    }
  }

  lemma NormalKeepsConnection(s: Model, env: Env, key: string)
    requires ConnectionConsistent(s)
    ensures ConnectionConsistent(NormalKeySpec(s, env, key).next)
  {
    if ActionOf(key) == ToggleSftp {
      assert NormalKeySpec(s, env, key) == SftpKeySpec(s, env);
      SftpKeyFrame(s, env);
    } else {
      NormalKeyFrame(s, env, key);
    }
  }

  // ---------------------------------------------------------------------------
  // Typing.

  /**
    In the delete prompt "y" and "n" are typed like any other key: the prompt
    branch of `Update` returns first, so its confirmation block never runs.
   */
  lemma DeleteAnswerIsTyped(s: Model, env: Env, key: string)
    requires !s.preview && s.mode == Delete && (key == "y" || key == "n")
    ensures UpdateSpec(s, env, Key(key)) == Step(s.(input := s.input + key), Returned(NoCmd))
  {
    ByteLenOne(key);
    assert Edited(s.input, key) == s.input + key;
    assert UpdateSpec(s, env, Key(key)) == EditKeySpec(s, env, key);
  }

  /** In a prompt, a typed key followed by "backspace" gives back the state it started from. */
  lemma TypeThenErase(s: Model, env: Env, key: string)
    requires ByteLen(key) == 1
    ensures var t := EditKeySpec(s, env, key);
            && t == Step(s.(input := s.input + key), Returned(NoCmd))
            && EditKeySpec(t.next, env, "backspace") == Step(s, Returned(NoCmd))
  {
    ByteLenOne(key);
    assert (s.input + key)[..|s.input|] == s.input;
  }

  /** While searching, a typed key other than "n" and "p" followed by "backspace" gives back the state it started from. */
  lemma SearchTypeThenErase(s: Model, key: string)
    requires ByteLen(key) == 1 && key != "n" && key != "p"
    ensures var t := SearchSpec(s, key);
            && t == Step(s.(searchQuery := s.searchQuery + key), Returned(NoCmd))
            && SearchSpec(t.next, "backspace") == Step(s, Returned(NoCmd))
  {
    var typed := s.(searchQuery := s.searchQuery + key);
    SearchTypes(s, key);
    SearchErases(typed);
    assert (s.searchQuery + key)[..|s.searchQuery|] == s.searchQuery;
    assert typed.(searchQuery := s.searchQuery) == s;
  }

  lemma SearchTypes(s: Model, key: string)
    requires ByteLen(key) == 1 && key != "n" && key != "p"
    ensures SearchSpec(s, key) == Step(s.(searchQuery := s.searchQuery + key), Returned(NoCmd))
  {
    ByteLenOne(key);
    assert key != "esc" && key != "enter" && key != "backspace";
  }

  lemma SearchErases(s: Model)
    requires |s.searchQuery| > 0
    ensures SearchSpec(s, "backspace") == Step(s.(searchQuery := s.searchQuery[..|s.searchQuery| - 1]), Returned(NoCmd))
  {
  }

  /** "q" quits from the listing and from the preview, but is typed into a prompt. */
  lemma QuitKeys(s: Model, env: Env)
    ensures !s.preview && s.mode == Normal ==> UpdateSpec(s, env, Key("q")) == Step(s, Returned(Quit))
    ensures s.preview && !s.searchMode ==> UpdateSpec(s, env, Key("q")) == Step(s, Returned(Quit))
    ensures !s.preview && s.mode != Normal ==>
              UpdateSpec(s, env, Key("q")) == Step(s.(input := s.input + "q"), Returned(NoCmd))
    ensures !s.preview && s.mode == Normal ==>
              UpdateSpec(s, env, Key("ctrl+o")) == Step(s.(exitWithDir := true), Returned(Quit))
  {
    assert ByteLen("q") == 1;
  }

  // ---------------------------------------------------------------------------
  // The cursor.

  /**
    In the listing, every cursor key but "ctrl+j" keeps the cursor on a screen
    row of a non-empty listing (for "ctrl+j" see `Scroll.PageDownCanHideCursor`).
   */
  lemma CursorKeysKeepCursorOnScreen(s: Model, env: Env, key: string)
    requires !s.preview && s.mode == Normal && IsMoveKey(key) && key != "ctrl+j"
    requires s.visibleItems >= 1 && OnScreen(Pos(s.cursor, s.offset), s.visibleItems) && s.cursor < |s.files|
    ensures var t := UpdateSpec(s, env, Key(key)).next;
            OnScreen(Pos(t.cursor, t.offset), t.visibleItems) && 0 <= t.cursor < |t.files| && t.files == s.files
  {
    var here := Pos(s.cursor, s.offset);
    var p := MoveTo(key, here, |s.files|, s.visibleItems);
    CursorKeyStep(s, env, key);
    assert p in {Up(here), PageUp(here), Top(here), Down(here, |s.files|, s.visibleItems), Bottom(here, |s.files|, s.visibleItems)};
    MovesKeepCursorOnScreen(here, |s.files|, s.visibleItems);
  }

  /** A cursor key in the listing moves the cursor and the offset and changes nothing else. */
  lemma CursorKeyStep(s: Model, env: Env, key: string)
    requires !s.preview && s.mode == Normal && IsMoveKey(key)
    ensures var p := MoveTo(key, Pos(s.cursor, s.offset), |s.files|, s.visibleItems);
            UpdateSpec(s, env, Key(key)) == Step(s.(cursor := p.cursor, offset := p.offset), Returned(NoCmd))
  {
    assert ActionOf(key) == Cursor;
  }

  // ---------------------------------------------------------------------------
  // SFTP keys.

  /**
    "ctrl+s" disconnects a remote listing; on a local one it asks to confirm the
    saved credentials exactly when complete ones load, and for a host otherwise.
   */
  lemma SftpKeyChoices(s: Model, env: Env)
    requires !s.preview && s.mode == Normal
    ensures var r := UpdateSpec(s, env, Key("ctrl+s"));
            && (s.isRemote ==> r == Step(DisconnectSpec(s, env), Returned(Print(Disconnected))) && !r.next.isRemote)
            && (!s.isRemote ==>
                  && r.out == Returned(NoCmd) && r.next == s.(mode := r.next.mode, input := "")
                  && (r.next.mode == SftpConfirm <==> HasSavedCredentials(env))
                  && (r.next.mode == SftpHost <==> !HasSavedCredentials(env)))
  {
    SftpKeyIsToggle(s, env);
    SftpChoices(s, env);
  }

  lemma SftpKeyIsToggle(s: Model, env: Env)
    requires !s.preview && s.mode == Normal
    ensures UpdateSpec(s, env, Key("ctrl+s")) == SftpKeySpec(s, env)
  {
    assert ActionOf("ctrl+s") == ToggleSftp;
  }

  lemma SftpChoices(s: Model, env: Env)
    ensures var r := SftpKeySpec(s, env);
            && (s.isRemote ==> r == Step(DisconnectSpec(s, env), Returned(Print(Disconnected))) && !r.next.isRemote)
            && (!s.isRemote ==>
                  && r.out == Returned(NoCmd) && r.next == s.(mode := r.next.mode, input := "")
                  && (r.next.mode == SftpConfirm <==> HasSavedCredentials(env))
                  && (r.next.mode == SftpHost <==> !HasSavedCredentials(env)))
  {
    if s.isRemote {
      DisconnectEffect(s, env);
    } else {
      SftpAsks(s, env);
    }
  }

  /** Off a server, "ctrl+s" only changes the prompt: to the confirmation when there are saved credentials, to the host otherwise. */
  lemma SftpAsks(s: Model, env: Env)
    requires !s.isRemote
    ensures var r := SftpKeySpec(s, env);
            && r.out == Returned(NoCmd) && r.next == s.(mode := r.next.mode, input := "")
            && r.next.mode == (if HasSavedCredentials(env) then SftpConfirm else SftpHost)
  {
    if HasSavedCredentials(env) {
      assert SftpKeySpec(s, env) == Step(s.(mode := SftpConfirm, input := ""), Returned(NoCmd));
    } else {
      assert SftpKeySpec(s, env) == Step(s.(mode := SftpHost, input := ""), Returned(NoCmd));
    }
  }

  /** "ctrl+x" downloads only from a server, and a download only adds to the request log and the status line. */
  lemma DownloadKeyOnlyRemote(s: Model, env: Env)
    requires !s.preview && s.mode == Normal
    ensures var r := UpdateSpec(s, env, Key("ctrl+x"));
            && (!s.isRemote ==> r == Step(s, Returned(Print(NotConnected))))
            && (s.isRemote ==>
                  && r.next == s.(requests := r.next.requests, status := r.next.status)
                  && s.requests <= r.next.requests)
  {
    assert ActionOf("ctrl+x") == Download;
    if s.isRemote {
      assert UpdateSpec(s, env, Key("ctrl+x")) == DownloadSpec(s, env);
      DownloadOnlyAppends(s, env);
    } else {
      assert UpdateSpec(s, env, Key("ctrl+x")) == Step(s, Returned(Print(NotConnected)));
    }
  }

  /**
    "r" fills the prompt with the selected name, so submitting it unchanged asks
    to rename the selected row onto itself.
   */
  lemma RenameUnchanged(s: Model, env: Env)
    requires !s.preview && s.mode == Normal && 0 <= s.cursor < |s.files|
    ensures var t := UpdateSpec(s, env, Key("r")).next;
            var p := Join(s.cwd, s.files[s.cursor].name);
            && t.mode == Rename && t.input == s.files[s.cursor].name
            && UpdateSpec(t, env, Key("enter")).next.requests == s.requests + [RenamePath(p, p, s.isRemote)]
  {
  }
}
