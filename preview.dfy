/**
  `service/preview.go`: loading the selected file into the preview pane
  (`loadPreview`), the search over the previewed text (`findMatches`) and the
  padding of the pane (`renderPreview`).
 */
module Preview {
  import opened Common
  import opened Text
  import opened Paths
  import opened Entries
  import opened Utils
  import opened Markdown
  import opened Viewport
  import opened Backend
  import opened State

  /** What the pane shows for a file it refuses. */
  const UnsupportedNotice: string := "Формат файла не поддерживается для просмотра"
  const OpenErrorPrefix: string := "Ошибка открытия файла: "
  const ReadErrorPrefix: string := "Ошибка чтения файла: "

  /**
    The conversion picked by the exact (case-sensitive) extension: JSON and XML
    are re-indented when they parse, Markdown is rendered, anything else is kept.
   */
  function Transform(env: Env, text: string, fileName: string): string
  {
    var ext := Ext(fileName);
    if ext == ".json" then (match env.formatJson(text) case Some(f) => f case None => text)
    else if ext == ".xml" then (match env.formatXml(text) case Some(f) => f case None => text)
    else if ext == ".md" then MarkdownToANSI(text)
    else text
  }

  /** Whether `loadPreview` refuses the selected row. */
  predicate Refused(s: Model, env: Env)
    requires 0 <= s.cursor < |s.files|
  {
    var sel := s.files[s.cursor];
    IsUnsupportedFile(sel.name, sel, env.opensByName(sel.name))
  }

  /** The name `loadPreview` shows for the selected row: the member's full name inside an archive. */
  function PreviewName(s: Model): string
    requires 0 <= s.cursor < |s.files| && (s.inArchive ==> s.cursor < |s.archiveFiles|)
  {
    if s.inArchive then s.archiveFiles[s.cursor].name else s.files[s.cursor].name
  }

  /** What reading the selected row gives: the archive member, or the file next to `cwd` on the server or on disk. */
  function ReadSelected(s: Model, env: Env): ReadResult
    requires 0 <= s.cursor < |s.files| && (s.inArchive ==> s.cursor < |s.archiveFiles|)
  {
    if s.inArchive then s.archiveFiles[s.cursor].content
    else if s.isRemote then env.remoteRead(Join(s.cwd, s.files[s.cursor].name))
    else env.localRead(Join(s.cwd, s.files[s.cursor].name))
  }

  /** The message for a failed read: archive and server files tell opening from reading, local files do not. */
  function ReadFailure(inArchive: bool, isRemote: bool, r: ReadResult): string
    requires !r.ReadOk?
  {
    if r.OpenErr? && (inArchive || isRemote) then OpenErrorPrefix + r.err else ReadErrorPrefix + r.err
  }

  /** The three fields `loadPreview` writes, and how it ends. */
  datatype PaneStep = PaneStep(view: Viewport, content: string, file: string, out: Outcome)

  /** What `loadPreview` writes into the pane fields. */
  function LoadPane(s: Model, env: Env): PaneStep
  {
    var keep := PaneStep(s.previewView, s.previewContent, s.previewFile, Returned(NoCmd));
    if |s.files| == 0 then keep
    else if !(0 <= s.cursor < |s.files|) then keep.(out := Panicked)
    else if Refused(s, env) then keep.(view := SetContent(s.previewView, UnsupportedNotice))
    else if s.inArchive && s.cursor >= |s.archiveFiles| then keep.(out := Panicked)
    else
      var name := PreviewName(s);
      var read := ReadSelected(s, env);
      if !read.ReadOk? then keep.(view := SetContent(s.previewView, ReadFailure(s.inArchive, s.isRemote, read)))
      else
        var shown := Transform(env, read.text, name);
        PaneStep(GotoTop(SetContent(s.previewView, env.highlight(shown, name))), shown, name, Returned(NoCmd))
  }

  /** The effect of `loadPreview`: only the pane, the previewed text and its name change. */
  function LoadPreviewSpec(s: Model, env: Env): Step
  {
    var p := LoadPane(s, env);
    Step(s.(previewView := p.view, previewContent := p.content, previewFile := p.file), p.out)
  }

  /** Writes the pane fields. */
  method SetPane(m: FileManagerState, p: PaneStep)
    modifies m
    ensures m.Snap() == old(m.Snap()).(previewView := p.view, previewContent := p.content, previewFile := p.file)
  {
    m.previewView, m.previewContent, m.previewFile := p.view, p.content, p.file;
  }

  /** The name and the text of the selected row, read from the archive, the server or the disk. */
  method ReadSelection(m: FileManagerState, env: Env) returns (fileName: string, read: ReadResult)
    requires 0 <= m.cursor < |m.files| && (m.inArchive ==> m.cursor < |m.archiveFiles|)
    ensures fileName == PreviewName(m.Snap()) && read == ReadSelected(m.Snap(), env)
  {
    if m.inArchive {
      var member := m.archiveFiles[m.cursor];
      fileName := member.name;
      read := member.content;
    } else {
      var selected := m.files[m.cursor];
      var filePath := Join(m.cwd, selected.name);
      fileName := selected.name;
      if m.isRemote {
        read := env.remoteRead(filePath);
      } else {
        read := env.localRead(filePath);
      }
    }
  }

  /** `loadPreview`. */
  method LoadPreview(m: FileManagerState, env: Env) returns (out: Outcome)
    modifies m
    ensures Step(m.Snap(), out) == LoadPreviewSpec(old(m.Snap()), env)
  {
    ghost var s := m.Snap();
    var p := PaneStep(m.previewView, m.previewContent, m.previewFile, Returned(NoCmd));
    if |m.files| == 0 {
    } else if !(0 <= m.cursor < |m.files|) {
      p := p.(out := Panicked);
    } else {
      var selected := m.files[m.cursor];
      var opens := env.opensByName(selected.name);
      if IsUnsupportedFile(selected.name, selected, opens) {
        p := p.(view := SetContent(m.previewView, UnsupportedNotice));
      } else if m.inArchive && m.cursor >= |m.archiveFiles| {
        p := p.(out := Panicked);
      } else {
        var fileName, read := ReadSelection(m, env);
        if !read.ReadOk? {
          p := p.(view := SetContent(m.previewView, ReadFailure(m.inArchive, m.isRemote, read)));
        } else {
          var contentStr := Transform(env, read.text, fileName);
          var highlighted := env.highlight(contentStr, fileName);
          p := PaneStep(GotoTop(SetContent(m.previewView, highlighted)), contentStr, fileName, Returned(NoCmd));
        }
      }
    }
    assert p == LoadPane(s, env);
    out := p.out;
    SetPane(m, p);
  }

  /** `loadPreview` does nothing on an empty listing, and panics, changing nothing, only where the Go code indexes past the listing or past the archive members. */
  lemma LoadPreviewPanics(s: Model, env: Env)
    ensures |s.files| == 0 ==> LoadPreviewSpec(s, env) == Step(s, Returned(NoCmd))
    ensures LoadPreviewSpec(s, env).out.Panicked? <==>
              |s.files| > 0 &&
              (!(0 <= s.cursor < |s.files|) || (!Refused(s, env) && s.inArchive && s.cursor >= |s.archiveFiles|))
    ensures LoadPreviewSpec(s, env).out.Panicked? ==> LoadPreviewSpec(s, env).next == s
  {
  }

  /** A refused file puts the notice alone in the pane and keeps the previewed text. */
  lemma RefusedShowsNotice(s: Model, env: Env)
    requires 0 <= s.cursor < |s.files| && Refused(s, env)
    ensures var p := LoadPane(s, env);
            p.view.lines == [UnsupportedNotice] && p.content == s.previewContent && p.file == s.previewFile
  {
    NoticeIsOneLine();
  }

  lemma NoticeIsOneLine()
    ensures Split(UnsupportedNotice, '\n') == [UnsupportedNotice]
  {
    assert forall i :: 0 <= i < |UnsupportedNotice| ==> UnsupportedNotice[i] != '\n';
    SplitNoSep(UnsupportedNotice, '\n');
  }

  /**
    A file that reads back is shown converted and scrolled to the top, and the
    text kept for searching is the converted text; an unreadable file leaves
    that text and its name as they were.
   */
  lemma LoadPreviewContent(s: Model, env: Env)
    requires 0 <= s.cursor < |s.files| && (s.inArchive ==> s.cursor < |s.archiveFiles|) && !Refused(s, env)
    ensures var p := LoadPane(s, env);
            var read := ReadSelected(s, env);
            && (!read.ReadOk? ==> p.content == s.previewContent && p.file == s.previewFile &&
                                  p.view.lines == Split(ReadFailure(s.inArchive, s.isRemote, read), '\n'))
            && (read.ReadOk? ==>
                  && p.content == Transform(env, read.text, PreviewName(s))
                  && p.file == PreviewName(s)
                  && AtTop(p.view))
  {
  }

  /** A Markdown preview has the lines of its source, so a match found in it names a line of the file. */
  lemma MarkdownPreviewKeepsLines(env: Env, text: string, fileName: string)
    requires Ext(fileName) == ".md"
    ensures Count('\n', Transform(env, text, fileName)) == Count('\n', text)
  {
    MarkdownKeepsLines(text);
  }

  /** The extension switch is case-sensitive: "README.MD" is shown as it is. */
  lemma UpperCaseMarkdownUntouched(env: Env, text: string)
    ensures Transform(env, text, "README.MD") == text
  {
    assert DotIndex("README.MD", 9) == 6;
    assert Ext("README.MD") == ".MD";
  }

  // ---------------------------------------------------------------------------
  // Search.

  /** The numbers, from `i` on, of the lines that contain `q`. */
  function MatchesFrom(lines: seq<string>, q: string, i: nat): (r: seq<int>)
    requires i <= |lines|
    ensures forall k :: 0 <= k < |r| ==> i <= r[k] < |lines|
    ensures forall k, l :: 0 <= k < l < |r| ==> r[k] < r[l]
    ensures forall j :: i <= j < |lines| ==> (j in r <==> Contains(Lower(lines[j]), q))
    decreases |lines| - i
  {
    if i == |lines| then []
    else if Contains(Lower(lines[i]), q) then [i] + MatchesFrom(lines, q, i + 1)
    else MatchesFrom(lines, q, i + 1)
  }

  /** `findMatches(query)` on the previewed text: nothing for an empty query. */
  function Matches(content: string, query: string): seq<int>
  {
    if query == "" then [] else MatchesFrom(Split(content, '\n'), Lower(query), 0)
  }

  /** An empty query matches nothing. */
  lemma EmptyQueryMatchesNothing(content: string)
    ensures Matches(content, "") == []
  {
  }

  /**
    The matches are exactly the lines whose lower-cased text contains the
    lower-cased query, in increasing order, each a line of the text.
   */
  lemma MatchesAreTheMatchingLines(content: string, query: string)
    requires query != ""
    ensures var r := Matches(content, query);
            var lines := Split(content, '\n');
            && (forall k, l :: 0 <= k < l < |r| ==> r[k] < r[l])
            && (forall k :: 0 <= k < |r| ==> 0 <= r[k] <= Count('\n', content))
            && (forall j :: 0 <= j < |lines| ==> (j in r <==> Contains(Lower(lines[j]), Lower(query))))
  {
    SplitCount(content, '\n');
  }

  /** `findMatches`. */
  method FindMatches(m: FileManagerState, query: string) returns (r: seq<int>)
    ensures r == Matches(m.previewContent, query)
  {
    if query == "" {
      return [];
    }
    var lines := Split(m.previewContent, '\n');
    var q := Lower(query);
    r := [];
    var i := 0;
    while i < |lines|
      invariant 0 <= i <= |lines|
      invariant r + MatchesFrom(lines, q, i) == MatchesFrom(lines, q, 0)
    {
      if Contains(Lower(lines[i]), q) {
        r := r + [i];
      }
      i := i + 1;
    }
  }

  /** Go's `%`, which truncates towards zero. */
  function GoMod(a: int, b: int): int
    requires b != 0
  {
    if a >= 0 then a % b else -((-a) % b)
  }

  /** "n": the next match, wrapping around. */
  function NextMatch(current: int, count: int): int
    requires count > 0
  {
    GoMod(current + 1, count)
  }

  /** "p": the previous match, wrapping around. */
  function PrevMatch(current: int, count: int): int
    requires count > 0
  {
    GoMod(current - 1 + count, count)
  }

  /** From a valid match index, "n" and "p" stay valid and undo each other. */
  lemma MatchCycling(current: int, count: int)
    requires 0 <= current < count
    ensures 0 <= NextMatch(current, count) < count && 0 <= PrevMatch(current, count) < count
    ensures PrevMatch(NextMatch(current, count), count) == current
    ensures NextMatch(PrevMatch(current, count), count) == current
  {
    var next := if current + 1 == count then 0 else current + 1;
    var prev := if current == 0 then count - 1 else current - 1;
    ModOfSmall(next, count);
    ModOfSmall(prev, count);
    ModOfSmall(current, count);
    assert current + 1 == next || current + 1 == next + count;
    ModPlusCount(next, count);
    assert current - 1 + count == prev || current - 1 + count == prev + count;
    ModPlusCount(prev, count);
    assert next - 1 + count == current || next - 1 + count == current + count;
    assert prev + 1 == current || prev + 1 == current + count;
    ModPlusCount(current, count);
  }

  lemma ModOfSmall(a: int, b: int)
    requires 0 <= a < b
    ensures a % b == a
  {
  }

  lemma ModPlusCount(a: int, b: int)
    requires 0 <= a < b
    ensures (a + b) % b == a
  {
  }

  // ---------------------------------------------------------------------------
  // Padding.

  /** The padding `renderPreview` adds: newlines up to `height - 2` lines. */
  function PadContent(content: string, height: int): string
  {
    var lines := |Split(content, '\n')|;
    if lines < height - 2 then content + Repeat("\n", height - 2 - lines) else content
  }

  /** The padded pane has `height - 2` lines, or more when the content has more. */
  lemma PaddedLines(content: string, height: int)
    ensures var lines := |Split(content, '\n')|;
            |Split(PadContent(content, height), '\n')| == if lines < height - 2 then height - 2 else lines
    ensures content == PadContent(content, height)[..|content|]
  {
    var lines := |Split(content, '\n')|;
    SplitCount(content, '\n');
    if lines < height - 2 {
      var pad := Repeat("\n", height - 2 - lines);
      RepeatNewlines(height - 2 - lines);
      CountConcat('\n', content, pad);
      SplitCount(content + pad, '\n');
      assert (content + pad)[..|content|] == content;
    }
  }
}
