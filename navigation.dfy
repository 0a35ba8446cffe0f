/**
  `service/navigation.go`: leaving a directory or an archive (`navigateBack`) and
  opening the selected row (`handleEnter`): a directory is entered, a ZIP
  archive is opened as a listing, any other file is previewed.
 */
module Navigation {
  import opened Common
  import opened Paths
  import opened Entries
  import opened Utils
  import opened Backend
  import opened State
  import opened Scroll
  import opened Preview

  /** The fields navigation writes. */
  datatype Nav = Nav(
    cwd: Path, files: seq<Entry>, cursor: int, offset: int, preview: bool,
    cursorPositions: map<Path, int>, inArchive: bool, archivePath: Option<Path>,
    archiveFiles: seq<ArchiveMember>, archiveReaderOpen: bool, remoteArchiveOpen: bool,
    prevCursorPos: int)

  function NavOf(s: Model): Nav
  {
    Nav(s.cwd, s.files, s.cursor, s.offset, s.preview, s.cursorPositions, s.inArchive, s.archivePath,
        s.archiveFiles, s.archiveReaderOpen, s.remoteArchiveOpen, s.prevCursorPos)
  }

  function WithNav(s: Model, n: Nav): Model
  {
    s.(cwd := n.cwd, files := n.files, cursor := n.cursor, offset := n.offset, preview := n.preview,
       cursorPositions := n.cursorPositions, inArchive := n.inArchive, archivePath := n.archivePath,
       archiveFiles := n.archiveFiles, archiveReaderOpen := n.archiveReaderOpen,
       remoteArchiveOpen := n.remoteArchiveOpen, prevCursorPos := n.prevCursorPos)
  }

  method CurrentNav(m: FileManagerState) returns (n: Nav)
    ensures n == NavOf(m.Snap())
  {
    n := Nav(m.cwd, m.files, m.cursor, m.offset, m.preview, m.cursorPositions, m.inArchive, m.archivePath,
             m.archiveFiles, m.archiveReaderOpen, m.remoteArchiveOpen, m.prevCursorPos);
  }

  method SetNav(m: FileManagerState, n: Nav)
    modifies m
    ensures m.Snap() == WithNav(old(m.Snap()), n)
  {
    SetLocation(m, n.cwd, n.files, n.cursor, n.offset);
    SetArchive(m, n.inArchive, n.archivePath, n.archiveFiles, n.prevCursorPos);
    SetRemembered(m, n.preview, n.cursorPositions, n.archiveReaderOpen, n.remoteArchiveOpen);
  }

  /**
    The cursor and offset restored on arriving in `dir` with `n` rows: the saved
    position when there is one below `n` (the Go code checks no lower bound),
    otherwise the first row.
   */
  function Restore(positions: map<Path, int>, dir: Path, n: int, v: int): Pos
  {
    if dir in positions && positions[dir] < n then Pos(positions[dir], FollowOffset(positions[dir], n, v))
    else Pos(0, 0)
  }

  /** A restored position is on a row of the listing, and drawn, unless it is the first row or the saved one is negative. */
  lemma RestoreIsDrawn(positions: map<Path, int>, dir: Path, n: int, v: int)
    requires v >= 1
    ensures var p := Restore(positions, dir, n, v);
            && (p.cursor < n || p.cursor == 0)
            && (0 <= p.cursor < n ==> Window(v, p.offset, n).0 <= p.cursor < Window(v, p.offset, n).1)
            && (p.cursor != 0 ==> dir in positions && p.cursor == positions[dir])
  {
    var p := Restore(positions, dir, n, v);
    if 0 <= p.cursor < n && p.cursor != 0 {
      RestoredCursorIsDrawn(p.cursor, n, v);
    }
    if 0 <= p.cursor < n && p.cursor == 0 && dir in positions && positions[dir] == 0 {
      RestoredCursorIsDrawn(0, n, v);
    }
  }

  // ---------------------------------------------------------------------------
  // navigateBack.

  /**
    Leaving an archive: its handle is closed, the listing of `cwd` comes back and
    the cursor returns to the archive's row.  When that row no longer exists the
    Go code looks for a row named `filepath.Base("")`, that is ".".
   */
  function LeaveArchiveNav(s: Model, env: Env): Nav
  {
    var files := Listing(env, false, [], s.isRemote, s.cwd);
    var pos := ReturnPos(files, s.prevCursorPos, Pos(s.cursor, s.offset), s.visibleItems);
    NavOf(s).(remoteArchiveOpen := if s.isRemote then false else s.remoteArchiveOpen,
              archiveReaderOpen := if s.isRemote then s.archiveReaderOpen else false,
              inArchive := false, archivePath := None, archiveFiles := [], files := files,
              cursor := pos.cursor, offset := pos.offset)
  }

  /** The row of the archive in `files`, or the row named ".", or the position `here`, in that order. */
  function ReturnPos(files: seq<Entry>, prev: int, here: Pos, v: int): Pos
  {
    if 0 <= prev < |files| then Pos(prev, FollowOffset(prev, |files|, v))
    else match IndexOfName(files, ".")
         case Some(i) => Pos(i, here.offset)
         case None => here
  }

  method ReturnPosition(files: seq<Entry>, prev: int, here: Pos, v: int) returns (pos: Pos)
    ensures pos == ReturnPos(files, prev, here, v)
  {
    pos := here;
    if 0 <= prev < |files| {
      pos := Pos(prev, FollowOffset(prev, |files|, v));
    } else {
      var found := FindName(files, ".");
      if found.Some? {
        pos := Pos(found.value, here.offset);
      }
    }
  }

  /**
    Leaving a directory for its parent: the row of the directory in the parent's
    listing, when it is there, becomes the parent's saved position, the cursor of
    the directory is saved, and the parent's position is restored.
   */
  function LeaveDirectoryNav(s: Model, env: Env): Nav
  {
    var parent := Dir(s.cwd);
    if parent == s.cwd then NavOf(s)
    else
      var seeded := match IndexOfName(ListingOf(s, env, parent), Base(s.cwd))
                    case Some(i) => s.cursorPositions[parent := i]
                    case None => s.cursorPositions;
      var positions := seeded[s.cwd := s.cursor];
      var files := ListingOf(s, env, parent);
      var pos := Restore(positions, parent, |files|, s.visibleItems);
      NavOf(s).(cursorPositions := positions, cwd := parent, files := files, cursor := pos.cursor,
                offset := pos.offset, preview := false)
  }

  /** The effect of `navigateBack`. */
  function BackSpec(s: Model, env: Env): Model
  {
    WithNav(s, if s.inArchive then LeaveArchiveNav(s, env) else LeaveDirectoryNav(s, env))
  }

  method LeaveArchive(m: FileManagerState, env: Env)
    requires m.inArchive
    modifies m
    ensures m.Snap() == WithNav(old(m.Snap()), LeaveArchiveNav(old(m.Snap()), env))
  {
    var n := CurrentNav(m);
    var files;
    if m.isRemote {
      files := ReadRemoteFiles(env, m.cwd);
    } else {
      files := ReadLocalFiles(env, m.cwd);
    }
    var pos := ReturnPosition(files, m.prevCursorPos, Pos(m.cursor, m.offset), m.visibleItems);
    n := n.(remoteArchiveOpen := if m.isRemote then false else m.remoteArchiveOpen,
            archiveReaderOpen := if m.isRemote then m.archiveReaderOpen else false,
            inArchive := false, archivePath := None, archiveFiles := [], files := files,
            cursor := pos.cursor, offset := pos.offset);
    SetNav(m, n);
  }

  method LeaveDirectory(m: FileManagerState, env: Env)
    requires !m.inArchive
    modifies m
    ensures m.Snap() == WithNav(old(m.Snap()), LeaveDirectoryNav(old(m.Snap()), env))
  {
    var n := CurrentNav(m);
    var parent := Dir(m.cwd);
    if parent == m.cwd {
      return;
    }
    var parentFiles := ReadFiles(m, env, parent);
    var found := FindName(parentFiles, Base(m.cwd));
    var positions := m.cursorPositions;
    if found.Some? {
      positions := positions[parent := found.value];
    }
    positions := positions[m.cwd := m.cursor];
    var files := ReadFiles(m, env, parent);
    var pos := Restore(positions, parent, |files|, m.visibleItems);
    n := n.(cursorPositions := positions, cwd := parent, files := files, cursor := pos.cursor,
            offset := pos.offset, preview := false);
    SetNav(m, n);
  }

  /** `navigateBack`. */
  method NavigateBack(m: FileManagerState, env: Env)
    modifies m
    ensures m.Snap() == BackSpec(old(m.Snap()), env)
  {
    if m.inArchive {
      LeaveArchive(m, env);
    } else {
      LeaveDirectory(m, env);
    }
  }

  /** At the root, outside an archive, going back changes nothing. */
  lemma BackAtRoot(s: Model, env: Env)
    requires !s.inArchive && s.cwd == Root
    ensures BackSpec(s, env) == s
  {
  }

  /**
    Going back from a directory other than the root lands on its parent with the
    preview closed, remembers the cursor of the directory left, and puts the
    cursor on that directory's row of the parent listing when it is listed there.
   */
  lemma BackLeavesDirectory(s: Model, env: Env)
    requires !s.inArchive && s.cwd != Root
    ensures var r := BackSpec(s, env);
            && r.cwd == Dir(s.cwd) && r.files == ListingOf(s, env, Dir(s.cwd)) && !r.preview
            && s.cwd in r.cursorPositions && r.cursorPositions[s.cwd] == s.cursor
            && (r.cursor < |r.files| || r.cursor == 0)
            && (IndexOfName(r.files, Base(s.cwd)).Some? ==>
                  r.cursor == IndexOfName(r.files, Base(s.cwd)).value && r.files[r.cursor].name == Base(s.cwd))
            && r.inArchive == s.inArchive && r.isRemote == s.isRemote && r.mode == s.mode && r.requests == s.requests
  {
    assert Dir(s.cwd) != s.cwd;
  }

  /**
    When the directory left is not listed in its parent, the cursor goes to the
    parent's saved position if that is below the row count, and to the first row
    otherwise.
   */
  lemma BackWithoutRow(s: Model, env: Env)
    requires !s.inArchive && s.cwd != Root
    requires IndexOfName(ListingOf(s, env, Dir(s.cwd)), Base(s.cwd)).None?
    ensures var r := BackSpec(s, env); var parent := Dir(s.cwd);
            if parent in s.cursorPositions && s.cursorPositions[parent] < |r.files|
            then r.cursor == s.cursorPositions[parent] && r.offset == r.cursor - s.visibleItems + 1
            else r.cursor == 0 && r.offset == 0
  {
    assert Dir(s.cwd) != s.cwd;
  }

  /**
    Going back from an archive closes its handle, restores the listing of the
    directory holding it and puts the cursor back on the archive's row; the
    directory and the preview flag stay as they were.
   */
  lemma BackLeavesArchive(s: Model, env: Env)
    requires s.inArchive
    ensures var r := BackSpec(s, env);
            && !r.inArchive && r.archivePath == None && r.archiveFiles == []
            && r.cwd == s.cwd && r.preview == s.preview
            && r.files == Listing(env, false, [], s.isRemote, s.cwd)
            && (if s.isRemote then !r.remoteArchiveOpen else !r.archiveReaderOpen)
            && (0 <= s.prevCursorPos < |r.files| ==> r.cursor == s.prevCursorPos)
            && (!(0 <= s.prevCursorPos < |r.files|) ==>
                  r.cursor == (match IndexOfName(r.files, ".") case Some(i) => i case None => s.cursor))
  {
  }

  // ---------------------------------------------------------------------------
  // handleEnter.

  /** Entering the selected directory: the cursor is saved, the directory listed and its saved position restored. */
  function EnterDirectoryNav(s: Model, env: Env): Nav
    requires 0 <= s.cursor < |s.files|
  {
    var positions := s.cursorPositions[s.cwd := s.cursor];
    var newPath := Join(s.cwd, s.files[s.cursor].name);
    var files := ListingOf(s, env, newPath);
    var pos := Restore(positions, newPath, |files|, s.visibleItems);
    NavOf(s).(cursorPositions := positions, cwd := newPath, files := files, cursor := pos.cursor, offset := pos.offset)
  }

  /** The messages printed when an archive cannot be opened. */
  const ArchiveOpenError: string := "Ошибка открытия архива:"
  const ArchiveStatError: string := "Ошибка получения информации об архиве:"
  const ArchiveReadError: string := "Ошибка чтения архива:"

  /** The fields navigation writes, and the command it returns. */
  datatype NavStep = NavStep(nav: Nav, cmd: Cmd)

  /** An opened archive's members become the listing, with the cursor on the first. */
  function ArchiveOpenedNav(n: Nav, path: Path, members: seq<ArchiveMember>): Nav
  {
    n.(inArchive := true, archivePath := Some(path), archiveFiles := members, files := Infos(members),
       cursor := 0, offset := 0)
  }

  /**
    Opening the selected ZIP archive: the archive's row is remembered and the
    previous handle of the same side closed before the archive is opened; a
    remote archive is opened, stat-ed and parsed, each step with its own message.
   */
  function OpenArchiveNav(s: Model, env: Env): NavStep
    requires 0 <= s.cursor < |s.files|
  {
    var path := Join(s.cwd, s.files[s.cursor].name);
    var n := NavOf(s).(prevCursorPos := s.cursor);
    if s.isRemote then
      var closed := n.(remoteArchiveOpen := false);
      match env.remoteZip(path)
      case Opened(members) => NavStep(ArchiveOpenedNav(closed, path, members).(remoteArchiveOpen := true), NoCmd)
      case OpenFailed(e) => NavStep(closed, Report(ArchiveOpenError, e))
      case StatFailed(e) => NavStep(closed, Report(ArchiveStatError, e))
      case ParseFailed(e) => NavStep(closed, Report(ArchiveReadError, e))
    else
      var closed := n.(archiveReaderOpen := false);
      match env.localZip(path)
      case Opened(members) => NavStep(ArchiveOpenedNav(closed, path, members).(archiveReaderOpen := true), NoCmd)
      case _ => NavStep(closed, Report(ArchiveReadError, env.localZip(path).err))
  }

  /** The effect of `handleEnter`. */
  function EnterSpec(s: Model, env: Env): Step
  {
    if !(0 <= s.cursor < |s.files|) then Step(s, Panicked)
    else
      var selected := s.files[s.cursor];
      if selected.IsDir() then Step(WithNav(s, EnterDirectoryNav(s, env)), Returned(NoCmd))
      else if IsZipArchive(selected.name) then
        var r := OpenArchiveNav(s, env);
        Step(WithNav(s, r.nav), Returned(r.cmd))
      else
        var loaded := LoadPreviewSpec(s, env);
        if loaded.out.Panicked? then Step(s, Panicked)
        else Step(loaded.next.(preview := true, previewFile := selected.name), Returned(NoCmd))
  }

  /**
    Entering a directory saves the cursor under the directory left, moves into
    the selected directory, and restores its saved position when that is below
    the row count, with the cursor on the last screen row; otherwise the first row.
   */
  lemma EnterDirectoryEffect(s: Model, env: Env)
    requires 0 <= s.cursor < |s.files| && s.files[s.cursor].IsDir()
    ensures var r := EnterSpec(s, env); var dir := Join(s.cwd, s.files[s.cursor].name);
            var positions := s.cursorPositions[s.cwd := s.cursor];
            && r.out == Returned(NoCmd)
            && r.next.cwd == dir && r.next.cursorPositions == positions && r.next.files == ListingOf(s, env, dir)
            && (if dir in positions && positions[dir] < |r.next.files|
                then r.next.cursor == positions[dir] && r.next.offset == r.next.cursor - s.visibleItems + 1
                else r.next.cursor == 0 && r.next.offset == 0)
  {
  }

  method EnterDirectory(m: FileManagerState, env: Env)
    requires 0 <= m.cursor < |m.files|
    modifies m
    ensures m.Snap() == WithNav(old(m.Snap()), EnterDirectoryNav(old(m.Snap()), env))
  {
    var n := CurrentNav(m);
    var positions := m.cursorPositions[m.cwd := m.cursor];
    var newPath := Join(m.cwd, m.files[m.cursor].name);
    var files := ReadFiles(m, env, newPath);
    var pos := Restore(positions, newPath, |files|, m.visibleItems);
    n := n.(cursorPositions := positions, cwd := newPath, files := files, cursor := pos.cursor, offset := pos.offset);
    SetNav(m, n);
  }

  method OpenArchive(m: FileManagerState, env: Env) returns (cmd: Cmd)
    requires 0 <= m.cursor < |m.files|
    modifies m
    ensures var r := OpenArchiveNav(old(m.Snap()), env); m.Snap() == WithNav(old(m.Snap()), r.nav) && cmd == r.cmd
  {
    var n := CurrentNav(m);
    n := n.(prevCursorPos := m.cursor);
    var archivePath := Join(m.cwd, m.files[m.cursor].name);
    cmd := NoCmd;
    if m.isRemote {
      n := n.(remoteArchiveOpen := false);
      var zip := env.remoteZip(archivePath);
      if zip.OpenFailed? {
        cmd := Report(ArchiveOpenError, zip.err);
      } else if zip.StatFailed? {
        cmd := Report(ArchiveStatError, zip.err);
      } else if zip.ParseFailed? {
        cmd := Report(ArchiveReadError, zip.err);
      } else {
        var infos := ArchiveInfos(zip.members);
        n := n.(inArchive := true, archivePath := Some(archivePath), archiveFiles := zip.members,
                remoteArchiveOpen := true, files := infos, cursor := 0, offset := 0);
      }
    } else {
      n := n.(archiveReaderOpen := false);
      var zip := env.localZip(archivePath);
      if !zip.Opened? {
        cmd := Report(ArchiveReadError, zip.err);
      } else {
        var infos := ArchiveInfos(zip.members);
        n := n.(inArchive := true, archivePath := Some(archivePath), archiveFiles := zip.members,
                archiveReaderOpen := true, files := infos, cursor := 0, offset := 0);
      }
    }
    assert NavStep(n, cmd) == OpenArchiveNav(old(m.Snap()), env);
    SetNav(m, n);
  }

  /** Marks the preview as shown for `name`. */
  method ShowPreview(m: FileManagerState, name: string)
    modifies m
    ensures m.Snap() == old(m.Snap()).(preview := true, previewFile := name)
  {
    m.preview, m.previewFile := true, name;
  }

  /** `handleEnter`. */
  method HandleEnter(m: FileManagerState, env: Env) returns (out: Outcome)
    modifies m
    ensures Step(m.Snap(), out) == EnterSpec(old(m.Snap()), env)
  {
    if !(0 <= m.cursor < |m.files|) {
      return Panicked;
    }
    var selected := m.files[m.cursor];
    if selected.IsDir() {
      EnterDirectory(m, env);
      out := Returned(NoCmd);
    } else if IsZipArchive(selected.name) {
      var cmd := OpenArchive(m, env);
      out := Returned(cmd);
    } else {
      out := LoadPreview(m, env);
      if out.Returned? {
        ShowPreview(m, selected.name);
      }
    }
  }

  /** `t` has the mode, the prompt input, the request log, the connection and the search of `s`. */
  predicate KeepsSession(s: Model, t: Model)
  {
    && t.mode == s.mode && t.input == s.input && t.requests == s.requests
    && t.isRemote == s.isRemote && t.clientOpen == s.clientOpen && t.sessionOpen == s.sessionOpen
    && t.searchMode == s.searchMode && t.searchMatches == s.searchMatches && t.currentMatch == s.currentMatch
  }

  /**
    `handleEnter` leaves the mode, the request log, the connection and the
    search alone: it writes only the navigation fields and the preview pane.
   */
  lemma EnterFrame(s: Model, env: Env)
    ensures KeepsSession(s, EnterSpec(s, env).next)
  {
    if !(0 <= s.cursor < |s.files|) {
      assert EnterSpec(s, env) == Step(s, Panicked);
    } else if s.files[s.cursor].IsDir() {
      EnterDirectoryFrame(s, env);
    } else if IsZipArchive(s.files[s.cursor].name) {
      EnterArchiveFrame(s, env);
    } else {
      EnterFileFrame(s, env);
    }
  }

  lemma EnterDirectoryFrame(s: Model, env: Env)
    requires 0 <= s.cursor < |s.files| && s.files[s.cursor].IsDir()
    ensures KeepsSession(s, EnterSpec(s, env).next)
  {
    assert EnterSpec(s, env) == Step(WithNav(s, EnterDirectoryNav(s, env)), Returned(NoCmd));
  }

  lemma EnterArchiveFrame(s: Model, env: Env)
    requires 0 <= s.cursor < |s.files| && !s.files[s.cursor].IsDir() && IsZipArchive(s.files[s.cursor].name)
    ensures KeepsSession(s, EnterSpec(s, env).next)
  {
    var r := OpenArchiveNav(s, env);
    assert EnterSpec(s, env) == Step(WithNav(s, r.nav), Returned(r.cmd));
  }

  lemma EnterFileFrame(s: Model, env: Env)
    requires 0 <= s.cursor < |s.files| && !s.files[s.cursor].IsDir() && !IsZipArchive(s.files[s.cursor].name)
    ensures KeepsSession(s, EnterSpec(s, env).next)
  {
    var p := LoadPane(s, env);
    var loaded := s.(previewView := p.view, previewContent := p.content, previewFile := p.file);
    assert LoadPreviewSpec(s, env) == Step(loaded, p.out);
    if p.out.Panicked? {
      assert EnterSpec(s, env) == Step(s, Panicked);
    } else {
      assert EnterSpec(s, env) == Step(loaded.(preview := true, previewFile := s.files[s.cursor].name), Returned(NoCmd));
    }
  }

  /** `handleEnter` panics exactly when the cursor is off the listing, or when previewing indexes past the archive members. */
  lemma EnterPanics(s: Model, env: Env)
    ensures EnterSpec(s, env).out.Panicked? <==>
              !(0 <= s.cursor < |s.files|) ||
              (!s.files[s.cursor].IsDir() && !IsZipArchive(s.files[s.cursor].name) && LoadPane(s, env).out.Panicked?)
    ensures EnterSpec(s, env).out.Panicked? ==> EnterSpec(s, env).next == s
  {
  }

  /** A regular file is previewed under its own name. */
  lemma EnterPreviewsFile(s: Model, env: Env)
    requires 0 <= s.cursor < |s.files| && !s.files[s.cursor].IsDir() && !IsZipArchive(s.files[s.cursor].name)
    requires !EnterSpec(s, env).out.Panicked?
    ensures var r := EnterSpec(s, env).next;
            && r.preview && r.previewFile == s.files[s.cursor].name
            && r.cwd == s.cwd && r.files == s.files && r.cursor == s.cursor
  {
  }

  /** An archive that opens becomes the listing, with the cursor on its first row and the archive's row remembered. */
  lemma EnterArchiveOpens(s: Model, env: Env)
    requires 0 <= s.cursor < |s.files| && !s.files[s.cursor].IsDir() && IsZipArchive(s.files[s.cursor].name)
    requires var path := Join(s.cwd, s.files[s.cursor].name);
             (if s.isRemote then env.remoteZip(path) else env.localZip(path)).Opened?
    ensures var path := Join(s.cwd, s.files[s.cursor].name);
            var zip := if s.isRemote then env.remoteZip(path) else env.localZip(path);
            var r := EnterSpec(s, env);
            && r.out == Returned(NoCmd) && r.next.inArchive && r.next.archivePath == Some(path)
            && r.next.archiveFiles == zip.members && r.next.files == Infos(zip.members)
            && r.next.cursor == 0 && r.next.offset == 0
            && r.next.prevCursorPos == s.cursor && r.next.cwd == s.cwd
            && (if s.isRemote then r.next.remoteArchiveOpen else r.next.archiveReaderOpen)
  {
    var r := OpenArchiveNav(s, env);
    assert EnterSpec(s, env) == Step(WithNav(s, r.nav), Returned(r.cmd));
  }

  /**
    An archive that does not open leaves the listing as it was and reports the
    error, but the previous handle of its side is closed and the archive's row
    remembered all the same.
   */
  lemma EnterArchiveFails(s: Model, env: Env)
    requires 0 <= s.cursor < |s.files| && !s.files[s.cursor].IsDir() && IsZipArchive(s.files[s.cursor].name)
    requires var path := Join(s.cwd, s.files[s.cursor].name);
             !(if s.isRemote then env.remoteZip(path) else env.localZip(path)).Opened?
    ensures var r := EnterSpec(s, env);
            && r.out.Returned? && r.out.cmd.Print?
            && r.next.files == s.files && r.next.inArchive == s.inArchive && r.next.cwd == s.cwd
            && r.next.prevCursorPos == s.cursor && r.next.cursor == s.cursor
            && (if s.isRemote then !r.next.remoteArchiveOpen else !r.next.archiveReaderOpen)
  {
    var r := OpenArchiveNav(s, env);
    assert EnterSpec(s, env) == Step(WithNav(s, r.nav), Returned(r.cmd));
  }

  /**
    Entering a directory and going back returns to the same directory, listing
    and row, when the listing has not changed meanwhile and the directory's name
    appears in it first at the cursor.
   */
  lemma EnterThenBack(s: Model, env: Env)
    requires !s.inArchive && 0 <= s.cursor < |s.files|
    requires s.files[s.cursor].IsDir() && IsName(s.files[s.cursor].name)
    requires s.files == ListingOf(s, env, s.cwd)
    requires IndexOfName(s.files, s.files[s.cursor].name) == Some(s.cursor)
    ensures var t := EnterSpec(s, env).next;
            var u := BackSpec(t, env);
            && t.cwd == Join(s.cwd, s.files[s.cursor].name)
            && u.cwd == s.cwd && u.files == s.files && u.cursor == s.cursor
            && u.offset == FollowOffset(s.cursor, |s.files|, s.visibleItems) && !u.preview
  {
    var name := s.files[s.cursor].name;
    JoinName(s.cwd, name);
    var t := EnterSpec(s, env).next;
    assert t.cwd == s.cwd + [name];
    assert Dir(t.cwd) == s.cwd && Base(t.cwd) == name;
    assert t.cwd != s.cwd;
    assert ListingOf(t, env, s.cwd) == s.files;
  }

  /**
    Opening an archive and going back returns to the directory's listing with
    the cursor on the archive's row and the archive closed, when the listing has
    not changed meanwhile.
   */
  lemma ArchiveThenBack(s: Model, env: Env)
    requires !s.inArchive && 0 <= s.cursor < |s.files|
    requires !s.files[s.cursor].IsDir() && IsZipArchive(s.files[s.cursor].name)
    requires s.files == ListingOf(s, env, s.cwd)
    requires (if s.isRemote then env.remoteZip(Join(s.cwd, s.files[s.cursor].name))
              else env.localZip(Join(s.cwd, s.files[s.cursor].name))).Opened?
    ensures var t := EnterSpec(s, env).next;
            var u := BackSpec(t, env);
            && t.inArchive
            && !u.inArchive && u.cwd == s.cwd && u.files == s.files && u.cursor == s.cursor
            && u.archiveFiles == [] && (if s.isRemote then !u.remoteArchiveOpen else !u.archiveReaderOpen)
  {
  }
}
