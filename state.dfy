/**
  `service/filemanager.go`: the state of the file manager (`FileManagerState`),
  the listing of a directory (`readFiles`, `readRemoteFiles`), the prompt of
  each input mode (`getPrompt`) and the start-up state (`InitialModel`,
  `getPositionInParent`).

  The state exists twice: as the class `FileManagerState`, whose fields the
  operations update in place, and as the value `Model`, on which the effect of
  each operation is defined by a function.  `Snap()` reads the one as the other.
 */
module State {
  import opened Common
  import opened Paths
  import opened Entries
  import opened Sorting
  import opened Models
  import opened Viewport
  import opened Backend

  /** The values the `mode` string takes. */
  datatype Mode = Normal | Create | Rename | Move | Delete | SftpConfirm | SftpHost | SftpUser | SftpPassword

  /** `getPrompt`: the text shown before the input in a non-normal mode. */
  function GetPrompt(mode: Mode): (r: string)
    ensures r == "" <==> mode == Normal
  {
    match mode
    case Create => "Создать (файл или директорию с /):"
    case Rename => "Переименовать:"
    case Move => "Переместить (относительный путь):"
    case Delete => "Удалить? (y/n):"
    case SftpConfirm => "Использовать последнее сохраненное подключение? (y/n):"
    case SftpHost => "Введите хост:"
    case SftpUser => "Введите логин:"
    case SftpPassword => "Введите пароль:"
    case Normal => ""
  }

  /** Each mode has its own prompt. */
  lemma PromptsDistinct(a: Mode, b: Mode)
    ensures GetPrompt(a) == GetPrompt(b) ==> a == b
  {
    if a != b {
      PromptDiffers(a, b);
    }
  }

  /** Two different modes have prompts of different lengths or with different first letters. */
  lemma PromptDiffers(a: Mode, b: Mode)
    requires a != b
    ensures var pa, pb := GetPrompt(a), GetPrompt(b);
            |pa| != |pb| || (|pa| > 0 && |pb| > 0 && pa[0] != pb[0])
  {
  }

  /** The whole state as a value; the fields are those of `FileManagerState`. */
  datatype Model = Model(
    cwd: Path,
    files: seq<Entry>,
    cursor: int,
    offset: int,
    preview: bool,
    previewView: Viewport,
    width: int,
    height: int,
    visibleItems: int,
    previewFile: string,
    cursorPositions: map<Path, int>,
    mode: Mode,
    input: string,
    confirmDelete: bool,
    exitWithDir: bool,
    searchMode: bool,
    searchQuery: string,
    searchPosition: int,
    searchMatches: seq<int>,
    currentMatch: int,
    previewContent: string,
    /** Whether `SftpClient` and `SftpSession` are set. */
    clientOpen: bool,
    sessionOpen: bool,
    isRemote: bool,
    remoteHost: string,
    remoteUser: string,
    remotePassword: string,
    inArchive: bool,
    /** None stands for the empty `archivePath`. */
    archivePath: Option<Path>,
    archiveFiles: seq<ArchiveMember>,
    /** Whether `ArchiveReader` and `RemoteArchiveFile` hold an open handle. */
    archiveReaderOpen: bool,
    remoteArchiveOpen: bool,
    prevCursorPos: int,
    status: string,
    /** Every change requested of the filesystems so far, oldest first. */
    requests: seq<Request>
  )

  /** A state change together with how the operation ended. */
  datatype Step = Step(next: Model, out: Outcome)

  /** `t` has the matches and the current match of `s`. */
  predicate SameMatches(s: Model, t: Model)
  {
    t.searchMatches == s.searchMatches && t.currentMatch == s.currentMatch
  }

  /** `t` has the connection of `s`. */
  predicate SameConnection(s: Model, t: Model)
  {
    t.isRemote == s.isRemote && t.clientOpen == s.clientOpen && t.sessionOpen == s.sessionOpen
  }

  class FileManagerState {
    var cwd: Path
    var files: seq<Entry>
    var cursor: int
    var offset: int
    var preview: bool
    var previewView: Viewport
    var width: int
    var height: int
    var visibleItems: int
    var previewFile: string
    var cursorPositions: map<Path, int>
    var mode: Mode
    var input: string
    var confirmDelete: bool
    var exitWithDir: bool
    var searchMode: bool
    var searchQuery: string
    var searchPosition: int
    var searchMatches: seq<int>
    var currentMatch: int
    var previewContent: string
    var clientOpen: bool
    var sessionOpen: bool
    var isRemote: bool
    var remoteHost: string
    var remoteUser: string
    var remotePassword: string
    var inArchive: bool
    var archivePath: Option<Path>
    var archiveFiles: seq<ArchiveMember>
    var archiveReaderOpen: bool
    var remoteArchiveOpen: bool
    var prevCursorPos: int
    var status: string
    var requests: seq<Request>

    /** The current state as a value. */
    ghost function Snap(): Model
      reads this
    {
      Model(cwd, files, cursor, offset, preview, previewView, width, height, visibleItems,
            previewFile, cursorPositions, mode, input, confirmDelete, exitWithDir, searchMode,
            searchQuery, searchPosition, searchMatches, currentMatch, previewContent, clientOpen,
            sessionOpen, isRemote, remoteHost, remoteUser, remotePassword, inArchive, archivePath,
            archiveFiles, archiveReaderOpen, remoteArchiveOpen, prevCursorPos, status, requests)
    }

    /** `InitialModel()`: the listing of the working directory, and the position of that directory in its parent. */
    constructor Initial(env: Env)
      ensures Snap() == InitialSpec(env)
    {
      var dir := env.workDir;
      var listing := ReadLocalFiles(env, dir);
      var positions: map<Path, int> := map[];
      var parent := Dir(dir);
      if parent != dir {
        var pos := GetPositionInParent(env, false, dir, parent);
        positions := positions[parent := pos];
      }
      cwd := dir;
      files := listing;
      cursor := 0;
      offset := 0;
      preview := false;
      previewView := EmptyPane;
      width := 0;
      height := 0;
      visibleItems := 0;
      previewFile := "";
      cursorPositions := positions;
      mode := Normal;
      input := "";
      confirmDelete := false;
      exitWithDir := false;
      searchMode := false;
      searchQuery := "";
      searchPosition := 0;
      searchMatches := [];
      currentMatch := 0;
      previewContent := "";
      clientOpen := false;
      sessionOpen := false;
      isRemote := false;
      remoteHost := "";
      remoteUser := "";
      remotePassword := "";
      inArchive := false;
      archivePath := None;
      archiveFiles := [];
      archiveReaderOpen := false;
      remoteArchiveOpen := false;
      prevCursorPos := -1;
      status := "";
      requests := [];
    }
  }

  // ---------------------------------------------------------------------------
  // Writing groups of fields.

  /** Writes the directory, the listing and the position in it. */
  method SetLocation(m: FileManagerState, cwd: Path, files: seq<Entry>, cursor: int, offset: int)
    modifies m
    ensures m.Snap() == old(m.Snap()).(cwd := cwd, files := files, cursor := cursor, offset := offset)
  {
    SetListing(m, cwd, files);
    SetPosition(m, cursor, offset);
  }

  method SetListing(m: FileManagerState, cwd: Path, files: seq<Entry>)
    modifies m
    ensures m.Snap() == old(m.Snap()).(cwd := cwd, files := files)
  {
    m.cwd, m.files := cwd, files;
  }

  method SetPosition(m: FileManagerState, cursor: int, offset: int)
    modifies m
    ensures m.Snap() == old(m.Snap()).(cursor := cursor, offset := offset)
  {
    m.cursor, m.offset := cursor, offset;
  }

  /** Writes the archive being browsed and the row it was opened from. */
  method SetArchive(m: FileManagerState, inArchive: bool, archivePath: Option<Path>,
                    archiveFiles: seq<ArchiveMember>, prevCursorPos: int)
    modifies m
    ensures m.Snap() == old(m.Snap()).(inArchive := inArchive, archivePath := archivePath,
                                       archiveFiles := archiveFiles, prevCursorPos := prevCursorPos)
  {
    SetArchivePath(m, inArchive, archivePath);
    SetArchiveMembers(m, archiveFiles, prevCursorPos);
  }

  method SetArchivePath(m: FileManagerState, inArchive: bool, archivePath: Option<Path>)
    modifies m
    ensures m.Snap() == old(m.Snap()).(inArchive := inArchive, archivePath := archivePath)
  {
    m.inArchive, m.archivePath := inArchive, archivePath;
  }

  method SetArchiveMembers(m: FileManagerState, archiveFiles: seq<ArchiveMember>, prevCursorPos: int)
    modifies m
    ensures m.Snap() == old(m.Snap()).(archiveFiles := archiveFiles, prevCursorPos := prevCursorPos)
  {
    m.archiveFiles, m.prevCursorPos := archiveFiles, prevCursorPos;
  }

  /** Writes the preview flag, the saved positions and the archive handles. */
  method SetRemembered(m: FileManagerState, preview: bool, cursorPositions: map<Path, int>,
                       archiveReaderOpen: bool, remoteArchiveOpen: bool)
    modifies m
    ensures m.Snap() == old(m.Snap()).(preview := preview, cursorPositions := cursorPositions,
                                       archiveReaderOpen := archiveReaderOpen, remoteArchiveOpen := remoteArchiveOpen)
  {
    m.preview, m.cursorPositions := preview, cursorPositions;
    SetHandles(m, archiveReaderOpen, remoteArchiveOpen);
  }

  /** Writes whether the archive handles are open. */
  method SetHandles(m: FileManagerState, archiveReaderOpen: bool, remoteArchiveOpen: bool)
    modifies m
    ensures m.Snap() == old(m.Snap()).(archiveReaderOpen := archiveReaderOpen, remoteArchiveOpen := remoteArchiveOpen)
  {
    m.archiveReaderOpen, m.remoteArchiveOpen := archiveReaderOpen, remoteArchiveOpen;
  }

  /** Writes the saved cursor positions. */
  method SetPositions(m: FileManagerState, cursorPositions: map<Path, int>)
    modifies m
    ensures m.Snap() == old(m.Snap()).(cursorPositions := cursorPositions)
  {
    m.cursorPositions := cursorPositions;
  }

  /** Writes which SFTP handles are set and whether the listing is remote. */
  method SetConnection(m: FileManagerState, clientOpen: bool, sessionOpen: bool, isRemote: bool)
    modifies m
    ensures m.Snap() == old(m.Snap()).(clientOpen := clientOpen, sessionOpen := sessionOpen, isRemote := isRemote)
  {
    m.clientOpen := clientOpen;
    m.sessionOpen := sessionOpen;
    m.isRemote := isRemote;
  }

  /** Writes the SFTP credentials. */
  method SetCredentials(m: FileManagerState, host: string, user: string, password: string)
    modifies m
    ensures m.Snap() == old(m.Snap()).(remoteHost := host, remoteUser := user, remotePassword := password)
  {
    m.remoteHost := host;
    m.remoteUser := user;
    m.remotePassword := password;
  }

  /** Writes the input mode and the text typed so far. */
  method SetEditing(m: FileManagerState, mode: Mode, input: string)
    modifies m
    ensures m.Snap() == old(m.Snap()).(mode := mode, input := input)
  {
    m.mode := mode;
    m.input := input;
  }

  /** Writes whether the preview is shown. */
  method SetPreview(m: FileManagerState, preview: bool)
    modifies m
    ensures m.Snap() == old(m.Snap()).(preview := preview)
  {
    m.preview := preview;
  }

  /** Writes the request log and the status line. */
  method SetLog(m: FileManagerState, requests: seq<Request>, status: string)
    modifies m
    ensures m.Snap() == old(m.Snap()).(requests := requests, status := status)
  {
    m.requests := requests;
    m.status := status;
  }

  // ---------------------------------------------------------------------------
  // Listings.

  /** The rows of an open archive (`f.FileInfo()` of each member). */
  function Infos(members: seq<ArchiveMember>): (r: seq<Entry>)
    ensures |r| == |members|
    ensures forall i :: 0 <= i < |r| ==> r[i] == members[i].info
  {
    seq(|members|, i requires 0 <= i < |members| => members[i].info)
  }

  /** `readRemoteFiles(dir)`: the sorted remote listing, empty when it cannot be read. */
  function RemoteListing(env: Env, dir: Path): seq<Entry>
  {
    match env.remoteDir(dir)
    case None => []
    case Some(es) => SortSpec(es)
  }

  /** `readFiles(dir, m)`: the archive members, the remote listing, or the sorted local listing. */
  function Listing(env: Env, inArchive: bool, archive: seq<ArchiveMember>, isRemote: bool, dir: Path): seq<Entry>
  {
    if inArchive then Infos(archive)
    else if isRemote then RemoteListing(env, dir)
    else SortSpec(env.localDir(dir))
  }

  /** Inside an archive the listing is the members' rows in archive order, unsorted. */
  lemma ArchiveListingInOrder(env: Env, archive: seq<ArchiveMember>, isRemote: bool, dir: Path)
    ensures var r := Listing(env, true, archive, isRemote, dir);
            |r| == |archive| && forall i :: 0 <= i < |r| ==> r[i] == archive[i].info
  {
  }

  /** The listing `readFiles` computes for the state `s`. */
  function ListingOf(s: Model, env: Env, dir: Path): seq<Entry>
  {
    Listing(env, s.inArchive, s.archiveFiles, s.isRemote, dir)
  }

  /**
    Outside an archive a listing holds exactly the entries the filesystem returned
    (none when the server cannot list the directory), directories first and names
    in order.
   */
  lemma ListingSortsEntries(env: Env, isRemote: bool, dir: Path)
    ensures var r := Listing(env, false, [], isRemote, dir);
            var src := if !isRemote then env.localDir(dir)
                       else if env.remoteDir(dir).Some? then env.remoteDir(dir).value else [];
            multiset(r) == multiset(src) && Sorted(r, Less)
  {
    if isRemote && env.remoteDir(dir).None? {
      assert Listing(env, false, [], isRemote, dir) == [];
    } else if isRemote {
      SortSpecSorts(env.remoteDir(dir).value);
    } else {
      SortSpecSorts(env.localDir(dir));
    }
  }

  /** The loop of `readFiles` that collects the archive rows. */
  method ArchiveInfos(members: seq<ArchiveMember>) returns (r: seq<Entry>)
    ensures r == Infos(members)
  {
    r := [];
    var i := 0;
    while i < |members|
      invariant 0 <= i <= |members|
      invariant r == Infos(members[..i])
    {
      r := r + [members[i].info];
      i := i + 1;
      assert Infos(members[..i]) == Infos(members[..i - 1]) + [members[i - 1].info];
    }
    assert members[..i] == members;
  }

  /** The local branch of `readFiles`: one row per directory entry, then `SortFiles`. */
  method ReadLocalFiles(env: Env, dir: Path) returns (r: seq<Entry>)
    ensures r == SortSpec(env.localDir(dir))
  {
    var entries := env.localDir(dir);
    var infos := new Entry[|entries|](i requires 0 <= i < |entries| => entries[i]);
    assert infos[..] == entries;
    SortFiles(infos);
    r := infos[..];
  }

  /** `readRemoteFiles(dir)`. */
  method ReadRemoteFiles(env: Env, dir: Path) returns (r: seq<Entry>)
    ensures r == RemoteListing(env, dir)
  {
    var listed := env.remoteDir(dir);
    if listed.None? {
      return [];
    }
    var a := new Entry[|listed.value|](i requires 0 <= i < |listed.value| => listed.value[i]);
    assert a[..] == listed.value;
    SortFiles(a);
    r := a[..];
  }

  /** `readFiles(dir, m)`. */
  method ReadFiles(m: FileManagerState, env: Env, dir: Path) returns (r: seq<Entry>)
    ensures r == ListingOf(m.Snap(), env, dir)
  {
    if m.inArchive {
      r := ArchiveInfos(m.archiveFiles);
    } else if m.isRemote {
      r := ReadRemoteFiles(env, dir);
    } else {
      r := ReadLocalFiles(env, dir);
    }
  }

  // ---------------------------------------------------------------------------
  // Finding a name in a listing.

  /** The first row named `name`, if any: the `for ... if f.Name() == base { ...; break }` loops. */
  function IndexOfName(files: seq<Entry>, name: string): (r: Option<nat>)
    ensures r.Some? ==> r.value < |files| && files[r.value].name == name
    ensures r.Some? ==> forall k :: 0 <= k < r.value ==> files[k].name != name
    ensures r.None? ==> forall k :: 0 <= k < |files| ==> files[k].name != name
    decreases |files|
  {
    if |files| == 0 then None
    else if files[0].name == name then Some(0)
    else match IndexOfName(files[1..], name)
         case None => None
         case Some(k) => Some(k + 1)
  }

  /** The search loop itself. */
  method FindName(files: seq<Entry>, name: string) returns (r: Option<nat>)
    ensures r == IndexOfName(files, name)
  {
    var i := 0;
    while i < |files|
      invariant 0 <= i <= |files|
      invariant forall k :: 0 <= k < i ==> files[k].name != name
    {
      if files[i].name == name {
        IndexOfFirst(files, name, i);
        return Some(i);
      }
      i := i + 1;
    }
    IndexOfFirst(files, name, |files|);
    return None;
  }

  /** `IndexOfName` is determined by where the name first occurs. */
  lemma IndexOfFirst(files: seq<Entry>, name: string, i: nat)
    requires i <= |files| && forall k :: 0 <= k < i ==> files[k].name != name
    requires i < |files| ==> files[i].name == name
    ensures IndexOfName(files, name) == if i < |files| then Some(i) else None
  {
    var r := IndexOfName(files, name);
    if i < |files| {
      assert r.Some?;
      assert !(r.value < i) && !(r.value > i);
    } else {
      assert r.None?;
    }
  }

  /** `getPositionInParent(current, parent, m)`: where `current` is listed in `parent`, or 0. */
  function PositionInParent(env: Env, isRemote: bool, current: Path, parent: Path): int
  {
    var listed := if isRemote then RemoteListing(env, parent) else SortSpec(env.localDir(parent));
    match IndexOfName(listed, Base(current))
    case None => 0
    case Some(i) => i
  }

  /** The position is the row of `current` in the parent listing when it is listed there, and 0 otherwise. */
  lemma PositionSelectsCurrent(env: Env, isRemote: bool, current: Path, parent: Path)
    ensures var listed := if isRemote then RemoteListing(env, parent) else SortSpec(env.localDir(parent));
            var p := PositionInParent(env, isRemote, current, parent);
            && 0 <= p
            && ((p < |listed| && listed[p].name == Base(current))
                || (p == 0 && forall k :: 0 <= k < |listed| ==> listed[k].name != Base(current)))
  {
  }

  method GetPositionInParent(env: Env, isRemote: bool, current: Path, parent: Path) returns (r: int)
    ensures r == PositionInParent(env, isRemote, current, parent)
  {
    var listed;
    if isRemote {
      listed := ReadRemoteFiles(env, parent);
    } else {
      listed := ReadLocalFiles(env, parent);
    }
    var found := FindName(listed, Base(current));
    r := if found.Some? then found.value else 0;
  }

  /** The state `InitialModel()` builds. */
  function InitialSpec(env: Env): Model
  {
    var dir := env.workDir;
    var parent := Dir(dir);
    Model(dir, SortSpec(env.localDir(dir)), 0, 0, false, EmptyPane, 0, 0, 0, "",
          if parent != dir then map[parent := PositionInParent(env, false, dir, parent)] else map[],
          Normal, "", false, false, false, "", 0, [], 0, "", false, false, false, "", "", "",
          false, None, [], false, false, -1, "", [])
  }

  /**
    The program starts in normal mode on the sorted listing of the working
    directory, with the cursor on the first row, no request made, and a saved
    cursor position only for the parent directory.
   */
  lemma InitialState(env: Env)
    ensures var s := InitialSpec(env);
            && s.mode == Normal && s.cursor == 0 && s.offset == 0 && s.prevCursorPos == -1
            && s.cwd == env.workDir && multiset(s.files) == multiset(env.localDir(env.workDir))
            && s.requests == [] && !s.isRemote && !s.inArchive
            && s.cursorPositions.Keys <= {Dir(env.workDir)}
            && (env.workDir != Root <==> Dir(env.workDir) in s.cursorPositions)
            && (env.workDir != Root ==>
                  s.cursorPositions[Dir(env.workDir)] == PositionInParent(env, false, env.workDir, Dir(env.workDir)))
  {
    SortSpecSorts(env.localDir(env.workDir));
  }
}
