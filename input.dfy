/**
  `service/input.go`: `handleInput`, what the Enter key does while a prompt is
  shown.  The file operations (create, rename, move, delete) request a change of
  the filesystem of the current side and list the directory again; the SFTP
  prompts ask for the host, the user and the password in turn, save them, and
  connect.
 */
module Input {
  import opened Common
  import opened Text
  import opened Paths
  import opened Entries
  import opened Models
  import opened Backend
  import opened State
  import opened Scroll
  import opened Sftp

  const ConnectError: string := "Ошибка подключения:"
  const SaveError: string := "Не удалось сохранить конфигурацию:"

  // ---------------------------------------------------------------------------
  // File operations.

  /** What a file operation does to the log and the cursor, or that it indexes past the listing. */
  datatype FileStep = FilePanics | FileDone(requests: seq<Request>, cursor: int)

  /** The path of the selected row. */
  function SelectedPath(s: Model): Path
    requires 0 <= s.cursor < |s.files|
  {
    Join(s.cwd, s.files[s.cursor].name)
  }

  /**
    The request of each file operation: "create" makes a directory when the input
    ends with a slash and an empty file otherwise; "rename" and "move" rename the
    selected row to the input, relative to the current directory; "delete"
    removes the selected row when the input is "y" and moves the cursor up one row.
    Errors of the filesystem are printed on standard output and change nothing here.
   */
  function FileOpOf(s: Model): FileStep
  {
    match s.mode
    case Create =>
      var target := Join(s.cwd, s.input);
      FileDone(s.requests + [if HasSuffix(s.input, "/") then MakeDir(target, s.isRemote) else CreateFile(target, s.isRemote)],
               s.cursor)
    case Rename =>
      if 0 <= s.cursor < |s.files| then
        FileDone(s.requests + [RenamePath(SelectedPath(s), Join(s.cwd, s.input), s.isRemote)], s.cursor)
      else FilePanics
    case Move =>
      if 0 <= s.cursor < |s.files| then
        FileDone(s.requests + [RenamePath(SelectedPath(s), Join(s.cwd, s.input), s.isRemote)], s.cursor)
      else FilePanics
    case Delete =>
      if s.input != "y" then FileDone(s.requests, s.cursor)
      else if 0 <= s.cursor < |s.files| then
        FileDone(s.requests + [RemovePath(SelectedPath(s), s.isRemote)], Max(s.cursor - 1, 0))
      else FilePanics
    case _ => FileDone(s.requests, s.cursor)
  }

  /** The end of `handleInput` for the file operations: back to normal mode and a fresh listing. */
  function FileOpSpec(s: Model, env: Env): Step
  {
    match FileOpOf(s)
    case FilePanics => Step(s, Panicked)
    case FileDone(reqs, c) =>
      Step(s.(requests := reqs, cursor := c, mode := Normal, files := ListingOf(s, env, s.cwd)), Returned(NoCmd))
  }

  // ---------------------------------------------------------------------------
  // The SFTP prompts.

  /**
    "sftp_confirm": "y" connects with the saved credentials (the Go code
    dereferences the configuration without checking it was loaded), "n" asks
    for new ones, anything else leaves the prompt as it is.  A failed connection
    keeps the prompt and the credentials it tried.
   */
  function ConfirmSpec(s: Model, env: Env): Step
  {
    if s.input == "y" then
      match env.savedConfig
      case None => Step(s, Panicked)
      case Some(c) =>
        var t := s.(remoteHost := c.host, remoteUser := c.user, remotePassword := c.password);
        var a := ConnectSpec(t, env);
        if a.err.Some? then Step(t, Returned(Report(ConnectError, a.err.value)))
        else Step(a.next.(mode := Normal), Returned(NoCmd))
    else if s.input == "n" then Step(s.(mode := SftpHost, input := ""), Returned(NoCmd))
    else Step(s, Returned(NoCmd))
  }

  /**
    "sftp_password": the password is recorded and the credentials saved; when the
    saving fails the prompt stays.  Otherwise the connection is attempted and the
    prompt closes whatever its outcome.
   */
  function PasswordSpec(s: Model, env: Env): Step
  {
    var c := Credentials(s.remoteHost, s.remoteUser, s.input);
    var t := s.(remotePassword := s.input, requests := s.requests + [SaveConfig(c)]);
    if env.saveErr(c).Some? then Step(t, Returned(Report(SaveError, env.saveErr(c).value)))
    else ConnectAndClose(t, env)
  }

  /** Connecting, then closing the prompt whatever the outcome. */
  function ConnectAndClose(t: Model, env: Env): Step
  {
    var a := ConnectSpec(t, env);
    Step(a.next.(mode := Normal, input := ""), Returned(if a.err.Some? then Report(ConnectError, a.err.value) else NoCmd))
  }

  /** `handleInput`. */
  function InputSpec(s: Model, env: Env): Step
  {
    match s.mode
    case SftpConfirm => ConfirmSpec(s, env)
    case SftpHost => Step(s.(remoteHost := s.input, mode := SftpUser, input := ""), Returned(NoCmd))
    case SftpUser => Step(s.(remoteUser := s.input, mode := SftpPassword, input := ""), Returned(NoCmd))
    case SftpPassword => PasswordSpec(s, env)
    case _ => FileOpSpec(s, env)
  }

  // ---------------------------------------------------------------------------
  // The methods.

  /** What the file operation of the current mode requests and where it leaves the cursor. */
  method FileRequests(m: FileManagerState) returns (r: FileStep)
    ensures r == FileOpOf(m.Snap())
  {
    var target := Join(m.cwd, m.input);
    r := FileDone(m.requests, m.cursor);
    if m.mode == Create {
      if HasSuffix(m.input, "/") {
        r := FileDone(m.requests + [MakeDir(target, m.isRemote)], m.cursor);
      } else {
        r := FileDone(m.requests + [CreateFile(target, m.isRemote)], m.cursor);
      }
    } else if m.mode == Rename || m.mode == Move {
      if !(0 <= m.cursor < |m.files|) {
        return FilePanics;
      }
      var source := Join(m.cwd, m.files[m.cursor].name);
      r := FileDone(m.requests + [RenamePath(source, target, m.isRemote)], m.cursor);
    } else if m.mode == Delete && m.input == "y" {
      if !(0 <= m.cursor < |m.files|) {
        return FilePanics;
      }
      var source := Join(m.cwd, m.files[m.cursor].name);
      r := FileDone(m.requests + [RemovePath(source, m.isRemote)], Max(m.cursor - 1, 0));
    }
  }

  /** The file operations of `handleInput`, and its fall-through for any other mode. */
  method FileOperation(m: FileManagerState, env: Env) returns (out: Outcome)
    modifies m
    ensures Step(m.Snap(), out) == FileOpSpec(old(m.Snap()), env)
  {
    var r := FileRequests(m);
    if r.FilePanics? {
      return Panicked;
    }
    var files := ReadFiles(m, env, m.cwd);
    SetLog(m, r.requests, m.status);
    SetEditing(m, Normal, m.input);
    SetLocation(m, m.cwd, files, r.cursor, m.offset);
    out := Returned(NoCmd);
  }

  /** "sftp_confirm". */
  method Confirm(m: FileManagerState, env: Env) returns (out: Outcome)
    modifies m
    ensures Step(m.Snap(), out) == ConfirmSpec(old(m.Snap()), env)
  {
    if m.input == "y" {
      var config := env.savedConfig;
      if config.None? {
        return Panicked;
      }
      SetCredentials(m, config.value.host, config.value.user, config.value.password);
      var err := InitSftp(m, env);
      if err.Some? {
        return Returned(Report(ConnectError, err.value));
      }
      SetEditing(m, Normal, m.input);
      return Returned(NoCmd);
    } else if m.input == "n" {
      SetEditing(m, SftpHost, "");
      return Returned(NoCmd);
    }
    return Returned(NoCmd);
  }

  /** Recording the password and asking for the credentials to be saved. */
  method SavePassword(m: FileManagerState) returns (config: Credentials)
    modifies m
    ensures config == Credentials(old(m.remoteHost), old(m.remoteUser), old(m.input))
    ensures m.Snap() == old(m.Snap()).(remotePassword := old(m.input), requests := old(m.requests) + [SaveConfig(config)])
  {
    config := Credentials(m.remoteHost, m.remoteUser, m.input);
    SetCredentials(m, m.remoteHost, m.remoteUser, m.input);
    SetLog(m, m.requests + [SaveConfig(config)], m.status);
  }

  /** The connection attempt that closes the password prompt. */
  method ConnectClosing(m: FileManagerState, env: Env) returns (out: Outcome)
    modifies m
    ensures Step(m.Snap(), out) == ConnectAndClose(old(m.Snap()), env)
  {
    var err := InitSftp(m, env);
    SetEditing(m, Normal, "");
    if err.Some? {
      out := Returned(Report(ConnectError, err.value));
    } else {
      out := Returned(NoCmd);
    }
  }

  /** "sftp_password". */
  method SubmitPassword(m: FileManagerState, env: Env) returns (out: Outcome)
    modifies m
    ensures Step(m.Snap(), out) == PasswordSpec(old(m.Snap()), env)
  {
    var config := SavePassword(m);
    var saveErr := env.saveErr(config);
    if saveErr.Some? {
      return Returned(Report(SaveError, saveErr.value));
    }
    out := ConnectClosing(m, env);
  }

  /** "sftp_host": the input becomes the host and the user is asked for. */
  method EnterHost(m: FileManagerState)
    modifies m
    ensures m.Snap() == old(m.Snap()).(remoteHost := old(m.input), mode := SftpUser, input := "")
  {
    SetCredentials(m, m.input, m.remoteUser, m.remotePassword);
    SetEditing(m, SftpUser, "");
  }

  /** "sftp_user": the input becomes the user and the password is asked for. */
  method EnterUser(m: FileManagerState)
    modifies m
    ensures m.Snap() == old(m.Snap()).(remoteUser := old(m.input), mode := SftpPassword, input := "")
  {
    SetCredentials(m, m.remoteHost, m.input, m.remotePassword);
    SetEditing(m, SftpPassword, "");
  }

  /** `handleInput`. */
  method HandleInput(m: FileManagerState, env: Env) returns (out: Outcome)
    modifies m
    ensures Step(m.Snap(), out) == InputSpec(old(m.Snap()), env)
  {
    match m.mode {
      case SftpConfirm =>
        out := Confirm(m, env);
      case SftpHost =>
        EnterHost(m);
        out := Returned(NoCmd);
      case SftpUser =>
        EnterUser(m);
        out := Returned(NoCmd);
      case SftpPassword =>
        out := SubmitPassword(m, env);
      case _ =>
        out := FileOperation(m, env);
    }
  }

  // ---------------------------------------------------------------------------
  // Properties.

  /** The modes whose file operation reads the selected row. */
  predicate UsesSelection(s: Model)
  {
    s.mode == Rename || s.mode == Move || (s.mode == Delete && s.input == "y")
  }

  /**
    What a file operation promises: it panics exactly when it needs the selected
    row and the cursor is off the listing, changing nothing; otherwise it requests
    at most one change, returns to normal mode, stays in the current directory and
    lists it again.
   */
  predicate EndsFileOp(s: Model, env: Env, r: Step)
  {
    && (r.out.Panicked? <==> UsesSelection(s) && !(0 <= s.cursor < |s.files|))
    && (r.out.Panicked? ==> r.next == s)
    && (!r.out.Panicked? ==>
          && r.out == Returned(NoCmd) && r.next.mode == Normal
          && r.next.cwd == s.cwd && r.next.files == ListingOf(s, env, s.cwd)
          && s.requests <= r.next.requests && |r.next.requests| <= |s.requests| + 1
          && (|r.next.requests| == |s.requests| + 1 <==> s.mode != Delete || s.input == "y"))
  }

  /** Every file operation keeps the promise of `EndsFileOp`. */
  lemma FileOpsReturnToNormal(s: Model, env: Env)
    requires s.mode == Create || s.mode == Rename || s.mode == Move || s.mode == Delete
    ensures EndsFileOp(s, env, InputSpec(s, env))
  {
    assert InputSpec(s, env) == FileOpSpec(s, env);
    if s.mode == Create {
      CreateReturnsToNormal(s, env);
    } else if s.mode == Delete {
      DeleteReturnsToNormal(s, env);
    } else {
      RenameReturnsToNormal(s, env);
    }
  }

  lemma CreateReturnsToNormal(s: Model, env: Env)
    requires s.mode == Create
    ensures EndsFileOp(s, env, FileOpSpec(s, env))
  {
    var target := Join(s.cwd, s.input);
    var q := if HasSuffix(s.input, "/") then MakeDir(target, s.isRemote) else CreateFile(target, s.isRemote);
    assert FileOpOf(s) == FileDone(s.requests + [q], s.cursor);
  }

  lemma RenameReturnsToNormal(s: Model, env: Env)
    requires s.mode == Rename || s.mode == Move
    ensures EndsFileOp(s, env, FileOpSpec(s, env))
  {
    if 0 <= s.cursor < |s.files| {
      var q := RenamePath(SelectedPath(s), Join(s.cwd, s.input), s.isRemote);
      assert FileOpOf(s) == FileDone(s.requests + [q], s.cursor);
    } else {
      assert FileOpOf(s) == FilePanics;
    }
  }

  lemma DeleteReturnsToNormal(s: Model, env: Env)
    requires s.mode == Delete
    ensures EndsFileOp(s, env, FileOpSpec(s, env))
  {
    if s.input != "y" {
      assert FileOpOf(s) == FileDone(s.requests, s.cursor);
    } else if 0 <= s.cursor < |s.files| {
      var q := RemovePath(SelectedPath(s), s.isRemote);
      assert FileOpOf(s) == FileDone(s.requests + [q], Max(s.cursor - 1, 0));
    } else {
      assert FileOpOf(s) == FilePanics;
    }
  }

  /**
    "create" asks for a directory exactly when the input ends with a slash, on the
    side being browsed, at the input taken relative to the current directory.
   */
  lemma CreateRequest(s: Model, env: Env)
    requires s.mode == Create
    ensures var reqs := InputSpec(s, env).next.requests;
            && |reqs| == |s.requests| + 1 && reqs[..|s.requests|] == s.requests
            && var q := reqs[|s.requests|];
            && (q.MakeDir? <==> HasSuffix(s.input, "/")) && (q.MakeDir? || q.CreateFile?)
            && q.path == Join(s.cwd, s.input) && q.remote == s.isRemote
  {
  }

  /**
    Renaming to a plain name keeps the row in the current directory: the request
    moves the selected row's path to the same directory under the new name.
   */
  lemma RenameInPlace(s: Model, env: Env)
    requires s.mode == Rename && 0 <= s.cursor < |s.files|
    requires IsName(s.files[s.cursor].name) && IsName(s.input)
    ensures var reqs := InputSpec(s, env).next.requests;
            && |reqs| == |s.requests| + 1
            && var q := reqs[|s.requests|];
            && q.RenamePath? && q.remote == s.isRemote
            && Dir(q.src) == s.cwd && Base(q.src) == s.files[s.cursor].name
            && Dir(q.dst) == s.cwd && Base(q.dst) == s.input
  {
    JoinName(s.cwd, s.files[s.cursor].name);
    JoinName(s.cwd, s.input);
  }

  /**
    "rename" and "move" request moving the selected row's path to the input taken
    relative to the current directory, on the side being browsed.
   */
  lemma RenameRequest(s: Model, env: Env)
    requires (s.mode == Rename || s.mode == Move) && 0 <= s.cursor < |s.files|
    ensures InputSpec(s, env).next.requests
            == s.requests + [RenamePath(Join(s.cwd, s.files[s.cursor].name), Join(s.cwd, s.input), s.isRemote)]
  {
  }

  /** "move" and "rename" make the same request for the same input. */
  lemma MoveIsRename(s: Model, env: Env)
    requires s.mode == Move
    ensures FileOpOf(s) == FileOpOf(s.(mode := Rename))
  {
  }

  /**
    A confirmed delete removes the selected row and moves the cursor one row up,
    never above the first; any other answer removes nothing and keeps the cursor.
   */
  lemma DeleteMovesCursorUp(s: Model, env: Env)
    requires s.mode == Delete && 0 <= s.cursor < |s.files|
    ensures var r := InputSpec(s, env).next;
            && (s.input == "y" ==>
                  && r.requests == s.requests + [RemovePath(Join(s.cwd, s.files[s.cursor].name), s.isRemote)]
                  && 0 <= r.cursor <= s.cursor && (s.cursor > 0 ==> r.cursor == s.cursor - 1))
            && (s.input != "y" ==> r.requests == s.requests && r.cursor == s.cursor)
  {
    var f := FileOpOf(s);
    if s.input == "y" {
      assert f == FileDone(s.requests + [RemovePath(SelectedPath(s), s.isRemote)], Max(s.cursor - 1, 0));
    } else {
      assert f == FileDone(s.requests, s.cursor);
    }
    var r := InputSpec(s, env).next;
    assert r.requests == f.requests && r.cursor == f.cursor;
  }

  /**
    The three prompts for new credentials record the host, the user and the
    password in turn, then save exactly those credentials and connect with them;
    when saving succeeds the prompt closes, connected or not, with the credentials kept.
   */
  lemma CredentialsChain(s: Model, env: Env, host: string, user: string, password: string)
    requires s.mode == SftpHost && env.saveErr(Credentials(host, user, password)).None?
    ensures var s1 := InputSpec(s.(input := host), env);
            var s2 := InputSpec(s1.next.(input := user), env);
            var r := InputSpec(s2.next.(input := password), env);
            && s1.next.mode == SftpUser && s1.next.input == "" && s1.next.remoteHost == host
            && s2.next.mode == SftpPassword && s2.next.input == "" && s2.next.remoteUser == user
            && r.next.mode == Normal && r.next.input == ""
            && r.next.requests == s.requests + [SaveConfig(Credentials(host, user, password))]
            && CredentialsOf(r.next) == Credentials(host, user, password)
            && (r.next.isRemote <==> env.connect(Credentials(host, user, password)).Connected? || s.isRemote)
            && (r.out == Returned(NoCmd) <==> env.connect(Credentials(host, user, password)).Connected?)
  {
    var s1 := InputSpec(s.(input := host), env);
    var s2 := InputSpec(s1.next.(input := user), env);
    var t := s2.next.(input := password);
    assert t.mode == SftpPassword && t.remoteHost == host && t.remoteUser == user;
    ConnectEffect(t.(remotePassword := password, requests := t.requests + [SaveConfig(Credentials(host, user, password))]), env);
  }

  /**
    Once the credentials are saved the password prompt closes with the input
    cleared, connected or not; only a successful connection makes the listing
    remote, and only a failed one prints.
   */
  lemma PasswordCloses(s: Model, env: Env)
    requires s.mode == SftpPassword && env.saveErr(Credentials(s.remoteHost, s.remoteUser, s.input)).None?
    ensures var c := Credentials(s.remoteHost, s.remoteUser, s.input); var r := InputSpec(s, env);
            && r.next.mode == Normal && r.next.input == "" && r.next.remotePassword == s.input
            && r.next.requests == s.requests + [SaveConfig(c)]
            && (env.connect(c).Connected? ==> r.next.isRemote && r.out == Returned(NoCmd))
            && (!env.connect(c).Connected? ==> r.next.isRemote == s.isRemote && r.out.Returned? && r.out.cmd.Print?)
  {
  }

  /** A failed save keeps the password prompt and does not connect. */
  lemma SaveFailureKeepsPrompt(s: Model, env: Env)
    requires s.mode == SftpPassword && env.saveErr(Credentials(s.remoteHost, s.remoteUser, s.input)).Some?
    ensures var r := InputSpec(s, env);
            && r.next.mode == SftpPassword && r.next.input == s.input && r.next.isRemote == s.isRemote
            && r.out.Returned? && r.out.cmd.Print?
            && r.next.requests == s.requests + [SaveConfig(Credentials(s.remoteHost, s.remoteUser, s.input))]
  {
  }

  /**
    "y" at the confirmation panics without saved credentials and otherwise
    connects with them, closing the prompt only on success; "n" asks for a host;
    any other answer changes nothing.
   */
  lemma ConfirmAnswers(s: Model, env: Env)
    requires s.mode == SftpConfirm
    ensures var r := InputSpec(s, env);
            && (s.input == "y" && env.savedConfig.None? ==> r == Step(s, Panicked))
            && (s.input == "y" && env.savedConfig.Some? ==>
                  && CredentialsOf(r.next) == env.savedConfig.value
                  && (r.next.mode == Normal <==> env.connect(env.savedConfig.value).Connected?)
                  && (r.next.mode != Normal ==> r.next.mode == SftpConfirm && r.next.isRemote == s.isRemote))
            && (s.input == "n" ==> r.next == s.(mode := SftpHost, input := "") && r.out == Returned(NoCmd))
            && (s.input != "y" && s.input != "n" ==> r == Step(s, Returned(NoCmd)))
  {
    if s.input == "y" && env.savedConfig.Some? {
      var c := env.savedConfig.value;
      ConnectEffect(s.(remoteHost := c.host, remoteUser := c.user, remotePassword := c.password), env);
    }
  }

  /** Whatever the prompt, the SFTP handles stay set exactly while the listing is remote. */
  lemma InputKeepsConnectionConsistent(s: Model, env: Env)
    requires ConnectionConsistent(s)
    ensures ConnectionConsistent(InputSpec(s, env).next)
  {
    match s.mode {
      case SftpConfirm =>
        assert InputSpec(s, env) == ConfirmSpec(s, env);
        ConfirmKeepsConnectionConsistent(s, env);
      case SftpPassword =>
        assert InputSpec(s, env) == PasswordSpec(s, env);
        PasswordKeepsConnectionConsistent(s, env);
      case SftpHost =>
        assert InputSpec(s, env) == Step(s.(remoteHost := s.input, mode := SftpUser, input := ""), Returned(NoCmd));
      case SftpUser =>
        assert InputSpec(s, env) == Step(s.(remoteUser := s.input, mode := SftpPassword, input := ""), Returned(NoCmd));
      case _ =>
        assert InputSpec(s, env) == FileOpSpec(s, env);
        FileOpKeepsConnection(s, env);
    }
  }

  lemma ConfirmKeepsConnectionConsistent(s: Model, env: Env)
    requires ConnectionConsistent(s)
    ensures ConnectionConsistent(ConfirmSpec(s, env).next)
  {
    if s.input == "y" && env.savedConfig.Some? {
      SavedConnectKeepsConsistent(s, env);
    } else if s.input == "y" {
      assert ConfirmSpec(s, env) == Step(s, Panicked);
    } else if s.input == "n" {
      assert ConfirmSpec(s, env) == Step(s.(mode := SftpHost, input := ""), Returned(NoCmd));
    } else {
      assert ConfirmSpec(s, env) == Step(s, Returned(NoCmd));
    }
  }

  lemma SavedConnectKeepsConsistent(s: Model, env: Env)
    requires ConnectionConsistent(s) && s.input == "y" && env.savedConfig.Some?
    ensures ConnectionConsistent(ConfirmSpec(s, env).next)
  {
    var c := env.savedConfig.value;
    var t := s.(remoteHost := c.host, remoteUser := c.user, remotePassword := c.password);
    var a := ConnectSpec(t, env);
    ConnectKeepsConsistent(t, env);
    if a.err.Some? {
      assert ConfirmSpec(s, env) == Step(t, Returned(Report(ConnectError, a.err.value)));
    } else {
      assert ConfirmSpec(s, env) == Step(a.next.(mode := Normal), Returned(NoCmd));
    }
  }

  lemma PasswordKeepsConnectionConsistent(s: Model, env: Env)
    requires ConnectionConsistent(s)
    ensures ConnectionConsistent(PasswordSpec(s, env).next)
  {
    var c := Credentials(s.remoteHost, s.remoteUser, s.input);
    var t := s.(remotePassword := s.input, requests := s.requests + [SaveConfig(c)]);
    assert ConnectionConsistent(t);
    if env.saveErr(c).None? {
      ConnectKeepsConsistent(t, env);
      assert PasswordSpec(s, env) == ConnectAndClose(t, env);
    } else {
      assert PasswordSpec(s, env) == Step(t, Returned(Report(SaveError, env.saveErr(c).value)));
    }
  }

  lemma FileOpKeepsConnection(s: Model, env: Env)
    ensures var r := FileOpSpec(s, env).next;
            r.clientOpen == s.clientOpen && r.sessionOpen == s.sessionOpen && r.isRemote == s.isRemote
  {
    match FileOpOf(s) {
      case FilePanics =>
        assert FileOpSpec(s, env) == Step(s, Panicked);
      case FileDone(reqs, c) =>
        assert FileOpSpec(s, env) ==
               Step(s.(requests := reqs, cursor := c, mode := Normal, files := ListingOf(s, env, s.cwd)), Returned(NoCmd));
    }
  }

  /** Whatever the prompt, submitting it leaves the preview search alone. */
  lemma InputKeepsSearch(s: Model, env: Env)
    ensures SameMatches(s, InputSpec(s, env).next)
  {
    if s.mode == SftpConfirm {
      ConfirmKeepsSearch(s, env);
    } else if s.mode == SftpPassword {
      PasswordKeepsSearch(s, env);
    } else if s.mode == SftpHost || s.mode == SftpUser {
      CredentialKeepsSearch(s, env);
    } else {
      FileOpKeepsSearch(s, env);
    }
  }

  lemma CredentialKeepsSearch(s: Model, env: Env)
    requires s.mode == SftpHost || s.mode == SftpUser
    ensures SameMatches(s, InputSpec(s, env).next)
  {
    if s.mode == SftpHost {
      assert InputSpec(s, env) == Step(s.(remoteHost := s.input, mode := SftpUser, input := ""), Returned(NoCmd));
    } else {
      assert InputSpec(s, env) == Step(s.(remoteUser := s.input, mode := SftpPassword, input := ""), Returned(NoCmd));
    }
  }

  lemma FileOpKeepsSearch(s: Model, env: Env)
    requires s.mode != SftpConfirm && s.mode != SftpPassword && s.mode != SftpHost && s.mode != SftpUser
    ensures SameMatches(s, InputSpec(s, env).next)
  {
    assert InputSpec(s, env) == FileOpSpec(s, env);
    match FileOpOf(s) {
      case FilePanics =>
        assert FileOpSpec(s, env) == Step(s, Panicked);
      case FileDone(reqs, c) =>
        assert FileOpSpec(s, env) ==
               Step(s.(requests := reqs, cursor := c, mode := Normal, files := ListingOf(s, env, s.cwd)), Returned(NoCmd));
    }
  }

  lemma ConfirmKeepsSearch(s: Model, env: Env)
    requires s.mode == SftpConfirm
    ensures SameMatches(s, InputSpec(s, env).next)
  {
    assert InputSpec(s, env) == ConfirmSpec(s, env);
    if s.input == "y" && env.savedConfig.Some? {
      SavedConnectKeepsSearch(s, env);
    } else if s.input == "y" {
      assert ConfirmSpec(s, env) == Step(s, Panicked);
    } else if s.input == "n" {
      assert ConfirmSpec(s, env) == Step(s.(mode := SftpHost, input := ""), Returned(NoCmd));
    } else {
      assert ConfirmSpec(s, env) == Step(s, Returned(NoCmd));
    }
  }

  lemma SavedConnectKeepsSearch(s: Model, env: Env)
    requires s.input == "y" && env.savedConfig.Some?
    ensures SameMatches(s, ConfirmSpec(s, env).next)
  {
    var c := env.savedConfig.value;
    var t := s.(remoteHost := c.host, remoteUser := c.user, remotePassword := c.password);
    var a := ConnectSpec(t, env);
    ConnectKeepsSearch(t, env);
    if a.err.Some? {
      assert ConfirmSpec(s, env) == Step(t, Returned(Report(ConnectError, a.err.value)));
    } else {
      assert ConfirmSpec(s, env) == Step(a.next.(mode := Normal), Returned(NoCmd));
    }
  }

  lemma PasswordKeepsSearch(s: Model, env: Env)
    requires s.mode == SftpPassword
    ensures SameMatches(s, InputSpec(s, env).next)
  {
    assert InputSpec(s, env) == PasswordSpec(s, env);
    var c := Credentials(s.remoteHost, s.remoteUser, s.input);
    var t := s.(remotePassword := s.input, requests := s.requests + [SaveConfig(c)]);
    if env.saveErr(c).None? {
      ConnectKeepsSearch(t, env);
      assert PasswordSpec(s, env) == ConnectAndClose(t, env);
    } else {
      assert PasswordSpec(s, env) == Step(t, Returned(Report(SaveError, env.saveErr(c).value)));
    }
  }
}
