/**
  `service/sftp.go`: connecting to an SFTP server (`initSFTP`, `switchToRemote`),
  disconnecting (`disconnectSFTP`) and downloading the selected remote file into
  a dated directory under the home directory (`downloadFile`).
 */
module Sftp {
  import opened Common
  import opened Text
  import opened Paths
  import opened Entries
  import opened Models
  import opened Sorting
  import opened Backend
  import opened State

  // ---------------------------------------------------------------------------
  // Connecting.

  const DialError: string := "не удалось подключиться к серверу: "
  const SessionError: string := "не удалось создать сессию: "
  const ClientError: string := "не удалось создать SFTP клиент: "

  /** A state change that can fail with an error message, as the Go functions returning `error` do. */
  datatype Attempt = Attempt(next: Model, err: Option<string>)

  /** The credentials `initSFTP` connects with. */
  function CredentialsOf(s: Model): Credentials
  {
    Credentials(s.remoteHost, s.remoteUser, s.remotePassword)
  }

  /** `switchToRemote`: the root of the server, its listing, no saved positions; the cursor is left as it was. */
  function SwitchSpec(s: Model, env: Env): Model
  {
    s.(cwd := Root, files := RemoteListing(env, Root), cursorPositions := map[])
  }

  /** `initSFTP`: on success both handles are set and the server's root is listed; on failure nothing changes. */
  function ConnectSpec(s: Model, env: Env): Attempt
  {
    match env.connect(CredentialsOf(s))
    case Connected => Attempt(SwitchSpec(s.(clientOpen := true, sessionOpen := true, isRemote := true), env), None)
    case DialFailed(e) => Attempt(s, Some(DialError + e))
    case SessionFailed(e) => Attempt(s, Some(SessionError + e))
    case ClientFailed(e) => Attempt(s, Some(ClientError + e))
  }

  /** `disconnectSFTP`: both handles dropped, credentials cleared, back to the working directory. */
  function DisconnectSpec(s: Model, env: Env): Model
  {
    var t := s.(clientOpen := false, sessionOpen := false, isRemote := false,
                remoteHost := "", remoteUser := "", remotePassword := "", cwd := env.workDir);
    t.(files := ListingOf(t, env, env.workDir))
  }

  /** Connecting leaves the preview search alone. */
  lemma ConnectKeepsSearch(s: Model, env: Env)
    ensures SameMatches(s, ConnectSpec(s, env).next)
  {
  }

  /** Disconnecting leaves the preview search alone. */
  lemma DisconnectKeepsSearch(s: Model, env: Env)
    ensures SameMatches(s, DisconnectSpec(s, env))
  {
  }

  /** `switchToRemote`. */
  method SwitchToRemote(m: FileManagerState, env: Env)
    modifies m
    ensures m.Snap() == SwitchSpec(old(m.Snap()), env)
  {
    var files := ReadRemoteFiles(env, Root);
    SetLocation(m, Root, files, m.cursor, m.offset);
    SetPositions(m, map[]);
  }

  /** `initSFTP`. */
  method InitSftp(m: FileManagerState, env: Env) returns (err: Option<string>)
    modifies m
    ensures Attempt(m.Snap(), err) == ConnectSpec(old(m.Snap()), env)
  {
    var outcome := env.connect(Credentials(m.remoteHost, m.remoteUser, m.remotePassword));
    match outcome {
      case DialFailed(e) =>
        return Some(DialError + e);
      case SessionFailed(e) =>
        return Some(SessionError + e);
      case ClientFailed(e) =>
        return Some(ClientError + e);
      case Connected =>
        SetConnection(m, true, true, true);
        SwitchToRemote(m, env);
        return None;
    }
  }

  /** `disconnectSFTP`. */
  method DisconnectSftp(m: FileManagerState, env: Env)
    modifies m
    ensures m.Snap() == DisconnectSpec(old(m.Snap()), env)
  {
    SetConnection(m, false, false, false);
    SetCredentials(m, "", "", "");
    var dir := env.workDir;
    var files := ReadFiles(m, env, dir);
    SetLocation(m, dir, files, m.cursor, m.offset);
  }

  /** The handles are set exactly while the listing is remote. */
  predicate ConnectionConsistent(s: Model)
  {
    s.clientOpen == s.isRemote && s.sessionOpen == s.isRemote
  }

  /**
    A successful connection lists the server's root with no saved positions and
    keeps the credentials; a failed one changes nothing and says which step
    failed.  Either way the handles stay consistent with the remote flag.
   */
  lemma ConnectEffect(s: Model, env: Env)
    ensures var r := ConnectSpec(s, env);
            && (r.err.None? <==> env.connect(CredentialsOf(s)).Connected?)
            && (r.err.None? ==>
                  && r.next.isRemote && r.next.clientOpen && r.next.cwd == Root
                  && r.next.files == RemoteListing(env, Root) && r.next.cursorPositions == map[]
                  && CredentialsOf(r.next) == CredentialsOf(s) && r.next.requests == s.requests)
            && (r.err.Some? ==> r.next == s)
            && (r.err.None? || ConnectionConsistent(s) ==> ConnectionConsistent(r.next))
  {
  }

  /** A connection attempt keeps the handles consistent with the remote flag; a successful one makes them so. */
  lemma ConnectKeepsConsistent(s: Model, env: Env)
    requires ConnectionConsistent(s) || env.connect(CredentialsOf(s)).Connected?
    ensures ConnectionConsistent(ConnectSpec(s, env).next)
  {
  }

  /** Disconnecting leaves no handle and no credentials, and lists the working directory from the local disk. */
  lemma DisconnectEffect(s: Model, env: Env)
    ensures var r := DisconnectSpec(s, env);
            && !r.isRemote && ConnectionConsistent(r)
            && r.remoteHost == "" && r.remoteUser == "" && r.remotePassword == ""
            && r.cwd == env.workDir
            && (!s.inArchive ==> r.files == SortSpec(env.localDir(env.workDir)))
            && r.requests == s.requests
            && r.cursor == s.cursor && r.offset == s.offset && r.cursorPositions == s.cursorPositions
  {
  }

  /**
    Connecting and then disconnecting, outside an archive, returns to the
    listing of the working directory with the connection gone.
   */
  lemma ConnectThenDisconnect(s: Model, env: Env)
    requires !s.inArchive
    ensures var r := DisconnectSpec(ConnectSpec(s, env).next, env);
            && !r.isRemote && ConnectionConsistent(r) && r.cwd == env.workDir
            && r.files == SortSpec(env.localDir(env.workDir)) && r.inArchive == s.inArchive
  {
  }

  // ---------------------------------------------------------------------------
  // Downloading.

  const NoFileMessage: string := "Нет файла для скачивания"
  const FolderMessage: string := "Нельзя скачивать папки. Выберите файл."
  const HomeError: string := "Ошибка получения домашней директории:"
  const MkdirError: string := "Ошибка создания директории для скачивания:"
  const RemoteOpenError: string := "Ошибка открытия файла на сервере:"
  const CreateError: string := "Ошибка создания локального файла:"
  const WriteError: string := "Ошибка записи в файл:"
  const ReadError: string := "Ошибка чтения файла:"

  /** `fmt.Sprintf("%d", n)` for any sign. */
  function Signed(n: int): string
  {
    if n < 0 then "-" + Decimal(-n) else Decimal(n)
  }

  /** The status line while a download runs. */
  function Progress(name: string, percent: int): string
  {
    "Скачивание " + name + ": " + Signed(percent) + "%"
  }

  /** The status line once a download is complete. */
  function Done(name: string, dir: Path): string
  {
    "Файл " + name + " скачан в " + Render(dir)
  }

  /** `~/.filemanager/downloads/<year>/<month>/<day>`, month and day on two digits. */
  function DownloadDirFor(home: Path, today: Date): Path
  {
    JoinAll(home, [DownloadDir, Decimal(today.year), Pad2(today.month), Pad2(today.day)])
  }

  /** The download directory is five levels below the home directory, one per part of the date. */
  lemma DownloadLayout(home: Path, today: Date)
    ensures DownloadDirFor(home, today) ==
              home + [".filemanager", "downloads", Decimal(today.year), Pad2(today.month), Pad2(today.day)]
  {
    DownloadDirJoin(home);
    DatedLayout(home, DownloadDir, [".filemanager", "downloads"], today);
  }

  /** A dated directory below `home/dir`, whatever `dir` resolves to. */
  lemma DatedLayout(home: Path, dir: string, parts: Path, today: Date)
    requires Join(home, dir) == home + parts
    ensures JoinAll(home, [dir, Decimal(today.year), Pad2(today.month), Pad2(today.day)]) ==
              home + parts + [Decimal(today.year), Pad2(today.month), Pad2(today.day)]
  {
    var dated := [Decimal(today.year), Pad2(today.month), Pad2(today.day)];
    JoinAllHead(home, dir, dated);
    assert [dir] + dated == [dir, dated[0], dated[1], dated[2]];
    DateNames(today);
    JoinAllNames(home + parts, dated);
  }

  lemma JoinAllHead(dir: Path, first: string, rest: seq<string>)
    ensures JoinAll(dir, [first] + rest) == JoinAll(Join(dir, first), rest)
  {
    assert ([first] + rest)[1..] == rest;
  }

  /** The year, month and day are plain names. */
  lemma DateNames(today: Date)
    ensures IsName(Decimal(today.year)) && IsName(Pad2(today.month)) && IsName(Pad2(today.day))
  {
    DigitsName(Decimal(today.year));
    Pad2Name(today.month);
    Pad2Name(today.day);
  }

  lemma Pad2Name(n: nat)
    ensures IsName(Pad2(n))
  {
    var d := Decimal(n);
    if n < 10 {
      assert forall i :: 0 <= i < |"0" + d| ==> '0' <= ("0" + d)[i] <= '9' by {
        forall i | 0 <= i < |"0" + d| ensures '0' <= ("0" + d)[i] <= '9' {
          if i > 0 { assert ("0" + d)[i] == d[i - 1]; }
        }
      }
      DigitsName("0" + d);
    } else {
      DigitsName(d);
    }
  }

  lemma DownloadDirJoin(home: Path)
    ensures Join(home, DownloadDir) == home + [".filemanager", "downloads"]
  {
    DownloadDirSplit();
    var parts := [".filemanager", "downloads"];
    assert Resolve(home, parts) == Resolve(home + [".filemanager"], parts[1..]);
    assert Resolve(home + [".filemanager"], parts[1..]) == Resolve(home + [".filemanager"] + ["downloads"], []);
  }

  lemma DownloadDirSplit()
    ensures Split(DownloadDir, '/') == [".filemanager", "downloads"]
  {
    SplitPair(".filemanager", "downloads");
  }

  /** Splitting `a + "/" + b` where neither part has a separator. */
  lemma SplitPair(a: string, b: string)
    requires '/' !in a && '/' !in b
    ensures Split(a + "/" + b, '/') == [a, b]
  {
    SplitNoSep(b, '/');
    SplitAtSep(a, b);
  }

  /** Splitting `a + "/" + b` where `a` has no separator. */
  lemma {:induction false} SplitAtSep(a: string, b: string)
    requires '/' !in a
    ensures Split(a + ['/'] + b, '/') == [a] + Split(b, '/')
    decreases |a|
  {
    var s := a + ['/'] + b;
    if |a| > 0 {
      assert s[0] == a[0] && s[1..] == a[1..] + ['/'] + b;
      SplitAtSep(a[1..], b);
      var rest := Split(s[1..], '/');
      assert rest[0] == a[1..] && rest[1..] == Split(b, '/');
      assert [a[0]] + a[1..] == a;
    } else {
      assert s[0] == '/' && s[1..] == b;
    }
  }

  /** A string of digits is a path component. */
  lemma DigitsName(s: string)
    requires |s| >= 1 && forall i :: 0 <= i < |s| ==> '0' <= s[i] <= '9'
    ensures IsName(s)
  {
    assert s[0] != '.';
  }

  /** What a download writes into the state: the request log, the status line, and the command returned. */
  datatype LogStep = LogStep(requests: seq<Request>, status: string, cmd: Cmd)

  /** The log after the write of `data`, when there is anything to write. */
  function AfterWrite(requests: seq<Request>, local: Path, data: seq<bv8>): seq<Request>
  {
    if |data| > 0 then requests + [WriteDownload(local, data)] else requests
  }

  /**
    The copy loop from the `i`-th read on, with `total` bytes copied so far: each
    read that delivers data is written out (the write following the `i`-th read
    can fail) and reported on the status line; the loop ends at the end of the
    file, at an error, or when the reads are used up.  `NoCmd` means it completed.
   */
  function CopyFrom(env: Env, steps: seq<ReadStep>, i: nat, local: Path, name: string, size: int,
                    total: int, acc: LogStep): LogStep
    requires i <= |steps|
    decreases |steps| - i
  {
    if i == |steps| then acc
    else
      var next := NextLog(env, steps, i, local, name, size, total, acc);
      if |steps[i].data| > 0 && env.writeErr(local, i).Some? then
        LogStep(next.requests, acc.status, Report(WriteError, env.writeErr(local, i).value))
      else
        match steps[i].end
        case Eof => next
        case Fail(e) => next.(cmd := Report(ReadError, e))
        case More => CopyFrom(env, steps, i + 1, local, name, size, total + |steps[i].data|, next)
  }

  /** The bytes the server delivers from the `i`-th read up to the end of the file. */
  function Delivered(steps: seq<ReadStep>, i: nat): seq<bv8>
    requires i <= |steps|
    decreases |steps| - i
  {
    if i == |steps| then []
    else steps[i].data + (if steps[i].end.More? then Delivered(steps, i + 1) else [])
  }

  /** The bytes a sequence of requests writes into downloaded files. */
  function Written(reqs: seq<Request>): seq<bv8>
  {
    if |reqs| == 0 then []
    else (if reqs[0].WriteDownload? then reqs[0].data else []) + Written(reqs[1..])
  }

  lemma {:induction false} WrittenConcat(a: seq<Request>, b: seq<Request>)
    ensures Written(a + b) == Written(a) + Written(b)
    decreases |a|
  {
    if |a| > 0 {
      assert (a + b)[1..] == a[1..] + b;
      WrittenConcat(a[1..], b);
    } else {
      assert a + b == b;
    }
  }

  /** `c` is `a` followed by writes into the file at `local` only. */
  predicate AppendsWrites(a: seq<Request>, c: seq<Request>, local: Path)
  {
    && |a| <= |c| && c[..|a|] == a
    && forall k :: |a| <= k < |c| ==> c[k].WriteDownload? && c[k].path == local
  }

  /** Appending writes twice appends writes, and what they write adds up. */
  lemma AppendsWritesTrans(a: seq<Request>, b: seq<Request>, c: seq<Request>, local: Path)
    requires AppendsWrites(a, b, local) && AppendsWrites(b, c, local)
    ensures AppendsWrites(a, c, local)
    ensures Written(c[|a|..]) == Written(b[|a|..]) + Written(c[|b|..])
  {
    assert c[|a|..] == b[|a|..] + c[|b|..];
    WrittenConcat(b[|a|..], c[|b|..]);
  }

  /** A write appends at most one request, which writes `data` into the local file. */
  lemma AfterWriteAppends(requests: seq<Request>, local: Path, data: seq<bv8>)
    ensures AppendsWrites(requests, AfterWrite(requests, local, data), local)
    ensures Written(AfterWrite(requests, local, data)[|requests|..]) == data
  {
    var r := AfterWrite(requests, local, data);
    if |data| > 0 {
      assert r[|requests|..] == [WriteDownload(local, data)];
      assert Written([WriteDownload(local, data)]) == data + Written([]);
    } else {
      assert r[|requests|..] == [];
    }
  }

  /** Whether the `i`-th read ends the copy: its write fails, or it is not followed by more. */
  predicate StopsAt(env: Env, steps: seq<ReadStep>, i: nat, local: Path)
    requires i < |steps|
  {
    (|steps[i].data| > 0 && env.writeErr(local, i).Some?) || !steps[i].end.More?
  }

  /** The log handed to the next turn of the copy loop. */
  function NextLog(env: Env, steps: seq<ReadStep>, i: nat, local: Path, name: string, size: int, total: int, acc: LogStep): LogStep
    requires i < |steps|
  {
    var t := total + |steps[i].data|;
    LogStep(AfterWrite(acc.requests, local, steps[i].data),
            if |steps[i].data| > 0 then Progress(name, env.percent(t, size)) else acc.status, NoCmd)
  }

  /** One turn of the copy loop: it stops with the write made, or goes on to the next read. */
  lemma CopyStep(env: Env, steps: seq<ReadStep>, i: nat, local: Path, name: string, size: int, total: int, acc: LogStep)
    requires i < |steps|
    ensures var r := CopyFrom(env, steps, i, local, name, size, total, acc);
            && (StopsAt(env, steps, i, local) ==> r.requests == AfterWrite(acc.requests, local, steps[i].data))
            && (StopsAt(env, steps, i, local) && r.cmd.NoCmd? ==> steps[i].end.Eof?)
            && (!StopsAt(env, steps, i, local) ==>
                  r == CopyFrom(env, steps, i + 1, local, name, size, total + |steps[i].data|,
                                NextLog(env, steps, i, local, name, size, total, acc)))
  {
  }

  /** One turn of the copy loop, case by case: a failed write, the end of the file, a failed read, or more to read. */
  lemma CopyTurn(env: Env, steps: seq<ReadStep>, i: nat, local: Path, name: string, size: int, total: int, acc: LogStep)
    requires i < |steps|
    ensures var r := CopyFrom(env, steps, i, local, name, size, total, acc);
            var next := NextLog(env, steps, i, local, name, size, total, acc);
            var failed := |steps[i].data| > 0 && env.writeErr(local, i).Some?;
            && (failed ==> r == LogStep(next.requests, acc.status, Report(WriteError, env.writeErr(local, i).value)))
            && (!failed && steps[i].end.Eof? ==> r == next)
            && (!failed && steps[i].end.Fail? ==> r == next.(cmd := Report(ReadError, steps[i].end.err)))
            && (!failed && steps[i].end.More? ==> r == CopyFrom(env, steps, i + 1, local, name, size, total + |steps[i].data|, next))
  {
  }

  /** The requests the copy loop makes from the `i`-th read on: they depend on the data and the write errors alone. */
  function CopiedRequests(env: Env, steps: seq<ReadStep>, i: nat, local: Path, reqs: seq<Request>): seq<Request>
    requires i <= |steps|
    decreases |steps| - i
  {
    if i == |steps| then reqs
    else
      var after := AfterWrite(reqs, local, steps[i].data);
      if StopsAt(env, steps, i, local) then after else CopiedRequests(env, steps, i + 1, local, after)
  }

  lemma {:induction false} CopyRequests(env: Env, steps: seq<ReadStep>, i: nat, local: Path, name: string,
                                        size: int, total: int, acc: LogStep)
    requires i <= |steps|
    ensures CopyFrom(env, steps, i, local, name, size, total, acc).requests == CopiedRequests(env, steps, i, local, acc.requests)
    decreases |steps| - i
  {
    if i < |steps| {
      var after := AfterWrite(acc.requests, local, steps[i].data);
      CopyStep(env, steps, i, local, name, size, total, acc);
      if !StopsAt(env, steps, i, local) {
        var next := NextLog(env, steps, i, local, name, size, total, acc);
        assert next.requests == after;
        CopyRequests(env, steps, i + 1, local, name, size, total + |steps[i].data|, next);
        assert CopiedRequests(env, steps, i, local, acc.requests) == CopiedRequests(env, steps, i + 1, local, after);
      } else {
        assert CopiedRequests(env, steps, i, local, acc.requests) == after;
      }
    }
  }

  /** The copy only appends writes of the downloaded file to the log. */
  lemma {:induction false} CopiedAppendsWrites(env: Env, steps: seq<ReadStep>, i: nat, local: Path, reqs: seq<Request>)
    requires i <= |steps|
    ensures AppendsWrites(reqs, CopiedRequests(env, steps, i, local, reqs), local)
    decreases |steps| - i
  {
    if i < |steps| {
      var after := AfterWrite(reqs, local, steps[i].data);
      AfterWriteAppends(reqs, local, steps[i].data);
      if !StopsAt(env, steps, i, local) {
        CopiedAppendsWrites(env, steps, i + 1, local, after);
        AppendsWritesChain(reqs, after, CopiedRequests(env, steps, i + 1, local, after), local);
      }
    } else {
      assert reqs[..|reqs|] == reqs;
    }
  }

  lemma CopyAppendsWrites(env: Env, steps: seq<ReadStep>, i: nat, local: Path, name: string,
                          size: int, total: int, acc: LogStep)
    requires i <= |steps|
    ensures AppendsWrites(acc.requests, CopyFrom(env, steps, i, local, name, size, total, acc).requests, local)
  {
    CopyRequests(env, steps, i, local, name, size, total, acc);
    CopiedAppendsWrites(env, steps, i, local, acc.requests);
  }

  lemma AppendsWritesChain(a: seq<Request>, b: seq<Request>, c: seq<Request>, local: Path)
    requires AppendsWrites(a, b, local) && AppendsWrites(b, c, local)
    ensures AppendsWrites(a, c, local)
  {
    assert c[..|a|] == c[..|b|][..|a|];
  }

  /** When the copy from the `i`-th read on completes, what it wrote is exactly what the server delivered. */
  predicate WritesDelivered(env: Env, steps: seq<ReadStep>, i: nat, local: Path, name: string,
                            size: int, total: int, acc: LogStep)
    requires i <= |steps|
  {
    var r := CopyFrom(env, steps, i, local, name, size, total, acc);
    r.cmd.NoCmd? ==> |acc.requests| <= |r.requests| && Written(r.requests[|acc.requests|..]) == Delivered(steps, i)
  }

  lemma {:induction false} CopyWritesStream(env: Env, steps: seq<ReadStep>, i: nat, local: Path, name: string,
                                            size: int, total: int, acc: LogStep)
    requires i <= |steps|
    ensures WritesDelivered(env, steps, i, local, name, size, total, acc)
    decreases |steps| - i, 1
  {
    if i < |steps| {
      if StopsAt(env, steps, i, local) {
        CopyWritesLast(env, steps, i, local, name, size, total, acc);
      } else {
        CopyWritesMore(env, steps, i, local, name, size, total, acc);
      }
    }
  }

  /** The read that ends a completed copy delivers what its write writes. */
  lemma CopyWritesLast(env: Env, steps: seq<ReadStep>, i: nat, local: Path, name: string,
                       size: int, total: int, acc: LogStep)
    requires i < |steps| && StopsAt(env, steps, i, local)
    ensures WritesDelivered(env, steps, i, local, name, size, total, acc)
  {
    var r := CopyFrom(env, steps, i, local, name, size, total, acc);
    AfterWriteAppends(acc.requests, local, steps[i].data);
    CopyStep(env, steps, i, local, name, size, total, acc);
    if r.cmd.NoCmd? {
      DeliveredLast(steps, i);
    }
  }

  /** A read followed by more adds its data in front of what the rest of the copy writes. */
  lemma {:induction false} CopyWritesMore(env: Env, steps: seq<ReadStep>, i: nat, local: Path, name: string,
                                          size: int, total: int, acc: LogStep)
    requires i < |steps| && !StopsAt(env, steps, i, local)
    ensures WritesDelivered(env, steps, i, local, name, size, total, acc)
    decreases |steps| - i, 0
  {
    var t := total + |steps[i].data|;
    var next := NextLog(env, steps, i, local, name, size, total, acc);
    var r := CopyFrom(env, steps, i + 1, local, name, size, t, next);
    CopyWritesStream(env, steps, i + 1, local, name, size, t, next);
    assert CopyFrom(env, steps, i, local, name, size, total, acc) == r;
    CopyAppendsWrites(env, steps, i + 1, local, name, size, t, next);
    WriteThenAppends(acc.requests, next.requests, r.requests, local, steps[i].data);
    DeliveredMore(steps, i);
  }

  /** A write followed by more writes: the first write's data comes first in what they write. */
  lemma WriteThenAppends(a: seq<Request>, b: seq<Request>, c: seq<Request>, local: Path, data: seq<bv8>)
    requires b == AfterWrite(a, local, data) && AppendsWrites(b, c, local)
    ensures |a| <= |b| <= |c| && Written(c[|a|..]) == data + Written(c[|b|..])
  {
    AfterWriteAppends(a, local, data);
    AppendsWritesTrans(a, b, c, local);
  }

  lemma DeliveredMore(steps: seq<ReadStep>, i: nat)
    requires i < |steps| && steps[i].end.More?
    ensures Delivered(steps, i) == steps[i].data + Delivered(steps, i + 1)
  {
  }

  lemma DeliveredLast(steps: seq<ReadStep>, i: nat)
    requires i < |steps| && steps[i].end.Eof?
    ensures Delivered(steps, i) == steps[i].data
  {
  }

  /** The copy loop of `downloadFile`. */
  method CopyStream(env: Env, steps: seq<ReadStep>, local: Path, name: string, size: int,
                    requests0: seq<Request>, status0: string) returns (log: LogStep)
    ensures log == CopyFrom(env, steps, 0, local, name, size, 0, LogStep(requests0, status0, NoCmd))
  {
    ghost var final := CopyFrom(env, steps, 0, local, name, size, 0, LogStep(requests0, status0, NoCmd));
    var requests, status := requests0, status0;
    var totalRead := 0;
    var i := 0;
    while i < |steps|
      invariant 0 <= i <= |steps|
      invariant CopyFrom(env, steps, i, local, name, size, totalRead, LogStep(requests, status, NoCmd)) == final
      decreases |steps| - i
    {
      var st := steps[i];
      ghost var acc, total0 := LogStep(requests, status, NoCmd), totalRead;
      ghost var next := NextLog(env, steps, i, local, name, size, totalRead, acc);
      CopyTurn(env, steps, i, local, name, size, totalRead, acc);
      if |st.data| > 0 {
        requests := AfterWrite(requests, local, st.data);
        var werr := env.writeErr(local, i);
        if werr.Some? {
          return LogStep(requests, status, Report(WriteError, werr.value));
        }
        totalRead := totalRead + |st.data|;
        status := Progress(name, env.percent(totalRead, size));
        assert status == next.status;
      }
      assert requests == next.requests && status == next.status;
      if st.end.Eof? {
        return LogStep(requests, status, NoCmd);
      }
      if st.end.Fail? {
        return LogStep(requests, status, Report(ReadError, st.end.err));
      }
      assert totalRead == total0 + |st.data|;
      i := i + 1;
    }
    return LogStep(requests, status, NoCmd);
  }

  /**
    Fetching the remote file into `dir`: the directory is made (`os.MkdirAll`), the
    remote file opened, the local file created, and the bytes copied.
   */
  function Fetch(env: Env, requests: seq<Request>, status: string, remotePath: Path, sel: Entry, dir: Path): LogStep
  {
    var reqs := requests + [MakeDownloadDir(dir)];
    if env.mkdirAllErr(dir).Some? then LogStep(reqs, status, Report(MkdirError, env.mkdirAllErr(dir).value))
    else
      var local := Join(dir, sel.name);
      var stream := env.remoteStream(remotePath);
      if stream.Err? then LogStep(reqs, status, Report(RemoteOpenError, stream.err))
      else
        var reqs2 := reqs + [CreateDownload(local)];
        if env.createErr(local).Some? then LogStep(reqs2, status, Report(CreateError, env.createErr(local).value))
        else
          var copied := CopyFrom(env, stream.value, 0, local, sel.name, sel.size, 0, LogStep(reqs2, status, NoCmd));
          if copied.cmd.NoCmd? then copied.(status := Done(sel.name, dir)) else copied
  }

  /** What `downloadFile` writes into the state and returns. */
  function DownloadLog(s: Model, env: Env): LogStep
  {
    var keep := LogStep(s.requests, s.status, NoCmd);
    if !(0 <= s.cursor < |s.files|) then keep.(cmd := Print(NoFileMessage))
    else
      var sel := s.files[s.cursor];
      if sel.IsDir() then keep.(cmd := Print(FolderMessage))
      else if env.home.Err? then keep.(cmd := Report(HomeError, env.home.err))
      else Fetch(env, s.requests, s.status, Join(s.cwd, sel.name), sel, DownloadDirFor(env.home.value, env.today))
  }

  /** The effect of `downloadFile`: only the request log and the status line change. */
  function DownloadSpec(s: Model, env: Env): Step
  {
    var l := DownloadLog(s, env);
    Step(s.(requests := l.requests, status := l.status), Returned(l.cmd))
  }

  /** The part of `downloadFile` after the download directory is known. */
  method FetchFile(env: Env, requests: seq<Request>, status: string, remotePath: Path, selected: Entry, downloadDir: Path)
    returns (log: LogStep)
    ensures log == Fetch(env, requests, status, remotePath, selected, downloadDir)
  {
    log := LogStep(requests + [MakeDownloadDir(downloadDir)], status, NoCmd);
    var mkdirErr := env.mkdirAllErr(downloadDir);
    if mkdirErr.Some? {
      return log.(cmd := Report(MkdirError, mkdirErr.value));
    }
    var localPath := Join(downloadDir, selected.name);
    var remoteFile := env.remoteStream(remotePath);
    if remoteFile.Err? {
      return log.(cmd := Report(RemoteOpenError, remoteFile.err));
    }
    log := log.(requests := log.requests + [CreateDownload(localPath)]);
    var createErr := env.createErr(localPath);
    if createErr.Some? {
      return log.(cmd := Report(CreateError, createErr.value));
    }
    log := CopyStream(env, remoteFile.value, localPath, selected.name, selected.size, log.requests, log.status);
    if log.cmd.NoCmd? {
      log := log.(status := Done(selected.name, downloadDir));
    }
  }

  /** `downloadFile`. */
  method DownloadFile(m: FileManagerState, env: Env) returns (cmd: Cmd)
    modifies m
    ensures Step(m.Snap(), Returned(cmd)) == DownloadSpec(old(m.Snap()), env)
  {
    ghost var s := m.Snap();
    var log := LogStep(m.requests, m.status, NoCmd);
    if !(0 <= m.cursor < |m.files|) {
      log := log.(cmd := Print(NoFileMessage));
    } else {
      var selected := m.files[m.cursor];
      if selected.IsDir() {
        log := log.(cmd := Print(FolderMessage));
      } else {
        var remotePath := Join(m.cwd, selected.name);
        var homeDir := env.home;
        if homeDir.Err? {
          log := log.(cmd := Report(HomeError, homeDir.err));
        } else {
          var downloadDir := DownloadDirFor(homeDir.value, env.today);
          log := FetchFile(env, m.requests, m.status, remotePath, selected, downloadDir);
        }
      }
    }
    assert log == DownloadLog(s, env);
    SetLog(m, log.requests, log.status);
    cmd := log.cmd;
  }

  /** The cursor off the listing and a directory under it are refused before anything is requested. */
  lemma DownloadRefusals(s: Model, env: Env)
    ensures !(0 <= s.cursor < |s.files|) ==> DownloadSpec(s, env) == Step(s, Returned(Print(NoFileMessage)))
    ensures 0 <= s.cursor < |s.files| && s.files[s.cursor].IsDir() ==>
              DownloadSpec(s, env) == Step(s, Returned(Print(FolderMessage)))
  {
  }

  /** Fetching only appends to the log. */
  lemma FetchOnlyAppends(env: Env, requests: seq<Request>, status: string, remotePath: Path, sel: Entry, dir: Path)
    ensures var l := Fetch(env, requests, status, remotePath, sel, dir);
            |requests| <= |l.requests| && l.requests[..|requests|] == requests
  {
    var local := Join(dir, sel.name);
    var stream := env.remoteStream(remotePath);
    var reqs2 := requests + [MakeDownloadDir(dir)] + [CreateDownload(local)];
    if env.mkdirAllErr(dir).None? && stream.Ok? && env.createErr(local).None? {
      CopyAppendsWrites(env, stream.value, 0, local, sel.name, sel.size, 0, LogStep(reqs2, status, NoCmd));
      assert reqs2[..|requests|] == requests;
    }
  }

  /** A download, whatever its outcome, only appends to the request log. */
  lemma DownloadOnlyAppends(s: Model, env: Env)
    ensures var l := DownloadLog(s, env);
            |s.requests| <= |l.requests| && l.requests[..|s.requests|] == s.requests
  {
    if 0 <= s.cursor < |s.files| && !s.files[s.cursor].IsDir() && env.home.Ok? {
      var sel := s.files[s.cursor];
      FetchOnlyAppends(env, s.requests, s.status, Join(s.cwd, sel.name), sel, DownloadDirFor(env.home.value, env.today));
    }
  }

  /**
    A completed fetch makes the directory, creates the file there under the
    remote file's name, writes into it exactly the bytes the server delivered,
    and says where the file went.
   */
  lemma FetchComplete(env: Env, requests: seq<Request>, status: string, remotePath: Path, sel: Entry, dir: Path)
    requires env.remoteStream(remotePath).Ok?
    requires Fetch(env, requests, status, remotePath, sel, dir).cmd.NoCmd?
    ensures var steps := env.remoteStream(remotePath).value;
            var l := Fetch(env, requests, status, remotePath, sel, dir);
            var n := |requests|;
            && |l.requests| >= n + 2
            && l.requests[n] == MakeDownloadDir(dir)
            && l.requests[n + 1] == CreateDownload(Join(dir, sel.name))
            && Written(l.requests[n + 2..]) == Delivered(steps, 0)
            && l.status == Done(sel.name, dir)
  {
    var local := Join(dir, sel.name);
    var steps := env.remoteStream(remotePath).value;
    var reqs2 := requests + [MakeDownloadDir(dir)] + [CreateDownload(local)];
    CopyWritesStream(env, steps, 0, local, sel.name, sel.size, 0, LogStep(reqs2, status, NoCmd));
    CopyAppendsWrites(env, steps, 0, local, sel.name, sel.size, 0, LogStep(reqs2, status, NoCmd));
    var l := Fetch(env, requests, status, remotePath, sel, dir);
    assert l.requests[..|reqs2|] == reqs2;
    assert l.requests[|requests|] == reqs2[|requests|];
    assert l.requests[|requests| + 1] == reqs2[|requests| + 1];
  }

  /**
    A completed download of the selected file lands in the dated directory under
    the home directory, holding exactly the bytes the server delivered.
   */
  lemma DownloadComplete(s: Model, env: Env)
    requires 0 <= s.cursor < |s.files| && !s.files[s.cursor].IsDir() && env.home.Ok?
    requires env.remoteStream(Join(s.cwd, s.files[s.cursor].name)).Ok?
    requires DownloadLog(s, env).cmd.NoCmd?
    ensures var sel := s.files[s.cursor];
            var dir := DownloadDirFor(env.home.value, env.today);
            var steps := env.remoteStream(Join(s.cwd, sel.name)).value;
            var l := DownloadSpec(s, env).next;
            var n := |s.requests|;
            && |l.requests| >= n + 2
            && l.requests[n] == MakeDownloadDir(dir)
            && l.requests[n + 1] == CreateDownload(Join(dir, sel.name))
            && Written(l.requests[n + 2..]) == Delivered(steps, 0)
            && l.status == Done(sel.name, dir)
  {
    var sel := s.files[s.cursor];
    var dir := DownloadDirFor(env.home.value, env.today);
    var path := Join(s.cwd, sel.name);
    assert DownloadLog(s, env) == Fetch(env, s.requests, s.status, path, sel, dir);
    FetchComplete(env, s.requests, s.status, path, sel, dir);
  }
}
