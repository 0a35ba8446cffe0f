/**
  What the file manager asks of the world outside it: the local filesystem, the
  SFTP server, ZIP archives, the clock and the saved configuration.  Every such
  query is an oracle field of `Env`, passed to the operations as a parameter;
  every change the program asks the world to make is a `Request` appended to the
  state's request log.  The messages the terminal loop can receive, and the
  commands handed back to it, are here too.
 */
module Backend {
  import opened Common
  import opened Paths
  import opened Entries
  import opened Models
  import opened Viewport

  /** Reading a whole file (`os.ReadFile`, or `Open` then `io.ReadAll`). */
  datatype ReadResult = ReadOk(text: string) | OpenErr(err: string) | ReadErr(err: string)

  /** One member of an open ZIP archive: its name inside the archive, its listing row and what reading it gives. */
  datatype ArchiveMember = ArchiveMember(name: string, info: Entry, content: ReadResult)

  /**
    Opening a ZIP archive.  A local archive is opened in one call (`zip.OpenReader`);
    a remote one is opened, stat-ed and parsed, and each step can fail.
   */
  datatype ZipOpen = Opened(members: seq<ArchiveMember>) | OpenFailed(err: string) | StatFailed(err: string) | ParseFailed(err: string)

  /** Connecting to an SFTP server (`initSFTP`): dial, open a session, start the client. */
  datatype ConnectOutcome = Connected | DialFailed(err: string) | SessionFailed(err: string) | ClientFailed(err: string)

  /** How one `Read` of a remote file ends: more to come, end of file, or an error. */
  datatype ReadEnd = More | Eof | Fail(err: string)

  /** One `Read` of a remote file: the bytes it delivered and how it ended. */
  datatype ReadStep = ReadStep(data: seq<bv8>, end: ReadEnd)

  /** A value, or the text of the error that prevented it. */
  datatype Res<T> = Ok(value: T) | Err(err: string)

  /** The calendar date of `time.Now()`. */
  datatype Date = Date(year: nat, month: nat, day: nat)

  datatype Env = Env(
    /** `os.ReadDir(dir)`: the entries it returned (its error is ignored by the program). */
    localDir: Path -> seq<Entry>,
    /** `SftpClient.ReadDir(dir)`, None on error. */
    remoteDir: Path -> Option<seq<Entry>>,
    localZip: Path -> ZipOpen,
    remoteZip: Path -> ZipOpen,
    /** `os.ReadFile(path)`. */
    localRead: Path -> ReadResult,
    /** `SftpClient.Open(path)` then `io.ReadAll`. */
    remoteRead: Path -> ReadResult,
    /** Whether `os.Open(name)` succeeds for a bare name, resolved against the process directory. */
    opensByName: string -> bool,
    /** `utils.FormatJSON`, `utils.FormatXML`: None on error. */
    formatJson: string -> Option<string>,
    formatXml: string -> Option<string>,
    /** `utils.HighlightSyntax(content, fileName)`. */
    highlight: (string, string) -> string,
    /** `loadSFTPConfig()`: None on any error. */
    savedConfig: Option<Credentials>,
    /** The error of `saveSFTPConfig(c)`, if any. */
    saveErr: Credentials -> Option<string>,
    connect: Credentials -> ConnectOutcome,
    /** `os.Getwd()`. */
    workDir: Path,
    /** `os.UserHomeDir()`. */
    home: Res<Path>,
    today: Date,
    /** The error of `os.MkdirAll(dir)`, if any. */
    mkdirAllErr: Path -> Option<string>,
    /**
      `SftpClient.Open(path)` for a download, then the successive `Read` calls;
      once they are used up, a further read reports the end of the file.
     */
    remoteStream: Path -> Res<seq<ReadStep>>,
    /** The error of `os.Create(path)`, if any. */
    createErr: Path -> Option<string>,
    /** The error of the `k`-th write to the downloaded file, if any. */
    writeErr: (Path, nat) -> Option<string>,
    /** `int(float64(done) / float64(size) * 100)`. */
    percent: (int, int) -> int,
    /** The pane's own handling of a key (`previewView.Update`). */
    viewportKey: (Viewport, string) -> Viewport
  )

  /** A change requested of the local filesystem or of the SFTP server. */
  datatype Request =
    | MakeDir(path: Path, remote: bool)
    | CreateFile(path: Path, remote: bool)
    | RenamePath(src: Path, dst: Path, remote: bool)
    /** `os.RemoveAll` locally, `SftpClient.Remove` remotely. */
    | RemovePath(path: Path, remote: bool)
    | SaveConfig(config: Credentials)
    | MakeDownloadDir(path: Path)
    | CreateDownload(path: Path)
    | WriteDownload(path: Path, data: seq<bv8>)

  /** The command `Update` hands back to the terminal loop. */
  datatype Cmd = NoCmd | Quit | Print(text: string)

  /**
    `tea.Println(prefix, err)`: the line is `fmt.Sprint(prefix, err)`, which puts
    no space between the operands because the first one is a string.
   */
  function Report(prefix: string, err: string): (r: Cmd)
    ensures r.Print? && |r.text| == |prefix| + |err|
    ensures r.Print? ==> r.text[..|prefix|] == prefix && r.text[|prefix|..] == err
  {
    Print(prefix + err)
  }

  /** How an operation ends: it returns a command, or the Go code panics (index out of range, nil pointer). */
  datatype Outcome = Returned(cmd: Cmd) | Panicked

  /** The messages `Update` reacts to. */
  datatype Msg = WindowSize(width: int, height: int) | Key(key: string) | OtherMsg
}
