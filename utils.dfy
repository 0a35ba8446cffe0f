/**
  The pure helpers of `utils/utils.go` (`TruncateFileName`, `IsZipArchive`,
  `IsUnsupportedFile`) and the scanning loop of `isLikelyBinary`.
  `SortFiles` is in module `Sorting`, `MarkdownToANSI` in module `Markdown`.
 */
module Utils {
  import opened Text
  import opened Paths
  import opened Entries
  import opened Models

  /**
    `TruncateFileName(name, maxLen)`: the name itself when it fits, otherwise its
    first `maxLen - 3` characters and "...".  Go panics (slice bound out of range)
    when the name does not fit and `maxLen < 3`; the precondition excludes exactly that.
   */
  function TruncateFileName(name: string, maxLen: int): (r: string)
    requires |name| <= maxLen || maxLen >= 3
    ensures |name| <= maxLen ==> r == name
    ensures |name| > maxLen ==> |r| == maxLen && r == name[..maxLen - 3] + "..."
  {
    if |name| <= maxLen then name else name[..maxLen - 3] + "..."
  }

  /** The result never exceeds the limit, and it is a prefix of the name unless it ends in "...". */
  lemma TruncateFits(name: string, maxLen: int)
    requires |name| <= maxLen || maxLen >= 3
    ensures |TruncateFileName(name, maxLen)| <= maxLen
    ensures var r := TruncateFileName(name, maxLen);
            r == name || (r[..|r| - 3] == name[..|r| - 3] && r[|r| - 3..] == "...")
  {
  }

  /** `IsZipArchive`: the lower-cased name ends in ".zip". */
  predicate IsZipArchive(filename: string)
  {
    HasSuffix(Lower(filename), ".zip")
  }

  /** A name is a ZIP archive exactly when its extension, lower-cased, is ".zip". */
  lemma ZipByExtension(filename: string)
    ensures IsZipArchive(filename) <==> Lower(Ext(filename)) == ".zip"
  {
    if IsZipArchive(filename) {
      ZipHasExtension(filename);
    }
    if Lower(Ext(filename)) == ".zip" {
      ExtensionMakesZip(filename);
    }
  }

  /** A name ending in ".zip", in any case, has ".zip" as its extension. */
  lemma ZipHasExtension(filename: string)
    requires IsZipArchive(filename)
    ensures Lower(Ext(filename)) == ".zip"
  {
    var n := |filename|;
    LowerSlice(filename, n - 4, n);
    var tail := filename[n - 4..];
    assert Lower(tail) == ".zip";
    assert tail[0] == '.' && tail[1] != '.' && tail[2] != '.' && tail[3] != '.';
    assert tail[1] != '/' && tail[2] != '/' && tail[3] != '/';
    assert filename[n - 1] == tail[3] && filename[n - 2] == tail[2];
    assert filename[n - 3] == tail[1] && filename[n - 4] == tail[0];
    assert DotIndex(filename, n) == n - 4;
  }

  /** A name whose extension is ".zip", in any case, is a ZIP archive. */
  lemma ExtensionMakesZip(filename: string)
    requires Lower(Ext(filename)) == ".zip"
    ensures IsZipArchive(filename)
  {
    var n := |filename|;
    var e := Ext(filename);
    assert |e| == 4;
    assert filename[n - 4..] == e;
    LowerSlice(filename, n - 4, n);
  }

  /** A byte that `isLikelyBinary` takes as a sign of binary content. */
  predicate Suspicious(b: bv8)
  {
    b == 0 || (b < 32 && b != 9 && b != 10 && b != 13)
  }

  /** The verdict of the byte scan of `isLikelyBinary` on a buffer. */
  predicate LooksBinary(buf: seq<bv8>)
  {
    exists i :: 0 <= i < |buf| && Suspicious(buf[i])
  }

  /** The size of the buffer `isLikelyBinary` scans. */
  const BufferSize: nat := 512

  /** The buffer `isLikelyBinary` scans: `make([]byte, 512)`, which nothing ever reads into. */
  function ZeroBuffer(): (r: seq<bv8>)
    ensures |r| == BufferSize
  {
    seq(BufferSize, _ => 0)
  }

  /**
    `isLikelyBinary(name)`, given whether `os.Open(name)` succeeds: false when the
    file cannot be opened, otherwise the verdict of the scan of the zero buffer.
   */
  predicate LikelyBinary(opens: bool)
  {
    opens && LooksBinary(ZeroBuffer())
  }

  /** Since the buffer is never filled, every file that opens counts as binary. */
  lemma LikelyBinaryIffOpens(opens: bool)
    ensures LikelyBinary(opens) <==> opens
  {
    assert Suspicious(ZeroBuffer()[0]);
  }

  /** The scanning loop of `isLikelyBinary`: true at the first suspicious byte. */
  method ScanBuffer(buf: array<bv8>) returns (r: bool)
    ensures r <==> LooksBinary(buf[..])
  {
    var i := 0;
    while i < buf.Length
      invariant 0 <= i <= buf.Length
      invariant forall k :: 0 <= k < i ==> !Suspicious(buf[k])
    {
      var e := buf[i];
      if e == 0 {
        assert buf[..][i] == e;
        return true;
      }
      if e < 32 && e != 9 && e != 10 && e != 13 {
        assert buf[..][i] == e;
        return true;
      }
      i := i + 1;
    }
    return false;
  }

  /** `isLikelyBinary`. */
  method IsLikelyBinary(opens: bool) returns (r: bool)
    ensures r == LikelyBinary(opens)
  {
    if !opens {
      return false;
    }
    var buf := new bv8[BufferSize](_ => 0);
    assert buf[..] == ZeroBuffer();
    r := ScanBuffer(buf);
  }

  /**
    `IsUnsupportedFile(name, info)`: with an extension, whether the lower-cased
    extension is listed; without one, whether a regular file (not a directory,
    not a symlink) has an execute bit or looks binary.  `opens` says whether
    `os.Open(name)` succeeds; the name is resolved against the process directory.
   */
  predicate IsUnsupportedFile(filename: string, info: Entry, opens: bool)
  {
    if Ext(filename) == "" then
      !info.IsDir() && !IsSymlink(info) && (HasExecBit(info) || LikelyBinary(opens))
    else
      Lower(Ext(filename)) in UnsupportedExtensions
  }

  /** The three cases of `IsUnsupportedFile`. */
  lemma UnsupportedCases(filename: string, info: Entry, opens: bool)
    ensures Ext(filename) != "" ==>
              (IsUnsupportedFile(filename, info, opens) <==> Lower(Ext(filename)) in UnsupportedExtensions)
    ensures Ext(filename) == "" && (info.IsDir() || IsSymlink(info)) ==> !IsUnsupportedFile(filename, info, opens)
    ensures Ext(filename) == "" && !info.IsDir() && !IsSymlink(info) ==>
              (IsUnsupportedFile(filename, info, opens) <==> HasExecBit(info) || opens)
  {
    LikelyBinaryIffOpens(opens);
  }

  /** None of the extensions the preview transforms, nor ".zip", is listed. */
  lemma NotListed(x: string)
    requires x in {".json", ".xml", ".md", ".zip"}
    ensures x !in UnsupportedExtensions
  {
  }

  /**
    Files whose extension is ".json", ".xml", ".md" or ".zip" in any letter case are
    never refused, so the preview transforms and the archive view are reachable.
   */
  lemma PreviewTypesSupported(filename: string, info: Entry, opens: bool)
    requires Lower(Ext(filename)) in {".json", ".xml", ".md", ".zip"}
    ensures !IsUnsupportedFile(filename, info, opens)
  {
    NotListed(Lower(Ext(filename)));
  }
}
