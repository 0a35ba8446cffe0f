/**
  Directory entries (`os.FileInfo` as returned by the local, remote and archive
  listings) and the comparison used by `utils.SortFiles`.
 */
module Entries {
  import opened Text

  /** Bits of Go's `os.FileMode`. */
  const ModeDir: bv32 := 0x8000_0000
  const ModeSymlink: bv32 := 0x0800_0000
  /** The execute bits `0111` of the permission part. */
  const ExecBits: bv32 := 0x49

  /** One listing row: name, size in bytes and file mode (the modification time is not modelled). */
  datatype Entry = Entry(name: string, size: int, mode: bv32) {
    /** `FileInfo.IsDir()`. */
    predicate IsDir()
    {
      mode & ModeDir != 0
    }
  }

  /** `utils.isSymlink`. */
  predicate IsSymlink(e: Entry)
  {
    e.mode & ModeSymlink != 0
  }

  /** `mode & 0111 != 0`: some execute bit is set. */
  predicate HasExecBit(e: Entry)
  {
    e.mode & ExecBits != 0
  }

  /** The key `SortFiles` compares names by. */
  function SortName(e: Entry): string
  {
    Lower(e.name)
  }

  /** The `less` function passed to `sort.Slice` in `SortFiles`. */
  predicate Less(x: Entry, y: Entry)
  {
    if x.IsDir() && !y.IsDir() then true
    else if !x.IsDir() && y.IsDir() then false
    else LessStr(SortName(x), SortName(y))
  }

  lemma LessIrreflexive(x: Entry)
    ensures !Less(x, x)
  {
    LessStrIrreflexive(SortName(x));
  }

  lemma LessAsymmetric(x: Entry, y: Entry)
    requires Less(x, y)
    ensures !Less(y, x)
  {
    if x.IsDir() == y.IsDir() && LessStr(SortName(y), SortName(x)) {
      LessStrTransitive(SortName(x), SortName(y), SortName(x));
      LessStrIrreflexive(SortName(x));
    }
  }

  /** "Not less" is transitive: `Less` is a strict weak order, as `sort.Slice` needs. */
  lemma NotLessTransitive(x: Entry, y: Entry, z: Entry)
    requires !Less(x, y) && !Less(y, z)
    ensures !Less(x, z)
  {
    if Less(x, z) {
      assert x.IsDir() == y.IsDir() && y.IsDir() == z.IsDir();
      LessStrTrichotomy(SortName(x), SortName(y));
      LessStrTrichotomy(SortName(y), SortName(z));
      if SortName(y) != SortName(z) {
        LessStrTransitive(SortName(z), SortName(y), SortName(x));
        LessStrTransitive(SortName(x), SortName(z), SortName(x));
        LessStrIrreflexive(SortName(x));
      } else if SortName(x) != SortName(y) {
        LessStrTransitive(SortName(x), SortName(z), SortName(x));
        LessStrIrreflexive(SortName(x));
      } else {
        LessStrIrreflexive(SortName(x));
      }
    }
  }
}
