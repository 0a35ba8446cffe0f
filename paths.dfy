/**
  Go's `path/filepath` functions used by the file manager (`Join`, `Dir`, `Base`, `Ext`)
  on a Unix host, where `filepath.ToSlash` is the identity.

  Every directory the program visits is an absolute, cleaned path, so a path is
  modelled as the sequence of its components: `[]` is "/", `["home", "u"]` is
  "/home/u".  `filepath.Join(dir, rel)` cleans `dir + "/" + rel`, which on such a
  path means resolving the components of `rel` one by one.
 */
module Paths {
  import opened Text

  type Path = seq<string>

  /** A component of a cleaned path. */
  predicate IsName(c: string)
  {
    c != "" && c != "." && c != ".." && '/' !in c
  }

  /** A cleaned absolute path. */
  predicate ValidPath(p: Path)
  {
    forall i :: 0 <= i < |p| ==> IsName(p[i])
  }

  /** The filesystem root "/". */
  const Root: Path := []

  /** One component of a relative path applied to a cleaned path, as `filepath.Clean` does. */
  function Step(p: Path, c: string): (r: Path)
    requires '/' !in c
    ensures ValidPath(p) ==> ValidPath(r)
  {
    if c == "" || c == "." then p
    else if c == ".." then (if |p| == 0 then p else p[..|p| - 1])
    else p + [c]
  }

  function Resolve(p: Path, parts: seq<string>): (r: Path)
    requires forall k :: 0 <= k < |parts| ==> '/' !in parts[k]
    ensures ValidPath(p) ==> ValidPath(r)
    decreases |parts|
  {
    if |parts| == 0 then p else Resolve(Step(p, parts[0]), parts[1..])
  }

  /** `filepath.Join(dir, rel)`. */
  function Join(dir: Path, rel: string): (r: Path)
    ensures ValidPath(dir) ==> ValidPath(r)
  {
    Resolve(dir, Split(rel, '/'))
  }

  /** `filepath.Join(dir, a, b, ...)` for several relative parts. */
  function JoinAll(dir: Path, rels: seq<string>): (r: Path)
    ensures ValidPath(dir) ==> ValidPath(r)
    decreases |rels|
  {
    if |rels| == 0 then dir else JoinAll(Join(dir, rels[0]), rels[1..])
  }

  /** `filepath.Dir`: the parent, and the root for the root. */
  function Dir(p: Path): (r: Path)
    ensures ValidPath(p) ==> ValidPath(r)
    ensures r == p <==> p == Root
  {
    if |p| == 0 then p else p[..|p| - 1]
  }

  /** `filepath.Base`: the last component, and "/" for the root. */
  function Base(p: Path): string
  {
    if |p| == 0 then "/" else p[|p| - 1]
  }

  /** The textual form of a path, as Go prints it. */
  function Render(p: Path): (r: string)
    ensures |r| >= 1 && r[0] == '/'
  {
    if |p| == 0 then "/" else "/" + JoinWith(p, '/')
  }

  lemma JoinName(dir: Path, name: string)
    requires IsName(name)
    ensures Join(dir, name) == dir + [name]
    ensures Dir(Join(dir, name)) == dir
    ensures Base(Join(dir, name)) == name
  {
    SplitNoSep(name, '/');
    assert Split(name, '/') == [name];
    assert Resolve(dir, [name]) == Resolve(dir + [name], []);
  }

  /** Joining plain names one after the other appends them. */
  lemma {:induction false} JoinAllNames(dir: Path, names: seq<string>)
    requires forall k :: 0 <= k < |names| ==> IsName(names[k])
    ensures JoinAll(dir, names) == dir + names
    decreases |names|
  {
    if |names| > 0 {
      JoinName(dir, names[0]);
      JoinAllNames(dir + [names[0]], names[1..]);
      assert dir + [names[0]] + names[1..] == dir + names;
    }
  }

  lemma {:induction false} SplitNoSep(s: string, sep: char)
    requires sep !in s
    ensures Split(s, sep) == [s]
    decreases |s|
  {
    if |s| > 0 {
      assert sep !in s[1..];
      SplitNoSep(s[1..], sep);
      assert s == [s[0]] + s[1..];
    }
  }

  /** On a valid path, `Dir` undoes the last step of `Join`. */
  lemma DirBase(p: Path)
    requires ValidPath(p) && p != Root
    ensures Join(Dir(p), Base(p)) == p
  {
    JoinName(Dir(p), Base(p));
  }

  /**
    The index of the last dot of the last element of `s[..n]`, or -1 when that
    element has no dot: the backwards scan of `filepath.Ext`.
   */
  function DotIndex(s: string, n: nat): (k: int)
    requires n <= |s|
    ensures -1 <= k < n
    ensures k >= 0 ==> s[k] == '.' && forall t :: k < t < n ==> s[t] != '/' && s[t] != '.'
    ensures k < 0 ==> forall i :: 0 <= i < n && s[i] == '.' ==> exists j :: i < j < n && s[j] == '/'
    decreases n
  {
    if n == 0 then -1
    else if s[n - 1] == '/' then -1
    else if s[n - 1] == '.' then n - 1
    else DotIndex(s, n - 1)
  }

  /**
    `filepath.Ext`: the suffix of the last element that starts at its last dot,
    or "" when the last element has no dot.
   */
  function Ext(s: string): (r: string)
    ensures r == "" <==> forall i :: 0 <= i < |s| && s[i] == '.' ==> exists k :: i < k < |s| && s[k] == '/'
    ensures r != "" ==> r[0] == '.' && HasSuffix(s, r) && '/' !in r && '.' !in r[1..]
  {
    var k := DotIndex(s, |s|);
    if k < 0 then ""
    else
      assert forall t :: 0 <= t < |s| - k ==> s[k..][t] == s[k + t];
      assert !(exists j :: k < j < |s| && s[j] == '/');
      s[k..]
  }

  lemma ExtShape(s: string)
    ensures Ext(s) == "" || Ext(s)[0] == '.'
  {
  }
}
