/**
  `utils.SortFiles`: sorts a listing in place with `sort.Slice`, directories
  first, then by lower-cased name.  `sort.Slice(xs, less)` is modelled by an
  insertion sort over an arbitrary strict weak order whose result is the
  reference ordering `SortBy`.
 */
module Sorting {
  import opened Text
  import opened Entries

  /** What `sort.Slice` needs of its `less` function. */
  ghost predicate WeakOrder<T(!new)>(less: (T, T) -> bool)
  {
    && (forall x :: !less(x, x))
    && (forall x, y :: less(x, y) ==> !less(y, x))
    && (forall x, y, z :: !less(x, y) && !less(y, z) ==> !less(x, z))
  }

  /** No later element is less than an earlier one. */
  ghost predicate Sorted<T>(s: seq<T>, less: (T, T) -> bool)
  {
    forall i, j :: 0 <= i < j < |s| ==> !less(s[j], s[i])
  }

  /** Inserts `x` into `s` from the right, stopping at the first element it is not less than. */
  function Insert<T>(s: seq<T>, x: T, less: (T, T) -> bool): (r: seq<T>)
    ensures |r| == |s| + 1
    decreases |s|
  {
    if |s| == 0 then [x]
    else if less(x, s[|s| - 1]) then Insert(s[..|s| - 1], x, less) + [s[|s| - 1]]
    else s + [x]
  }

  /** `Insert` adds `x` and loses nothing. */
  lemma {:induction false} InsertPermutes<T>(s: seq<T>, x: T, less: (T, T) -> bool)
    ensures multiset(Insert(s, x, less)) == multiset(s) + multiset{x}
    decreases |s|
  {
    if |s| > 0 && less(x, s[|s| - 1]) {
      InsertPermutes(s[..|s| - 1], x, less);
      assert s == s[..|s| - 1] + [s[|s| - 1]];
    }
  }

  /** The reference ordering: every element inserted in turn. */
  function SortBy<T>(s: seq<T>, less: (T, T) -> bool): seq<T>
    decreases |s|
  {
    if |s| == 0 then [] else Insert(SortBy(s[..|s| - 1], less), s[|s| - 1], less)
  }

  /** Under a strict weak order, `SortBy` keeps every element, as often as it occurs, and puts them in order. */
  lemma {:induction false} SortByCorrect<T(!new)>(s: seq<T>, less: (T, T) -> bool)
    requires WeakOrder(less)
    ensures |SortBy(s, less)| == |s|
    ensures multiset(SortBy(s, less)) == multiset(s)
    ensures Sorted(SortBy(s, less), less)
    decreases |s|
  {
    if |s| > 0 {
      var rest := SortBy(s[..|s| - 1], less);
      SortByCorrect(s[..|s| - 1], less);
      InsertSorted(rest, s[|s| - 1], less);
      InsertPermutes(rest, s[|s| - 1], less);
      assert s == s[..|s| - 1] + [s[|s| - 1]];
    }
  }

  /** Every element of `Insert(s, x)` other than the new one comes from `s`. */
  lemma InsertElements<T>(s: seq<T>, x: T, less: (T, T) -> bool, k: int)
    requires 0 <= k < |s| + 1
    ensures Insert(s, x, less)[k] == x || Insert(s, x, less)[k] in s
  {
    var r := Insert(s, x, less);
    InsertPermutes(s, x, less);
    assert r[k] in multiset(r);
  }

  lemma {:induction false} InsertSorted<T(!new)>(s: seq<T>, x: T, less: (T, T) -> bool)
    requires WeakOrder(less) && Sorted(s, less)
    ensures Sorted(Insert(s, x, less), less)
    decreases |s|
  {
    if |s| == 0 {
    } else if less(x, s[|s| - 1]) {
      var init := s[..|s| - 1];
      var last := s[|s| - 1];
      assert Sorted(init, less);
      InsertSorted(init, x, less);
      var r := Insert(init, x, less) + [last];
      forall i, j | 0 <= i < j < |r|
        ensures !less(r[j], r[i])
      {
        if j == |r| - 1 {
          InsertElements(init, x, less, i);
          var ri := Insert(init, x, less)[i];
          assert r[i] == ri;
          if ri != x {
            var t :| 0 <= t < |init| && init[t] == ri;
            assert s[t] == ri;
          }
        }
      }
    } else {
      var r := s + [x];
      forall i, j | 0 <= i < j < |r|
        ensures !less(r[j], r[i])
      {
        if j == |r| - 1 && i < |s| - 1 {
          assert !less(s[|s| - 1], s[i]);
        }
      }
    }
  }

  /** The comparison of `SortFiles` is a strict weak order. */
  lemma EntryOrder()
    ensures WeakOrder(Less)
  {
    forall x | true
      ensures !Less(x, x)
    {
      LessIrreflexive(x);
    }
    forall x, y | Less(x, y)
      ensures !Less(y, x)
    {
      LessAsymmetric(x, y);
    }
    forall x, y, z | !Less(x, y) && !Less(y, z)
      ensures !Less(x, z)
    {
      NotLessTransitive(x, y, z);
    }
  }

  /** The order `SortFiles` leaves a listing in. */
  function SortSpec(s: seq<Entry>): seq<Entry>
  {
    SortBy(s, Less)
  }

  /** `SortSpec` keeps every entry, as often as it occurs, and puts them in order. */
  lemma SortSpecSorts(s: seq<Entry>)
    ensures |SortSpec(s)| == |s| && multiset(SortSpec(s)) == multiset(s)
    ensures Sorted(SortSpec(s), Less)
  {
    EntryOrder();
    SortByCorrect(s, Less);
  }

  /** Directories come before everything else. */
  lemma DirectoriesFirst(s: seq<Entry>, i: int, j: int)
    requires 0 <= i < j < |s| && j < |SortSpec(s)| && SortSpec(s)[j].IsDir()
    ensures SortSpec(s)[i].IsDir()
  {
    SortSpecSorts(s);
    assert !Less(SortSpec(s)[j], SortSpec(s)[i]);
  }

  /** Within directories, and within files, lower-cased names never decrease. */
  lemma NamesAscending(s: seq<Entry>, i: int, j: int)
    requires 0 <= i < j < |s| && j < |SortSpec(s)| && SortSpec(s)[i].IsDir() == SortSpec(s)[j].IsDir()
    ensures !LessStr(SortName(SortSpec(s)[j]), SortName(SortSpec(s)[i]))
  {
    SortSpecSorts(s);
    assert !Less(SortSpec(s)[j], SortSpec(s)[i]);
  }

  /** `SortFiles`. */
  method SortFiles(a: array<Entry>)
    modifies a
    ensures a[..] == SortSpec(old(a[..]))
  {
    EntryOrder();
    SortSlice(a, Less);
  }

  /** `sort.Slice(a, less)`. */
  method SortSlice<T(!new)>(a: array<T>, less: (T, T) -> bool)
    requires WeakOrder(less)
    modifies a
    ensures a[..] == SortBy(old(a[..]), less)
  {
    ghost var orig := a[..];
    var i := 0;
    while i < a.Length
      invariant 0 <= i <= a.Length
      invariant a[..i] == SortBy(orig[..i], less)
      invariant a[i..] == orig[i..]
    {
      assert orig[..i + 1] == orig[..i] + [orig[i]];
      assert a[i] == a[i..][0] == orig[i..][0] == orig[i];
      ghost var rest := a[i + 1..];
      assert rest == orig[i + 1..] by {
        assert rest == a[i..][1..];
        assert orig[i + 1..] == orig[i..][1..];
      }
      InsertLast(a, i, less);
      assert a[i + 1..] == rest;
      i := i + 1;
    }
    assert a[..] == a[..a.Length];
    assert orig[..a.Length] == orig;
  }

  /** One pass of the insertion sort: moves `a[i]` left past every element it is less than. */
  method InsertLast<T>(a: array<T>, i: int, less: (T, T) -> bool)
    requires 0 <= i < a.Length
    modifies a
    ensures a[..i + 1] == Insert(old(a[..i]), old(a[i]), less)
    ensures a[i + 1..] == old(a[i + 1..])
  {
    ghost var sorted := a[..i];
    var x := a[i];
    var j := i;
    while j > 0 && less(a[j], a[j - 1])
      invariant 0 <= j <= i
      invariant a[j] == x
      invariant forall k :: 0 <= k < j ==> a[k] == sorted[k]
      invariant forall k :: j < k <= i ==> a[k] == sorted[k - 1]
      invariant forall k :: j <= k < i ==> less(x, sorted[k])
      invariant forall k :: i < k < a.Length ==> a[k] == old(a[k])
      decreases j
    {
      a[j - 1], a[j] := a[j], a[j - 1];
      j := j - 1;
    }
    InsertAt(sorted, j, x, less);
    assert a[..i + 1] == sorted[..j] + [x] + sorted[j..];
  }

  /** Where `Insert` puts `x`: after the last element it is not less than. */
  lemma {:induction false} InsertAt<T>(s: seq<T>, j: int, x: T, less: (T, T) -> bool)
    requires 0 <= j <= |s|
    requires j == 0 || !less(x, s[j - 1])
    requires forall k :: j <= k < |s| ==> less(x, s[k])
    ensures Insert(s, x, less) == s[..j] + [x] + s[j..]
    decreases |s|
  {
    if j < |s| {
      var init := s[..|s| - 1];
      InsertAt(init, j, x, less);
      assert s[..j] == init[..j];
      assert s[j..] == init[j..] + [s[|s| - 1]];
    } else if |s| > 0 {
      assert s[..j] == s;
    }
  }
}
