/** Small option type used for the fallible operations of the model. */
module Common {
  datatype Option<T> = None | Some(value: T)
}

/**
  The parts of Go's `strings` package (and of `fmt` integer formatting) that the
  file manager uses, over Dafny strings.  Strings are sequences of characters;
  lowering is ASCII-only.
 */
module Text {

  /** ASCII lower-casing of one character (`unicode.ToLower` restricted to ASCII). */
  function LowerChar(c: char): (r: char)
    ensures 'A' <= c <= 'Z' ==> r as int == c as int + 32
    ensures !('A' <= c <= 'Z') ==> r == c
  {
    if 'A' <= c <= 'Z' then (c as int + 32) as char else c
  }

  /** `strings.ToLower`: lowers every character, keeping the length. */
  function Lower(s: string): (r: string)
    ensures |r| == |s|
    ensures forall i :: 0 <= i < |s| ==> r[i] == LowerChar(s[i])
  {
    seq(|s|, i requires 0 <= i < |s| => LowerChar(s[i]))
  }

  lemma LowerSlice(s: string, a: nat, b: nat)
    requires a <= b <= |s|
    ensures Lower(s)[a..b] == Lower(s[a..b])
  {
  }

  /** `strings.HasSuffix`. */
  predicate HasSuffix(s: string, suffix: string)
  {
    |suffix| <= |s| && s[|s| - |suffix|..] == suffix
  }

  /** `s[i..i+|sub|] == sub`: an occurrence of `sub` at position `i`. */
  predicate OccursAt(s: string, sub: string, i: int)
  {
    0 <= i && i + |sub| <= |s| && s[i..i + |sub|] == sub
  }

  /** `strings.Contains`. */
  predicate Contains(s: string, sub: string)
  {
    exists i | 0 <= i <= |s| - |sub| :: OccursAt(s, sub, i)
  }

  lemma ContainsEmpty(s: string)
    ensures Contains(s, "")
  {
    assert OccursAt(s, "", 0);
  }

  /** Number of occurrences of the character `c` in `s`. */
  function Count(c: char, s: string): nat
  {
    if |s| == 0 then 0 else (if s[0] == c then 1 else 0) + Count(c, s[1..])
  }

  lemma {:induction false} CountConcat(c: char, a: string, b: string)
    ensures Count(c, a + b) == Count(c, a) + Count(c, b)
  {
    if |a| == 0 {
      assert a + b == b;
    } else {
      assert (a + b)[1..] == a[1..] + b;
      CountConcat(c, a[1..], b);
    }
  }

  lemma {:induction false} CountAbsent(c: char, s: string)
    requires c !in s
    ensures Count(c, s) == 0
  {
    if |s| > 0 {
      assert c !in s[1..];
      CountAbsent(c, s[1..]);
    }
  }

  /** `strings.Split(s, string(sep))` for a one-character separator:
      the pieces between the occurrences of `sep` (at least one piece). */
  function Split(s: string, sep: char): (r: seq<string>)
    ensures |r| >= 1
    ensures forall k :: 0 <= k < |r| ==> sep !in r[k]
    decreases |s|
  {
    if |s| == 0 then [""]
    else
      var rest := Split(s[1..], sep);
      if s[0] == sep then [""] + rest
      else [[s[0]] + rest[0]] + rest[1..]
  }

  /** Joining the pieces back with the separator gives the input. */
  function JoinWith(parts: seq<string>, sep: char): string
    requires |parts| >= 1
  {
    if |parts| == 1 then parts[0] else parts[0] + [sep] + JoinWith(parts[1..], sep)
  }

  lemma {:induction false} SplitCount(s: string, sep: char)
    ensures |Split(s, sep)| == Count(sep, s) + 1
    decreases |s|
  {
    if |s| > 0 {
      SplitCount(s[1..], sep);
    }
  }

  lemma {:induction false} SplitJoin(s: string, sep: char)
    ensures JoinWith(Split(s, sep), sep) == s
    decreases |s|
  {
    if |s| > 0 {
      var rest := Split(s[1..], sep);
      SplitJoin(s[1..], sep);
      if s[0] == sep {
        assert Split(s, sep) == [""] + rest;
        assert ([""] + rest)[1..] == rest;
        assert s == [sep] + s[1..];
      } else {
        var parts := [[s[0]] + rest[0]] + rest[1..];
        assert Split(s, sep) == parts;
        if |rest| == 1 {
          assert JoinWith(rest, sep) == rest[0];
          assert s == [s[0]] + s[1..];
        } else {
          assert parts[1..] == rest[1..];
          assert JoinWith(rest, sep) == rest[0] + [sep] + JoinWith(rest[1..], sep);
          assert s == [s[0]] + s[1..];
        }
      }
    }
  }

  /** Strict lexicographic order on strings (Go's `<` on strings). */
  predicate LessStr(a: string, b: string)
    decreases |a|
  {
    if |a| == 0 then |b| > 0
    else if |b| == 0 then false
    else if a[0] != b[0] then a[0] < b[0]
    else LessStr(a[1..], b[1..])
  }

  lemma {:induction false} LessStrIrreflexive(a: string)
    ensures !LessStr(a, a)
    decreases |a|
  {
    if |a| > 0 {
      LessStrIrreflexive(a[1..]);
    }
  }

  lemma {:induction false} LessStrTransitive(a: string, b: string, c: string)
    requires LessStr(a, b) && LessStr(b, c)
    ensures LessStr(a, c)
    decreases |a|
  {
    if |a| > 0 && |b| > 0 && |c| > 0 && a[0] == b[0] && b[0] == c[0] {
      LessStrTransitive(a[1..], b[1..], c[1..]);
    }
  }

  lemma {:induction false} LessStrTrichotomy(a: string, b: string)
    ensures a == b || LessStr(a, b) || LessStr(b, a)
    decreases |a|
  {
    if |a| > 0 && |b| > 0 && a[0] == b[0] {
      LessStrTrichotomy(a[1..], b[1..]);
      if a[1..] == b[1..] {
        assert a == [a[0]] + a[1..] && b == [b[0]] + b[1..];
      }
    }
  }

  /** Number of bytes of the UTF-8 encoding of a character (Go's `len` on a string). */
  function Utf8Len(c: char): nat
  {
    if c as int < 0x80 then 1
    else if c as int < 0x800 then 2
    else if c as int < 0x10000 then 3
    else 4
  }

  /** Go's `len(s)`: the byte length of the UTF-8 encoding. */
  function ByteLen(s: string): (r: nat)
    ensures r >= |s|
  {
    if |s| == 0 then 0 else Utf8Len(s[0]) + ByteLen(s[1..])
  }

  /** `len(s) == 1` holds exactly for one ASCII character. */
  lemma {:induction false} ByteLenOne(s: string)
    ensures ByteLen(s) == 1 <==> (|s| == 1 && s[0] as int < 0x80)
  {
    if |s| > 0 {
      assert ByteLen(s) == Utf8Len(s[0]) + ByteLen(s[1..]);
      assert ByteLen(s[1..]) >= |s| - 1;
    }
  }

  /** `strings.Repeat(s, n)`. */
  function Repeat(s: string, n: nat): (r: string)
    ensures |r| == |s| * n
  {
    if n == 0 then [] else s + Repeat(s, n - 1)
  }

  lemma {:induction false} RepeatNewlines(n: nat)
    ensures Count('\n', Repeat("\n", n)) == n
  {
    if n > 0 {
      RepeatNewlines(n - 1);
      CountConcat('\n', "\n", Repeat("\n", n - 1));
    }
  }

  /** A decimal digit character. */
  function Digit(d: nat): (c: char)
    requires d < 10
    ensures '0' <= c <= '9' && c as int - '0' as int == d
  {
    ('0' as int + d) as char
  }

  /** `fmt.Sprintf("%d", n)` for a non-negative integer. */
  function Decimal(n: nat): (r: string)
    ensures |r| >= 1
    ensures forall i :: 0 <= i < |r| ==> '0' <= r[i] <= '9'
    decreases n
  {
    if n < 10 then [Digit(n)] else Decimal(n / 10) + [Digit(n % 10)]
  }

  /** The value of a string of decimal digits. */
  function DecimalValue(s: string): nat
    requires forall i :: 0 <= i < |s| ==> '0' <= s[i] <= '9'
  {
    if |s| == 0 then 0 else DecimalValue(s[..|s| - 1]) * 10 + (s[|s| - 1] as int - '0' as int)
  }

  /** `fmt.Sprintf("%02d", n)`: at least two digits, padded with a leading zero. */
  function Pad2(n: nat): (r: string)
  {
    if n < 10 then "0" + Decimal(n) else Decimal(n)
  }

  lemma {:induction false} DecimalRoundTrip(n: nat)
    ensures DecimalValue(Decimal(n)) == n
    decreases n
  {
    if n >= 10 {
      var d := Decimal(n / 10) + [Digit(n % 10)];
      assert d[..|d| - 1] == Decimal(n / 10);
      DecimalRoundTrip(n / 10);
    }
  }

  lemma {:induction false} Pad2Shape(n: nat)
    requires n < 100
    ensures |Pad2(n)| == 2
    ensures forall i :: 0 <= i < 2 ==> '0' <= Pad2(n)[i] <= '9'
    ensures DecimalValue(Pad2(n)) == n
  {
    DecimalRoundTrip(n);
    if n < 10 {
      var p := "0" + Decimal(n);
      assert p[..|p| - 1] == "0";
      assert DecimalValue("0"[..0]) == 0;
    } else {
      assert Decimal(n) == Decimal(n / 10) + [Digit(n % 10)];
    }
  }

  /**
    `strings.ReplaceAll(s, old, new)` for a non-empty `old`: scans left to right and
    replaces every non-overlapping occurrence of `old`.
   */
  function ReplaceAll(s: string, pat: string, rep: string): string
    requires |pat| > 0
    decreases |s|
  {
    if |s| < |pat| then s
    else if s[..|pat|] == pat then rep + ReplaceAll(s[|pat|..], pat, rep)
    else [s[0]] + ReplaceAll(s[1..], pat, rep)
  }

  /** Replacing a pattern by a string with as many `c` characters keeps the count of `c`. */
  lemma {:induction false} ReplaceAllCount(c: char, s: string, pat: string, rep: string)
    requires |pat| > 0 && Count(c, pat) == Count(c, rep)
    ensures Count(c, ReplaceAll(s, pat, rep)) == Count(c, s)
    decreases |s|
  {
    if |s| >= |pat| {
      if s[..|pat|] == pat {
        ReplaceAllCount(c, s[|pat|..], pat, rep);
        CountConcat(c, rep, ReplaceAll(s[|pat|..], pat, rep));
        assert s == pat + s[|pat|..];
        CountConcat(c, pat, s[|pat|..]);
      } else {
        ReplaceAllCount(c, s[1..], pat, rep);
        CountConcat(c, [s[0]], ReplaceAll(s[1..], pat, rep));
      }
    }
  }

  /** A character absent from the input and from the replacement is absent from the output. */
  lemma {:induction false} ReplaceAllAbsent(c: char, s: string, pat: string, rep: string)
    requires |pat| > 0 && c !in s && c !in rep
    ensures c !in ReplaceAll(s, pat, rep)
    decreases |s|
  {
    if |s| >= |pat| {
      if s[..|pat|] == pat {
        assert c !in s[|pat|..];
        ReplaceAllAbsent(c, s[|pat|..], pat, rep);
      } else {
        assert c !in s[1..];
        ReplaceAllAbsent(c, s[1..], pat, rep);
      }
    }
  }

  /** Replacing every occurrence of a one-character pattern by a string without it removes it. */
  lemma {:induction false} ReplaceAllRemoves(c: char, s: string, rep: string)
    requires c !in rep
    ensures c !in ReplaceAll(s, [c], rep)
    decreases |s|
  {
    if |s| >= 1 {
      ReplaceAllRemoves(c, s[1..], rep);
      if s[..1] == [c] {
        assert s[1..] == s[|[c]|..];
      } else {
        assert s[0] != c;
      }
    }
  }

  /** When the first character of `old` does not occur, `ReplaceAll` changes nothing. */
  lemma {:induction false} ReplaceAllNoMatch(s: string, pat: string, rep: string)
    requires |pat| > 0 && pat[0] !in s
    ensures ReplaceAll(s, pat, rep) == s
    decreases |s|
  {
    if |s| >= |pat| {
      assert s[..|pat|][0] == s[0];
      assert s[0] in s;
      assert pat[0] !in s[1..];
      ReplaceAllNoMatch(s[1..], pat, rep);
      assert s == [s[0]] + s[1..];
    }
  }

  /** Replacing a pattern by itself changes nothing. */
  lemma {:induction false} ReplaceAllSame(s: string, pat: string)
    requires |pat| > 0
    ensures ReplaceAll(s, pat, pat) == s
    decreases |s|
  {
    if |s| >= |pat| {
      if s[..|pat|] == pat {
        ReplaceAllSame(s[|pat|..], pat);
        assert s == pat + s[|pat|..];
      } else {
        ReplaceAllSame(s[1..], pat);
        assert s == [s[0]] + s[1..];
      }
    }
  }
}
