/**
  `utils.MarkdownToANSI`: the chain of rewrites that turns Markdown source into
  text with ANSI escape sequences for the preview pane.  Each rebinding of `md`
  in the source is one stage function here, applied in the same order.  The
  three regular expressions are modelled by their leftmost, non-greedy matches.
 */
module Markdown {
  import opened Common
  import opened Text

  // ANSI select-graphic-rendition sequences.
  const Bold: string := "\U{1b}[1m"
  const Underline: string := "\U{1b}[4m"
  const Italic: string := "\U{1b}[3m"
  const Strike: string := "\U{1b}[9m"
  const Inverse: string := "\U{1b}[7m"
  const Reset: string := "\U{1b}[0m"

  /** The bullet that replaces "- " and "* ". */
  const Bullet: string := "• "
  /** The ten box-drawing characters that replace "---". */
  const HorizontalRule: string := "──────────"
  /** The text that replaces an image: "[Image: " in Russian. */
  const ImageLabel: string := "[Изображение: "

  // ---------------------------------------------------------------------------
  // The stages, in source order.

  /** Headings: "### ", "## " and "# " become bold (level 2 also underlined). */
  function Headings(md: string): string
  {
    ReplaceAll(ReplaceAll(ReplaceAll(md, "### ", Bold), "## ", Bold + Underline), "# ", Bold)
  }

  /** Bold "**" and "__", then italic "*" and "_". */
  function Emphasis(md: string): string
  {
    ReplaceAll(ReplaceAll(ReplaceAll(ReplaceAll(md, "**", Bold), "__", Bold), "*", Italic), "_", Italic)
  }

  /** Strike-through "~~". */
  function Strikethrough(md: string): string
  {
    ReplaceAll(md, "~~", Strike)
  }

  /** The "- " bullet (the first list rule). */
  function DashBullets(md: string): string
  {
    ReplaceAll(md, "- ", Bullet)
  }

  /** The "* " bullet and the numbered-list rule that replaces "1. " by itself. */
  function Lists(md: string): string
  {
    ReplaceAll(ReplaceAll(DashBullets(md), "* ", Bullet), "1. ", "1. ")
  }

  /** Inline code: every back-tick becomes the inverse-video sequence. */
  function InlineCode(md: string): string
  {
    ReplaceAll(md, "`", Inverse)
  }

  /** A "```" starts at `t`. */
  predicate FenceAt(s: string, t: int)
  {
    0 <= t && t + 3 <= |s| && s[t..t + 3] == "```"
  }

  /** The index of the first "```" at or after `k`, if any. */
  function FindFence(s: string, k: nat): (r: Option<nat>)
    requires k <= |s|
    ensures r.Some? ==> k <= r.value && FenceAt(s, r.value)
    ensures r.Some? ==> forall t :: k <= t < r.value ==> !FenceAt(s, t)
    ensures r.None? ==> forall t :: k <= t ==> !FenceAt(s, t)
    decreases |s| - k
  {
    if k + 3 > |s| then None
    else if s[k..k + 3] == "```" then Some(k)
    else FindFence(s, k + 1)
  }

  /** `strings.Trim(x, "`")`: drops back-ticks from both ends. */
  function TrimTicks(x: string): (r: string)
    ensures |r| <= |x|
    decreases |x|
  {
    if |x| > 0 && x[0] == '`' then TrimTicks(x[1..])
    else if |x| > 0 && x[|x| - 1] == '`' then TrimTicks(x[..|x| - 1])
    else x
  }

  /** `r` is `x[a..b]`, and everything cut off on either side is a back-tick. */
  predicate TrimmedTo(x: string, r: string, a: int, b: int)
  {
    && 0 <= a <= b <= |x| && r == x[a..b]
    && (forall t :: 0 <= t < a ==> x[t] == '`')
    && (forall t :: b <= t < |x| ==> x[t] == '`')
  }

  /**
    What `strings.Trim(x, "`")` promises: the result is `x` with back-ticks, and
    only back-ticks, cut from both ends, and it neither starts nor ends with one.
   */
  lemma {:induction false} TrimTicksShape(x: string)
    ensures exists a, b :: TrimmedTo(x, TrimTicks(x), a, b)
    ensures var r := TrimTicks(x); |r| > 0 ==> r[0] != '`' && r[|r| - 1] != '`'
    decreases |x|
  {
    if |x| > 0 && x[0] == '`' {
      var y := x[1..];
      TrimTicksShape(y);
      var a, b :| TrimmedTo(y, TrimTicks(y), a, b);
      assert y[a..b] == x[a + 1..b + 1];
      assert TrimmedTo(x, TrimTicks(x), a + 1, b + 1);
    } else if |x| > 0 && x[|x| - 1] == '`' {
      var y := x[..|x| - 1];
      TrimTicksShape(y);
      var a, b :| TrimmedTo(y, TrimTicks(y), a, b);
      assert y[a..b] == x[a..b];
      assert TrimmedTo(x, TrimTicks(x), a, b);
    } else {
      assert x[0..|x|] == x;
      assert TrimmedTo(x, TrimTicks(x), 0, |x|);
    }
  }

  /** The code-block rule `(?s)```.*?```` replaced by inverse video around the trimmed block. */
  function CodeBlocks(s: string): string
    decreases |s|
  {
    if |s| == 0 then ""
    else if |s| >= 3 && s[..3] == "```" && FindFence(s, 3).Some? then
      var k := FindFence(s, 3).value;
      Inverse + TrimTicks(s[..k + 3]) + Reset + CodeBlocks(s[k + 3..])
    else [s[0]] + CodeBlocks(s[1..])
  }

  /**
    The first ')' at or after `k`, provided no newline comes before it:
    the lazy `(.*?)\)` tail of the link pattern, where `.` does not match "\n".
    None when a newline or the end of the text comes first.
   */
  function CloseParen(s: string, k: nat): (r: Option<nat>)
    requires k <= |s|
    ensures r.Some? ==> k <= r.value < |s| && s[r.value] == ')'
    ensures r.Some? ==> forall t :: k <= t <= r.value ==> s[t] != '\n'
    ensures r.Some? ==> forall t :: k <= t < r.value ==> s[t] != ')'
    ensures r.None? ==> forall t :: k <= t < |s| && s[t] == ')' ==> exists u :: k <= u < t && s[u] == '\n'
    decreases |s| - k
  {
    if k == |s| then None
    else if s[k] == ')' then Some(k)
    else if s[k] == '\n' then None
    else CloseParen(s, k + 1)
  }

  /** At `t` a "](" begins whose target closes before the next newline. */
  predicate LinkClosesAt(s: string, t: int)
  {
    0 <= t && t + 1 < |s| && s[t] == ']' && s[t + 1] == '(' && CloseParen(s, t + 2).Some?
  }

  /**
    The rest of a link after its opening bracket, `(.*?)\]\((.*?)\)`, tried with
    the shortest label first: the end of the label and the end of the whole
    match, or None when no label up to the next newline is followed by "](...)".
   */
  function LinkBody(s: string, j: nat): (r: Option<(nat, nat)>)
    requires j <= |s|
    ensures r.Some? ==> j <= r.value.0 && r.value.0 + 2 < r.value.1 <= |s|
    ensures r.Some? ==> forall t :: j <= t < r.value.1 ==> s[t] != '\n'
    ensures r.Some? ==> LinkClosesAt(s, r.value.0) && r.value.1 == CloseParen(s, r.value.0 + 2).value + 1
    decreases |s| - j
  {
    if j + 1 < |s| && s[j] == ']' && s[j + 1] == '(' && CloseParen(s, j + 2).Some? then
      Some((j, CloseParen(s, j + 2).value + 1))
    else if j == |s| || s[j] == '\n' then None
    else LinkBody(s, j + 1)
  }

  /**
    The link target found is the first one: no earlier "](" from `j` closes, and when there
    is no match every "](" that would close lies beyond a newline.
   */
  lemma {:induction false} LinkBodyLeftmost(s: string, j: nat)
    requires j <= |s|
    ensures var r := LinkBody(s, j);
            r.Some? ==> forall t :: j <= t < r.value.0 ==> !LinkClosesAt(s, t)
    ensures LinkBody(s, j).None? ==>
              forall t :: j <= t < |s| && LinkClosesAt(s, t) ==> exists u :: j <= u < t && s[u] == '\n'
    decreases |s| - j
  {
    if LinkClosesAt(s, j) {
    } else if j == |s| || s[j] == '\n' {
      forall t | j < t < |s| && LinkClosesAt(s, t)
        ensures exists u :: j <= u < t && s[u] == '\n'
      {
        assert s[j] == '\n';
      }
    } else {
      LinkBodyLeftmost(s, j + 1);
    }
  }

  /**
    `regexp.ReplaceAllString` for the link and image patterns: every leftmost
    match of `opener(lab)](target)` becomes `before + lab + after`.
   */
  function BracketRewrite(s: string, opener: string, before: string, after: string): string
    requires |opener| > 0
    decreases |s|
  {
    if |s| == 0 then ""
    else if |opener| <= |s| && s[..|opener|] == opener && LinkBody(s[|opener|..], 0).Some? then
      var body := s[|opener|..];
      var m := LinkBody(body, 0).value;
      before + body[..m.0] + after + BracketRewrite(body[m.1..], opener, before, after)
    else [s[0]] + BracketRewrite(s[1..], opener, before, after)
  }

  /** Links `[lab](target)` become the underlined lab. */
  function Links(md: string): string
  {
    BracketRewrite(md, "[", Underline, Reset)
  }

  /** Images `![lab](target)` become "[Изображение: lab]". */
  function Images(md: string): string
  {
    BracketRewrite(md, "![", ImageLabel, "]")
  }

  /** Horizontal rules "---". */
  function Rules(md: string): string
  {
    ReplaceAll(md, "---", HorizontalRule)
  }

  /** A style reset before every newline. */
  function LineResets(md: string): string
  {
    ReplaceAll(md, "\n", Reset + "\n")
  }

  /** `MarkdownToANSI(md)`: the stages composed in source order. */
  function MarkdownToANSI(md: string): string
  {
    LineResets(Rules(Images(Links(CodeBlocks(InlineCode(Lists(Strikethrough(Emphasis(Headings(md))))))))))
  }

  // ---------------------------------------------------------------------------
  // Runs of one character ("~~", "---").

  /** `k` copies of `d` start at position `i` of `s`. */
  ghost predicate RunAt(s: string, d: char, k: nat, i: int)
  {
    0 <= i && i + k <= |s| && forall t :: i <= t < i + k ==> s[t] == d
  }

  /** `s` nowhere holds `k` consecutive copies of `d`. */
  ghost predicate NoRun(s: string, d: char, k: nat)
  {
    forall i :: !RunAt(s, d, k, i)
  }

  lemma NoRunSlice(s: string, d: char, k: nat, a: nat, b: nat)
    requires NoRun(s, d, k) && a <= b <= |s|
    ensures NoRun(s[a..b], d, k)
  {
    forall i
      ensures !RunAt(s[a..b], d, k, i)
    {
      if RunAt(s[a..b], d, k, i) {
        assert RunAt(s, d, k, i + a);
      }
    }
  }

  lemma NoRunSuffix(s: string, d: char, k: nat, j: nat)
    requires NoRun(s, d, k) && j <= |s|
    ensures NoRun(s[j..], d, k)
  {
    NoRunSlice(s, d, k, j, |s|);
    assert s[j..] == s[j..|s|];
  }

  /** A run at the head of `[c] + b` is `c` followed by a shorter run at the head of `b`. */
  lemma RunHead(c: char, b: string, d: char, k: nat)
    ensures k > 0 && RunAt([c] + b, d, k, 0) ==> c == d && RunAt(b, d, k - 1, 0)
  {
    var x := [c] + b;
    if k > 0 && RunAt(x, d, k, 0) {
      assert x[0] == c;
      forall u | 0 <= u < k - 1
        ensures b[u] == d
      {
        assert x[u + 1] == b[u];
      }
    }
  }

  /** A run after the head of `[c] + b` is a run of `b`. */
  lemma RunCons(c: char, b: string, d: char, k: nat, i: int)
    ensures i >= 1 && RunAt([c] + b, d, k, i) ==> RunAt(b, d, k, i - 1)
  {
    var x := [c] + b;
    if i >= 1 && RunAt(x, d, k, i) {
      forall t | i - 1 <= t < i - 1 + k
        ensures b[t] == d
      {
        assert x[t + 1] == b[t];
      }
    }
  }

  /** A `d` followed by a run of `k - 1` copies is a run of `k`. */
  lemma RunFromHead(s: string, d: char, k: nat)
    ensures k > 0 && |s| > 0 && s[0] == d && RunAt(s[1..], d, k - 1, 0) ==> RunAt(s, d, k, 0)
  {
    if k > 0 && |s| > 0 && s[0] == d && RunAt(s[1..], d, k - 1, 0) {
      forall t | 1 <= t < k
        ensures s[t] == d
      {
        assert s[t] == s[1..][t - 1];
      }
    }
  }

  /** A run of `d` in `a + b + c` where `b` holds no `d` lies inside `a` or inside `c`. */
  lemma RunAround(a: string, b: string, c: string, d: char, k: nat, i: int)
    requires k > 0 && |b| > 0 && d !in b
    ensures RunAt(a + b + c, d, k, i) ==> RunAt(a, d, k, i) || RunAt(c, d, k, i - |a| - |b|)
  {
    var x := a + b + c;
    if i + k <= |a| {
      if RunAt(x, d, k, i) {
        forall t | i <= t < i + k
          ensures a[t] == d
        {
          assert x[t] == a[t];
        }
      }
    } else if i >= |a| + |b| {
      if RunAt(x, d, k, i) {
        forall t | i - |a| - |b| <= t < i - |a| - |b| + k
          ensures c[t] == d
        {
          assert x[t + |a| + |b|] == c[t];
        }
      }
    } else if 0 <= i && i + k <= |x| {
      var t := if i < |a| then |a| else i;
      assert x[t] == b[t - |a|];
    }
  }

  /** If the output of `ReplaceAll` starts with `m` copies of `d`, so does its input. */
  lemma {:induction false} ReplaceAllPrefixRun(t: string, pat: string, rep: string, d: char, m: nat)
    requires |pat| > 0 && |rep| > 0 && rep[0] != d
    ensures RunAt(ReplaceAll(t, pat, rep), d, m, 0) ==> RunAt(t, d, m, 0)
    decreases |t|
  {
    if m > 0 && |t| >= |pat| {
      var r := ReplaceAll(t, pat, rep);
      if t[..|pat|] == pat {
        assert r[0] == rep[0];
      } else {
        var r1 := ReplaceAll(t[1..], pat, rep);
        assert r == [t[0]] + r1;
        ReplaceAllPrefixRun(t[1..], pat, rep, d, m - 1);
        RunHead(t[0], r1, d, m);
        RunFromHead(t, d, m);
      }
    }
  }

  /** If the output of `BracketRewrite` starts with `m` copies of `d`, so does its input. */
  lemma {:induction false} BracketPrefixRun(t: string, opener: string, before: string, after: string, d: char, m: nat)
    requires |opener| > 0 && |before| > 0 && before[0] != d
    ensures RunAt(BracketRewrite(t, opener, before, after), d, m, 0) ==> RunAt(t, d, m, 0)
    decreases |t|
  {
    if m > 0 && |t| > 0 {
      var r := BracketRewrite(t, opener, before, after);
      if |opener| <= |t| && t[..|opener|] == opener && LinkBody(t[|opener|..], 0).Some? {
        var body := t[|opener|..];
        var mm := LinkBody(body, 0).value;
        assert r == before + body[..mm.0] + after + BracketRewrite(body[mm.1..], opener, before, after);
        assert r[0] == before[0];
      } else {
        var r1 := BracketRewrite(t[1..], opener, before, after);
        assert r == [t[0]] + r1;
        BracketPrefixRun(t[1..], opener, before, after, d, m - 1);
        RunHead(t[0], r1, d, m);
        RunFromHead(t, d, m);
      }
    }
  }

  /** Replacing a run of `k` copies of `d` by a text without `d` leaves no such run. */
  lemma {:induction false} ReplaceAllRemovesRun(s: string, d: char, k: nat, pat: string, rep: string)
    requires k > 0 && |pat| == k && (forall t :: 0 <= t < k ==> pat[t] == d)
    requires |rep| > 0 && d !in rep
    ensures NoRun(ReplaceAll(s, pat, rep), d, k)
    decreases |s|
  {
    var r := ReplaceAll(s, pat, rep);
    if |s| >= k {
      if s[..k] == pat {
        var rest := ReplaceAll(s[k..], pat, rep);
        ReplaceAllRemovesRun(s[k..], d, k, pat, rep);
        assert r == [] + rep + rest;
        forall i
          ensures !RunAt(r, d, k, i)
        {
          RunAround([], rep, rest, d, k, i);
        }
      } else {
        var rest := ReplaceAll(s[1..], pat, rep);
        ReplaceAllRemovesRun(s[1..], d, k, pat, rep);
        assert r == [s[0]] + rest;
        ReplaceAllPrefixRun(s[1..], pat, rep, d, k - 1);
        RunHead(s[0], rest, d, k);
        RunFromHead(s, d, k);
        RunOccurs(s, d, k, pat, 0);
        forall i
          ensures !RunAt(r, d, k, i)
        {
          RunCons(s[0], rest, d, k, i);
        }
      }
    }
  }

  /** `ReplaceAll` with a replacement free of `d` creates no run of `d` in a text without one. */
  lemma {:induction false} ReplaceAllKeepsNoRun(s: string, d: char, k: nat, pat: string, rep: string)
    requires k > 0 && |pat| > 0 && |rep| > 0 && d !in rep
    requires NoRun(s, d, k)
    ensures NoRun(ReplaceAll(s, pat, rep), d, k)
    decreases |s|
  {
    var r := ReplaceAll(s, pat, rep);
    if |s| >= |pat| {
      if s[..|pat|] == pat {
        var rest := ReplaceAll(s[|pat|..], pat, rep);
        NoRunSuffix(s, d, k, |pat|);
        ReplaceAllKeepsNoRun(s[|pat|..], d, k, pat, rep);
        assert r == [] + rep + rest;
        forall i
          ensures !RunAt(r, d, k, i)
        {
          RunAround([], rep, rest, d, k, i);
        }
      } else {
        var rest := ReplaceAll(s[1..], pat, rep);
        NoRunSuffix(s, d, k, 1);
        ReplaceAllKeepsNoRun(s[1..], d, k, pat, rep);
        assert r == [s[0]] + rest;
        ReplaceAllPrefixRun(s[1..], pat, rep, d, k - 1);
        RunHead(s[0], rest, d, k);
        RunFromHead(s, d, k);
        forall i
          ensures !RunAt(r, d, k, i)
        {
          RunCons(s[0], rest, d, k, i);
        }
      }
    }
  }

  /** `BracketRewrite` with `d`-free surrounding texts creates no run of `d` in a text without one. */
  lemma {:induction false} BracketKeepsNoRun(s: string, opener: string, before: string, after: string, d: char, k: nat)
    requires k > 0 && |opener| > 0 && |before| > 0 && |after| > 0 && d !in before && d !in after
    requires NoRun(s, d, k)
    ensures NoRun(BracketRewrite(s, opener, before, after), d, k)
    decreases |s|
  {
    var r := BracketRewrite(s, opener, before, after);
    if |s| > 0 {
      if |opener| <= |s| && s[..|opener|] == opener && LinkBody(s[|opener|..], 0).Some? {
        var body := s[|opener|..];
        var m := LinkBody(body, 0).value;
        var lab := body[..m.0];
        var rest := BracketRewrite(body[m.1..], opener, before, after);
        NoRunSuffix(s, d, k, |opener|);
        NoRunSlice(body, d, k, 0, m.0);
        NoRunSuffix(body, d, k, m.1);
        BracketKeepsNoRun(body[m.1..], opener, before, after, d, k);
        assert r == [] + before + (lab + after + rest);
        forall i
          ensures !RunAt(r, d, k, i)
        {
          RunAround([], before, lab + after + rest, d, k, i);
          RunAround(lab, after, rest, d, k, i - |before|);
        }
      } else {
        var rest := BracketRewrite(s[1..], opener, before, after);
        NoRunSuffix(s, d, k, 1);
        BracketKeepsNoRun(s[1..], opener, before, after, d, k);
        assert r == [s[0]] + rest;
        BracketPrefixRun(s[1..], opener, before, after, d, k - 1);
        RunHead(s[0], rest, d, k);
        RunFromHead(s, d, k);
        forall i
          ensures !RunAt(r, d, k, i)
        {
          RunCons(s[0], rest, d, k, i);
        }
      }
    }
  }

  lemma AbsentNoRun(s: string, d: char, k: nat)
    requires k > 0 && d !in s
    ensures NoRun(s, d, k)
  {
    forall i
      ensures !RunAt(s, d, k, i)
    {
      if 0 <= i < |s| {
        assert s[i] in s;
      }
    }
  }

  /** A run of `k` copies of `d` is an occurrence of the literal made of them. */
  lemma RunOccurs(s: string, d: char, k: nat, pat: string, i: int)
    requires |pat| == k && forall t :: 0 <= t < k ==> pat[t] == d
    ensures OccursAt(s, pat, i) <==> RunAt(s, d, k, i)
  {
    if OccursAt(s, pat, i) {
      forall t | i <= t < i + k
        ensures s[t] == d
      {
        assert s[i..i + k][t - i] == pat[t - i];
      }
    }
    if RunAt(s, d, k, i) {
      assert s[i..i + k] == pat;
    }
  }

  // ---------------------------------------------------------------------------
  // Characters that the rewrites do not bring back, and newlines.

  /** A character absent from the input and from the surrounding texts is absent from the output. */
  lemma {:induction false} BracketAbsent(c: char, s: string, opener: string, before: string, after: string)
    requires |opener| > 0 && c !in s && c !in before && c !in after
    ensures c !in BracketRewrite(s, opener, before, after)
    decreases |s|
  {
    if |s| > 0 {
      if |opener| <= |s| && s[..|opener|] == opener && LinkBody(s[|opener|..], 0).Some? {
        var body := s[|opener|..];
        var m := LinkBody(body, 0).value;
        assert c !in body[m.1..] && c !in body[..m.0];
        BracketAbsent(c, body[m.1..], opener, before, after);
      } else {
        assert c !in s[1..];
        BracketAbsent(c, s[1..], opener, before, after);
      }
    }
  }

  /** A match never spans a newline, so the rewrite keeps the number of newlines. */
  lemma {:induction false} BracketNewlines(s: string, opener: string, before: string, after: string)
    requires |opener| > 0 && '\n' !in opener && '\n' !in before && '\n' !in after
    ensures Count('\n', BracketRewrite(s, opener, before, after)) == Count('\n', s)
    decreases |s|
  {
    if |s| > 0 {
      if |opener| <= |s| && s[..|opener|] == opener && LinkBody(s[|opener|..], 0).Some? {
        var body := s[|opener|..];
        var m := LinkBody(body, 0).value;
        var lab := body[..m.0];
        var rest := BracketRewrite(body[m.1..], opener, before, after);
        BracketNewlines(body[m.1..], opener, before, after);
        assert '\n' !in lab;
        assert '\n' !in body[..m.1];
        CountAbsent('\n', before);
        CountAbsent('\n', lab);
        CountAbsent('\n', after);
        CountAbsent('\n', body[..m.1]);
        CountConcat('\n', before + lab + after, rest);
        CountConcat('\n', before + lab, after);
        CountConcat('\n', before, lab);
        assert body == body[..m.1] + body[m.1..];
        CountConcat('\n', body[..m.1], body[m.1..]);
        assert s == opener + body;
        CountAbsent('\n', opener);
        CountConcat('\n', opener, body);
      } else {
        BracketNewlines(s[1..], opener, before, after);
        CountConcat('\n', [s[0]], BracketRewrite(s[1..], opener, before, after));
      }
    }
  }

  /** Without back-ticks the code-block rule finds nothing. */
  lemma {:induction false} CodeBlocksNoTicks(s: string)
    requires '`' !in s
    ensures CodeBlocks(s) == s
    decreases |s|
  {
    if |s| > 0 {
      assert '`' !in s[1..];
      CodeBlocksNoTicks(s[1..]);
      assert s == [s[0]] + s[1..];
    }
  }

  /** Every newline of `r` comes right after a style reset. */
  predicate NewlinesReset(r: string)
  {
    forall i :: 0 <= i < |r| && r[i] == '\n' ==> i >= |Reset| && r[i - |Reset|..i] == Reset
  }

  /** Two texts whose newlines each follow a reset keep that property side by side. */
  lemma NewlinesResetConcat(a: string, b: string)
    requires NewlinesReset(a) && NewlinesReset(b)
    ensures NewlinesReset(a + b)
  {
    var r := a + b;
    forall i | 0 <= i < |r| && r[i] == '\n'
      ensures i >= |Reset| && r[i - |Reset|..i] == Reset
    {
      if i < |a| {
        assert a[i] == '\n';
        assert r[i - |Reset|..i] == a[i - |Reset|..i];
      } else {
        var j := i - |a|;
        assert b[j] == '\n';
        assert r[i - |Reset|..i] == b[j - |Reset|..j];
      }
    }
  }

  /** Every newline of `ReplaceAll(s, "\n", Reset + "\n")` is right after a reset. */
  lemma {:induction false} ResetBeforeNewlines(s: string)
    ensures NewlinesReset(LineResets(s))
    decreases |s|
  {
    if |s| >= 1 {
      var rest := LineResets(s[1..]);
      ResetBeforeNewlines(s[1..]);
      if s[..1] == "\n" {
        var rep := Reset + "\n";
        assert LineResets(s) == rep + rest;
        assert rep[..|Reset|] == Reset;
        assert NewlinesReset(rep) by {
          forall i | 0 <= i < |rep| && rep[i] == '\n'
            ensures i == |Reset|
          {
          }
        }
        NewlinesResetConcat(rep, rest);
      } else {
        assert s[..1] == [s[0]];
        assert LineResets(s) == [s[0]] + rest;
        NewlinesResetConcat([s[0]], rest);
      }
    }
  }

  /** The "* " bullet rule never fires: every '*' is already gone when it runs. */
  lemma StarBulletNeverFires(md: string)
    ensures var x := DashBullets(Strikethrough(Emphasis(Headings(md))));
            ReplaceAll(x, "* ", Bullet) == x
  {
    var e := Emphasis(Headings(md));
    var starred := ReplaceAll(ReplaceAll(Headings(md), "**", Bold), "__", Bold);
    ReplaceAllRemoves('*', starred, Italic);
    ReplaceAllAbsent('*', ReplaceAll(starred, "*", Italic), "_", Italic);
    ReplaceAllAbsent('*', e, "~~", Strike);
    ReplaceAllAbsent('*', Strikethrough(e), "- ", Bullet);
    ReplaceAllNoMatch(DashBullets(Strikethrough(e)), "* ", Bullet);
  }

  /** The code-block rule never fires: the inline-code rule has removed every back-tick. */
  lemma CodeBlockNeverFires(md: string)
    ensures var x := InlineCode(Lists(Strikethrough(Emphasis(Headings(md)))));
            CodeBlocks(x) == x
  {
    var l := Lists(Strikethrough(Emphasis(Headings(md))));
    ReplaceAllRemoves('`', l, Inverse);
    CodeBlocksNoTicks(InlineCode(l));
  }

  /** The numbered-list rule replaces "1. " by itself. */
  lemma NumberedListUnchanged(s: string)
    ensures ReplaceAll(s, "1. ", "1. ") == s
  {
    ReplaceAllSame(s, "1. ");
  }

  // ---------------------------------------------------------------------------
  // What the whole conversion guarantees.

  /** A replacement between two newline-free texts keeps the number of newlines. */
  lemma NewlineFreeStep(s: string, pat: string, rep: string)
    requires |pat| > 0 && '\n' !in pat && '\n' !in rep
    ensures Count('\n', ReplaceAll(s, pat, rep)) == Count('\n', s)
  {
    CountAbsent('\n', pat);
    CountAbsent('\n', rep);
    ReplaceAllCount('\n', s, pat, rep);
  }

  /** The stages up to inline code keep the number of newlines. */
  lemma EarlyStagesKeepLines(md: string)
    ensures Count('\n', InlineCode(Lists(Strikethrough(Emphasis(Headings(md)))))) == Count('\n', md)
  {
    var h1 := ReplaceAll(md, "### ", Bold);
    var h2 := ReplaceAll(h1, "## ", Bold + Underline);
    NewlineFreeStep(md, "### ", Bold);
    NewlineFreeStep(h1, "## ", Bold + Underline);
    NewlineFreeStep(h2, "# ", Bold);
    var h := Headings(md);
    var e1 := ReplaceAll(h, "**", Bold);
    var e2 := ReplaceAll(e1, "__", Bold);
    var e3 := ReplaceAll(e2, "*", Italic);
    NewlineFreeStep(h, "**", Bold);
    NewlineFreeStep(e1, "__", Bold);
    NewlineFreeStep(e2, "*", Italic);
    NewlineFreeStep(e3, "_", Italic);
    var e := Emphasis(h);
    NewlineFreeStep(e, "~~", Strike);
    var st := Strikethrough(e);
    NewlineFreeStep(st, "- ", Bullet);
    NewlineFreeStep(DashBullets(st), "* ", Bullet);
    NewlineFreeStep(ReplaceAll(DashBullets(st), "* ", Bullet), "1. ", "1. ");
    NewlineFreeStep(Lists(st), "`", Inverse);
  }

  /** The rendering has exactly as many lines as the Markdown source. */
  lemma MarkdownKeepsLines(md: string)
    ensures Count('\n', MarkdownToANSI(md)) == Count('\n', md)
  {
    var ic := InlineCode(Lists(Strikethrough(Emphasis(Headings(md)))));
    EarlyStagesKeepLines(md);
    CodeBlockNeverFires(md);
    BracketNewlines(ic, "[", Underline, Reset);
    BracketNewlines(Links(ic), "![", ImageLabel, "]");
    NewlineFreeStep(Images(Links(ic)), "---", HorizontalRule);
    CountAbsent('\n', Reset);
    CountConcat('\n', Reset, "\n");
    assert Count('\n', "\n") == 1;
    ReplaceAllCount('\n', Rules(Images(Links(ic))), "\n", Reset + "\n");
  }

  /** Every line of the rendering ends with a style reset, so no style leaks onto the next line. */
  lemma MarkdownResetsEveryLine(md: string)
    ensures var r := MarkdownToANSI(md);
            forall i :: 0 <= i < |r| && r[i] == '\n' ==> i >= |Reset| && r[i - |Reset|..i] == Reset
  {
    ResetBeforeNewlines(Rules(Images(Links(CodeBlocks(InlineCode(Lists(Strikethrough(Emphasis(Headings(md))))))))));
  }

  /** A character the last four stages never write stays absent. */
  lemma LateStagesKeepAbsent(c: char, x: string)
    requires c in {'*', '_', '`', '~'} && c !in x
    ensures c !in LineResets(Rules(Images(Links(x))))
  {
    BracketAbsent(c, x, "[", Underline, Reset);
    BracketAbsent(c, Links(x), "![", ImageLabel, "]");
    ReplaceAllAbsent(c, Images(Links(x)), "---", HorizontalRule);
    ReplaceAllAbsent(c, Rules(Images(Links(x))), "\n", Reset + "\n");
  }

  /** The emphasis markers '*' and '_' and the back-tick never survive into the rendering. */
  lemma MarkdownRemovesMarkers(md: string)
    ensures var r := MarkdownToANSI(md);
            '*' !in r && '_' !in r && '`' !in r
  {
    var h := Headings(md);
    var e2 := ReplaceAll(ReplaceAll(h, "**", Bold), "__", Bold);
    var e3 := ReplaceAll(e2, "*", Italic);
    ReplaceAllRemoves('*', e2, Italic);
    ReplaceAllAbsent('*', e3, "_", Italic);
    ReplaceAllRemoves('_', e3, Italic);
    var e := Emphasis(h);
    var st := Strikethrough(e);
    var l1 := DashBullets(st);
    var l2 := ReplaceAll(l1, "* ", Bullet);
    var l := Lists(st);
    var ic := InlineCode(l);
    forall c | c in {'*', '_'}
      ensures c !in ic
    {
      ReplaceAllAbsent(c, e, "~~", Strike);
      ReplaceAllAbsent(c, st, "- ", Bullet);
      ReplaceAllAbsent(c, l1, "* ", Bullet);
      ReplaceAllAbsent(c, l2, "1. ", "1. ");
      ReplaceAllAbsent(c, l, "`", Inverse);
    }
    ReplaceAllRemoves('`', l, Inverse);
    CodeBlockNeverFires(md);
    LateStagesKeepAbsent('*', ic);
    LateStagesKeepAbsent('_', ic);
    LateStagesKeepAbsent('`', ic);
  }

  /** After inline code there is no "~~" left. */
  lemma NoStrikeAfterInlineCode(md: string)
    ensures NoRun(InlineCode(Lists(Strikethrough(Emphasis(Headings(md))))), '~', 2)
  {
    var e := Emphasis(Headings(md));
    var st := Strikethrough(e);
    ReplaceAllRemovesRun(e, '~', 2, "~~", Strike);
    var l1 := DashBullets(st);
    var l2 := ReplaceAll(l1, "* ", Bullet);
    ReplaceAllKeepsNoRun(st, '~', 2, "- ", Bullet);
    ReplaceAllKeepsNoRun(l1, '~', 2, "* ", Bullet);
    ReplaceAllKeepsNoRun(l2, '~', 2, "1. ", "1. ");
    ReplaceAllKeepsNoRun(Lists(st), '~', 2, "`", Inverse);
  }

  /** The rendering holds no "~~". */
  lemma NoStrikeRun(md: string)
    ensures NoRun(MarkdownToANSI(md), '~', 2)
  {
    var ic := InlineCode(Lists(Strikethrough(Emphasis(Headings(md)))));
    NoStrikeAfterInlineCode(md);
    CodeBlockNeverFires(md);
    BracketKeepsNoRun(ic, "[", Underline, Reset, '~', 2);
    BracketKeepsNoRun(Links(ic), "![", ImageLabel, "]", '~', 2);
    var im := Images(Links(ic));
    ReplaceAllKeepsNoRun(im, '~', 2, "---", HorizontalRule);
    ReplaceAllKeepsNoRun(Rules(im), '~', 2, "\n", Reset + "\n");
  }

  /** The rendering holds no "---". */
  lemma NoRuleRun(md: string)
    ensures NoRun(MarkdownToANSI(md), '-', 3)
  {
    var im := Images(Links(CodeBlocks(InlineCode(Lists(Strikethrough(Emphasis(Headings(md))))))));
    ReplaceAllRemovesRun(im, '-', 3, "---", HorizontalRule);
    ReplaceAllKeepsNoRun(Rules(im), '-', 3, "\n", Reset + "\n");
  }

  /** No "~~" and no "---" survives into the rendering. */
  lemma MarkdownRemovesStrikeAndRules(md: string)
    ensures !Contains(MarkdownToANSI(md), "~~") && !Contains(MarkdownToANSI(md), "---")
  {
    var r := MarkdownToANSI(md);
    NoStrikeRun(md);
    NoRuleRun(md);
    forall i
      ensures !OccursAt(r, "~~", i) && !OccursAt(r, "---", i)
    {
      RunOccurs(r, '~', 2, "~~", i);
      RunOccurs(r, '-', 3, "---", i);
    }
  }
}
