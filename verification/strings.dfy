/** The PHP string built-ins the cache engine relies on, with their
    behaviour on edge cases written out: `trim`, `strtolower`, `strrpos`
    followed by `substr`, `str_replace`, `explode(...)[1]`, the decimal
    rendering of an integer mtime and `implode('', ...)`. */
module Strings {
  import opened Results

  // ---------------------------------------------------------------------
  // trim()

  /** The characters PHP's `trim` strips by default: space, tab, line feed,
      carriage return, NUL and vertical tab. */
  predicate IsTrimChar(c: char) {
    c == ' ' || c == '\t' || c == '\n' || c == '\r' || c == '\0' || c == 11 as char
  }

  /** Neither the first nor the last character is one `trim` strips. */
  predicate Untrimmed(s: string) {
    |s| == 0 || (!IsTrimChar(s[0]) && !IsTrimChar(s[|s| - 1]))
  }

  /** `ltrim`: drops trim characters from the front. */
  function TrimLeft(s: string): string
  {
    if |s| > 0 && IsTrimChar(s[0]) then TrimLeft(s[1..]) else s
  }

  /** `rtrim`: drops trim characters from the back. */
  function TrimRight(s: string): string
  {
    if |s| > 0 && IsTrimChar(s[|s| - 1]) then TrimRight(s[..|s| - 1]) else s
  }

  /** What `TrimLeft` drops is a run of trim characters, and what it keeps
      is the rest of `s`, starting at a character it would not drop. */
  lemma {:induction false} TrimLeftSpec(s: string)
    ensures var r := TrimLeft(s);
      && |r| <= |s| && r == s[|s| - |r|..]
      && (forall k :: 0 <= k < |s| - |r| ==> IsTrimChar(s[k]))
      && (|r| > 0 ==> !IsTrimChar(r[0]))
    decreases |s|
  {
    if |s| > 0 && IsTrimChar(s[0]) {
      TrimLeftSpec(s[1..]);
    }
  }

  /** The mirror image of `TrimLeftSpec`. */
  lemma {:induction false} TrimRightSpec(s: string)
    ensures var r := TrimRight(s);
      && |r| <= |s| && r == s[..|r|]
      && (forall k :: |r| <= k < |s| ==> IsTrimChar(s[k]))
      && (|r| > 0 ==> !IsTrimChar(r[|r| - 1]))
    decreases |s|
  {
    if |s| > 0 && IsTrimChar(s[|s| - 1]) {
      TrimRightSpec(s[..|s| - 1]);
    }
  }

  /** `r` is `s` with trim characters only, `i` of them in front, cut off. */
  predicate TrimmedAt(s: string, r: string, i: nat) {
    && i + |r| <= |s| && r == s[i..i + |r|]
    && (forall k :: 0 <= k < i ==> IsTrimChar(s[k]))
    && (forall k :: i + |r| <= k < |s| ==> IsTrimChar(s[k]))
  }

  /** PHP `trim($s)`: strips trim characters from both ends. */
  function Trim(s: string): (r: string)
    ensures Untrimmed(r)
    ensures Untrimmed(s) ==> r == s
  {
    TrimLeftSpec(s);
    TrimRightSpec(TrimLeft(s));
    TrimRight(TrimLeft(s))
  }

  /** `trim` removes trim characters only, from the two ends. */
  lemma TrimStripsEndsOnly(s: string)
    ensures exists i: nat :: TrimmedAt(s, Trim(s), i)
  {
    var l := TrimLeft(s);
    TrimLeftSpec(s);
    TrimRightSpec(l);
    assert TrimmedAt(s, Trim(s), |s| - |l|);
  }

  // ---------------------------------------------------------------------
  // strtolower()

  /** ASCII case folding, as the locale-independent `strtolower` of PHP 8.2
      and later. */
  function LowerChar(c: char): (d: char)
    ensures 'A' <= c <= 'Z' ==> d as int == c as int + 32
    ensures !('A' <= c <= 'Z') ==> d == c
  {
    if 'A' <= c <= 'Z' then (c as int + 32) as char else c
  }

  function Lower(s: string): (r: string)
    ensures |r| == |s|
    ensures forall i :: 0 <= i < |s| ==> r[i] == LowerChar(s[i])
  {
    if |s| == 0 then "" else [LowerChar(s[0])] + Lower(s[1..])
  }

  // ---------------------------------------------------------------------
  // strrpos() and the substr() calls around it

  /** `strrpos($s, $c)`: the index of the last occurrence, or `false`. */
  function LastIndexOf(s: string, c: char): (r: Option<nat>)
    ensures r.Some? ==> r.value < |s| && s[r.value] == c
                        && forall k :: r.value < k < |s| ==> s[k] != c
    ensures r.None? <==> c !in s
  {
    if |s| == 0 then None
    else if s[|s| - 1] == c then Some(|s| - 1)
    else
      var r := LastIndexOf(s[..|s| - 1], c);
      assert c in s ==> c in s[..|s| - 1] by {
        if c in s {
          var k :| 0 <= k < |s| && s[k] == c;
          assert s[..|s| - 1][k] == c;
        }
      }
      r
  }

  /** The pair (`substr($s, 0, strrpos($s, "."))`, `substr($s, strrpos($s, ".") + 1)`).
      Without a dot `strrpos` yields `false`, which `substr` reads as 0:
      the stem is empty and the extension is everything after the first
      character. */
  function SplitAtLastDot(s: string): (r: (string, string))
    ensures '.' in s ==> s == r.0 + "." + r.1 && '.' !in r.1
    ensures '.' !in s ==> r.0 == "" && r.1 == (if |s| == 0 then "" else s[1..])
  {
    match LastIndexOf(s, '.')
    case Some(i) =>
      assert s == s[..i] + "." + s[i + 1..];
      (s[..i], s[i + 1..])
    case None => ("", if |s| == 0 then "" else s[1..])
  }

  /** Splitting undoes joining at a dot, whenever the extension is dot-free. */
  lemma {:induction false} SplitJoin(stem: string, ext: string)
    requires '.' !in ext
    ensures SplitAtLastDot(stem + "." + ext) == (stem, ext)
  {
    var s := stem + "." + ext;
    assert s[|stem|] == '.';
    var i := LastIndexOf(s, '.');
    assert i.Some?;
    assert i.value == |stem|;
    assert s[..|stem|] == stem;
    assert s[|stem| + 1..] == ext;
  }

  // ---------------------------------------------------------------------
  // str_replace()

  /** `pat` occurs in `s` starting at index `i`. */
  predicate OccursAt(s: string, pat: string, i: nat) {
    i + |pat| <= |s| && s[i..i + |pat|] == pat
  }

  /** `pat` occurs nowhere in `s`. */
  predicate Absent(pat: string, s: string) {
    forall i: nat :: i <= |s| ==> !OccursAt(s, pat, i)
  }

  lemma AbsentInTail(pat: string, s: string)
    requires |s| > 0 && Absent(pat, s)
    ensures Absent(pat, s[1..])
  {
    forall i: nat | OccursAt(s[1..], pat, i)
      ensures false
    {
      assert s[1..][i..i + |pat|] == s[i + 1..i + 1 + |pat|];
      assert OccursAt(s, pat, i + 1);
    }
  }

  /** PHP `str_replace($pat, $rep, $s)`: every non-overlapping occurrence,
      scanning left to right, is replaced; an empty search string leaves the
      subject unchanged. */
  function ReplaceAll(s: string, pat: string, rep: string): (r: string)
    ensures |pat| == 0 ==> r == s
    ensures Absent(pat, s) ==> r == s
    decreases |s|
  {
    if |pat| == 0 || |s| < |pat| then s
    else if s[..|pat|] == pat then
      assert OccursAt(s, pat, 0);
      rep + ReplaceAll(s[|pat|..], pat, rep)
    else
      assert s == [s[0]] + s[1..];
      assert Absent(pat, s) ==> Absent(pat, s[1..]) by {
        if Absent(pat, s) { AbsentInTail(pat, s); }
      }
      [s[0]] + ReplaceAll(s[1..], pat, rep)
  }

  /** A prefix in which no occurrence starts is copied through unchanged. */
  lemma {:induction false} ReplaceAfterPrefix(a: string, t: string, pat: string, rep: string)
    requires |pat| > 0
    requires forall i: nat :: i < |a| ==> !OccursAt(a + t, pat, i)
    ensures ReplaceAll(a + t, pat, rep) == a + ReplaceAll(t, pat, rep)
    decreases |a|
  {
    if |a| > 0 {
      var s := a + t;
      if |s| >= |pat| {
        assert !OccursAt(s, pat, 0);
        assert s[..|pat|] != pat;
        assert s[1..] == a[1..] + t;
        forall i: nat | i < |a| - 1
          ensures !OccursAt(a[1..] + t, pat, i)
        {
          assert !OccursAt(s, pat, i + 1);
          if i + |pat| <= |s[1..]| {
            assert s[1..][i..i + |pat|] == s[i + 1..i + 1 + |pat|];
          }
        }
        ReplaceAfterPrefix(a[1..], t, pat, rep);
        assert a == [a[0]] + a[1..];
      } else {
        assert a + t == s;
      }
    } else {
      assert a + t == t;
    }
  }

  /** Replacing a fingerprint that sits in its own slot, between a prefix
      ending in a character the fingerprint never contains and a suffix
      free of it, rewrites exactly that slot. */
  lemma {:induction false} ReplaceInSlot(pre: string, fp: string, suf: string, rep: string)
    requires |fp| > 0 && |pre| > 0 && pre[|pre| - 1] !in fp
    requires Absent(fp, pre) && Absent(fp, suf)
    ensures ReplaceAll(pre + fp + suf, fp, rep) == pre + rep + suf
  {
    var s := pre + fp + suf;
    forall i: nat | i < |pre|
      ensures !OccursAt(pre + (fp + suf), fp, i)
    {
      assert pre + (fp + suf) == s;
      if i + |fp| <= |s| {
        if i + |fp| <= |pre| {
          assert s[i..i + |fp|] == pre[i..i + |fp|];
          assert !OccursAt(pre, fp, i);
        } else {
          var k := |pre| - 1 - i;
          assert s[i..i + |fp|][k] == pre[|pre| - 1];
          assert fp[k] != pre[|pre| - 1];
        }
      }
    }
    ReplaceAfterPrefix(pre, fp + suf, fp, rep);
    assert (fp + suf)[..|fp|] == fp;
    assert (fp + suf)[|fp|..] == suf;
    assert pre + (fp + suf) == s;
  }

  // ---------------------------------------------------------------------
  // explode($delim, $s)[1]

  /** The first occurrence of `pat` in `s` at or after `from`. */
  function FindFrom(s: string, pat: string, from: nat): (r: Option<nat>)
    ensures r.Some? ==> from <= r.value && OccursAt(s, pat, r.value)
                        && forall k: nat :: from <= k < r.value ==> !OccursAt(s, pat, k)
    ensures r.None? ==> forall k: nat :: from <= k ==> !OccursAt(s, pat, k)
    decreases |s| - from
  {
    if from + |pat| > |s| then None
    else if OccursAt(s, pat, from) then Some(from)
    else FindFrom(s, pat, from + 1)
  }

  /** An occurrence in a suffix is an occurrence in the whole string,
      shifted by where the suffix starts. */
  lemma OccursInSuffix(s: string, pat: string, start: nat)
    requires start <= |s|
    ensures forall k: nat :: start <= k <= |s| ==>
              (OccursAt(s, pat, k) <==> OccursAt(s[start..], pat, k - start))
  {
    forall k: nat | start <= k <= |s|
      ensures OccursAt(s, pat, k) <==> OccursAt(s[start..], pat, k - start)
    {
      if k + |pat| <= |s| {
        assert s[start..][k - start..k - start + |pat|] == s[k..k + |pat|];
      }
    }
  }

  /** `explode($delim, $s)[1]`: the text between the first and the second
      occurrence of `delim`, or up to the end when there is no second one.
      A missing element reads as `null`, i.e. the empty string; so does the
      `false` an empty delimiter produces. */
  function ExplodeSecond(s: string, delim: string): (r: string)
    ensures |delim| > 0 ==> Absent(delim, r)
    ensures |delim| == 0 || FindFrom(s, delim, 0).None? ==> r == ""
    ensures |delim| > 0 && FindFrom(s, delim, 0).Some? ==>
      var start := FindFrom(s, delim, 0).value + |delim|;
      && start + |r| <= |s|
      && s[start..start + |r|] == r
      && (start + |r| == |s| || OccursAt(s, delim, start + |r|))
      && forall k: nat :: start <= k < start + |r| ==> !OccursAt(s, delim, k)
  {
    if |delim| == 0 then ""
    else match FindFrom(s, delim, 0)
      case None => ""
      case Some(i) =>
        var start := i + |delim|;
        var r := UpToDelim(s[start..], delim);
        OccursInSuffix(s, delim, start);
        assert s[start..start + |r|] == s[start..][..|r|];
        r
  }

  /** The text of `s` before the first occurrence of `delim`, or all of
      `s` when there is none. */
  function UpToDelim(s: string, delim: string): (r: string)
    requires |delim| > 0
    ensures |r| <= |s| && s[..|r|] == r
    ensures |r| == |s| || OccursAt(s, delim, |r|)
    ensures forall k: nat :: k < |r| ==> !OccursAt(s, delim, k)
    ensures Absent(delim, r)
  {
    match FindFrom(s, delim, 0)
    case None => s
    case Some(j) =>
      assert Absent(delim, s[..j]) by {
        forall k: nat | OccursAt(s[..j], delim, k)
          ensures false
        {
          assert s[..j][k..k + |delim|] == s[k..k + |delim|];
          assert OccursAt(s, delim, k);
        }
      }
      s[..j]
  }

  /** For a path laid out as `root + delim + rel`, with `delim` first
      occurring right after `root` and not inside `rel`, the second
      exploded piece is `rel`. */
  lemma {:induction false} ExplodeRelative(root: string, delim: string, rel: string)
    requires |delim| > 0 && Absent(delim, rel)
    requires forall i: nat :: i < |root| ==> !OccursAt(root + delim + rel, delim, i)
    ensures ExplodeSecond(root + delim + rel, delim) == rel
  {
    var s := root + delim + rel;
    assert s[|root|..|root| + |delim|] == delim;
    assert OccursAt(s, delim, |root|);
    var f := FindFrom(s, delim, 0);
    assert f == Some(|root|);
    assert s[|root| + |delim|..] == rel;
    assert FindFrom(rel, delim, 0).None?;
  }

  // ---------------------------------------------------------------------
  // str_replace("/", "-", ...) on a relative stem

  /** Every `/` becomes `-`, everything else is kept. */
  function Flatten(s: string): (r: string)
    ensures |r| == |s| && '/' !in r
    ensures forall i :: 0 <= i < |s| ==> r[i] == (if s[i] == '/' then '-' else s[i])
  {
    if |s| == 0 then "" else [if s[0] == '/' then '-' else s[0]] + Flatten(s[1..])
  }

  // ---------------------------------------------------------------------
  // integers as decimal strings, implode('', ...)

  predicate IsDigit(c: char) { '0' <= c <= '9' }

  predicate AllDigits(s: string) { forall i :: 0 <= i < |s| ==> IsDigit(s[i]) }

  function DigitChar(d: nat): (c: char)
    requires d < 10
    ensures IsDigit(c) && c as int - '0' as int == d
  {
    ('0' as int + d) as char
  }

  /** PHP's rendering of a non-negative integer: decimal, no leading zeros. */
  function NatToString(n: nat): (s: string)
    ensures |s| > 0 && AllDigits(s)
    ensures s[0] == '0' ==> n == 0
    decreases n
  {
    if n < 10 then [DigitChar(n)] else NatToString(n / 10) + [DigitChar(n % 10)]
  }

  /** Reads a decimal digit string back (the inverse of `NatToString`). */
  function ParseNat(s: string): nat
    requires AllDigits(s)
  {
    if |s| == 0 then 0
    else 10 * ParseNat(s[..|s| - 1]) + (s[|s| - 1] as int - '0' as int)
  }

  lemma {:induction false} ParseNatToString(n: nat)
    ensures ParseNat(NatToString(n)) == n
    decreases n
  {
    if n >= 10 {
      var s := NatToString(n);
      assert s[..|s| - 1] == NatToString(n / 10);
      ParseNatToString(n / 10);
    }
  }

  /** Distinct mtimes render as distinct strings. */
  lemma NatToStringInjective(a: nat, b: nat)
    requires NatToString(a) == NatToString(b)
    ensures a == b
  {
    ParseNatToString(a);
    ParseNatToString(b);
  }

  /** `implode('', $mtimes)`: the decimal renderings, adjacent, no separator. */
  function Join(ms: seq<nat>): (r: string)
    ensures AllDigits(r)
    ensures |r| >= |ms|
    ensures |ms| == 1 ==> r == NatToString(ms[0])
  {
    if |ms| == 0 then "" else NatToString(ms[0]) + Join(ms[1..])
  }

  /** Joining is a homomorphism from lists of mtimes to strings: the join of
      two lists put together is the two joins put together. With the
      single-element case of `Join` this pins the result down. */
  lemma {:induction false} JoinAppend(a: seq<nat>, b: seq<nat>)
    ensures Join(a + b) == Join(a) + Join(b)
    decreases |a|
  {
    if |a| > 0 {
      assert (a + b)[1..] == a[1..] + b;
      JoinAppend(a[1..], b);
    } else {
      assert a + b == b;
    }
  }

  /** String concatenation of a list of strings, in order. */
  function Concat(ss: seq<string>): string
  {
    if |ss| == 0 then "" else ss[0] + Concat(ss[1..])
  }

  lemma {:induction false} ConcatAppend(a: seq<string>, b: seq<string>)
    ensures Concat(a + b) == Concat(a) + Concat(b)
    decreases |a|
  {
    if |a| > 0 {
      assert (a + b)[1..] == a[1..] + b;
      ConcatAppend(a[1..], b);
    } else {
      assert a + b == b;
    }
  }
}
