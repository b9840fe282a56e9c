/** The part of PHP's `glob` the garbage collector depends on. */
module Glob {

  /** Pattern `p` matches path `s`: `*` stands for any run of characters
      other than `/` (a wildcard never crosses a directory boundary); every
      other character stands for itself. */
  predicate Matches(p: string, s: string)
    decreases |p| + |s|
  {
    if |p| == 0 then |s| == 0
    else if p[0] == '*' then
      Matches(p[1..], s) || (|s| > 0 && s[0] != '/' && Matches(p, s[1..]))
    else
      |s| > 0 && s[0] == p[0] && Matches(p[1..], s[1..])
  }

  /** A lone wildcard matches exactly the slash-free strings. */
  lemma {:induction false} StarMatchesIff(x: string)
    ensures Matches("*", x) <==> '/' !in x
    decreases |x|
  {
    assert "*"[1..] == "";
    if |x| > 0 {
      StarMatchesIff(x[1..]);
      assert x == [x[0]] + x[1..];
    }
  }

  /** Every path matches itself read as a pattern (a `*` can match a
      literal `*`). */
  lemma {:induction false} MatchesItself(p: string)
    ensures Matches(p, p)
    decreases |p|
  {
    if |p| > 0 {
      MatchesItself(p[1..]);
      if p[0] == '*' {
        assert Matches(p[1..], p[1..]);
        assert Matches(p, p[1..]);
      }
    }
  }

  /** Matching is compositional: matched pieces concatenate. */
  lemma {:induction false} MatchesConcat(p1: string, s1: string, p2: string, s2: string)
    requires Matches(p1, s1) && Matches(p2, s2)
    ensures Matches(p1 + p2, s1 + s2)
    decreases |p1| + |s1|
  {
    if |p1| == 0 {
      assert p1 + p2 == p2 && s1 + s2 == s2;
    } else if p1[0] == '*' {
      assert (p1 + p2)[1..] == p1[1..] + p2;
      if Matches(p1[1..], s1) {
        MatchesConcat(p1[1..], s1, p2, s2);
      } else {
        MatchesConcat(p1, s1[1..], p2, s2);
        assert (s1 + s2)[1..] == s1[1..] + s2;
      }
    } else {
      assert (p1 + p2)[1..] == p1[1..] + p2;
      assert (s1 + s2)[1..] == s1[1..] + s2;
      MatchesConcat(p1[1..], s1[1..], p2, s2);
    }
  }

  /** The pattern obtained by putting `*` in a slot matches every path
      that fills the slot with slash-free text. */
  lemma SiblingMatches(pre: string, x: string, suf: string)
    requires '/' !in x
    ensures Matches(pre + "*" + suf, pre + x + suf)
  {
    MatchesItself(pre);
    StarMatchesIff(x);
    MatchesConcat(pre, pre, "*", x);
    MatchesItself(suf);
    MatchesConcat(pre + "*", pre + x, suf, suf);
  }
}
