/** What the literal trigrams of a glob are, taken apart at its first wildcard or class. */
module TrigramRules {
  import opened GlobMatch
  import opened Trigrams

  lemma {:induction false} InsidePrefix(g: string, i: nat, k: nat)
    requires k <= i <= |g|
    ensures Inside(g[..i], k) == Inside(g, k)
  {
    if k > 0 { InsidePrefix(g, i, k - 1); }
  }

  lemma {:induction false} OutsideBefore(g: string, k: nat)
    requires k <= |g| && '[' !in g[..k]
    ensures !Inside(g, k)
  {
    if k > 0 {
      assert g[..k] == g[..k - 1] + [g[k - 1]];
      OutsideBefore(g, k - 1);
    }
  }

  lemma PrefixLiteral(g: string, i: nat, k: int, t: string)
    requires i <= |g| && k + 3 <= i
    ensures LiteralAt(g[..i], k, t) <==> LiteralAt(g, k, t)
  {
    if k >= 0 {
      InsidePrefix(g, i, k);
      InsidePrefix(g, i, k + 1);
      InsidePrefix(g, i, k + 2);
      assert g[..i][k..k + 3] == g[k..k + 3];
    }
  }

  lemma SuffixCharacter(g: string, j: nat, k: int)
    requires j <= k && j <= |g| && !Inside(g, j)
    ensures Literal(g[j..], k - j) <==> Literal(g, k)
  {
    if k < |g| { InsideSuffix(g, j, k - j); }
  }

  lemma SuffixLiteral(g: string, j: nat, k: int, t: string)
    requires j <= k && j <= |g| && !Inside(g, j)
    ensures LiteralAt(g[j..], k - j, t) <==> LiteralAt(g, k, t)
  {
    SuffixCharacter(g, j, k);
    SuffixCharacter(g, j, k + 1);
    SuffixCharacter(g, j, k + 2);
    if k + 3 <= |g| { SliceOfSuffix(g, j, k); }
  }

  lemma SliceOfSuffix(g: string, j: nat, k: nat)
    requires j <= k <= |g| - 3
    ensures g[j..][k - j..k - j + 3] == g[k..k + 3]
  {
  }

  /** A stretch that is not literal separates the trigrams before it from those after it. */
  lemma Separated(g: string, i: nat, j: nat, t: string)
    requires i < j <= |g| && !Inside(g, j) && forall k :: i <= k < j ==> !Literal(g, k)
    ensures GlobHas(g, t) <==> GlobHas(g[..i], t) || GlobHas(g[j..], t)
  {
    if k :| LiteralAt(g, k, t) {
      assert Literal(g, k) && Literal(g, k + 1) && Literal(g, k + 2);
      if k < i { PrefixLiteral(g, i, k, t); } else { SuffixLiteral(g, j, k, t); }
    }
    if k :| LiteralAt(g[..i], k, t) {
      PrefixLiteral(g, i, k, t);
    }
    if k :| LiteralAt(g[j..], k, t) {
      SuffixLiteral(g, j, j + k, t);
    }
  }

  /** Without special characters, all trigrams of the glob. */
  lemma PlainTrigrams(g: string, t: string)
    requires '[' !in g && '*' !in g && '?' !in g
    ensures GlobHas(g, t) <==> |t| == 3 && Occurs(t, g)
  {
    forall k | 0 <= k <= |g|
      ensures !Inside(g, k)
    {
      OutsideWithoutClass(g, k);
    }
    if k :| LiteralAt(g, k, t) {
      assert OccursAt(t, g, k);
    }
    if |t| == 3 && Occurs(t, g) {
      var k :| OccursAt(t, g, k);
      assert g[k] in g && g[k + 1] in g && g[k + 2] in g;
      assert LiteralAt(g, k, t);
    }
  }

  /** A star or a question mark: the trigrams before it and those after it. */
  lemma WildcardSplits(a: string, wildcard: char, b: string, t: string)
    requires '[' !in a && (wildcard == '*' || wildcard == '?')
    ensures GlobHas(a + [wildcard] + b, t) <==> GlobHas(a, t) || GlobHas(b, t)
  {
    var g := a + [wildcard] + b;
    assert g[..|a|] == a && g[|a| + 1..] == b && g[..|a| + 1] == a + [wildcard];
    OutsideBefore(g, |a| + 1);
    Separated(g, |a|, |a| + 1, t);
  }

  /** A class up to its first ']' has no trigram and belongs to none. */
  lemma ClassSplits(a: string, chars: string, b: string, t: string)
    requires '[' !in a && ']' !in chars
    ensures GlobHas(a + ("[" + chars + "]" + b), t) <==> GlobHas(a, t) || GlobHas(b, t)
  {
    var tail := "[" + chars + "]" + b;
    var g, n := a + tail, |chars| + 2;
    assert g[..|a|] == a && g[|a|..] == tail && g[|a| + n..] == b;
    OutsideBefore(g, |a|);
    assert tail[0] == '[' && tail[1..n - 1] == chars && tail[n - 1] == ']';
    forall k | |a| <= k < |a| + n
      ensures !Literal(g, k)
    {
      InsideSuffix(g, |a|, k - |a|);
      if k > |a| {
        assert tail[1..k - |a|] == chars[..k - |a| - 1];
        InsideClass(tail, k - |a|);
      }
    }
    InsideSuffix(g, |a|, n);
    InsideClass(tail, n - 1);
    Separated(g, |a|, |a| + n, t);
  }

  /** A class that is never closed: nothing behind its '[' counts. */
  lemma UnclosedClass(a: string, chars: string, t: string)
    requires '[' !in a && ']' !in chars
    ensures GlobHas(a + ("[" + chars), t) <==> GlobHas(a, t)
  {
    var tail := "[" + chars;
    var g := a + tail;
    assert g[..|a|] == a && g[|a|..] == tail;
    OutsideBefore(g, |a|);
    if k :| LiteralAt(g, k, t) {
      if k + 2 >= |a| {
        var i := if k >= |a| then k - |a| else 0;
        assert Literal(g, |a| + i);
        InsideSuffix(g, |a|, i);
        if i > 0 {
          assert tail[1..i] == chars[..i - 1];
          InsideClass(tail, i);
        }
      }
      PrefixLiteral(g, |a|, k, t);
    }
    if k :| LiteralAt(a, k, t) {
      PrefixLiteral(g, |a|, k, t);
    }
  }
}
