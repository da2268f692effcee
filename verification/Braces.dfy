/** Brace expansion in expandGlobs (carbonserver/carbonserver.go). */
module Braces {
  import opened Points
  import opened GoStrings
  import opened Sequences

  // ---- The reference: recursive expansion of the leftmost brace ----

  /** The first '{' and the first '}' after it. */
  function Brace(glob: string): (r: Option<(int, int)>)
    ensures r.Some? ==> 0 <= r.value.0 < r.value.1 < |glob| && glob[r.value.0] == '{' && glob[r.value.1] == '}'
    ensures r.Some? ==> '}' !in glob[r.value.0 + 1..r.value.1]
  {
    var l := IndexByte(glob, '{');
    if l == -1 then None
    else
      var r := IndexByte(glob[l..], '}');
      if r == -1 then None
      else
        assert glob[l + 1..l + r] == glob[l..][..r][1..];
        Some((l, l + r))
  }

  /** Characters `i` and `j` are a '{' and a '}' behind it. */
  predicate IsPair(glob: string, i: int, j: int) {
    0 <= i < j < |glob| && glob[i] == '{' && glob[j] == '}'
  }

  /** There is a brace exactly when some '}' is behind some '{': from the first '{' to the first '}' after it. */
  lemma BraceIsFirst(glob: string)
    ensures Brace(glob).Some? <==> exists i, j :: IsPair(glob, i, j)
    ensures Brace(glob).Some? ==>
              var (l, r) := Brace(glob).value;
              IsPair(glob, l, r) && '{' !in glob[..l] && '}' !in glob[l..r]
  {
    var l := IndexByte(glob, '{');
    if Brace(glob).Some? {
      var (left, right) := Brace(glob).value;
      assert IsPair(glob, left, right);
      assert glob[left..right] == [glob[left]] + glob[left + 1..right];
    }
    if i, j :| IsPair(glob, i, j) {
      assert glob[i] in glob && l <= i;
      assert glob[l..][j - l] == '}';
    }
  }

  function Substituted(before: string, parts: seq<string>, after: string): (globs: seq<string>)
    ensures |globs| == |parts|
    ensures forall k :: 0 <= k < |parts| ==> globs[k] == before + parts[k] + after
  {
    seq(|parts|, k requires 0 <= k < |parts| => before + parts[k] + after)
  }

  /** One expansion: an alternative for each comma-separated part, or the glob itself. */
  function Alternatives(glob: string): (globs: seq<string>)
    ensures |globs| >= 1
  {
    match Brace(glob)
    case None => [glob]
    case Some(b) => Substituted(glob[..b.0], Split(glob[b.0 + 1..b.1], ','), glob[b.1 + 1..])
  }

  /** The alternatives of a glob in which the first brace holds parts without commas or '}', joined by commas. */
  lemma AlternativesAre(glob: string, before: string, inner: string, parts: seq<string>, after: string)
    requires glob == before + "{" + inner + "}" + after && '{' !in before
    requires |parts| >= 1 && inner == Join(parts, ',')
    requires forall k :: 0 <= k < |parts| ==> ',' !in parts[k] && '}' !in parts[k]
    ensures |Alternatives(glob)| == |parts|
    ensures forall k :: 0 <= k < |parts| ==> Alternatives(glob)[k] == before + parts[k] + after
  {
    JoinHasNo(parts, ',', '}');
    SplitJoin(parts, ',');
    AlternativesOfParts(glob, before, inner, parts, after);
  }

  lemma AlternativesOfParts(glob: string, before: string, inner: string, parts: seq<string>, after: string)
    requires glob == before + "{" + inner + "}" + after && '{' !in before
    requires '}' !in inner && Split(inner, ',') == parts
    ensures |Alternatives(glob)| == |parts|
    ensures forall k :: 0 <= k < |parts| ==> Alternatives(glob)[k] == before + parts[k] + after
  {
    BraceOf(glob, before, inner, after);
    AlternativesOf(glob, |before|, |before| + 1 + |inner|, before, inner, after);
  }

  lemma AlternativesOf(glob: string, l: nat, r: nat, before: string, inner: string, after: string)
    requires l < r < |glob| && Brace(glob) == Some((l, r))
    requires glob[..l] == before && glob[l + 1..r] == inner && glob[r + 1..] == after
    ensures Alternatives(glob) == Substituted(before, Split(inner, ','), after)
  {
    var b := Brace(glob).value;
    assert b.0 == l && b.1 == r;
  }

  lemma SlicesOf(glob: string, before: string, inner: string, after: string)
    requires glob == before + "{" + inner + "}" + after
    ensures var l, r := |before|, |before| + 1 + |inner|;
            glob[..l] == before && glob[l + 1..r] == inner && glob[r + 1..] == after
            && glob[l] == '{' && glob[r] == '}' && glob[l..] == "{" + inner + "}" + after
  {
  }

  lemma BraceOf(glob: string, before: string, inner: string, after: string)
    requires glob == before + "{" + inner + "}" + after && '{' !in before && '}' !in inner
    ensures Brace(glob) == Some((|before|, |before| + 1 + |inner|))
    ensures var l, r := |before|, |before| + 1 + |inner|;
            glob[..l] == before && glob[l + 1..r] == inner && glob[r + 1..] == after
  {
    SlicesOf(glob, before, inner, after);
    IndexIs(glob, '{', |before|);
    IndexIs("{" + inner + "}" + after, '}', |inner| + 1);
  }

  function Closers(glob: string): nat {
    multiset(glob)['}']
  }

  lemma CountClosers(before: string, inner: string, part: string, after: string)
    requires '}' !in inner && '}' !in part
    ensures Closers(before + part + after) == Closers(before + ['{'] + inner + ['}'] + after) - 1
  {
    assert multiset(part)['}'] == 0 && multiset(inner)['}'] == 0;
  }

  /** A part in place of its braces. */
  lemma PartCloses(before: string, inner: string, after: string, k: nat)
    requires '}' !in inner && k < |Split(inner, ',')|
    ensures Closers(Substituted(before, Split(inner, ','), after)[k]) ==
            Closers(before + ['{'] + inner + ['}'] + after) - 1
  {
    PartsAreInside(inner, ',', '}');
    CountClosers(before, inner, Split(inner, ',')[k], after);
  }

  lemma AroundBrace(glob: string, l: nat, r: nat)
    requires l < r < |glob| && glob[l] == '{' && glob[r] == '}'
    ensures glob == glob[..l] + ['{'] + glob[l + 1..r] + ['}'] + glob[r + 1..]
  {
  }

  lemma PartOfGlob(glob: string, l: nat, r: nat, globs: seq<string>, k: nat)
    requires l < r < |glob| && glob[l] == '{' && glob[r] == '}' && '}' !in glob[l + 1..r]
    requires globs == Substituted(glob[..l], Split(glob[l + 1..r], ','), glob[r + 1..]) && k < |globs|
    ensures Closers(globs[k]) == Closers(glob) - 1
  {
    AroundBrace(glob, l, r);
    PartCloses(glob[..l], glob[l + 1..r], glob[r + 1..], k);
  }

  /** An expansion uses up exactly one closing brace. */
  lemma OneCloserLess(glob: string, k: nat)
    requires Brace(glob).Some? && k < |Alternatives(glob)|
    ensures Closers(Alternatives(glob)[k]) == Closers(glob) - 1
  {
    PartOfGlob(glob, Brace(glob).value.0, Brace(glob).value.1, Alternatives(glob), k);
  }

  lemma AlternativesClose(glob: string)
    requires Brace(glob).Some?
    ensures forall k :: 0 <= k < |Alternatives(glob)| ==> Closers(Alternatives(glob)[k]) == Closers(glob) - 1
  {
    forall k | 0 <= k < |Alternatives(glob)|
      ensures Closers(Alternatives(glob)[k]) == Closers(glob) - 1
    {
      OneCloserLess(glob, k);
    }
  }

  function Expand(glob: string): (globs: seq<string>)
    ensures |globs| >= 1
    decreases Closers(glob), 0
  {
    if Brace(glob).None? then [glob]
    else
      AlternativesClose(glob);
      ExpandEach(Alternatives(glob), Closers(glob) - 1)
  }

  function ExpandEach(globs: seq<string>, closers: nat): (r: seq<string>)
    requires forall k :: 0 <= k < |globs| ==> Closers(globs[k]) <= closers
    ensures |r| >= |globs|
    decreases closers, |globs|
  {
    if globs == [] then [] else Expand(globs[0]) + ExpandEach(globs[1..], closers)
  }

  function ExpandAll(globs: seq<string>): (r: seq<string>)
    ensures |r| >= |globs|
  {
    if globs == [] then [] else Expand(globs[0]) + ExpandAll(globs[1..])
  }

  lemma {:induction false} EachIsAll(globs: seq<string>, closers: nat)
    requires forall k :: 0 <= k < |globs| ==> Closers(globs[k]) <= closers
    ensures ExpandEach(globs, closers) == ExpandAll(globs)
  {
    if globs != [] { EachIsAll(globs[1..], closers); }
  }

  /** What the recursion means: a glob stands for its alternatives, in order. */
  lemma ExpandIsAlternatives(glob: string)
    ensures Expand(glob) == if Brace(glob).None? then [glob] else ExpandAll(Alternatives(glob))
  {
    if Brace(glob).Some? {
      AlternativesClose(glob);
      OneCloserLess(glob, 0);
      EachIsAll(Alternatives(glob), Closers(glob) - 1);
    }
  }

  lemma {:induction false} ExpandAllConcat(a: seq<string>, b: seq<string>)
    ensures ExpandAll(a + b) == ExpandAll(a) + ExpandAll(b)
  {
    if a == [] {
      assert a + b == b;
    } else {
      ExpandAllConcat(a[1..], b);
      assert (a + b)[1..] == a[1..] + b && (a + b)[0] == a[0];
      Associate(Expand(a[0]), ExpandAll(a[1..]), ExpandAll(b));
    }
  }

  /** Nothing that can still be expanded is left: no '}' is behind a '{'. */
  lemma ExpandedFully(glob: string, k: nat)
    requires k < |Expand(glob)|
    ensures !exists i, j :: 0 <= i < j < |Expand(glob)[k]| && Expand(glob)[k][i] == '{' && Expand(glob)[k][j] == '}'
  {
    NoBraceLeft(glob, k);
    BraceIsFirst(Expand(glob)[k]);
    var g := Expand(glob)[k];
    if i, j :| 0 <= i < j < |g| && g[i] == '{' && g[j] == '}' { assert IsPair(g, i, j); }
  }

  lemma {:induction false} NoBraceLeft(glob: string, k: nat)
    requires k < |Expand(glob)|
    ensures Brace(Expand(glob)[k]).None?
    decreases Closers(glob), 0
  {
    ExpandIsAlternatives(glob);
    if Brace(glob).Some? {
      AlternativesClose(glob);
      ExpandedAll(Alternatives(glob), k, Closers(glob) - 1);
    }
  }

  lemma {:induction false} ExpandedAll(globs: seq<string>, k: nat, closers: int)
    requires k < |ExpandAll(globs)| && forall i :: 0 <= i < |globs| ==> Closers(globs[i]) <= closers
    ensures Brace(ExpandAll(globs)[k]).None?
    decreases closers, |globs|
  {
    if k < |Expand(globs[0])| {
      NoBraceLeft(globs[0], k);
    } else {
      ExpandedAll(globs[1..], k - |Expand(globs[0])|, closers);
    }
  }

  // ---- One round of the loop, and its cap ----

  /** At most the first `n` globs. */
  function Prefix(n: nat, globs: seq<string>): seq<string> {
    if |globs| <= n then globs else globs[..n]
  }

  lemma PrefixConcat(n: nat, a: seq<string>, b: seq<string>)
    ensures Prefix(n, Prefix(n, a) + b) == Prefix(n, a + b)
    ensures |a| >= n ==> Prefix(n, a + b) == Prefix(n, a)
  {
  }

  /** Every glob replaced by its alternatives once. */
  function StepAll(globs: seq<string>): (r: seq<string>)
    ensures |r| >= |globs|
  {
    if globs == [] then [] else StepAll(globs[..|globs| - 1]) + Alternatives(globs[|globs| - 1])
  }

  lemma ExpandOne(glob: string)
    ensures ExpandAll([glob]) == Expand(glob) == ExpandAll(Alternatives(glob))
  {
    ExpandIsAlternatives(glob);
    assert ExpandAll([glob]) == Expand(glob) + ExpandAll([]);
  }

  lemma SameExpansion(a: seq<string>, b: seq<string>, a': seq<string>, b': seq<string>)
    requires ExpandAll(a) == ExpandAll(a') && ExpandAll(b) == ExpandAll(b')
    ensures ExpandAll(a + b) == ExpandAll(a' + b')
  {
    ExpandAllConcat(a, b);
    ExpandAllConcat(a', b');
  }

  lemma LastStep(init: seq<string>, last: string, stepped: seq<string>)
    requires ExpandAll(stepped) == ExpandAll(init)
    ensures ExpandAll(stepped + Alternatives(last)) == ExpandAll(init + [last])
  {
    ExpandOne(last);
    SameExpansion(stepped, Alternatives(last), init, [last]);
  }

  lemma StepAllSnoc(init: seq<string>, last: string)
    ensures StepAll(init + [last]) == StepAll(init) + Alternatives(last)
  {
    assert (init + [last])[..|init|] == init;
  }

  lemma {:induction false} StepKeepsExpansion(globs: seq<string>)
    ensures ExpandAll(StepAll(globs)) == ExpandAll(globs)
  {
    if globs != [] {
      var init, last := globs[..|globs| - 1], globs[|globs| - 1];
      assert globs == init + [last];
      StepKeepsExpansion(init);
      StepAllSnoc(init, last);
      LastStep(init, last, StepAll(init));
    }
  }

  /** Since every glob expands to at least one, a cap on the globs is a cap on their expansions. */
  lemma CapIsHarmless(n: nat, globs: seq<string>)
    ensures Prefix(n, ExpandAll(Prefix(n, globs))) == Prefix(n, ExpandAll(globs))
  {
    if |globs| > n {
      ExpandAllConcat(globs[..n], globs[n..]);
      assert globs == globs[..n] + globs[n..];
      PrefixConcat(n, ExpandAll(globs[..n]), ExpandAll(globs[n..]));
    }
  }

  /** No glob can be expanded. */
  ghost predicate Plain(globs: seq<string>) {
    forall k :: 0 <= k < |globs| ==> Brace(globs[k]).None?
  }

  lemma PlainOne(glob: string)
    requires Brace(glob).None?
    ensures Alternatives(glob) == [glob] == ExpandAll([glob])
  {
    ExpandOne(glob);
    ExpandIsAlternatives(glob);
  }

  lemma {:induction false} NothingToExpand(globs: seq<string>)
    requires Plain(globs)
    ensures ExpandAll(globs) == globs && StepAll(globs) == globs
  {
    if globs != [] {
      var init, last := globs[..|globs| - 1], globs[|globs| - 1];
      NothingToExpand(init);
      PlainOne(last);
      ExpandAllConcat(init, [last]);
      assert globs == init + [last];
    }
  }

  lemma {:induction false} StepAllPrefix(globs: seq<string>, i: nat)
    requires i <= |globs|
    ensures StepAll(globs[..i]) <= StepAll(globs)
  {
    if i < |globs| {
      StepAllPrefix(globs[..|globs| - 1], i);
      assert globs[..|globs| - 1][..i] == globs[..i];
    } else {
      assert globs[..i] == globs;
    }
  }

  /** The largest number of closing braces among the globs that still match. */
  function Height(globs: seq<string>): nat {
    if globs == [] then 0
    else
      var init, last := Height(globs[..|globs| - 1]), globs[|globs| - 1];
      if Brace(last).Some? && Closers(last) > init then Closers(last) else init
  }

  lemma {:induction false} HeightBounds(globs: seq<string>, k: nat)
    requires k < |globs| && Brace(globs[k]).Some?
    ensures Closers(globs[k]) <= Height(globs)
  {
    if k < |globs| - 1 { HeightBounds(globs[..|globs| - 1], k); }
  }

  lemma {:induction false} HeightAtMost(globs: seq<string>, n: nat)
    requires forall k :: 0 <= k < |globs| && Brace(globs[k]).Some? ==> Closers(globs[k]) <= n
    ensures Height(globs) <= n
  {
    if globs != [] { HeightAtMost(globs[..|globs| - 1], n); }
  }

  /** An alternative that still matches came from a glob that did, with one brace more. */
  lemma StillMatches(glob: string, k: nat)
    requires k < |Alternatives(glob)| && Brace(Alternatives(glob)[k]).Some?
    ensures Brace(glob).Some? && Closers(Alternatives(glob)[k]) < Closers(glob)
  {
    if Brace(glob).Some? { OneCloserLess(glob, k); }
  }

  lemma {:induction false} StepLowers(globs: seq<string>, k: nat)
    requires k < |StepAll(globs)| && Brace(StepAll(globs)[k]).Some?
    ensures Closers(StepAll(globs)[k]) < Height(globs)
  {
    var init, last := globs[..|globs| - 1], globs[|globs| - 1];
    var before := |StepAll(init)|;
    if k < before {
      assert StepAll(globs)[k] == StepAll(init)[k];
      StepLowers(init, k);
    } else {
      assert StepAll(globs)[k] == Alternatives(last)[k - before];
      StillMatches(last, k - before);
    }
  }

  lemma HasCloser(glob: string)
    requires Brace(glob).Some?
    ensures Closers(glob) > 0
  {
    var (l, r) := Brace(glob).value;
    assert '}' in multiset(glob);
  }

  lemma RoundLowers(n: nat, globs: seq<string>, k: nat)
    requires k < |globs| && Brace(globs[k]).Some?
    ensures Height(Prefix(n, StepAll(globs))) < Height(globs)
  {
    var newglobs := Prefix(n, StepAll(globs));
    HeightBounds(globs, k);
    HasCloser(globs[k]);
    forall j | 0 <= j < |newglobs| && Brace(newglobs[j]).Some?
      ensures Closers(newglobs[j]) <= Height(globs) - 1
    {
      assert newglobs[j] == StepAll(globs)[j];
      StepLowers(globs, j);
    }
    HeightAtMost(newglobs, Height(globs) - 1);
  }

  /** The list that `maxGlobs` allows, also for a negative one. */
  function Cap(maxGlobs: int): nat {
    if maxGlobs < 0 then 0 else maxGlobs + 1
  }

  /** The inner loop over one glob's parts. */
  method AppendParts(newglobs: seq<string>, before: string, parts: seq<string>, after: string, maxGlobs: int)
    returns (r: seq<string>)
    requires |newglobs| <= Cap(maxGlobs)
    ensures r == Prefix(Cap(maxGlobs), newglobs + Substituted(before, parts, after))
  {
    ghost var all, n := Substituted(before, parts, after), Cap(maxGlobs);
    r := newglobs;
    for k := 0 to |parts|
      invariant r == Prefix(n, newglobs + all[..k])
    {
      if |r| > maxGlobs {
        FullPrefix(n, newglobs, all, k);
        return;
      }
      r := r + [before + parts[k] + after];
      NextPrefix(n, newglobs, all, k);
    }
    assert all[..|parts|] == all;
  }

  lemma FullPrefix(n: nat, globs: seq<string>, all: seq<string>, k: nat)
    requires k <= |all| && |Prefix(n, globs + all[..k])| >= n
    ensures Prefix(n, globs + all[..k]) == Prefix(n, globs + all)
  {
    assert globs + all == (globs + all[..k]) + all[k..];
    PrefixConcat(n, globs + all[..k], all[k..]);
  }

  lemma NextPrefix(n: nat, globs: seq<string>, all: seq<string>, k: nat)
    requires k < |all| && |Prefix(n, globs + all[..k])| < n
    ensures Prefix(n, globs + all[..k + 1]) == Prefix(n, globs + all[..k]) + [all[k]]
  {
    assert globs + all[..k + 1] == (globs + all[..k]) + [all[k]];
  }

  lemma StepAllNext(globs: seq<string>, i: nat)
    requires i < |globs|
    ensures StepAll(globs[..i + 1]) == StepAll(globs[..i]) + Alternatives(globs[i])
  {
    assert globs[..i + 1][..i] == globs[..i];
  }

  lemma PrefixOf(n: nat, a: seq<string>, b: seq<string>)
    requires a <= b && |Prefix(n, a)| >= n
    ensures Prefix(n, a) == Prefix(n, b)
  {
  }

  lemma PlainNext(globs: seq<string>, i: nat)
    requires i < |globs|
    ensures Plain(globs[..i + 1]) <==> Plain(globs[..i]) && Brace(globs[i]).None?
  {
    assert globs[..i + 1][i] == globs[i];
    assert forall k :: 0 <= k < i ==> globs[..i + 1][k] == globs[..i][k];
  }

  /** The cap is reached before glob `i`. */
  lemma CutShort(n: nat, globs: seq<string>, i: nat)
    requires i <= |globs| && |Prefix(n, StepAll(globs[..i]))| >= n
    ensures Prefix(n, StepAll(globs[..i])) == Prefix(n, StepAll(globs))
    ensures Plain(globs[..i]) ==> Prefix(n, StepAll(globs[..i])) == Prefix(n, globs) && Plain(Prefix(n, globs))
  {
    StepAllPrefix(globs, i);
    PrefixOf(n, StepAll(globs[..i]), StepAll(globs));
    if Plain(globs[..i]) {
      NothingToExpand(globs[..i]);
      PrefixOf(n, globs[..i], globs);
    }
  }

  /** The part of the loop body for a glob. */
  method AppendGlob(newglobs: seq<string>, glob: string, maxGlobs: int)
    returns (r: seq<string>, matched: bool, cut: bool)
    requires |newglobs| <= Cap(maxGlobs)
    ensures matched <==> Brace(glob).Some?
    ensures r == Prefix(Cap(maxGlobs), newglobs + Alternatives(glob))
    ensures cut ==> r == newglobs && |newglobs| == Cap(maxGlobs)
  {
    matched, cut := Brace(glob).Some?, false;
    if matched {
      var (l, r') := Brace(glob).value;
      r := AppendParts(newglobs, glob[..l], Split(glob[l + 1..r'], ','), glob[r' + 1..], maxGlobs);
    } else if |newglobs| > maxGlobs {
      r, cut := newglobs, true;
    } else {
      r := newglobs + [glob];
    }
  }

  /** One round. `bracematch` may miss a brace, but only of a glob that the cap cuts off. */
  method Round(globs: seq<string>, maxGlobs: int) returns (newglobs: seq<string>, bracematch: bool)
    ensures newglobs == Prefix(Cap(maxGlobs), StepAll(globs))
    ensures bracematch ==> !Plain(globs)
    ensures !bracematch ==> newglobs == Prefix(Cap(maxGlobs), globs) && Plain(newglobs)
  {
    newglobs, bracematch := [], false;
    ghost var n := Cap(maxGlobs);
    for i := 0 to |globs|
      invariant newglobs == Prefix(n, StepAll(globs[..i]))
      invariant bracematch <==> !Plain(globs[..i])
    {
      StepAllNext(globs, i);
      PlainNext(globs, i);
      PrefixConcat(n, StepAll(globs[..i]), Alternatives(globs[i]));
      var matched, cut;
      newglobs, matched, cut := AppendGlob(newglobs, globs[i], maxGlobs);
      if cut {
        CutShort(n, globs, i);
        return;
      }
      bracematch := bracematch || matched;
    }
    assert globs[..|globs|] == globs;
    if !bracematch { NothingToExpand(globs); }
  }

  /** The capped rounds return the first maxGlobs + 1 elements of the recursive expansion. */
  method ExpandBraces(initial: seq<string>, maxGlobs: int) returns (globs: seq<string>)
    ensures globs == Prefix(if maxGlobs < 0 then 0 else maxGlobs + 1, ExpandAll(initial))
  {
    globs := initial;
    var bracematch := true;
    while bracematch
      invariant Prefix(Cap(maxGlobs), ExpandAll(globs)) == Prefix(Cap(maxGlobs), ExpandAll(initial))
      invariant !bracematch ==> |globs| <= Cap(maxGlobs) && Plain(globs)
      decreases bracematch, Height(globs)
    {
      ghost var before := globs;
      globs, bracematch := Round(globs, maxGlobs);
      StepKeepsExpansion(before);
      CapIsHarmless(Cap(maxGlobs), StepAll(before));
      if bracematch {
        ghost var k :| 0 <= k < |before| && Brace(before[k]).Some?;
        RoundLowers(Cap(maxGlobs), before, k);
      }
    }
    NothingToExpand(globs);
  }

  // ---- Around the loop ----

  /** The query may bypass the index: no '[', no '?', and no '*' but a trailing one. */
  function UsesGlob(query: string): (r: bool)
    ensures r <==> '[' !in query && '?' !in query && forall k :: 0 <= k < |query| - 1 ==> query[k] != '*'
  {
    var star := IndexByte(query, '*');
    IndexByte(query, '[') == -1 && IndexByte(query, '?') == -1 && (star == -1 || star == |query| - 1)
  }

  /** The globs that the rounds start from: the query as a path and, unless it ends in '*', its whisper file first. */
  function Initial(query: string): (globs: seq<string>)
    ensures |globs| == if query != "" && query[|query| - 1] == '*' then 1 else 2
    ensures |globs[|globs| - 1]| == |query|
    ensures forall k :: 0 <= k < |query| ==> globs[|globs| - 1][k] == if query[k] == '.' then '/' else query[k]
    ensures |globs| == 2 ==> globs[0] == globs[1] + ".wsp"
  {
    var path := Replace(query, '.', '/');
    (if path != "" && path[|path| - 1] == '*' then [] else [path + ".wsp"]) + [path]
  }
}
