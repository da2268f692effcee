/**
  The trigram index of carbonserver: extractTrigrams and the index lookup in expandGlobs
  (carbonserver/carbonserver.go). The trigram library's QueryTrigrams is a parameter with an assumed
  contract.
 */
module Trigrams {
  import opened GoStrings
  import opened GlobMatch

  // ---- The trigrams of a glob ----

  predicate Special(c: char) {
    c == '[' || c == '*' || c == '?'
  }

  /** Position `k` is in a class: after its '[', up to and including the first ']'. */
  predicate Inside(g: string, k: nat)
    requires k <= |g|
  {
    k > 0 && if Inside(g, k - 1) then g[k - 1] != ']' else g[k - 1] == '['
  }

  /** The character at position `k` stands for itself. */
  predicate Literal(g: string, k: int) {
    0 <= k < |g| && !Inside(g, k) && !Special(g[k])
  }

  function TrigramAt(s: string, k: int): string
    requires 0 <= k <= |s| - 3
  {
    s[k..k + 3]
  }

  /** `t` is at position `k` of the glob, and its three characters are literal. */
  ghost predicate LiteralAt(g: string, k: int, t: string) {
    0 <= k <= |g| - 3 && t == TrigramAt(g, k) && Literal(g, k) && Literal(g, k + 1) && Literal(g, k + 2)
  }

  ghost predicate GlobHas(g: string, t: string) {
    exists k :: LiteralAt(g, k, t)
  }

  /** `t` is at position `k` of a plain string. */
  ghost predicate IsAt(s: string, k: int, t: string) {
    0 <= k <= |s| - 3 && t == TrigramAt(s, k)
  }

  /** trigram.Extract: appends the trigrams of `s` that are not in the list yet. */
  method Extract(s: string, trigrams: seq<string>) returns (r: seq<string>)
    ensures forall t :: t in r <==> t in trigrams || exists k :: IsAt(s, k, t)
  {
    r := trigrams;
    var i := 0;
    while i <= |s| - 3
      invariant 0 <= i && (i <= |s| - 2 || i == 0)
      invariant forall t :: t in r <==> t in trigrams || exists k :: k < i && IsAt(s, k, t)
    {
      ghost var before := r;
      if TrigramAt(s, i) !in r {
        r := r + [TrigramAt(s, i)];
      }
      assert IsAt(s, i, TrigramAt(s, i));
      i := i + 1;
    }
  }

  /** The trigrams that end before position `start`. */
  ghost predicate HasBefore(g: string, start: int, t: string) {
    exists k :: k + 3 <= start && LiteralAt(g, k, t)
  }

  lemma SliceOfSlice(g: string, start: nat, at: nat, k: nat)
    requires start <= at <= |g| && start + k + 3 <= at
    ensures g[start..at][k..k + 3] == g[start + k..start + k + 3]
  {
    var a, b := g[start..at][k..k + 3], g[start + k..start + k + 3];
    forall i | 0 <= i < 3
      ensures a[i] == b[i]
    {
      assert a[i] == g[start..at][k + i] == g[start + k + i];
    }
  }

  /** A literal trigram that ends before `next` was there before, or is in the stretch. */
  lemma InStretch(g: string, start: nat, at: nat, next: nat, k: int, t: string)
    requires start <= at < next && at <= |g|
    requires start > 0 ==> !Literal(g, start - 1)
    requires forall i :: at <= i < next ==> !Literal(g, i)
    requires k + 3 <= next && LiteralAt(g, k, t)
    ensures k + 3 <= start || IsAt(g[start..at], k - start, t)
  {
    assert Literal(g, k) && Literal(g, k + 1) && Literal(g, k + 2);
    assert k + 2 < at;
    assert start > 0 ==> k != start - 1 && k + 1 != start - 1;
    if k + 3 > start { SliceOfSlice(g, start, at, k - start); }
  }

  lemma OfStretch(g: string, start: nat, at: nat, k: int, t: string)
    requires start <= at <= |g| && IsAt(g[start..at], k, t)
    requires forall i :: start <= i < at ==> Literal(g, i)
    ensures LiteralAt(g, start + k, t)
  {
    SliceOfSlice(g, start, at, k);
  }

  /** A maximal literal stretch is done; nothing literal follows it before `next`. */
  lemma StretchDone(g: string, start: nat, at: nat, next: nat, t: string)
    requires start <= at < next && at <= |g|
    requires start > 0 ==> !Literal(g, start - 1)
    requires forall k :: start <= k < at ==> Literal(g, k)
    requires forall k :: at <= k < next ==> !Literal(g, k)
    ensures HasBefore(g, next, t) <==> HasBefore(g, start, t) || exists k :: IsAt(g[start..at], k, t)
  {
    if HasBefore(g, next, t) {
      var k :| k + 3 <= next && LiteralAt(g, k, t);
      InStretch(g, start, at, next, k, t);
    }
    if exists k :: IsAt(g[start..at], k, t) {
      var k :| IsAt(g[start..at], k, t);
      OfStretch(g, start, at, k, t);
    }
  }

  /** The inner loop, which looks for the ']'. */
  method SkipClass(query: string, from: nat) returns (i: nat)
    requires from < |query| && query[from] == '[' && !Inside(query, from)
    ensures from < i <= |query| && forall k :: from < k <= i ==> Inside(query, k)
    ensures i < |query| ==> query[i] == ']'
  {
    i := from;
    while i < |query| && query[i] != ']'
      invariant from <= i <= |query|
      invariant forall k :: from < k <= i ==> Inside(query, k)
    {
      i := i + 1;
    }
  }

  /** What the loop keeps: all trigrams before `start` are found, and from there to `i` all is literal. */
  ghost predicate Scanned(query: string, start: nat, i: nat, trigrams: seq<string>) {
    && start <= i <= |query| + 1 && (i > |query| ==> start == i) && (i <= |query| ==> !Inside(query, i))
    && (start > 0 ==> !Literal(query, start - 1))
    && (forall k :: start <= k < i ==> Literal(query, k))
    && (forall t :: t in trigrams <==> HasBefore(query, start, t))
  }

  /** The loop body at a special character. */
  method EndStretch(query: string, start: nat, at: nat, trigrams: seq<string>) returns (r: seq<string>, i: nat)
    requires Scanned(query, start, at, trigrams) && at < |query| && Special(query[at])
    ensures at <= i <= |query| && Scanned(query, i + 1, i + 1, r)
  {
    r := Extract(query[start..at], trigrams);
    i := at;
    if query[at] == '[' {
      i := SkipClass(query, at);
    }
    assert forall k :: at <= k < i + 1 ==> !Literal(query, k);
    forall t
      ensures t in r <==> HasBefore(query, i + 1, t)
    {
      StretchDone(query, start, at, i + 1, t);
    }
  }

  /** The last stretch; every slice is in bounds, also after an unclosed '['. */
  method LastStretch(query: string, start: nat, i: nat, trigrams: seq<string>) returns (r: seq<string>)
    requires Scanned(query, start, i, trigrams) && i >= |query|
    ensures forall t :: t in r <==> GlobHas(query, t)
  {
    forall t
      ensures GlobHas(query, t) <==> HasBefore(query, i, t)
      ensures GlobHas(query, t) <==> HasBefore(query, i + 1, t)
    {
      if k :| LiteralAt(query, k, t) {
        assert k + 3 <= i;
      }
    }
    r := trigrams;
    if start < i {
      r := Extract(query[start..i], trigrams);
      forall t
        ensures t in r <==> GlobHas(query, t)
      {
        StretchDone(query, start, i, i + 1, t);
      }
    }
  }

  /** extractTrigrams: the trigrams whose three characters stand for themselves, next to each other. */
  method ExtractTrigrams(query: string) returns (trigrams: seq<string>)
    ensures forall t :: t in trigrams <==> GlobHas(query, t)
  {
    if |query| < 3 {
      return [];
    }
    trigrams := [];
    var start, i := 0, 0;
    while i < |query|
      invariant Scanned(query, start, i, trigrams)
      decreases |query| + 1 - i
    {
      if query[i] == '[' || query[i] == '*' || query[i] == '?' {
        trigrams, i := EndStretch(query, start, i, trigrams);
        start := i + 1;
      }
      i := i + 1;
    }
    trigrams := LastStretch(query, start, i, trigrams);
  }

  // ---- Matching names contain the trigrams ----

  /** Outside of a class, a suffix of the glob is read as the glob itself. */
  lemma {:induction false} InsideSuffix(g: string, j: nat, k: nat)
    requires j + k <= |g| && !Inside(g, j)
    ensures Inside(g[j..], k) == Inside(g, j + k)
  {
    if k > 0 { InsideSuffix(g, j, k - 1); }
  }

  lemma LiteralSuffix(g: string, j: nat, k: int, t: string)
    requires j <= k && j <= |g| && !Inside(g, j) && LiteralAt(g, k, t)
    ensures LiteralAt(g[j..], k - j, t)
  {
    InsideSuffix(g, j, k - j);
    InsideSuffix(g, j, k + 1 - j);
    InsideSuffix(g, j, k + 2 - j);
  }

  /** The position after the first ']', or the length. */
  function AfterBracket(g: string): (i: nat)
    ensures i <= |g|
  {
    var c := IndexByte(g, ']');
    if c == -1 then |g| else c + 1
  }

  lemma BracketLater(p: string)
    requires p != "" && p[0] != ']'
    ensures AfterBracket(p) == AfterBracket(p[1..]) + 1
  {
  }

  /** Without backslashes a well-formed class is closed by the first ']'. */
  lemma {:induction false} ClosedByFirst(p: string, c: char, first: bool)
    requires '\\' !in p && Ranges(p, c, first).Class?
    ensures Ranges(p, c, first).rest == p[AfterBracket(p)..] && ']' in p
    decreases |p|
  {
    if p[0] == ']' && !first {
      assert IndexByte(p, ']') == 0;
    } else {
      var (lo, p1) := Escaped(p).value;
      assert p[0] in p && p1 == p[1..];
      BracketLater(p);
      if p1[0] != '-' {
        ClosedByFirst(p1, c, false);
      } else {
        var (hi, p2) := Escaped(p1[1..]).value;
        assert p1[1] in p && p2 == p1[1..][1..];
        ClosedByFirst(p2, c, false);
        BracketLater(p1[1..]);
        BracketLater(p1);
      }
    }
  }

  /** What follows the class at the start of a glob, and where it is. */
  lemma ClassEnds(g: string, c: char)
    requires '\\' !in g && g != "" && g[0] == '[' && ClassAt(g[1..], c).Class?
    ensures ']' in g[1..] && ClassAt(g[1..], c).rest == g[1 + AfterBracket(g[1..])..]
  {
    var p := g[1..];
    if p[0] == '^' {
      ClosedByFirst(p[1..], c, true);
      BracketLater(p);
    } else {
      ClosedByFirst(p, c, true);
    }
  }

  lemma {:induction false} InsideClass(g: string, k: nat)
    requires g != "" && g[0] == '[' && 0 < k <= |g| && ']' !in g[1..k]
    ensures Inside(g, k)
  {
    if k > 1 {
      assert g[1..k] == g[1..k - 1] + [g[k - 1]];
      InsideClass(g, k - 1);
    }
  }

  /** No position of the class is literal, and what follows it is outside. */
  lemma NothingInClass(g: string, k: nat)
    requires g != "" && g[0] == '[' && ']' in g[1..] && k <= 1 + AfterBracket(g[1..])
    ensures k < 1 + AfterBracket(g[1..]) ==> !Literal(g, k)
    ensures k == 1 + AfterBracket(g[1..]) ==> !Inside(g, k)
  {
    var c := IndexByte(g[1..], ']');
    var j := if k == c + 2 then k - 1 else k;
    if j > 0 {
      assert g[1..j] == g[1..][..j - 1] <= g[1..][..c];
      InsideClass(g, j);
    }
    assert g[1..][c] == g[c + 1];
  }

  /** The globs whose literal stretches are read as extractTrigrams reads them. */
  predicate Readable(g: string) {
    '[' !in g || '\\' !in g
  }

  lemma {:induction false} OutsideWithoutClass(g: string, k: nat)
    requires k <= |g| && '[' !in g
    ensures !Inside(g, k)
  {
    if k > 0 { OutsideWithoutClass(g, k - 1); }
  }

  /** A trigram past the first `j` characters, which are not in a class. */
  lemma Past(g: string, j: nat, k: int, t: string)
    requires j <= k && Readable(g) && LiteralAt(g, k, t) && !Inside(g, j)
    ensures LiteralAt(g[j..], k - j, t) && Readable(g[j..])
  {
    LiteralSuffix(g, j, k, t);
  }

  lemma AfterClass(g: string, c: char, k: int, t: string) returns (j: nat)
    requires Readable(g) && LiteralAt(g, k, t) && g[0] == '[' && ClassAt(g[1..], c).Class?
    ensures 0 < j <= k && ClassAt(g[1..], c).rest == g[j..] && !Inside(g, j)
  {
    assert g[0] in g;
    ClassEnds(g, c);
    j := 1 + AfterBracket(g[1..]);
    if k < j { NothingInClass(g, k); }
    NothingInClass(g, j);
  }

  /** Where the match goes on after its first character, if the trigram comes later. */
  lemma NextOf(g: string, name: string, k: int, t: string) returns (j: nat, i: nat)
    requires Readable(g) && '\\' !in t && Matches(g, name) && LiteralAt(g, k, t) && (k == 0 ==> Special(g[0]))
    ensures 0 < j <= k && !Inside(g, j) && i <= |name| && Matches(g[j..], name[i..])
  {
    assert g[0] in g && g[k] == t[0] && t[0] in t;
    if g[0] == '*' {
      i :| StarTakes(name, i) && Matches(g[1..], name[i..]);
      j := 1;
    } else if g[0] == '[' {
      j := AfterClass(g, name[0], k, t);
      i := 1;
    } else if g[0] == '\\' {
      OutsideWithoutClass(g, 1);
      OutsideWithoutClass(g, 2);
      if g[1] == '\\' || Special(g[1]) {
        j, i := 2, 1;
      } else {
        j, i := 1, 0;
        assert name[0..] == name && g[1..][1..] == g[2..];
      }
    } else {
      j, i := 1, 1;
      assert !Inside(g, 0);
    }
  }

  lemma {:induction false} MatchHasTrigram(g: string, name: string, k: int, t: string)
    requires Readable(g) && '\\' !in t && Matches(g, name) && LiteralAt(g, k, t)
    ensures Occurs(t, name)
    decreases |g|
  {
    if k == 0 && !Special(g[0]) {
      ThreeLiterals(g, name, t);
      assert OccursAt(t, name, 0);
    } else {
      var j, i := NextOf(g, name, k, t);
      Past(g, j, k, t);
      MatchHasTrigram(g[j..], name[i..], k - j, t);
      OccursLater(t, name, i);
    }
  }

  lemma ThreeLiterals(g: string, name: string, t: string)
    requires '\\' !in t && Matches(g, name) && LiteralAt(g, 0, t)
    ensures |name| >= 3 && name[0..3] == t
  {
    assert t[0] in t && t[1] in t && t[2] in t;
    var g1, n1 := g[1..], name[1..];
    assert Matches(g1, n1) && g1[0] == g[1];
    var g2, n2 := g1[1..], n1[1..];
    assert Matches(g2, n2) && g2[0] == g[2];
    assert n2 != "" && n2[0] == g[2];
  }

  /** A path that matches "/" + g has every literal trigram of g that has no backslash. */
  lemma PathHasTrigrams(g: string, path: string, t: string)
    requires Readable(g) && '\\' !in t && Matches("/" + g, path) && GlobHas(g, t)
    ensures Occurs(t, path)
  {
    var k :| LiteralAt(g, k, t);
    assert ("/" + g)[1..] == g;
    MatchHasTrigram(g, path[1..], k, t);
    OccursLater(t, path, 1);
  }

  /** The trigrams of the glob are in every path that it matches. */
  ghost predicate Safe(g: string) {
    forall t :: GlobHas(g, t) ==> !CanAvoid("/" + g, t, 0)
  }

  lemma TrigramOfGlob(g: string, t: string)
    requires GlobHas(g, t)
    ensures |t| == 3 && forall c :: c in t ==> c in g
  {
    var k :| LiteralAt(g, k, t);
  }

  /** A glob without a class is safe up to its trigrams with a backslash, and any other one if it has no backslash. */
  lemma WhenSafe(g: string)
    requires Readable(g)
    ensures forall t :: GlobHas(g, t) && '\\' !in t ==> !CanAvoid("/" + g, t, 0)
    ensures '\\' !in g ==> Safe(g)
  {
    forall t | GlobHas(g, t)
      ensures '\\' !in t ==> !CanAvoid("/" + g, t, 0)
      ensures '\\' !in g ==> '\\' !in t
    {
      TrigramOfGlob(g, t);
      if '\\' !in t {
        forall path | Matches("/" + g, path)
          ensures Occurs(t, path)
        {
          PathHasTrigrams(g, path, t);
        }
        InEveryMatch("/" + g, t);
      }
    }
  }

  // ---- The lookup ----

  /** The assumed contract of QueryTrigrams: known documents, among them all that contain the given trigrams. */
  ghost predicate QueryContract(files: seq<string>, query: seq<string> -> seq<nat>) {
    forall ts: seq<string> ::
      && (forall id :: id in query(ts) ==> id < |files|)
      && (forall id :: 0 <= id < |files| && (forall t :: t in ts ==> Occurs(t, files[id])) ==> id in query(ts))
  }

  /** The documents that some of the first `n` globs match. */
  ghost predicate Found(files: seq<string>, globs: seq<string>, n: nat, id: nat)
    requires n <= |globs|
  {
    exists k :: 0 <= k < n && IsHit(files, "/" + globs[k], id)
  }

  ghost predicate IsHit(files: seq<string>, gpath: string, id: nat) {
    id < |files| && Matches(gpath, files[id])
  }

  /** The loop over one glob's candidates. */
  method MatchCandidates(files: seq<string>, ids: seq<nat>, gpath: string, matcher: (string, string) -> bool,
                         docs: set<nat>)
    returns (r: set<nat>)
    requires forall id :: id in ids ==> id < |files|
    requires forall name :: matcher(gpath, name) <==> Matches(gpath, name)
    ensures forall id :: id in r <==> id in docs || (id in ids && IsHit(files, gpath, id))
  {
    r := docs;
    for k := 0 to |ids|
      invariant forall id :: id in r <==> id in docs || (id in ids[..k] && IsHit(files, gpath, id))
    {
      assert ids[..k + 1] == ids[..k] + [ids[k]];
      assert ids[k] in ids;
      if ids[k] !in r && matcher(gpath, files[ids[k]]) {
        r := r + {ids[k]};
      }
    }
    assert ids[..|ids|] == ids;
  }

  /** The trigrams of a glob. */
  ghost predicate TrigramsOf(g: string, ts: seq<string>) {
    forall t :: t in ts <==> GlobHas(g, t)
  }

  /** The index leaves no match of a safe glob out. */
  lemma HitsAreCandidates(files: seq<string>, query: seq<string> -> seq<nat>, g: string, ts: seq<string>)
    requires QueryContract(files, query) && Safe(g) && TrigramsOf(g, ts)
    ensures forall id :: IsHit(files, "/" + g, id) ==> id in query(ts)
  {
    forall id: nat | IsHit(files, "/" + g, id)
      ensures id in query(ts)
    {
      forall t | t in ts
        ensures Occurs(t, files[id])
      {
        TrigramOfGlob(g, t);
        InEveryMatch("/" + g, t);
      }
    }
  }

  /** The index of one file that knows exactly which texts are in it. */
  ghost function OneFile(path: string): seq<string> -> seq<nat> {
    ts => if forall t :: t in ts ==> Occurs(t, path) then [0] else []
  }

  /** A glob that is not safe matches a file that the index does not give. */
  lemma UnsafeMisses(g: string) returns (path: string)
    requires !Safe(g)
    ensures QueryContract([path], OneFile(path)) && IsHit([path], "/" + g, 0)
    ensures forall ts :: TrigramsOf(g, ts) ==> 0 !in OneFile(path)(ts)
  {
    var t;
    t, path := AvoidedTrigram(g);
    OneFileIsIndex(path);
    forall ts | TrigramsOf(g, ts)
      ensures 0 !in OneFile(path)(ts)
    {
      assert t in ts;
    }
  }

  lemma OneFileIsIndex(path: string)
    ensures QueryContract([path], OneFile(path))
  {
  }

  lemma AvoidedTrigram(g: string) returns (t: string, path: string)
    requires !Safe(g)
    ensures GlobHas(g, t) && Matches("/" + g, path) && !Occurs(t, path)
  {
    t :| GlobHas(g, t) && CanAvoid("/" + g, t, 0);
    TrigramOfGlob(g, t);
    InEveryMatch("/" + g, t);
    path :| Matches("/" + g, path) && !Occurs(t, path);
  }

  /** The loop body for one glob. */
  method SearchGlob(files: seq<string>, g: string, query: seq<string> -> seq<nat>, matcher: (string, string) -> bool,
                    docs: set<nat>)
    returns (r: set<nat>, ghost ts: seq<string>)
    requires QueryContract(files, query)
    requires forall p, name :: matcher(p, name) <==> Matches(p, name)
    ensures TrigramsOf(g, ts)
    ensures forall id :: id in r <==> id in docs || (id in query(ts) && IsHit(files, "/" + g, id))
  {
    var trigrams := ExtractTrigrams(g);
    ts := trigrams;
    var ids := query(trigrams);
    r := MatchCandidates(files, ids, "/" + g, matcher, docs);
  }

  /** Some of the first `n` globs matches the document, and the index gives it for that glob's trigrams. */
  ghost predicate Indexed(files: seq<string>, globs: seq<string>, query: seq<string> -> seq<nat>, tss: seq<seq<string>>,
                          n: nat, id: nat)
    requires n <= |globs| && n <= |tss|
  {
    exists k :: 0 <= k < n && IsHit(files, "/" + globs[k], id) && id in query(tss[k])
  }

  /** What the index search finds; if all globs are safe, this is exactly what a linear scan finds. */
  method IndexSearch(files: seq<string>, globs: seq<string>, query: seq<string> -> seq<nat>,
                     matcher: (string, string) -> bool)
    returns (docs: set<nat>, ghost tss: seq<seq<string>>)
    requires QueryContract(files, query)
    requires forall p, name :: matcher(p, name) <==> Matches(p, name)
    ensures |tss| == |globs| && forall k :: 0 <= k < |globs| ==> TrigramsOf(globs[k], tss[k])
    ensures forall id :: id in docs <==> Indexed(files, globs, query, tss, |globs|, id)
    ensures (forall g :: g in globs ==> Safe(g)) ==> forall id :: id in docs <==> Found(files, globs, |globs|, id)
  {
    docs, tss := {}, [];
    for n := 0 to |globs|
      invariant |tss| == n && forall k :: 0 <= k < n ==> TrigramsOf(globs[k], tss[k])
      invariant forall id :: id in docs <==> Indexed(files, globs, query, tss, n, id)
    {
      ghost var ts;
      docs, ts := SearchGlob(files, globs[n], query, matcher, docs);
      tss := tss + [ts];
    }
    if forall g :: g in globs ==> Safe(g) {
      AllIndexed(files, globs, query, tss);
    }
  }

  lemma AllIndexed(files: seq<string>, globs: seq<string>, query: seq<string> -> seq<nat>, tss: seq<seq<string>>)
    requires QueryContract(files, query) && |tss| == |globs| && forall g :: g in globs ==> Safe(g)
    requires forall k :: 0 <= k < |globs| ==> TrigramsOf(globs[k], tss[k])
    ensures forall id :: Found(files, globs, |globs|, id) ==> Indexed(files, globs, query, tss, |globs|, id)
  {
    forall k | 0 <= k < |globs|
      ensures forall id :: IsHit(files, "/" + globs[k], id) ==> id in query(tss[k])
    {
      assert globs[k] in globs;
      HitsAreCandidates(files, query, globs[k], tss[k]);
    }
  }
}
