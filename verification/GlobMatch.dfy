/**
  filepath.Match by its documented rules, one character a byte, and which texts are in every name that
  a pattern matches.
 */
module GlobMatch {
  import opened Points

  // ---- The rules ----

  /** A character of a class, possibly escaped, and what follows it; something must follow. */
  function Escaped(p: string): (r: Option<(char, string)>)
    ensures r.Some? ==> |r.value.1| < |p| && r.value.1 != ""
  {
    if p == "" || p[0] == '-' || p[0] == ']' then None
    else
      var q := if p[0] == '\\' then p[1..] else p;
      if |q| < 2 then None else Some((q[0], q[1..]))
  }

  datatype Class = Malformed | Class(has: bool, rest: string)

  /** The ranges of a class up to its ']', and whether `c` is in one of them. */
  function Ranges(p: string, c: char, first: bool): (r: Class)
    ensures r.Class? ==> |r.rest| < |p|
    decreases |p|
  {
    if p != "" && p[0] == ']' && !first then Class(false, p[1..])
    else match Escaped(p)
      case None => Malformed
      case Some((lo, p1)) =>
        if p1[0] != '-' then WithRange(lo <= c <= lo, Ranges(p1, c, false))
        else match Escaped(p1[1..])
          case None => Malformed
          case Some((hi, p2)) => WithRange(lo <= c <= hi, Ranges(p2, c, false))
  }

  function WithRange(has: bool, r: Class): Class {
    if r.Malformed? then r else Class(has || r.has, r.rest)
  }

  /** What follows '[': the class accepts `c` if exactly one of its ranges and its '^' says so. */
  function ClassAt(p: string, c: char): (r: Class)
    ensures r.Class? ==> |r.rest| < |p|
  {
    if p != "" && p[0] == '^' then
      var r := Ranges(p[1..], c, true);
      if r.Malformed? then r else Class(!r.has, r.rest)
    else Ranges(p, c, true)
  }

  /** The name matches the whole pattern, which is well formed. */
  ghost predicate Matches(p: string, name: string)
    decreases |p|
  {
    if p == "" then name == ""
    else if p[0] == '*' then exists k :: StarTakes(name, k) && Matches(p[1..], name[k..])
    else if name == "" then false
    else if p[0] == '?' then name[0] != '/' && Matches(p[1..], name[1..])
    else if p[0] == '[' then
      var chars := ClassAt(p[1..], name[0]);
      chars.Class? && chars.has && Matches(chars.rest, name[1..])
    else if p[0] == '\\' then |p| > 1 && name[0] == p[1] && Matches(p[2..], name[1..])
    else name[0] == p[0] && Matches(p[1..], name[1..])
  }

  predicate StarTakes(name: string, k: int) {
    0 <= k <= |name| && '/' !in name[..k]
  }

  // ---- Names that avoid a text ----

  ghost predicate OccursAt(t: string, s: string, k: int) {
    0 <= k <= |s| - |t| && s[k..k + |t|] == t
  }

  ghost predicate Occurs(t: string, s: string) {
    exists k :: OccursAt(t, s, k)
  }

  lemma OccursLater(t: string, s: string, k: nat)
    requires k <= |s| && Occurs(t, s[k..])
    ensures Occurs(t, s)
  {
    var j :| OccursAt(t, s[k..], j);
    assert OccursAt(t, s, k + j);
  }

  lemma OccursSooner(t: string, s: string, k: nat, j: int)
    requires k <= j && OccursAt(t, s, j)
    ensures OccursAt(t, s[k..], j - k)
  {
    assert s[j..j + |t|] == s[k..][j - k..j - k + |t|];
  }

  /** The longest start of `t`, of at most `n` characters, that `u` ends with. */
  function Overlap(t: string, u: string, n: nat): (k: nat)
    requires n <= |t| && n <= |u|
    ensures k <= n && t[..k] == u[|u| - k..]
    ensures forall j :: k < j <= n ==> t[..j] != u[|u| - j..]
  {
    if n == 0 || t[..n] == u[|u| - n..] then n else Overlap(t, u, n - 1)
  }

  /** How much of `t` has been read after another character. */
  function Step(t: string, s: nat, c: char): (k: nat)
    requires s < |t|
    ensures k <= s + 1
  {
    Overlap(t, t[..s] + [c], s + 1)
  }

  lemma StepEndsWith(t: string, s: nat, c: char)
    requires s < |t|
    ensures Step(t, s, c) > 0 ==> c in t
  {
    var u, k := t[..s] + [c], Step(t, s, c);
    if k > 0 {
      assert t[..k][k - 1] == u[|u| - k..][k - 1];
    }
  }

  lemma Crossing(t: string, u: string, w: string, j: nat)
    requires j <= |u| <= j + |t| && OccursAt(t, u + w, j)
    ensures t[..|u| - j] == u[j..]
  {
    forall i | 0 <= i < |u| - j
      ensures t[i] == u[j..][i]
    {
      assert (u + w)[j..j + |t|][i] == (u + w)[j + i];
    }
  }

  /** An occurrence that begins before the overlap would make it longer. */
  lemma NotBefore(t: string, u: string, w: string, n: nat, j: nat)
    requires n == |u| <= |t| && OccursAt(t, u + w, j)
    ensures |u| - j <= Overlap(t, u, n)
  {
    if j <= |u| { Crossing(t, u, w, j); }
  }

  lemma CutDown(t: string, s: nat, c: char, w: string)
    requires s < |t|
    ensures (t[..s] + [c] + w)[s + 1 - Step(t, s, c)..] == t[..Step(t, s, c)] + w
  {
    var u, k := t[..s] + [c], Step(t, s, c);
    assert u == u[..|u| - k] + t[..k];
  }

  /** What has been read can be cut down to its overlap with `t`. */
  lemma Forget(t: string, s: nat, c: char, w: string)
    requires s < |t|
    ensures Occurs(t, t[..s] + [c] + w) <==> Occurs(t, t[..Step(t, s, c)] + w)
  {
    var x, cut := t[..s] + [c] + w, s + 1 - Step(t, s, c);
    CutDown(t, s, c, w);
    if Occurs(t, x[cut..]) {
      OccursLater(t, x, cut);
    } else if j :| OccursAt(t, x, j) {
      NotBefore(t, t[..s] + [c], w, s + 1, j);
      OccursSooner(t, x, cut, j);
    }
  }

  predicate Accepts(p: string, c: char) {
    ClassAt(p, c).Class? && ClassAt(p, c).has
  }

  /** The pattern can be matched without reading the rest of `t`, of which `s` characters have been read. */
  predicate CanAvoid(p: string, t: string, s: nat)
    requires s < |t|
    decreases |p|, 0
  {
    if p == "" then true
    else if p[0] == '*' || p[0] == '?' then CanAvoid(p[1..], t, 0)
    else if p[0] == '[' then exists c :: Accepts(p[1..], c) && AvoidAfter(c, ClassAt(p[1..], c).rest, t, s)
    else if p[0] == '\\' then |p| > 1 && AvoidAfter(p[1], p[2..], t, s)
    else AvoidAfter(p[0], p[1..], t, s)
  }

  predicate AvoidAfter(c: char, p: string, t: string, s: nat)
    requires s < |t|
    decreases |p|, 1
  {
    Step(t, s, c) < |t| && CanAvoid(p, t, Step(t, s, c))
  }

  lemma NotRead(t: string, s: nat, name: string)
    requires s < |t| && name != "" && !Occurs(t, t[..s] + name)
    ensures Step(t, s, name[0]) < |t| && !Occurs(t, t[..Step(t, s, name[0])] + name[1..])
  {
    var c, w := name[0], name[1..];
    assert t[..s] + name == t[..s] + [c] + w;
    Forget(t, s, c, w);
    if Step(t, s, c) == |t| { assert OccursAt(t, t[..|t|] + w, 0); }
  }

  lemma NotLater(t: string, s: nat, name: string, k: nat)
    requires s < |t| && k <= |name| && !Occurs(t, t[..s] + name)
    ensures !Occurs(t, t[..0] + name[k..])
  {
    assert (t[..s] + name)[s + k..] == name[k..] == t[..0] + name[k..];
    if Occurs(t, name[k..]) { OccursLater(t, t[..s] + name, s + k); }
  }

  lemma {:induction false} AvoidedByName(p: string, name: string, t: string, s: nat)
    requires s < |t| && Matches(p, name) && !Occurs(t, t[..s] + name)
    ensures CanAvoid(p, t, s)
    decreases |p|
  {
    if p == "" {
    } else if p[0] == '*' {
      var k :| StarTakes(name, k) && Matches(p[1..], name[k..]);
      NotLater(t, s, name, k);
      AvoidedByName(p[1..], name[k..], t, 0);
    } else if p[0] == '?' {
      NotLater(t, s, name, 1);
      AvoidedByName(p[1..], name[1..], t, 0);
    } else {
      NotRead(t, s, name);
      var c, w := name[0], name[1..];
      if p[0] == '[' {
        AvoidedByName(ClassAt(p[1..], c).rest, w, t, Step(t, s, c));
        assert Accepts(p[1..], c) && AvoidAfter(c, ClassAt(p[1..], c).rest, t, s);
      } else {
        AvoidedByName(if p[0] == '\\' then p[2..] else p[1..], w, t, Step(t, s, c));
      }
    }
  }

  /** A character for the wildcards. */
  function Filler(t: string): (c: char)
    requires |t| == 3
    ensures c !in t && c != '/'
  {
    assert t == [t[0], t[1], t[2]];
    if '0' !in t then '0' else if '1' !in t then '1' else if '2' !in t then '2' else '3'
  }

  /** The character that a matching name goes on with, and the rest of the pattern. */
  lemma Choose(p: string, t: string, s: nat) returns (c: char, rest: string)
    requires |t| == 3 && s < 3 && p != "" && CanAvoid(p, t, s)
    ensures |rest| < |p| && AvoidAfter(c, rest, t, s)
    ensures forall w :: Matches(rest, w) ==> Matches(p, [c] + w)
  {
    if p[0] == '*' || p[0] == '?' {
      c, rest := Filler(t), p[1..];
      StepEndsWith(t, s, c);
    } else if p[0] == '[' {
      c :| Accepts(p[1..], c) && AvoidAfter(c, ClassAt(p[1..], c).rest, t, s);
      rest := ClassAt(p[1..], c).rest;
    } else {
      c, rest := if p[0] == '\\' then p[1] else p[0], if p[0] == '\\' then p[2..] else p[1..];
    }
    forall w | Matches(rest, w)
      ensures Matches(p, [c] + w)
    {
      assert ([c] + w)[1..] == w;
      if p[0] == '*' { assert StarTakes([c] + w, 1); }
    }
  }

  lemma StillAvoided(t: string, s: nat, c: char, w: string)
    requires s < |t| && !Occurs(t, t[..Step(t, s, c)] + w)
    ensures !Occurs(t, t[..s] + ([c] + w))
  {
    Forget(t, s, c, w);
    assert t[..s] + ([c] + w) == t[..s] + [c] + w;
  }

  lemma {:induction false} AvoidingName(p: string, t: string, s: nat) returns (name: string)
    requires |t| == 3 && s < 3 && CanAvoid(p, t, s)
    ensures Matches(p, name) && !Occurs(t, t[..s] + name)
    decreases |p|
  {
    if p == "" {
      name := "";
    } else {
      var c, rest := Choose(p, t, s);
      var w := AvoidingName(rest, t, Step(t, s, c));
      StillAvoided(t, s, c, w);
      name := [c] + w;
    }
  }

  /** A text of three characters is in every matching name if and only if the pattern cannot avoid it. */
  lemma InEveryMatch(p: string, t: string)
    requires |t| == 3
    ensures (forall name :: Matches(p, name) ==> Occurs(t, name)) <==> !CanAvoid(p, t, 0)
  {
    if CanAvoid(p, t, 0) {
      var name := AvoidingName(p, t, 0);
      assert t[..0] + name == name;
    } else {
      forall name | Matches(p, name)
        ensures Occurs(t, name)
      {
        assert t[..0] + name == name;
        if !Occurs(t, name) { AvoidedByName(p, name, t, 0); }
      }
    }
  }
}
