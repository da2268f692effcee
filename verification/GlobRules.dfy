/** What the single rules of filepath.Match mean for whole names. */
module GlobRules {
  import opened GlobMatch
  import Points

  predicate Plain(c: char) {
    c != '*' && c != '?' && c != '[' && c != '\\'
  }

  /** A pattern without special characters matches itself. */
  lemma {:induction false} PlainMatchesItself(p: string, name: string)
    requires forall c :: c in p ==> Plain(c)
    ensures Matches(p, name) <==> name == p
  {
    if p != "" {
      assert Plain(p[0]);
      if name != "" {
        PlainMatchesItself(p[1..], name[1..]);
        assert p == [p[0]] + p[1..] && name == [name[0]] + name[1..];
      }
    }
  }

  /** Every character behind a backslash. */
  function Quoted(s: string): string {
    if s == "" then "" else ['\\', s[0]] + Quoted(s[1..])
  }

  /** A quoted text matches itself, special characters or not. */
  lemma {:induction false} QuotedMatchesItself(s: string, name: string)
    ensures Matches(Quoted(s), name) <==> name == s
  {
    if s != "" && name != "" {
      assert Quoted(s)[2..] == Quoted(s[1..]);
      QuotedMatchesItself(s[1..], name[1..]);
      assert s == [s[0]] + s[1..] && name == [name[0]] + name[1..];
    }
  }

  /** A star takes what has no separator. */
  lemma StarMatches(name: string)
    ensures Matches("*", name) <==> '/' !in name
  {
    assert name[..|name|] == name && name[|name|..] == "";
    if '/' !in name {
      assert StarTakes(name, |name|) && Matches("*"[1..], name[|name|..]);
    }
  }

  /** A question mark takes one character that is not a separator. */
  lemma QuestionMatches(name: string)
    ensures Matches("?", name) <==> |name| == 1 && name[0] != '/'
  {
    assert "?"[1..] == "";
  }

  predicate Bound(c: char) {
    c != '-' && c != ']' && c != '\\'
  }

  lemma OneRange(lo: char, hi: char, c: char)
    requires Bound(lo) && Bound(hi)
    ensures Ranges([lo, '-', hi, ']'], c, true) == Class(lo <= c <= hi, "")
  {
    assert [lo, '-', hi, ']'][1..] == ['-', hi, ']'] && ['-', hi, ']'][1..] == [hi, ']'] && [hi, ']'][1..] == "]";
    assert Escaped([lo, '-', hi, ']']) == Points.Some((lo, ['-', hi, ']']));
    assert Escaped([hi, ']']) == Points.Some((hi, "]"));
    assert Ranges("]", c, false) == Class(false, "");
  }

  /** A pattern that is one class. */
  lemma OneClass(p: string, name: string, has: bool)
    requires p != "" && p[0] == '[' && (name != "" ==> ClassAt(p[1..], name[0]) == Class(has, ""))
    ensures Matches(p, name) <==> |name| == 1 && has
  {
  }

  /** A class with one range takes one character in it. */
  lemma RangeMatches(lo: char, hi: char, name: string)
    requires Bound(lo) && Bound(hi) && lo != '^'
    ensures Matches(['[', lo, '-', hi, ']'], name) <==> |name| == 1 && lo <= name[0] <= hi
  {
    var p := ['[', lo, '-', hi, ']'];
    assert p[1..] == [lo, '-', hi, ']'];
    if name != "" { OneRange(lo, hi, name[0]); }
    OneClass(p, name, name != "" && lo <= name[0] <= hi);
  }

  /** With a '^' it takes one character outside. */
  lemma NegatedMatches(lo: char, hi: char, name: string)
    requires Bound(lo) && Bound(hi)
    ensures Matches(['[', '^', lo, '-', hi, ']'], name) <==> |name| == 1 && !(lo <= name[0] <= hi)
  {
    var p := ['[', '^', lo, '-', hi, ']'];
    assert p[1..] == ['^', lo, '-', hi, ']'] && p[1..][1..] == [lo, '-', hi, ']'];
    if name != "" { OneRange(lo, hi, name[0]); }
    OneClass(p, name, name != "" && !(lo <= name[0] <= hi));
  }

  /** A class of single characters takes exactly one of them. */
  lemma {:induction false} SinglesAre(s: string, c: char, first: bool)
    requires (first ==> s != "") && forall d :: d in s ==> Bound(d)
    ensures Ranges(s + "]", c, first) == Class(c in s, "")
  {
    var p := s + "]";
    if s == "" {
      assert p == "]";
    } else {
      assert p[1..] == s[1..] + "]" && s == [s[0]] + s[1..];
      assert Bound(s[0]) && (s[1..] != "" ==> Bound(s[1]));
      assert Escaped(p) == Points.Some((s[0], p[1..]));
      SinglesAre(s[1..], c, false);
    }
  }

  lemma SinglesMatch(s: string, name: string)
    requires s != "" && s[0] != '^' && forall d :: d in s ==> Bound(d)
    ensures Matches("[" + (s + "]"), name) <==> |name| == 1 && name[0] in s
  {
    var p := "[" + (s + "]");
    assert p[1..] == s + "]";
    if name != "" { SinglesAre(s, name[0], true); }
    OneClass(p, name, name != "" && name[0] in s);
  }
}
