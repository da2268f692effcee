/** A query whose file the index search misses: brace expansion and the trigram index together. */
module IndexGap {
  import opened Braces
  import opened GlobMatch
  import opened Trigrams

  const QUERY := "ab\\c?"
  const FILE := "/abcd.wsp"

  /** The globs of the query; a cap of at least one keeps both. */
  lemma GlobsOfQuery(maxGlobs: int)
    requires maxGlobs >= 1
    ensures !UsesGlob(QUERY)
    ensures Prefix(Cap(maxGlobs), ExpandAll(Initial(QUERY))) == [QUERY + ".wsp", QUERY]
  {
    var globs := Initial(QUERY);
    assert QUERY[4] == '?';
    assert globs[1] == QUERY;
    assert globs == [QUERY + ".wsp", QUERY];
    assert '{' !in QUERY + ".wsp" && '{' !in QUERY;
    NothingToExpand(globs);
  }

  /** Characters that stand for themselves are matched by themselves. */
  lemma {:induction false} MatchesPlain(plain: string, p: string, name: string)
    requires Matches(p, name) && forall c :: c in plain ==> !Special(c) && c != '\\'
    ensures Matches(plain + p, plain + name)
  {
    if plain == "" {
      assert plain + p == p && plain + name == name;
    } else {
      MatchesPlain(plain[1..], p, name);
      assert plain[0] in plain;
      assert (plain + p)[1..] == plain[1..] + p && (plain + name)[1..] == plain[1..] + name;
    }
  }

  lemma FileMatches()
    ensures Matches("/" + (QUERY + ".wsp"), FILE)
  {
    MatchesPlain(".wsp", "", "");
    var p, name := "?" + ".wsp", "d" + ".wsp";
    assert Matches(p, name) by { assert p[1..] == name[1..] == ".wsp" + ""; }
    assert Matches("\\c" + p, "c" + name) by { assert ("\\c" + p)[2..] == p && ("c" + name)[1..] == name; }
    MatchesPlain("/ab", "\\c" + p, "c" + name);
    assert "/" + (QUERY + ".wsp") == "/ab" + ("\\c" + p) && FILE == "/ab" + ("c" + name);
  }

  lemma BackslashTrigram(g: string)
    requires |g| >= 3 && g[0] == 'a' && g[1] == 'b' && g[2] == '\\'
    ensures GlobHas(g, "ab\\")
  {
    assert !Inside(g, 0) && !Inside(g, 1) && !Inside(g, 2);
    assert LiteralAt(g, 0, "ab\\");
  }

  /** The file matches the first glob, but the index, which knows exactly what is in it, gives it for neither. */
  lemma SearchMissesFile(tss: seq<seq<string>>)
    requires |tss| == 2 && TrigramsOf(QUERY + ".wsp", tss[0]) && TrigramsOf(QUERY, tss[1])
    ensures QueryContract([FILE], OneFile(FILE)) && Found([FILE], [QUERY + ".wsp", QUERY], 2, 0)
    ensures !Indexed([FILE], [QUERY + ".wsp", QUERY], OneFile(FILE), tss, 2, 0)
  {
    FileMatches();
    assert IsHit([FILE], "/" + [QUERY + ".wsp", QUERY][0], 0);
    BackslashTrigram(QUERY + ".wsp");
    BackslashTrigram(QUERY);
    assert !Occurs("ab\\", FILE) by {
      assert '\\' !in FILE;
      if k :| OccursAt("ab\\", FILE, k) { assert FILE[k..k + 3][2] == '\\'; }
    }
    assert "ab\\" in tss[0] && "ab\\" in tss[1];
  }
}
