/**
  The text form of a point (points/points.go ParseText, points/glue.go), one character a byte. How
  numbers are printed and parsed is a parameter with an assumed contract.
 */
module PlainText {
  import opened GoStrings
  import opened Points

  // ---- Numbers ----

  /** fmt's %v for float64 and int64, strconv.ParseFloat, math.IsNaN, and the conversion to int64. */
  datatype Numbers = Numbers(showValue: Bits -> string, showTime: int -> string,
                             parse: string -> Option<Bits>, isNaN: Bits -> bool, toInt: Bits -> int)

  /** A character that ParseText trims. */
  predicate Trimmed(c: char) {
    c == '\n' || c == ' ' || c == '\t' || c == '\r'
  }

  predicate IsWord(s: string) {
    s != "" && forall k :: 0 <= k < |s| ==> !Trimmed(s[k])
  }

  const EXACT: int := 0x20_0000_0000_0000

  /** Every value but NaN is read back exactly, and every timestamp up to 2^53; NaN is read as NaN or not at all. */
  ghost predicate NumbersOk(n: Numbers) {
    && (forall v: Bits {:trigger n.showValue(v)} ::
          && IsWord(n.showValue(v))
          && (if n.isNaN(v) then n.parse(n.showValue(v)).Some? ==> n.isNaN(n.parse(n.showValue(v)).value)
              else n.parse(n.showValue(v)) == Some(v)))
    && (forall t: int {:trigger n.showTime(t)} ::
          && IsWord(n.showTime(t))
          && (-EXACT <= t <= EXACT ==>
                && n.parse(n.showTime(t)).Some?
                && !n.isNaN(n.parse(n.showTime(t)).value) && n.toInt(n.parse(n.showTime(t)).value) == t))
  }

  // ---- strings.Trim ----

  function TrimLeft(s: string): (r: string)
    ensures |r| <= |s|
    ensures r != "" ==> !Trimmed(r[0])
  {
    if s == "" || !Trimmed(s[0]) then s else TrimLeft(s[1..])
  }

  function TrimRight(s: string): (r: string)
    ensures |r| <= |s| && r == s[..|r|]
    ensures r != "" ==> !Trimmed(r[|r| - 1])
  {
    if s == "" || !Trimmed(s[|s| - 1]) then assert s[..|s|] == s; s
    else
      var r := TrimRight(s[..|s| - 1]);
      assert s[..|s| - 1][..|r|] == s[..|r|];
      r
  }

  function Trim(s: string): (r: string)
    ensures r != "" ==> !Trimmed(r[0])
  {
    var left := TrimLeft(s);
    var r := TrimRight(left);
    assert r != "" ==> r[0] == left[..|r|][0] == left[0];
    r
  }

  lemma TrimNewline(s: string)
    requires s != "" && !Trimmed(s[0]) && !Trimmed(s[|s| - 1])
    ensures Trim(s + "\n") == s
  {
    var line := s + "\n";
    assert line[..|line| - 1] == s && line[0] == s[0] && line[|line| - 1] == '\n';
    assert TrimLeft(line) == line && TrimRight(line) == TrimRight(s) == s;
  }

  // ---- ParseText ----

  /** A parsed line: points.OnePoint. */
  datatype Sample = Sample(metric: Metric, value: Bits, timestamp: int)

  function ParseText(n: Numbers, line: string): Option<Sample> {
    var row := Split(Trim(line), ' ');
    if |row| != 3 then None
    else
      var value := n.parse(row[1]);
      if value.None? || n.isNaN(value.value) then None
      else
        var ts := n.parse(row[2]);
        if ts.None? || n.isNaN(ts.value) then None
        else Some(Sample(row[0], value.value, n.toInt(ts.value)))
  }

  // ---- What Trim takes off, and what is accepted ----

  predicate AllBlank(s: string) {
    forall k :: 0 <= k < |s| ==> s[k] in {'\n', ' ', '\t', '\r'}
  }

  lemma {:induction false} LeftIsBlank(s: string) returns (a: string)
    ensures s == a + TrimLeft(s) && AllBlank(a)
  {
    if s == "" || !Trimmed(s[0]) {
      a := "";
    } else {
      a := LeftIsBlank(s[1..]);
      a := [s[0]] + a;
      assert s == [s[0]] + s[1..];
    }
  }

  lemma {:induction false} RightIsBlank(s: string) returns (b: string)
    ensures s == TrimRight(s) + b && AllBlank(b)
  {
    if s == "" || !Trimmed(s[|s| - 1]) {
      b := "";
    } else {
      b := RightIsBlank(s[..|s| - 1]);
      b := b + [s[|s| - 1]];
      assert s == s[..|s| - 1] + [s[|s| - 1]];
    }
  }

  /** Trim takes off the newlines, spaces, tabs and returns at both ends, and nothing else. */
  lemma TrimIs(s: string) returns (a: string, b: string)
    ensures s == a + Trim(s) + b && AllBlank(a) && AllBlank(b)
    ensures Trim(s) != "" ==> !AllBlank(Trim(s)[..1]) && !AllBlank(Trim(s)[|Trim(s)| - 1..])
  {
    a := LeftIsBlank(s);
    b := RightIsBlank(TrimLeft(s));
    var t := Trim(s);
    if t != "" {
      assert t[..1][0] == t[0] && t[|t| - 1..][0] == t[|t| - 1];
    }
  }

  /** The trimmed line is three fields without spaces, joined by single spaces, and the numbers can be read. */
  ghost predicate IsMessage(n: Numbers, text: string, m: Metric, value: string, time: string, sample: Sample) {
    && text == m + [' '] + (value + [' '] + time)
    && ' ' !in m && ' ' !in value && ' ' !in time
    && n.parse(value) == Some(sample.value) && !n.isNaN(sample.value)
    && n.parse(time).Some? && !n.isNaN(n.parse(time).value)
    && sample.metric == m && sample.timestamp == n.toInt(n.parse(time).value)
  }

  /** The parser accepts exactly these lines. */
  lemma AcceptsExactly(n: Numbers, line: string, sample: Sample)
    ensures ParseText(n, line) == Some(sample) <==>
            exists m, value, time :: IsMessage(n, Trim(line), m, value, time, sample)
  {
    var text := Trim(line);
    if m, value, time :| IsMessage(n, text, m, value, time, sample) {
      SplitThree(m, value, time);
    }
    if ParseText(n, line) == Some(sample) {
      var row := Split(text, ' ');
      SplitIsExact(text, ' ');
      JoinThree(row);
      assert IsMessage(n, text, row[0], row[1], row[2], sample);
    }
  }

  lemma JoinThree(row: seq<string>)
    requires |row| == 3
    ensures Join(row, ' ') == row[0] + [' '] + (row[1] + [' '] + row[2])
  {
    assert row[1..][1..] == [row[2]] && Join([row[2]], ' ') == row[2];
    assert Join(row[1..], ' ') == row[1] + [' '] + row[2];
  }

  /** fmt.Sprintf("%s %v %v\n", ...). */
  function Format(n: Numbers, metric: Metric, p: Point): string {
    metric + " " + n.showValue(p.value) + " " + n.showTime(p.timestamp) + "\n"
  }

  /** A metric that survives the text form: not empty, no space, and no first character that is trimmed. */
  predicate Printable(metric: Metric) {
    metric != "" && ' ' !in metric && !Trimmed(metric[0])
  }

  lemma SplitOne(a: string)
    requires ' ' !in a
    ensures Split(a, ' ') == [a]
  {
  }

  lemma SplitThree(a: string, b: string, c: string)
    requires ' ' !in a && ' ' !in b && ' ' !in c
    ensures Split(a + [' '] + (b + [' '] + c), ' ') == [a, b, c]
  {
    SplitWord(a, ' ', b + [' '] + c);
    SplitWord(b, ' ', c);
    SplitOne(c);
  }

  lemma TrimFormatted(n: Numbers, metric: Metric, p: Point)
    requires NumbersOk(n) && Printable(metric)
    ensures Trim(Format(n, metric, p)) == metric + [' '] + (n.showValue(p.value) + [' '] + n.showTime(p.timestamp))
  {
    var v, t := n.showValue(p.value), n.showTime(p.timestamp);
    var text := metric + [' '] + (v + [' '] + t);
    assert Format(n, metric, p) == text + "\n";
    assert text[0] == metric[0] && text[|text| - 1] == t[|t| - 1];
    TrimNewline(text);
  }

  /** What is parsed has a printable metric and a value that is not NaN. */
  lemma ParsedIsPrintable(n: Numbers, line: string)
    requires ParseText(n, line).Some?
    ensures Printable(ParseText(n, line).value.metric) && !n.isNaN(ParseText(n, line).value.value)
  {
    var text := Trim(line);
    var i := IndexByte(text, ' ');
    SplitIsExact(text, ' ');
    assert Split(text, ' ')[0] == text[..i];
    assert i != 0;
  }

  lemma PrintableComesBack(n: Numbers, metric: Metric, p: Point)
    requires NumbersOk(n) && -EXACT <= p.timestamp <= EXACT && Printable(metric) && !n.isNaN(p.value)
    ensures ParseText(n, Format(n, metric, p)) == Some(Sample(metric, p.value, p.timestamp))
  {
    TrimFormatted(n, metric, p);
    var v, t := n.showValue(p.value), n.showTime(p.timestamp);
    assert ' ' !in v && ' ' !in t;
    SplitThree(metric, v, t);
  }

  /** The text form of a point is parsed back exactly when the metric is printable and the value is no NaN. */
  lemma TextRoundTrip(n: Numbers, metric: Metric, p: Point)
    requires NumbersOk(n) && -EXACT <= p.timestamp <= EXACT
    ensures ParseText(n, Format(n, metric, p)) == Some(Sample(metric, p.value, p.timestamp))
            <==> Printable(metric) && !n.isNaN(p.value)
  {
    if ParseText(n, Format(n, metric, p)) == Some(Sample(metric, p.value, p.timestamp)) {
      ParsedIsPrintable(n, Format(n, metric, p));
    }
    if Printable(metric) && !n.isNaN(p.value) { PrintableComesBack(n, metric, p); }
  }

  /** A leading tab is lost, so such a metric does not come back. */
  lemma LeadingTabIsLost(n: Numbers, p: Point)
    requires NumbersOk(n) && -EXACT <= p.timestamp <= EXACT
    ensures ParseText(n, Format(n, "\thost", p)) != Some(Sample("\thost", p.value, p.timestamp))
  {
    TextRoundTrip(n, "\thost", p);
  }
}
