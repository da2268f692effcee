/** Parsing of carbonlink requests (cache/carbonlink.go). Strings are byte strings, as in Go. */
module Carbonlink {
  import opened Bytes
  import opened Points
  import opened Sequences
  import Framing

  datatype Request = Request(kind: ByteString, metric: ByteString)

  // ---- The language of requests ----

  datatype StrForm = U | T | X

  /** A pickled string: one length byte, or four of them, lowest first. */
  function EncStr(form: StrForm, s: ByteString): ByteString
    requires form.U? ==> |s| < 256
  {
    match form
    case U => [0x55, |s|] + s
    case T => [0x54] + ToLE(|s|, 4) + s
    case X => [0x58] + ToLE(|s|, 4) + s
  }

  predicate FitsForm(form: StrForm, s: ByteString) {
    |s| < if form.U? then 256 else 0x1_0000_0000
  }

  /** An optional memo opcode with its argument. */
  function Memo(m: Option<Byte>): ByteString {
    if m.None? then [] else [0x71, m.value]
  }

  const START: ByteString := [0x80, 0x02, 0x7D]
  const METRIC: ByteString := [0x55, 6] + Ascii("metric")
  const TYPE: ByteString := [0x55, 4] + Ascii("type")

  /** The free choices of an encoder: key order, string forms and memos. */
  datatype Choices = Choices(metricFirst: bool, form0: StrForm, form1: StrForm,
                             m0: Option<Byte>, m1: Option<Byte>, m2: Option<Byte>, m3: Option<Byte>, m4: Option<Byte>)

  function FirstString(c: Choices, r: Request): ByteString { if c.metricFirst then r.metric else r.kind }

  function SecondString(c: Choices, r: Request): ByteString { if c.metricFirst then r.kind else r.metric }

  predicate CanEncode(c: Choices, r: Request) {
    FitsForm(c.form0, FirstString(c, r)) && FitsForm(c.form1, SecondString(c, r))
  }

  /** From the first key's memo on. */
  function EncFields(c: Choices, s0: ByteString, s1: ByteString): ByteString
    requires FitsForm(c.form0, s0) && FitsForm(c.form1, s1)
  {
    Memo(c.m1) + (EncStr(c.form0, s0) + (Memo(c.m2) + ((if c.metricFirst then TYPE else METRIC)
    + (Memo(c.m3) + (EncStr(c.form1, s1) + Memo(c.m4))))))
  }

  function Encode(c: Choices, r: Request): ByteString
    requires CanEncode(c, r)
  {
    START + (Memo(c.m0) + ([0x28] + ((if c.metricFirst then METRIC else TYPE)
    + EncFields(c, FirstString(c, r), SecondString(c, r)))))
  }

  // ---- The parser's steps, as functions ----

  function SkipMemo(b: ByteString): ByteString {
    if |b| > 1 && b[0] == 0x71 then b[2..] else b
  }

  function TakeStr(b: ByteString): Option<(ByteString, ByteString)> {
    if b == [] then None
    else if b[0] == 0x55 then
      if |b| < 2 then None
      else
        var end: nat := b[1] as int + 2;
        if |b| < end then None else Some((b[2..end], b[end..]))
    else if b[0] == 0x54 || b[0] == 0x58 then
      if |b| < 5 then None
      else
        var end: nat := FromLE(b[1..5]) + 5;
        if |b| < end then None else Some((b[5..end], b[end..]))
    else None
  }

  function Expect(b: ByteString, v: ByteString): Option<ByteString> {
    if v <= b then Some(b[|v|..]) else None
  }

  /** After the first key: two strings with the second key between them. */
  function ParseFields(d: ByteString, key: ByteString): Option<(ByteString, ByteString)> {
    match TakeStr(SkipMemo(d))
    case None => None
    case Some((s0, d1)) =>
      match Expect(SkipMemo(d1), key)
      case None => None
      case Some(d2) =>
        match TakeStr(SkipMemo(d2))
        case None => None
        case Some((s1, _)) => Some((s0, s1))
  }

  function ParseKeys(d: ByteString): Option<Request> {
    match Expect(d, METRIC)
    case Some(d1) => (
      match ParseFields(d1, TYPE)
      case None => None
      case Some((metric, kind)) => Some(Request(kind, metric)))
    case None =>
      match Expect(d, TYPE)
      case None => None
      case Some(d1) =>
        match ParseFields(d1, METRIC)
        case None => None
        case Some((kind, metric)) => Some(Request(kind, metric))
  }

  function Parse(d: ByteString): Option<Request> {
    match Expect(d, START)
    case None => None
    case Some(d1) =>
      match Expect(SkipMemo(d1), [0x28])
      case None => None
      case Some(d2) => ParseKeys(d2)
  }

  // ---- Encoded requests are parsed back ----

  lemma TakeEncoded(form: StrForm, s: ByteString, rest: ByteString)
    requires FitsForm(form, s)
    ensures TakeStr(EncStr(form, s) + rest) == Some((s, rest))
    ensures SkipMemo(EncStr(form, s) + rest) == EncStr(form, s) + rest
  {
    var b := EncStr(form, s) + rest;
    if form.U? {
      assert b[2..2 + |s|] == s && b[2 + |s|..] == rest;
    } else {
      Powers();
      LERoundTrip(|s|, 4);
      assert b[1..5] == ToLE(|s|, 4) && b[5..5 + |s|] == s && b[5 + |s|..] == rest;
    }
  }

  lemma ExpectEncoded(v: ByteString, rest: ByteString)
    ensures Expect(v + rest, v) == Some(rest)
  {
  }

  lemma SkipEncoded(m: Option<Byte>, rest: ByteString)
    requires rest != [] && rest[0] != 0x71
    ensures SkipMemo(Memo(m) + rest) == rest
  {
    if m.Some? { assert (Memo(m) + rest)[2..] == rest; } else { assert Memo(m) + rest == rest; }
  }

  lemma FieldsRoundTrip(c: Choices, s0: ByteString, s1: ByteString, trailer: ByteString)
    requires FitsForm(c.form0, s0) && FitsForm(c.form1, s1)
    ensures ParseFields(EncFields(c, s0, s1) + trailer, if c.metricFirst then TYPE else METRIC) == Some((s0, s1))
  {
    var key := if c.metricFirst then TYPE else METRIC;
    var d3 := Memo(c.m4) + trailer;
    var d2 := Memo(c.m3) + (EncStr(c.form1, s1) + d3);
    var d1 := Memo(c.m2) + (key + d2);
    var d0 := Memo(c.m1) + (EncStr(c.form0, s0) + d1);
    Regroup(c, s0, s1, trailer, key);
    SkipEncoded(c.m1, EncStr(c.form0, s0) + d1);
    TakeEncoded(c.form0, s0, d1);
    SkipEncoded(c.m2, key + d2);
    ExpectEncoded(key, d2);
    SkipEncoded(c.m3, EncStr(c.form1, s1) + d3);
    TakeEncoded(c.form1, s1, d3);
  }

  lemma Regroup(c: Choices, s0: ByteString, s1: ByteString, trailer: ByteString, key: ByteString)
    requires FitsForm(c.form0, s0) && FitsForm(c.form1, s1) && key == if c.metricFirst then TYPE else METRIC
    ensures EncFields(c, s0, s1) + trailer ==
            Memo(c.m1) + (EncStr(c.form0, s0) + (Memo(c.m2) +
              (key + (Memo(c.m3) + (EncStr(c.form1, s1) + (Memo(c.m4) + trailer))))))
  {
    var a, b, e, f, g, h := Memo(c.m1), EncStr(c.form0, s0), Memo(c.m2), Memo(c.m3), EncStr(c.form1, s1), Memo(c.m4);
    Associate(g, h, trailer);
    Associate(f, g + h, trailer);
    Associate(key, f + (g + h), trailer);
    Associate(e, key + (f + (g + h)), trailer);
    Associate(b, e + (key + (f + (g + h))), trailer);
    Associate(a, b + (e + (key + (f + (g + h)))), trailer);
  }

  lemma KeysRoundTrip(c: Choices, r: Request, trailer: ByteString)
    requires CanEncode(c, r)
    ensures ParseKeys((if c.metricFirst then METRIC else TYPE)
                      + (EncFields(c, FirstString(c, r), SecondString(c, r)) + trailer)) == Some(r)
  {
    var fields := EncFields(c, FirstString(c, r), SecondString(c, r)) + trailer;
    FieldsRoundTrip(c, FirstString(c, r), SecondString(c, r), trailer);
    if c.metricFirst {
      ExpectEncoded(METRIC, fields);
    } else {
      ExpectEncoded(TYPE, fields);
      assert (TYPE + fields)[1] == 4 && METRIC[1] == 6;
    }
  }

  /** Any key order, string forms and memos, and anything behind the request. */
  lemma RequestRoundTrip(c: Choices, r: Request, trailer: ByteString)
    requires CanEncode(c, r)
    ensures Parse(Encode(c, r) + trailer) == Some(r)
  {
    var key := if c.metricFirst then METRIC else TYPE;
    var fields := EncFields(c, FirstString(c, r), SecondString(c, r));
    var d2 := key + (fields + trailer);
    var d1 := Memo(c.m0) + ([0x28] + d2);
    Associate(key, fields, trailer);
    Associate([0x28], key + fields, trailer);
    Associate(Memo(c.m0), [0x28] + (key + fields), trailer);
    Associate(START, Memo(c.m0) + ([0x28] + (key + fields)), trailer);
    ExpectEncoded(START, d1);
    SkipEncoded(c.m0, [0x28] + d2);
    ExpectEncoded([0x28], d2);
    KeysRoundTrip(c, r, trailer);
  }

  // ---- Only encoded requests are parsed ----

  lemma SkipInverse(b: ByteString) returns (m: Option<Byte>)
    ensures b == Memo(m) + SkipMemo(b)
  {
    m := if |b| > 1 && b[0] == 0x71 then Some(b[1]) else None;
  }

  lemma TakeInverse(b: ByteString) returns (form: StrForm)
    requires TakeStr(b).Some?
    ensures FitsForm(form, TakeStr(b).value.0) && b == EncStr(form, TakeStr(b).value.0) + TakeStr(b).value.1
  {
    form := if b[0] == 0x55 then U else if b[0] == 0x54 then T else X;
    if b[0] != 0x55 {
      Powers();
      FromLEBound(b[1..5]);
      LEInverse(b[1..5]);
    }
  }

  lemma ExpectInverse(b: ByteString, v: ByteString)
    requires Expect(b, v).Some?
    ensures b == v + Expect(b, v).value
  {
  }

  /** Two strings that were parsed were encoded; their memos and forms can be told, and what follows. */
  lemma FieldsInverse(d: ByteString, metricFirst: bool, m0: Option<Byte>) returns (c: Choices, trailer: ByteString)
    requires ParseFields(d, if metricFirst then TYPE else METRIC).Some?
    ensures var (s0, s1) := ParseFields(d, if metricFirst then TYPE else METRIC).value;
            && c.metricFirst == metricFirst && c.m0 == m0 && FitsForm(c.form0, s0) && FitsForm(c.form1, s1)
            && d == EncFields(c, s0, s1) + trailer
  {
    var key := if metricFirst then TYPE else METRIC;
    var m1 := SkipInverse(d);
    var form0 := TakeInverse(SkipMemo(d));
    var (s0, d1) := TakeStr(SkipMemo(d)).value;
    var m2 := SkipInverse(d1);
    ExpectInverse(SkipMemo(d1), key);
    var d2 := Expect(SkipMemo(d1), key).value;
    var m3 := SkipInverse(d2);
    var form1 := TakeInverse(SkipMemo(d2));
    var (s1, d3) := TakeStr(SkipMemo(d2)).value;
    c, trailer := Choices(metricFirst, form0, form1, m0, m1, m2, m3, None), d3;
    Regroup(c, s0, s1, trailer, key);
    assert Memo(None) + trailer == trailer;
  }

  lemma KeysInverse(d: ByteString, m0: Option<Byte>) returns (c: Choices, trailer: ByteString)
    requires ParseKeys(d).Some?
    ensures var r := ParseKeys(d).value;
            && CanEncode(c, r) && c.m0 == m0
            && d == (if c.metricFirst then METRIC else TYPE) +
                    (EncFields(c, FirstString(c, r), SecondString(c, r)) + trailer)
  {
    if Expect(d, METRIC).Some? {
      ExpectInverse(d, METRIC);
      c, trailer := FieldsInverse(Expect(d, METRIC).value, true, m0);
    } else {
      ExpectInverse(d, TYPE);
      c, trailer := FieldsInverse(Expect(d, TYPE).value, false, m0);
    }
  }

  /** What is accepted is an encoded request with something behind it. */
  lemma ParsedWasEncoded(d: ByteString) returns (c: Choices, trailer: ByteString)
    requires Parse(d).Some?
    ensures CanEncode(c, Parse(d).value) && d == Encode(c, Parse(d).value) + trailer
  {
    var r := Parse(d).value;
    ExpectInverse(d, START);
    var d1 := Expect(d, START).value;
    var m0 := SkipInverse(d1);
    ExpectInverse(SkipMemo(d1), [0x28]);
    var d2 := Expect(SkipMemo(d1), [0x28]).value;
    c, trailer := KeysInverse(d2, m0);
    var key := if c.metricFirst then METRIC else TYPE;
    var fields := EncFields(c, FirstString(c, r), SecondString(c, r));
    Associate(key, fields, trailer);
    Associate([0x28], key + fields, trailer);
    Associate(Memo(c.m0), [0x28] + (key + fields), trailer);
    Associate(START, Memo(c.m0) + ([0x28] + (key + fields)), trailer);
  }

  /** The parser accepts exactly the encoded requests, with anything behind them. */
  lemma AcceptsExactly(d: ByteString, r: Request)
    ensures Parse(d) == Some(r) <==> exists c, trailer :: CanEncode(c, r) && d == Encode(c, r) + trailer
  {
    if Parse(d) == Some(r) {
      var c, trailer := ParsedWasEncoded(d);
    }
    if c, trailer :| CanEncode(c, r) && d == Encode(c, r) + trailer {
      RequestRoundTrip(c, r, trailer);
    }
  }

  // ---- Requests byte by byte ----

  /** 'metric' and 'type' as pickled keys. */
  lemma KeyBytes()
    ensures START == [0x80, 0x02, 0x7D]
    ensures METRIC == [0x55, 6, 109, 101, 116, 114, 105, 99] && TYPE == [0x55, 4, 116, 121, 112, 101]
  {
  }

  /** The pieces of an encoded request, one after the other. */
  lemma EncodeIs(c: Choices, r: Request, trailer: ByteString, key0: ByteString, key1: ByteString)
    requires CanEncode(c, r)
    requires key0 == (if c.metricFirst then METRIC else TYPE) && key1 == (if c.metricFirst then TYPE else METRIC)
    ensures Encode(c, r) + trailer ==
            START + (Memo(c.m0) + ([0x28] + (key0 + (Memo(c.m1) + (EncStr(c.form0, FirstString(c, r)) + (Memo(c.m2) +
              (key1 + (Memo(c.m3) + (EncStr(c.form1, SecondString(c, r)) + (Memo(c.m4) + trailer))))))))))
  {
    var fields := EncFields(c, FirstString(c, r), SecondString(c, r));
    Regroup(c, FirstString(c, r), SecondString(c, r), trailer, key1);
    Associate(key0, fields, trailer);
    Associate([0x28], key0 + fields, trailer);
    Associate(Memo(c.m0), [0x28] + (key0 + fields), trailer);
    Associate(START, Memo(c.m0) + ([0x28] + (key0 + fields)), trailer);
  }

  /** A memoised request with the metric first, as pickle's protocol 2 writes it for byte strings. */
  lemma MemoisedRequest(m: ByteString, kind: ByteString)
    requires |m| < 256 && |kind| < 256
    ensures Parse([0x80, 0x02, 0x7D] + ([0x71, 1] + ([0x28] + ([0x55, 6, 109, 101, 116, 114, 105, 99] + ([0x71, 2] +
              ([0x55, |m|] + m + ([0x71, 3] + ([0x55, 4, 116, 121, 112, 101] + ([0x71, 4] +
              ([0x55, |kind|] + kind + ([0x71, 5] + [0x75, 0x2E]))))))))))) == Some(Request(kind, m))
  {
    var c := Choices(true, U, U, Some(1), Some(2), Some(3), Some(4), Some(5));
    KeyBytes();
    RequestRoundTrip(c, Request(kind, m), [0x75, 0x2E]);
    EncodeIs(c, Request(kind, m), [0x75, 0x2E], METRIC, TYPE);
  }

  /** The type first, and the metric as a long byte string (0x54) or as unicode (0x58), its length in four bytes. */
  lemma LongRequest(op: Byte, m: ByteString, kind: ByteString)
    requires (op == 0x54 || op == 0x58) && |m| < 0x1_0000_0000 && |kind| < 256
    ensures Parse([0x80, 0x02, 0x7D] + ([0x71, 1] + ([0x28] + ([0x55, 4, 116, 121, 112, 101] + ([0x71, 2] +
              ([0x55, |kind|] + kind + ([0x71, 3] + ([0x55, 6, 109, 101, 116, 114, 105, 99] + ([0x71, 4] +
              ([op] + ToLE(|m|, 4) + m + ([0x71, 5] + [0x75, 0x2E]))))))))))) == Some(Request(kind, m))
  {
    var c := Choices(false, U, if op == 0x54 then T else X, Some(1), Some(2), Some(3), Some(4), Some(5));
    KeyBytes();
    RequestRoundTrip(c, Request(kind, m), [0x75, 0x2E]);
    EncodeIs(c, Request(kind, m), [0x75, 0x2E], TYPE, METRIC);
  }

  // ---- The parser itself, which advances a cursor ----

  class Cursor {
    var rest: ByteString

    constructor (d: ByteString)
      ensures rest == d
    {
      rest := d;
    }

    method MaybeMemo() returns (ok: bool)
      modifies this
      ensures ok && rest == SkipMemo(old(rest))
    {
      if |rest| > 1 && rest[0] == 0x71 {
        rest := rest[2..];
      }
      return true;
    }

    method GetStr() returns (s: ByteString, ok: bool)
      modifies this
      ensures ok <==> TakeStr(old(rest)).Some?
      ensures if ok then TakeStr(old(rest)) == Some((s, rest)) else s == [] && rest == old(rest)
    {
      var b := rest;
      if b == [] {
        return [], false;
      }
      if b[0] == 0x55 {
        if |b| >= 2 {
          var sLen := b[1] as int;
          if |b| >= 2 + sLen {
            rest := b[2 + sLen..];
            return b[2..2 + sLen], true;
          }
        }
      } else if b[0] == 0x54 || b[0] == 0x58 {
        if |b| >= 5 {
          var sLen := FromLE(b[1..5]);
          if |b| >= 5 + sLen {
            rest := b[5 + sLen..];
            return b[5..5 + sLen], true;
          }
        }
      }
      return [], false;
    }

    method ExpectBytes(v: ByteString) returns (ok: bool)
      modifies this
      ensures ok <==> Expect(old(rest), v).Some?
      ensures rest == if ok then Expect(old(rest), v).value else old(rest)
    {
      if v <= rest {
        rest := rest[|v|..];
        return true;
      }
      return false;
    }
  }

  /** The two strings, with the key between them. */
  method ParseStrings(d: Cursor, key: ByteString) returns (s0: ByteString, s1: ByteString, good: bool)
    modifies d
    ensures good <==> ParseFields(old(d.rest), key).Some?
    ensures good ==> ParseFields(old(d.rest), key) == Some((s0, s1))
  {
    s0, s1, good := [], [], false;
    var ok := d.MaybeMemo();
    s0, ok := d.GetStr();
    if !ok {
      return;
    }
    ok := d.MaybeMemo();
    ok := d.ExpectBytes(key);
    if !ok {
      return;
    }
    ok := d.MaybeMemo();
    s1, ok := d.GetStr();
    if !ok {
      return;
    }
    ok := d.MaybeMemo();
    good := true;
  }

  method ParseCarbonlinkRequest(data: ByteString) returns (req: Option<Request>)
    ensures req == Parse(data)
  {
    var d := new Cursor(data);
    var ok := d.ExpectBytes(START);
    if !ok {
      return None;
    }
    ok := d.MaybeMemo();
    ok := d.ExpectBytes([0x28]);
    if !ok {
      return None;
    }
    var metric, kind;
    ok := d.ExpectBytes(METRIC);
    if ok {
      metric, kind, ok := ParseStrings(d, TYPE);
    } else {
      ok := d.ExpectBytes(TYPE);
      if !ok {
        return None;
      }
      kind, metric, ok := ParseStrings(d, METRIC);
    }
    return if ok then Some(Request(kind, metric)) else None;
  }

  // ---- A connection that carries framed requests ----

  datatype Message = Message(choices: Choices, request: Request, trailer: ByteString)

  function Body(m: Message): ByteString
    requires CanEncode(m.choices, m.request)
  {
    Encode(m.choices, m.request) + m.trailer
  }

  predicate Sendable(ms: seq<Message>, max: nat) {
    forall i :: 0 <= i < |ms| ==> CanEncode(ms[i].choices, ms[i].request) && |Body(ms[i])| <= max
  }

  function Bodies(ms: seq<Message>, max: nat): (bodies: seq<ByteString>)
    requires Sendable(ms, max)
    ensures |bodies| == |ms| && forall i :: 0 <= i < |ms| ==> bodies[i] == Body(ms[i])
  {
    seq(|ms|, i requires 0 <= i < |ms| => Body(ms[i]))
  }

  /** Four-byte big-endian frames of requests are read and parsed back in order, up to the end of the stream. */
  lemma FramedRequests(ms: seq<Message>, max: nat)
    requires Sendable(ms, max) && max < 0x1_0000_0000
    ensures var (bodies, e) := Framing.ReadAll(Framing.Frames(Bodies(ms, max), 4, true), 4, true, max);
            e == Framing.EOF && |bodies| == |ms|
            && forall i :: 0 <= i < |ms| ==> Parse(bodies[i]) == Some(ms[i].request)
  {
    Powers();
    Framing.StreamRoundTrip(Bodies(ms, max), 4, true, max);
    forall i | 0 <= i < |ms|
      ensures Parse(Bodies(ms, max)[i]) == Some(ms[i].request)
    {
      RequestRoundTrip(ms[i].choices, ms[i].request, ms[i].trailer);
    }
  }
}
