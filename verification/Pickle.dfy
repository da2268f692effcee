/**
  The carbonlink reply (cache/carbonlink.go): the pickle program that packReply writes, and what a
  pickle machine makes of it (PEP 307, section "Protocol versions", protocol 2).
 */
module Pickle {
  import opened Bytes
  import opened Points
  import opened Sequences

  // ---- A pickle machine, for the opcodes of the reply ----

  datatype Value =
    | Mark
    | Int(n: int)
    | Float(bits: nat)
    | Str(text: ByteString)
    | Pair(first: Value, second: Value)
    | List(items: seq<Value>)
    | Dict(entries: seq<(Value, Value)>)

  type Stack = seq<Value>

  /** Two's complement. */
  function Signed32(n: nat): int {
    if n < 0x8000_0000 then n else n - 0x1_0000_0000
  }

  /** The position of the topmost mark, or -1. */
  function LastMark(stack: Stack): (r: int)
    ensures -1 <= r < |stack|
  {
    if stack == [] then -1 else if stack[|stack| - 1] == Mark then |stack| - 1 else LastMark(stack[..|stack| - 1])
  }

  datatype State = State(program: ByteString, stack: Stack)

  /** An opcode that puts a value on the stack; None is an error of the machine. */
  function Load(p: ByteString, stack: Stack): (r: Option<State>)
    requires p != []
    ensures r.Some? ==> |r.value.program| < |p|
  {
    match p[0]
    case 0x7D => Some(State(p[1..], stack + [Dict([])]))  // EMPTY_DICT
    case 0x5D => Some(State(p[1..], stack + [List([])]))  // EMPTY_LIST
    case 0x28 => Some(State(p[1..], stack + [Mark]))      // MARK
    case 0x55 =>                                          // SHORT_BINSTRING
      if |p| < 2 then None
      else
        var end: nat := p[1] as int + 2;
        if |p| < end then None else Some(State(p[end..], stack + [Str(p[2..end])]))
    case 0x4A =>                                          // BININT
      if |p| < 5 then None else Some(State(p[5..], stack + [Int(Signed32(FromLE(p[1..5])))]))
    case 0x47 =>                                          // BINFLOAT
      if |p| < 9 then None else Some(State(p[9..], stack + [Float(FromBE(p[1..9]))]))
    case _ => None
  }

  predicate Builds(op: Byte) {
    op == 0x86 || op == 0x61 || op == 0x65 || op == 0x73
  }

  /** An opcode that combines values of the stack. */
  function Build(op: Byte, stack: Stack): Option<Stack> {
    var n := |stack|;
    match op
    case 0x86 =>  // TUPLE2
      if n >= 2 then Some(stack[..n - 2] + [Pair(stack[n - 2], stack[n - 1])]) else None
    case 0x61 =>  // APPEND
      if n >= 2 && stack[n - 2].List? then Some(stack[..n - 2] + [List(stack[n - 2].items + [stack[n - 1]])]) else None
    case 0x65 =>  // APPENDS
      var m := LastMark(stack);
      if m >= 1 && stack[m - 1].List? then Some(stack[..m - 1] + [List(stack[m - 1].items + stack[m + 1..])]) else None
    case 0x73 =>  // SETITEM
      if n >= 3 && stack[n - 3].Dict?
      then Some(stack[..n - 3] + [Dict(stack[n - 3].entries + [(stack[n - 2], stack[n - 1])])]) else None
    case _ => None
  }

  function Step(p: ByteString, stack: Stack): (r: Option<State>)
    requires p != []
    ensures r.Some? ==> |r.value.program| < |p|
  {
    if p[0] == 0x80 then  // PROTO
      if |p| >= 2 && p[1] <= 2 then Some(State(p[2..], stack)) else None
    else if Builds(p[0]) then
      var s := Build(p[0], stack);
      if s.Some? then Some(State(p[1..], s.value)) else None
    else Load(p, stack)
  }

  /** Runs to STOP, which must be the last byte and find a single value. */
  function Run(p: ByteString, stack: Stack): Option<Value>
    decreases |p|
  {
    if p == [] then None
    else if p[0] == 0x2E then if |p| == 1 && |stack| == 1 then Some(stack[0]) else None
    else match Step(p, stack)
      case None => None
      case Some(s) => Run(s.program, s.stack)
  }

  function Unpickle(p: ByteString): Option<Value> {
    Run(p, [])
  }

  // ---- packReply ----

  /** What packReply reads of a Query. */
  datatype Query = Query(inFlight: seq<seq<Point>>, cacheData: Option<seq<Point>>)

  /** The points of the reply: in-flight batches in order, then the cache. */
  function ReplyPoints(query: Option<Query>): seq<Point> {
    match query
    case None => []
    case Some(q) => Concat(q.inFlight) + (if q.cacheData.Some? then q.cacheData.value else [])
  }

  /** numPoints, which counts each in-flight batch as one. */
  function Counted(query: Option<Query>): nat {
    match query
    case None => 0
    case Some(q) => |q.inFlight| + (if q.cacheData.Some? then |q.cacheData.value| else 0)
  }

  /** A point as a value: the timestamp is cut to a signed 32-bit integer, the float is exact. */
  function PointValue(p: Point): Value {
    Pair(Int(Int32(p.timestamp)), Float(p.value))
  }

  function PointValues(ps: seq<Point>): (vs: seq<Value>)
    ensures |vs| == |ps| && forall k :: 0 <= k < |ps| ==> vs[k] == PointValue(ps[k])
  {
    seq(|ps|, k requires 0 <= k < |ps| => PointValue(ps[k]))
  }

  const NAME: ByteString := Ascii("datapoints")

  /** {'datapoints': [(timestamp, value), ...]} */
  function ReplyValue(ps: seq<Point>): Value {
    Dict([(Str(NAME), List(PointValues(ps)))])
  }

  /** uint32(p.Timestamp). */
  function Unsigned32(n: int): (r: nat)
    ensures r < 0x1_0000_0000
  {
    n % 0x1_0000_0000
  }

  lemma SignedOfUnsigned(n: int)
    ensures Signed32(Unsigned32(n)) == Int32(n)
  {
  }

  method PicklePoint(b: ByteString, p: Point) returns (r: ByteString)
    ensures r == b + PointBytes(p)
  {
    r := b + [0x4A] + ToLE(Unsigned32(p.timestamp), 4);
    r := r + [0x47] + ToBE(p.value, 8) + [0x86];
    assert r == b + PointBytes(p);
  }

  ghost function PointBytes(p: Point): ByteString {
    [0x4A] + ToLE(Unsigned32(p.timestamp), 4) + [0x47] + ToBE(p.value, 8) + [0x86]
  }

  ghost function PointsBytes(ps: seq<Point>): ByteString {
    if ps == [] then [] else PointsBytes(ps[..|ps| - 1]) + PointBytes(ps[|ps| - 1])
  }

  lemma {:induction false} PointsBytesConcat(a: seq<Point>, b: seq<Point>)
    ensures PointsBytes(a + b) == PointsBytes(a) + PointsBytes(b)
  {
    if b == [] {
      assert a + b == a;
    } else {
      assert (a + b)[..|a + b| - 1] == a + b[..|b| - 1];
      PointsBytesConcat(a, b[..|b| - 1]);
    }
  }

  const HEADER: ByteString := [0x80, 0x02, 0x7D, 0x55, 0x0A] + NAME + [0x5D]

  function Opening(counted: nat): ByteString {
    if counted > 1 then [0x28] else []
  }

  function Ending(counted: nat): ByteString {
    if counted == 0 then [0x73, 0x2E] else if counted == 1 then [0x61, 0x73, 0x2E] else [0x65, 0x73, 0x2E]
  }

  /** One batch's loop. */
  method PicklePoints(b: ByteString, ps: seq<Point>) returns (r: ByteString)
    ensures r == b + PointsBytes(ps)
  {
    r := b;
    for k := 0 to |ps|
      invariant r == b + PointsBytes(ps[..k])
    {
      assert ps[..k + 1][..k] == ps[..k];
      r := PicklePoint(r, ps[k]);
    }
    assert ps[..|ps|] == ps;
  }

  // ---- What the machine makes of the reply ----

  lemma RunBuild(op: Byte, rest: ByteString, stack: Stack)
    requires Builds(op)
    ensures Run([op] + rest, stack) == if Build(op, stack).None? then None else Run(rest, Build(op, stack).value)
  {
    assert ([op] + rest)[1..] == rest;
  }

  lemma RunInt(b: ByteString, rest: ByteString, stack: Stack)
    requires |b| == 4
    ensures Run([0x4A] + b + rest, stack) == Run(rest, stack + [Int(Signed32(FromLE(b)))])
  {
    var p := [0x4A] + b + rest;
    assert p[1..5] == b && p[5..] == rest;
    assert Step(p, stack) == Load(p, stack);
  }

  lemma RunFloat(b: ByteString, rest: ByteString, stack: Stack)
    requires |b| == 8
    ensures Run([0x47] + b + rest, stack) == Run(rest, stack + [Float(FromBE(b))])
  {
    var p := [0x47] + b + rest;
    assert p[1..9] == b && p[9..] == rest;
    assert Step(p, stack) == Load(p, stack);
  }

  lemma RunString(text: ByteString, rest: ByteString, stack: Stack)
    requires |text| < 256
    ensures Run([0x55, |text|] + text + rest, stack) == Run(rest, stack + [Str(text)])
  {
    var p := [0x55, |text|] + text + rest;
    assert p[2..2 + |text|] == text && p[2 + |text|..] == rest;
    assert Step(p, stack) == Load(p, stack);
  }

  /** EMPTY_DICT, EMPTY_LIST and MARK. */
  lemma RunFixed(op: Byte, rest: ByteString, stack: Stack)
    requires op == 0x7D || op == 0x5D || op == 0x28
    ensures Run([op] + rest, stack) ==
            Run(rest, stack + [if op == 0x7D then Dict([]) else if op == 0x5D then List([]) else Mark])
  {
    var p := [op] + rest;
    assert p[1..] == rest;
    assert Step(p, stack) == Load(p, stack);
  }

  lemma RunPair(p: Point, rest: ByteString, stack: Stack)
    ensures Run(PointBytes(p) + rest, stack) == Run(rest, stack + [PointValue(p)])
  {
    var ts, float := ToLE(Unsigned32(p.timestamp), 4), ToBE(p.value, 8);
    Powers();
    LERoundTrip(Unsigned32(p.timestamp), 4);
    BERoundTrip(p.value, 8);
    SignedOfUnsigned(p.timestamp);
    var t, f := Int(Int32(p.timestamp)), Float(p.value);
    assert PointBytes(p) + rest == [0x4A] + ts + ([0x47] + float + ([0x86] + rest));
    RunInt(ts, [0x47] + float + ([0x86] + rest), stack);
    RunFloat(float, [0x86] + rest, stack + [t]);
    RunBuild(0x86, rest, stack + [t] + [f]);
    PairUp(stack, t, f);
  }

  lemma PairUp(stack: Stack, t: Value, f: Value)
    ensures Build(0x86, stack + [t] + [f]) == Some(stack + [Pair(t, f)])
  {
    assert (stack + [t] + [f])[..|stack|] == stack;
  }

  lemma PointValuesLast(ps: seq<Point>)
    requires ps != []
    ensures PointValues(ps) == PointValues(ps[..|ps| - 1]) + [PointValue(ps[|ps| - 1])]
  {
  }

  lemma {:induction false} RunPoints(ps: seq<Point>, rest: ByteString, stack: Stack)
    ensures Run(PointsBytes(ps) + rest, stack) == Run(rest, stack + PointValues(ps))
  {
    if ps == [] {
      assert PointsBytes(ps) + rest == rest && stack + PointValues(ps) == stack;
    } else {
      var init, last := ps[..|ps| - 1], ps[|ps| - 1];
      assert PointsBytes(ps) + rest == PointsBytes(init) + (PointBytes(last) + rest);
      RunPoints(init, PointBytes(last) + rest, stack);
      RunPair(last, rest, stack + PointValues(init));
      PointValuesLast(ps);
      assert stack + PointValues(init) + [PointValue(last)] == stack + PointValues(ps);
    }
  }

  function Prepared(items: seq<Value>): Stack {
    [Dict([]), Str(NAME), List(items)]
  }

  lemma RunHeader(rest: ByteString)
    ensures Unpickle(HEADER + rest) == Run(rest, Prepared([]))
  {
    var p1 := [0x7D] + ([0x55, |NAME|] + NAME + ([0x5D] + rest));
    var p0 := HEADER + rest;
    assert p0 == [0x80, 0x02] + p1;
    assert p0[2..] == p1 && p0[0] == 0x80 && p0[1] == 0x02;
    assert Step(p0, []) == Some(State(p1, []));
    RunFixed(0x7D, [0x55, |NAME|] + NAME + ([0x5D] + rest), []);
    RunString(NAME, [0x5D] + rest, [Dict([])]);
    RunFixed(0x5D, rest, [Dict([]), Str(NAME)]);
    assert [] + [Dict([])] == [Dict([])] && [Dict([])] + [Str(NAME)] == [Dict([]), Str(NAME)];
    assert [Dict([]), Str(NAME)] + [List([])] == Prepared([]);
  }

  /** SETITEM and STOP. */
  lemma RunLast(items: seq<Value>)
    ensures Run([0x73, 0x2E], Prepared(items)) == Some(Dict([(Str(NAME), List(items))]))
  {
    var s := Prepared(items);
    assert [0x73, 0x2E] == [0x73] + [0x2E];
    RunBuild(0x73, [0x2E], s);
    var entry := (Str(NAME), List(items));
    var none: seq<(Value, Value)> := [];
    assert none + [entry] == [entry] && s[..0] + [Dict([entry])] == [Dict([entry])];
    assert Build(0x73, s) == Some([Dict([entry])]);
  }

  lemma {:induction false} MarkUnder(stack: Stack, vs: seq<Value>)
    requires Mark !in vs
    ensures LastMark(stack + [Mark] + vs) == |stack|
  {
    var all := stack + [Mark] + vs;
    if vs == [] {
      assert all[|all| - 1] == Mark;
    } else {
      assert all[|all| - 1] == vs[|vs| - 1];
      assert all[..|all| - 1] == stack + [Mark] + vs[..|vs| - 1];
      MarkUnder(stack, vs[..|vs| - 1]);
    }
  }

  lemma AppendAll(vs: seq<Value>)
    requires Mark !in vs
    ensures Build(0x65, Prepared([]) + [Mark] + vs) == Some(Prepared(vs))
  {
    var s := Prepared([]) + [Mark] + vs;
    MarkUnder(Prepared([]), vs);
    AboveMark(Prepared([]), Mark, vs);
    assert [] + vs == vs;
    assert Prepared([])[..2] + [List(vs)] == Prepared(vs);
  }

  lemma AboveMark(below: Stack, mark: Value, above: Stack)
    requires |below| == 3
    ensures var s := below + [mark] + above; s[..2] == below[..2] && s[2] == below[2] && s[4..] == above
  {
  }

  /** APPENDS takes everything above the mark. */
  lemma RunMany(vs: seq<Value>)
    requires Mark !in vs
    ensures Run([0x65, 0x73, 0x2E], Prepared([]) + [Mark] + vs) == Some(Dict([(Str(NAME), List(vs))]))
  {
    assert [0x65, 0x73, 0x2E] == [0x65] + [0x73, 0x2E];
    RunBuild(0x65, [0x73, 0x2E], Prepared([]) + [Mark] + vs);
    AppendAll(vs);
    RunLast(vs);
  }

  lemma AppendOne(ps: seq<Point>)
    ensures Build(0x61, Prepared([]) + PointValues(ps)) == if |ps| == 1 then Some(Prepared(PointValues(ps))) else None
  {
    var s := Prepared([]) + PointValues(ps);
    if |ps| == 1 {
      assert s == [Dict([]), Str(NAME), List([]), PointValue(ps[0])];
      assert [] + [PointValue(ps[0])] == PointValues(ps);
      assert s[..2] + [List(PointValues(ps))] == Prepared(PointValues(ps));
    } else if |ps| == 0 {
      assert s[|s| - 2] == Str(NAME);
    } else {
      assert s[|s| - 2] == PointValue(ps[|ps| - 2]);
    }
  }

  /** APPEND takes one value, and fails on a list of none or several pairs. */
  lemma RunSingle(ps: seq<Point>)
    ensures Run([0x61, 0x73, 0x2E], Prepared([]) + PointValues(ps)) == if |ps| == 1 then Some(ReplyValue(ps)) else None
  {
    assert [0x61, 0x73, 0x2E] == [0x61] + [0x73, 0x2E];
    RunBuild(0x61, [0x73, 0x2E], Prepared([]) + PointValues(ps));
    AppendOne(ps);
    RunLast(PointValues(ps));
  }

  /** The bytes after the header, with a mark. */
  lemma TailOfMany(ps: seq<Point>, rest: ByteString)
    requires rest == PointsBytes(ps) + [0x65, 0x73, 0x2E]
    ensures Run([0x28] + rest, Prepared([])) == Some(ReplyValue(ps))
  {
    RunFixed(0x28, rest, Prepared([]));
    RunPoints(ps, [0x65, 0x73, 0x2E], Prepared([]) + [Mark]);
    RunMany(PointValues(ps));
  }

  lemma TailOfOne(ps: seq<Point>, rest: ByteString)
    requires rest == PointsBytes(ps) + [0x61, 0x73, 0x2E]
    ensures Run(rest, Prepared([])) == if |ps| == 1 then Some(ReplyValue(ps)) else None
  {
    RunPoints(ps, [0x61, 0x73, 0x2E], Prepared([]));
    RunSingle(ps);
  }

  lemma TailOfNone(rest: ByteString)
    requires rest == [0x73, 0x2E]
    ensures Run(rest, Prepared([])) == Some(ReplyValue([]))
  {
    RunLast([]);
    assert PointValues([]) == [];
  }

  lemma Regroup(a: ByteString, b: ByteString, c: ByteString, d: ByteString)
    ensures a + b + c + d == a + (b + (c + d))
  {
  }

  /** The bytes after the header. */
  lemma TailMeaning(ps: seq<Point>, counted: nat, rest: ByteString)
    requires counted == 0 ==> ps == []
    requires rest == Opening(counted) + (PointsBytes(ps) + Ending(counted))
    ensures Run(rest, Prepared([])) == if counted != 1 || |ps| == 1 then Some(ReplyValue(ps)) else None
  {
    if counted > 1 {
      TailOfMany(ps, PointsBytes(ps) + Ending(counted));
    } else if counted == 1 {
      assert rest == PointsBytes(ps) + Ending(counted);
      TailOfOne(ps, rest);
    } else {
      TailOfNone(rest);
    }
  }

  lemma NameBytes()
    ensures NAME == [100, 97, 116, 97, 112, 111, 105, 110, 116, 115]
  {
  }

  /** The reply is right except when the count is 1 and the number of points is not: then it is malformed. */
  lemma ReplyMeaning(ps: seq<Point>, counted: nat, reply: ByteString)
    requires counted == 0 ==> ps == []
    requires reply == HEADER + Opening(counted) + PointsBytes(ps) + Ending(counted)
    ensures Unpickle(reply) ==
            if counted != 1 || |ps| == 1
            then Some(Dict([(Str([100, 97, 116, 97, 112, 111, 105, 110, 116, 115]), List(PointValues(ps)))])) else None
  {
    NameBytes();
    var rest := Opening(counted) + (PointsBytes(ps) + Ending(counted));
    Regroup(HEADER, Opening(counted), PointsBytes(ps), Ending(counted));
    RunHeader(rest);
    TailMeaning(ps, counted, rest);
  }

  lemma NothingCounted(query: Option<Query>)
    ensures Counted(query) == 0 ==> ReplyPoints(query) == []
  {
  }

  /** `numPoints` is 1 but there are several points, or none, exactly when a single batch in flight is all there is. */
  lemma WhenMiscounted(query: Option<Query>)
    ensures Counted(query) == 1 && |ReplyPoints(query)| != 1 <==>
            && query.Some? && |query.value.inFlight| == 1 && |query.value.inFlight[0]| != 1
            && (query.value.cacheData.Some? ==> query.value.cacheData.value == [])
  {
    if query.Some? && |query.value.inFlight| == 1 {
      var batches := query.value.inFlight;
      ConcatOne(batches[0]);
      assert batches == [batches[0]];
    }
  }

  /** The loop over the batches in flight. */
  method PickleBatches(b: ByteString, batches: seq<seq<Point>>) returns (r: ByteString)
    ensures r == b + PointsBytes(Concat(batches))
  {
    r := b;
    for k := 0 to |batches|
      invariant r == b + PointsBytes(Concat(batches[..k]))
    {
      assert batches[..k + 1] == batches[..k] + [batches[k]];
      ConcatLast(batches[..k], batches[k]);
      PointsBytesConcat(Concat(batches[..k]), batches[k]);
      r := PicklePoints(r, batches[k]);
    }
    assert batches[..|batches|] == batches;
  }

  /** The points of the reply, behind its opening. */
  method PickleData(b: ByteString, query: Option<Query>) returns (r: ByteString)
    ensures r == b + PointsBytes(ReplyPoints(query))
  {
    r := b;
    if query.Some? {
      r := PickleBatches(r, query.value.inFlight);
      ghost var batches := Concat(query.value.inFlight);
      if query.value.cacheData.Some? {
        ghost var cached := query.value.cacheData.value;
        PointsBytesConcat(batches, cached);
        Associate(b, PointsBytes(batches), PointsBytes(cached));
        r := PicklePoints(r, query.value.cacheData.value);
      } else {
        assert ReplyPoints(query) == batches;
      }
    }
  }

  ghost function Packed(query: Option<Query>): ByteString {
    HEADER + Opening(Counted(query)) + PointsBytes(ReplyPoints(query)) + Ending(Counted(query))
  }

  /** For every query: the machine reads the points of the reply, unless they are miscounted as one. */
  method PackReply(query: Option<Query>) returns (reply: ByteString)
    ensures reply == Packed(query)
    ensures Unpickle(reply) ==
            if Counted(query) != 1 || |ReplyPoints(query)| == 1
            then Some(Dict([(Str([100, 97, 116, 97, 112, 111, 105, 110, 116, 115]),
                             List(PointValues(ReplyPoints(query))))]))
            else None
  {
    var numPoints := 0;
    if query.Some? {
      numPoints := numPoints + |query.value.inFlight|;
      if query.value.cacheData.Some? {
        numPoints := numPoints + |query.value.cacheData.value|;
      }
    }
    reply := HEADER;
    if numPoints > 1 {
      reply := reply + [0x28];
    }
    assert reply == HEADER + Opening(numPoints);
    reply := PickleData(reply, query);
    if numPoints == 0 {
      reply := reply + [0x73, 0x2E];
    } else if numPoints == 1 {
      reply := reply + [0x61, 0x73, 0x2E];
    } else if numPoints > 1 {
      reply := reply + [0x65, 0x73, 0x2E];
    }
    NothingCounted(query);
    ReplyMeaning(ReplyPoints(query), numPoints, reply);
  }

  /** One batch of two points in flight and nothing cached: the client cannot read the reply. */
  lemma MalformedReply()
    ensures Unpickle(Packed(Some(Query([[Point(0, 1), Point(0, 2)]], None)))) == None
  {
    var batches := [[Point(0, 1), Point(0, 2)]];
    ConcatOne(batches[0]);
    var query := Some(Query(batches, None));
    ReplyMeaning(ReplyPoints(query), 1, Packed(query));
  }

  /** The reply to a query that finds one cached point, byte by byte: value and timestamp of that point. */
  lemma OneCachedPoint(p: Point)
    ensures Packed(Some(Query([], Some([p])))) ==
            [0x80, 0x02, 0x7D, 0x55, 10, 100, 97, 116, 97, 112, 111, 105, 110, 116, 115, 0x5D] +
            ([0x4A] + ToLE(p.timestamp % 0x1_0000_0000, 4) + [0x47] + ToBE(p.value, 8) + [0x86]) + [0x61, 0x73, 0x2E]
  {
    NameBytes();
    var query := Some(Query([], Some([p])));
    assert ReplyPoints(query) == Concat([]) + [p] == [p];
    PointsBytesOne(p);
    Unopened(HEADER, PointBytes(p), [0x61, 0x73, 0x2E]);
    assert Opening(1) == [] && Ending(1) == [0x61, 0x73, 0x2E];
  }

  lemma Unopened(a: ByteString, b: ByteString, c: ByteString)
    ensures a + [] + b + c == a + b + c
  {
  }

  lemma PointsBytesOne(p: Point)
    ensures PointsBytes([p]) == PointBytes(p)
  {
    assert [p][..0] == [];
  }

  /** One point in flight and one cached: the one in flight comes first, behind a mark. */
  lemma FlightThenCache(p: Point, q: Point)
    ensures Packed(Some(Query([[p]], Some([q])))) ==
            [0x80, 0x02, 0x7D, 0x55, 10, 100, 97, 116, 97, 112, 111, 105, 110, 116, 115, 0x5D] + [0x28] +
            (([0x4A] + ToLE(p.timestamp % 0x1_0000_0000, 4) + [0x47] + ToBE(p.value, 8) + [0x86]) +
             ([0x4A] + ToLE(q.timestamp % 0x1_0000_0000, 4) + [0x47] + ToBE(q.value, 8) + [0x86])) + [0x65, 0x73, 0x2E]
  {
    NameBytes();
    ConcatOne([p]);
    PointsBytesConcat([p], [q]);
    PointsBytesOne(p);
    PointsBytesOne(q);
  }
}
