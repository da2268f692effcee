/**
  What the cache promises its worker: entries by metric and a write-out queue over them, as values.
  `CacheStore` proves the real class against these definitions.
 */
module WriteOut {
  import opened Points

  datatype Strategy = MaximumLength | TimestampOrder | Noop

  type Entries = map<Metric, seq<Point>>

  /** The entries, and the write-out queue as metrics, next entry last. */
  datatype Store = Store(points: Entries, queue: seq<Metric>)

  ghost predicate EntriesOk(points: Entries) {
    forall m :: m in points ==> points[m] != []
  }

  ghost predicate StoreOk(s: Store) {
    && EntriesOk(s.points)
    && (forall m :: m in s.queue ==> m in s.points)
    && (forall i, j :: 0 <= i < j < |s.queue| ==> s.queue[i] != s.queue[j])
  }

  // ---- Number of points ----

  /** Every cached point, as a metric and a position. */
  ghost function Positions(points: Entries): set<(Metric, int)> {
    set m, i | m in points && 0 <= i < |points[m]| :: (m, i)
  }

  ghost function Total(points: Entries): nat {
    |Positions(points)|
  }

  ghost function Span(m: Metric, from: nat, to: nat): set<(Metric, int)> {
    set i | from <= i < to :: (m, i)
  }

  lemma {:induction false} SpanSize(m: Metric, from: nat, to: nat)
    requires from <= to
    ensures |Span(m, from, to)| == to - from
  {
    if from < to {
      SpanSize(m, from, to - 1);
      assert Span(m, from, to) == Span(m, from, to - 1) + {(m, to - 1)};
    } else {
      assert Span(m, from, to) == {};
    }
  }

  lemma PositionIs(points: Entries, m: Metric, i: int)
    ensures (m, i) in Positions(points) <==> m in points && 0 <= i < |points[m]|
  {
  }

  function LengthOf(points: Entries, m: Metric): nat {
    if m in points then |points[m]| else 0
  }

  /** One entry grew; the number of points grew by as much. */
  lemma TotalGrows(points: Entries, m: Metric, points': Entries)
    requires forall n :: n != m ==> (n in points' <==> n in points) && (n in points ==> points'[n] == points[n])
    requires LengthOf(points, m) <= LengthOf(points', m)
    ensures Total(points') == Total(points) + LengthOf(points', m) - LengthOf(points, m)
  {
    var extra := Span(m, LengthOf(points, m), LengthOf(points', m));
    forall n: Metric, i: int
      ensures (n, i) in Positions(points') <==> (n, i) in Positions(points) || (n, i) in extra
      ensures (n, i) in extra ==> (n, i) !in Positions(points)
    {
      PositionIs(points', n, i);
      PositionIs(points, n, i);
    }
    forall x
      ensures x in Positions(points') <==> x in Positions(points) + extra
      ensures x in extra ==> x !in Positions(points)
    {
      assert x == (x.0, x.1);
    }
    assert Positions(points') == Positions(points) + extra;
    assert Positions(points) * extra == {};
    SpanSize(m, LengthOf(points, m), LengthOf(points', m));
  }

  lemma TotalRemoves(points: Entries, m: Metric)
    requires m in points
    ensures Total(points) == Total(points - {m}) + |points[m]|
  {
    TotalGrows(points - {m}, m, points);
  }

  lemma TotalOfNothing(points: Entries)
    requires EntriesOk(points)
    ensures Total(points) == 0 <==> points == map[]
  {
    if m :| m in points {
      TotalRemoves(points, m);
    } else {
      assert Positions(points) == {};
    }
  }

  // ---- The write-out queue ----

  function FirstTimestamp(points: Entries, m: Metric): int {
    if m in points && points[m] != [] then points[m][0].timestamp else 0
  }

  /** The order sort.Sort leaves behind, for the Less of the strategy. */
  ghost predicate InOrder(strategy: Strategy, points: Entries, queue: seq<Metric>) {
    match strategy
    case MaximumLength =>
      forall i, j :: 0 <= i < j < |queue| ==> LengthOf(points, queue[i]) <= LengthOf(points, queue[j])
    case TimestampOrder =>
      forall i, j :: 0 <= i < j < |queue| ==> FirstTimestamp(points, queue[i]) >= FirstTimestamp(points, queue[j])
    case Noop => true
  }

  /** updateQueue: every entry once, in the order of the strategy. */
  ghost predicate IsRebuild(strategy: Strategy, points: Entries, queue: seq<Metric>) {
    && (forall m :: m in queue <==> m in points)
    && (forall i, j :: 0 <= i < j < |queue| ==> queue[i] != queue[j])
    && InOrder(strategy, points, queue)
  }

  ghost function Rebuilds(strategy: Strategy, points: Entries): iset<seq<Metric>> {
    iset queue | IsRebuild(strategy, points, queue)
  }

  /** The entry of the metric with more points behind it, or a new one. */
  function Extended(points: Entries, m: Metric, ps: seq<Point>): Entries {
    points[m := (if m in points then points[m] else []) + ps]
  }

  function Added(s: Store, m: Metric, ps: seq<Point>): Store {
    s.(points := Extended(s.points, m, ps))
  }

  function PoppedFrom(s: Store, queue: seq<Metric>): Store
    requires queue != []
  {
    Store(s.points - {queue[|queue| - 1]}, queue[..|queue| - 1])
  }

  /** The queue a Pop takes from: the current one, or a new one when it is empty. */
  ghost predicate PopsFrom(strategy: Strategy, s: Store, queue: seq<Metric>) {
    if s.queue != [] then queue == s.queue else queue in Rebuilds(strategy, s.points)
  }

  lemma PopKeeps(strategy: Strategy, s: Store, queue: seq<Metric>)
    requires StoreOk(s) && PopsFrom(strategy, s, queue) && queue != []
    ensures StoreOk(PoppedFrom(s, queue))
    ensures queue[|queue| - 1] in s.points && queue[|queue| - 1] !in PoppedFrom(s, queue).points
  {
    assert queue[|queue| - 1] in queue;
    var rest := queue[..|queue| - 1];
    assert forall i :: 0 <= i < |rest| ==> rest[i] == queue[i];
  }

  // ---- Runs of Adds and Pops ----

  datatype Op = AddOp(metric: Metric, points: seq<Point>) | PopOp(queue: seq<Metric>)

  /** A Pop of an empty cache returns nil, so runs only record the others. */
  ghost predicate Next(strategy: Strategy, s: Store, op: Op, t: Store) {
    match op
    case AddOp(m, ps) => ps != [] && t == Added(s, m, ps)
    case PopOp(queue) => PopsFrom(strategy, s, queue) && queue != [] && t == PoppedFrom(s, queue)
  }

  ghost predicate IsRun(strategy: Strategy, ss: seq<Store>, ops: seq<Op>) {
    && |ss| == |ops| + 1
    && StoreOk(ss[0])
    && forall i {:trigger ops[i]} :: 0 <= i < |ops| ==> Next(strategy, ss[i], ops[i], ss[i + 1])
  }

  function Returned(op: Op): Option<Metric> {
    if op.PopOp? && op.queue != [] then Some(op.queue[|op.queue| - 1]) else None
  }

  lemma NextKeeps(strategy: Strategy, s: Store, op: Op, t: Store)
    requires StoreOk(s) && Next(strategy, s, op, t)
    ensures StoreOk(t)
  {
    if op.PopOp? { PopKeeps(strategy, s, op.queue); }
  }

  lemma {:induction false} RunOk(strategy: Strategy, ss: seq<Store>, ops: seq<Op>, i: nat)
    requires IsRun(strategy, ss, ops) && i < |ss|
    ensures StoreOk(ss[i])
  {
    if i > 0 {
      RunOk(strategy, ss, ops, i - 1);
      assert Next(strategy, ss[i - 1], ops[i - 1], ss[i]);
      NextKeeps(strategy, ss[i - 1], ops[i - 1], ss[i]);
    }
  }

  // ---- No entry waits for ever ----

  function Pops(ops: seq<Op>): nat {
    if ops == [] then 0 else (if ops[0].PopOp? then 1 else 0) + Pops(ops[1..])
  }

  /** The number of entries when the queue is first rebuilt in the run, or 0 if it is not. */
  function FirstRebuild(ss: seq<Store>, ops: seq<Op>): nat
    requires |ss| == |ops| + 1
  {
    if ops == [] then 0
    else if ops[0].PopOp? && ss[0].queue == [] then |ops[0].queue|
    else FirstRebuild(ss[1..], ops[1..])
  }

  lemma RunTail(strategy: Strategy, ss: seq<Store>, ops: seq<Op>)
    requires IsRun(strategy, ss, ops) && ops != []
    ensures Next(strategy, ss[0], ops[0], ss[1])
    ensures IsRun(strategy, ss[1..], ops[1..])
  {
    assert Next(strategy, ss[0], ops[0], ss[1]);
    RunOk(strategy, ss, ops, 1);
    var ss', ops' := ss[1..], ops[1..];
    forall i {:trigger ops'[i]} | 0 <= i < |ops'|
      ensures Next(strategy, ss'[i], ops'[i], ss'[i + 1])
    {
      assert ops'[i] == ops[i + 1];
    }
  }

  /** An entry at position `i` of the queue is returned by the (|queue| - i)-th Pop. */
  lemma {:induction false} QueuedIsPopped(strategy: Strategy, ss: seq<Store>, ops: seq<Op>, m: Metric, i: nat)
    requires IsRun(strategy, ss, ops) && i < |ss[0].queue| && ss[0].queue[i] == m
    requires forall k :: 0 <= k < |ops| ==> Returned(ops[k]) != Some(m)
    ensures Pops(ops) < |ss[0].queue| - i
    decreases |ops|
  {
    if ops != [] {
      RunTail(strategy, ss, ops);
      assert Returned(ops[0]) != Some(m);
      assert forall k :: 0 <= k < |ops[1..]| ==> Returned(ops[1..][k]) == Returned(ops[k + 1]);
      QueuedIsPopped(strategy, ss[1..], ops[1..], m, i);
    }
  }

  /**
    A cached metric is returned within |queue| plus the number of entries at the next rebuild Pops:
    a run that has not returned it has had fewer, whatever Adds came in between.
   */
  lemma {:induction false} EveryEntryIsPopped(strategy: Strategy, ss: seq<Store>, ops: seq<Op>, m: Metric)
    requires IsRun(strategy, ss, ops) && m in ss[0].points
    requires forall k :: 0 <= k < |ops| ==> Returned(ops[k]) != Some(m)
    ensures FirstRebuild(ss, ops) == 0 ==> Pops(ops) <= |ss[0].queue|
    ensures FirstRebuild(ss, ops) > 0 ==> Pops(ops) < |ss[0].queue| + FirstRebuild(ss, ops)
    decreases |ops|
  {
    if ops != [] {
      RunTail(strategy, ss, ops);
      assert Returned(ops[0]) != Some(m);
      assert forall k :: 0 <= k < |ops[1..]| ==> Returned(ops[1..][k]) == Returned(ops[k + 1]);
      if ops[0].PopOp? && ss[0].queue == [] {
        var i :| 0 <= i < |ops[0].queue| && ops[0].queue[i] == m;
        QueuedIsPopped(strategy, ss[1..], ops[1..], m, i);
      } else {
        EveryEntryIsPopped(strategy, ss[1..], ops[1..], m);
      }
    }
  }

  // ---- Timestamp order ----

  /** Growing entries keep their first timestamps, so a sorted queue stays sorted. */
  lemma AddKeepsFirst(s: Store, m: Metric, ps: seq<Point>, n: Metric)
    requires StoreOk(s) && n in s.points
    ensures FirstTimestamp(Added(s, m, ps).points, n) == FirstTimestamp(s.points, n)
  {
  }

  /** The queue is sorted, and none of its entries starts before `t`. */
  ghost predicate SortedFrom(s: Store, t: int) {
    && InOrder(TimestampOrder, s.points, s.queue)
    && forall m :: m in s.queue ==> FirstTimestamp(s.points, m) >= t
  }

  lemma StepKeepsSorted(s: Store, op: Op, s': Store, t: int)
    requires StoreOk(s) && Next(TimestampOrder, s, op, s') && SortedFrom(s, t)
    requires op.PopOp? ==> s.queue != []
    ensures SortedFrom(s', t)
    ensures op.PopOp? ==>
              var first := FirstTimestamp(s.points, op.queue[|op.queue| - 1]); first >= t && SortedFrom(s', first)
  {
    if op.PopOp? {
      var last := op.queue[|op.queue| - 1];
      assert last in s.queue;
      forall m | m in s'.queue
        ensures m in s.queue && m != last
        ensures FirstTimestamp(s'.points, m) == FirstTimestamp(s.points, m) >= FirstTimestamp(s.points, last)
      {
        var i :| 0 <= i < |s'.queue| && s'.queue[i] == m;
        assert s.queue[i] == m;
      }
      assert forall i :: 0 <= i < |s'.queue| ==> s'.queue[i] == s.queue[i] && s'.queue[i] in s'.queue;
    } else {
      forall m | m in s.queue
        ensures FirstTimestamp(s'.points, m) == FirstTimestamp(s.points, m)
      {
        AddKeepsFirst(s, op.metric, op.points, m);
      }
    }
  }

  /** The queue left by the Pop that starts a cycle is sorted from the popped entry's first timestamp. */
  lemma RebuildIsSorted(s: Store, op: Op, s': Store)
    requires StoreOk(s) && op.PopOp? && s.queue == [] && Next(TimestampOrder, s, op, s')
    ensures SortedFrom(s', FirstTimestamp(s.points, op.queue[|op.queue| - 1]))
  {
    var last := op.queue[|op.queue| - 1];
    forall i | 0 <= i < |s'.queue|
      ensures s'.queue[i] == op.queue[i]
      ensures FirstTimestamp(s'.points, s'.queue[i]) == FirstTimestamp(s.points, op.queue[i])
              >= FirstTimestamp(s.points, last)
    {
      RestOfRebuild(s, op.queue, i);
    }
    forall m | m in s'.queue
      ensures FirstTimestamp(s'.points, m) >= FirstTimestamp(s.points, last)
    {
      var i :| 0 <= i < |s'.queue| && s'.queue[i] == m;
    }
  }

  lemma RestOfRebuild(s: Store, queue: seq<Metric>, i: nat)
    requires IsRebuild(TimestampOrder, s.points, queue) && i < |queue| - 1
    ensures var s', last := PoppedFrom(s, queue), queue[|queue| - 1];
            && s'.queue[i] == queue[i]
            && FirstTimestamp(s'.points, queue[i]) == FirstTimestamp(s.points, queue[i])
                  >= FirstTimestamp(s.points, last)
  {
    assert queue[i] != queue[|queue| - 1];
  }

  /** After a Pop, until the next rebuild, every state's queue is sorted from that Pop's timestamp. */
  lemma {:induction false} CycleStaysSorted(ss: seq<Store>, ops: seq<Op>, i: nat, j: nat)
    requires IsRun(TimestampOrder, ss, ops) && ss[0].queue == [] && i < j < |ss|
    requires ops[i].PopOp? && forall k :: i < k < j && ops[k].PopOp? ==> ss[k].queue != []
    ensures ops[i].queue != [] && SortedFrom(ss[j], FirstTimestamp(ss[i].points, ops[i].queue[|ops[i].queue| - 1]))
    decreases j
  {
    RunOk(TimestampOrder, ss, ops, j - 1);
    assert Next(TimestampOrder, ss[j - 1], ops[j - 1], ss[j]);
    assert Next(TimestampOrder, ss[i], ops[i], ss[i + 1]);
    if i < j - 1 {
      CycleStaysSorted(ss, ops, i, j - 1);
      StepKeepsSorted(ss[j - 1], ops[j - 1], ss[j], FirstTimestamp(ss[i].points, ops[i].queue[|ops[i].queue| - 1]));
    } else if ss[i].queue == [] {
      RebuildIsSorted(ss[i], ops[i], ss[j]);
    } else {
      QueueIsSorted(ss, ops, i);
      StepKeepsSorted(ss[i], ops[i], ss[j], FirstTimestamp(ss[i].points, ss[i].queue[|ss[i].queue| - 1]));
    }
  }

  lemma TopIsFirst(s: Store, t: int)
    requires SortedFrom(s, t) && s.queue != []
    ensures SortedFrom(s, FirstTimestamp(s.points, s.queue[|s.queue| - 1]))
  {
    forall m | m in s.queue
      ensures FirstTimestamp(s.points, m) >= FirstTimestamp(s.points, s.queue[|s.queue| - 1])
    {
      var k :| 0 <= k < |s.queue| && s.queue[k] == m;
    }
  }

  /** The queue is sorted from the entry that the next Pop takes. */
  ghost predicate SortedFromTop(s: Store) {
    s.queue != [] ==> SortedFrom(s, FirstTimestamp(s.points, s.queue[|s.queue| - 1]))
  }

  lemma StepKeepsTop(s: Store, op: Op, s': Store)
    requires StoreOk(s) && Next(TimestampOrder, s, op, s') && SortedFromTop(s)
    ensures SortedFromTop(s')
  {
    if s'.queue != [] {
      if s.queue == [] {
        RebuildIsSorted(s, op, s');
        TopIsFirst(s', FirstTimestamp(s.points, op.queue[|op.queue| - 1]));
      } else {
        StepKeepsSorted(s, op, s', FirstTimestamp(s.points, s.queue[|s.queue| - 1]));
        TopIsFirst(s', FirstTimestamp(s.points, s.queue[|s.queue| - 1]));
      }
    }
  }

  /** In a run that starts with no queue, the queue is always sorted by first timestamp. */
  lemma {:induction false} QueueIsSorted(ss: seq<Store>, ops: seq<Op>, i: nat)
    requires IsRun(TimestampOrder, ss, ops) && ss[0].queue == [] && i < |ss|
    ensures SortedFromTop(ss[i])
    decreases i
  {
    if i > 0 {
      QueueIsSorted(ss, ops, i - 1);
      RunOk(TimestampOrder, ss, ops, i - 1);
      assert Next(TimestampOrder, ss[i - 1], ops[i - 1], ss[i]);
      StepKeepsTop(ss[i - 1], ops[i - 1], ss[i]);
    }
  }

  /**
    Under TimestampOrder, the batches popped within one queue cycle have non-decreasing first
    timestamps at the time they are popped, however much the queued entries grow meanwhile.
   */
  lemma TimestampsAscend(ss: seq<Store>, ops: seq<Op>, i: nat, j: nat)
    requires IsRun(TimestampOrder, ss, ops) && ss[0].queue == [] && i < j < |ops|
    requires ops[i].PopOp? && ops[j].PopOp?
    requires forall k :: i < k <= j && ops[k].PopOp? ==> ss[k].queue != []
    ensures Returned(ops[i]).Some? && Returned(ops[j]).Some?
    ensures FirstTimestamp(ss[i].points, Returned(ops[i]).value) <= FirstTimestamp(ss[j].points, Returned(ops[j]).value)
  {
    assert Next(TimestampOrder, ss[i], ops[i], ss[i + 1]);
    assert Next(TimestampOrder, ss[j], ops[j], ss[j + 1]);
    CycleStaysSorted(ss, ops, i, j);
    assert ss[j].queue[|ss[j].queue| - 1] in ss[j].queue;
  }

  // ---- The order within a cycle ----

  /** A Pop that rebuilds the queue returns an entry at least as long as every other, under MaximumLength. */
  lemma LongestFirst(s: Store, op: Op, s': Store)
    requires StoreOk(s) && s.queue == [] && op.PopOp? && Next(MaximumLength, s, op, s')
    ensures Returned(op).Some? && Returned(op).value in s.points
    ensures forall m :: m in s.points ==> |s.points[m]| <= |s.points[Returned(op).value]|
  {
    assert Returned(op).value in op.queue;
    forall m | m in s.points
      ensures |s.points[m]| <= |s.points[Returned(op).value]|
    {
      var i :| 0 <= i < |op.queue| && op.queue[i] == m;
      assert LengthOf(s.points, op.queue[i]) <= LengthOf(s.points, op.queue[|op.queue| - 1]);
    }
  }

  /** And one that starts at least as early as every other, under TimestampOrder. */
  lemma EarliestFirst(s: Store, op: Op, s': Store)
    requires StoreOk(s) && s.queue == [] && op.PopOp? && Next(TimestampOrder, s, op, s')
    ensures Returned(op).Some? && Returned(op).value in s.points
    ensures forall m :: m in s.points ==> s.points[m][0].timestamp >= s.points[Returned(op).value][0].timestamp
  {
    assert Returned(op).value in op.queue;
    forall m | m in s.points
      ensures s.points[m][0].timestamp >= s.points[Returned(op).value][0].timestamp
    {
      var i :| 0 <= i < |op.queue| && op.queue[i] == m;
      assert FirstTimestamp(s.points, op.queue[i]) >= FirstTimestamp(s.points, op.queue[|op.queue| - 1]);
    }
  }

  /** Step `i` is a Pop, and no Pop after it, up to step `j`, rebuilds the queue. */
  ghost predicate SameCycle(ss: seq<Store>, ops: seq<Op>, i: nat, j: nat)
    requires |ss| == |ops| + 1 && i <= j <= |ops|
  {
    i < |ops| && ops[i].PopOp? && forall k :: i < k < j && ops[k].PopOp? ==> ss[k].queue != []
  }

  /** Within a cycle the queue only gets shorter at its end. */
  lemma {:induction false} CycleQueue(strategy: Strategy, ss: seq<Store>, ops: seq<Op>, i: nat, j: nat)
    requires IsRun(strategy, ss, ops) && i < j <= |ops| && SameCycle(ss, ops, i, j)
    ensures ops[i].queue != [] && ss[j].queue <= ops[i].queue[..|ops[i].queue| - 1]
    decreases j
  {
    assert Next(strategy, ss[j - 1], ops[j - 1], ss[j]);
    if i < j - 1 { CycleQueue(strategy, ss, ops, i, j - 1); }
  }

  /** What is returned at step `i` of a cycle stood at this place in the queue that the cycle began with. */
  lemma PlaceInCycle(strategy: Strategy, ss: seq<Store>, ops: seq<Op>, r: nat, i: nat)
    requires IsRun(strategy, ss, ops) && r <= i < |ops| && ops[i].PopOp? && SameCycle(ss, ops, r, i + 1)
    ensures 0 < |ops[i].queue| <= |ops[r].queue| && Returned(ops[i]) == Some(ops[r].queue[|ops[i].queue| - 1])
  {
    assert Next(strategy, ss[i], ops[i], ss[i + 1]);
    if r < i { CycleQueue(strategy, ss, ops, r, i); }
  }

  /**
    Under MaximumLength, what is returned within a cycle does not get longer, by the lengths at the
    rebuild that the cycle began with.
   */
  lemma LengthsDescend(ss: seq<Store>, ops: seq<Op>, r: nat, i: nat, j: nat)
    requires IsRun(MaximumLength, ss, ops) && r <= i < j < |ops| && ss[r].queue == []
    requires ops[r].PopOp? && ops[i].PopOp? && ops[j].PopOp?
    requires forall k :: r < k <= j && ops[k].PopOp? ==> ss[k].queue != []
    ensures Returned(ops[i]).Some? && Returned(ops[j]).Some?
    ensures Returned(ops[i]).value in ss[r].points && Returned(ops[j]).value in ss[r].points
    ensures |ss[r].points[Returned(ops[i]).value]| >= |ss[r].points[Returned(ops[j]).value]|
  {
    assert Next(MaximumLength, ss[r], ops[r], ss[r + 1]);
    assert Next(MaximumLength, ss[j], ops[j], ss[j + 1]);
    PlaceInCycle(MaximumLength, ss, ops, r, i);
    PlaceInCycle(MaximumLength, ss, ops, r, j);
    CycleQueue(MaximumLength, ss, ops, i, j);
    var q, a, b := ops[r].queue, |ops[i].queue| - 1, |ops[j].queue| - 1;
    assert q[a] in q && q[b] in q;
    assert LengthOf(ss[r].points, q[b]) <= LengthOf(ss[r].points, q[a]);
  }

  // ---- The size limit ----

  /** The receive branch adds a message only while the uint32 size counter is below `maxSize`. */
  ghost predicate LimitRespected(maxSize: nat, ss: seq<Store>, ops: seq<Op>)
    requires |ss| == |ops| + 1
  {
    forall i :: 0 <= i < |ops| && ops[i].AddOp? ==> Wrap32(Total(ss[i].points)) < maxSize
  }

  lemma StepTotal(strategy: Strategy, s: Store, op: Op, t: Store)
    requires StoreOk(s) && Next(strategy, s, op, t)
    ensures op.AddOp? ==> Total(t.points) == Total(s.points) + |op.points|
    ensures op.PopOp? ==> Total(t.points) <= Total(s.points)
  {
    if op.AddOp? {
      TotalGrows(s.points, op.metric, t.points);
    } else {
      PopKeeps(strategy, s, op.queue);
      TotalRemoves(s.points, Returned(op).value);
    }
  }

  /**
    With a limit, the cache never holds `maxSize` points plus the longest accepted message; so if that
    sum fits the counter, the counter never wraps around.
   */
  lemma {:induction false} SizeStaysBelow(strategy: Strategy, maxSize: nat, longest: nat,
                                          ss: seq<Store>, ops: seq<Op>, i: nat)
    requires IsRun(strategy, ss, ops) && ss[0].points == map[] && maxSize > 0
    requires maxSize + longest <= TWO_TO_THE_32
    requires LimitRespected(maxSize, ss, ops)
    requires forall k :: 0 <= k < |ops| && ops[k].AddOp? ==> |ops[k].points| <= longest
    requires i < |ss|
    ensures Total(ss[i].points) < maxSize + longest
  {
    if i == 0 {
      TotalOfNothing(ss[0].points);
    } else {
      SizeStaysBelow(strategy, maxSize, longest, ss, ops, i - 1);
      RunOk(strategy, ss, ops, i - 1);
      assert Next(strategy, ss[i - 1], ops[i - 1], ss[i]);
      StepTotal(strategy, ss[i - 1], ops[i - 1], ss[i]);
    }
  }
}
