/** The steps of the cache worker and of the tracker keep the invariant. */
module PipelineCache {
  import opened Points
  import opened PipelineModel
  import opened PipelineInvariant
  import opened Sequences

  /** Nothing downstream of the hand-off moved. */
  ghost predicate SameFlow(s: State, t: State) {
    && t.inflight == s.inflight && t.confirmed == s.confirmed && t.confirmChan == s.confirmChan
    && t.out == s.out && t.pending == s.pending && t.persister == s.persister
    && t.stored == s.stored && t.drained == s.drained
  }

  /** Batches keep their place in the metric's chain, and may only grow. */
  ghost predicate ChainGrows(s: State, t: State, m: Metric) {
    Chain(s, m) <= Chain(t, m) && forall r :: r in Chain(s, m) ==> Data(s.heap, r) <= Data(t.heap, r)
  }

  /** What a query relies on: batches handed over or held keep their place and their points. */
  ghost predicate Extends(s: State, t: State, m: Metric) {
    && ChainGrows(s, t, m)
    && Handed(s, m) <= Handed(t, m)
    && Handed(s, m) + HeldOf(s, m) <= Handed(t, m) + HeldOf(t, m)
    && (forall r :: r in Handed(s, m) + HeldOf(s, m) ==> Data(s.heap, r) == Data(t.heap, r))
    && s.accepted <= t.accepted
  }

  /** The handed-over part of a query keeps its points. */
  lemma HandedExtends(s: State, t: State, m: Metric, upto: nat)
    requires Extends(s, t, m) && upto <= |Handed(s, m)|
    ensures upto <= |Handed(t, m)| && Pts(t.heap, Handed(t, m)[..upto]) == Pts(s.heap, Handed(s, m)[..upto])
  {
    PrefixAt(Handed(s, m), Handed(t, m), upto);
    PtsFrame(s.heap, t.heap, Handed(s, m)[..upto]);
  }

  /** So does the held batch, which keeps its place. */
  lemma AliasExtends(s: State, t: State, m: Metric, upto: nat)
    requires Extends(s, t, m) && upto < |Handed(s, m) + HeldOf(s, m)|
    ensures var a, b := Handed(s, m) + HeldOf(s, m), Handed(t, m) + HeldOf(t, m);
            upto < |b| && b[upto] == a[upto] && Data(t.heap, a[upto]) == Data(s.heap, a[upto])
  {
    PrefixAt(Handed(s, m) + HeldOf(s, m), Handed(t, m) + HeldOf(t, m), upto);
  }

  lemma CoveredExtends(s: State, t: State, q: Taken)
    requires Covered(s, q) && Extends(s, t, q.query.metric)
    ensures Covered(t, q)
  {
    var m := q.query.metric;
    HandedExtends(s, t, m, q.upto);
    PrefixAt(s.accepted, t.accepted, q.accLen);
    if q.cacheData.Alias? { AliasExtends(s, t, m, q.upto); }
    if q.skipped != [] { PrefixAt(Chain(s, m), Chain(t, m), q.upto + 1); }
  }

  lemma QueriesExtend(s: State, t: State)
    requires QueryInv(s)
    requires forall m :: Extends(s, t, m)
    requires Unanswered(t) == Unanswered(s) && t.answered == s.answered && t.queries == s.queries && t.asked == s.asked
    ensures QueryInv(t)
  {
    forall i | 0 <= i < |Unanswered(t)|
      ensures Covered(t, Unanswered(t)[i])
    {
      CoveredExtends(s, t, Unanswered(s)[i]);
    }
  }

  // ---- The outside world ----

  /** The new batch is none of the metric's earlier ones. */
  lemma SendChain(s: State, m: Metric, ps: seq<Point>, x: Metric)
    requires PointsInv(s, x) && IdInv(s, x) && |s.input| <= s.nextId
    ensures Chain(Send(s, m, ps), x) == Chain(s, x)
    ensures PointsInv(Send(s, m, ps), x) && IdInv(Send(s, m, ps), x)
    ensures forall r :: r in Chain(s, x) ==> Data(Send(s, m, ps).heap, r) == Data(s.heap, r)
  {
    var t := Send(s, m, ps);
    assert Chain(t, x) == Chain(s, x);
    assert forall r :: r in Chain(s, x) ==> Data(t.heap, r) == Data(s.heap, r);
    PtsFrame(s.heap, t.heap, Chain(s, x));
  }

  lemma SendMetric(sys: System, s: State, m: Metric, ps: seq<Point>, x: Metric)
    requires MetricInv(sys, s, x) && |s.input| <= s.nextId
    ensures MetricInv(sys, Send(s, m, ps), x) && Extends(s, Send(s, m, ps), x)
  {
    FlowSame(sys, s, Send(s, m, ps), x);
    SendChain(s, m, ps, x);
    assert forall r :: r in Handed(s, x) + HeldOf(s, x) ==> r in Chain(s, x);
  }

  lemma SendKeeps(sys: System, s: State, m: Metric, ps: seq<Point>)
    requires Inv(sys, s)
    ensures Inv(sys, Send(s, m, ps))
  {
    var t := Send(s, m, ps);
    forall x
      ensures MetricInv(sys, t, x) && Extends(s, t, x)
    {
      assert MetricInv(sys, s, x);
      SendMetric(sys, s, m, ps, x);
    }
    QueriesExtend(s, t);
  }

  lemma AskKeeps(sys: System, s: State, m: Metric)
    requires Inv(sys, s)
    ensures Inv(sys, Ask(s, m))
  {
    var t := Ask(s, m);
    forall x
      ensures MetricInv(sys, t, x) && Extends(s, t, x)
    {
      assert MetricInv(sys, s, x);
      assert Chain(t, x) == Chain(s, x);
    }
    forall i | 0 <= i < |Unanswered(t)|
      ensures Covered(t, Unanswered(t)[i])
    {
      CoveredExtends(s, t, Unanswered(s)[i]);
    }
  }

  // ---- Cache.worker ----

  lemma PopChain(s: State, queue: seq<Ref>, m: Metric)
    requires queue != [] && s.held.None?
    requires s.data.Keys >= {queue[|queue| - 1].metric}
    requires s.data[queue[|queue| - 1].metric] == queue[|queue| - 1]
    ensures Chain(PopFrom(s, queue), m) == Chain(s, m)
    ensures Extends(s, PopFrom(s, queue), m)
  {
    var r, t := queue[|queue| - 1], PopFrom(s, queue);
    OfMember([r], m);
    assert HeldOf(s, m) == [];
    assert HeldOf(t, m) + EntryOf(t, m) == EntryOf(s, m);
  }

  lemma PopStructure(sys: System, s: State, queue: seq<Ref>)
    requires CacheInv(sys, s) && queue != []
    requires forall i, j :: 0 <= i < j < |queue| ==> queue[i] != queue[j]
    requires forall r :: r in queue ==> r.metric in s.data && s.data[r.metric] == r
    ensures CacheInv(sys, PopFrom(s, queue).(pc := Select))
  {
    var t := PopFrom(s, queue);
    assert forall i :: 0 <= i < |t.queue| ==> t.queue[i] == queue[i];
  }

  lemma PopMetric(sys: System, s: State, queue: seq<Ref>, m: Metric)
    requires MetricInv(sys, s, m) && queue != [] && s.held.None?
    requires s.data.Keys >= {queue[|queue| - 1].metric}
    requires s.data[queue[|queue| - 1].metric] == queue[|queue| - 1]
    ensures MetricInv(sys, PopFrom(s, queue).(pc := Select), m)
    ensures Extends(s, PopFrom(s, queue).(pc := Select), m)
  {
    var t := PopFrom(s, queue).(pc := Select);
    PopChain(s, queue, m);
    FlowSame(sys, s, t, m);
    assert Chain(t, m) == Chain(PopFrom(s, queue), m);
  }

  lemma PopKeeps(sys: System, s: State, queue: seq<Ref>)
    requires Inv(sys, s) && queue != [] && s.held.None? && s.pc.Head?
    requires forall i, j :: 0 <= i < j < |queue| ==> queue[i] != queue[j]
    requires forall r :: r in queue ==> r.metric in s.data && s.data[r.metric] == r
    ensures Inv(sys, PopFrom(s, queue).(pc := Select))
  {
    var t := PopFrom(s, queue).(pc := Select);
    PopStructure(sys, s, queue);
    assert queue[|queue| - 1] in queue;
    forall m
      ensures MetricInv(sys, t, m) && Extends(s, t, m)
    {
      assert MetricInv(sys, s, m);
      PopMetric(sys, s, queue, m);
    }
    QueriesExtend(s, t);
  }

  lemma RebuildOfNothing(order: seq<Ref>, data: map<Metric, Ref>)
    requires IsRebuild(order, data)
    ensures order == [] <==> data == map[]
  {
    if order != [] { assert order[0] in order; }
    if m :| m in data { assert data[m] in order; }
  }

  lemma CacheHeadKeeps(sys: System, s: State, order: seq<Ref>)
    requires Inv(sys, s) && s.pc.Head? && IsRebuild(order, s.data)
    ensures Inv(sys, CacheHead(sys, s, order))
  {
    if Pops(sys, s, order) {
      QueueIsFine(sys, s, order);
      PopKeeps(sys, s, PopQueue(s, order));
    } else {
      RebuildOfNothing(order, s.data);
      StayStructure(sys, s, s.(pc := Select));
      StayKeeps(sys, s, s.(pc := Select));
    }
  }

  lemma QueueIsFine(sys: System, s: State, order: seq<Ref>)
    requires CacheInv(sys, s) && IsRebuild(order, s.data)
    ensures var queue := PopQueue(s, order);
            && (forall i, j :: 0 <= i < j < |queue| ==> queue[i] != queue[j])
            && (forall r :: r in queue ==> r.metric in s.data && s.data[r.metric] == r)
  {
  }

  lemma StayStructure(sys: System, s: State, t: State)
    requires CacheInv(sys, s) && t == s.(pc := t.pc)
    requires t.pc.Select? && s.held.None? ==> s.input != [] || s.data == map[]
    ensures CacheInv(sys, t)
  {
  }

  /** A step that moves no batch and answers no query. */
  lemma StayKeeps(sys: System, s: State, t: State)
    requires Inv(sys, s) && CacheInv(sys, t)
    requires t == s.(pc := t.pc) && !s.pc.Forward? && !t.pc.Forward?
    ensures Inv(sys, t)
  {
    forall m
      ensures MetricInv(sys, t, m) && Extends(s, t, m)
    {
      assert MetricInv(sys, s, m);
      assert Chain(t, m) == Chain(s, m);
    }
    QueriesExtend(s, t);
  }

  lemma FlowSame(sys: System, s: State, t: State, m: Metric)
    requires SameFlow(s, t) && FlightInv(sys, s, m) && StoredInv(sys, s, m)
    ensures FlightInv(sys, t, m) && StoredInv(sys, t, m)
    ensures Handed(t, m) == Handed(s, m)
  {
  }

  lemma LastIsNew(a: seq<Ref>, b: seq<Ref>, r: Ref)
    requires Increasing(a + (b + [r]))
    ensures r !in a + b
  {
    var rs := a + (b + [r]);
    assert rs[|a| + |b|] == r;
    assert forall i :: 0 <= i < |a + b| ==> (a + b)[i] == rs[i];
  }

  /** A metric's entry is the last batch of its chain, and so none of the earlier ones. */
  lemma EntryIsLast(s: State, m: Metric)
    requires IdInv(s, m) && m in s.data && s.data[m].metric == m
    ensures s.data[m] !in Handed(s, m) + HeldOf(s, m)
  {
    LastIsNew(Handed(s, m), HeldOf(s, m), s.data[m]);
  }

  lemma ReceiveGrows(s: State, accept: bool, m: Metric)
    requires s.input != []
    requires s.input[0].metric in s.data ==> s.data[s.input[0].metric].metric == s.input[0].metric
    ensures ChainGrows(s, Receive(s, accept), m)
  {
    var t := Receive(s, accept);
    assert Handed(t, m) == Handed(s, m) && HeldOf(t, m) == HeldOf(s, m) && EntryOf(s, m) <= EntryOf(t, m);
  }

  lemma ReceiveExtends(s: State, accept: bool, m: Metric)
    requires s.input != [] && IdInv(s, m)
    requires s.input[0].metric in s.data ==> s.data[s.input[0].metric].metric == s.input[0].metric
    ensures Extends(s, Receive(s, accept), m)
    ensures var r := s.input[0];
            accept && r.metric in s.data && r.metric == m ==> s.data[m] !in Handed(s, m) + HeldOf(s, m)
  {
    ReceiveGrows(s, accept, m);
    if m in s.data && m == s.input[0].metric { EntryIsLast(s, m); }
    assert forall r :: r in Handed(s, m) + HeldOf(s, m) ==> r in Chain(s, m);
  }

  lemma AddNewEntryChain(s: State, m: Metric)
    requires s.input != [] && s.input[0].metric !in s.data
    ensures Chain(Receive(s, true), m) == Chain(s, m) + (if m == s.input[0].metric then [s.input[0]] else [])
  {
    if m == s.input[0].metric { Snoc(Handed(s, m), HeldOf(s, m), s.input[0]); }
  }

  lemma AddNewEntryPoints(s: State, m: Metric)
    requires s.input != [] && PointsInv(s, m) && s.input[0].metric !in s.data
    ensures PointsInv(Receive(s, true), m)
  {
    var r := s.input[0];
    AddNewEntryChain(s, m);
    AccAppend(s.accepted, Message(r.metric, Data(s.heap, r)), m);
    PtsConcat(s.heap, Chain(s, m), [r]);
    PtsOne(s.heap, [r]);
  }

  lemma AddNewEntryIds(s: State, m: Metric)
    requires s.input != [] && s.input[0].id == s.nextId - |s.input| && IdInv(s, m) && s.input[0].metric !in s.data
    ensures IdInv(Receive(s, true), m)
  {
    AddNewEntryChain(s, m);
    OlderSnoc(Chain(s, m), m, s.nextId - |s.input|, s.input[0]);
  }

  lemma OlderSnoc(rs: seq<Ref>, m: Metric, bound: int, r: Ref)
    requires Older(rs, m, bound) && r.id == bound
    ensures Older(rs, m, bound + 1)
    ensures r.metric == m ==> Older(rs + [r], m, bound + 1)
  {
  }

  lemma Snoc(a: seq<Ref>, b: seq<Ref>, r: Ref)
    ensures a + (b + [r]) == a + (b + []) + [r]
  {
  }

  lemma PtsLast(h: Heap, front: seq<Ref>, e: Ref)
    ensures Pts(h, front + [e]) == Pts(h, front) + Data(h, e)
  {
    PtsConcat(h, front, [e]);
    PtsOne(h, [e]);
  }

  lemma GrowLast(h: Heap, front: seq<Ref>, e: Ref, ps: seq<Point>)
    requires e !in front
    ensures Pts(h[e := Data(h, e) + ps], front + [e]) == Pts(h, front + [e]) + ps
  {
    var h' := h[e := Data(h, e) + ps];
    PtsLast(h, front, e);
    PtsLast(h', front, e);
    PtsFrame(h, h', front);
    Associate(Pts(h, front), Data(h, e), ps);
  }

  /** Growing an entry in place leaves every batch handed over or held alone. */
  lemma AddToEntry(s: State, m: Metric)
    requires s.input != [] && PointsInv(s, m) && IdInv(s, m)
    requires s.input[0].metric in s.data && s.data[s.input[0].metric].metric == s.input[0].metric
    ensures PointsInv(Receive(s, true), m) && IdInv(Receive(s, true), m)
  {
    var t := Receive(s, true);
    assert Chain(t, m) == Chain(s, m);
    if m == s.input[0].metric {
      ReceiveExtends(s, true, m);
      AddToOwnEntry(s);
    } else {
      AccAppend(s.accepted, Message(s.input[0].metric, Data(s.heap, s.input[0])), m);
      assert forall i :: 0 <= i < |Chain(s, m)| ==> Chain(s, m)[i].metric == m;
      PtsFrame(s.heap, t.heap, Chain(s, m));
    }
  }

  lemma AddToOwnEntry(s: State)
    requires s.input != [] && s.input[0].metric in s.data && PointsInv(s, s.input[0].metric)
    requires var m := s.input[0].metric; s.data[m] !in Handed(s, m) + HeldOf(s, m)
    ensures PointsInv(Receive(s, true), s.input[0].metric)
  {
    var r := s.input[0];
    var m := r.metric;
    AccAppend(s.accepted, Message(m, Data(s.heap, r)), m);
    assert Chain(s, m) == Handed(s, m) + HeldOf(s, m) + [s.data[m]];
    GrowLast(s.heap, Handed(s, m) + HeldOf(s, m), s.data[m], Data(s.heap, r));
    assert Chain(Receive(s, true), m) == Chain(s, m);
  }

  lemma DropMessage(s: State, m: Metric)
    requires s.input != [] && PointsInv(s, m) && IdInv(s, m)
    ensures PointsInv(Receive(s, false), m) && IdInv(Receive(s, false), m)
  {
    assert Chain(Receive(s, false), m) == Chain(s, m);
  }

  lemma ReceiveKeeps(sys: System, s: State, accept: bool)
    requires Inv(sys, s) && s.input != [] && !s.pc.Forward?
    ensures Inv(sys, Receive(s, accept))
  {
    var t := Receive(s, accept);
    forall m
      ensures MetricInv(sys, t, m) && Extends(s, t, m)
    {
      assert MetricInv(sys, s, m);
      FlowSame(sys, s, t, m);
      ReceiveExtends(s, accept, m);
      if !accept { DropMessage(s, m); }
      else if s.input[0].metric in s.data { AddToEntry(s, m); }
      else { AddNewEntryPoints(s, m); AddNewEntryIds(s, m); }
    }
    QueriesExtend(s, t);
  }

  lemma ChainPts(s: State, m: Metric)
    ensures Pts(s.heap, Chain(s, m)) == Pts(s.heap, Handed(s, m)) +
              ((if s.held.Some? && s.held.value.metric == m then Data(s.heap, s.held.value) else []) +
               (if m in s.data then Data(s.heap, s.data[m]) else []))
  {
    PtsConcat(s.heap, Handed(s, m), HeldOf(s, m) + EntryOf(s, m));
    PtsConcat(s.heap, HeldOf(s, m), EntryOf(s, m));
    if s.held.Some? { OfMember([s.held.value], m); }
    PtsOne(s.heap, HeldOf(s, m));
    PtsOne(s.heap, EntryOf(s, m));
  }

  lemma TakenPts(s: State)
    requires s.queries != []
    ensures var m, q := s.queries[0].metric, TakeQuery(s).pc.taken;
            Pts(s.heap, Chain(s, m)) == Pts(s.heap, Handed(s, m)) + CachePts(s.heap, q.cacheData) + q.skipped
  {
    var m, q := s.queries[0].metric, TakeQuery(s).pc.taken;
    ChainPts(s, m);
    Ends(Pts(s.heap, Handed(s, m)), CachePts(s.heap, q.cacheData), q.skipped);
  }

  lemma Ends(a: seq<Point>, b: seq<Point>, c: seq<Point>)
    ensures a + (b + c) == a + b + c
    ensures a + ([] + b) == a + b + []
  {
  }

  lemma TakenIsCovered(s: State)
    requires s.queries != [] && PointsInv(s, s.queries[0].metric)
    ensures Covered(s, TakeQuery(s).pc.taken)
  {
    var m := s.queries[0].metric;
    assert Handed(s, m)[..|Handed(s, m)|] == Handed(s, m);
    assert s.accepted[..|s.accepted|] == s.accepted;
    TakenPts(s);
    HeldIsNext(s, m);
  }

  lemma HeldIsNext(s: State, m: Metric)
    ensures s.held.Some? && s.held.value.metric == m ==>
              var all := Handed(s, m) + HeldOf(s, m);
              |all| == |Handed(s, m)| + 1 && all[|Handed(s, m)|] == s.held.value
  {
    if s.held.Some? { OfMember([s.held.value], m); }
  }

  lemma PtsOne(h: Heap, rs: seq<Ref>)
    requires |rs| <= 1
    ensures Pts(h, rs) == if rs == [] then [] else Data(h, rs[0])
  {
    if rs != [] {
      assert rs[1..] == [];
      assert Pts(h, rs) == Data(h, rs[0]) + Pts(h, []);
    }
  }

  lemma TakeQueryMetric(sys: System, s: State, m: Metric)
    requires MetricInv(sys, s, m) && s.queries != []
    ensures MetricInv(sys, TakeQuery(s), m) && Extends(s, TakeQuery(s), m)
  {
    assert Chain(TakeQuery(s), m) == Chain(s, m);
  }

  lemma TakeQueryKeeps(sys: System, s: State)
    requires Inv(sys, s) && s.queries != [] && !s.pc.Forward?
    ensures Inv(sys, TakeQuery(s))
  {
    var t := TakeQuery(s);
    forall m
      ensures MetricInv(sys, t, m) && Extends(s, t, m)
    {
      assert MetricInv(sys, s, m);
      TakeQueryMetric(sys, s, m);
    }
    assert MetricInv(sys, s, s.queries[0].metric);
    TakenIsCovered(s);
    TakeQueryQueries(s);
  }

  lemma TakeQueryQueries(s: State)
    requires QueryInv(s) && s.queries != [] && !s.pc.Forward?
    requires Covered(s, TakeQuery(s).pc.taken)
    requires forall m :: Extends(s, TakeQuery(s), m)
    ensures QueryInv(TakeQuery(s))
  {
    var t := TakeQuery(s);
    TakenJoins(s);
    forall i | 0 <= i < |Unanswered(t)|
      ensures Covered(t, Unanswered(t)[i])
    {
      TakenOrWaiting(s, t, i);
    }
  }

  lemma TakenOrWaiting(s: State, t: State, i: nat)
    requires QueryInv(s) && t.pc.Forward? && Covered(s, t.pc.taken) && forall m :: Extends(s, t, m)
    requires Unanswered(t) == Unanswered(s) + [t.pc.taken] && i < |Unanswered(t)|
    ensures Covered(t, Unanswered(t)[i])
  {
    var q := Unanswered(t)[i];
    assert Covered(s, q);
    CoveredExtends(s, t, q);
  }

  /** The taken query comes after those that wait already. */
  lemma TakenJoins(s: State)
    requires s.queries != [] && !s.pc.Forward?
    ensures var t := TakeQuery(s);
            Unanswered(t) == Unanswered(s) + [t.pc.taken] && t.queries == s.queries[1..]
  {
  }

  lemma ForwardQueryKeeps(sys: System, s: State)
    requires Inv(sys, s) && s.pc.Forward?
    ensures Inv(sys, ForwardQuery(s))
  {
    var t := ForwardQuery(s);
    forall m
      ensures MetricInv(sys, t, m) && Extends(s, t, m)
    {
      assert MetricInv(sys, s, m);
      assert Chain(t, m) == Chain(s, m);
    }
    QueriesExtend(s, t);
  }

  // ---- notConfirmed.worker ----

  lemma HandOffFlow(sys: System, s: State, m: Metric)
    requires s.held.Some? && s.pending.None? && FlightInv(sys, s, m) && StoredInv(sys, s, m)
    ensures FlightInv(sys, HandOff(s), m) && StoredInv(sys, HandOff(s), m)
  {
    var w := WorkerOf(sys, s, m);
    AppendPending(Of(s.confirmChan, m) + Of(ConfirmingSeq(s.persister, w), m), Inside(s.persister, w),
                  s.out, s.held.value, m);
  }

  lemma AppendPending(before: seq<Ref>, inside: seq<Ref>, out: seq<Ref>, r: Ref, m: Metric)
    ensures before + Of(inside + (out + [r]), m) == before + Of(inside + (out + []), m) + Of([r], m)
    ensures r.metric == m ==> Of([r], m) == [r]
    ensures r.metric != m ==> Of([r], m) == []
  {
    assert inside + (out + [r]) == inside + (out + []) + [r];
    OfConcat(inside + (out + []), [r], m);
    OfMember([r], m);
  }

  lemma HandOffLists(s: State, m: Metric)
    requires s.held.Some?
    ensures Handed(HandOff(s), m) == Handed(s, m) + HeldOf(s, m)
    ensures HeldOf(HandOff(s), m) == [] && EntryOf(HandOff(s), m) == EntryOf(s, m)
  {
    OfMember([s.held.value], m);
    assert InflightOf(HandOff(s), m) == InflightOf(s, m) + HeldOf(s, m);
    Associate(Of(s.confirmed, m), InflightOf(s, m), HeldOf(s, m));
  }

  lemma HandOffChain(s: State, m: Metric)
    requires s.held.Some?
    ensures Handed(HandOff(s), m) == Handed(s, m) + HeldOf(s, m)
    ensures HeldOf(HandOff(s), m) == []
    ensures Chain(HandOff(s), m) == Chain(s, m)
  {
    HandOffLists(s, m);
    Associate(Handed(s, m), HeldOf(s, m), EntryOf(s, m));
    assert [] + EntryOf(s, m) == EntryOf(s, m);
  }

  lemma HandOffKeeps(sys: System, s: State)
    requires Inv(sys, s) && s.held.Some? && s.pending.None? && !s.pc.Forward?
    ensures Inv(sys, HandOff(s))
  {
    var t := HandOff(s);
    forall m
      ensures MetricInv(sys, t, m) && Extends(s, t, m)
    {
      assert MetricInv(sys, s, m);
      HandOffFlow(sys, s, m);
      HandOffChain(s, m);
    }
    QueriesExtend(s, t);
  }

  /** A confirmation always names the oldest unconfirmed batch of its metric. */
  lemma ConfirmIsHead(sys: System, s: State)
    requires s.confirmChan != [] && FlightInv(sys, s, s.confirmChan[0].metric)
    ensures var r := s.confirmChan[0];
            && InflightOf(s, r.metric) != [] && InflightOf(s, r.metric)[0] == r
            && Confirm(s).confirmed == s.confirmed + [r]
            && InflightOf(Confirm(s), r.metric) == InflightOf(s, r.metric)[1..]
            && forall m :: m != r.metric ==> InflightOf(Confirm(s), m) == InflightOf(s, m)
  {
    var r := s.confirmChan[0];
    assert s.confirmChan == [r] + s.confirmChan[1..];
    OfConcat([r], s.confirmChan[1..], r.metric);
    OfMember([r], r.metric);
    assert Of(s.confirmChan, r.metric)[0] == r;
  }

  lemma ConfirmOwn(sys: System, s: State)
    requires s.confirmChan != [] && FlightInv(sys, s, s.confirmChan[0].metric)
    ensures FlightInv(sys, Confirm(s), s.confirmChan[0].metric)
  {
    var t, r := Confirm(s), s.confirmChan[0];
    var m := r.metric;
    var w := WorkerOf(sys, s, m);
    ConfirmIsHead(sys, s);
    ConfirmLists(s.confirmed, s.confirmChan, m);
    MoveFirst(r, InflightOf(s, m), Of(t.confirmChan, m), Of(ConfirmingSeq(s.persister, w), m),
              Of(Inside(s.persister, w) + (s.out + Opt(s.pending)), m));
  }

  lemma ConfirmOther(sys: System, s: State, m: Metric)
    requires s.confirmChan != [] && s.confirmChan[0].metric != m && FlightInv(sys, s, m)
    ensures FlightInv(sys, Confirm(s), m)
  {
    assert InflightOf(Confirm(s), m) == InflightOf(s, m);
    assert Of(s.confirmChan, m) == Of(Confirm(s).confirmChan, m);
  }

  lemma ConfirmFlow(sys: System, s: State, m: Metric)
    requires s.confirmChan != [] && FlightInv(sys, s, s.confirmChan[0].metric) && FlightInv(sys, s, m)
    ensures FlightInv(sys, Confirm(s), m)
  {
    if m == s.confirmChan[0].metric { ConfirmOwn(sys, s); } else { ConfirmOther(sys, s, m); }
  }

  lemma ConfirmHanded(sys: System, s: State, m: Metric)
    requires s.confirmChan != [] && FlightInv(sys, s, s.confirmChan[0].metric)
    ensures Handed(Confirm(s), m) == Handed(s, m)
  {
    var r := s.confirmChan[0];
    ConfirmIsHead(sys, s);
    ConfirmLists(s.confirmed, s.confirmChan, m);
    if m == r.metric {
      assert InflightOf(s, m) == [r] + InflightOf(Confirm(s), m);
      Associate(Of(s.confirmed, m), [r], InflightOf(Confirm(s), m));
    } else {
      assert InflightOf(s, m) == InflightOf(Confirm(s), m);
    }
  }

  lemma ConfirmStored(sys: System, s: State, m: Metric)
    requires s.confirmChan != [] && FlightInv(sys, s, s.confirmChan[0].metric) && StoredInv(sys, s, m)
    ensures StoredInv(sys, Confirm(s), m)
  {
    ConfirmIsHead(sys, s);
    ConfirmLists(s.confirmed, s.confirmChan, m);
  }

  lemma ConfirmLists(confirmed: seq<Ref>, chan: seq<Ref>, m: Metric)
    requires chan != []
    ensures var r := chan[0];
            && Of(chan, m) == (if r.metric == m then [r] else []) + Of(chan[1..], m)
            && Of(confirmed + [r], m) == Of(confirmed, m) + (if r.metric == m then [r] else [])
            && Of(confirmed + [r], m) + Of(chan[1..], m) == Of(confirmed, m) + Of(chan, m)
  {
    OfConcat(confirmed, [chan[0]], m);
    OfMember([chan[0]], m);
  }

  lemma MoveFirst(r: Ref, list: seq<Ref>, a: seq<Ref>, b: seq<Ref>, c: seq<Ref>)
    requires list == [r] + a + b + c
    ensures list[1..] == a + b + c
  {
  }

  lemma ConfirmKeeps(sys: System, s: State)
    requires Inv(sys, s) && s.confirmChan != []
    ensures Inv(sys, Confirm(s))
  {
    var t := Confirm(s);
    assert MetricInv(sys, s, s.confirmChan[0].metric);
    forall m
      ensures MetricInv(sys, t, m) && Extends(s, t, m)
    {
      assert MetricInv(sys, s, m);
      ConfirmFlow(sys, s, m);
      ConfirmStored(sys, s, m);
      ConfirmHanded(sys, s, m);
      assert Chain(t, m) == Chain(s, m);
    }
    QueriesExtend(s, t);
  }

  lemma AnswerCovered(s: State)
    requires QueryInv(s) && s.taken != []
    requires forall m :: Extends(s, Answer(s), m)
    ensures Unanswered(s) == [s.taken[0]] + Unanswered(Answer(s))
    ensures forall i :: 0 <= i < |Unanswered(Answer(s))| ==> Covered(Answer(s), Unanswered(Answer(s))[i])
  {
    var t := Answer(s);
    assert Unanswered(s) == [s.taken[0]] + Unanswered(t);
    forall i | 0 <= i < |Unanswered(t)|
      ensures Covered(t, Unanswered(t)[i])
    {
      assert Unanswered(t)[i] == Unanswered(s)[i + 1];
      CoveredExtends(s, t, Unanswered(s)[i + 1]);
    }
  }

  lemma AnswerQueries(s: State)
    requires QueryInv(s) && s.taken != []
    requires forall m :: Extends(s, Answer(s), m)
    ensures QueryInv(Answer(s))
  {
    var t := Answer(s);
    AnswerCovered(s);
    assert Unanswered(s)[0].query.id == |s.answered|;
    forall i | 0 <= i < |Unanswered(t)|
      ensures Unanswered(t)[i].query.id == |t.answered| + i
    {
      assert Unanswered(t)[i] == Unanswered(s)[i + 1];
    }
  }

  lemma AnswerKeeps(sys: System, s: State)
    requires Inv(sys, s) && s.taken != []
    ensures Inv(sys, Answer(s))
  {
    var t := Answer(s);
    forall m
      ensures MetricInv(sys, t, m) && Extends(s, t, m)
    {
      assert MetricInv(sys, s, m);
      assert Chain(t, m) == Chain(s, m);
    }
    AnswerQueries(s);
  }
}
