/**
  The cache worker's steps in the pipeline are the Adds and Pops of `WriteOut`, which the `Cache` class
  is proved against; and every order that a write strategy leaves is one the pipeline may take.
 */
module PipelineRefinement {
  import opened Points
  import opened PipelineModel
  import opened PipelineInvariant
  import opened Sequences
  import opened PipelineCache
  import opened PipelineTheorems
  import WriteOut

  function EntriesOf(s: State): WriteOut.Entries {
    map m | m in s.data :: Data(s.heap, s.data[m])
  }

  function MetricsOf(rs: seq<Ref>): seq<Metric> {
    Map((r: Ref) => r.metric, rs)
  }

  function StoreOf(s: State): WriteOut.Store {
    WriteOut.Store(EntriesOf(s), MetricsOf(s.queue))
  }

  /** One entry after an accepted message. */
  lemma EntryAfterReceive(s: State, m: Metric)
    requires s.input != [] && (forall k :: k in s.data ==> s.data[k].metric == k)
    ensures m in Receive(s, true).data <==> m in s.data || m == s.input[0].metric
    ensures m in s.data && m != s.input[0].metric ==>
              Data(Receive(s, true).heap, Receive(s, true).data[m]) == Data(s.heap, s.data[m])
    ensures m == s.input[0].metric ==>
              Data(Receive(s, true).heap, Receive(s, true).data[m])
              == (if m in s.data then Data(s.heap, s.data[m]) else []) + Data(s.heap, s.input[0])
  {
    assert [] + Data(s.heap, s.input[0]) == Data(s.heap, s.input[0]);
  }

  /** An accepted message is an Add. */
  lemma ReceiveIsAdd(sys: System, s: State)
    requires CacheInv(sys, s) && s.input != []
    ensures var r := s.input[0];
            StoreOf(Receive(s, true)) == WriteOut.Added(StoreOf(s), r.metric, Data(s.heap, r))
  {
    var r, entries := s.input[0], EntriesOf(Receive(s, true));
    var added := WriteOut.Added(StoreOf(s), r.metric, Data(s.heap, r)).points;
    forall m
      ensures m in entries <==> m in added
      ensures m in entries ==> entries[m] == added[m]
    {
      EntryAfterReceive(s, m);
    }
    assert entries == added;
  }

  lemma LastMetric(queue: seq<Ref>)
    requires queue != []
    ensures MetricsOf(queue[..|queue| - 1]) == MetricsOf(queue)[..|queue| - 1]
  {
  }

  lemma RebuildMetrics(order: seq<Ref>, s: State)
    requires PipelineModel.IsRebuild(order, s.data) && forall m :: m in s.data ==> s.data[m].metric == m
    ensures WriteOut.IsRebuild(WriteOut.Noop, EntriesOf(s), MetricsOf(order))
  {
    var q := MetricsOf(order);
    forall m | m in s.data
      ensures m in q
    {
      var i :| 0 <= i < |order| && order[i] == s.data[m];
      assert q[i] == m;
    }
    forall i | 0 <= i < |q|
      ensures q[i] in s.data && s.data[q[i]] == order[i]
    {
      assert order[i] in order;
    }
  }

  /** The store without the last batch of the queue. */
  lemma StorePopped(s: State, queue: seq<Ref>)
    requires queue != []
    ensures StoreOf(PopFrom(s, queue)) == WriteOut.PoppedFrom(StoreOf(s), MetricsOf(queue))
  {
    LastMetric(queue);
    assert EntriesOf(PopFrom(s, queue)) == EntriesOf(s) - {queue[|queue| - 1].metric};
  }

  /** A queue rebuilt at this step is in the order of the strategy. */
  ghost predicate Follows(strategy: WriteOut.Strategy, sys: System, s: State, a: Action) {
    a.AHead? && s.queue == [] && Pops(sys, s, a.order) ==>
      WriteOut.InOrder(strategy, EntriesOf(s), MetricsOf(a.order))
  }

  /** The queue of a Pop is allowed for the store, and its last batch is stored under its metric. */
  lemma QueueIsAllowed(strategy: WriteOut.Strategy, sys: System, s: State, order: seq<Ref>)
    requires CacheInv(sys, s) && PipelineModel.IsRebuild(order, s.data) && Pops(sys, s, order)
    requires Follows(strategy, sys, s, AHead(order))
    ensures var queue := PopQueue(s, order);
            var last := queue[|queue| - 1];
            && WriteOut.PopsFrom(strategy, StoreOf(s), MetricsOf(queue))
            && last.metric in s.data && s.data[last.metric] == last
  {
    RebuildMetrics(order, s);
    var queue := PopQueue(s, order);
    assert queue[|queue| - 1] in queue;
  }

  /** A Pop at the loop head is a Pop of the store, from its queue or from a rebuilt one; what it takes is held. */
  lemma HeadIsPop(strategy: WriteOut.Strategy, sys: System, s: State, order: seq<Ref>)
    requires CacheInv(sys, s) && PipelineModel.IsRebuild(order, s.data) && Pops(sys, s, order)
    requires Follows(strategy, sys, s, AHead(order))
    ensures var t, q := CacheHead(sys, s, order), MetricsOf(PopQueue(s, order));
            && q != [] && WriteOut.PopsFrom(strategy, StoreOf(s), q)
            && StoreOf(t) == WriteOut.PoppedFrom(StoreOf(s), q)
            && q[|q| - 1] in s.data && t.held == Some(s.data[q[|q| - 1]])
  {
    var queue := PopQueue(s, order);
    StorePopped(s, queue);
    QueueIsAllowed(strategy, sys, s, order);
    assert StoreOf(CacheHead(sys, s, order)) == StoreOf(PopFrom(s, queue));
  }

  /** Every queue that a strategy may build is the metrics of an order that the pipeline may take. */
  lemma EveryStrategyIsCovered(strategy: WriteOut.Strategy, sys: System, s: State, queue: seq<Metric>)
    returns (order: seq<Ref>)
    requires CacheInv(sys, s) && WriteOut.IsRebuild(strategy, EntriesOf(s), queue)
    ensures PipelineModel.IsRebuild(order, s.data) && MetricsOf(order) == queue
  {
    forall i | 0 <= i < |queue|
      ensures queue[i] in s.data
    {
      assert queue[i] in queue && queue[i] in EntriesOf(s);
    }
    order := seq(|queue|, i requires 0 <= i < |queue| => s.data[queue[i]]);
    forall m | m in s.data
      ensures s.data[m] in order
    {
      assert m in EntriesOf(s);
      var i :| 0 <= i < |queue| && queue[i] == m;
      assert order[i] == s.data[m];
    }
    forall i | 0 <= i < |order|
      ensures order[i].metric == queue[i]
    {
    }
  }

  // ---- Every step ----

  predicate TouchesStore(a: Action) {
    a.ASend? || a.ASendDirect? || a.AHead? || (a.AReceive? && a.accept)
  }

  /** The cache is as it was, and at most the head of the input channel is gone. */
  ghost predicate SameStore(s: State, t: State) {
    && t.heap == s.heap && t.data == s.data && t.queue == s.queue
    && (t.input == s.input || (s.input != [] && t.input == s.input[1..]))
  }

  lemma CacheOthers(sys: System, s: State, a: Action)
    requires Enabled(sys, s, a) && CacheStep(a) && !TouchesStore(a)
    ensures SameStore(s, Apply(sys, s, a))
  {
  }

  lemma PersisterOthers(sys: System, s: State, a: Action)
    requires Enabled(sys, s, a) && !CacheStep(a) && !TouchesStore(a)
    ensures SameStore(s, Apply(sys, s, a))
  {
  }

  lemma LastIsOlder(a: seq<Ref>, b: seq<Ref>, r: Ref, m: Metric, bound: int)
    requires Older(a + (b + [r]), m, bound)
    ensures r.id < bound
  {
    assert (a + (b + [r]))[|a| + |b|] == r;
  }

  /** A message in the input channel is none of the entries. */
  lemma SendKeepsEntry(s: State, m: Metric, ps: seq<Point>, k: Metric)
    requires IdInv(s, k) && k in s.data
    ensures Data(Send(s, m, ps).heap, s.data[k]) == Data(s.heap, s.data[k])
  {
    LastIsOlder(Handed(s, k), HeldOf(s, k), s.data[k], k, s.nextId - |s.input|);
  }

  lemma SendKeepsStore(sys: System, s: State, m: Metric, ps: seq<Point>)
    requires Inv(sys, s)
    ensures StoreOf(Send(s, m, ps)) == StoreOf(s)
  {
    forall k | k in s.data
      ensures Data(Send(s, m, ps).heap, s.data[k]) == Data(s.heap, s.data[k])
    {
      assert MetricInv(sys, s, k);
      SendKeepsEntry(s, m, ps, k);
    }
  }

  /** The Add or Pop that a step is, if it is one. */
  function OpOf(sys: System, s: State, a: Action): Option<WriteOut.Op> {
    match a
    case ASendDirect(m, ps, true) => Some(WriteOut.AddOp(m, ps))
    case AReceive(true) =>
      if s.input == [] then None else Some(WriteOut.AddOp(s.input[0].metric, Data(s.heap, s.input[0])))
    case AHead(order) => if Pops(sys, s, order) then Some(WriteOut.PopOp(MetricsOf(PopQueue(s, order)))) else None
    case _ => None
  }

  lemma DirectIsAdd(sys: System, s: State, m: Metric, ps: seq<Point>)
    requires Inv(sys, s) && s.input == []
    ensures StoreOf(Receive(Send(s, m, ps), true)) == WriteOut.Added(StoreOf(s), m, ps)
    ensures StoreOf(Receive(Send(s, m, ps), false)) == StoreOf(s)
  {
    var t := Send(s, m, ps);
    SendKeeps(sys, s, m, ps);
    SendKeepsStore(sys, s, m, ps);
    ReceiveIsAdd(sys, t);
    assert t.input == [Ref(s.nextId, m)];
  }

  lemma OthersRefine(sys: System, s: State, a: Action)
    requires Enabled(sys, s, a) && !TouchesStore(a)
    ensures OpOf(sys, s, a).None? && SameStore(s, Apply(sys, s, a)) && StoreOf(Apply(sys, s, a)) == StoreOf(s)
  {
    if CacheStep(a) { CacheOthers(sys, s, a); } else { PersisterOthers(sys, s, a); }
  }

  lemma HeadRefines(strategy: WriteOut.Strategy, sys: System, s: State, order: seq<Ref>)
    requires Inv(sys, s) && Enabled(sys, s, AHead(order)) && Follows(strategy, sys, s, AHead(order))
    ensures !Pops(sys, s, order) ==> StoreOf(CacheHead(sys, s, order)) == StoreOf(s)
    ensures Pops(sys, s, order) ==>
              var op := WriteOut.PopOp(MetricsOf(PopQueue(s, order)));
              WriteOut.Next(strategy, StoreOf(s), op, StoreOf(CacheHead(sys, s, order)))
  {
    if Pops(sys, s, order) { HeadIsPop(strategy, sys, s, order); }
  }

  /** Every step of the pipeline is the Add or Pop that `OpOf` names, or leaves the store alone. */
  lemma StepRefines(strategy: WriteOut.Strategy, sys: System, s: State, a: Action)
    requires Inv(sys, s) && Enabled(sys, s, a) && Follows(strategy, sys, s, a)
    requires a.ASendDirect? ==> a.points != []
    requires a.AReceive? ==> Data(s.heap, s.input[0]) != []
    ensures OpOf(sys, s, a).None? ==> StoreOf(Apply(sys, s, a)) == StoreOf(s)
    ensures OpOf(sys, s, a).Some? ==>
              WriteOut.Next(strategy, StoreOf(s), OpOf(sys, s, a).value, StoreOf(Apply(sys, s, a)))
  {
    if !TouchesStore(a) {
      OthersRefine(sys, s, a);
    } else if a.ASend? {
      SendKeepsStore(sys, s, a.metric, a.points);
    } else if a.ASendDirect? {
      DirectIsAdd(sys, s, a.metric, a.points);
    } else if a.AHead? {
      HeadRefines(strategy, sys, s, a.order);
    } else {
      ReceiveIsAdd(sys, s);
    }
  }

  // ---- Every run ----

  /** No message is empty. */
  predicate Filled(acts: seq<Action>) {
    forall i :: 0 <= i < |acts| ==>
      (acts[i].ASend? ==> acts[i].points != []) && (acts[i].ASendDirect? ==> acts[i].points != [])
  }

  ghost predicate InputFilled(s: State) {
    forall r :: r in s.input ==> Data(s.heap, r) != []
  }

  lemma SendFilled(s: State, m: Metric, ps: seq<Point>)
    requires InputFilled(s) && ps != []
    ensures InputFilled(Send(s, m, ps))
  {
  }

  lemma ReceiveFilled(s: State, accept: bool)
    requires InputFilled(s) && s.input != []
    ensures InputFilled(Receive(s, accept))
  {
    assert forall r :: r in s.input[1..] ==> r in s.input;
  }

  lemma InputStaysFilled(sys: System, s: State, a: Action)
    requires InputFilled(s) && Enabled(sys, s, a)
    requires a.ASend? || a.ASendDirect? ==> a.points != []
    ensures InputFilled(Apply(sys, s, a))
  {
    if !TouchesStore(a) {
      OthersRefine(sys, s, a);
      assert s.input != [] ==> forall r :: r in s.input[1..] ==> r in s.input;
    } else if a.ASend? {
      SendFilled(s, a.metric, a.points);
    } else if a.ASendDirect? {
      SendFilled(s, a.metric, a.points);
      ReceiveFilled(Send(s, a.metric, a.points), a.accept);
    } else if a.AReceive? {
      ReceiveFilled(s, true);
    }
  }
}
