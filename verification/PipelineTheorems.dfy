/** What every run of the pipeline guarantees. */
module PipelineTheorems {
  import opened Points
  import opened PipelineModel
  import opened PipelineInvariant
  import opened PipelinePersister
  import opened PipelineCache

  lemma InitHolds(sys: System, s: State)
    requires Init(s)
    ensures Inv(sys, s)
  {
    forall m
      ensures MetricInv(sys, s, m)
    {
      assert Inside(s.persister, WorkerOf(sys, s, m)) + (s.out + Opt(s.pending)) == [];
      assert Chain(s, m) == [];
    }
  }

  predicate CacheStep(a: Action) {
    a.ASend? || a.AAsk? || a.ASendDirect? || a.AHead? || a.AReceive? || a.ATakeQuery? || a.AForwardQuery?
    || a.AHandOff? || a.AConfirm? || a.AAnswer?
  }

  predicate ThrottleStep(a: Action) {
    a.ATick? || a.AThrottleSend? || a.AThrottleSendDirect? || a.AThrottleExit? || a.AReceiveThrottled?
  }

  predicate WorkerStep(a: Action) {
    a.AShuffle? || a.AWorkerReceive? || a.AWorkerExit? || a.AStore? || a.ASendConfirm?
  }

  lemma CacheStepKeeps(sys: System, s: State, a: Action)
    requires Inv(sys, s) && Enabled(sys, s, a)
    requires CacheStep(a)
    ensures Inv(sys, Apply(sys, s, a))
  {
    match a
    case ASend(m, ps) => SendKeeps(sys, s, m, ps);
    case AAsk(m) => AskKeeps(sys, s, m);
    case ASendDirect(m, ps, accept) =>
      SendKeeps(sys, s, m, ps);
      ReceiveKeeps(sys, Send(s, m, ps), accept);
    case AHead(order) => CacheHeadKeeps(sys, s, order);
    case AReceive(accept) => ReceiveKeeps(sys, s, accept);
    case ATakeQuery => TakeQueryKeeps(sys, s);
    case AForwardQuery => ForwardQueryKeeps(sys, s);
    case AHandOff => HandOffKeeps(sys, s);
    case AConfirm => ConfirmKeeps(sys, s);
    case AAnswer => AnswerKeeps(sys, s);
  }

  lemma ThrottleStepKeeps(sys: System, s: State, a: Action)
    requires Inv(sys, s) && Enabled(sys, s, a)
    requires ThrottleStep(a)
    ensures Inv(sys, Apply(sys, s, a))
  {
    match a
    case ATick => ThrottleMoveKeeps(sys, s, ThrottleTick(s).persister.throttle);
    case AThrottleSend => ThrottleMoveKeeps(sys, s, ThrottleSend(s).persister.throttle);
    case AThrottleSendDirect =>
      ThrottleMoveKeeps(sys, s, ThrottleSend(s).persister.throttle);
      ReceiveThrottledKeeps(sys, ThrottleSend(s));
    case AThrottleExit => ThrottleMoveKeeps(sys, s, ThrottleExit(s).persister.throttle);
    case AReceiveThrottled => ReceiveThrottledKeeps(sys, s);
  }

  lemma WorkerStepKeeps(sys: System, s: State, a: Action)
    requires Inv(sys, s) && Enabled(sys, s, a)
    requires WorkerStep(a)
    ensures Inv(sys, Apply(sys, s, a))
  {
    match a
    case AShuffle => ShuffleKeeps(sys, s);
    case AWorkerReceive(i) => WorkerReceiveKeeps(sys, s, i);
    case AWorkerExit(i) => WorkerExitKeeps(sys, s, i);
    case AStore(i) => StoreKeeps(sys, s, i);
    case ASendConfirm(i) => SendConfirmKeeps(sys, s, i);
  }

  lemma OutStepKeeps(sys: System, s: State, a: Action)
    requires Inv(sys, s) && Enabled(sys, s, a)
    requires !CacheStep(a) && !ThrottleStep(a) && !WorkerStep(a)
    ensures Inv(sys, Apply(sys, s, a))
  {
    match a
    case AStart(c) => StartKeeps(sys, s, c);
    case AStop => RequestStopKeeps(sys, s);
    case AEmit => EmitKeeps(sys, s);
    case AEmitDirect =>
      EmitKeeps(sys, s);
      ReceiveOutKeeps(sys, Emit(s));
    case AReceiveOut => ReceiveOutKeeps(sys, s);
    case AReaderExit => ReaderExitKeeps(sys, s);
  }

  lemma StepKeeps(sys: System, s: State, a: Action)
    requires Inv(sys, s) && Enabled(sys, s, a)
    ensures Inv(sys, Apply(sys, s, a))
  {
    if CacheStep(a) {
      CacheStepKeeps(sys, s, a);
    } else if ThrottleStep(a) {
      ThrottleStepKeeps(sys, s, a);
    } else if WorkerStep(a) {
      WorkerStepKeeps(sys, s, a);
    } else {
      OutStepKeeps(sys, s, a);
    }
  }

  lemma {:induction false} RunKeeps(sys: System, run: seq<State>, acts: seq<Action>, i: nat)
    requires IsRun(sys, run, acts) && i < |run|
    ensures Inv(sys, run[i])
  {
    if i == 0 {
      InitHolds(sys, run[0]);
    } else {
      RunKeeps(sys, run, acts, i - 1);
      assert Enabled(sys, run[i - 1], acts[i - 1]);
      StepKeeps(sys, run[i - 1], acts[i - 1]);
    }
  }

  // ---- Conservation ----

  /** The batches of `m` on their way from the cache worker to the store function, oldest first. */
  function OnTheWay(sys: System, s: State, m: Metric): seq<Ref> {
    var p, w := s.persister, WorkerOf(sys, s, m);
    Inside(p, w) + (s.out + Opt(s.pending)) + Opt(s.held)
  }

  /**
    In every reachable state, for every metric: the stored batches, those in the persister, in the
    output channel, in the tracker's and the cache worker's hands, and the cache entry hold exactly
    the accepted points, in arrival order, and are distinct objects. No other worker has any.
   */
  lemma Conservation(sys: System, run: seq<State>, acts: seq<Action>, i: nat, m: Metric)
    requires IsRun(sys, run, acts) && i < |run|
    ensures var s := run[i];
            var batches := Of(s.stored, m) + Of(OnTheWay(sys, s, m), m) + EntryOf(s, m);
            && Pts(s.heap, batches) == Acc(s.accepted, m)
            && Increasing(batches)
            && (forall w: nat :: w != WorkerOf(sys, s, m) ==>
                  Of(StoringSeq(s.persister, w) + ConfirmingSeq(s.persister, w) + ChannelSeq(s.persister, w), m) == [])
  {
    var s := run[i];
    RunKeeps(sys, run, acts, i);
    assert MetricInv(sys, s, m);
    ChainIsStages(sys, s, m);
    forall w: nat | w != WorkerOf(sys, s, m)
      ensures Of(StoringSeq(s.persister, w) + ConfirmingSeq(s.persister, w) + ChannelSeq(s.persister, w), m) == []
    {
      NotAtOther(sys, s, m, w);
    }
  }

  lemma NotAtOther(sys: System, s: State, m: Metric, w: nat)
    requires RoutingInv(sys, s.persister) && SoloInv(s.persister) && w != WorkerOf(sys, s, m)
    ensures Of(StoringSeq(s.persister, w) + ConfirmingSeq(s.persister, w) + ChannelSeq(s.persister, w), m) == []
  {
    OfMember(StoringSeq(s.persister, w) + ConfirmingSeq(s.persister, w) + ChannelSeq(s.persister, w), m);
  }

  lemma ChainIsStages(sys: System, s: State, m: Metric)
    requires FlightInv(sys, s, m) && StoredInv(sys, s, m)
    ensures Chain(s, m) == Of(s.stored, m) + Of(OnTheWay(sys, s, m), m) + EntryOf(s, m)
  {
    var p, w := s.persister, WorkerOf(sys, s, m);
    var way := Inside(p, w) + (s.out + Opt(s.pending));
    OfConcat(way, Opt(s.held), m);
    Reassociate(Of(s.confirmed, m), Of(s.confirmChan, m), Of(ConfirmingSeq(p, w), m), Of(way, m),
                HeldOf(s, m), EntryOf(s, m));
  }

  lemma Reassociate(a: seq<Ref>, b: seq<Ref>, c: seq<Ref>, d: seq<Ref>, e: seq<Ref>, f: seq<Ref>)
    ensures a + (b + c + d) + (e + f) == a + b + c + (d + e) + f
  {
  }

  // ---- Confirmations ----

  /**
    Whenever the tracker receives a confirmation, the list of that metric is there, is not empty,
    and has the confirmed batch at its head, so exactly that batch goes.
   */
  lemma ConfirmationNamesHead(sys: System, run: seq<State>, acts: seq<Action>, i: nat)
    requires IsRun(sys, run, acts) && i < |acts| && acts[i].AConfirm?
    ensures var s, t := run[i], run[i + 1];
            var r := s.confirmChan[0];
            && r.metric in s.inflight && s.inflight[r.metric] != [] && s.inflight[r.metric][0] == r
            && (forall m :: InflightOf(t, m) == if m == r.metric then InflightOf(s, m)[1..] else InflightOf(s, m))
            && (forall m :: m in t.inflight ==> t.inflight[m] != [])
            && t.confirmed == s.confirmed + [r]
  {
    RunKeeps(sys, run, acts, i);
    RunKeeps(sys, run, acts, i + 1);
    var s := run[i];
    assert Enabled(sys, s, acts[i]) && run[i + 1] == Apply(sys, s, acts[i]);
    assert MetricInv(sys, s, s.confirmChan[0].metric);
    ConfirmIsHead(sys, s);
  }

  // ---- Stop and restart ----

  /**
    Once Stop has completed, in any mode: per metric, what was received from outputChan is what was
    stored, in the same order, every received batch exactly once; the throttle is finished too; and
    the stored batches followed by those still upstream hold the accepted points in order.
   */
  lemma StopLosesNothing(sys: System, run: seq<State>, acts: seq<Action>, i: nat)
    requires IsRun(sys, run, acts) && i < |run| && StopCompleted(run[i].persister)
    ensures var s := run[i];
            && (forall m :: Of(s.drained, m) == Of(s.stored, m))
            && multiset(s.drained) == multiset(s.stored)
            && (s.persister.throttle.Throttle? ==> s.persister.throttle == Throttle(Exited, []))
            && (forall m :: Pts(s.heap, Of(s.stored, m) + Of(s.out + Opt(s.pending) + Opt(s.held), m) + EntryOf(s, m))
                              == Acc(s.accepted, m))
  {
    var s := run[i];
    RunKeeps(sys, run, acts, i);
    forall m
      ensures Of(s.drained, m) == Of(s.stored, m)
      ensures Pts(s.heap, Of(s.stored, m) + Of(s.out + Opt(s.pending) + Opt(s.held), m) + EntryOf(s, m)) ==
              Acc(s.accepted, m)
    {
      StoppedMetric(sys, s, m);
    }
    SameMetricsSameBatches(s.drained, s.stored);
    StoppedThrottle(sys, s.persister);
  }

  lemma StoppedThrottle(sys: System, p: Persister)
    requires PersisterInv(sys, p) && StopCompleted(p)
    ensures p.throttle.Throttle? ==> p.throttle == Throttle(Exited, [])
  {
    assert p.throttle.Throttle? ==> ReaderDone(p);
  }

  lemma StoppedMetric(sys: System, s: State, m: Metric)
    requires PersisterInv(sys, s.persister) && StopCompleted(s.persister) && MetricInv(sys, s, m)
    ensures Of(s.drained, m) == Of(s.stored, m)
    ensures Pts(s.heap, Of(s.stored, m) + Of(s.out + Opt(s.pending) + Opt(s.held), m) + EntryOf(s, m)) ==
            Acc(s.accepted, m)
  {
    StoppedIsEmpty(sys, s.persister, WorkerOf(sys, s, m));
    ChainIsStages(sys, s, m);
    StoppedWay(sys, s, m);
  }

  lemma StoppedWay(sys: System, s: State, m: Metric)
    requires Inside(s.persister, WorkerOf(sys, s, m)) == []
    ensures OnTheWay(sys, s, m) == s.out + Opt(s.pending) + Opt(s.held)
  {
  }

  lemma {:induction false} OfCounts(rs: seq<Ref>, r: Ref)
    ensures multiset(Of(rs, r.metric))[r] == multiset(rs)[r]
  {
    if rs != [] {
      OfCounts(rs[1..], r);
      assert rs == [rs[0]] + rs[1..];
      assert multiset(rs) == multiset([rs[0]]) + multiset(rs[1..]);
    }
  }

  lemma SameMetricsSameBatches(a: seq<Ref>, b: seq<Ref>)
    requires forall m :: Of(a, m) == Of(b, m)
    ensures multiset(a) == multiset(b)
  {
    forall r: Ref
      ensures multiset(a)[r] == multiset(b)[r]
    {
      OfCounts(a, r);
      OfCounts(b, r);
    }
  }

  // ---- Queries ----

  /**
    Where the batch is that was left out of `q`: it follows the held one in the metric's chain. When
    the reply is made it is confirmed, or in the in-flight part of the reply, or missing; and it is
    missing exactly if it has not been handed to the tracker yet.
   */
  ghost predicate SkippedPlace(s: State, q: Taken, reply: Reply) {
    var m := q.query.metric;
    var gone, handed := Of(s.confirmed, m), |Handed(s, m)|;
    && q.upto + 1 < |Chain(s, m)|
    && var b := Chain(s, m)[q.upto + 1];
    && q.skipped <= Data(s.heap, b)
    && (b in gone <==> |gone| > q.upto + 1)
    && (b in reply.inFlight <==> |gone| <= q.upto + 1 < handed)
    && reply.cacheData != Alias(b)
    && (b !in gone && b !in reply.inFlight <==> handed <= q.upto + 1)
  }

  /**
    What a reply to `q` holds, given the confirmed batches `gone`. `before` is everything of the
    metric accepted when the cache worker took the query. It consists of batches confirmed by now,
    then the in-flight part of the reply, then its cached part, then the skipped entry; and an entry
    is skipped only behind a held batch of the same metric.
   */
  ghost predicate ReplyIsExact(s: State, q: Taken, reply: Reply) {
    var m := q.query.metric;
    var gone, cached := Of(s.confirmed, m), CachePts(s.heap, reply.cacheData);
    && q.accLen <= |s.accepted|
    && var before := Acc(s.accepted[..q.accLen], m);
    && (|gone| <= q.upto ==>
          && q.upto - |gone| <= |reply.inFlight|
          && before == Pts(s.heap, gone) + Pts(s.heap, reply.inFlight[..q.upto - |gone|]) + cached + q.skipped)
    && (|gone| > q.upto ==> before == Pts(s.heap, gone[..q.upto]) + cached + q.skipped)
    && (q.skipped != [] ==> reply.cacheData.Alias? && SkippedPlace(s, q, reply))
    && before <= Acc(s.accepted, m)
    && Pts(s.heap, gone) + Pts(s.heap, reply.inFlight) <= Acc(s.accepted, m)
  }

  lemma InSlice(chain: seq<Ref>, from: nat, to: nat, k: nat)
    requires Increasing(chain) && from <= to <= |chain| && k < |chain|
    ensures chain[k] in chain[from..to] <==> from <= k < to
  {
    if from <= k < to { assert chain[from..to][k - from] == chain[k]; }
    if chain[k] in chain[from..to] {
      var j :| 0 <= j < to - from && chain[from..to][j] == chain[k];
      assert chain[from + j].id == chain[k].id;
    }
  }

  lemma SkippedIsPlaced(s: State, q: Taken)
    requires Covered(s, q) && IdInv(s, q.query.metric) && q.skipped != []
    ensures SkippedPlace(s, q, ReplyTo(s, q))
  {
    var m := q.query.metric;
    var chain, gone, list := Chain(s, m), Of(s.confirmed, m), InflightOf(s, m);
    assert chain[0..|gone|] == gone && chain[|gone|..|Handed(s, m)|] == list;
    InSlice(chain, 0, |gone|, q.upto + 1);
    InSlice(chain, |gone|, |Handed(s, m)|, q.upto + 1);
    assert chain[q.upto] == (Handed(s, m) + HeldOf(s, m))[q.upto];
  }

  lemma CoveredReply(s: State, q: Taken)
    requires Covered(s, q) && PointsInv(s, q.query.metric) && IdInv(s, q.query.metric)
    ensures ReplyIsExact(s, q, ReplyTo(s, q))
  {
    CoveredParts(s, q);
    HandedIsPrefix(s, q.query.metric);
    AccPrefix(s.accepted, q.accLen, q.query.metric);
    if q.skipped != [] { SkippedIsPlaced(s, q); }
  }

  lemma ReplyCovers(sys: System, run: seq<State>, acts: seq<Action>, i: nat)
    requires IsRun(sys, run, acts) && i < |acts| && acts[i].AAnswer?
    ensures var s, t := run[i], run[i + 1];
            && s.taken != []
            && t.answered == s.answered + [ReplyTo(s, s.taken[0])]
            && ReplyIsExact(s, s.taken[0], ReplyTo(s, s.taken[0]))
  {
    var s := run[i];
    RunKeeps(sys, run, acts, i);
    assert Enabled(sys, s, acts[i]) && run[i + 1] == Apply(sys, s, acts[i]);
    assert MetricInv(sys, s, s.taken[0].query.metric);
    assert Unanswered(s)[0] == s.taken[0];
    CoveredReply(s, s.taken[0]);
  }

  lemma CoveredParts(s: State, q: Taken)
    requires Covered(s, q)
    ensures var gone, list := Of(s.confirmed, q.query.metric), InflightOf(s, q.query.metric);
            && (|gone| <= q.upto ==>
                  && q.upto - |gone| <= |list|
                  && Pts(s.heap, Handed(s, q.query.metric)[..q.upto]) ==
                     Pts(s.heap, gone) + Pts(s.heap, list[..q.upto - |gone|]))
            && (|gone| > q.upto ==> Handed(s, q.query.metric)[..q.upto] == gone[..q.upto])
  {
    var gone, list := Of(s.confirmed, q.query.metric), InflightOf(s, q.query.metric);
    if |gone| <= q.upto {
      assert (gone + list)[..q.upto] == gone + list[..q.upto - |gone|];
      PtsConcat(s.heap, gone, list[..q.upto - |gone|]);
    }
  }

  lemma HandedIsPrefix(s: State, m: Metric)
    requires PointsInv(s, m)
    ensures Pts(s.heap, Of(s.confirmed, m)) + Pts(s.heap, InflightOf(s, m)) <= Acc(s.accepted, m)
  {
    PtsConcat(s.heap, Handed(s, m), HeldOf(s, m) + EntryOf(s, m));
    PtsConcat(s.heap, Of(s.confirmed, m), InflightOf(s, m));
  }

  lemma {:induction false} AccPrefix(log: seq<Message>, n: nat, m: Metric)
    requires n <= |log|
    ensures Acc(log[..n], m) <= Acc(log, m)
  {
    if n > 0 {
      assert log[..n][1..] == log[1..][..n - 1];
      AccPrefix(log[1..], n - 1, m);
    }
  }

  /**
    When the cache worker takes a query, nothing is skipped exactly when the held batch is of
    another metric or the cache has no points of this one.
   */
  lemma SkippedOnlyBehindHeld(sys: System, run: seq<State>, acts: seq<Action>, i: nat)
    requires IsRun(sys, run, acts) && i < |acts| && acts[i].ATakeQuery?
    ensures run[i + 1].pc.Forward?
    ensures var s, q := run[i], run[i + 1].pc.taken;
            var m := s.queries[0].metric;
            && q.query == s.queries[0] && q.accLen == |s.accepted|
            && Pts(s.heap, Handed(s, m)) + CachePts(s.heap, q.cacheData) + q.skipped == Acc(s.accepted, m)
            && (q.skipped == [] <==>
                  !(s.held.Some? && s.held.value.metric == m) || m !in s.data || Data(s.heap, s.data[m]) == [])
  {
    var s := run[i];
    RunKeeps(sys, run, acts, i);
    assert Enabled(sys, s, acts[i]) && run[i + 1] == Apply(sys, s, acts[i]);
    assert MetricInv(sys, s, s.queries[0].metric);
    TakenPts(s);
  }

  /** Queries are answered in the order they were asked, and none disappears. */
  lemma QueriesInOrder(sys: System, run: seq<State>, acts: seq<Action>, i: nat)
    requires IsRun(sys, run, acts) && i < |run|
    ensures var s := run[i];
            && |s.answered| + |Unanswered(s)| + |s.queries| == s.asked
            && (forall k :: 0 <= k < |s.answered| ==> s.answered[k].query.id == k)
  {
    RunKeeps(sys, run, acts, i);
  }
}
