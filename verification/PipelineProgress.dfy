/**
  Progress: left alone, the pipeline comes to rest, and at rest everything accepted is confirmed and
  every query is answered. The bounded channels cannot deadlock.
 */
module PipelineProgress {
  import opened Points
  import opened PipelineModel
  import opened PipelineInvariant
  import opened PipelineTheorems

  // ---- The measure: every batch, query and loop counts for the steps still ahead of it ----

  function WorkerWeight(w: Worker): nat {
    4 * |w.ch| + (match w.job case Idle => 1 case Storing(_) => 4 case Confirming(_) => 3 case Done => 0)
  }

  function WorkersWeight(ws: seq<Worker>): nat {
    if ws == [] then 0 else WorkerWeight(ws[0]) + WorkersWeight(ws[1..])
  }

  function ThrottleWeight(t: Throttle): nat {
    match t
    case Unthrottled => 0
    case Throttle(pc, out) =>
      6 * |out| + (match pc case Tick => 2 case Inner(_) => 1 case Holding(_, _) => 9 case Exited => 0)
  }

  function PersisterWeight(p: Persister): nat {
    ThrottleWeight(p.throttle) + WorkersWeight(p.workers) +
    (match p.shuffler case NoShuffler => 0 case Waiting => 1 case Routing(_) => 6 case Closed => 0)
  }

  function CacheWeight(s: State): nat {
    14 * |s.input| + 12 * |s.data| + 12 * |Opt(s.held)| + 4 * |s.queries| +
    (match s.pc case Head => 1 case Select => 0 case Forward(_) => 3)
  }

  function TrackerWeight(s: State): nat {
    |s.taken| + 10 * |Opt(s.pending)| + |s.confirmChan|
  }

  function Measure(s: State): nat {
    CacheWeight(s) + TrackerWeight(s) + 9 * |s.out| + PersisterWeight(s.persister)
  }

  lemma {:induction false} WeightUpdate(ws: seq<Worker>, i: nat, w: Worker)
    requires i < |ws|
    ensures WorkersWeight(ws[i := w]) == WorkersWeight(ws) - WorkerWeight(ws[i]) + WorkerWeight(w)
  {
    if i > 0 {
      assert ws[i := w][1..] == ws[1..][i - 1 := w];
      WeightUpdate(ws[1..], i - 1, w);
    } else {
      assert ws[i := w][1..] == ws[1..];
    }
  }

  lemma RemoveKey(d: map<Metric, Ref>, m: Metric)
    requires m in d
    ensures |d - {m}| == |d| - 1
  {
    assert (d - {m}).Keys == d.Keys - {m};
  }

  lemma AddKey(d: map<Metric, Ref>, m: Metric, r: Ref)
    requires m !in d
    ensures |d[m := r]| == |d| + 1
  {
    assert d[m := r].Keys == d.Keys + {m};
  }

  lemma PopLowers(s: State, queue: seq<Ref>)
    requires s.pc.Head? && s.held.None? && queue != [] && queue[|queue| - 1].metric in s.data
    ensures Measure(PopFrom(s, queue).(pc := Select)) < Measure(s)
  {
    RemoveKey(s.data, queue[|queue| - 1].metric);
  }

  lemma HeadLowers(sys: System, s: State, order: seq<Ref>)
    requires CacheInv(sys, s) && s.pc.Head? && IsRebuild(order, s.data)
    ensures Measure(CacheHead(sys, s, order)) < Measure(s)
  {
    if Pops(sys, s, order) {
      var queue := PopQueue(s, order);
      assert queue[|queue| - 1] in queue;
      PopLowers(s, queue);
    }
  }

  lemma ReceiveLowers(s: State, accept: bool)
    requires s.pc.Select? && s.input != []
    ensures Measure(Receive(s, accept)) < Measure(s)
  {
    var r := s.input[0];
    if r.metric !in s.data { AddKey(s.data, r.metric, r); }
  }

  lemma CacheLowers(sys: System, s: State, a: Action)
    requires Inv(sys, s) && Enabled(sys, s, a)
    requires CacheStep(a) && !External(a)
    ensures Measure(Apply(sys, s, a)) < Measure(s)
  {
    match a
    case AHead(order) => HeadLowers(sys, s, order);
    case AReceive(accept) => ReceiveLowers(s, accept);
    case _ =>
  }

  lemma GiveReaderWeight(p: Persister, r: Ref)
    requires ReaderIdle(p)
    ensures PersisterWeight(GiveReader(p, r)) <= PersisterWeight(p) + 5
  {
    if p.shuffler.NoShuffler? { WeightUpdate(p.workers, 0, p.workers[0].(job := Storing(r))); }
  }

  lemma ReceiveOutWeight(s: State)
    requires s.out != [] && OutReaderReady(s.persister)
    ensures Measure(ReceiveOut(s)) < Measure(s)
  {
    if !s.persister.throttle.Throttle? { GiveReaderWeight(s.persister, s.out[0]); }
  }

  lemma ReceiveThrottledWeight(s: State)
    requires s.persister.throttle.Throttle? && s.persister.throttle.out != [] && ReaderIdle(s.persister)
    ensures Measure(ReceiveThrottled(s)) < Measure(s)
  {
    var t := s.persister.throttle;
    GiveReaderWeight(s.persister.(throttle := t.(out := t.out[1..])), t.out[0]);
  }

  /** Replacing one worker by a lighter one. */
  lemma LighterWorker(p: Persister, i: nat, w: Worker)
    requires i < |p.workers|
    ensures PersisterWeight(p.(workers := p.workers[i := w])) ==
              PersisterWeight(p) - WorkerWeight(p.workers[i]) + WorkerWeight(w)
  {
    WeightUpdate(p.workers, i, w);
  }

  lemma ShuffleLowers(sys: System, s: State)
    requires s.persister.shuffler.Routing? && s.persister.workers != []
    ensures Measure(Shuffle(sys, s)) < Measure(s)
  {
    var p := s.persister;
    var i := Route(sys, |p.workers|, p.shuffler.ref.metric);
    LighterWorker(p, i, p.workers[i].(ch := p.workers[i].ch + [p.shuffler.ref]));
  }

  lemma JobLowers(s: State, i: nat)
    requires i < |s.persister.workers|
    ensures s.persister.workers[i].job.Storing? ==> Measure(Store(s, i)) < Measure(s)
    ensures s.persister.workers[i].job.Confirming? ==> Measure(SendConfirm(s, i)) < Measure(s)
    ensures s.persister.workers[i].job.Idle? ==> Measure(WorkerExit(s, i)) < Measure(s)
  {
    var p := s.persister;
    var w := p.workers[i];
    if w.job.Storing? { LighterWorker(p, i, w.(job := Confirming(w.job.ref))); }
    if w.job.Confirming? { LighterWorker(p, i, w.(job := Idle)); }
    LighterWorker(p, i, w.(job := Done));
  }

  lemma WorkerReceiveLowers(s: State, i: nat)
    requires i < |s.persister.workers| && s.persister.workers[i].ch != [] && s.persister.workers[i].job.Idle?
    ensures Measure(WorkerReceive(s, i)) < Measure(s)
  {
    var w := s.persister.workers[i];
    LighterWorker(s.persister, i, Worker(w.ch[1..], Storing(w.ch[0])));
  }

  lemma WorkerLowers(sys: System, s: State, a: Action)
    requires Enabled(sys, s, a) && WorkerStep(a)
    ensures Measure(Apply(sys, s, a)) < Measure(s)
  {
    match a
    case AShuffle => ShuffleLowers(sys, s);
    case AWorkerReceive(i) => WorkerReceiveLowers(s, i);
    case AWorkerExit(i) => JobLowers(s, i);
    case AStore(i) => JobLowers(s, i);
    case ASendConfirm(i) => JobLowers(s, i);
  }

  lemma ReaderExitLowers(s: State)
    requires ReaderMayExit(s.persister)
    ensures Measure(ReaderExit(s)) < Measure(s)
  {
    var p := s.persister;
    if p.shuffler.NoShuffler? { LighterWorker(p, 0, p.workers[0].(job := Done)); }
  }

  lemma ThrottleLowers(s: State)
    requires s.persister.throttle.Throttle?
    ensures var pc := s.persister.throttle.pc;
            && (pc.Tick? ==> Measure(ThrottleTick(s)) < Measure(s))
            && (pc.Holding? ==> Measure(ThrottleSend(s)) < Measure(s))
            && (pc.Tick? || pc.Inner? ==> Measure(ThrottleExit(s)) < Measure(s))
  {
  }

  lemma ThrottleStepLowers(sys: System, s: State, a: Action)
    requires Inv(sys, s) && Enabled(sys, s, a) && ThrottleStep(a)
    ensures Measure(Apply(sys, s, a)) < Measure(s)
  {
    match a
    case AThrottleSendDirect =>
      ThrottleLowers(s);
      ReceiveThrottledWeight(ThrottleSend(s));
    case AReceiveThrottled => ReceiveThrottledWeight(s);
    case ATick => ThrottleLowers(s);
    case AThrottleSend => ThrottleLowers(s);
    case AThrottleExit => ThrottleLowers(s);
  }

  lemma OutLowers(sys: System, s: State, a: Action)
    requires Inv(sys, s) && Enabled(sys, s, a)
    requires a.AEmit? || a.AEmitDirect? || a.AReceiveOut? || a.AReaderExit?
    ensures Measure(Apply(sys, s, a)) < Measure(s)
  {
    match a
    case AEmit =>
    case AEmitDirect => ReceiveOutWeight(Emit(s));
    case AReceiveOut => ReceiveOutWeight(s);
    case AReaderExit => ReaderExitLowers(s);
  }

  /** Every step that is not the outside world's doing lowers the measure. */
  lemma StepLowers(sys: System, s: State, a: Action)
    requires Inv(sys, s) && Enabled(sys, s, a) && !External(a)
    ensures Measure(Apply(sys, s, a)) < Measure(s)
  {
    if CacheStep(a) {
      CacheLowers(sys, s, a);
    } else if WorkerStep(a) {
      WorkerLowers(sys, s, a);
    } else if ThrottleStep(a) {
      ThrottleStepLowers(sys, s, a);
    } else {
      OutLowers(sys, s, a);
    }
  }

  /** In any run, the steps taken from a state on without outside help number at most its measure. */
  lemma {:induction false} WorkIsBounded(sys: System, run: seq<State>, acts: seq<Action>, i: nat, j: nat)
    requires IsRun(sys, run, acts) && i <= j < |run|
    requires forall k :: i <= k < j ==> !External(acts[k])
    ensures Measure(run[j]) + (j - i) <= Measure(run[i])
    decreases j - i
  {
    if i < j {
      WorkIsBounded(sys, run, acts, i, j - 1);
      RunKeeps(sys, run, acts, j - 1);
      assert Enabled(sys, run[j - 1], acts[j - 1]);
      StepLowers(sys, run[j - 1], acts[j - 1]);
    }
  }

  // ---- States at rest ----

  ghost predicate AtRest(sys: System, s: State) {
    forall a :: !External(a) ==> !Enabled(sys, s, a)
  }

  ghost predicate Running(p: Persister) {
    !p.exit && p.workers != []
  }

  lemma RebuildSnoc(data: map<Metric, Ref>, m: Metric, rest: seq<Ref>)
    requires m in data && data[m].metric == m && (forall k :: k in data ==> data[k].metric == k)
    requires IsRebuild(rest, data - {m})
    ensures IsRebuild(rest + [data[m]], data)
  {
    var order := rest + [data[m]];
    forall k | k in data
      ensures data[k] in order
    {
      if k != m { assert k in data - {m} && data[k] in rest; } else { assert order[|rest|] == data[m]; }
    }
    forall r | r in order
      ensures r.metric in data && data[r.metric] == r && (r in rest ==> r != data[m])
    {
      if r in rest { assert r.metric in data - {m}; }
    }
  }

  lemma {:induction false} RebuildExists(data: map<Metric, Ref>) returns (order: seq<Ref>)
    requires forall m :: m in data ==> data[m].metric == m
    ensures IsRebuild(order, data)
    decreases |data|
  {
    if data == map[] {
      order := [];
    } else {
      var m :| m in data;
      RemoveKey(data, m);
      var rest := RebuildExists(data - {m});
      order := rest + [data[m]];
      RebuildSnoc(data, m, rest);
    }
  }

  /** The cache worker and the tracker never wait for each other: at rest nothing reaches them. */
  lemma RestUpstream(sys: System, s: State)
    requires Inv(sys, s) && AtRest(sys, s)
    ensures s.pc.Select? && s.input == [] && s.queries == [] && s.taken == [] && s.confirmChan == []
  {
    if s.pc.Head? {
      var order := RebuildExists(s.data);
      assert Enabled(sys, s, AHead(order));
      assert false;
    }
    assert !Enabled(sys, s, AForwardQuery);
    assert !Enabled(sys, s, AAnswer);
    assert !Enabled(sys, s, AReceive(true));
    assert !Enabled(sys, s, ATakeQuery);
    assert !Enabled(sys, s, AConfirm);
  }

  lemma RestWorker(sys: System, s: State, i: nat)
    requires AtRest(sys, s) && i < |s.persister.workers| && s.confirmChan == []
    requires !s.persister.shuffler.NoShuffler? || s.persister.workers[i].ch == []
    ensures s.persister.workers[i].job.Idle? || s.persister.workers[i].job.Done?
    ensures s.persister.workers[i].job.Idle? ==> s.persister.workers[i].ch == []
  {
    assert !Enabled(sys, s, AStore(i));
    assert !Enabled(sys, s, ASendConfirm(i));
    assert !Enabled(sys, s, AWorkerReceive(i));
  }

  lemma RestWorkers(sys: System, s: State)
    requires Inv(sys, s) && AtRest(sys, s)
    ensures forall i :: 0 <= i < |s.persister.workers| ==> s.persister.workers[i].ch == []
    ensures forall i :: 0 <= i < |s.persister.workers| ==>
              s.persister.workers[i].job.Idle? || s.persister.workers[i].job.Done?
    ensures !s.persister.shuffler.Routing?
  {
    var p := s.persister;
    RestUpstream(sys, s);
    forall i | 0 <= i < |p.workers|
      ensures p.workers[i].ch == [] && (p.workers[i].job.Idle? || p.workers[i].job.Done?)
    {
      RestWorker(sys, s, i);
    }
    assert !Enabled(sys, s, AShuffle);
  }

  lemma RestThrottle(sys: System, s: State)
    requires Inv(sys, s) && AtRest(sys, s) && ReaderIdle(s.persister) && s.persister.throttle.Throttle?
    ensures s.persister.throttle.out == []
    ensures s.persister.throttle.pc.Exited? || (!s.persister.exit && s.persister.throttle.pc.Inner?)
  {
    assert !Enabled(sys, s, AReceiveThrottled);
    assert !Enabled(sys, s, ATick);
    assert !Enabled(sys, s, AThrottleExit);
    assert !Enabled(sys, s, AThrottleSend);
    assert !Enabled(sys, s, AThrottleSendDirect);
  }

  /** With a persister that is running, nothing is left between the input channel and the store. */
  lemma RestIsEmpty(sys: System, s: State)
    requires Inv(sys, s) && AtRest(sys, s) && Running(s.persister)
    ensures s.data == map[] && s.held.None? && s.pending.None? && s.out == []
    ensures forall m ::
              Inside(s.persister, WorkerOf(sys, s, m)) == [] && ConfirmingSeq(s.persister, WorkerOf(sys, s, m)) == []
  {
    var p := s.persister;
    RestUpstream(sys, s);
    RestWorkers(sys, s);
    assert !ReaderDone(p);
    assert ReaderIdle(p) by {
      if p.shuffler.NoShuffler? { assert !p.workers[0].job.Done?; }
    }
    if p.throttle.Throttle? { RestThrottle(sys, s); }
    assert OutReaderReady(p);
    assert !Enabled(sys, s, AReceiveOut);
    assert !Enabled(sys, s, AEmit);
    assert !Enabled(sys, s, AEmitDirect);
    assert !Enabled(sys, s, AHandOff);
  }

  /**
    At rest with a running persister, for every metric the confirmed batches are the stored ones and
    hold exactly the accepted points in order, no batch is unconfirmed, and every query is answered.
   */
  lemma RestIsDone(sys: System, run: seq<State>, acts: seq<Action>, i: nat)
    requires IsRun(sys, run, acts) && i < |run| && AtRest(sys, run[i]) && Running(run[i].persister)
    ensures var s := run[i];
            && (forall m ::
                  Of(s.stored, m) == Of(s.confirmed, m) && Pts(s.heap, Of(s.confirmed, m)) == Acc(s.accepted, m))
            && s.inflight == map[]
            && |s.answered| == s.asked && s.input == []
  {
    var s := run[i];
    RunKeeps(sys, run, acts, i);
    RestUpstream(sys, s);
    RestIsEmpty(sys, s);
    forall m
      ensures Of(s.stored, m) == Of(s.confirmed, m) && Pts(s.heap, Of(s.confirmed, m)) == Acc(s.accepted, m)
      ensures m !in s.inflight
    {
      assert MetricInv(sys, s, m);
      assert InflightOf(s, m) == [];
      assert Chain(s, m) == Of(s.confirmed, m);
    }
  }

  /** A requested Stop completes: at rest, all goroutines it waits for have returned. */
  lemma RestIsStopped(sys: System, run: seq<State>, acts: seq<Action>, i: nat)
    requires IsRun(sys, run, acts) && i < |run| && AtRest(sys, run[i]) && run[i].persister.exit
    ensures StopCompleted(run[i].persister) && |run[i].answered| == run[i].asked && run[i].input == []
  {
    var s := run[i];
    var p := s.persister;
    RunKeeps(sys, run, acts, i);
    RestUpstream(sys, s);
    RestWorkers(sys, s);
    if ReaderIdle(p) {
      if p.throttle.Throttle? { RestThrottle(sys, s); }
      assert Enabled(sys, s, AReaderExit);
      assert false;
    }
    forall j | 0 <= j < |p.workers|
      ensures p.workers[j].job.Done?
    {
      assert !Enabled(sys, s, AWorkerExit(j));
    }
  }
}
