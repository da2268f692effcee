/**
  What single steps do, in the terms of the code: where a batch is routed, when the loop head pops, what
  Start starts, when a send blocks; and what the throttle lets through between two ticks.
 */
module PipelineSteps {
  import opened PipelineInvariant
  import opened PipelineModel
  import opened PipelineTheorems
  import opened Points

  // ---- Routing ----

  /** With several workers, the batch goes to the one that the checksum of its metric names, and to no other. */
  lemma ShuffleByChecksum(sys: System, s: State)
    requires s.persister.shuffler.Routing? && |s.persister.workers| >= 2
    ensures var p, r := s.persister, s.persister.shuffler.ref;
            var k, t := sys.crc(r.metric) % |p.workers|, Shuffle(sys, s);
            && t == s.(persister := t.persister)
            && t.persister == p.(shuffler := Waiting, workers := t.persister.workers)
            && |t.persister.workers| == |p.workers|
            && forall i :: 0 <= i < |p.workers| ==>
                 t.persister.workers[i] ==
                 if i == k then Worker(p.workers[i].ch + [r], p.workers[i].job) else p.workers[i]
  {
  }

  /** In every reachable state, what a worker has in its hands or its channel is its own by checksum. */
  lemma RoutedByChecksum(sys: System, run: seq<State>, acts: seq<Action>, k: nat, i: nat, r: Ref)
    requires IsRun(sys, run, acts) && k < |run|
    requires var ws := run[k].persister.workers;
             && |ws| >= 2 && i < |ws|
             && (r in ws[i].ch || ws[i].job == Storing(r) || ws[i].job == Confirming(r))
    ensures sys.crc(r.metric) % |run[k].persister.workers| == i
  {
    RunKeeps(sys, run, acts, k);
    var p := run[k].persister;
    assert RoutingInv(sys, p);
    if r !in p.workers[i].ch { assert r in StoringSeq(p, i) + ConfirmingSeq(p, i); }
  }

  // ---- The loop head ----

  /**
    A batch is popped exactly if none is held, at most a tenth of the input channel is filled and there
    is one: the last of the queue, or of a new queue if that is empty.
   */
  lemma HeadPops(sys: System, s: State, order: seq<Ref>)
    ensures var queue := if s.queue != [] then s.queue else order;
            CacheHead(sys, s, order) ==
            if s.held.None? && |s.input| <= sys.inputCap / 10 && queue != [] then
              var r := queue[|queue| - 1];
              s.(queue := queue[..|queue| - 1], data := s.data - {r.metric}, held := Some(r), pc := Select)
            else s.(pc := Select)
  {
  }

  // ---- Start ----

  /** A single worker reads the output itself; several are fed by a shuffler; the throttle comes before either. */
  lemma StartStarts(s: State, c: Config)
    ensures var t, p := Start(s, c), Start(s, c).persister;
            && t == s.(persister := p)
            && |p.workers| == (if c.workers > 1 then c.workers else 1)
            && (forall i :: 0 <= i < |p.workers| ==> p.workers[i] == Worker([], Idle))
            && p.shuffler == (if c.workers > 1 then Waiting else NoShuffler)
            && p.throttle == (if c.throttled then Throttle(Tick, []) else Unthrottled)
            && p.chunk == c.chunk && !p.exit
  {
  }

  /** A persister may be started when the goroutines of the one before have all returned. */
  lemma WhenStartIsOpen(sys: System, s: State, c: Config)
    ensures Enabled(sys, s, AStart(c)) <==>
              && c.chunk >= 1 && s.persister.exit && !s.persister.shuffler.Waiting? && !s.persister.shuffler.Routing?
              && forall w :: w in s.persister.workers ==> w.job == Done
  {
    if forall w :: w in s.persister.workers ==> w.job == Done {
      assert forall i :: 0 <= i < |s.persister.workers| ==> s.persister.workers[i] in s.persister.workers;
    }
  }

  /** A stop sets the flag that the persister's goroutines watch. */
  lemma StopSetsFlag(sys: System, s: State)
    ensures Enabled(sys, s, AStop) && Apply(sys, s, AStop) == s.(persister := s.persister.(exit := true))
  {
  }

  lemma ReceiveKeepsFlag(s: State)
    requires s.out != [] && OutReaderReady(s.persister)
    ensures ReceiveOut(s).persister.exit == s.persister.exit
  {
  }

  lemma ThrottleKeepsFlag(sys: System, s: State, a: Action)
    requires Enabled(sys, s, a) && ThrottleStep(a)
    ensures Apply(sys, s, a).persister.exit == s.persister.exit
  {
  }

  lemma WorkerKeepsFlag(sys: System, s: State, a: Action)
    requires Enabled(sys, s, a) && WorkerStep(a)
    ensures Apply(sys, s, a).persister.exit == s.persister.exit
  {
  }

  lemma OtherKeepsFlag(sys: System, s: State, a: Action)
    requires Enabled(sys, s, a) && !ThrottleStep(a) && !WorkerStep(a) && !a.AStart?
    ensures Apply(sys, s, a).persister.exit == (a.AStop? || s.persister.exit)
  {
    if a.AReceiveOut? {
      ReceiveKeepsFlag(s);
    } else if a.AEmitDirect? {
      ReceiveKeepsFlag(Emit(s));
    }
  }

  /** Nothing but a start takes it back. */
  lemma {:induction false} StopStays(sys: System, run: seq<State>, acts: seq<Action>, i: nat, k: nat)
    requires IsRun(sys, run, acts) && i < k <= |acts| && acts[i].AStop?
    requires forall j :: i < j < k ==> !acts[j].AStart?
    ensures run[k].persister.exit
    decreases k
  {
    var s, a := run[k - 1], acts[k - 1];
    assert Enabled(sys, s, a) && run[k] == Apply(sys, s, a);
    if i < k - 1 { StopStays(sys, run, acts, i, k - 1); }
    if ThrottleStep(a) {
      ThrottleKeepsFlag(sys, s, a);
    } else if WorkerStep(a) {
      WorkerKeepsFlag(sys, s, a);
    } else {
      OtherKeepsFlag(sys, s, a);
    }
  }

  // ---- Whose turn it is ----

  /** The cache worker goes from its head to its select, and from every branch back to the head. */
  lemma WorkerLoop(sys: System, s: State, a: Action)
    requires Enabled(sys, s, a)
    ensures var next := Apply(sys, s, a).pc;
            match a
            case AHead(_) => s.pc == Head && next == Select
            case AReceive(_) => s.pc == Select && next == Head
            case ASendDirect(_, _, _) => s.pc == Select && next == Head
            case AHandOff => s.pc == Select && next == Head
            case ATakeQuery => s.pc == Select && next.Forward? && next.taken.query == s.queries[0]
            case AForwardQuery => s.pc.Forward? && next == Head
            case _ => next == s.pc
  {
    if a.AHead? { HeadPops(sys, s, a.order); }
  }

  // ---- Full channels ----

  /** The sends that block, and the room that each channel has. */
  lemma WhenSendsBlock(sys: System, s: State, m: Metric, ps: seq<Point>, i: nat)
    ensures Enabled(sys, s, ASend(m, ps)) <==> |s.input| < sys.inputCap
    ensures Enabled(sys, s, AAsk(m)) <==> |s.queries| < 16
    ensures Enabled(sys, s, AForwardQuery) <==> s.pc.Forward? && |s.taken| < 16
    ensures Enabled(sys, s, AThrottleSend) <==>
              && s.persister.throttle.Throttle? && s.persister.throttle.pc.Holding?
              && |s.persister.throttle.out| < sys.outCap
    ensures Enabled(sys, s, AEmit) <==> s.pending.Some? && |s.out| < sys.outCap
    ensures i < |s.persister.workers| && s.persister.workers[i].job.Confirming? ==>
              (Enabled(sys, s, ASendConfirm(i)) <==> |s.confirmChan| < 2048)
    ensures s.persister.shuffler.Routing? && |s.persister.workers| >= 2 ==>
              var k := sys.crc(s.persister.shuffler.ref.metric) % |s.persister.workers|;
              (Enabled(sys, s, AShuffle) <==> |s.persister.workers[k].ch| < 32)
  {
  }

  /** The receives that block: each goes on exactly if its channel has something and its goroutine is there. */
  lemma WhenReceivesProceed(sys: System, s: State, m: Metric, ps: seq<Point>, i: nat)
    ensures Enabled(sys, s, AReceive(true)) <==> s.pc == Select && s.input != []
    ensures Enabled(sys, s, ATakeQuery) <==> s.pc == Select && s.queries != []
    ensures Enabled(sys, s, ASendDirect(m, ps, true)) <==> s.pc == Select && sys.inputCap == 0 && s.input == []
    ensures Enabled(sys, s, AHandOff) <==> s.pc == Select && s.held != None && s.pending == None
    ensures Enabled(sys, s, AConfirm) <==> s.confirmChan != []
    ensures Enabled(sys, s, AAnswer) <==> s.taken != []
    ensures s.persister.throttle.Throttle? ==>
              (Enabled(sys, s, AReceiveOut) <==> s.out != [] && s.persister.throttle.pc.Inner?)
    ensures s.persister.throttle == Unthrottled && !s.persister.shuffler.NoShuffler? ==>
              (Enabled(sys, s, AReceiveOut) <==> s.out != [] && s.persister.shuffler == Waiting)
    ensures s.persister.throttle == Unthrottled && s.persister.shuffler == NoShuffler && |s.persister.workers| == 1 ==>
              (Enabled(sys, s, AReceiveOut) <==> s.out != [] && s.persister.workers[0].job == Idle)
    ensures i < |s.persister.workers| && s.persister.shuffler != NoShuffler ==>
              (Enabled(sys, s, AWorkerReceive(i)) <==>
                 s.persister.workers[i].job == Idle && s.persister.workers[i].ch != [])
  {
  }

  /** No channel ever holds more than it has room for. */
  ghost predicate WithinCapacity(sys: System, s: State) {
    && |s.input| <= sys.inputCap && |s.out| <= sys.outCap
    && |s.queries| <= 16 && |s.taken| <= 16 && |s.confirmChan| <= 2048
    && (s.persister.throttle.Throttle? ==> |s.persister.throttle.out| <= sys.outCap)
    && forall i :: 0 <= i < |s.persister.workers| ==> |s.persister.workers[i].ch| <= 32
  }

  lemma ReceiveKeepsCapacity(sys: System, s: State, accept: bool)
    requires s.input != [] && WithinCapacity(sys, s.(input := s.input[1..]))
    ensures WithinCapacity(sys, Receive(s, accept))
  {
  }

  lemma HeadKeepsCapacity(sys: System, s: State, order: seq<Ref>)
    requires WithinCapacity(sys, s)
    ensures WithinCapacity(sys, CacheHead(sys, s, order))
  {
  }

  lemma CacheKeepsCapacity(sys: System, s: State, a: Action)
    requires WithinCapacity(sys, s) && Enabled(sys, s, a) && CacheStep(a)
    ensures WithinCapacity(sys, Apply(sys, s, a))
  {
    match a
    case ASendDirect(m, ps, accept) => ReceiveKeepsCapacity(sys, Send(s, m, ps), accept);
    case AHead(order) => HeadKeepsCapacity(sys, s, order);
    case AReceive(accept) => ReceiveKeepsCapacity(sys, s, accept);
    case _ =>
  }

  lemma ThrottleKeepsCapacity(sys: System, s: State, a: Action)
    requires WithinCapacity(sys, s) && Enabled(sys, s, a) && ThrottleStep(a)
    ensures WithinCapacity(sys, Apply(sys, s, a))
  {
  }

  lemma WorkerKeepsCapacity(sys: System, s: State, a: Action)
    requires WithinCapacity(sys, s) && Enabled(sys, s, a) && WorkerStep(a)
    ensures WithinCapacity(sys, Apply(sys, s, a))
  {
  }

  lemma OtherKeepsCapacity(sys: System, s: State, a: Action)
    requires WithinCapacity(sys, s) && Enabled(sys, s, a) && !CacheStep(a) && !ThrottleStep(a) && !WorkerStep(a)
    ensures WithinCapacity(sys, Apply(sys, s, a))
  {
  }

  lemma {:induction false} CapacityHolds(sys: System, run: seq<State>, acts: seq<Action>, k: nat)
    requires IsRun(sys, run, acts) && k < |run|
    ensures WithinCapacity(sys, run[k])
  {
    if k > 0 {
      CapacityHolds(sys, run, acts, k - 1);
      var s, a := run[k - 1], acts[k - 1];
      assert Enabled(sys, s, a) && run[k] == Apply(sys, s, a);
      if CacheStep(a) {
        CacheKeepsCapacity(sys, s, a);
      } else if ThrottleStep(a) {
        ThrottleKeepsCapacity(sys, s, a);
      } else if WorkerStep(a) {
        WorkerKeepsCapacity(sys, s, a);
      } else {
        OtherKeepsCapacity(sys, s, a);
      }
    }
  }

  // ---- The throttle between two ticks ----

  predicate Passes(a: Action) {
    a.AThrottleSend? || a.AThrottleSendDirect?
  }

  /** The batches that the throttle passes on from step `i` up to `j`. */
  function Passed(acts: seq<Action>, i: nat, j: nat): nat
    requires i <= j <= |acts|
  {
    if i == j then 0 else Passed(acts, i, j - 1) + (if Passes(acts[j - 1]) then 1 else 0)
  }

  /** After a tick and `n` batches. */
  predicate Counted(t: Throttle, chunk: nat, n: nat) {
    t.Throttle? && match t.pc
      case Tick => n == chunk
      case Inner(left) => n + left == chunk && left >= 1
      case Holding(_, left) => n + left == chunk && left >= 1
      case Exited => n <= chunk
  }

  lemma ThrottleCounts(sys: System, s: State, a: Action, n: nat)
    requires Enabled(sys, s, a) && !a.ATick? && ThrottleStep(a) && Counted(s.persister.throttle, s.persister.chunk, n)
    ensures var p := Apply(sys, s, a).persister;
            p.chunk == s.persister.chunk && Counted(p.throttle, p.chunk, if Passes(a) then n + 1 else n)
  {
  }

  lemma ReceiveCounts(s: State, n: nat)
    requires s.out != [] && OutReaderReady(s.persister) && Counted(s.persister.throttle, s.persister.chunk, n)
    ensures var p := ReceiveOut(s).persister; p.chunk == s.persister.chunk && Counted(p.throttle, p.chunk, n)
  {
  }

  lemma OtherCounts(sys: System, s: State, a: Action, n: nat)
    requires Enabled(sys, s, a) && !ThrottleStep(a) && !a.AStart? && Counted(s.persister.throttle, s.persister.chunk, n)
    ensures var p := Apply(sys, s, a).persister; p.chunk == s.persister.chunk && Counted(p.throttle, p.chunk, n)
  {
    if a.AReceiveOut? {
      ReceiveCounts(s, n);
    } else if a.AEmitDirect? {
      ReceiveCounts(Emit(s), n);
    }
  }

  lemma StepCounts(sys: System, s: State, a: Action, n: nat, p: Persister)
    requires Enabled(sys, s, a) && !a.ATick? && !a.AStart? && p == Apply(sys, s, a).persister
    requires Counted(s.persister.throttle, s.persister.chunk, n)
    ensures p.chunk == s.persister.chunk && Counted(p.throttle, p.chunk, if Passes(a) then n + 1 else n)
  {
    if ThrottleStep(a) { ThrottleCounts(sys, s, a, n); } else { OtherCounts(sys, s, a, n); }
  }

  lemma ChunkIsPositive(sys: System, run: seq<State>, acts: seq<Action>, i: nat)
    requires IsRun(sys, run, acts) && i < |run|
    ensures run[i].persister.chunk >= 1
  {
    RunKeeps(sys, run, acts, i);
  }

  /** Since the last tick the throttle has passed on what its counter says, and never more than the chunk. */
  lemma {:induction false} SinceTick(sys: System, run: seq<State>, acts: seq<Action>, i: nat, k: nat)
    requires IsRun(sys, run, acts) && i < k <= |acts| && acts[i].ATick?
    requires forall j :: i < j < k ==> !acts[j].ATick? && !acts[j].AStart?
    ensures var chunk, n := run[i].persister.chunk, Passed(acts, i + 1, k);
            run[k].persister.chunk == chunk && Counted(run[k].persister.throttle, chunk, n) && n <= chunk
    decreases k
  {
    var s, a := run[k - 1], acts[k - 1];
    assert Enabled(sys, s, a) && run[k] == Apply(sys, s, a);
    if k == i + 1 {
      ChunkIsPositive(sys, run, acts, i);
    } else {
      SinceTick(sys, run, acts, i, k - 1);
      var n := Passed(acts, i + 1, k - 1);
      StepCounts(sys, s, a, n, run[k].persister);
    }
  }

  /** Between two ticks exactly `chunk` batches pass. */
  lemma TickPassesChunk(sys: System, run: seq<State>, acts: seq<Action>, i: nat, k: nat)
    requires IsRun(sys, run, acts) && i < k < |acts| && acts[i].ATick? && acts[k].ATick?
    requires forall j :: i < j < k ==> !acts[j].ATick? && !acts[j].AStart?
    ensures Passed(acts, i + 1, k) == run[i].persister.chunk
  {
    SinceTick(sys, run, acts, i, k);
    assert Enabled(sys, run[k], acts[k]);
  }
}
