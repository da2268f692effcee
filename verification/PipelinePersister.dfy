/** The persister's steps keep the invariant: each moves batches along without reordering a metric. */
module PipelinePersister {
  import opened Points
  import opened PipelineModel
  import opened PipelineInvariant

  /** A step that leaves the cache worker and the tracker alone only has the flow to answer for. */
  lemma Flow(sys: System, s: State, t: State)
    requires Inv(sys, s)
    requires t == s.(out := t.out, drained := t.drained, pending := t.pending, persister := t.persister,
                     confirmChan := t.confirmChan, stored := t.stored)
    requires PersisterInv(sys, t.persister)
    requires forall m :: FlightInv(sys, t, m) && StoredInv(sys, t, m)
    ensures Inv(sys, t)
  {
    forall m
      ensures MetricInv(sys, t, m)
    {
      assert MetricInv(sys, s, m);
      assert Chain(t, m) == Chain(s, m);
    }
    assert Unanswered(t) == Unanswered(s);
    forall i | 0 <= i < |Unanswered(t)|
      ensures Covered(t, Unanswered(t)[i])
    {
      assert Covered(s, Unanswered(s)[i]);
    }
  }

  /** A step inside the persister that keeps every worker's view of the batches. */
  lemma Rearrange(sys: System, s: State, p: Persister)
    requires Inv(sys, s)
    requires PersisterInv(sys, p)
    requires |p.workers| == |s.persister.workers|
    requires forall m :: var w := WorkerOf(sys, s, m);
               && ConfirmingSeq(p, w) == ConfirmingSeq(s.persister, w)
               && Of(Inside(p, w), m) == Of(Inside(s.persister, w), m)
    ensures Inv(sys, s.(persister := p))
  {
    var t := s.(persister := p);
    forall m
      ensures FlightInv(sys, t, m) && StoredInv(sys, t, m)
    {
      var w := WorkerOf(sys, s, m);
      assert MetricInv(sys, s, m);
      OfConcat(Inside(s.persister, w), s.out + Opt(s.pending), m);
      OfConcat(Inside(p, w), s.out + Opt(s.pending), m);
    }
    Flow(sys, s, t);
  }

  lemma EmitKeeps(sys: System, s: State)
    requires Inv(sys, s) && s.pending.Some?
    ensures Inv(sys, Emit(s))
  {
    var t := Emit(s);
    assert t.out + Opt(t.pending) == s.out + Opt(s.pending);
    forall m
      ensures FlightInv(sys, t, m) && StoredInv(sys, t, m)
    {
      assert MetricInv(sys, s, m);
    }
    Flow(sys, s, t);
  }

  lemma ReaderInside(p: Persister, r: Ref, w: nat)
    requires SoloInv(p) && ReaderIdle(p)
    requires p.shuffler.NoShuffler? ==> w == 0
    ensures Inside(GiveReader(p, r), w) == StoringSeq(p, w) + (ChannelSeq(p, w) + ([r] + ThrottleSeq(p.throttle)))
    ensures ConfirmingSeq(GiveReader(p, r), w) == ConfirmingSeq(p, w)
  {
  }

  lemma GiveReaderKeeps(sys: System, p: Persister, r: Ref)
    requires PersisterInv(sys, p) && ReaderIdle(p)
    ensures PersisterInv(sys, GiveReader(p, r))
  {
    var q := GiveReader(p, r);
    assert forall i :: 0 <= i < |p.workers| ==> q.workers[i].ch == p.workers[i].ch;
    if p.shuffler.NoShuffler? {
      assert |q.workers| == 1;
    }
  }

  lemma Snoc(a: seq<Ref>, b: seq<Ref>, c: seq<Ref>, r: Ref)
    ensures a + (b + ([] + (c + [r]))) == a + (b + ([] + c)) + [r]
    ensures a + (b + ([r] + [])) == a + (b + ([] + [])) + [r]
    ensures a + (b + (c + [r])) == a + (b + c) + [r]
  {
  }

  lemma ReceiveOutInside(s: State, w: nat)
    requires SoloInv(s.persister) && s.out != [] && OutReaderReady(s.persister)
    requires s.persister.shuffler.NoShuffler? ==> w == 0
    ensures Inside(ReceiveOut(s).persister, w) == Inside(s.persister, w) + [s.out[0]]
    ensures ConfirmingSeq(ReceiveOut(s).persister, w) == ConfirmingSeq(s.persister, w)
  {
    var p, q, r := s.persister, ReceiveOut(s).persister, s.out[0];
    if p.throttle.Throttle? {
      var above := ShufflerSeq(p.shuffler) + ThrottleSeq(p.throttle);
      assert ShufflerSeq(p.shuffler) + ThrottleSeq(q.throttle) == above + [r];
      Snoc(StoringSeq(p, w), ChannelSeq(p, w), above, r);
    } else if p.shuffler.NoShuffler? {
      assert Inside(p, w) == [] && Inside(q, w) == [r];
    } else {
      Snoc(StoringSeq(p, w), ChannelSeq(p, w), [], r);
    }
  }

  lemma ReceiveOutFlow(sys: System, s: State, m: Metric)
    requires SoloInv(s.persister) && s.out != [] && OutReaderReady(s.persister)
    requires FlightInv(sys, s, m) && StoredInv(sys, s, m)
    ensures FlightInv(sys, ReceiveOut(s), m) && StoredInv(sys, ReceiveOut(s), m)
  {
    var w, t := WorkerOf(sys, s, m), ReceiveOut(s);
    ReceiveOutInside(s, w);
    ReceiveOutAlgebra(Inside(s.persister, w), s.out, Opt(s.pending), s.stored, s.drained, m);
  }

  lemma ReceiveOutAlgebra(inside: seq<Ref>, out: seq<Ref>, pending: seq<Ref>, stored: seq<Ref>,
                          drained: seq<Ref>, m: Metric)
    requires out != []
    requires Of(drained, m) == Of(stored, m) + Of(inside, m)
    ensures inside + [out[0]] + (out[1..] + pending) == inside + (out + pending)
    ensures Of(drained + [out[0]], m) == Of(stored, m) + Of(inside + [out[0]], m)
  {
    OfConcat(inside, [out[0]], m);
    OfConcat(drained, [out[0]], m);
  }

  lemma ReceiveOutKeeps(sys: System, s: State)
    requires Inv(sys, s) && s.out != [] && OutReaderReady(s.persister)
    ensures Inv(sys, ReceiveOut(s))
  {
    var p := s.persister;
    if !p.throttle.Throttle? { GiveReaderKeeps(sys, p, s.out[0]); }
    forall m
      ensures FlightInv(sys, ReceiveOut(s), m) && StoredInv(sys, ReceiveOut(s), m)
    {
      assert MetricInv(sys, s, m);
      ReceiveOutFlow(sys, s, m);
    }
    Flow(sys, s, ReceiveOut(s));
  }

  lemma ThrottleMoveKeeps(sys: System, s: State, th: Throttle)
    requires Inv(sys, s) && s.persister.throttle.Throttle? && th.Throttle? && !s.persister.throttle.pc.Exited?
    requires ThrottleSeq(th) == ThrottleSeq(s.persister.throttle)
    requires th.pc.Exited? ==> s.persister.exit
    requires th.pc.Inner? || th.pc.Holding? ==> th.pc.left >= 1
    ensures Inv(sys, s.(persister := s.persister.(throttle := th)))
  {
    Rearrange(sys, s, s.persister.(throttle := th));
  }

  lemma ReceiveThrottledInside(p: Persister, w: nat)
    requires SoloInv(p) && p.throttle.Throttle? && p.throttle.out != [] && ReaderIdle(p)
    requires p.shuffler.NoShuffler? ==> w == 0
    ensures var th := p.throttle;
            var q := GiveReader(p.(throttle := th.(out := th.out[1..])), th.out[0]);
            Inside(q, w) == Inside(p, w) && ConfirmingSeq(q, w) == ConfirmingSeq(p, w)
  {
    var th := p.throttle;
    var q := p.(throttle := th.(out := th.out[1..]));
    ReaderInside(q, th.out[0], w);
    assert [th.out[0]] + ThrottleSeq(q.throttle) == [] + ThrottleSeq(th);
  }

  lemma ReceiveThrottledKeeps(sys: System, s: State)
    requires Inv(sys, s) && s.persister.throttle.Throttle? && s.persister.throttle.out != [] && ReaderIdle(s.persister)
    ensures Inv(sys, ReceiveThrottled(s))
  {
    var th := s.persister.throttle;
    GiveReaderKeeps(sys, s.persister.(throttle := th.(out := th.out[1..])), th.out[0]);
    forall m { ReceiveThrottledInside(s.persister, WorkerOf(sys, s, m)); }
    Rearrange(sys, s, ReceiveThrottled(s).persister);
  }

  lemma ReaderExitKeeps(sys: System, s: State)
    requires Inv(sys, s) && ReaderMayExit(s.persister)
    ensures Inv(sys, ReaderExit(s))
  {
    var p, q := s.persister, ReaderExit(s).persister;
    assert forall i :: 0 <= i < |p.workers| ==> q.workers[i].ch == p.workers[i].ch;
    if p.throttle.Throttle? { assert p.throttle == Throttle(Exited, []); }
    assert PersisterInv(sys, q);
    Rearrange(sys, s, q);
  }

  lemma ShuffleKeepsStructure(sys: System, s: State)
    requires PersisterInv(sys, s.persister) && s.persister.shuffler.Routing? && s.persister.workers != []
    ensures PersisterInv(sys, Shuffle(sys, s).persister)
  {
    var p, q := s.persister, Shuffle(sys, s).persister;
    assert forall j :: 0 <= j < |p.workers| ==> q.workers[j].job == p.workers[j].job;
  }

  lemma {:induction false} OfSkip(a: seq<Ref>, r: Ref, b: seq<Ref>, m: Metric)
    requires r.metric != m
    ensures Of(a + ([r] + b), m) == Of(a + b, m)
  {
    OfConcat(a, [r] + b, m);
    OfConcat([r], b, m);
    OfConcat(a, b, m);
    OfMember([r], m);
  }

  lemma ShuffleInside(sys: System, s: State, m: Metric)
    requires s.persister.shuffler.Routing? && s.persister.workers != []
    ensures var p, q, w := s.persister, Shuffle(sys, s).persister, WorkerOf(sys, s, m);
            ConfirmingSeq(q, w) == ConfirmingSeq(p, w) && Of(Inside(q, w), m) == Of(Inside(p, w), m)
  {
    var p, q, w := s.persister, Shuffle(sys, s).persister, WorkerOf(sys, s, m);
    var r := p.shuffler.ref;
    if w == Route(sys, |p.workers|, r.metric) {
      assert ChannelSeq(q, w) == ChannelSeq(p, w) + [r];
      assert Inside(q, w) == Inside(p, w);
    } else {
      OfSkip(StoringSeq(p, w) + ChannelSeq(p, w), r, ThrottleSeq(p.throttle), m);
      assert Inside(p, w) == StoringSeq(p, w) + ChannelSeq(p, w) + ([r] + ThrottleSeq(p.throttle));
      assert Inside(q, w) == StoringSeq(p, w) + ChannelSeq(p, w) + ThrottleSeq(p.throttle);
    }
  }

  lemma ShuffleKeeps(sys: System, s: State)
    requires Inv(sys, s) && s.persister.shuffler.Routing? && s.persister.workers != []
    ensures Inv(sys, Shuffle(sys, s))
  {
    ShuffleKeepsStructure(sys, s);
    forall m { ShuffleInside(sys, s, m); }
    Rearrange(sys, s, Shuffle(sys, s).persister);
  }

  lemma WorkerReceiveStructure(sys: System, s: State, i: nat)
    requires PersisterInv(sys, s.persister)
    requires i < |s.persister.workers| && s.persister.workers[i].ch != [] && s.persister.workers[i].job.Idle?
    ensures PersisterInv(sys, WorkerReceive(s, i).persister)
  {
    var p, q := s.persister, WorkerReceive(s, i).persister;
    assert forall j :: 0 <= j < |p.workers| && j != i ==> q.workers[j] == p.workers[j];
    assert p.workers[i].ch[0] in p.workers[i].ch;
  }

  lemma WorkerReceiveKeeps(sys: System, s: State, i: nat)
    requires Inv(sys, s) && i < |s.persister.workers|
    requires s.persister.workers[i].ch != [] && s.persister.workers[i].job.Idle?
    ensures Inv(sys, WorkerReceive(s, i))
  {
    var p, q := s.persister, WorkerReceive(s, i).persister;
    WorkerReceiveStructure(sys, s, i);
    forall m
      ensures var w := WorkerOf(sys, s, m);
              && ConfirmingSeq(q, w) == ConfirmingSeq(p, w)
              && Inside(q, w) == Inside(p, w)
    {
      var w := WorkerOf(sys, s, m);
      if w == i {
        assert StoringSeq(q, w) + ChannelSeq(q, w) == ChannelSeq(p, w);
      }
    }
    Rearrange(sys, s, q);
  }

  lemma WorkerExitKeeps(sys: System, s: State, i: nat)
    requires Inv(sys, s) && i < |s.persister.workers| && s.persister.workers[i].job.Idle?
    requires s.persister.workers[i].ch == [] && s.persister.shuffler.Closed?
    ensures Inv(sys, WorkerExit(s, i))
  {
    var p, q := s.persister, WorkerExit(s, i).persister;
    assert forall j :: 0 <= j < |p.workers| && j != i ==> q.workers[j] == p.workers[j];
    assert PersisterInv(sys, q);
    Rearrange(sys, s, q);
  }

  lemma SetJobKeepsStructure(sys: System, p: Persister, i: nat, job: Job)
    requires PersisterInv(sys, p) && i < |p.workers|
    requires p.workers[i].job.Storing? || p.workers[i].job.Confirming?
    requires job.Idle? || job == Confirming(p.workers[i].job.ref)
    ensures PersisterInv(sys, SetJob(p, i, job))
  {
    var q := SetJob(p, i, job);
    assert p.workers[i].job.ref in StoringSeq(p, i) + ConfirmingSeq(p, i);
    assert forall j :: 0 <= j < |p.workers| && j != i ==> q.workers[j] == p.workers[j];
  }

  /** A change to worker `i`'s job does not show to a metric routed elsewhere. */
  lemma OtherWorker(sys: System, s: State, i: nat, job: Job, m: Metric)
    requires RoutingInv(sys, s.persister) && i < |s.persister.workers| && i != WorkerOf(sys, s, m)
    ensures var p, q, w := s.persister, SetJob(s.persister, i, job), WorkerOf(sys, s, m);
            Inside(q, w) == Inside(p, w) && ConfirmingSeq(q, w) == ConfirmingSeq(p, w)
    ensures var was := s.persister.workers[i].job; was.Storing? || was.Confirming? ==> was.ref.metric != m
  {
    var p := s.persister;
    var was := p.workers[i].job;
    assert was.Storing? || was.Confirming? ==> was.ref in StoringSeq(p, i) + ConfirmingSeq(p, i);
  }

  lemma StoreFlow(sys: System, s: State, i: nat, m: Metric)
    requires i < |s.persister.workers| && s.persister.workers[i].job.Storing?
    requires RoutingInv(sys, s.persister)
    requires FlightInv(sys, s, m) && StoredInv(sys, s, m)
    ensures FlightInv(sys, Store(s, i), m) && StoredInv(sys, Store(s, i), m)
  {
    var p, q, r := s.persister, Store(s, i).persister, s.persister.workers[i].job.ref;
    OfConcat(s.stored, [r], m);
    if i == WorkerOf(sys, s, m) {
      StoreInside(p, i, s.out + Opt(s.pending), m);
      Regroup(Of(s.confirmChan, m), Of([r], m), Of(Inside(q, i) + (s.out + Opt(s.pending)), m));
      Regroup(Of(s.confirmed, m) + Of(s.confirmChan, m), Of([r], m), Of(Inside(q, i), m));
    } else {
      OtherWorker(sys, s, i, Confirming(r), m);
      OfMember([r], m);
    }
  }

  lemma Regroup(a: seq<Ref>, b: seq<Ref>, c: seq<Ref>)
    ensures a + [] + (b + c) == a + b + c
    ensures a + [] + b == a + b
    ensures a + b + c == a + (b + c)
    ensures a + b + [] == a + b
    ensures (a + b) + [] + c == a + b + c
    ensures a + (b + c) + [] == a + b + c
  {
  }

  lemma StoreInside(p: Persister, i: nat, rest: seq<Ref>, m: Metric)
    requires i < |p.workers| && p.workers[i].job.Storing?
    ensures var r := p.workers[i].job.ref;
            var q := SetJob(p, i, Confirming(r));
            && ConfirmingSeq(p, i) == [] && ConfirmingSeq(q, i) == [r]
            && Of(Inside(p, i), m) == Of([r], m) + Of(Inside(q, i), m)
            && Of(Inside(p, i) + rest, m) == Of([r], m) + Of(Inside(q, i) + rest, m)
  {
    var r := p.workers[i].job.ref;
    var q := SetJob(p, i, Confirming(r));
    assert Inside(p, i) == [r] + Inside(q, i);
    assert Inside(p, i) + rest == [r] + (Inside(q, i) + rest);
    OfConcat([r], Inside(q, i), m);
    OfConcat([r], Inside(q, i) + rest, m);
  }

  lemma StoreKeeps(sys: System, s: State, i: nat)
    requires Inv(sys, s) && i < |s.persister.workers| && s.persister.workers[i].job.Storing?
    ensures Inv(sys, Store(s, i))
  {
    SetJobKeepsStructure(sys, s.persister, i, Confirming(s.persister.workers[i].job.ref));
    forall m
      ensures FlightInv(sys, Store(s, i), m) && StoredInv(sys, Store(s, i), m)
    {
      assert MetricInv(sys, s, m);
      StoreFlow(sys, s, i, m);
    }
    Flow(sys, s, Store(s, i));
  }

  lemma SendConfirmOwn(sys: System, s: State, i: nat, m: Metric)
    requires i < |s.persister.workers| && s.persister.workers[i].job.Confirming? && i == WorkerOf(sys, s, m)
    requires FlightInv(sys, s, m) && StoredInv(sys, s, m)
    ensures FlightInv(sys, SendConfirm(s, i), m) && StoredInv(sys, SendConfirm(s, i), m)
  {
    var p, q, r := s.persister, SendConfirm(s, i).persister, s.persister.workers[i].job.ref;
    OfConcat(s.confirmChan, [r], m);
    assert Inside(q, i) == Inside(p, i);
    assert ConfirmingSeq(p, i) == [r] && ConfirmingSeq(q, i) == [];
    Regroup(Of(s.confirmChan, m), Of([r], m), Of(Inside(p, i) + (s.out + Opt(s.pending)), m));
    Regroup(Of(s.confirmed, m), Of(s.confirmChan, m), Of([r], m));
  }

  lemma SendConfirmOther(sys: System, s: State, i: nat, m: Metric)
    requires i < |s.persister.workers| && s.persister.workers[i].job.Confirming? && i != WorkerOf(sys, s, m)
    requires RoutingInv(sys, s.persister) && FlightInv(sys, s, m) && StoredInv(sys, s, m)
    ensures FlightInv(sys, SendConfirm(s, i), m) && StoredInv(sys, SendConfirm(s, i), m)
  {
    var r := s.persister.workers[i].job.ref;
    OtherWorker(sys, s, i, Idle, m);
    OfConcat(s.confirmChan, [r], m);
    OfMember([r], m);
    assert Of(s.confirmChan + [r], m) == Of(s.confirmChan, m);
  }

  lemma SendConfirmFlow(sys: System, s: State, i: nat, m: Metric)
    requires i < |s.persister.workers| && s.persister.workers[i].job.Confirming?
    requires RoutingInv(sys, s.persister)
    requires FlightInv(sys, s, m) && StoredInv(sys, s, m)
    ensures FlightInv(sys, SendConfirm(s, i), m) && StoredInv(sys, SendConfirm(s, i), m)
  {
    if i == WorkerOf(sys, s, m) {
      SendConfirmOwn(sys, s, i, m);
    } else {
      SendConfirmOther(sys, s, i, m);
    }
  }

  lemma SendConfirmKeeps(sys: System, s: State, i: nat)
    requires Inv(sys, s) && i < |s.persister.workers| && s.persister.workers[i].job.Confirming?
    ensures Inv(sys, SendConfirm(s, i))
  {
    SetJobKeepsStructure(sys, s.persister, i, Idle);
    forall m
      ensures FlightInv(sys, SendConfirm(s, i), m) && StoredInv(sys, SendConfirm(s, i), m)
    {
      assert MetricInv(sys, s, m);
      SendConfirmFlow(sys, s, i, m);
    }
    Flow(sys, s, SendConfirm(s, i));
  }

  /** A stopped persister holds nothing, so a new one may route differently. */
  lemma StoppedIsEmpty(sys: System, p: Persister, w: nat)
    requires PersisterInv(sys, p) && StopCompleted(p)
    ensures Inside(p, w) == [] && ConfirmingSeq(p, w) == []
  {
  }

  lemma StartStructure(sys: System, s: State, c: Config)
    requires c.chunk >= 1
    ensures PersisterInv(sys, Start(s, c).persister)
    ensures forall w: nat :: Inside(Start(s, c).persister, w) == [] && ConfirmingSeq(Start(s, c).persister, w) == []
  {
  }

  lemma StartKeeps(sys: System, s: State, c: Config)
    requires Inv(sys, s) && StopCompleted(s.persister) && c.chunk >= 1
    ensures Inv(sys, Start(s, c))
  {
    var t := Start(s, c);
    var q := t.persister;
    StartStructure(sys, s, c);
    forall m
      ensures FlightInv(sys, t, m) && StoredInv(sys, t, m)
    {
      assert MetricInv(sys, s, m);
      StoppedIsEmpty(sys, s.persister, WorkerOf(sys, s, m));
    }
    Flow(sys, s, t);
  }

  lemma RequestStopKeeps(sys: System, s: State)
    requires Inv(sys, s)
    ensures Inv(sys, RequestStop(s))
  {
    Rearrange(sys, s, s.persister.(exit := true));
  }
}
