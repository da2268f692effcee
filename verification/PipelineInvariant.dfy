/**
  The inductive invariant of the pipeline. For each metric it says where, between the cache and
  the tracker's confirmed batches, every accepted point is, and in which order.
 */
module PipelineInvariant {
  import opened Points
  import opened PipelineModel
  import opened Sequences

  // ---- The batches of a worker's share of the pipeline, oldest first ----

  function ThrottleSeq(t: Throttle): seq<Ref> {
    if t.Unthrottled? then []
    else t.out + (if t.pc.Holding? then [t.pc.ref] else [])
  }

  function ShufflerSeq(sh: Shuffler): seq<Ref> {
    if sh.Routing? then [sh.ref] else []
  }

  function StoringSeq(p: Persister, i: nat): seq<Ref> {
    if i < |p.workers| && p.workers[i].job.Storing? then [p.workers[i].job.ref] else []
  }

  function ConfirmingSeq(p: Persister, i: nat): seq<Ref> {
    if i < |p.workers| && p.workers[i].job.Confirming? then [p.workers[i].job.ref] else []
  }

  function ChannelSeq(p: Persister, i: nat): seq<Ref> {
    if i < |p.workers| then p.workers[i].ch else []
  }

  /** Received from outputChan and not yet stored, as far as worker `i` can see. */
  function Inside(p: Persister, i: nat): seq<Ref> {
    StoringSeq(p, i) + (ChannelSeq(p, i) + (ShufflerSeq(p.shuffler) + ThrottleSeq(p.throttle)))
  }

  /** The worker that handles metric `m`. */
  function WorkerOf(sys: System, s: State, m: Metric): nat {
    Route(sys, |s.persister.workers|, m)
  }

  function HeldOf(s: State, m: Metric): seq<Ref> {
    Of(Opt(s.held), m)
  }

  function EntryOf(s: State, m: Metric): seq<Ref> {
    if m in s.data then [s.data[m]] else []
  }

  /** Every batch of `m` that ever left the input channel as a batch of its own, oldest first. */
  function Chain(s: State, m: Metric): seq<Ref> {
    Handed(s, m) + (HeldOf(s, m) + EntryOf(s, m))
  }

  // ---- Per-metric invariant ----

  /** The unconfirmed batches of `m`, in confirmation order, are exactly the tracker's list. */
  ghost predicate FlightInv(sys: System, s: State, m: Metric) {
    var w := WorkerOf(sys, s, m);
    InflightOf(s, m) ==
      Of(s.confirmChan, m) + Of(ConfirmingSeq(s.persister, w), m) +
      Of(Inside(s.persister, w) + (s.out + Opt(s.pending)), m)
  }

  ghost predicate StoredInv(sys: System, s: State, m: Metric) {
    var w := WorkerOf(sys, s, m);
    && Of(s.stored, m) == Of(s.confirmed, m) + Of(s.confirmChan, m) + Of(ConfirmingSeq(s.persister, w), m)
    && Of(s.drained, m) == Of(s.stored, m) + Of(Inside(s.persister, w), m)
  }

  ghost predicate PointsInv(s: State, m: Metric) {
    Pts(s.heap, Chain(s, m)) == Acc(s.accepted, m)
  }

  ghost predicate Increasing(rs: seq<Ref>) {
    forall i, j :: 0 <= i < j < |rs| ==> rs[i].id < rs[j].id
  }

  /** Batches of one metric are distinct objects, older than everything still in the input channel. */
  ghost predicate IdInv(s: State, m: Metric) {
    Older(Chain(s, m), m, s.nextId - |s.input|)
  }

  ghost predicate Older(rs: seq<Ref>, m: Metric, bound: int) {
    Increasing(rs) && forall i :: 0 <= i < |rs| ==> rs[i].metric == m && rs[i].id < bound
  }

  ghost predicate MetricInv(sys: System, s: State, m: Metric) {
    FlightInv(sys, s, m) && StoredInv(sys, s, m) && PointsInv(s, m) && IdInv(s, m)
  }

  // ---- Structure ----

  ghost predicate CacheInv(sys: System, s: State) {
    && |s.input| <= s.nextId
    && (forall i :: 0 <= i < |s.input| ==> s.input[i].id == s.nextId - |s.input| + i)
    && (forall m :: m in s.data ==> s.data[m].metric == m)
    && (forall r :: r in s.queue ==> r.metric in s.data && s.data[r.metric] == r)
    && (forall i, j :: 0 <= i < j < |s.queue| ==> s.queue[i] != s.queue[j])
    && (s.pc.Select? && s.held.None? ==> s.input != [] || s.data == map[])
  }

  ghost predicate TrackerInv(s: State) {
    forall m :: m in s.inflight ==> s.inflight[m] != []
  }

  ghost predicate RoutingInv(sys: System, p: Persister) {
    forall i :: 0 <= i < |p.workers| ==>
      && (forall r :: r in p.workers[i].ch ==> Route(sys, |p.workers|, r.metric) == i)
      && (forall r :: r in StoringSeq(p, i) + ConfirmingSeq(p, i) ==> Route(sys, |p.workers|, r.metric) == i)
  }

  ghost predicate PersisterInv(sys: System, p: Persister) {
    && p.chunk >= 1
    && (p.workers == [] ==> p.exit && p.throttle.Unthrottled? && p.shuffler.NoShuffler?)
    && SoloInv(p)
    && (!p.shuffler.NoShuffler? ==> |p.workers| >= 2)
    && (!p.shuffler.NoShuffler? && !p.shuffler.Closed? ==>
          forall i :: 0 <= i < |p.workers| ==> !p.workers[i].job.Done?)
    && (forall i :: 0 <= i < |p.workers| && p.workers[i].job.Done? ==> p.workers[i].ch == [])
    && (p.throttle.Throttle? && p.throttle.pc.Exited? ==> p.exit)
    && (p.throttle.Throttle? && (p.throttle.pc.Inner? || p.throttle.pc.Holding?) ==> p.throttle.pc.left >= 1)
    && (ReaderDone(p) ==> p.exit && (p.throttle.Throttle? ==> p.throttle == Throttle(Exited, [])))
    && RoutingInv(sys, p)
  }

  /** Without a shuffler there is at most one worker, and its own channel stays empty. */
  predicate SoloInv(p: Persister) {
    p.shuffler.NoShuffler? ==> |p.workers| <= 1 && (p.workers != [] ==> p.workers[0].ch == [])
  }

  predicate ReaderDone(p: Persister) {
    if p.shuffler.NoShuffler? then p.workers != [] && p.workers[0].job.Done? else p.shuffler.Closed?
  }

  // ---- Queries ----

  /**
    What a query on its way to the tracker already covers: the first `upto` batches ever handed to
    the tracker, the cached part of the reply, and the skipped cache entry are together exactly the
    points accepted when the query was taken. The skipped entry is the batch after the held one.
   */
  ghost predicate Covered(s: State, t: Taken) {
    var m := t.query.metric;
    && t.accLen <= |s.accepted|
    && t.upto <= |Handed(s, m)|
    && Pts(s.heap, Handed(s, m)[..t.upto]) + CachePts(s.heap, t.cacheData) + t.skipped
         == Acc(s.accepted[..t.accLen], m)
    && (t.cacheData.Alias? ==>
          t.upto < |Handed(s, m) + HeldOf(s, m)| && (Handed(s, m) + HeldOf(s, m))[t.upto] == t.cacheData.ref)
    && (!t.cacheData.Alias? ==> t.skipped == [])
    && (t.skipped != [] ==> t.upto + 1 < |Chain(s, m)| && t.skipped <= Data(s.heap, Chain(s, m)[t.upto + 1]))
  }

  /** Queries not answered yet, oldest first. */
  function Unanswered(s: State): seq<Taken> {
    s.taken + (if s.pc.Forward? then [s.pc.taken] else [])
  }

  ghost predicate QueryInv(s: State) {
    && (forall i :: 0 <= i < |Unanswered(s)| ==> Covered(s, Unanswered(s)[i]))
    && |s.answered| + |Unanswered(s)| + |s.queries| == s.asked
    && (forall i :: 0 <= i < |s.answered| ==> s.answered[i].query.id == i)
    && (forall i :: 0 <= i < |Unanswered(s)| ==> Unanswered(s)[i].query.id == |s.answered| + i)
    && (forall i :: 0 <= i < |s.queries| ==> s.queries[i].id == |s.answered| + |Unanswered(s)| + i)
  }

  ghost predicate Inv(sys: System, s: State) {
    && CacheInv(sys, s)
    && TrackerInv(s)
    && PersisterInv(sys, s.persister)
    && QueryInv(s)
    && forall m :: MetricInv(sys, s, m)
  }

  // ---- Lists ----

  lemma {:induction false} OfConcat(a: seq<Ref>, b: seq<Ref>, m: Metric)
    ensures Of(a + b, m) == Of(a, m) + Of(b, m)
  {
    if a == [] {
      assert a + b == b;
    } else {
      assert (a + b)[0] == a[0] && (a + b)[1..] == a[1..] + b;
      OfConcat(a[1..], b, m);
      Associate(if a[0].metric == m then [a[0]] else [], Of(a[1..], m), Of(b, m));
    }
  }

  lemma {:induction false} OfMember(rs: seq<Ref>, m: Metric)
    ensures forall r :: r in Of(rs, m) <==> r in rs && r.metric == m
    ensures (forall r :: r in rs ==> r.metric == m) ==> Of(rs, m) == rs
    ensures (forall r :: r in rs ==> r.metric != m) ==> Of(rs, m) == []
  {
    if rs != [] {
      OfMember(rs[1..], m);
      assert forall r :: r in rs <==> r == rs[0] || r in rs[1..];
    }
  }

  lemma {:induction false} PtsConcat(h: Heap, a: seq<Ref>, b: seq<Ref>)
    ensures Pts(h, a + b) == Pts(h, a) + Pts(h, b)
  {
    if a == [] {
      assert a + b == b;
    } else {
      assert (a + b)[0] == a[0] && (a + b)[1..] == a[1..] + b;
      PtsConcat(h, a[1..], b);
      Associate(Data(h, a[0]), Pts(h, a[1..]), Pts(h, b));
    }
  }

  /** Pts depends only on the heap cells of its batches. */
  lemma {:induction false} PtsFrame(h: Heap, h': Heap, rs: seq<Ref>)
    requires forall r :: r in rs ==> Data(h, r) == Data(h', r)
    ensures Pts(h, rs) == Pts(h', rs)
  {
    if rs != [] {
      PtsFrame(h, h', rs[1..]);
    }
  }

  lemma {:induction false} AccAppend(log: seq<Message>, x: Message, m: Metric)
    ensures Acc(log + [x], m) == Acc(log, m) + (if x.metric == m then x.points else [])
  {
    var last := if x.metric == m then x.points else [];
    if log == [] {
      assert log + [x] == [x] && [x][1..] == [];
      assert Acc([x], m) == last + Acc([], m);
    } else {
      assert (log + [x])[0] == log[0] && (log + [x])[1..] == log[1..] + [x];
      AccAppend(log[1..], x, m);
      Associate(if log[0].metric == m then log[0].points else [], Acc(log[1..], m), last);
    }
  }
}
