/**
  The pipeline of goroutines between the receivers and the disk: the cache worker, the tracker
  of unconfirmed batches, the optional throttle, the optional shuffler and the persister workers.
  Every step is one branch of one select loop, so a run is any interleaving of the goroutines.

  A batch is the identity of a *points.Points object (`Ref`); its points live in `heap`, because
  Cache.Add grows a batch in place while the write-out queue and the cache map both refer to it.
  Fields marked "history" exist only to state the properties; no step reads them.
 */
module PipelineModel {
  import opened Points
  import Sequences

  // ---- Batches ----

  /** A *points.Points: an identity and the immutable Metric field. */
  datatype Ref = Ref(id: nat, metric: Metric)

  type Heap = map<Ref, seq<Point>>

  function Data(h: Heap, r: Ref): seq<Point> {
    if r in h then h[r] else []
  }

  /** All points of a list of batches, in order. */
  function Pts(h: Heap, rs: seq<Ref>): seq<Point> {
    if rs == [] then [] else Data(h, rs[0]) + Pts(h, rs[1..])
  }

  /** The batches of one metric, in order. */
  function Of(rs: seq<Ref>, m: Metric): seq<Ref> {
    if rs == [] then []
    else (if rs[0].metric == m then [rs[0]] else []) + Of(rs[1..], m)
  }

  function Opt(o: Option<Ref>): seq<Ref> {
    match o case None => [] case Some(r) => [r]
  }

  /** A message the cache worker accepted: its metric and the points it carried. */
  datatype Message = Message(metric: Metric, points: seq<Point>)

  /** The accepted points of one metric, in arrival order. */
  function Acc(log: seq<Message>, m: Metric): seq<Point> {
    if log == [] then []
    else (if log[0].metric == m then log[0].points else []) + Acc(log[1..], m)
  }

  // ---- Queries ----

  datatype Query = Query(id: nat, metric: Metric)

  /** Query.CacheData: nothing, the held batch itself, or a copy of a cache entry's points. */
  datatype CacheData = NoData | Alias(ref: Ref) | Copied(points: seq<Point>)

  function CachePts(h: Heap, d: CacheData): seq<Point> {
    match d
    case NoData => []
    case Alias(r) => Data(h, r)
    case Copied(ps) => ps
  }

  /**
    A query on its way to the tracker. `accLen`, `upto` and `skipped` are history, fixed when the
    cache worker took the query: how many messages it had accepted, how many batches of the metric
    it had handed to the tracker, and the points of a cache entry that the reply leaves out.
   */
  datatype Taken = Taken(query: Query, cacheData: CacheData, accLen: nat, upto: nat, skipped: seq<Point>)

  datatype Reply = Reply(query: Query, cacheData: CacheData, inFlight: seq<Ref>)

  // ---- Persister ----

  /** What Whisper.Start reads: the worker count, and the throttle's points per tick if throttled. */
  datatype Config = Config(workers: int, throttled: bool, chunk: nat)

  datatype ThrottlePc = Tick | Inner(left: nat) | Holding(ref: Ref, left: nat) | Exited

  datatype Throttle = Unthrottled | Throttle(pc: ThrottlePc, out: seq<Ref>)

  datatype Shuffler = NoShuffler | Waiting | Routing(ref: Ref) | Closed

  datatype Job = Idle | Storing(ref: Ref) | Confirming(ref: Ref) | Done

  datatype Worker = Worker(ch: seq<Ref>, job: Job)

  datatype Persister = Persister(exit: bool, chunk: nat, throttle: Throttle, shuffler: Shuffler, workers: seq<Worker>)

  // ---- The whole state ----

  datatype CachePc = Head | Select | Forward(taken: Taken)

  datatype State = State(
    heap: Heap,
    nextId: nat,
    input: seq<Ref>,                    // Cache.inputChan
    data: map<Metric, Ref>,             // Cache.data
    queue: seq<Ref>,                    // Cache.queue, next batch last
    held: Option<Ref>,                  // `values` in Cache.worker
    pc: CachePc,
    queries: seq<Query>,                // Cache.queryChan
    inflight: map<Metric, seq<Ref>>,    // notConfirmed.data
    pending: Option<Ref>,               // `p` in notConfirmed.worker
    taken: seq<Taken>,                  // notConfirmed.queryChan
    confirmChan: seq<Ref>,
    out: seq<Ref>,                      // Cache.outputChan
    persister: Persister,
    accepted: seq<Message>,             // history: messages added to the cache
    asked: nat,                         // history: number of queries asked
    answered: seq<Reply>,               // history: queries answered
    confirmed: seq<Ref>,                // history: batches the tracker has let go
    drained: seq<Ref>,                  // history: batches received from outputChan
    stored: seq<Ref>)                   // history: batches handed to the store function

  /** Fixed parameters: crc32 of a metric name, and the configured channel capacities. */
  datatype System = System(crc: Metric -> nat, inputCap: nat, outCap: nat)

  const QUERY_CAP: nat := 16
  const CONFIRM_CAP: nat := 2048
  const WORKER_CAP: nat := 32

  /** A persister that was never started, or whose Stop has completed. */
  const NO_PERSISTER := Persister(true, 1, Unthrottled, NoShuffler, [])

  ghost predicate Init(s: State) {
    s == State(map[], 0, [], map[], [], None, Head, [], map[], None, [], [], [], NO_PERSISTER,
               [], 0, [], [], [], [])
  }

  // ---- Cache.worker ----

  /** A message becomes visible in the input channel. */
  function Send(s: State, m: Metric, ps: seq<Point>): State {
    var r := Ref(s.nextId, m);
    s.(heap := s.heap[r := ps], nextId := s.nextId + 1, input := s.input + [r])
  }

  /** `order` is what updateQueue may leave in the queue: every entry of the map once, in any order. */
  ghost predicate IsRebuild(order: seq<Ref>, data: map<Metric, Ref>) {
    && (forall i, j :: 0 <= i < j < |order| ==> order[i] != order[j])
    && (forall r :: r in order ==> r.metric in data && data[r.metric] == r)
    && (forall m :: m in data ==> data[m] in order)
  }

  /** Cache.Pop with a queue that is not empty: getNext, then Remove. */
  function PopFrom(s: State, queue: seq<Ref>): State
    requires queue != []
  {
    var r := queue[|queue| - 1];
    s.(queue := queue[..|queue| - 1], data := s.data - {r.metric}, held := Some(r))
  }

  function ForceReceive(sys: System, s: State): bool {
    |s.input| > sys.inputCap / 10
  }

  /** The queue that a Pop takes from: the current one, or a new one when that is empty. */
  function PopQueue(s: State, order: seq<Ref>): seq<Ref> {
    if s.queue != [] then s.queue else order
  }

  predicate Pops(sys: System, s: State, order: seq<Ref>) {
    s.held.None? && !ForceReceive(sys, s) && PopQueue(s, order) != []
  }

  /** The loop head: pop a batch unless one is held or the input channel is filling up. */
  function CacheHead(sys: System, s: State, order: seq<Ref>): State {
    if Pops(sys, s, order) then PopFrom(s, PopQueue(s, order)).(pc := Select) else s.(pc := Select)
  }

  /** Cache.Add. */
  function Add(s: State, r: Ref): State {
    var log := s.accepted + [Message(r.metric, Data(s.heap, r))];
    if r.metric in s.data then
      var e := s.data[r.metric];
      s.(heap := s.heap[e := Data(s.heap, e) + Data(s.heap, r)], accepted := log)
    else
      s.(data := s.data[r.metric := r], accepted := log)
  }

  /** The receive branch; `accept` stands for the test of the size limit. */
  function Receive(s: State, accept: bool): State
    requires s.input != []
  {
    var t := s.(input := s.input[1..], pc := Head);
    if accept then Add(t, s.input[0]) else t
  }

  function Handed(s: State, m: Metric): seq<Ref> {
    Of(s.confirmed, m) + InflightOf(s, m)
  }

  function InflightOf(s: State, m: Metric): seq<Ref> {
    if m in s.inflight then s.inflight[m] else []
  }

  /** The query branch, up to the blocking send to the tracker. */
  function TakeQuery(s: State): State
    requires s.queries != []
  {
    var q := s.queries[0];
    var m := q.metric;
    var entry := if m in s.data then Data(s.heap, s.data[m]) else [];
    var heldHere := s.held.Some? && s.held.value.metric == m;
    var cacheData :=
      if heldHere then Alias(s.held.value)
      else if m in s.data then Copied(entry)
      else NoData;
    s.(queries := s.queries[1..],
       pc := Forward(Taken(q, cacheData, |s.accepted|, |Handed(s, m)|, if heldHere then entry else [])))
  }

  function ForwardQuery(s: State): State
    requires s.pc.Forward?
  {
    s.(taken := s.taken + [s.pc.taken], pc := Head)
  }

  // ---- notConfirmed.worker ----

  /** The unbuffered hand-off: the cache worker's send meets the tracker's receive and add. */
  function HandOff(s: State): State
    requires s.held.Some?
  {
    var r := s.held.value;
    s.(held := None, pc := Head, pending := Some(r),
       inflight := s.inflight[r.metric := InflightOf(s, r.metric) + [r]])
  }

  function Emit(s: State): State
    requires s.pending.Some?
  {
    s.(out := s.out + [s.pending.value], pending := None)
  }

  function Confirm(s: State): State
    requires s.confirmChan != []
  {
    var r := s.confirmChan[0];
    var m := r.metric;
    var rest := Sequences.RemoveFirst(InflightOf(s, m), r);
    s.(confirmChan := s.confirmChan[1..],
       confirmed := if r in InflightOf(s, m) then s.confirmed + [r] else s.confirmed,
       inflight := if rest == [] then s.inflight - {m} else s.inflight[m := rest])
  }

  function ReplyTo(s: State, t: Taken): Reply {
    Reply(t.query, t.cacheData, InflightOf(s, t.query.metric))
  }

  function Answer(s: State): State
    requires s.taken != []
  {
    s.(taken := s.taken[1..], answered := s.answered + [ReplyTo(s, s.taken[0])])
  }

  // ---- Whisper ----

  function Start(s: State, c: Config): State {
    s.(persister := Persister(false, c.chunk,
         if c.throttled then Throttle(Tick, []) else Unthrottled,
         if c.workers <= 1 then NoShuffler else Waiting,
         seq(if c.workers <= 1 then 1 else c.workers, i => Worker([], Idle))))
  }

  /** The goroutines that Stop waits for have returned; the throttle is not one of them. */
  predicate StopCompleted(p: Persister) {
    && p.exit
    && (p.shuffler.NoShuffler? || p.shuffler.Closed?)
    && (forall i :: 0 <= i < |p.workers| ==> p.workers[i].job.Done?)
  }

  function RequestStop(s: State): State {
    s.(persister := s.persister.(exit := true))
  }

  /** The reader of the throttle's output, or of outputChan when there is no throttle. */
  predicate ReaderIdle(p: Persister) {
    if p.shuffler.NoShuffler? then |p.workers| == 1 && p.workers[0].job.Idle? else p.shuffler.Waiting?
  }

  function SetJob(p: Persister, i: nat, job: Job): Persister
    requires i < |p.workers|
  {
    p.(workers := p.workers[i := p.workers[i].(job := job)])
  }

  function GiveReader(p: Persister, r: Ref): Persister
    requires ReaderIdle(p)
  {
    if p.shuffler.NoShuffler? then SetJob(p, 0, Storing(r)) else p.(shuffler := Routing(r))
  }

  /** Whoever reads outputChan is at its receive. */
  predicate OutReaderReady(p: Persister) {
    if p.throttle.Throttle? then p.throttle.pc.Inner? else ReaderIdle(p)
  }

  function ReceiveOut(s: State): State
    requires s.out != [] && OutReaderReady(s.persister)
  {
    var r := s.out[0];
    var p := s.persister;
    s.(out := s.out[1..], drained := s.drained + [r],
       persister := if p.throttle.Throttle?
                    then p.(throttle := p.throttle.(pc := Holding(r, p.throttle.pc.left)))
                    else GiveReader(p, r))
  }

  function ThrottleTick(s: State): State
    requires s.persister.throttle.Throttle?
  {
    s.(persister := s.persister.(throttle := s.persister.throttle.(pc := Inner(s.persister.chunk))))
  }

  function ThrottleSend(s: State): State
    requires s.persister.throttle.Throttle? && s.persister.throttle.pc.Holding?
  {
    var t := s.persister.throttle;
    s.(persister := s.persister.(throttle :=
         Throttle(if t.pc.left <= 1 then Tick else Inner(t.pc.left - 1), t.out + [t.pc.ref])))
  }

  /** The throttle sees the exit channel and closes its output. */
  function ThrottleExit(s: State): State
    requires s.persister.throttle.Throttle?
  {
    s.(persister := s.persister.(throttle := s.persister.throttle.(pc := Exited)))
  }

  function ReceiveThrottled(s: State): State
    requires s.persister.throttle.Throttle? && s.persister.throttle.out != [] && ReaderIdle(s.persister)
  {
    var t := s.persister.throttle;
    s.(persister := GiveReader(s.persister.(throttle := t.(out := t.out[1..])), t.out[0]))
  }

  /** The reader leaves its loop: exit seen when unthrottled, input closed and empty when throttled. */
  predicate ReaderMayExit(p: Persister) {
    && ReaderIdle(p)
    && (if p.throttle.Throttle? then p.throttle.pc.Exited? && p.throttle.out == [] else p.exit)
  }

  function ReaderExit(s: State): State
    requires ReaderMayExit(s.persister)
  {
    var p := s.persister;
    s.(persister := if p.shuffler.NoShuffler? then SetJob(p, 0, Done) else p.(shuffler := Closed))
  }

  /** crc32 of the metric modulo the number of workers; a solo worker takes everything. */
  function Route(sys: System, n: nat, m: Metric): nat {
    if n <= 1 then 0 else sys.crc(m) % n
  }

  function Shuffle(sys: System, s: State): State
    requires s.persister.shuffler.Routing? && s.persister.workers != []
  {
    var p := s.persister;
    var r := p.shuffler.ref;
    var i := Route(sys, |p.workers|, r.metric);
    s.(persister := p.(shuffler := Waiting,
                       workers := p.workers[i := p.workers[i].(ch := p.workers[i].ch + [r])]))
  }

  function WorkerReceive(s: State, i: nat): State
    requires i < |s.persister.workers| && s.persister.workers[i].ch != []
  {
    var w := s.persister.workers[i];
    s.(persister := s.persister.(workers := s.persister.workers[i := Worker(w.ch[1..], Storing(w.ch[0]))]))
  }

  function WorkerExit(s: State, i: nat): State
    requires i < |s.persister.workers|
  {
    s.(persister := SetJob(s.persister, i, Done))
  }

  function Store(s: State, i: nat): State
    requires i < |s.persister.workers| && s.persister.workers[i].job.Storing?
  {
    var r := s.persister.workers[i].job.ref;
    s.(persister := SetJob(s.persister, i, Confirming(r)), stored := s.stored + [r])
  }

  function SendConfirm(s: State, i: nat): State
    requires i < |s.persister.workers| && s.persister.workers[i].job.Confirming?
  {
    s.(persister := SetJob(s.persister, i, Idle),
       confirmChan := s.confirmChan + [s.persister.workers[i].job.ref])
  }

  // ---- Steps ----

  datatype Action =
    // the outside world
    | ASend(metric: Metric, points: seq<Point>)
    | AAsk(metric: Metric)
    | AStart(config: Config)
    | AStop
    // a send on an unbuffered input channel meets the cache worker's receive
    | ASendDirect(metric: Metric, points: seq<Point>, accept: bool)
    // Cache.worker
    | AHead(order: seq<Ref>)
    | AReceive(accept: bool)
    | ATakeQuery
    | AForwardQuery
    | AHandOff
    // notConfirmed.worker
    | AEmit
    | AEmitDirect
    | AConfirm
    | AAnswer
    // persister goroutines
    | AReceiveOut
    | ATick
    | AThrottleSend
    | AThrottleSendDirect
    | AThrottleExit
    | AReceiveThrottled
    | AReaderExit
    | AShuffle
    | AWorkerReceive(i: nat)
    | AWorkerExit(i: nat)
    | AStore(i: nat)
    | ASendConfirm(i: nat)

  predicate External(a: Action) {
    a.ASend? || a.AAsk? || a.AStart? || a.AStop? || a.ASendDirect?
  }

  function Ask(s: State, m: Metric): State {
    s.(queries := s.queries + [Query(s.asked, m)], asked := s.asked + 1)
  }

  ghost predicate Enabled(sys: System, s: State, a: Action) {
    var p := s.persister;
    match a
    case ASend(m, ps) => |s.input| < sys.inputCap
    case AAsk(m) => |s.queries| < QUERY_CAP
    case AStart(c) => StopCompleted(p) && c.chunk >= 1
    case AStop => true
    case ASendDirect(m, ps, _) => sys.inputCap == 0 && s.input == [] && s.pc.Select?
    case AHead(order) => s.pc.Head? && IsRebuild(order, s.data)
    case AReceive(_) => s.pc.Select? && s.input != []
    case ATakeQuery => s.pc.Select? && s.queries != []
    case AForwardQuery => s.pc.Forward? && |s.taken| < QUERY_CAP
    case AHandOff => s.pc.Select? && s.held.Some? && s.pending.None?
    case AEmit => s.pending.Some? && |s.out| < sys.outCap
    case AEmitDirect => s.pending.Some? && sys.outCap == 0 && s.out == [] && OutReaderReady(p)
    case AConfirm => s.confirmChan != []
    case AAnswer => s.taken != []
    case AReceiveOut => s.out != [] && OutReaderReady(p)
    case ATick => p.throttle.Throttle? && p.throttle.pc.Tick?
    case AThrottleSend => p.throttle.Throttle? && p.throttle.pc.Holding? && |p.throttle.out| < sys.outCap
    case AThrottleSendDirect =>
      p.throttle.Throttle? && p.throttle.pc.Holding? && sys.outCap == 0 && p.throttle.out == [] && ReaderIdle(p)
    case AThrottleExit => p.exit && p.throttle.Throttle? && (p.throttle.pc.Tick? || p.throttle.pc.Inner?)
    case AReceiveThrottled => p.throttle.Throttle? && p.throttle.out != [] && ReaderIdle(p)
    case AReaderExit => ReaderMayExit(p)
    case AShuffle =>
      && p.shuffler.Routing? && p.workers != []
      && |p.workers[Route(sys, |p.workers|, p.shuffler.ref.metric)].ch| < WORKER_CAP
    case AWorkerReceive(i) =>
      i < |p.workers| && !p.shuffler.NoShuffler? && p.workers[i].job.Idle? && p.workers[i].ch != []
    case AWorkerExit(i) => i < |p.workers| && p.shuffler.Closed? && p.workers[i].job.Idle? && p.workers[i].ch == []
    case AStore(i) => i < |p.workers| && p.workers[i].job.Storing?
    case ASendConfirm(i) => i < |p.workers| && p.workers[i].job.Confirming? && |s.confirmChan| < CONFIRM_CAP
  }

  ghost function Apply(sys: System, s: State, a: Action): State
    requires Enabled(sys, s, a)
  {
    match a
    case ASend(m, ps) => Send(s, m, ps)
    case AAsk(m) => Ask(s, m)
    case AStart(c) => Start(s, c)
    case AStop => RequestStop(s)
    case ASendDirect(m, ps, accept) => Receive(Send(s, m, ps), accept)
    case AHead(order) => CacheHead(sys, s, order)
    case AReceive(accept) => Receive(s, accept)
    case ATakeQuery => TakeQuery(s)
    case AForwardQuery => ForwardQuery(s)
    case AHandOff => HandOff(s)
    case AEmit => Emit(s)
    case AEmitDirect => ReceiveOut(Emit(s))
    case AConfirm => Confirm(s)
    case AAnswer => Answer(s)
    case AReceiveOut => ReceiveOut(s)
    case ATick => ThrottleTick(s)
    case AThrottleSend => ThrottleSend(s)
    case AThrottleSendDirect => ReceiveThrottled(ThrottleSend(s))
    case AThrottleExit => ThrottleExit(s)
    case AReceiveThrottled => ReceiveThrottled(s)
    case AReaderExit => ReaderExit(s)
    case AShuffle => Shuffle(sys, s)
    case AWorkerReceive(i) => WorkerReceive(s, i)
    case AWorkerExit(i) => WorkerExit(s, i)
    case AStore(i) => Store(s, i)
    case ASendConfirm(i) => SendConfirm(s, i)
  }

  /** A run: states linked by enabled actions, from the initial state. */
  ghost predicate IsRun(sys: System, run: seq<State>, acts: seq<Action>) {
    && |run| == |acts| + 1
    && Init(run[0])
    && forall i {:trigger acts[i]} :: 0 <= i < |acts| ==>
         Enabled(sys, run[i], acts[i]) && run[i + 1] == Apply(sys, run[i], acts[i])
  }
}
