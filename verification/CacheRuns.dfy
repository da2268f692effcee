/** The Cache object over a run of receives and pops, with the size limit that its own counter enforces. */
module CacheRuns {
  import opened CacheStore
  import opened IdleRuns
  import opened Points
  import opened WriteOut

  /** What the cache worker does with the object: a received message, or the Pop at the loop head. */
  datatype Request = Message(metric: Metric, points: seq<Point>) | Take

  /** A message is added while there is no limit or the counter is below it; a Pop takes a batch or finds none. */
  ghost predicate EffectIs(maxSize: nat, s: Store, r: Request, e: Effect) {
    match r
    case Message(m, ps) => e == if maxSize == 0 || Wrap32(Total(s.points)) < maxSize then Some(AddOp(m, ps)) else None
    case Take => if s.queue == [] && Wrap32(Total(s.points)) == 0 then e == None else IsPop(e)
  }

  /** One request served: the effect is the right one, and is what happened. */
  ghost predicate Served(strategy: Strategy, maxSize: nat, s: Store, r: Request, e: Effect, t: Store) {
    EffectIs(maxSize, s, r, e) && Moves(strategy, s, e, t)
  }

  lemma SizeIs(c: Cache)
    requires c.Valid()
    ensures c.size == Wrap32(Total(c.points)) && c.metricCount == Wrap32(|c.points|) && c.AsStore().points == c.points
  {
  }

  lemma ReceivedIs(strategy: Strategy, maxSize: nat, size: nat, s: Store, data: map<Metric, Batch>, overflow: nat,
                   p: Batch, m: Metric, ps: seq<Point>, t: Store, data': map<Metric, Batch>, overflow': nat)
    requires ps != [] && size == Wrap32(Total(s.points))
    requires (t, data', overflow') ==
             if maxSize == 0 || size < maxSize then
               (Added(s, m, ps), if m in data then data else data[m := p], overflow)
             else
               (s, data, Plus32(overflow, 1))
    ensures Served(strategy, maxSize, s, Message(m, ps),
                   if maxSize == 0 || size < maxSize then Some(AddOp(m, ps)) else None, t)
    ensures data'.Values <= data.Values + {p}
  {
    ValuesAfter(data, m, p);
  }

  lemma ValuesAfter(data: map<Metric, Batch>, m: Metric, p: Batch)
    ensures data[m := p].Values <= data.Values + {p}
  {
  }

  lemma ValuesLeft(data: map<Metric, Batch>, m: Metric)
    ensures (data - {m}).Values <= data.Values
  {
  }

  method ReceiveObject(c: Cache, p: Batch) returns (ghost e: Effect)
    requires c.Valid() && p !in c.data.Values && p.data != []
    modifies c`data, c`size, c`metricCount, c`overflowCnt, c`points, c.data.Values
    ensures c.Valid() && c.data.Values <= old(c.data.Values) + {p}
    ensures Served(c.writeStrategy, c.maxSize, old(c.AsStore()), Message(p.metric, old(p.data)), e, c.AsStore())
  {
    ghost var s, ps, size, data, overflow := c.AsStore(), p.data, c.size, c.data, c.overflowCnt;
    SizeIs(c);
    e := if c.maxSize == 0 || c.size < c.maxSize then Some(AddOp(p.metric, ps)) else None;
    c.Receive(p);
    ReceivedIs(c.writeStrategy, c.maxSize, size, s, data, overflow, p, p.metric, ps,
               c.AsStore(), c.data, c.overflowCnt);
  }

  /** The receiver makes an object of each message. */
  method Receive(c: Cache, m: Metric, ps: seq<Point>) returns (ghost e: Effect)
    requires c.Valid() && ps != []
    modifies c`data, c`size, c`metricCount, c`overflowCnt, c`points, c.data.Values
    ensures c.Valid() && fresh(c.data.Values - old(c.data.Values))
    ensures Served(c.writeStrategy, c.maxSize, old(c.AsStore()), Message(m, ps), e, c.AsStore())
  {
    var p := new Batch(m, ps);
    e := ReceiveObject(c, p);
  }

  method Pop(c: Cache) returns (v: Batch?, ghost e: Effect)
    requires c.Valid()
    modifies c`data, c`size, c`metricCount, c`queue, c`points
    ensures c.Valid() && fresh(c.data.Values - old(c.data.Values))
    ensures Served(c.writeStrategy, c.maxSize, old(c.AsStore()), Take, e, c.AsStore())
  {
    ghost var from, before := [], c.data;
    v, from := c.Pop();
    if v != null { ValuesLeft(before, v.metric); }
    e := if v == null then None else Some(PopOp(from));
  }

  method Serve(c: Cache, r: Request) returns (ghost e: Effect)
    requires c.Valid() && (r.Message? ==> r.points != [])
    modifies c`data, c`size, c`metricCount, c`overflowCnt, c`queue, c`points, c.data.Values
    ensures c.Valid() && fresh(c.data.Values - old(c.data.Values))
    ensures Served(c.writeStrategy, c.maxSize, old(c.AsStore()), r, e, c.AsStore())
  {
    match r {
      case Message(m, ps) => e := Receive(c, m, ps);
      case Take =>
        var v;
        v, e := Pop(c);
    }
  }

  lemma StepwiseFresh(a: set<Batch>, b: set<Batch>, c: set<Batch>)
    ensures c - a <= (c - b) + (b - a)
  {
  }

  /** The first |es| requests are served one after another. */
  ghost predicate AllServed(strategy: Strategy, maxSize: nat, requests: seq<Request>, ss: seq<Store>, es: seq<Effect>) {
    && |es| <= |requests| && |ss| == |es| + 1
    && forall k :: 0 <= k < |es| ==> Served(strategy, maxSize, ss[k], requests[k], es[k], ss[k + 1])
  }

  lemma OneMore(strategy: Strategy, maxSize: nat, requests: seq<Request>, ss: seq<Store>, es: seq<Effect>,
                e: Effect, t: Store)
    requires AllServed(strategy, maxSize, requests, ss, es) && |es| < |requests|
    requires Served(strategy, maxSize, ss[|es|], requests[|es|], e, t)
    ensures AllServed(strategy, maxSize, requests, ss + [t], es + [e])
  {
  }

  method ServeNext(c: Cache, requests: seq<Request>, ghost ss: seq<Store>, ghost es: seq<Effect>, n: nat)
    returns (ghost ss': seq<Store>, ghost es': seq<Effect>)
    requires c.Valid() && forall k :: 0 <= k < |requests| && requests[k].Message? ==> requests[k].points != []
    requires AllServed(c.writeStrategy, c.maxSize, requests, ss, es) && |es| == n < |requests| && ss[n] == c.AsStore()
    modifies c`data, c`size, c`metricCount, c`overflowCnt, c`queue, c`points, c.data.Values
    ensures c.Valid() && fresh(c.data.Values - old(c.data.Values))
    ensures AllServed(c.writeStrategy, c.maxSize, requests, ss', es') && |es'| == n + 1
    ensures ss' == ss + [c.AsStore()]
  {
    ghost var e := Serve(c, requests[n]);
    OneMore(c.writeStrategy, c.maxSize, requests, ss, es, e, c.AsStore());
    ss', es' := ss + [c.AsStore()], es + [e];
  }

  /**
    A run of requests: each message is added or dropped by the limit, each Pop takes a batch or finds the
    cache empty, and nothing else happens to the cache.
   */
  method Work(c: Cache, requests: seq<Request>) returns (ghost ss: seq<Store>, ghost es: seq<Effect>)
    requires c.Valid() && forall k :: 0 <= k < |requests| && requests[k].Message? ==> requests[k].points != []
    modifies c`data, c`size, c`metricCount, c`overflowCnt, c`queue, c`points, c.data.Values
    ensures c.Valid() && AllServed(c.writeStrategy, c.maxSize, requests, ss, es) && |es| == |requests|
    ensures ss[0] == old(c.AsStore()) && ss[|es|] == c.AsStore()
  {
    ss, es := [c.AsStore()], [];
    for n := 0 to |requests|
      invariant c.Valid() && fresh(c.data.Values - old(c.data.Values))
      invariant AllServed(c.writeStrategy, c.maxSize, requests, ss, es) && |es| == n
      invariant ss[0] == old(c.AsStore()) && ss[n] == c.AsStore()
    {
      ghost var before := c.data.Values;
      ss, es := ServeNext(c, requests, ss, es, n);
      StepwiseFresh(old(c.data.Values), before, c.data.Values);
    }
  }

  /** So a limit keeps the cache below it plus the longest message. */
  lemma WorkStaysBelow(strategy: Strategy, maxSize: nat, longest: nat, requests: seq<Request>,
                       ss: seq<Store>, es: seq<Effect>, i: nat)
    requires |es| == |requests| && |ss| == |es| + 1 && StoreOk(ss[0]) && ss[0].points == map[] && i < |ss|
    requires AllServed(strategy, maxSize, requests, ss, es)
    requires forall k :: 0 <= k < |requests| && requests[k].Message? ==> |requests[k].points| <= longest
    requires maxSize > 0 && maxSize + longest <= TWO_TO_THE_32
    ensures Total(ss[i].points) < maxSize + longest
  {
    forall k | 0 <= k < |es| && es[k].Some? && es[k].value.AddOp?
      ensures Wrap32(Total(ss[k].points)) < maxSize && |es[k].value.points| <= longest
    {
      assert Served(strategy, maxSize, ss[k], requests[k], es[k], ss[k + 1]);
    }
    assert IsIdleRun(strategy, ss, es);
    LimitHolds(strategy, maxSize, longest, ss, es, i);
  }
}
