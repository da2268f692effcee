/**
  The Cache object (cache/cache.go): a map of mutable batches, and a write-out queue that refers to
  the same batch objects, so that a queued batch keeps growing. Every method is proved against the
  definitions of `WriteOut`. `SharedData` has the backing arrays of one batch's points.
 */
module CacheStore {
  import opened Points
  import opened Sequences
  import opened WriteOut

  /** points.Points, seen by the cache. */
  class Batch {
    const metric: Metric
    var data: seq<Point>

    constructor (metric: Metric, data: seq<Point>)
      ensures this.metric == metric && this.data == data
    {
      this.metric := metric;
      this.data := data;
    }

    /** Points.Copy. */
    method Copy() returns (copy: Batch)
      ensures fresh(copy) && copy.metric == metric && copy.data == data
    {
      copy := new Batch(metric, data);
    }
  }

  // ---- The uint32 counters ----

  function Plus32(a: nat, b: nat): nat {
    Wrap32(a + b)
  }

  /** a + (-uint32(b)), as atomic.AddUint32 subtracts. */
  function Minus32(a: nat, b: nat): nat {
    Wrap32(a + (TWO_TO_THE_32 - Wrap32(b)))
  }

  lemma CountersAdd(total: nat, n: nat)
    ensures Plus32(Wrap32(total), n) == Wrap32(total + n)
  {
    Wrap32IsRemainder(total);
    Wrap32IsRemainder(Wrap32(total) + n);
    Wrap32IsRemainder(total + n);
  }

  lemma CountersSubtract(total: nat, n: nat)
    requires n <= total
    ensures Minus32(Wrap32(total), n) == Wrap32(total - n)
    ensures n == 1 ==> Plus32(Wrap32(total), TWO_TO_THE_32 - 1) == Wrap32(total - 1)
  {
    Wrap32IsRemainder(total);
    Wrap32IsRemainder(n);
    Wrap32IsRemainder(Wrap32(total) + (TWO_TO_THE_32 - Wrap32(n)));
    Wrap32IsRemainder(total - n);
  }

  // ---- sort.Sort ----

  ghost predicate Ascending(q: seq<Batch>, key: map<Batch, int>)
    requires forall v :: v in q ==> v in key
  {
    forall i, j :: 0 <= i < j < |q| ==> key[q[i]] <= key[q[j]]
  }

  ghost predicate Distinct(q: seq<Batch>) {
    forall i, j :: 0 <= i < j < |q| ==> q[i] != q[j]
  }

  /** `r` is `sorted` with `v` put at position `i`. */
  ghost predicate InsertedAt(sorted: seq<Batch>, v: Batch, i: nat, r: seq<Batch>) {
    && i <= |sorted| && |r| == |sorted| + 1 && r[i] == v
    && (forall k :: 0 <= k < i ==> r[k] == sorted[k])
    && (forall k :: i < k < |r| ==> r[k] == sorted[k - 1])
  }

  lemma InsertedBatches(sorted: seq<Batch>, v: Batch, i: nat, r: seq<Batch>)
    requires InsertedAt(sorted, v, i, r)
    ensures forall x :: x in r <==> x in sorted || x == v
    ensures v !in sorted && Distinct(sorted) ==> Distinct(r)
  {
    forall x | x in sorted
      ensures x in r
    {
      var k :| 0 <= k < |sorted| && sorted[k] == x;
      var k' := if k < i then k else k + 1;
      assert r[k'] == x;
    }
  }

  lemma InsertedAscending(sorted: seq<Batch>, v: Batch, i: nat, key: map<Batch, int>, r: seq<Batch>)
    requires InsertedAt(sorted, v, i, r)
    requires v in key && (forall x :: x in sorted ==> x in key) && Ascending(sorted, key)
    requires forall j :: i <= j < |sorted| ==> key[v] < key[sorted[j]]
    requires i > 0 ==> key[sorted[i - 1]] <= key[v]
    ensures (forall x :: x in r ==> x in key) && Ascending(r, key)
  {
    forall k | 0 <= k < |r|
      ensures r[k] in key
      ensures k < i ==> key[r[k]] <= key[v]
      ensures k > i ==> key[r[k]] > key[v]
    {
      if k < i { assert sorted[k] in sorted; }
      if k > i { assert sorted[k - 1] in sorted; }
    }
  }

  method Insert(sorted: seq<Batch>, v: Batch, key: map<Batch, int>) returns (r: seq<Batch>)
    requires v in key && (forall x :: x in sorted ==> x in key) && Ascending(sorted, key)
    requires v !in sorted && Distinct(sorted)
    ensures forall x :: x in r <==> x in sorted || x == v
    ensures Distinct(r) && Ascending(r, key)
  {
    var i := |sorted|;
    while i > 0 && key[sorted[i - 1]] > key[v]
      invariant 0 <= i <= |sorted|
      invariant forall j :: i <= j < |sorted| ==> key[v] < key[sorted[j]]
    {
      i := i - 1;
    }
    r := sorted[..i] + [v] + sorted[i..];
    InsertedBatches(sorted, v, i, r);
    InsertedAscending(sorted, v, i, key, r);
  }

  /** Stands for sort.Sort: the values in ascending order of their keys. */
  method SortByKey(values: seq<Batch>, key: map<Batch, int>) returns (r: seq<Batch>)
    requires forall v :: v in values ==> v in key
    requires Distinct(values)
    ensures forall x :: x in r <==> x in values
    ensures Distinct(r) && Ascending(r, key)
  {
    r := [];
    for n := 0 to |values|
      invariant forall x :: x in r <==> x in values[..n]
      invariant Distinct(r) && Ascending(r, key)
    {
      assert values[..n + 1] == values[..n] + [values[n]];
      r := Insert(r, values[n], key);
    }
    assert values[..|values|] == values;
  }

  function Metrics(q: seq<Batch>): seq<Metric> {
    Map((b: Batch) => b.metric, q)
  }

  // ---- The queue refers to the map's objects ----

  /** Each batch is queued at most once, and is the very object stored under its metric. */
  ghost predicate QueueOk(data: map<Metric, Batch>, queue: seq<Batch>) {
    Distinct(queue) && forall v :: v in queue ==> v.metric in data && data[v.metric] == v
  }

  ghost predicate KeysOk(data: map<Metric, Batch>) {
    forall m :: m in data ==> data[m].metric == m
  }

  /** Taking the last batch off the queue and out of the map. */
  lemma QueueWithoutLast(data: map<Metric, Batch>, queue: seq<Batch>, v: Batch)
    requires KeysOk(data) && QueueOk(data, queue + [v])
    ensures v.metric in data && data[v.metric] == v
    ensures QueueOk(data - {v.metric}, queue)
  {
    var whole := queue + [v];
    assert whole[|queue|] == v && v in whole;
    forall x | x in queue
      ensures x in whole && x != v && x.metric != v.metric
    {
      var i :| 0 <= i < |queue| && queue[i] == x;
      assert whole[i] == x;
    }
    assert forall i :: 0 <= i < |queue| ==> whole[i] == queue[i];
  }

  lemma QueueAfterAdd(data: map<Metric, Batch>, queue: seq<Batch>, p: Batch)
    requires QueueOk(data, queue) && p.metric !in data
    ensures QueueOk(data[p.metric := p], queue)
  {
  }

  lemma MetricsPush(queue: seq<Batch>, v: Batch)
    ensures Metrics(queue + [v]) == Metrics(queue) + [v.metric]
  {
  }

  lemma MetricsDistinct(data: map<Metric, Batch>, queue: seq<Batch>)
    requires QueueOk(data, queue)
    ensures forall i, j :: 0 <= i < j < |queue| ==> Metrics(queue)[i] != Metrics(queue)[j]
    ensures forall m :: m in Metrics(queue) ==> m in data
  {
    forall i | 0 <= i < |queue|
      ensures Metrics(queue)[i] in data && data[Metrics(queue)[i]] == queue[i]
    {
      assert queue[i] in queue;
    }
  }

  lemma {:induction false} MetricsHas(queue: seq<Batch>, v: Batch)
    requires v in queue
    ensures v.metric in Metrics(queue)
  {
    var i :| 0 <= i < |queue| && queue[i] == v;
    assert Metrics(queue)[i] == v.metric;
  }

  /** The two counters of a cache that holds `points`. */
  ghost predicate CountersOk(points: Entries, size: nat, metricCount: nat) {
    && size == Wrap32(Total(points))
    && metricCount == Wrap32(|points|)
  }

  lemma CountAfterAdd(points: Entries, m: Metric, ps: seq<Point>)
    ensures |points[m := ps]| == if m in points then |points| else |points| + 1
  {
    assert m in points ==> points[m := ps].Keys == points.Keys;
    assert m !in points ==> points[m := ps].Keys == points.Keys + {m};
  }

  lemma CountersAfterAdd(points: Entries, size: nat, metricCount: nat, m: Metric, ps: seq<Point>)
    requires size == Wrap32(Total(points)) && metricCount == Wrap32(|points|)
    ensures Plus32(size, |ps|) == Wrap32(Total(Extended(points, m, ps)))
    ensures (if m in points then metricCount else Plus32(metricCount, 1)) == Wrap32(|Extended(points, m, ps)|)
  {
    TotalGrows(points, m, Extended(points, m, ps));
    CountAfterAdd(points, m, Extended(points, m, ps)[m]);
    CountersAdd(Total(points), |ps|);
    CountersAdd(|points|, 1);
  }

  lemma CountersAfterRemove(points: Entries, size: nat, metricCount: nat, m: Metric)
    requires size == Wrap32(Total(points)) && metricCount == Wrap32(|points|) && m in points
    ensures Minus32(size, |points[m]|) == Wrap32(Total(points - {m}))
    ensures Plus32(metricCount, TWO_TO_THE_32 - 1) == Wrap32(|points - {m}|)
  {
    TotalRemoves(points, m);
    CountersSubtract(Total(points), |points[m]|);
    CountersSubtract(|points|, 1);
    assert points.Keys == (points - {m}).Keys + {m};
  }

  lemma CountersFollowAdd(points: Entries, size: nat, metricCount: nat, m: Metric, ps: seq<Point>)
    requires CountersOk(points, size, metricCount)
    ensures CountersOk(Extended(points, m, ps), Plus32(size, |ps|),
                      if m in points then metricCount else Plus32(metricCount, 1))
  {
    CountersAfterAdd(points, size, metricCount, m, ps);
  }

  lemma CountersFollowRemove(points: Entries, size: nat, metricCount: nat, m: Metric)
    requires CountersOk(points, size, metricCount) && m in points
    ensures CountersOk(points - {m}, Minus32(size, |points[m]|), Plus32(metricCount, TWO_TO_THE_32 - 1))
  {
    CountersAfterRemove(points, size, metricCount, m);
  }

  lemma RebuildNotEmpty(strategy: Strategy, points: Entries, queue: seq<Metric>)
    requires queue in Rebuilds(strategy, points) && points != map[]
    ensures queue != []
  {
    var m :| m in points;
    assert m in queue;
  }

  /** The batches are filed under their metrics, and hold the points. */
  ghost predicate Holding(data: map<Metric, Batch>, points: Entries)
    reads data.Values
  {
    && data.Keys == points.Keys
    && forall m :: m in data ==> data[m].metric == m && data[m].data == points[m]
  }

  ghost predicate Linking(data: map<Metric, Batch>, points: Entries, queue: seq<Batch>)
    reads data.Values
  {
    Holding(data, points) && EntriesOk(points) && QueueOk(data, queue)
  }

  lemma LinkingAfterAdd(data: map<Metric, Batch>, points: Entries, queue: seq<Batch>, p: Batch)
    requires Linking(data, points, queue) && p.metric !in data && p.data != []
    ensures Linking(data[p.metric := p], Extended(points, p.metric, p.data), queue)
  {
    QueueAfterAdd(data, queue, p);
    assert [] + p.data == p.data;
  }

  lemma HoldingAfterGrowth(data: map<Metric, Batch>, points: Entries, m: Metric, ps: seq<Point>)
    requires m in points && data.Keys == points.Keys && data[m].metric == m && data[m].data == points[m] + ps
    requires forall n :: n in data && n != m ==> data[n].metric == n && data[n].data == points[n]
    ensures Holding(data, points[m := points[m] + ps])
  {
  }

  /** No other entry is longer or, for the other order, starts earlier. */
  ghost predicate ComesFirst(strategy: Strategy, points: Entries, m: Metric) {
    EntriesOk(points) && m in points &&
    match strategy
    case MaximumLength => forall n :: n in points ==> |points[n]| <= |points[m]|
    case TimestampOrder => forall n :: n in points ==> points[n][0].timestamp >= points[m][0].timestamp
    case Noop => true
  }

  /** The last metric of the queue `from` that a Pop names is what it returns: after a rebuild it comes first. */
  lemma FirstOfRebuild(strategy: Strategy, s: Store, queue: seq<Metric>)
    requires StoreOk(s) && PopsFrom(strategy, s, queue) && queue != []
    ensures s.queue == [] ==> ComesFirst(strategy, s.points, queue[|queue| - 1])
  {
    if s.queue == [] {
      match strategy
      case MaximumLength => LongestFirst(s, PopOp(queue), PoppedFrom(s, queue));
      case TimestampOrder => EarliestFirst(s, PopOp(queue), PoppedFrom(s, queue));
      case Noop => assert queue[|queue| - 1] in queue;
    }
  }

  class Cache {
    var data: map<Metric, Batch>
    var queue: seq<Batch>
    var size: nat            // uint32
    var metricCount: nat     // uint32
    var maxSize: nat
    var overflowCnt: nat     // uint32
    var writeStrategy: Strategy
    ghost var points: Entries    // what the batches of the map hold

    ghost predicate Holds()
      reads `data, `points, data.Values
    {
      Holding(data, points)
    }

    /** Everything but the counters. */
    ghost predicate Linked()
      reads `data, `points, `queue, data.Values
    {
      Linking(data, points, queue)
    }

    ghost predicate Valid()
      reads `data, `points, `queue, `size, `metricCount, data.Values
    {
      Linked() && CountersOk(points, size, metricCount)
    }

    ghost function AsStore(): Store
      reads this
    {
      Store(points, Metrics(queue))
    }

    constructor (strategy: Strategy)
      ensures Valid() && AsStore() == Store(map[], [])
      ensures writeStrategy == strategy && maxSize == 1000000 && overflowCnt == 0
    {
      data, queue, size, metricCount := map[], [], 0, 0;
      maxSize, overflowCnt, writeStrategy := 1000000, 0, strategy;
      points := map[];
      new;
      TotalOfNothing(points);
    }

    /** Add for a known metric: its object grows. */
    method AddToEntry(p: Batch)
      requires Valid() && p.metric in data && p != data[p.metric]
      modifies this`size, this`points, data[p.metric]
      ensures Valid() && points == Extended(old(points), p.metric, p.data)
    {
      CountersFollowAdd(points, size, metricCount, p.metric, p.data);
      data[p.metric].data := data[p.metric].data + p.data;
      HoldingAfterGrowth(data, points, p.metric, p.data);
      points := points[p.metric := points[p.metric] + p.data];
      size := Plus32(size, |p.data|);
    }

    /** Add for a new metric: the message becomes its object. */
    method AddEntry(p: Batch)
      requires Valid() && p.metric !in data && p.data != []
      modifies this`data, this`size, this`metricCount, this`points
      ensures Valid() && points == Extended(old(points), p.metric, p.data)
      ensures data == old(data)[p.metric := p]
    {
      CountersFollowAdd(points, size, metricCount, p.metric, p.data);
      LinkingAfterAdd(data, points, queue, p);
      metricCount := Plus32(metricCount, 1);
      points := Extended(points, p.metric, p.data);
      data := data[p.metric := p];
      size := Plus32(size, |p.data|);
    }

    /** The store of `WriteOut` becomes `Added`: the queue is not touched, and the counters follow. */
    method Add(p: Batch)
      requires Valid() && p !in data.Values && p.data != []
      modifies this`data, this`size, this`metricCount, this`points, if p.metric in data then {data[p.metric]} else {}
      ensures Valid() && AsStore() == Added(old(AsStore()), p.metric, p.data)
      ensures data == if p.metric in old(data) then old(data) else old(data)[p.metric := p]
    {
      if p.metric in data {
        AddToEntry(p);
      } else {
        AddEntry(p);
      }
    }

    method GetNext() returns (v: Batch?)
      modifies this`queue
      ensures old(queue) == [] ==> v == null && queue == []
      ensures old(queue) != [] ==> v != null && old(queue) == queue + [v]
    {
      if |queue| == 0 {
        return null;
      }
      v := queue[|queue| - 1];
      queue := queue[..|queue| - 1];
    }

    /** Go's map iteration: the batches once each, in any order. */
    method Values() returns (values: seq<Batch>)
      requires Holds()
      ensures Distinct(values) && forall v :: v in values <==> v.metric in data && data[v.metric] == v
    {
      values := [];
      var rest := data.Keys;
      while rest != {}
        invariant rest <= data.Keys
        invariant Distinct(values)
        invariant forall v :: v in values <==> v.metric in data && data[v.metric] == v && v.metric !in rest
        decreases |rest|
      {
        var m :| m in rest;
        values := values + [data[m]];
        rest := rest - {m};
      }
    }

    /** sort.Sort, for the Less of the strategy. */
    method Sorted(values: seq<Batch>) returns (r: seq<Batch>)
      requires Holds() && EntriesOk(points) && Distinct(values)
      requires forall v :: v in values ==> v.metric in data && data[v.metric] == v
      ensures Distinct(r) && (forall v :: v in r <==> v in values) && InOrder(writeStrategy, points, Metrics(r))
    {
      r := values;
      match writeStrategy {
        case MaximumLength =>
          r := SortByKey(values, map v | v in values :: |v.data|);
          assert forall i :: 0 <= i < |r| ==> r[i] in r;
        case TimestampOrder =>
          assert forall v :: v in values ==> points[v.metric] == v.data;
          r := SortByKey(values, map v | v in values :: -v.data[0].timestamp);
          assert forall i :: 0 <= i < |r| ==> r[i] in r;
        case Noop =>
      }
    }

    method UpdateQueue()
      requires Linked()
      modifies this`queue
      ensures Linked()
      ensures if size == 0 then queue == old(queue) else Metrics(queue) in Rebuilds(writeStrategy, points)
    {
      if size == 0 {
        return;
      }
      var newQueue := Values();
      queue := Sorted(newQueue);
      MetricsDistinct(data, queue);
      forall m | m in data
        ensures m in Metrics(queue)
      {
        MetricsHas(queue, data[m]);
      }
    }

    /** `from` is the queue that the result was taken from. */
    method Get() returns (v: Batch?, ghost from: seq<Metric>)
      requires Linked() && (size != 0 ==> points != map[])
      modifies this`queue
      ensures v == null <==> old(queue) == [] && size == 0
      ensures v == null ==> queue == []
      ensures v != null ==> QueueOk(data, queue + [v]) && from == Metrics(queue) + [v.metric]
      ensures v != null && old(queue) != [] ==> from == Metrics(old(queue))
      ensures v != null && old(queue) == [] ==> from in Rebuilds(writeStrategy, points)
    {
      from := Metrics(queue);
      v := GetNext();
      if v != null {
        MetricsPush(queue, v);
        return;
      }
      UpdateQueue();
      from := Metrics(queue);
      if size != 0 {
        RebuildNotEmpty(writeStrategy, points, from);
      }
      v := GetNext();
      if v != null {
        MetricsPush(queue, v);
      }
    }

    method CountDown(n: nat)
      modifies this`size, this`metricCount
      ensures size == Minus32(old(size), n) && metricCount == Plus32(old(metricCount), TWO_TO_THE_32 - 1)
    {
      size := Minus32(size, n);
      metricCount := Plus32(metricCount, TWO_TO_THE_32 - 1);
    }

    /** delete(c.data, key). */
    method Delete(key: Metric)
      requires Holds() && EntriesOk(points) && QueueOk(data - {key}, queue)
      modifies this`data, this`points
      ensures Linked() && data == old(data) - {key} && points == old(points) - {key}
    {
      data := data - {key};
      points := points - {key};
    }

    /** Pop has taken the batch off the queue. */
    method Remove(key: Metric, n: nat)
      requires Holds() && EntriesOk(points) && QueueOk(data - {key}, queue) && CountersOk(points, size, metricCount)
      requires key in data && n == |points[key]|
      modifies this`data, this`size, this`metricCount, this`points
      ensures Valid()
      ensures data == old(data) - {key} && points == old(points) - {key}
    {
      CountersFollowRemove(points, size, metricCount, key);
      CountDown(n);
      Delete(key);
    }

    /**
      The result is the object stored under its metric; it leaves both the queue and the map, so that
      the store of `WriteOut` becomes `PoppedFrom` for the queue `from`.
     */
    method Pop() returns (v: Batch?, ghost from: seq<Metric>)
      requires Valid()
      modifies this`data, this`size, this`metricCount, this`queue, this`points
      ensures Valid()
      ensures v == null <==> old(queue) == [] && old(size) == 0
      ensures v == null ==> data == old(data) && queue == old(queue) && points == old(points)
      ensures v != null ==> v.metric in old(data) && v == old(data)[v.metric] && data == old(data) - {v.metric}
      ensures v != null ==> PopsFrom(writeStrategy, old(AsStore()), from) && from == Metrics(queue) + [v.metric]
      ensures v != null ==> AsStore() == PoppedFrom(old(AsStore()), from)
    {
      TotalOfNothing(points);
      v, from := Get();
      if v != null {
        QueueWithoutLast(data, queue, v);
        Remove(v.metric, |v.data|);
      }
    }

    /** The query branch of the worker: the held batch itself, or a copy of the entry. */
    method CacheData(held: Batch?, metric: Metric) returns (reply: Batch?)
      requires Valid()
      ensures held != null && held.metric == metric ==> reply == held
      ensures !(held != null && held.metric == metric) && metric in data ==>
                reply != null && fresh(reply) && reply.metric == metric && reply.data == points[metric]
      ensures !(held != null && held.metric == metric) && metric !in data ==> reply == null
    {
      if held != null && held.metric == metric {
        reply := held;
      } else if metric in data {
        reply := data[metric].Copy();
      } else {
        reply := null;
      }
    }

    /** The receive branch of the worker: a message is added or counted as an overflow. */
    method Receive(p: Batch)
      requires Valid() && p !in data.Values && p.data != []
      modifies this`data, this`size, this`metricCount, this`overflowCnt, this`points
      modifies if p.metric in data then {data[p.metric]} else {}
      ensures Valid()
      ensures (AsStore(), data, overflowCnt) ==
              if maxSize == 0 || old(size) < maxSize then
                (Added(old(AsStore()), p.metric, p.data),
                 if p.metric in old(data) then old(data) else old(data)[p.metric := p],
                 old(overflowCnt))
              else
                (old(AsStore()), old(data), Plus32(old(overflowCnt), 1))
    {
      if maxSize == 0 || size < maxSize {
        Add(p);
      } else {
        overflowCnt := Plus32(overflowCnt, 1);
      }
    }
  }

  /** While fewer than 2^32 points are cached, Pop's nil (empty queue, zero counter) means an empty cache. */
  lemma NilMeansEmpty(points: Entries, queue: seq<Metric>)
    requires StoreOk(Store(points, queue)) && Total(points) < TWO_TO_THE_32
    ensures queue == [] && Wrap32(Total(points)) == 0 <==> points == map[]
  {
    TotalOfNothing(points);
    if queue != [] { assert queue[0] in points; }
  }

  /** Pop returns nil and leaves points behind exactly at the positive multiples of 2^32 with an empty queue. */
  lemma NilLeavesPoints(points: Entries, queue: seq<Metric>)
    requires StoreOk(Store(points, queue))
    ensures queue == [] && Wrap32(Total(points)) == 0 && points != map[]
       <==> queue == [] && Total(points) > 0 && Total(points) % TWO_TO_THE_32 == 0
  {
    TotalOfNothing(points);
    Wrap32IsRemainder(Total(points));
  }

  /** There is such a cache. */
  lemma NilOfFullEntry() returns (points: Entries)
    ensures StoreOk(Store(points, [])) && points != map[]
    ensures Total(points) == TWO_TO_THE_32 && Wrap32(Total(points)) == 0
  {
    points := map["m" := seq(TWO_TO_THE_32, _ => Point(0, 0))];
    assert "m" in points;
    TotalOfNothing(map[]);
    TotalGrows(map[], "m", points);
  }
}
