/**
  What the write-out queue promises, for runs of the whole pipeline: seen from its cache, a run is one
  of Adds and Pops with idle steps, so the theorems of `WriteOut` hold of the loop heads and receives of
  the cache worker, whatever the other goroutines do in between.
 */
module PipelineWriteOut {
  import opened Arithmetic
  import opened PipelineModel
  import opened PipelineRefinement
  import opened PipelineTheorems
  import opened Points
  import IdleRuns
  import WriteOut

  /** A run without empty messages that builds its queues in the order of the strategy. */
  ghost predicate StrategyRun(strategy: WriteOut.Strategy, sys: System, run: seq<State>, acts: seq<Action>) {
    && IsRun(sys, run, acts) && Filled(acts)
    && forall k :: 0 <= k < |acts| ==> Follows(strategy, sys, run[k], acts[k])
  }

  // ---- The run, seen from its cache ----

  /** The cache in each state. */
  function CachesOf(run: seq<State>): (ss: seq<WriteOut.Store>)
    ensures |ss| == |run| && forall k :: 0 <= k < |run| ==> ss[k] == StoreOf(run[k])
  {
    seq(|run|, k requires 0 <= k < |run| => StoreOf(run[k]))
  }

  /** What each step does to it. */
  function EffectsOf(sys: System, run: seq<State>, acts: seq<Action>): (es: seq<IdleRuns.Effect>)
    requires |run| == |acts| + 1
    ensures |es| == |acts| && forall k :: 0 <= k < |acts| ==> es[k] == OpOf(sys, run[k], acts[k])
  {
    seq(|acts|, k requires 0 <= k < |acts| => OpOf(sys, run[k], acts[k]))
  }

  lemma {:induction false} InputsFilled(sys: System, run: seq<State>, acts: seq<Action>, i: nat)
    requires IsRun(sys, run, acts) && Filled(acts) && i < |run|
    ensures InputFilled(run[i])
  {
    if i > 0 {
      InputsFilled(sys, run, acts, i - 1);
      assert Enabled(sys, run[i - 1], acts[i - 1]);
      InputStaysFilled(sys, run[i - 1], acts[i - 1]);
    }
  }

  lemma RunStep(strategy: WriteOut.Strategy, sys: System, run: seq<State>, acts: seq<Action>, i: nat)
    requires StrategyRun(strategy, sys, run, acts) && i < |acts|
    ensures IdleRuns.Moves(strategy, StoreOf(run[i]), OpOf(sys, run[i], acts[i]), StoreOf(run[i + 1]))
  {
    RunKeeps(sys, run, acts, i);
    InputsFilled(sys, run, acts, i);
    assert Enabled(sys, run[i], acts[i]) && run[i + 1] == Apply(sys, run[i], acts[i]);
    StepRefines(strategy, sys, run[i], acts[i]);
  }

  /** From the empty cache, each step does to the cache what `OpOf` says. */
  lemma RunRefines(strategy: WriteOut.Strategy, sys: System, run: seq<State>, acts: seq<Action>)
    requires StrategyRun(strategy, sys, run, acts)
    ensures CachesOf(run)[0] == WriteOut.Store(map[], [])
    ensures IdleRuns.IsIdleRun(strategy, CachesOf(run), EffectsOf(sys, run, acts))
  {
    var ss, es := CachesOf(run), EffectsOf(sys, run, acts);
    assert EntriesOf(run[0]) == map[];
    forall k | 0 <= k < |es|
      ensures IdleRuns.Moves(strategy, ss[k], es[k], ss[k + 1])
    {
      RunStep(strategy, sys, run, acts, k);
    }
  }

  // ---- The loop heads that pop ----

  /** Step `k` is a loop head at which the worker pops a batch. */
  predicate Popping(sys: System, run: seq<State>, acts: seq<Action>, k: nat)
    requires |run| == |acts| + 1 && k < |acts|
  {
    acts[k].AHead? && Pops(sys, run[k], acts[k].order)
  }

  /** At step `k` the worker pops the batch `r`, and holds it then. */
  predicate Takes(sys: System, run: seq<State>, acts: seq<Action>, k: nat, r: Ref)
    requires |run| == |acts| + 1 && k < |acts|
  {
    Popping(sys, run, acts, k) && run[k + 1].held == Some(r)
  }

  /** The number of pops from step `i` up to `j`. */
  function PopsBetween(sys: System, run: seq<State>, acts: seq<Action>, i: nat, j: nat): nat
    requires |run| == |acts| + 1 && i <= j <= |acts|
    decreases j - i
  {
    if i == j then 0 else (if Popping(sys, run, acts, i) then 1 else 0) + PopsBetween(sys, run, acts, i + 1, j)
  }

  /** The number of entries when the queue is first rebuilt from step `i` up to `j`, or 0 if it is not. */
  function EntriesAtRebuild(sys: System, run: seq<State>, acts: seq<Action>, i: nat, j: nat): nat
    requires |run| == |acts| + 1 && i <= j <= |acts|
    decreases j - i
  {
    if i == j then 0
    else if Popping(sys, run, acts, i) && run[i].queue == [] then |run[i].data|
    else EntriesAtRebuild(sys, run, acts, i + 1, j)
  }

  lemma PoppingIsPop(sys: System, run: seq<State>, acts: seq<Action>, k: nat)
    requires |run| == |acts| + 1 && k < |acts|
    ensures var e := EffectsOf(sys, run, acts)[k];
            && (IdleRuns.IsPop(e) <==> Popping(sys, run, acts, k))
            && (IdleRuns.IsPop(e) ==> e.value.queue == MetricsOf(PopQueue(run[k], acts[k].order)))
  {
  }

  lemma {:induction false} DistinctCount(xs: seq<Ref>, s: set<Metric>)
    requires forall i, j :: 0 <= i < j < |xs| ==> xs[i].metric != xs[j].metric
    requires forall m :: m in s <==> exists i :: 0 <= i < |xs| && xs[i].metric == m
    ensures |s| == |xs|
  {
    if xs == [] {
      assert s == {};
    } else {
      var rest, m := xs[1..], xs[0].metric;
      assert m in s;
      forall n
        ensures n in s - {m} <==> exists i :: 0 <= i < |rest| && rest[i].metric == n
      {
        if i :| 0 <= i < |rest| && rest[i].metric == n { assert xs[i + 1].metric == n && n != m; }
        if n in s - {m} {
          var i :| 0 <= i < |xs| && xs[i].metric == n;
          assert rest[i - 1].metric == n;
        }
      }
      DistinctCount(rest, s - {m});
    }
  }

  /** A rebuilt queue has as many batches as the cache has entries. */
  lemma RebuildLength(order: seq<Ref>, data: map<Metric, Ref>)
    requires PipelineModel.IsRebuild(order, data) && forall m :: m in data ==> data[m].metric == m
    ensures |order| == |data|
  {
    forall m
      ensures m in data.Keys <==> exists i :: 0 <= i < |order| && order[i].metric == m
    {
      if m in data {
        var i :| 0 <= i < |order| && order[i] == data[m];
        assert order[i].metric == m;
      }
      if i :| 0 <= i < |order| && order[i].metric == m { assert order[i] in order; }
    }
    forall i, j | 0 <= i < j < |order|
      ensures order[i].metric != order[j].metric
    {
      assert order[i] in order && order[j] in order;
    }
    DistinctCount(order, data.Keys);
  }

  /** The step counts the same in the pipeline and in what is seen from the cache. */
  ghost predicate CountsAlike(sys: System, run: seq<State>, acts: seq<Action>, ss: seq<WriteOut.Store>,
                              es: seq<IdleRuns.Effect>, k: nat)
    requires |run| == |ss| == |acts| + 1 && |es| == |acts| && k < |acts|
  {
    && (IdleRuns.IsPop(es[k]) <==> Popping(sys, run, acts, k))
    && (ss[k].queue == [] <==> run[k].queue == [])
    && (IdleRuns.IsPop(es[k]) && ss[k].queue == [] ==> |es[k].value.queue| == |run[k].data|)
  }

  lemma StepCounts(sys: System, run: seq<State>, acts: seq<Action>, k: nat)
    requires IsRun(sys, run, acts) && k < |acts|
    ensures CountsAlike(sys, run, acts, CachesOf(run), EffectsOf(sys, run, acts), k)
  {
    PoppingIsPop(sys, run, acts, k);
    RunKeeps(sys, run, acts, k);
    assert Enabled(sys, run[k], acts[k]);
    if Popping(sys, run, acts, k) && run[k].queue == [] { RebuildLength(acts[k].order, run[k].data); }
  }

  lemma {:induction false} CountsAre(sys: System, run: seq<State>, acts: seq<Action>, ss: seq<WriteOut.Store>,
                                     es: seq<IdleRuns.Effect>, i: nat, j: nat)
    requires |run| == |ss| == |acts| + 1 && |es| == |acts| && i <= j <= |acts|
    requires forall k :: 0 <= k < |acts| ==> CountsAlike(sys, run, acts, ss, es, k)
    ensures IdleRuns.PopCount(es, i, j) == PopsBetween(sys, run, acts, i, j)
    ensures IdleRuns.RebuildCount(ss, es, i, j) == EntriesAtRebuild(sys, run, acts, i, j)
    decreases j - i
  {
    if i < j {
      CountsAre(sys, run, acts, ss, es, i + 1, j);
      assert CountsAlike(sys, run, acts, ss, es, i);
    }
  }

  lemma Counts(sys: System, run: seq<State>, acts: seq<Action>, i: nat, j: nat)
    requires IsRun(sys, run, acts) && i <= j <= |acts|
    ensures IdleRuns.PopCount(EffectsOf(sys, run, acts), i, j) == PopsBetween(sys, run, acts, i, j)
    ensures IdleRuns.RebuildCount(CachesOf(run), EffectsOf(sys, run, acts), i, j) ==
            EntriesAtRebuild(sys, run, acts, i, j)
  {
    forall k | 0 <= k < |acts|
      ensures CountsAlike(sys, run, acts, CachesOf(run), EffectsOf(sys, run, acts), k)
    {
      StepCounts(sys, run, acts, k);
    }
    CountsAre(sys, run, acts, CachesOf(run), EffectsOf(sys, run, acts), i, j);
  }

  // ---- A cached batch is taken ----

  /** What a Pop returns is the stored object, which the worker then holds. */
  lemma PopTakes(sys: System, run: seq<State>, acts: seq<Action>, k: nat)
    requires IsRun(sys, run, acts) && k < |acts| && Popping(sys, run, acts, k)
    ensures var m := WriteOut.Returned(EffectsOf(sys, run, acts)[k].value);
            && m.Some? && m.value in run[k].data
            && run[k].data[m.value].metric == m.value && Takes(sys, run, acts, k, run[k].data[m.value])
            && run[k + 1].heap == run[k].heap && run[k + 1].data == run[k].data - {m.value}
  {
    RunKeeps(sys, run, acts, k);
    assert Enabled(sys, run[k], acts[k]) && run[k + 1] == Apply(sys, run[k], acts[k]);
    PoppingIsPop(sys, run, acts, k);
    HeadIsPop(WriteOut.Noop, sys, run[k], acts[k].order);
  }

  /** The entry of a metric stays the same object until it is taken. */
  lemma EntryStays(sys: System, run: seq<State>, acts: seq<Action>, k: nat, m: Metric)
    requires IsRun(sys, run, acts) && k < |acts| && m in run[k].data
    requires !Takes(sys, run, acts, k, run[k].data[m])
    ensures m in run[k + 1].data && run[k + 1].data[m] == run[k].data[m]
  {
    var s, a := run[k], acts[k];
    assert Enabled(sys, s, a) && run[k + 1] == Apply(sys, s, a);
    if !TouchesStore(a) {
      OthersRefine(sys, s, a);
    } else if a.AHead? && Popping(sys, run, acts, k) {
      PopTakes(sys, run, acts, k);
    }
  }

  lemma NotReturned(sys: System, run: seq<State>, acts: seq<Action>, k: nat, m: Metric)
    requires IsRun(sys, run, acts) && k < |acts| && m in run[k].data
    requires !Takes(sys, run, acts, k, run[k].data[m])
    ensures !IdleRuns.Pops(EffectsOf(sys, run, acts)[k], m)
  {
    PoppingIsPop(sys, run, acts, k);
    if Popping(sys, run, acts, k) { PopTakes(sys, run, acts, k); }
  }

  lemma {:induction false} EntryRemains(sys: System, run: seq<State>, acts: seq<Action>, i: nat, j: nat, m: Metric)
    requires IsRun(sys, run, acts) && i <= j <= |acts| && m in run[i].data
    requires forall k :: i <= k < j ==> !Takes(sys, run, acts, k, run[i].data[m])
    ensures m in run[j].data && run[j].data[m] == run[i].data[m]
    decreases j - i
  {
    if i < j {
      EntryRemains(sys, run, acts, i, j - 1, m);
      EntryStays(sys, run, acts, j - 1, m);
    }
  }

  lemma NeverTaken(sys: System, run: seq<State>, acts: seq<Action>, i: nat, j: nat, m: Metric)
    requires IsRun(sys, run, acts) && i <= j <= |acts| && m in run[i].data
    requires forall k :: i <= k < j ==> !Takes(sys, run, acts, k, run[i].data[m])
    ensures forall k :: i <= k < j ==> !IdleRuns.Pops(EffectsOf(sys, run, acts)[k], m)
  {
    forall k | i <= k < j
      ensures !IdleRuns.Pops(EffectsOf(sys, run, acts)[k], m)
    {
      EntryRemains(sys, run, acts, i, k, m);
      NotReturned(sys, run, acts, k, m);
    }
  }

  /**
    A cached batch is taken within as many pops as there are batches in the queue and entries at the
    next rebuild, whatever happens in between, and it is taken as the same object.
   */
  lemma CachedIsTaken(sys: System, run: seq<State>, acts: seq<Action>, i: nat, j: nat, m: Metric)
    requires IsRun(sys, run, acts) && Filled(acts) && i <= j <= |acts| && m in run[i].data
    requires PopsBetween(sys, run, acts, i, j) >= |run[i].queue| + Max(1, EntriesAtRebuild(sys, run, acts, i, j))
    ensures exists k :: i <= k < j && Takes(sys, run, acts, k, run[i].data[m])
  {
    if forall k :: i <= k < j ==> !Takes(sys, run, acts, k, run[i].data[m]) {
      NeverTaken(sys, run, acts, i, j, m);
      RunRefines(WriteOut.Noop, sys, run, acts);
      Counts(sys, run, acts, i, j);
      IdleRuns.CachedIsReturned(WriteOut.Noop, CachesOf(run), EffectsOf(sys, run, acts), i, j, m);
    }
  }

  /** The batch at position `x` of the queue is taken within |queue| - x pops. */
  lemma QueuedIsTaken(sys: System, run: seq<State>, acts: seq<Action>, i: nat, j: nat, x: nat)
    requires IsRun(sys, run, acts) && Filled(acts) && i <= j <= |acts| && x < |run[i].queue|
    requires PopsBetween(sys, run, acts, i, j) >= |run[i].queue| - x
    ensures exists k :: i <= k < j && Takes(sys, run, acts, k, run[i].queue[x])
  {
    var r := run[i].queue[x];
    RunKeeps(sys, run, acts, i);
    assert r in run[i].queue;
    if forall k :: i <= k < j ==> !Takes(sys, run, acts, k, r) {
      NeverTaken(sys, run, acts, i, j, r.metric);
      RunRefines(WriteOut.Noop, sys, run, acts);
      Counts(sys, run, acts, i, j);
      IdleRuns.QueuedIsReturned(WriteOut.Noop, CachesOf(run), EffectsOf(sys, run, acts), i, j, x);
    }
  }

  // ---- Timestamp order ----

  /** The first timestamp of what the worker took at step `k`. */
  lemma TakenFirst(strategy: WriteOut.Strategy, sys: System, run: seq<State>, acts: seq<Action>, k: nat)
    requires StrategyRun(strategy, sys, run, acts) && k < |acts| && Popping(sys, run, acts, k)
    ensures var m := WriteOut.Returned(EffectsOf(sys, run, acts)[k].value);
            && m.Some? && run[k + 1].held.Some?
            && var ps := Data(run[k + 1].heap, run[k + 1].held.value);
            ps != [] && WriteOut.FirstTimestamp(CachesOf(run)[k].points, m.value) == ps[0].timestamp
  {
    PopTakes(sys, run, acts, k);
    RunRefines(strategy, sys, run, acts);
    IdleRuns.StaysOk(strategy, CachesOf(run), EffectsOf(sys, run, acts), k);
    var m := WriteOut.Returned(EffectsOf(sys, run, acts)[k].value).value;
    assert m in EntriesOf(run[k]);
  }

  lemma SameCycle(sys: System, run: seq<State>, acts: seq<Action>, j: nat, k: nat)
    requires IsRun(sys, run, acts) && j < k < |acts|
    requires forall l :: j < l <= k && Popping(sys, run, acts, l) ==> run[l].queue != []
    ensures forall l :: j < l <= k && IdleRuns.IsPop(EffectsOf(sys, run, acts)[l]) ==> CachesOf(run)[l].queue != []
  {
    forall l | j < l <= k && IdleRuns.IsPop(EffectsOf(sys, run, acts)[l])
      ensures CachesOf(run)[l].queue != []
    {
      StepCounts(sys, run, acts, l);
    }
  }

  /** Under TimestampOrder, the batches taken within one queue cycle have ascending first timestamps. */
  lemma TakenAscend(sys: System, run: seq<State>, acts: seq<Action>, j: nat, k: nat)
    requires StrategyRun(WriteOut.TimestampOrder, sys, run, acts) && j < k < |acts|
    requires Popping(sys, run, acts, j) && Popping(sys, run, acts, k)
    requires forall l :: j < l <= k && Popping(sys, run, acts, l) ==> run[l].queue != []
    ensures run[j + 1].held.Some? && run[k + 1].held.Some?
    ensures var earlier, later := Data(run[j + 1].heap, run[j + 1].held.value),
                Data(run[k + 1].heap, run[k + 1].held.value);
            earlier != [] && later != [] && earlier[0].timestamp <= later[0].timestamp
  {
    var ss, es := CachesOf(run), EffectsOf(sys, run, acts);
    RunRefines(WriteOut.TimestampOrder, sys, run, acts);
    TakenFirst(WriteOut.TimestampOrder, sys, run, acts, j);
    TakenFirst(WriteOut.TimestampOrder, sys, run, acts, k);
    PoppingIsPop(sys, run, acts, j);
    PoppingIsPop(sys, run, acts, k);
    SameCycle(sys, run, acts, j, k);
    IdleRuns.ReturnsAscend(ss, es, j, k);
  }

  // ---- Longest first ----

  /** Under MaximumLength, a rebuild is followed by the longest entry of the cache. */
  lemma LongestIsTaken(sys: System, run: seq<State>, acts: seq<Action>, r: nat)
    requires StrategyRun(WriteOut.MaximumLength, sys, run, acts) && r < |acts|
    requires Popping(sys, run, acts, r) && run[r].queue == []
    ensures run[r + 1].held.Some?
    ensures forall m :: m in run[r].data ==>
              |Data(run[r].heap, run[r].data[m])| <= |Data(run[r].heap, run[r + 1].held.value)|
  {
    PopTakes(sys, run, acts, r);
    RunStep(WriteOut.MaximumLength, sys, run, acts, r);
    RunRefines(WriteOut.MaximumLength, sys, run, acts);
    IdleRuns.StaysOk(WriteOut.MaximumLength, CachesOf(run), EffectsOf(sys, run, acts), r);
    PoppingIsPop(sys, run, acts, r);
    WriteOut.LongestFirst(StoreOf(run[r]), OpOf(sys, run[r], acts[r]).value, StoreOf(run[r + 1]));
    forall m | m in run[r].data
      ensures |Data(run[r].heap, run[r].data[m])| <= |Data(run[r].heap, run[r + 1].held.value)|
    {
      assert m in EntriesOf(run[r]);
    }
  }

  /** And then, until the next rebuild, never by a longer one than before, as long as they were at the rebuild. */
  lemma TakenDescend(sys: System, run: seq<State>, acts: seq<Action>, r: nat, i: nat, j: nat)
    requires StrategyRun(WriteOut.MaximumLength, sys, run, acts) && r <= i < j < |acts| && run[r].queue == []
    requires Popping(sys, run, acts, r) && Popping(sys, run, acts, i) && Popping(sys, run, acts, j)
    requires forall l :: r < l <= j && Popping(sys, run, acts, l) ==> run[l].queue != []
    ensures run[i + 1].held.Some? && run[j + 1].held.Some?
    ensures var a, b, data := run[i + 1].held.value.metric, run[j + 1].held.value.metric, run[r].data;
            a in data && b in data && |Data(run[r].heap, data[a])| >= |Data(run[r].heap, data[b])|
  {
    PopTakes(sys, run, acts, i);
    PopTakes(sys, run, acts, j);
    RunRefines(WriteOut.MaximumLength, sys, run, acts);
    PoppingIsPop(sys, run, acts, r);
    PoppingIsPop(sys, run, acts, i);
    PoppingIsPop(sys, run, acts, j);
    SameCycle(sys, run, acts, r, j);
    IdleRuns.ReturnsDescend(CachesOf(run), EffectsOf(sys, run, acts), r, i, j);
  }

  // ---- The size limit ----

  /** A message is accepted only while the counter is below `maxSize`, and has at most `longest` points. */
  ghost predicate Limited(maxSize: nat, longest: nat, sys: System, run: seq<State>, acts: seq<Action>)
    requires |run| == |acts| + 1
  {
    forall k :: 0 <= k < |acts| && OpOf(sys, run[k], acts[k]).Some? && OpOf(sys, run[k], acts[k]).value.AddOp? ==>
      && Wrap32(WriteOut.Total(EntriesOf(run[k]))) < maxSize
      && |OpOf(sys, run[k], acts[k]).value.points| <= longest
  }

  /** Then the cache never holds `maxSize` points plus the longest message. */
  lemma CacheStaysBelow(maxSize: nat, longest: nat, sys: System, run: seq<State>, acts: seq<Action>, i: nat)
    requires IsRun(sys, run, acts) && Filled(acts) && i < |run| && maxSize > 0
    requires maxSize + longest <= TWO_TO_THE_32 && Limited(maxSize, longest, sys, run, acts)
    ensures WriteOut.Total(EntriesOf(run[i])) < maxSize + longest
  {
    RunRefines(WriteOut.Noop, sys, run, acts);
    IdleRuns.LimitHolds(WriteOut.Noop, maxSize, longest, CachesOf(run), EffectsOf(sys, run, acts), i);
  }
}
