/**
  Runs of Adds and Pops with idle steps in between, in which something else happens. Without the idle
  steps they are runs of `WriteOut`, whose theorems then speak about the steps that are left.
 */
module IdleRuns {
  import opened Arithmetic
  import opened Points
  import opened WriteOut

  type Effect = Option<Op>

  /** From each cache to the next one, the effect is an Add or a Pop, or nothing changes. */
  ghost predicate IsIdleRun(strategy: Strategy, ss: seq<Store>, es: seq<Effect>) {
    && |ss| == |es| + 1
    && StoreOk(ss[0])
    && forall k :: 0 <= k < |es| ==> Moves(strategy, ss[k], es[k], ss[k + 1])
  }

  ghost predicate Moves(strategy: Strategy, s: Store, e: Effect, t: Store) {
    match e case None => t == s case Some(op) => Next(strategy, s, op, t)
  }

  lemma {:induction false} StaysOk(strategy: Strategy, ss: seq<Store>, es: seq<Effect>, k: nat)
    requires IsIdleRun(strategy, ss, es) && k < |ss|
    ensures StoreOk(ss[k])
  {
    if k > 0 {
      StaysOk(strategy, ss, es, k - 1);
      assert Moves(strategy, ss[k - 1], es[k - 1], ss[k]);
      if es[k - 1].Some? { NextKeeps(strategy, ss[k - 1], es[k - 1].value, ss[k]); }
    }
  }

  // ---- Without the idle steps ----

  /** The steps from `i` up to `j` that are not idle, in order. */
  function Busy(es: seq<Effect>, i: nat, j: nat): (ks: seq<nat>)
    requires i <= j <= |es|
    ensures forall x :: 0 <= x < |ks| ==> i <= ks[x] < j
    decreases j - i
  {
    if i == j then []
    else if es[i].Some? then [i] + Busy(es, i + 1, j)
    else Busy(es, i + 1, j)
  }

  /** What they do. */
  function OpsIn(es: seq<Effect>, i: nat, j: nat): seq<Op>
    requires i <= j <= |es|
    decreases j - i
  {
    if i == j then []
    else if es[i].Some? then [es[i].value] + OpsIn(es, i + 1, j)
    else OpsIn(es, i + 1, j)
  }

  /** The cache before each of them, and at the end. */
  function StoresIn(ss: seq<Store>, es: seq<Effect>, i: nat, j: nat): seq<Store>
    requires |ss| == |es| + 1 && i <= j <= |es|
    decreases j - i
  {
    if i == j then [ss[j]]
    else if es[i].Some? then [ss[i]] + StoresIn(ss, es, i + 1, j)
    else StoresIn(ss, es, i + 1, j)
  }

  lemma {:induction false} Lengths(ss: seq<Store>, es: seq<Effect>, i: nat, j: nat)
    requires |ss| == |es| + 1 && i <= j <= |es|
    ensures |OpsIn(es, i, j)| == |Busy(es, i, j)| && |StoresIn(ss, es, i, j)| == |Busy(es, i, j)| + 1
    ensures StoresIn(ss, es, i, j)[|Busy(es, i, j)|] == ss[j]
    decreases j - i
  {
    if i < j { Lengths(ss, es, i + 1, j); }
  }

  /** The `x`-th step that is not idle. */
  lemma {:induction false} BusyAt(ss: seq<Store>, es: seq<Effect>, i: nat, j: nat, x: nat)
    requires |ss| == |es| + 1 && i <= j <= |es| && x < |Busy(es, i, j)|
    requires |OpsIn(es, i, j)| == |Busy(es, i, j)| && |StoresIn(ss, es, i, j)| == |Busy(es, i, j)| + 1
    ensures var k := Busy(es, i, j)[x];
            es[k].Some? && OpsIn(es, i, j)[x] == es[k].value && StoresIn(ss, es, i, j)[x] == ss[k]
    decreases j - i
  {
    Lengths(ss, es, i + 1, j);
    if es[i].None? {
      BusyAt(ss, es, i + 1, j, x);
    } else if x > 0 {
      BusyAt(ss, es, i + 1, j, x - 1);
    }
  }

  lemma {:induction false} BusyAscends(es: seq<Effect>, i: nat, j: nat, x: nat, y: nat)
    requires i <= j <= |es| && x < y < |Busy(es, i, j)|
    ensures Busy(es, i, j)[x] < Busy(es, i, j)[y]
    decreases j - i
  {
    if es[i].None? {
      BusyAscends(es, i + 1, j, x, y);
    } else if x > 0 {
      BusyAscends(es, i + 1, j, x - 1, y - 1);
    }
  }

  lemma {:induction false} BusyHas(es: seq<Effect>, i: nat, j: nat, k: nat) returns (x: nat)
    requires i <= k < j <= |es| && es[k].Some?
    ensures x < |Busy(es, i, j)| && Busy(es, i, j)[x] == k
    decreases j - i
  {
    if k == i {
      x := 0;
    } else {
      x := BusyHas(es, i + 1, j, k);
      x := x + if es[i].Some? then 1 else 0;
    }
  }

  lemma RunFirst(strategy: Strategy, s: Store, op: Op, ss: seq<Store>, ops: seq<Op>)
    requires StoreOk(s) && IsRun(strategy, ss, ops) && Next(strategy, s, op, ss[0])
    ensures IsRun(strategy, [s] + ss, [op] + ops)
  {
    var longer := [op] + ops;
    forall x {:trigger longer[x]} | 0 <= x < |longer|
      ensures Next(strategy, ([s] + ss)[x], longer[x], ([s] + ss)[x + 1])
    {
      if x > 0 { assert longer[x] == ops[x - 1]; }
    }
  }

  /** Without its idle steps, any stretch is a run of Adds and Pops. */
  lemma {:induction false} BusyIsRun(strategy: Strategy, ss: seq<Store>, es: seq<Effect>, i: nat, j: nat)
    requires IsIdleRun(strategy, ss, es) && i <= j <= |es|
    ensures IsRun(strategy, StoresIn(ss, es, i, j), OpsIn(es, i, j)) && StoresIn(ss, es, i, j)[0] == ss[i]
    decreases j - i
  {
    StaysOk(strategy, ss, es, i);
    if i < j {
      BusyIsRun(strategy, ss, es, i + 1, j);
      assert Moves(strategy, ss[i], es[i], ss[i + 1]);
      if es[i].Some? { RunFirst(strategy, ss[i], es[i].value, StoresIn(ss, es, i + 1, j), OpsIn(es, i + 1, j)); }
    }
  }

  // ---- What the theorems say about the steps ----

  predicate IsPop(e: Effect) {
    e.Some? && e.value.PopOp?
  }

  /** The step returns the metric. */
  predicate Pops(e: Effect, m: Metric) {
    e.Some? && Returned(e.value) == Some(m)
  }

  /** The number of Pops from step `i` up to `j`. */
  function PopCount(es: seq<Effect>, i: nat, j: nat): nat
    requires i <= j <= |es|
    decreases j - i
  {
    if i == j then 0 else (if IsPop(es[i]) then 1 else 0) + PopCount(es, i + 1, j)
  }

  /** The number of entries when the queue is first rebuilt from step `i` up to `j`, or 0 if it is not. */
  function RebuildCount(ss: seq<Store>, es: seq<Effect>, i: nat, j: nat): nat
    requires |ss| == |es| + 1 && i <= j <= |es|
    decreases j - i
  {
    if i == j then 0
    else if IsPop(es[i]) && ss[i].queue == [] then |es[i].value.queue|
    else RebuildCount(ss, es, i + 1, j)
  }

  lemma {:induction false} CountsOfBusy(ss: seq<Store>, es: seq<Effect>, i: nat, j: nat)
    requires |ss| == |es| + 1 && i <= j <= |es|
    ensures |StoresIn(ss, es, i, j)| == |OpsIn(es, i, j)| + 1
    ensures WriteOut.Pops(OpsIn(es, i, j)) == PopCount(es, i, j)
    ensures FirstRebuild(StoresIn(ss, es, i, j), OpsIn(es, i, j)) == RebuildCount(ss, es, i, j)
    decreases j - i
  {
    if i < j {
      CountsOfBusy(ss, es, i + 1, j);
      if es[i].Some? {
        assert OpsIn(es, i, j)[1..] == OpsIn(es, i + 1, j);
        assert StoresIn(ss, es, i, j)[1..] == StoresIn(ss, es, i + 1, j);
      }
    }
  }

  lemma {:induction false} NotReturned(es: seq<Effect>, i: nat, j: nat, m: Metric)
    requires i <= j <= |es| && forall k :: i <= k < j ==> !Pops(es[k], m)
    ensures forall x :: 0 <= x < |OpsIn(es, i, j)| ==> Returned(OpsIn(es, i, j)[x]) != Some(m)
    decreases j - i
  {
    if i < j {
      NotReturned(es, i + 1, j, m);
      assert !Pops(es[i], m);
    }
  }

  /** An entry at position `x` of the queue is returned within |queue| - x Pops. */
  lemma QueuedIsReturned(strategy: Strategy, ss: seq<Store>, es: seq<Effect>, i: nat, j: nat, x: nat)
    requires IsIdleRun(strategy, ss, es) && i <= j <= |es| && x < |ss[i].queue|
    requires PopCount(es, i, j) >= |ss[i].queue| - x
    ensures exists k :: i <= k < j && Pops(es[k], ss[i].queue[x])
  {
    if forall k :: i <= k < j ==> !Pops(es[k], ss[i].queue[x]) {
      NotReturned(es, i, j, ss[i].queue[x]);
      BusyIsRun(strategy, ss, es, i, j);
      CountsOfBusy(ss, es, i, j);
      QueuedIsPopped(strategy, StoresIn(ss, es, i, j), OpsIn(es, i, j), ss[i].queue[x], x);
    }
  }

  /** A cached metric is returned within |queue| Pops plus the entries at the next rebuild. */
  lemma CachedIsReturned(strategy: Strategy, ss: seq<Store>, es: seq<Effect>, i: nat, j: nat, m: Metric)
    requires IsIdleRun(strategy, ss, es) && i <= j <= |es| && m in ss[i].points
    requires PopCount(es, i, j) >= |ss[i].queue| + Max(1, RebuildCount(ss, es, i, j))
    ensures exists k :: i <= k < j && Pops(es[k], m)
  {
    if forall k :: i <= k < j ==> !Pops(es[k], m) {
      NotReturned(es, i, j, m);
      BusyIsRun(strategy, ss, es, i, j);
      CountsOfBusy(ss, es, i, j);
      EveryEntryIsPopped(strategy, StoresIn(ss, es, i, j), OpsIn(es, i, j), m);
    }
  }

  /** Between two busy steps, all Pops take from a queue that is there. */
  lemma CycleOfBusy(ss: seq<Store>, es: seq<Effect>, n: nat, x: nat, y: nat, z: nat)
    requires |ss| == |es| + 1 && n <= |es| && x < z <= y < |Busy(es, 0, n)|
    requires |OpsIn(es, 0, n)| == |Busy(es, 0, n)| && |StoresIn(ss, es, 0, n)| == |Busy(es, 0, n)| + 1
    requires forall l :: Busy(es, 0, n)[x] < l <= Busy(es, 0, n)[y] && IsPop(es[l]) ==> ss[l].queue != []
    requires OpsIn(es, 0, n)[z].PopOp?
    ensures StoresIn(ss, es, 0, n)[z].queue != []
  {
    BusyAt(ss, es, 0, n, z);
    BusyAscends(es, 0, n, x, z);
    if z < y { BusyAscends(es, 0, n, z, y); }
    assert IsPop(es[Busy(es, 0, n)[z]]);
  }

  /** Under TimestampOrder, what is returned within one queue cycle has ascending first timestamps. */
  lemma ReturnsAscend(ss: seq<Store>, es: seq<Effect>, j: nat, k: nat)
    requires IsIdleRun(TimestampOrder, ss, es) && ss[0].queue == [] && j < k < |es| && IsPop(es[j]) && IsPop(es[k])
    requires forall l :: j < l <= k && IsPop(es[l]) ==> ss[l].queue != []
    ensures Returned(es[j].value).Some? && Returned(es[k].value).Some?
    ensures FirstTimestamp(ss[j].points, Returned(es[j].value).value)
         <= FirstTimestamp(ss[k].points, Returned(es[k].value).value)
  {
    var n := |es|;
    var x := BusyHas(es, 0, n, j);
    var y := BusyHas(es, 0, n, k);
    Lengths(ss, es, 0, n);
    BusyAt(ss, es, 0, n, x);
    BusyAt(ss, es, 0, n, y);
    if y < x { BusyAscends(es, 0, n, y, x); }
    BusyIsRun(TimestampOrder, ss, es, 0, n);
    forall z | x < z <= y && OpsIn(es, 0, n)[z].PopOp?
      ensures StoresIn(ss, es, 0, n)[z].queue != []
    {
      CycleOfBusy(ss, es, n, x, y, z);
    }
    TimestampsAscend(StoresIn(ss, es, 0, n), OpsIn(es, 0, n), x, y);
  }

  /** Under MaximumLength, by the lengths at the rebuild, what is returned in a cycle does not get longer. */
  lemma ReturnsDescend(ss: seq<Store>, es: seq<Effect>, r: nat, i: nat, j: nat)
    requires IsIdleRun(MaximumLength, ss, es) && r <= i < j < |es| && ss[r].queue == []
    requires IsPop(es[r]) && IsPop(es[i]) && IsPop(es[j])
    requires forall l :: r < l <= j && IsPop(es[l]) ==> ss[l].queue != []
    ensures Returned(es[i].value).Some? && Returned(es[j].value).Some?
    ensures Returned(es[i].value).value in ss[r].points && Returned(es[j].value).value in ss[r].points
    ensures |ss[r].points[Returned(es[i].value).value]| >= |ss[r].points[Returned(es[j].value).value]|
  {
    var n := |es|;
    var w := BusyHas(es, 0, n, r);
    var x := BusyHas(es, 0, n, i);
    var y := BusyHas(es, 0, n, j);
    Lengths(ss, es, 0, n);
    BusyAt(ss, es, 0, n, w);
    BusyAt(ss, es, 0, n, x);
    BusyAt(ss, es, 0, n, y);
    if x < w { BusyAscends(es, 0, n, x, w); }
    if y < x { BusyAscends(es, 0, n, y, x); }
    BusyIsRun(MaximumLength, ss, es, 0, n);
    forall z | w < z <= y && OpsIn(es, 0, n)[z].PopOp?
      ensures StoresIn(ss, es, 0, n)[z].queue != []
    {
      CycleOfBusy(ss, es, n, w, y, z);
    }
    LengthsDescend(StoresIn(ss, es, 0, n), OpsIn(es, 0, n), w, x, y);
  }

  /** With a limit that every Add respects, the cache stays below it plus the longest message. */
  lemma LimitHolds(strategy: Strategy, maxSize: nat, longest: nat, ss: seq<Store>, es: seq<Effect>, i: nat)
    requires IsIdleRun(strategy, ss, es) && ss[0].points == map[] && maxSize > 0 && i < |ss|
    requires maxSize + longest <= TWO_TO_THE_32
    requires forall k :: 0 <= k < |es| && es[k].Some? && es[k].value.AddOp? ==>
               Wrap32(Total(ss[k].points)) < maxSize && |es[k].value.points| <= longest
    ensures Total(ss[i].points) < maxSize + longest
  {
    var at, ops := StoresIn(ss, es, 0, i), OpsIn(es, 0, i);
    BusyIsRun(strategy, ss, es, 0, i);
    Lengths(ss, es, 0, i);
    forall x | 0 <= x < |ops| && ops[x].AddOp?
      ensures Wrap32(Total(at[x].points)) < maxSize && |ops[x].points| <= longest
    {
      BusyAt(ss, es, 0, i, x);
    }
    SizeStaysBelow(strategy, maxSize, longest, at, ops, |ops|);
  }
}
