/** Laying cached points on a time grid: fetchCachedData (carbonserver/carbonserver.go). */
module CachedData {
  import opened Arithmetic
  import opened Points

  /** A grid slot: a value, or the NaN of a slot that no point fills. */
  type Slot = Option<Bits>

  // ---- What the grid should hold ----

  /** The value of the first of the first `n` points that has timestamp `t`. */
  function FirstAt(data: seq<Point>, n: nat, t: int): Slot
    requires n <= |data|
  {
    if n == 0 then None
    else match FirstAt(data, n - 1, t)
      case Some(v) => Some(v)
      case None => if data[n - 1].timestamp == t then Some(data[n - 1].value) else None
  }

  /** Positive, non-decreasing timestamps that are multiples of the step and fit int32. */
  ghost predicate Aligned(data: seq<Point>, step: int)
    requires step > 0
  {
    && (forall i :: 0 <= i < |data| ==> 0 < data[i].timestamp < 0x8000_0000 && data[i].timestamp % step == 0)
    && (forall i, j :: 0 <= i < j < |data| ==> data[i].timestamp <= data[j].timestamp)
  }

  /** The points with an index below `n` and a timestamp in the range start at `first` and end at `last`. */
  ghost predicate RangeIs(data: seq<Point>, n: nat, from: int, until: int, first: int, last: int)
    requires n <= |data|
  {
    && (exists i :: 0 <= i < n && data[i].timestamp == first)
    && (exists i :: 0 <= i < n && data[i].timestamp == last)
    && from <= first && last <= until
    && forall i :: 0 <= i < n && from <= data[i].timestamp <= until ==> first <= data[i].timestamp <= last
  }

  ghost predicate NoneInRange(data: seq<Point>, n: nat, from: int, until: int)
    requires n <= |data|
  {
    forall i :: 0 <= i < n ==> !(from <= data[i].timestamp <= until)
  }

  /** The NaNs put between two timestamps. */
  function Gap(prev: int, ts: int, step: int): nat
    requires step > 0
  {
    if ts - prev > step && (ts - prev) / step > 1 then (ts - prev) / step - 1 else 0
  }

  /** The NaNs that points beyond the range add: each fills the gap from the last point in range again. */
  function Excess(data: seq<Point>, n: nat, until: int, last: int, step: int): nat
    requires n <= |data| && step > 0
  {
    if n == 0 then 0
    else Excess(data, n - 1, until, last, step)
         + (if data[n - 1].timestamp > until then Gap(last, data[n - 1].timestamp, step) else 0)
  }

  /** `slots` grid entries from `first` to `last`, then nothing but NaN. */
  ghost predicate IsGrid(data: seq<Point>, n: nat, first: int, last: int, step: int, slots: nat, values: seq<Slot>)
    requires n <= |data|
  {
    && 0 < slots <= |values| && last == first + (slots - 1) * step
    && (forall k :: 0 <= k < slots ==> values[k] == FirstAt(data, n, first + k * step))
    && (forall k :: slots <= k < |values| ==> values[k] == None)
  }

  // ---- Steps of the loop ----

  function Slots(first: int, last: int, step: int): int
    requires step > 0
  {
    (last - first) / step + 1
  }

  /** What the loop has laid out after `n` points. */
  ghost predicate Laid(data: seq<Point>, n: nat, from: int, until: int, step: int,
                       values: seq<Slot>, prevTs: int, first: int, last: int)
    requires n <= |data| && step > 0
  {
    if prevTs == 0 then
      NoneInRange(data, n, from, until) && values == [] && first == 0 && last == 0
    else
      && RangeIs(data, n, from, until, first, last) && last == prevTs && Slots(first, last, step) > 0
      && IsGrid(data, n, first, last, step, Slots(first, last, step), values)
      && |values| == Slots(first, last, step) + Excess(data, n, until, last, step)
  }

  lemma {:induction false} FirstAtNone(data: seq<Point>, n: nat, t: int)
    requires n <= |data| && forall i :: 0 <= i < n ==> data[i].timestamp != t
    ensures FirstAt(data, n, t) == None
  {
    if n > 0 { FirstAtNone(data, n - 1, t); }
  }

  lemma {:induction false} FirstAtSome(data: seq<Point>, n: nat, t: int, i: nat)
    requires i < n <= |data| && data[i].timestamp == t
    ensures FirstAt(data, n, t).Some?
  {
    if i < n - 1 { FirstAtSome(data, n - 1, t, i); }
  }

  lemma {:induction false} NoExcess(data: seq<Point>, n: nat, until: int, last: int, step: int)
    requires n <= |data| && step > 0 && forall i :: 0 <= i < n ==> data[i].timestamp <= until
    ensures Excess(data, n, until, last, step) == 0
  {
    if n > 0 { NoExcess(data, n - 1, until, last, step); }
  }

  /** The difference of two multiples of the step. */
  lemma Difference(t: int, u: int, step: int)
    requires step > 0 && t % step == 0 && u % step == 0 && t < u
    ensures u - t == ((u - t) / step) * step && (u - t) / step >= 1
  {
    var a, b, q := t / step, u / step, (u - t) / step;
    assert t == a * step && u == b * step;
    assert u - t == (b - a) * step;
    assert u - t == q * step + (u - t) % step && 0 <= (u - t) % step < step;
    MulMono(b - a, q, step);
    MulMono(q, b - a, step);
    if q < 1 { MulMono(q, 1, step); }
  }

  lemma SlotsMore(first: int, last: int, d: nat, step: int)
    requires step > 0
    ensures Slots(first, last + d * step, step) == Slots(first, last, step) + d
  {
    var n, q, q' := last - first, (last - first) / step, (last - first + d * step) / step;
    assert n == q * step + n % step;
    assert n + d * step == q' * step + (n + d * step) % step;
    assert (q + d) * step == q * step + d * step;
    MulMono(q + d, q', step);
    MulMono(q', q + d, step);
  }

  /** A point before the range. */
  lemma BeforeRange(data: seq<Point>, n: nat, from: int, until: int, step: int)
    requires n < |data| && step > 0 && Laid(data, n, from, until, step, [], 0, 0, 0)
    requires !(from <= data[n].timestamp <= until)
    ensures Laid(data, n + 1, from, until, step, [], 0, 0, 0)
  {
  }

  /** The first point in the range. */
  lemma FirstInRange(data: seq<Point>, n: nat, from: int, until: int, step: int)
    requires n < |data| && step > 0 && Aligned(data, step) && Laid(data, n, from, until, step, [], 0, 0, 0)
    requires from <= data[n].timestamp <= until
    ensures var ts := data[n].timestamp; Laid(data, n + 1, from, until, step, [Some(data[n].value)], ts, ts, ts)
  {
    var ts := data[n].timestamp;
    FirstAtNone(data, n, ts);
    NoExcess(data, n, until, ts, step);
    assert ts + 0 * step == ts;
  }

  /** A point with the last timestamp: the first value stays. */
  lemma SameTimestamp(data: seq<Point>, n: nat, from: int, until: int, step: int,
                      values: seq<Slot>, first: int, last: int)
    requires n < |data| && step > 0 && Laid(data, n, from, until, step, values, last, first, last)
    requires last != 0 && data[n].timestamp == last
    ensures Laid(data, n + 1, from, until, step, values, last, first, last)
  {
    var slots := Slots(first, last, step);
    forall k | 0 <= k < slots
      ensures FirstAt(data, n + 1, first + k * step) == FirstAt(data, n, first + k * step)
    {
      if first + k * step == last {
        var i :| 0 <= i < n && data[i].timestamp == last;
        FirstAtSome(data, n, last, i);
      }
    }
  }

  function NaNs(n: nat): seq<Slot> {
    seq(n, _ => None)
  }

  /** A point beyond the range: only NaNs are added. */
  lemma BeyondRange(data: seq<Point>, n: nat, from: int, until: int, step: int,
                    values: seq<Slot>, first: int, last: int)
    requires n < |data| && step > 0 && Laid(data, n, from, until, step, values, last, first, last)
    requires last != 0 && data[n].timestamp > until
    ensures Laid(data, n + 1, from, until, step, values + NaNs(Gap(last, data[n].timestamp, step)), last, first, last)
  {
    var slots := Slots(first, last, step);
    forall k | 0 <= k < slots
      ensures FirstAt(data, n + 1, first + k * step) == FirstAt(data, n, first + k * step)
    {
      MulMono(k, slots - 1, step);
    }
  }

  /** Slot `k` of the grid that a later point makes longer. */
  lemma LongerSlot(data: seq<Point>, n: nat, first: int, last: int, step: int, slots: nat, d: nat, k: nat)
    requires n < |data| && step > 0 && 0 < slots && last == first + (slots - 1) * step
    requires forall j :: 0 <= j < n ==> data[j].timestamp <= last
    requires d >= 1 && data[n].timestamp == first + (slots + d - 1) * step && k < slots + d
    ensures FirstAt(data, n + 1, first + k * step) ==
            if k < slots then FirstAt(data, n, first + k * step)
            else if k == slots + d - 1 then Some(data[n].value) else None
  {
    MulMono(k, slots + d - 1, step);
    if k >= slots {
      MulMono(slots - 1, k, step);
      FirstAtNone(data, n, first + k * step);
    }
  }

  lemma LongerGrid(data: seq<Point>, n: nat, first: int, last: int, step: int, slots: nat, d: nat, values: seq<Slot>)
    requires n < |data| && step > 0 && IsGrid(data, n, first, last, step, slots, values) && |values| == slots
    requires forall j :: 0 <= j < n ==> data[j].timestamp <= last
    requires d >= 1 && data[n].timestamp == last + d * step
    ensures IsGrid(data, n + 1, first, data[n].timestamp, step, slots + d, values + NaNs(d - 1) + [Some(data[n].value)])
  {
    var longer := values + NaNs(d - 1) + [Some(data[n].value)];
    assert (slots - 1 + d) * step == (slots - 1) * step + d * step;
    forall k | 0 <= k < slots + d
      ensures longer[k] == FirstAt(data, n + 1, first + k * step)
    {
      LongerSlot(data, n, first, last, step, slots, d, k);
    }
  }

  lemma GapIs(prev: int, ts: int, step: int, d: int)
    requires step > 0 && d >= 1 && ts - prev == d * step && (ts - prev) / step == d
    ensures Gap(prev, ts, step) == d - 1
  {
    MulMono(1, d, step);
  }

  /** A later point in the range: the gap is filled and the grid gets longer. */
  lemma LaterInRange(data: seq<Point>, n: nat, from: int, until: int, step: int,
                     values: seq<Slot>, first: int, last: int)
    requires n < |data| && step > 0 && Aligned(data, step)
    requires Laid(data, n, from, until, step, values, last, first, last)
    requires last != 0 && last < data[n].timestamp <= until
    ensures var ts := data[n].timestamp;
            Laid(data, n + 1, from, until, step,
                 values + NaNs(Gap(last, ts, step)) + [Some(data[n].value)], ts, first, ts)
  {
    var ts, slots := data[n].timestamp, Slots(first, last, step);
    var d := (ts - last) / step;
    Difference(last, ts, step);
    SlotsMore(first, last, d, step);
    NoExcess(data, n, until, last, step);
    NoExcess(data, n, until, ts, step);
    GapIs(last, ts, step, d);
    assert forall j :: 0 <= j < n ==> data[j].timestamp <= last;
    LongerGrid(data, n, first, last, step, slots, d, values);
  }

  // ---- The loop body, on a record of its variables ----

  datatype Layout = Layout(values: seq<Slot>, prevTs: int, first: int, last: int)

  /** The gap in int32 arithmetic. */
  function Fills(prev: int, ts: int, step: int): nat
    requires step > 0
  {
    var diff := Int32(ts - prev);
    if diff > step && Int32(diff / step - 1) > 0 then Int32(diff / step - 1) else 0
  }

  lemma QuotientRange(n: int, step: int)
    requires n >= step > 0
    ensures 1 <= n / step <= n
  {
    var q := n / step;
    assert n == q * step + n % step && 0 <= n % step < step;
    if q < 1 { MulMono(q, 1, step); }
    if q > n { MulMono(n, q, step); MulMono(1, step, n); }
  }

  lemma FillsIsGap(prev: int, ts: int, step: int)
    requires step > 0 && 0 <= prev <= ts < 0x8000_0000
    ensures Fills(prev, ts, step) == Gap(prev, ts, step)
  {
    if ts - prev > step { QuotientRange(ts - prev, step); }
  }

  function After(l: Layout, p: Point, from: int, until: int, step: int): Layout
    requires step > 0
  {
    var ts := Int32(p.timestamp);
    var filled := if l.prevTs != 0 then l.values + NaNs(Fills(l.prevTs, ts, step)) else l.values;
    if ts > until || ts < from || l.prevTs == ts then l.(values := filled)
    else Layout(filled + [Some(p.value)], ts,
                if l.first == 0 then ts else Min(l.first, ts), if l.last == 0 then ts else Max(l.last, ts))
  }

  ghost predicate IsLaid(data: seq<Point>, n: nat, from: int, until: int, step: int, l: Layout)
    requires n <= |data| && step > 0
  {
    Laid(data, n, from, until, step, l.values, l.prevTs, l.first, l.last)
  }

  /** Without wrap-around, and with an earlier point in range. */
  lemma AfterIs(l: Layout, p: Point, from: int, until: int, step: int)
    requires step > 0 && from <= l.first <= l.prevTs == l.last && 0 < l.first && l.prevTs <= p.timestamp < 0x8000_0000
    ensures var ts, filled := p.timestamp, l.values + NaNs(Gap(l.prevTs, p.timestamp, step));
            After(l, p, from, until, step) ==
            if ts > until then l.(values := filled)
            else if ts == l.prevTs then l
            else Layout(filled + [Some(p.value)], ts, l.first, ts)
  {
    FillsIsGap(l.prevTs, p.timestamp, step);
    assert l.values + NaNs(0) == l.values;
  }

  lemma StepBefore(data: seq<Point>, n: nat, from: int, until: int, step: int, l: Layout)
    requires n < |data| && step > 0 && Aligned(data, step) && IsLaid(data, n, from, until, step, l) && l.prevTs == 0
    ensures IsLaid(data, n + 1, from, until, step, After(l, data[n], from, until, step))
  {
    if from <= data[n].timestamp <= until {
      FirstInRange(data, n, from, until, step);
      assert [] + [Some(data[n].value)] == [Some(data[n].value)];
    } else {
      BeforeRange(data, n, from, until, step);
    }
  }

  lemma StepKeeps(data: seq<Point>, n: nat, from: int, until: int, step: int, l: Layout, next: Layout)
    requires n < |data| && step > 0 && Aligned(data, step) && IsLaid(data, n, from, until, step, l)
    requires next == After(l, data[n], from, until, step)
    ensures IsLaid(data, n + 1, from, until, step, next)
  {
    var ts := data[n].timestamp;
    if l.prevTs == 0 {
      StepBefore(data, n, from, until, step, l);
    } else {
      AfterIs(l, data[n], from, until, step);
      if ts > until {
        BeyondRange(data, n, from, until, step, l.values, l.first, l.last);
      } else if ts == l.prevTs {
        SameTimestamp(data, n, from, until, step, l.values, l.first, l.last);
      } else {
        LaterInRange(data, n, from, until, step, l.values, l.first, l.last);
      }
    }
  }

  /** The loop's variables before the first point and after each one. */
  ghost predicate IsTrace(data: seq<Point>, from: int, until: int, step: int, trace: seq<Layout>)
    requires step > 0
  {
    && |trace| == |data| + 1 && trace[0] == Layout([], 0, 0, 0)
    && forall i {:trigger data[i]} :: 0 <= i < |data| ==> trace[i + 1] == After(trace[i], data[i], from, until, step)
  }

  lemma NothingLaid(data: seq<Point>, from: int, until: int, step: int)
    requires step > 0
    ensures IsLaid(data, 0, from, until, step, Layout([], 0, 0, 0))
  {
  }

  lemma {:induction false} TraceIsLaid(data: seq<Point>, from: int, until: int, step: int, trace: seq<Layout>, n: nat)
    requires n <= |data| && step > 0 && Aligned(data, step) && IsTrace(data, from, until, step, trace)
    ensures IsLaid(data, n, from, until, step, trace[n])
  {
    if n == 0 {
      NothingLaid(data, from, until, step);
    } else {
      TraceIsLaid(data, from, until, step, trace, n - 1);
      StepKeeps(data, n - 1, from, until, step, trace[n - 1], trace[n]);
    }
  }

  /**
    What the caller gets: nothing if no point is in range; otherwise the first and the last timestamp in
    range, a grid from the one to the other, and then only the NaNs of points beyond the range.
   */
  ghost predicate GridResult(data: seq<Point>, from: int, until: int, step: int,
                             values: seq<Slot>, first: int, last: int)
    requires step > 0
  {
    if NoneInRange(data, |data|, from, until) then values == [] && first == 0 && last == 0
    else
      && RangeIs(data, |data|, from, until, first, last) && Slots(first, last, step) > 0
      && IsGrid(data, |data|, first, last, step, Slots(first, last, step), values)
      && |values| == Slots(first, last, step) + Excess(data, |data|, until, last, step)
  }

  lemma LaidIsGrid(data: seq<Point>, from: int, until: int, step: int, l: Layout)
    requires step > 0 && Aligned(data, step) && IsLaid(data, |data|, from, until, step, l)
    ensures GridResult(data, from, until, step, l.values, l.first, l.last)
  {
  }

  /** For aligned points the result is the grid of the points in range. */
  lemma GridIsComplete(data: seq<Point>, from: int, until: int, step: int, trace: seq<Layout>)
    requires step > 0 && Aligned(data, step) && IsTrace(data, from, until, step, trace)
    ensures var l := trace[|data|]; GridResult(data, from, until, step, l.values, l.first, l.last)
  {
    TraceIsLaid(data, from, until, step, trace, |data|);
    LaidIsGrid(data, from, until, step, trace[|data|]);
  }

  // ---- fetchCachedData ----

  /** The gap loop. */
  method FillGap(values: seq<Slot>, count: int) returns (filled: seq<Slot>)
    ensures filled == values + NaNs(if count > 0 then count else 0)
  {
    filled := values;
    var i := 0;
    while i < count
      invariant 0 <= i && (i <= count || i == 0)
      invariant filled == values + NaNs(i)
    {
      assert NaNs(i + 1) == NaNs(i) + [None];
      filled := filled + [None];
      i := i + 1;
    }
  }

  /** The loop body up to the gap. */
  method Fill(values: seq<Slot>, prevTs: int, ts: int, step: int) returns (filled: seq<Slot>)
    requires step > 0
    ensures filled == if prevTs != 0 then values + NaNs(Fills(prevTs, ts, step)) else values
  {
    filled := values;
    assert values + NaNs(0) == values;
    if prevTs != 0 && Int32(ts - prevTs) > step {
      filled := FillGap(values, Int32(Int32(ts - prevTs) / step - 1));
    }
  }

  /** For all inputs, with the cuts to int32; for aligned points the result is the grid of the points in range. */
  method FetchCachedData(data: seq<Point>, from: int, until: int, step: int)
    returns (values: seq<Slot>, cacheFrom: int, cacheUntil: int, ghost trace: seq<Layout>)
    requires step > 0
    ensures Aligned(data, step) ==> GridResult(data, from, until, step, values, cacheFrom, cacheUntil)
    ensures IsTrace(data, from, until, step, trace)
    ensures values == trace[|data|].values && cacheFrom == trace[|data|].first && cacheUntil == trace[|data|].last
  {
    values, cacheFrom, cacheUntil := [], 0, 0;
    var prevTs := 0;
    trace := [Layout([], 0, 0, 0)];
    for n := 0 to |data|
      invariant IsTrace(data[..n], from, until, step, trace)
      invariant trace[n] == Layout(values, prevTs, cacheFrom, cacheUntil)
    {
      var ts := Int32(data[n].timestamp);
      values := Fill(values, prevTs, ts, step);
      if !(ts > until || ts < from || prevTs == ts) {
        prevTs := ts;
        values := values + [Some(data[n].value)];
        if cacheFrom == 0 || cacheFrom > ts {
          cacheFrom := ts;
        }
        if cacheUntil == 0 || cacheUntil < ts {
          cacheUntil := ts;
        }
      }
      LongerTrace(data, n, from, until, step, trace, Layout(values, prevTs, cacheFrom, cacheUntil));
      trace := trace + [Layout(values, prevTs, cacheFrom, cacheUntil)];
    }
    assert data[..|data|] == data;
    if Aligned(data, step) { GridIsComplete(data, from, until, step, trace); }
  }

  lemma LongerTrace(data: seq<Point>, n: nat, from: int, until: int, step: int, trace: seq<Layout>, next: Layout)
    requires n < |data| && step > 0 && IsTrace(data[..n], from, until, step, trace)
    requires next == After(trace[n], data[n], from, until, step)
    ensures IsTrace(data[..n + 1], from, until, step, trace + [next])
  {
    var longer := data[..n + 1];
    forall i {:trigger longer[i]} | 0 <= i < n + 1
      ensures (trace + [next])[i + 1] == After((trace + [next])[i], longer[i], from, until, step)
    {
      if i < n { assert data[..n][i] == longer[i]; }
    }
  }
}
