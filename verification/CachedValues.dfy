/**
  What fetchCachedData (carbonserver/carbonserver.go) does with points that are not on the time grid: which
  values it keeps, and what its bounds mean.
 */
module CachedValues {
  import opened Arithmetic
  import opened CachedData
  import opened Points

  ghost predicate InRange(p: Point, from: int, until: int) {
    from <= Int32(p.timestamp) <= until
  }

  /** The timestamp of the last point in the range, or 0: a repetition of it is what the loop leaves out. */
  ghost function LastIn(data: seq<Point>, n: nat, from: int, until: int): int
    requires n <= |data|
  {
    if n == 0 then 0
    else if InRange(data[n - 1], from, until) then Int32(data[n - 1].timestamp)
    else LastIn(data, n - 1, from, until)
  }

  lemma {:induction false} LastIs(data: seq<Point>, n: nat, from: int, until: int)
    requires n <= |data|
    ensures var r := LastIn(data, n, from, until);
            (r == 0 && forall j :: 0 <= j < n ==> !InRange(data[j], from, until))
            || exists i :: 0 <= i < n && InRange(data[i], from, until) && r == Int32(data[i].timestamp)
                           && forall j :: i < j < n ==> !InRange(data[j], from, until)
  {
    if n > 0 { LastIs(data, n - 1, from, until); }
  }

  /** The values of the points in the range whose timestamp is not that of the point in the range before. */
  ghost function Kept(data: seq<Point>, n: nat, from: int, until: int): seq<Bits>
    requires n <= |data|
  {
    if n == 0 then []
    else if InRange(data[n - 1], from, until) && Int32(data[n - 1].timestamp) != LastIn(data, n - 1, from, until)
    then Kept(data, n - 1, from, until) + [data[n - 1].value]
    else Kept(data, n - 1, from, until)
  }

  /** The values that are not NaN slots, in order. */
  ghost function Known(values: seq<Slot>): seq<Bits> {
    if values == [] then []
    else
      var before, slot := Known(values[..|values| - 1]), values[|values| - 1];
      if slot.Some? then before + [slot.value] else before
  }

  lemma {:induction false} KnownWithNaNs(values: seq<Slot>, n: nat)
    ensures Known(values + NaNs(n)) == Known(values)
  {
    if n == 0 {
      assert values + NaNs(0) == values;
    } else {
      assert (values + NaNs(n))[..|values| + n - 1] == values + NaNs(n - 1);
      KnownWithNaNs(values, n - 1);
    }
  }

  lemma KnownLast(values: seq<Slot>, v: Bits)
    ensures Known(values + [Some(v)]) == Known(values) + [v]
  {
    assert (values + [Some(v)])[..|values|] == values;
  }

  lemma AfterKnows(l: Layout, p: Point, from: int, until: int, step: int)
    requires step > 0
    ensures var next := After(l, p, from, until, step);
            if InRange(p, from, until) && Int32(p.timestamp) != l.prevTs
            then Known(next.values) == Known(l.values) + [p.value] && next.prevTs == Int32(p.timestamp)
            else Known(next.values) == Known(l.values) && next.prevTs == l.prevTs
  {
    var d := Fills(l.prevTs, Int32(p.timestamp), step);
    KnownWithNaNs(l.values, d);
    KnownLast(l.values + NaNs(d), p.value);
    KnownLast(l.values, p.value);
  }

  /** For all points: the values laid out are those of the kept points in order, with nothing but NaNs between. */
  lemma {:induction false} KnownAreKept(data: seq<Point>, from: int, until: int, step: int, trace: seq<Layout>, n: nat)
    requires n <= |data| && step > 0 && IsTrace(data, from, until, step, trace)
    ensures Known(trace[n].values) == Kept(data, n, from, until) && trace[n].prevTs == LastIn(data, n, from, until)
  {
    if n > 0 {
      KnownAreKept(data, from, until, step, trace, n - 1);
      TraceStep(data, from, until, step, trace, n - 1);
      AfterKnows(trace[n - 1], data[n - 1], from, until, step);
    }
  }

  /** The least and the greatest timestamp in a range behind second 0, or 0 twice. */
  ghost predicate Spans(data: seq<Point>, n: nat, from: int, until: int, first: int, last: int)
    requires n <= |data|
  {
    if forall i :: 0 <= i < n ==> !InRange(data[i], from, until) then first == 0 && last == 0
    else
      && (exists i :: 0 <= i < n && InRange(data[i], from, until) && Int32(data[i].timestamp) == first)
      && (exists i :: 0 <= i < n && InRange(data[i], from, until) && Int32(data[i].timestamp) == last)
      && forall i :: 0 <= i < n && InRange(data[i], from, until) ==> first <= Int32(data[i].timestamp) <= last
  }

  lemma SpanNext(data: seq<Point>, n: nat, from: int, until: int, first: int, last: int, some: bool)
    requires n < |data| && Spans(data, n, from, until, first, last) && InRange(data[n], from, until)
    requires some <==> exists i :: 0 <= i < n && InRange(data[i], from, until)
    ensures var ts := Int32(data[n].timestamp);
            Spans(data, n + 1, from, until, if some then Min(first, ts) else ts, if some then Max(last, ts) else ts)
  {
  }

  lemma SpanSame(data: seq<Point>, n: nat, from: int, until: int, first: int, last: int)
    requires n < |data| && Spans(data, n, from, until, first, last) && !InRange(data[n], from, until)
    ensures Spans(data, n + 1, from, until, first, last)
  {
  }

  /** The least timestamp in a range behind second 0, or 0 if no point is in the range. */
  ghost function LeastIn(data: seq<Point>, n: nat, from: int, until: int): int
    requires n <= |data|
  {
    if n == 0 then 0
    else
      var ts, before := Int32(data[n - 1].timestamp), LeastIn(data, n - 1, from, until);
      if !InRange(data[n - 1], from, until) then before else if before == 0 then ts else Min(before, ts)
  }

  ghost function GreatestIn(data: seq<Point>, n: nat, from: int, until: int): int
    requires n <= |data|
  {
    if n == 0 then 0
    else
      var ts, before := Int32(data[n - 1].timestamp), GreatestIn(data, n - 1, from, until);
      if !InRange(data[n - 1], from, until) then before else if before == 0 then ts else Max(before, ts)
  }

  lemma {:induction false} LastBetween(data: seq<Point>, n: nat, from: int, until: int)
    requires n <= |data| && from > 0
    ensures var low, prev, high :=
              LeastIn(data, n, from, until), LastIn(data, n, from, until), GreatestIn(data, n, from, until);
            0 < low <= prev <= high || low == prev == high == 0
  {
    if n > 0 { LastBetween(data, n - 1, from, until); }
  }

  lemma AfterBounds(l: Layout, p: Point, from: int, until: int, step: int, next: Layout)
    requires step > 0 && from > 0 && next == After(l, p, from, until, step)
    requires 0 < l.first <= l.prevTs <= l.last || l.first == l.prevTs == l.last == 0
    ensures var ts := Int32(p.timestamp);
            (next.first, next.last) ==
            if !InRange(p, from, until) then (l.first, l.last)
            else if l.first == 0 then (ts, ts)
            else (Min(l.first, ts), Max(l.last, ts))
  {
  }

  lemma {:induction false} BoundsAre(data: seq<Point>, from: int, until: int, step: int, trace: seq<Layout>, n: nat)
    requires n <= |data| && step > 0 && from > 0 && IsTrace(data, from, until, step, trace)
    ensures (trace[n].first, trace[n].last) == (LeastIn(data, n, from, until), GreatestIn(data, n, from, until))
  {
    if n > 0 {
      BoundsAre(data, from, until, step, trace, n - 1);
      KnownAreKept(data, from, until, step, trace, n - 1);
      LastBetween(data, n - 1, from, until);
      TraceStep(data, from, until, step, trace, n - 1);
      AfterBounds(trace[n - 1], data[n - 1], from, until, step, trace[n]);
    }
  }

  lemma {:induction false} LeastToGreatest(data: seq<Point>, n: nat, from: int, until: int)
    requires n <= |data| && from > 0
    ensures Spans(data, n, from, until, LeastIn(data, n, from, until), GreatestIn(data, n, from, until))
  {
    if n > 0 {
      var low, high := LeastIn(data, n - 1, from, until), GreatestIn(data, n - 1, from, until);
      LeastToGreatest(data, n - 1, from, until);
      if InRange(data[n - 1], from, until) {
        SpanNext(data, n - 1, from, until, low, high, low != 0);
      } else {
        SpanSame(data, n - 1, from, until, low, high);
      }
    }
  }

  /** For all points and a range behind second 0: the bounds are the least and the greatest timestamp in the range. */
  lemma BoundsSpan(data: seq<Point>, from: int, until: int, step: int, trace: seq<Layout>)
    requires step > 0 && from > 0 && IsTrace(data, from, until, step, trace)
    ensures Spans(data, |data|, from, until, trace[|data|].first, trace[|data|].last)
  {
    BoundsAre(data, from, until, step, trace, |data|);
    LeastToGreatest(data, |data|, from, until);
  }

  lemma TraceStep(data: seq<Point>, from: int, until: int, step: int, trace: seq<Layout>, n: nat)
    requires n < |data| && step > 0 && IsTrace(data, from, until, step, trace)
    ensures trace[n + 1] == After(trace[n], data[n], from, until, step)
  {
  }

  /** The NaNs of a gap: one less than the steps that fit between the timestamps. */
  lemma GapCount(prev: int, ts: int, step: int)
    requires step > 0
    ensures var d := Gap(prev, ts, step);
            if ts - prev < 2 * step then d == 0 else (d + 1) * step <= ts - prev < (d + 2) * step
  {
    var n, q := ts - prev, (ts - prev) / step;
    assert n == q * step + n % step;
    if n < 2 * step {
      if q > 1 { MulMono(2, q, step); }
    } else {
      if q < 2 { MulMono(q, 1, step); }
      assert (q + 1) * step == q * step + step;
    }
  }

  // ---- Aligned points, slot by slot ----

  lemma {:induction false} FirstAtIs(data: seq<Point>, n: nat, t: int)
    requires n <= |data|
    ensures match FirstAt(data, n, t)
            case None => forall i :: 0 <= i < n ==> data[i].timestamp != t
            case Some(v) =>
              exists i :: 0 <= i < n && data[i] == Point(v, t) && forall j :: 0 <= j < i ==> data[j].timestamp != t
  {
    if n > 0 {
      FirstAtIs(data, n - 1, t);
      if FirstAt(data, n - 1, t).None? && data[n - 1].timestamp == t {
        assert data[n - 1] == Point(data[n - 1].value, t);
      }
    }
  }

  /**
    Slot `k` of the result for positive, sorted timestamps that are multiples of the step: the value of the
    first point with the slot's time, or NaN if there is none or the time is behind the last point in range.
   */
  lemma SlotIs(data: seq<Point>, from: int, until: int, step: int, trace: seq<Layout>, k: nat)
    requires step > 0 && IsTrace(data, from, until, step, trace)
    requires forall i :: 0 <= i < |data| ==> 0 < data[i].timestamp < 0x8000_0000 && data[i].timestamp % step == 0
    requires forall i, j :: 0 <= i < j < |data| ==> data[i].timestamp <= data[j].timestamp
    requires k < |trace[|data|].values|
    ensures var l := trace[|data|];
            var t := l.first + k * step;
            match l.values[k]
            case None => t > l.last || forall i :: 0 <= i < |data| ==> data[i].timestamp != t
            case Some(v) =>
              && t <= l.last
              && exists i :: 0 <= i < |data| && data[i] == Point(v, t)
                             && forall j :: 0 <= j < i ==> data[j].timestamp != t
  {
    var l := trace[|data|];
    GridIsComplete(data, from, until, step, trace);
    var slots := Slots(l.first, l.last, step);
    FirstAtIs(data, |data|, l.first + k * step);
    if k < slots { MulMono(k, slots - 1, step); } else { MulMono(slots, k, step); }
  }

  /** The slots reach from the first timestamp in range to the last one. */
  lemma SlotsReach(data: seq<Point>, from: int, until: int, step: int, trace: seq<Layout>)
    requires step > 0 && IsTrace(data, from, until, step, trace)
    requires forall i :: 0 <= i < |data| ==> 0 < data[i].timestamp < 0x8000_0000 && data[i].timestamp % step == 0
    requires forall i, j :: 0 <= i < j < |data| ==> data[i].timestamp <= data[j].timestamp
    requires exists i :: 0 <= i < |data| && from <= data[i].timestamp <= until
    ensures var l := trace[|data|]; l.last < l.first + |l.values| * step
  {
    var l := trace[|data|];
    GridIsComplete(data, from, until, step, trace);
    MulMono(Slots(l.first, l.last, step), |l.values|, step);
    assert l.last == l.first + (Slots(l.first, l.last, step) - 1) * step;
  }
}
