/**
  The tracker of unconfirmed batches (cache/confirm.go): a map of Go slices that query replies
  share. Confirming a batch re-slices the list or shifts it in place under the readers' feet.
 */
module Tracker {
  import opened Points
  import opened Sequences
  import opened GoSlices

  /** A *points.Points as the tracker sees it: an identity with a metric. */
  class Batch {
    const metric: Metric

    constructor (metric: Metric)
      ensures this.metric == metric
    {
      this.metric := metric;
    }
  }

  type Cells = array<Batch?>
  type List = Slice<Batch?>
  type Lists = map<Metric, List>

  type Memory = map<Cells, Block<Batch?>>

  /** A slice handed out in a reply, and the batches in it not confirmed since. */
  datatype Reader = Reader(metric: Metric, slice: List, live: set<Batch>)

  // ---- Lists and readers over a memory ----

  /** A stored list is not empty, and its array serves no other metric. */
  ghost predicate ListOk(mem: Memory, m: Metric, s: List) {
    && Inside(mem, s) && s.len > 0 && mem[s.arr].owner == m
    && forall j :: s.off <= j < s.off + s.len ==> mem[s.arr].cells[j] != null && mem[s.arr].cells[j].metric == m
  }

  ghost predicate ListsOk(data: Lists, mem: Memory) {
    forall m :: m in data ==> ListOk(mem, m, data[m])
  }

  /** Every listed batch, as a metric and a position. */
  ghost function Listed(data: Lists): set<(Metric, int)> {
    set m, i | m in data && 0 <= i < data[m].len :: (m, i)
  }

  /** `b` is in `list`; where the list shares the reader's array, it is inside the reader's window. */
  ghost predicate InWindow(mem: Memory, list: List, r: Reader, b: Batch) {
    && Inside(mem, list)
    && exists j :: list.off <= j < list.off + list.len && mem[list.arr].cells[j] == b &&
                   (list.arr == r.slice.arr ==> j < r.slice.off + r.slice.len)
  }

  ghost predicate ReaderOk(data: Lists, mem: Memory, r: Reader) {
    && Inside(mem, r.slice) && mem[r.slice.arr].owner == r.metric
    && (r.metric in data && data[r.metric].arr == r.slice.arr ==> r.slice.off <= data[r.metric].off)
    && (forall b :: b in r.live ==>
          b in Contents(mem, r.slice) && r.metric in data && InWindow(mem, data[r.metric], r, b))
  }

  ghost predicate TrackerOk(data: Lists, mem: Memory, readers: seq<Reader>) {
    ListsOk(data, mem) && forall k :: 0 <= k < |readers| ==> ReaderOk(data, mem, readers[k])
  }

  ghost function ViewOf(data: Lists, mem: Memory, m: Metric): seq<Batch?>
    requires ListsOk(data, mem)
  {
    if m in data then Contents(mem, data[m]) else []
  }

  lemma ListedIs(data: Lists, m: Metric, i: int)
    ensures (m, i) in Listed(data) <==> m in data && 0 <= i < data[m].len
  {
  }

  /** The listed positions when one list has grown by one and the others are as before. */
  lemma ListedOneMore(data: Lists, m: Metric, data': Lists)
    requires forall n :: n != m ==> (n in data' <==> n in data) && (n in data ==> data'[n] == data[n])
    requires m in data' && data'[m].len == (if m in data then data[m].len else 0) + 1
    ensures Listed(data') == Listed(data) + {(m, data'[m].len - 1)}
    ensures (m, data'[m].len - 1) !in Listed(data)
  {
    var last := (m, data'[m].len - 1);
    forall n: Metric, i: int
      ensures (n, i) in Listed(data') <==> (n, i) in Listed(data) || (n, i) == last
    {
      ListedIs(data', n, i);
      ListedIs(data, n, i);
    }
    forall x
      ensures x in Listed(data') <==> x in Listed(data) + {last}
    {
      assert x == (x.0, x.1);
    }
  }

  lemma ListedGrows(data: Lists, m: Metric, data': Lists)
    requires forall n :: n != m ==> (n in data' <==> n in data) && (n in data ==> data'[n] == data[n])
    requires m in data' && data'[m].len == (if m in data then data[m].len else 0) + 1
    ensures |Listed(data')| == |Listed(data)| + 1
  {
    ListedOneMore(data, m, data');
  }

  lemma ListedShrinks(data: Lists, m: Metric, data': Lists)
    requires forall n :: n != m ==> (n in data' <==> n in data) && (n in data ==> data'[n] == data[n])
    requires m in data && (if m in data' then data'[m].len else 0) + 1 == data[m].len
    ensures |Listed(data')| == |Listed(data)| - 1
  {
    ListedOneMore(data', m, data);
  }

  /** Batch `p` joins the end of its metric's list. */
  ghost predicate Appends(data: Lists, mem: Memory, readers: seq<Reader>, p: Batch, data': Lists, mem': Memory)
    requires ListsOk(data, mem)
  {
    && TrackerOk(data', mem', readers)
    && |Listed(data')| == |Listed(data)| + 1
    && ViewOf(data', mem', p.metric) == ViewOf(data, mem, p.metric) + [p]
    && forall m :: m != p.metric ==> ViewOf(data', mem', m) == ViewOf(data, mem, m)
  }

  /** The first occurrence of `p` leaves its metric's list, and `p` is live no more. */
  ghost predicate Removes(data: Lists, mem: Memory, readers: seq<Reader>, p: Batch, data': Lists, mem': Memory)
    requires ListsOk(data, mem)
  {
    && TrackerOk(data', mem', Confirmed(readers, p))
    && |Listed(data')| == |Listed(data)| - 1
    && ViewOf(data', mem', p.metric) == RemoveFirst(ViewOf(data, mem, p.metric), p)
    && forall m :: m != p.metric ==> ViewOf(data', mem', m) == ViewOf(data, mem, m)
  }

  /** The readers after batch `p` is confirmed: it stops being live. */
  ghost function Confirmed(readers: seq<Reader>, p: Batch): seq<Reader> {
    seq(|readers|, k requires 0 <= k < |readers| => readers[k].(live := readers[k].live - {p}))
  }

  // ---- Why readers keep what they were given ----

  /** Only metric `m`'s list changes, and only in its own array: it may move inside it, move to a new one, or go. */
  ghost predicate OnlyList(data: Lists, mem: Memory, m: Metric, data': Lists, mem': Memory) {
    && (forall n :: n != m ==> (n in data' <==> n in data) && (n in data ==> data'[n] == data[n]))
    && (forall a :: a in mem ==> a in mem' && mem'[a].owner == mem[a].owner && |mem'[a].cells| == |mem[a].cells|)
    && (forall a :: a in mem && !(m in data && m in data' && a == data[m].arr == data'[m].arr) ==> mem'[a] == mem[a])
    && (m in data' ==>
          data'[m].arr !in mem || (m in data && data'[m].arr == data[m].arr && data'[m].off >= data[m].off))
  }

  /** In the new list, the batch from cell `j` of the old list is in cell `f(j)`, never further right. */
  ghost predicate MovesTo(mem: Memory, list: List, mem': Memory, list': List, b: Batch, f: int -> int) {
    && Inside(mem, list) && Inside(mem', list')
    && forall j :: list.off <= j < list.off + list.len && mem[list.arr].cells[j] == b ==>
         && list'.off <= f(j) < list'.off + list'.len && mem'[list'.arr].cells[f(j)] == b
         && f(j) <= j
  }

  lemma ContentsAt(mem: Memory, s: List, k: nat)
    requires Inside(mem, s) && k < s.len
    ensures Contents(mem, s)[k] == mem[s.arr].cells[s.off + k] && Contents(mem, s)[k] in Contents(mem, s)
  {
  }

  /** A batch inside a reader's window is in what the reader sees. */
  lemma WindowIsSeen(mem: Memory, list: List, r: Reader, b: Batch)
    requires Inside(mem, r.slice) && list.arr == r.slice.arr && r.slice.off <= list.off && InWindow(mem, list, r, b)
    ensures b in Contents(mem, r.slice)
  {
    var j :| list.off <= j < list.off + list.len && mem[list.arr].cells[j] == b &&
             (list.arr == r.slice.arr ==> j < r.slice.off + r.slice.len);
    var k := j - r.slice.off;
    assert 0 <= k < r.slice.len && mem[r.slice.arr].cells[r.slice.off + k] == b;
    ContentsAt(mem, r.slice, k);
  }

  lemma WindowMoves(mem: Memory, list: List, mem': Memory, list': List, r: Reader, b: Batch, f: int -> int)
    requires InWindow(mem, list, r, b) && list'.arr == list.arr && MovesTo(mem, list, mem', list', b, f)
    ensures InWindow(mem', list', r, b)
  {
    var j :| list.off <= j < list.off + list.len && mem[list.arr].cells[j] == b &&
             (list.arr == r.slice.arr ==> j < r.slice.off + r.slice.len);
    assert mem'[list'.arr].cells[f(j)] == b;
  }

  lemma WindowOfNew(mem: Memory, list: List, r: Reader, b: Batch)
    requires Inside(mem, list) && list.arr != r.slice.arr && b in Contents(mem, list)
    ensures InWindow(mem, list, r, b)
  {
    var i :| 0 <= i < list.len && Contents(mem, list)[i] == b;
    assert mem[list.arr].cells[list.off + i] == b;
  }

  /** A reader of another metric's list. */
  lemma OtherReaderKept(data: Lists, mem: Memory, m: Metric, data': Lists, mem': Memory, r: Reader, r': Reader)
    requires ListsOk(data, mem) && ReaderOk(data, mem, r) && OnlyList(data, mem, m, data', mem')
    requires r'.metric == r.metric != m && r'.slice == r.slice && r'.live <= r.live
    ensures ReaderOk(data', mem', r')
  {
    assert Contents(mem', r.slice) == Contents(mem, r.slice);
    forall b | b in r'.live
      ensures InWindow(mem', data'[r.metric], r', b)
    {
      WindowMoves(mem, data[r.metric], mem', data'[r.metric], r, b, j => j);
    }
  }

  /** A reader keeps every live batch if the list keeps it and never moves it to the right. */
  lemma ReaderKept(data: Lists, mem: Memory, m: Metric, data': Lists, mem': Memory, r: Reader, r': Reader,
                   f: int -> int)
    requires ListsOk(data, mem) && ReaderOk(data, mem, r) && OnlyList(data, mem, m, data', mem')
    requires r'.metric == r.metric && r'.slice == r.slice && r'.live <= r.live
    requires r.metric == m ==> forall b :: b in r'.live ==> (
               && m in data' && Inside(mem', data'[m])
               && (data'[m].arr == data[m].arr ==> MovesTo(mem, data[m], mem', data'[m], b, f))
               && (data'[m].arr != data[m].arr ==> b in Contents(mem', data'[m])))
    ensures ReaderOk(data', mem', r')
  {
    if r.metric != m {
      OtherReaderKept(data, mem, m, data', mem', r, r');
    } else {
      forall b | b in r'.live
        ensures b in Contents(mem', r.slice) && m in data' && InWindow(mem', data'[m], r, b)
      {
        if data'[m].arr == data[m].arr {
          WindowMoves(mem, data[m], mem', data'[m], r, b, f);
        } else {
          WindowOfNew(mem', data'[m], r, b);
        }
        if data'[m].arr == data[m].arr == r.slice.arr {
          WindowIsSeen(mem', data'[m], r, b);
        } else {
          assert Contents(mem', r.slice) == Contents(mem, r.slice);
        }
      }
    }
  }

  /** append with room to spare writes the cell past the list. */
  ghost predicate Fills(data: Lists, mem: Memory, p: Batch, data': Lists, mem': Memory)
    requires ListsOk(data, mem) && p.metric in data
  {
    var s := data[p.metric];
    && s.off + s.len < |mem[s.arr].cells|
    && data' == data[p.metric := Slice(s.arr, s.off, s.len + 1)]
    && mem' == Written(mem, s.arr, mem[s.arr].cells[s.off + s.len := p])
  }

  lemma FillsOnlyList(data: Lists, mem: Memory, p: Batch, data': Lists, mem': Memory)
    requires ListsOk(data, mem) && p.metric in data && Fills(data, mem, p, data', mem')
    ensures OnlyList(data, mem, p.metric, data', mem')
  {
  }

  lemma FillsLists(data: Lists, mem: Memory, p: Batch, data': Lists, mem': Memory)
    requires ListsOk(data, mem) && p.metric in data && Fills(data, mem, p, data', mem')
    ensures ListsOk(data', mem') && ViewOf(data', mem', p.metric) == ViewOf(data, mem, p.metric) + [p]
    ensures forall m :: m != p.metric ==> ViewOf(data', mem', m) == ViewOf(data, mem, m)
  {
  }

  lemma AppendInPlace(data: Lists, mem: Memory, readers: seq<Reader>, p: Batch, data': Lists, mem': Memory)
    requires TrackerOk(data, mem, readers) && p.metric in data && Fills(data, mem, p, data', mem')
    ensures Appends(data, mem, readers, p, data', mem')
  {
    FillsOnlyList(data, mem, p, data', mem');
    FillsLists(data, mem, p, data', mem');
    forall k | 0 <= k < |readers|
      ensures ReaderOk(data', mem', readers[k])
    {
      ReaderKept(data, mem, p.metric, data', mem', readers[k], readers[k], j => j);
    }
    ListedGrows(data, p.metric, data');
  }

  lemma NewListOk(data: Lists, mem: Memory, p: Batch, cells: seq<Batch?>)
    requires ListsOk(data, mem)
    requires var before := ViewOf(data, mem, p.metric); |cells| > |before| && cells[..|before| + 1] == before + [p]
    ensures forall j :: 0 <= j < |ViewOf(data, mem, p.metric)| + 1 ==> cells[j] != null && cells[j].metric == p.metric
  {
    var before := ViewOf(data, mem, p.metric);
    forall j | 0 <= j < |before| + 1
      ensures cells[j] != null && cells[j].metric == p.metric
    {
      assert cells[j] == (before + [p])[j];
      if j < |before| { assert before[j] == mem[data[p.metric].arr].cells[data[p.metric].off + j]; }
    }
  }

  lemma LiveIsListed(data: Lists, mem: Memory, r: Reader, b: Batch)
    requires ReaderOk(data, mem, r) && b in r.live
    ensures b in Contents(mem, data[r.metric])
  {
    var list := data[r.metric];
    var j :| list.off <= j < list.off + list.len && mem[list.arr].cells[j] == b;
    ContentsAt(mem, list, j - list.off);
  }

  /** append without room, or a first batch: the list moves to a new array. */
  lemma AppendToNew(data: Lists, mem: Memory, readers: seq<Reader>, p: Batch, arr: Cells, cells: seq<Batch?>,
                    data': Lists, mem': Memory)
    requires TrackerOk(data, mem, readers) && arr !in mem
    requires var before := ViewOf(data, mem, p.metric);
             && |cells| > |before| && cells[..|before| + 1] == before + [p]
             && data' == data[p.metric := Slice(arr, 0, |before| + 1)]
    requires mem' == mem[arr := Block(p.metric, cells)]
    ensures Appends(data, mem, readers, p, data', mem')
  {
    var m := p.metric;
    var before := ViewOf(data, mem, m);
    var list := Slice(arr, 0, |before| + 1);
    assert Contents(mem', list) == before + [p];
    NewListOk(data, mem, p, cells);
    forall k | 0 <= k < |readers|
      ensures ReaderOk(data', mem', readers[k])
    {
      var r := readers[k];
      forall b | r.metric == m && b in r.live
        ensures b in Contents(mem', list)
      {
        LiveIsListed(data, mem, r, b);
      }
      ReaderKept(data, mem, m, data', mem', r, r, j => j);
    }
    ListedGrows(data, m, data');
  }

  /** values[1:]: the window shrinks from the left. */
  lemma ConfirmHead(data: Lists, mem: Memory, readers: seq<Reader>, p: Batch, data': Lists)
    requires TrackerOk(data, mem, readers) && p.metric in data && data[p.metric].len > 1
    requires Contents(mem, data[p.metric])[0] == p
    requires var s := data[p.metric]; data' == data[p.metric := Slice(s.arr, s.off + 1, s.len - 1)]
    ensures Removes(data, mem, readers, p, data', mem)
  {
    var s := data[p.metric];
    assert mem[s.arr].cells[s.off] == p;
    forall k | 0 <= k < |readers|
      ensures ReaderOk(data', mem, Confirmed(readers, p)[k])
    {
      ReaderKept(data, mem, p.metric, data', mem, readers[k], Confirmed(readers, p)[k], j => j);
    }
    ListedShrinks(data, p.metric, data');
  }

  /** delete(m.data, metric): the only batch is confirmed and the key goes. */
  lemma ConfirmOnly(data: Lists, mem: Memory, readers: seq<Reader>, p: Batch, data': Lists)
    requires TrackerOk(data, mem, readers) && p.metric in data && data[p.metric].len == 1
    requires Contents(mem, data[p.metric])[0] == p
    requires data' == data - {p.metric}
    ensures Removes(data, mem, readers, p, data', mem)
  {
    var s := data[p.metric];
    assert Contents(mem, s) == [p];
    forall k | 0 <= k < |readers|
      ensures ReaderOk(data', mem, Confirmed(readers, p)[k])
    {
      var r, r' := readers[k], Confirmed(readers, p)[k];
      assert r.metric == p.metric ==> r'.live == {} by {
        forall b | r.metric == p.metric && b in r.live
          ensures b == p
        {
          var j :| s.off <= j < s.off + s.len && mem[s.arr].cells[j] == b;
          assert Contents(mem, s)[j - s.off] == b;
        }
      }
      ReaderKept(data, mem, p.metric, data', mem, r, r', j => j);
    }
    ListedShrinks(data, p.metric, data');
  }

  /** The cells after those in (from, to) have moved one cell left; the last of them stays behind. */
  function Shifted<T>(cells: seq<T>, from: nat, to: nat): (r: seq<T>)
    requires from < to <= |cells|
    ensures |r| == |cells|
  {
    cells[..from] + cells[from + 1..to] + cells[to - 1..]
  }

  lemma ShiftedIs<T>(was: seq<T>, now: seq<T>, from: nat, to: nat)
    requires from < to <= |was| == |now|
    requires forall j :: from <= j < to - 1 ==> now[j] == was[j + 1]
    requires forall j :: 0 <= j < from || to - 1 <= j < |was| ==> now[j] == was[j]
    ensures now == Shifted(was, from, to)
  {
  }

  lemma ShiftedContents<T>(cells: seq<T>, off: nat, i: nat, len: nat)
    requires i < len && off + len <= |cells|
    ensures var list := cells[off..off + len];
            Shifted(cells, off + i, off + len)[off..off + len - 1] == list[..i] + list[i + 1..]
  {
  }

  /** Where a shift leaves the batches other than the one it overwrites. */
  lemma ShiftMoves(cells: seq<Batch?>, off: nat, i: nat, len: nat, p: Batch, b: Batch)
    requires i < len && off + len <= |cells| && cells[off + i] == p != b
    ensures forall j :: off <= j < off + len && cells[j] == b ==>
              var j' := if j < off + i then j else j - 1;
              off <= j' < off + len - 1 && Shifted(cells, off + i, off + len)[j'] == b
  {
  }

  /** The effect of a shift on the lists and the memory. */
  ghost predicate Shifts(data: Lists, mem: Memory, m: Metric, i: nat, data': Lists, mem': Memory)
    requires m in data && Inside(mem, data[m]) && 0 < i < data[m].len
  {
    var s := data[m];
    && data' == data[m := Slice(s.arr, s.off, s.len - 1)]
    && mem' == Written(mem, s.arr, Shifted(mem[s.arr].cells, s.off + i, s.off + s.len))
  }

  lemma ShiftsOnlyList(data: Lists, mem: Memory, m: Metric, i: nat, data': Lists, mem': Memory)
    requires m in data && Inside(mem, data[m]) && 0 < i < data[m].len && Shifts(data, mem, m, i, data', mem')
    ensures OnlyList(data, mem, m, data', mem') && Inside(mem', data'[m])
  {
  }

  /** Where a cell goes when everything right of cell `k` moves one cell left. */
  function LeftFrom(k: int): int -> int {
    j => if j < k then j else j - 1
  }

  lemma MiddleMoves(data: Lists, mem: Memory, p: Batch, i: nat, data': Lists, mem': Memory, b: Batch)
    requires p.metric in data && Inside(mem, data[p.metric]) && 0 < i < data[p.metric].len && b != p
    requires Contents(mem, data[p.metric])[i] == p && Shifts(data, mem, p.metric, i, data', mem')
    ensures MovesTo(mem, data[p.metric], mem', data'[p.metric], b, LeftFrom(data[p.metric].off + i))
  {
    var s := data[p.metric];
    assert mem[s.arr].cells[s.off + i] == p;
    ShiftMoves(mem[s.arr].cells, s.off, i, s.len, p, b);
  }

  lemma MiddleReader(data: Lists, mem: Memory, p: Batch, i: nat, data': Lists, mem': Memory, r: Reader, r': Reader)
    requires ListsOk(data, mem) && ReaderOk(data, mem, r) && p.metric in data && 0 < i < data[p.metric].len
    requires Contents(mem, data[p.metric])[i] == p && Shifts(data, mem, p.metric, i, data', mem')
    requires r' == r.(live := r.live - {p})
    ensures ReaderOk(data', mem', r')
  {
    ShiftsOnlyList(data, mem, p.metric, i, data', mem');
    if r.metric != p.metric {
      OtherReaderKept(data, mem, p.metric, data', mem', r, r');
    } else {
      var f := LeftFrom(data[p.metric].off + i);
      forall b | b in r'.live
        ensures MovesTo(mem, data[p.metric], mem', data'[p.metric], b, f)
      {
        MiddleMoves(data, mem, p, i, data', mem', b);
      }
      ReaderKept(data, mem, p.metric, data', mem', r, r', f);
    }
  }

  lemma MiddleContents(data: Lists, mem: Memory, p: Batch, i: nat, data': Lists, mem': Memory)
    requires ListsOk(data, mem) && p.metric in data && 0 < i < data[p.metric].len
    requires var list := Contents(mem, data[p.metric]); list[i] == p && forall k :: 0 <= k < i ==> list[k] != p
    requires Shifts(data, mem, p.metric, i, data', mem')
    ensures Inside(mem', data'[p.metric])
    ensures Contents(mem', data'[p.metric]) == RemoveFirst(Contents(mem, data[p.metric]), p)
  {
    var s := data[p.metric];
    RemoveFirstAt(Contents(mem, s), p, i);
    ShiftedContents(mem[s.arr].cells, s.off, i, s.len);
  }

  lemma MiddleLists(data: Lists, mem: Memory, p: Batch, i: nat, data': Lists, mem': Memory)
    requires ListsOk(data, mem) && p.metric in data && 0 < i < data[p.metric].len
    requires Shifts(data, mem, p.metric, i, data', mem')
    ensures ListsOk(data', mem')
    ensures forall m :: m != p.metric ==> ViewOf(data', mem', m) == ViewOf(data, mem, m)
  {
  }

  /** append(values[:i], values[i+1:]...): everything right of `p` moves one cell left, in place. */
  lemma ConfirmMiddle(data: Lists, mem: Memory, readers: seq<Reader>, p: Batch, i: nat, data': Lists, mem': Memory)
    requires TrackerOk(data, mem, readers) && p.metric in data && 0 < i < data[p.metric].len
    requires var list := Contents(mem, data[p.metric]); list[i] == p && forall k :: 0 <= k < i ==> list[k] != p
    requires Shifts(data, mem, p.metric, i, data', mem')
    ensures Removes(data, mem, readers, p, data', mem')
  {
    MiddleContents(data, mem, p, i, data', mem');
    MiddleLists(data, mem, p, i, data', mem');
    forall k | 0 <= k < |readers|
      ensures ReaderOk(data', mem', Confirmed(readers, p)[k])
    {
      MiddleReader(data, mem, p, i, data', mem', readers[k], Confirmed(readers, p)[k]);
    }
    ListedShrinks(data, p.metric, data');
  }

  lemma Handed(data: Lists, mem: Memory, readers: seq<Reader>, m: Metric, live: set<Batch>)
    requires TrackerOk(data, mem, readers) && m in data
    requires forall b :: b in live ==> b in Contents(mem, data[m])
    ensures TrackerOk(data, mem, readers + [Reader(m, data[m], live)])
  {
    var r := Reader(m, data[m], live);
    forall b | b in live
      ensures InWindow(mem, data[m], r, b)
    {
      var i :| 0 <= i < data[m].len && Contents(mem, data[m])[i] == b;
      assert mem[data[m].arr].cells[data[m].off + i] == b;
    }
    assert ReaderOk(data, mem, r);
  }

  // ---- When a handed-out slice never changes at all ----

  /** In the array that they share, the reader's window ends no later than the list. */
  ghost predicate Settled(data: Lists, r: Reader) {
    r.metric in data && data[r.metric].arr == r.slice.arr ==>
      r.slice.off + r.slice.len <= data[r.metric].off + data[r.metric].len
  }

  ghost predicate KeepsSlice(data: Lists, mem: Memory, r: Reader, data': Lists, mem': Memory) {
    Inside(mem, r.slice) && Settled(data, r) ==>
      Inside(mem', r.slice) && Settled(data', r) && Contents(mem', r.slice) == Contents(mem, r.slice)
  }

  /** Every settled reader stays settled and sees what it saw. */
  ghost predicate KeepsSlices(data: Lists, mem: Memory, readers: seq<Reader>, data': Lists, mem': Memory) {
    forall k :: 0 <= k < |readers| ==> KeepsSlice(data, mem, readers[k], data', mem')
  }

  lemma FillKeepsSlice(data: Lists, mem: Memory, p: Batch, data': Lists, mem': Memory, r: Reader)
    requires ListsOk(data, mem) && ReaderOk(data, mem, r)
    requires p.metric in data && Fills(data, mem, p, data', mem')
    ensures KeepsSlice(data, mem, r, data', mem')
  {
    var s := data[p.metric];
    if Settled(data, r) && r.slice.arr == s.arr {
      assert ListOk(mem, p.metric, s) && r.metric == p.metric;
      CellOutside(mem[s.arr].cells, r.slice.off, r.slice.off + r.slice.len, s.off + s.len, p);
    }
  }

  lemma CellOutside(cells: seq<Batch?>, from: nat, to: nat, k: nat, p: Batch)
    requires from <= to <= k < |cells|
    ensures cells[k := p][from..to] == cells[from..to]
  {
  }

  lemma NewKeepsSlice(data: Lists, mem: Memory, m: Metric, arr: Cells, block: Block<Batch?>, len: nat, r: Reader)
    requires arr !in mem
    ensures KeepsSlice(data, mem, r, data[m := Slice(arr, 0, len)], mem[arr := block])
  {
  }

  lemma HeadKeepsSlice(data: Lists, mem: Memory, m: Metric, r: Reader)
    requires m in data && data[m].len > 0
    ensures var s := data[m];
            && KeepsSlice(data, mem, r, data - {m}, mem)
            && KeepsSlice(data, mem, r, data[m := Slice(s.arr, s.off + 1, s.len - 1)], mem)
  {
  }

  class NotConfirmed {
    var data: Lists
    var size: int
    ghost var mem: Memory            // history: every backing array made so far, and what it holds
    ghost var readers: seq<Reader>   // history: every slice handed out so far

    ghost predicate Valid()
      reads this, mem.Keys
    {
      && TrackerOk(data, mem, readers)
      && size == |Listed(data)|
      && forall a :: a in mem ==> a[..] == mem[a].cells
    }

    /** The unconfirmed batches of a metric, oldest first. */
    ghost function View(m: Metric): seq<Batch?>
      requires Valid()
      reads this, mem.Keys
    {
      ViewOf(data, mem, m)
    }

    constructor ()
      ensures Valid() && data == map[] && size == 0 && readers == [] && mem == map[]
    {
      data, size, mem, readers := map[], 0, map[], [];
      new;
      assert Listed(data) == {};
    }

    /** A new, larger backing array holding the list and `p`; the runtime picks its capacity. */
    method Grow(s: List, p: Batch) returns (bigger: Cells)
      requires InBounds(s)
      ensures fresh(bigger) && bigger.Length > s.len && bigger[..s.len + 1] == Elems(s) + [p]
    {
      var spare :| 0 <= spare;
      bigger := new Batch?[s.len + 1 + spare](_ => null);
      forall i | 0 <= i < s.len {
        bigger[i] := s.arr[s.off + i];
      }
      bigger[s.len] := p;
    }

    /** The arrays hold what `mem` says. */
    ghost predicate Mirrored()
      reads this, mem.Keys
    {
      forall a :: a in mem ==> a[..] == mem[a].cells
    }

    /** `p` joined the end of its metric's list and nothing else changed for the tracker's users. */
    twostate predicate Appended(p: Batch)
      requires old(TrackerOk(data, mem, readers))
      reads this, mem.Keys
    {
      && Mirrored() && old(mem.Keys) <= mem.Keys && fresh(mem.Keys - old(mem.Keys))
      && readers == old(readers) && Appends(old(data), old(mem), old(readers), p, data, mem)
      && KeepsSlices(old(data), old(mem), old(readers), data, mem)
    }

    method AppendWithRoom(p: Batch)
      requires Mirrored() && TrackerOk(data, mem, readers) && p.metric in data
      requires data[p.metric].off + data[p.metric].len < data[p.metric].arr.Length
      modifies this`data, this`mem, data[p.metric].arr
      ensures Appended(p)
    {
      var s := data[p.metric];
      s.arr[s.off + s.len] := p;
      data := data[p.metric := Slice(s.arr, s.off, s.len + 1)];
      mem := Written(mem, s.arr, s.arr[..]);
      AppendInPlace(old(data), old(mem), readers, p, data, mem);
      forall k | 0 <= k < |readers|
        ensures KeepsSlice(old(data), old(mem), readers[k], data, mem)
      {
        FillKeepsSlice(old(data), old(mem), p, data, mem, readers[k]);
      }
    }

    method AppendToLarger(s: List, p: Batch)
      requires Mirrored() && TrackerOk(data, mem, readers)
      requires InBounds(s) && Elems(s) == ViewOf(data, mem, p.metric) && s.len == |ViewOf(data, mem, p.metric)|
      modifies this`data, this`mem
      ensures Appended(p)
    {
      var bigger := Grow(s, p);
      data := data[p.metric := Slice(bigger, 0, s.len + 1)];
      mem := mem[bigger := Block(p.metric, bigger[..])];
      AppendToNew(old(data), old(mem), readers, p, bigger, bigger[..], data, mem);
      forall k | 0 <= k < |readers|
        ensures KeepsSlice(old(data), old(mem), readers[k], data, mem)
      {
        NewKeepsSlice(old(data), old(mem), p.metric, bigger, Block(p.metric, bigger[..]), s.len + 1, readers[k]);
      }
    }

    /** append, in place or into a larger array. */
    method Append(p: Batch)
      requires Mirrored() && TrackerOk(data, mem, readers)
      modifies this`data, this`mem, mem.Keys
      ensures Appended(p)
    {
      if p.metric in data && data[p.metric].off + data[p.metric].len < data[p.metric].arr.Length {
        AppendWithRoom(p);
      } else {
        var values: List;
        if p.metric in data {
          values := data[p.metric];
        } else {
          var none := new Batch?[0];
          values := Slice(none, 0, 0);
        }
        AppendToLarger(values, p);
      }
    }

    method Add(p: Batch)
      requires Valid()
      modifies this, mem.Keys
      ensures Valid() && old(mem.Keys) <= mem.Keys && fresh(mem.Keys - old(mem.Keys))
      ensures View(p.metric) == old(View(p.metric)) + [p]
      ensures forall m :: m != p.metric ==> View(m) == old(View(m))
      ensures size == old(size) + 1 && readers == old(readers)
      ensures KeepsSlices(old(data), old(mem), old(readers), data, mem)
    {
      Append(p);
      size := size + 1;
    }

    /** `p` left its metric's list, and nothing else changed for the tracker's users. */
    twostate predicate Removed(p: Batch)
      requires old(TrackerOk(data, mem, readers))
      reads this, mem.Keys
    {
      && Mirrored() && mem.Keys == old(mem.Keys)
      && readers == Confirmed(old(readers), p) && Removes(old(data), old(mem), old(readers), p, data, mem)
    }

    /** The in-place shift, cell by cell. */
    method ShiftCells(arr: Cells, from: nat, to: nat)
      requires from < to <= arr.Length
      modifies arr
      ensures arr[..] == Shifted(old(arr[..]), from, to)
    {
      ghost var was := arr[..];
      var k := from;
      while k + 1 < to
        invariant from <= k < to
        invariant forall j :: from <= j < k ==> arr[j] == was[j + 1]
        invariant forall j :: 0 <= j < from || k <= j < arr.Length ==> arr[j] == was[j]
      {
        arr[k] := arr[k + 1];
        k := k + 1;
      }
      ShiftedIs(was, arr[..], from, to);
    }

    method ShiftLeft(s: List, i: nat)
      requires Mirrored() && s.arr in mem && i < s.len && InBounds(s)
      modifies this`mem, s.arr
      ensures Mirrored() && mem == Written(old(mem), s.arr, Shifted(old(mem)[s.arr].cells, s.off + i, s.off + s.len))
    {
      ShiftCells(s.arr, s.off + i, s.off + s.len);
      mem := Written(mem, s.arr, s.arr[..]);
    }

    /** append(values[:i], values[i+1:]...) and the assignment of its result. */
    method Shift(m: Metric, i: nat)
      requires Mirrored() && m in data && Inside(mem, data[m]) && InBounds(data[m]) && 0 < i < data[m].len
      modifies this`data, this`mem, data[m].arr
      ensures Mirrored() && Shifts(old(data), old(mem), m, i, data, mem)
    {
      var s := data[m];
      ShiftLeft(s, i);
      data := data[m := Slice(s.arr, s.off, s.len - 1)];
    }

    method RemoveAt(p: Batch, i: nat)
      requires Mirrored() && TrackerOk(data, mem, readers) && p.metric in data && 0 < i < data[p.metric].len
      requires var list := Contents(mem, data[p.metric]); list[i] == p && forall k :: 0 <= k < i ==> list[k] != p
      modifies this`data, this`mem, this`readers, data[p.metric].arr
      ensures Removed(p)
    {
      assert ListOk(mem, p.metric, data[p.metric]);
      Shift(p.metric, i);
      ConfirmMiddle(old(data), old(mem), old(readers), p, i, data, mem);
      readers := Confirmed(readers, p);
    }

    method RemoveHead(p: Batch)
      requires Mirrored() && TrackerOk(data, mem, readers) && p.metric in data
      requires ViewOf(data, mem, p.metric)[0] == p
      modifies this`data, this`readers
      ensures Removed(p) && KeepsSlices(old(data), old(mem), old(readers), data, mem)
    {
      var s := data[p.metric];
      forall k | 0 <= k < |readers|
        ensures KeepsSlice(data, mem, readers[k], data - {p.metric}, mem)
        ensures KeepsSlice(data, mem, readers[k], data[p.metric := Slice(s.arr, s.off + 1, s.len - 1)], mem)
      {
        HeadKeepsSlice(data, mem, p.metric, readers[k]);
      }
      if s.len == 1 {
        data := data - {p.metric};
        ConfirmOnly(old(data), mem, old(readers), p, data);
      } else {
        data := data[p.metric := Slice(s.arr, s.off + 1, s.len - 1)];
        ConfirmHead(old(data), mem, old(readers), p, data);
      }
      readers := Confirmed(readers, p);
    }

    /** The search loop of Confirm: the first position of `p`, or the length. */
    method Find(values: List, p: Batch) returns (i: nat)
      requires InBounds(values)
      ensures i <= values.len && forall k :: 0 <= k < i ==> Elems(values)[k] != p
      ensures i < values.len ==> Elems(values)[i] == p
    {
      i := 0;
      while i < values.len && values.arr[values.off + i] != p
        invariant i <= values.len
        invariant forall k :: 0 <= k < i ==> Elems(values)[k] != p
      {
        i := i + 1;
      }
    }

    /**
      Removes the first occurrence of `p`, if it is listed. Every slice handed out before still
      shows all its batches that are not confirmed: they stay live, and `Valid` keeps live batches
      in what the reader sees.
     */
    method Confirm(p: Batch)
      requires Valid()
      modifies this, mem.Keys
      ensures Valid() && mem.Keys == old(mem.Keys)
      ensures View(p.metric) == RemoveFirst(old(View(p.metric)), p)
      ensures forall m :: m != p.metric ==> View(m) == old(View(m))
      ensures size == old(size) - (if p in old(View(p.metric)) then 1 else 0)
      ensures readers == if p in old(View(p.metric)) then Confirmed(old(readers), p) else old(readers)
      ensures old(View(p.metric)) != [] && old(View(p.metric))[0] == p ==>
                KeepsSlices(old(data), old(mem), old(readers), data, mem)
    {
      if p.metric !in data {
        return;
      }
      var values := data[p.metric];
      assert Elems(values) == ViewOf(data, mem, p.metric);
      if values.len == 1 {
        if values.arr[values.off] == p {
          RemoveHead(p);
          size := size - 1;
        }
        return;
      }
      if values.arr[values.off] == p {
        RemoveHead(p);
        size := size - 1;
        return;
      }
      var i := Find(values, p);
      if i < values.len {
        RemoveAt(p, i);
        size := size - 1;
        return;
      }
      RemoveFirstAbsent(Elems(values), p);
    }

    /** The reply gets the list itself, not a copy. */
    method HandleQuery(metric: Metric) returns (inFlight: Option<List>)
      requires Valid()
      modifies this`readers
      ensures Valid()
      ensures inFlight.None? <==> View(metric) == []
      ensures inFlight.Some? ==> InBounds(inFlight.value) && Elems(inFlight.value) == View(metric)
      ensures inFlight.Some? ==>
                readers == old(readers) + [Reader(metric, inFlight.value, set b: Batch | b in View(metric))]
      ensures inFlight.None? ==> readers == old(readers)
    {
      if metric in data {
        inFlight := Some(data[metric]);
        Handed(data, mem, readers, metric, set b: Batch | b in ViewOf(data, mem, metric));
        readers := readers + [Reader(metric, data[metric], set b: Batch | b in ViewOf(data, mem, metric))];
      } else {
        inFlight := None;
      }
    }

    /** What a reply's reader sees, at any later time, includes every batch still unconfirmed. */
    lemma ReadersKeepLiveBatches(k: nat)
      requires Valid() && k < |readers|
      ensures InBounds(readers[k].slice)
      ensures forall b :: b in readers[k].live ==> b in Elems(readers[k].slice) && b in View(readers[k].metric)
    {
      var r := readers[k];
      assert ReaderOk(data, mem, r);
      assert Contents(mem, r.slice) == Elems(r.slice);
      forall b | b in r.live { LiveIsListed(data, mem, r, b); }
    }
  }
}
