/**
  The backing arrays of one cached batch. Points.Copy shares the array with a query reply, while
  Cache.Add goes on appending to the entry: in place while the array has room, into a larger array
  otherwise. No copy ever changes.
 */
module SharedData {
  import opened Points
  import opened GoSlices

  type Cells = array<Point>

  /** A copy that was handed out, and what it showed then. */
  datatype Copied = Copied(data: Slice<Point>, points: seq<Point>)

  /** points.Points, with its Data slice. */
  class SharedBatch {
    const metric: Metric
    var data: Slice<Point>
    ghost var arrays: set<Cells>      // every array the batch has used
    ghost var copies: seq<Copied>     // history: every copy handed out

    /** A copy shows what it showed; it ends no later than the batch's own slice, if it shares the array. */
    ghost predicate Valid()
      reads this, arrays
    {
      && data.arr in arrays && InBounds(data)
      && (forall i :: 0 <= i < |copies| ==>
            && copies[i].data.arr in arrays && InBounds(copies[i].data)
            && Elems(copies[i].data) == copies[i].points)
      && (forall i :: 0 <= i < |copies| && copies[i].data.arr == data.arr ==>
            copies[i].data.off + copies[i].data.len <= data.off + data.len)
    }

    /** A message becomes an entry. */
    constructor (metric: Metric, data: Slice<Point>)
      requires InBounds(data)
      ensures Valid() && this.metric == metric && this.data == data && copies == [] && arrays == {data.arr}
    {
      this.metric, this.data := metric, data;
      arrays, copies := {data.arr}, [];
    }

    /** Points.Copy: a new header for the same array. */
    method Copy() returns (copy: Slice<Point>)
      requires Valid()
      modifies this`copies
      ensures Valid() && copy == data && copies == old(copies) + [Copied(copy, Elems(data))]
    {
      copy := data;
      copies := copies + [Copied(copy, Elems(data))];
    }

    /** The part of append that writes behind the end of the slice. */
    method WriteSpare(more: Slice<Point>)
      requires InBounds(more) && data.off + data.len + more.len <= data.arr.Length
      modifies data.arr
      ensures var end := data.off + data.len;
              data.arr[..] == old(data.arr[..])[..end] + old(Elems(more)) + old(data.arr[..])[end + more.len..]
    {
      var end, n := data.off + data.len, more.len;
      forall i | 0 <= i < n {
        data.arr[end + i] := more.arr[more.off + i];
      }
    }

    /** The part of append that copies into a larger array; the runtime picks the capacity. */
    method Grown(more: Slice<Point>) returns (bigger: Cells)
      requires InBounds(data) && InBounds(more)
      ensures fresh(bigger) && bigger.Length >= data.len + more.len
      ensures bigger[..data.len + more.len] == Elems(data) + Elems(more)
    {
      var spare :| 0 <= spare;
      bigger := new Point[data.len + more.len + spare](_ => Point(0, 0));
      forall i | 0 <= i < data.len + more.len {
        bigger[i] := if i < data.len then data.arr[data.off + i] else more.arr[more.off + i - data.len];
      }
    }

    method AppendInPlace(more: Slice<Point>)
      requires Valid() && InBounds(more) && data.off + data.len + more.len <= data.arr.Length
      modifies this`data, data.arr
      ensures Valid() && Elems(data) == old(Elems(data)) + old(Elems(more))
      ensures data.arr == old(data.arr) && data.off == old(data.off)
    {
      ghost var end, cells := data.off + data.len, data.arr[..];
      WriteSpare(more);
      assert data.arr[..end] == cells[..end];
      forall i | 0 <= i < |copies|
        ensures Elems(copies[i].data) == copies[i].points
      {
        var c := copies[i].data;
        if c.arr == data.arr {
          assert data.arr[..end][c.off..c.off + c.len] == cells[..end][c.off..c.off + c.len];
        }
      }
      data := Slice(data.arr, data.off, data.len + more.len);
    }

    /** append(values.Data, p.Data...). */
    method Append(more: Slice<Point>)
      requires Valid() && InBounds(more)
      modifies this`data, this`arrays, data.arr
      ensures Valid() && copies == old(copies)
      ensures Elems(data) == old(Elems(data)) + old(Elems(more))
      ensures old(arrays) <= arrays && fresh(arrays - old(arrays))
      ensures if old(data).off + old(data).len + more.len <= old(data).arr.Length
              then data.arr == old(data).arr && data.off == old(data).off
              else fresh(data.arr)
    {
      if data.off + data.len + more.len <= data.arr.Length {
        AppendInPlace(more);
      } else {
        var bigger := Grown(more);
        data := Slice(bigger, 0, data.len + more.len);
        arrays := arrays + {bigger};
      }
    }
  }
}
