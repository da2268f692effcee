/** Go slices: windows into shared backing arrays. */
module GoSlices {
  import opened Points

  /** A slice header. Its capacity reaches to the end of the backing array, as for make and append. */
  datatype Slice<T> = Slice(arr: array<T>, off: nat, len: nat)

  predicate InBounds<T>(s: Slice<T>) {
    s.off + s.len <= s.arr.Length
  }

  function Elems<T>(s: Slice<T>): seq<T>
    requires InBounds(s)
    reads s.arr
  {
    s.arr[s.off..s.off + s.len]
  }

  // ---- Memories: what a set of backing arrays holds, as a value ----

  /** A backing array: the metric it serves, and what its cells hold. */
  datatype Block<T> = Block(owner: Metric, cells: seq<T>)

  ghost predicate Inside<T>(mem: map<array<T>, Block<T>>, s: Slice<T>) {
    s.arr in mem && s.off + s.len <= |mem[s.arr].cells|
  }

  ghost function Contents<T>(mem: map<array<T>, Block<T>>, s: Slice<T>): seq<T>
    requires Inside(mem, s)
  {
    mem[s.arr].cells[s.off..s.off + s.len]
  }

  ghost function Written<T>(mem: map<array<T>, Block<T>>, a: array<T>, cells: seq<T>): map<array<T>, Block<T>>
    requires a in mem
  {
    mem[a := Block(mem[a].owner, cells)]
  }
}
