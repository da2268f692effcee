/** Facts about sequences that several modules share. */
module Sequences {

  lemma Associate<T>(a: seq<T>, b: seq<T>, c: seq<T>)
    ensures (a + b) + c == a + (b + c)
  {
  }

  lemma PrefixAt<T>(a: seq<T>, b: seq<T>, k: nat)
    requires a <= b && k <= |a|
    ensures a[..k] == b[..k] && (k < |a| ==> a[k] == b[k] && a[k] in a)
  {
  }

  function Map<A, B>(f: A -> B, xs: seq<A>): (ys: seq<B>)
    ensures |ys| == |xs| && forall i :: 0 <= i < |xs| ==> ys[i] == f(xs[i])
  {
    seq(|xs|, i requires 0 <= i < |xs| => f(xs[i]))
  }

  /** The sequences one after another. */
  function Concat<T>(xss: seq<seq<T>>): seq<T> {
    if xss == [] then [] else xss[0] + Concat(xss[1..])
  }

  lemma ConcatOne<T>(xs: seq<T>)
    ensures Concat([xs]) == xs
  {
    assert Concat([xs]) == xs + Concat([]);
  }

  lemma ConcatFirst<T>(xs: seq<T>, more: seq<seq<T>>)
    ensures Concat([xs] + more) == xs + Concat(more)
  {
    assert ([xs] + more)[1..] == more;
  }

  lemma {:induction false} ConcatLast<T>(xss: seq<seq<T>>, xs: seq<T>)
    ensures Concat(xss + [xs]) == Concat(xss) + xs
  {
    if xss == [] {
      assert xss + [xs] == [xs] && Concat([xs]) == xs + Concat([]);
    } else {
      ConcatLast(xss[1..], xs);
      assert (xss + [xs])[1..] == xss[1..] + [xs];
      Associate(xss[0], Concat(xss[1..]), xs);
    }
  }

  /** The list without the first occurrence of `x`. */
  function RemoveFirst<T(==)>(xs: seq<T>, x: T): seq<T> {
    if xs == [] then [] else if xs[0] == x then xs[1..] else [xs[0]] + RemoveFirst(xs[1..], x)
  }

  lemma {:induction false} RemoveFirstAbsent<T>(xs: seq<T>, x: T)
    requires forall k :: 0 <= k < |xs| ==> xs[k] != x
    ensures RemoveFirst(xs, x) == xs
  {
    if xs != [] { RemoveFirstAbsent(xs[1..], x); }
  }

  lemma {:induction false} RemoveFirstAt<T>(xs: seq<T>, x: T, i: nat)
    requires i < |xs| && xs[i] == x && forall k :: 0 <= k < i ==> xs[k] != x
    ensures RemoveFirst(xs, x) == xs[..i] + xs[i + 1..]
  {
    if i == 0 {
      assert xs[..0] == [];
    } else {
      var rest := xs[1..];
      assert forall k :: 0 <= k < |rest| ==> rest[k] == xs[k + 1];
      RemoveFirstAt(rest, x, i - 1);
      assert rest[..i - 1] == xs[1..i] && rest[i..] == xs[i + 1..];
      assert xs[..i] == [xs[0]] + xs[1..i];
      assert xs[0] != x;
    }
  }
}
