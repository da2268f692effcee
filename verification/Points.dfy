/** Batches of metric points, as points/points.go declares them. */
module Points {

  type Metric = string

  const TWO_TO_THE_32: nat := 0x1_0000_0000
  const TWO_TO_THE_64: nat := 0x1_0000_0000_0000_0000

  /** The 64-bit pattern of a float; its numeric meaning is opaque to the model. */
  type Bits = n: nat | n < TWO_TO_THE_64

  /** A number cut to uint32, by taking 2^32 off as often as it fits. */
  function Wrap32(n: nat): (r: nat)
    ensures r < TWO_TO_THE_32
  {
    if n < TWO_TO_THE_32 then n else Wrap32(n - TWO_TO_THE_32)
  }

  lemma {:induction false} Wrap32IsRemainder(n: nat)
    ensures Wrap32(n) == n % 0x1_0000_0000
  {
    if n >= TWO_TO_THE_32 { Wrap32IsRemainder(n - TWO_TO_THE_32); }
  }

  /** A number cut to a signed 32-bit integer. */
  function Int32(n: int): (r: int)
    ensures -0x8000_0000 <= r < 0x8000_0000
    ensures r == n <==> -0x8000_0000 <= n < 0x8000_0000
  {
    if -0x8000_0000 <= n < 0x8000_0000 then n else (n + 0x8000_0000) % 0x1_0000_0000 - 0x8000_0000
  }

  lemma Int32IsCongruent(n: int)
    ensures (Int32(n) - n) % 0x1_0000_0000 == 0
  {
    var m := n + 0x8000_0000;
    assert m == (m / 0x1_0000_0000) * 0x1_0000_0000 + m % 0x1_0000_0000;
  }

  datatype Point = Point(value: Bits, timestamp: int)

  datatype Option<+T> = None | Some(value: T)
}
