/** Byte strings, and numbers in little-endian and big-endian form (Go's encoding/binary). */
module Bytes {
  import opened Arithmetic

  type Byte = n: nat | n < 256
  type ByteString = seq<Byte>

  /** The bytes of an ASCII literal. */
  function Ascii(s: string): (b: ByteString)
    requires forall k :: 0 <= k < |s| ==> s[k] < 128 as char
    ensures |b| == |s| && forall k :: 0 <= k < |s| ==> b[k] == s[k] as int
  {
    seq(|s|, k requires 0 <= k < |s| => s[k] as int)
  }

  function Pow256(k: nat): (r: nat)
    ensures r > 0
  {
    if k == 0 then 1 else 256 * Pow256(k - 1)
  }

  /** The low `k` bytes of a number, lowest first. */
  function ToLE(n: nat, k: nat): (b: ByteString)
    ensures |b| == k
  {
    if k == 0 then [] else [n % 256] + ToLE(n / 256, k - 1)
  }

  function FromLE(b: ByteString): nat {
    if b == [] then 0 else b[0] + 256 * FromLE(b[1..])
  }

  /** The low `k` bytes of a number, highest first. */
  function ToBE(n: nat, k: nat): (b: ByteString)
    ensures |b| == k
  {
    if k == 0 then [] else ToBE(n / 256, k - 1) + [n % 256]
  }

  function FromBE(b: ByteString): nat {
    if b == [] then 0 else 256 * FromBE(b[..|b| - 1]) + b[|b| - 1]
  }

  /** Byte `i` of the form with the lowest first. */
  lemma {:induction false} LEDigit(n: nat, k: nat, i: nat)
    requires i < k
    ensures ToLE(n, k)[i] == (n / Pow256(i)) % 256
  {
    if i > 0 {
      LEDigit(n / 256, k - 1, i - 1);
      DivideTwice(n, 256, Pow256(i - 1));
    }
  }

  /** With the highest first, the same bytes come the other way round. */
  lemma {:induction false} BEDigit(n: nat, k: nat, i: nat)
    requires i < k
    ensures ToBE(n, k)[k - 1 - i] == (n / Pow256(i)) % 256
  {
    if i > 0 {
      BEDigit(n / 256, k - 1, i - 1);
      DivideTwice(n, 256, Pow256(i - 1));
    }
  }

  lemma {:induction false} LERoundTrip(n: nat, k: nat)
    requires n < Pow256(k)
    ensures FromLE(ToLE(n, k)) == n
  {
    if k > 0 {
      LERoundTrip(n / 256, k - 1);
      assert ToLE(n, k)[1..] == ToLE(n / 256, k - 1);
    }
  }

  lemma {:induction false} BERoundTrip(n: nat, k: nat)
    requires n < Pow256(k)
    ensures FromBE(ToBE(n, k)) == n
  {
    if k > 0 {
      BERoundTrip(n / 256, k - 1);
      assert ToBE(n, k)[..k - 1] == ToBE(n / 256, k - 1);
    }
  }

  lemma {:induction false} LEInverse(b: ByteString)
    ensures ToLE(FromLE(b), |b|) == b
  {
    if b != [] {
      LEInverse(b[1..]);
      assert FromLE(b) % 256 == b[0] && FromLE(b) / 256 == FromLE(b[1..]);
    }
  }

  lemma {:induction false} FromLEBound(b: ByteString)
    ensures FromLE(b) < Pow256(|b|)
  {
    if b != [] { FromLEBound(b[1..]); }
  }

  lemma {:induction false} FromBEBound(b: ByteString)
    ensures FromBE(b) < Pow256(|b|)
  {
    if b != [] { FromBEBound(b[..|b| - 1]); }
  }

  lemma Powers()
    ensures Pow256(1) == 0x100 && Pow256(2) == 0x1_0000
    ensures Pow256(4) == 0x1_0000_0000 && Pow256(8) == 0x1_0000_0000_0000_0000
  {
    assert Pow256(3) == 0x100_0000;
    assert Pow256(5) == 0x100_0000_0000 && Pow256(6) == 0x1_0000_0000_0000 && Pow256(7) == 0x100_0000_0000_0000;
  }
}
