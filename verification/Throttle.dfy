/** How ThrottleChan (persister/whisper.go) turns a rate into a ticker: `chunk` points every 1/delimeter seconds. */
module Throttle {
  import opened Arithmetic

  const NANOSECONDS: nat := 1_000_000_000

  /** The divisor that shows how small the remainder can be made. */
  function Witness(rate: nat): nat {
    rate / (rate / 1000 + 1)
  }

  lemma WitnessInRange(rate: nat)
    requires rate > 1000
    ensures 100 <= Witness(rate) <= 999
  {
    QuotientBetween(rate, rate / 1000 + 1, 100, 999);
  }

  lemma SameNumber(p: nat, q: nat, d: nat, r: nat, s: nat)
    requires p * d + r == q * d + s && r < d
    ensures r <= s
  {
    if r > s {
      assert (q - p) * d == r - s;
      if q > p { MulMono(1, q - p, d); } else { MulMono(q, p, d); }
    }
  }

  /** Taking multiples of d off does not make the remainder smaller. */
  lemma RemainderAtMost(n: nat, q: nat, d: nat, s: nat)
    requires d > 0 && n == q * d + s
    ensures n % d <= s
  {
    assert n == (n / d) * d + n % d;
    SameNumber(n / d, q, d, n % d, s);
  }

  lemma WitnessRemainder(rate: nat)
    requires rate > 1000
    ensures Witness(rate) > 0 && rate % Witness(rate) <= rate / 1000
  {
    WitnessInRange(rate);
    var k := rate / 1000;
    assert rate == (k + 1) * Witness(rate) + rate % (k + 1);
    RemainderAtMost(rate, k + 1, Witness(rate), rate % (k + 1));
  }

  /** No other divisor leaves a smaller remainder, and no smaller one the same. */
  ghost predicate IsBest(rate: nat, d: nat, limit: nat) {
    && 100 <= d < limit
    && (forall i :: 100 <= i < limit ==> rate % d <= rate % i)
    && (forall i :: 100 <= i < d ==> rate % d < rate % i)
  }

  /** The search loop. */
  method Search(rate: nat) returns (delimeter: nat)
    requires rate > 1000
    ensures 100 <= delimeter < 1000
    ensures forall i :: 100 <= i < 1000 ==> rate % delimeter <= rate % i
    ensures forall i :: 100 <= i < delimeter ==> rate % delimeter < rate % i
  {
    delimeter := rate;
    var minRemainder := rate;
    for i := 100 to 1000
      invariant i == 100 ==> minRemainder == rate
      invariant i > 100 ==> IsBest(rate, delimeter, i) && minRemainder == rate % delimeter
    {
      if rate % i < minRemainder {
        delimeter := i;
        minRemainder := rate % delimeter;
      }
    }
  }

  lemma BestRemainder(rate: nat, d: nat)
    requires rate > 1000 && IsBest(rate, d, 1000)
    ensures 0 <= rate - (rate / d) * d <= 99 && rate - (rate / d) * d <= rate / 1000
  {
    WitnessInRange(rate);
    WitnessRemainder(rate);
    assert rate % d <= rate % 100;
    assert rate == (rate / d) * d + rate % d;
  }

  /** The nominal rate chunk * delimeter misses the request by at most 99 points, and by at most 0.1%. */
  method Divide(rate: nat) returns (delimeter: nat, chunk: nat)
    requires rate > 0
    ensures rate <= 1000 ==> delimeter == rate && chunk == 1
    ensures rate > 1000 ==>
              && 100 <= delimeter < 1000 && chunk == rate / delimeter
              && (forall i :: 100 <= i < 1000 ==> rate % delimeter <= rate % i)
              && (forall i :: 100 <= i < delimeter ==> rate % delimeter < rate % i)
    ensures 0 < delimeter <= 1000 && 0 <= rate - chunk * delimeter <= 99 && rate - chunk * delimeter <= rate / 1000
  {
    delimeter, chunk := rate, 1;
    if rate > 1000 {
      delimeter := Search(rate);
      chunk := rate / delimeter;
      BestRemainder(rate, delimeter);
    }
  }

  /** The ticker's period in nanoseconds. */
  function Step(delimeter: nat): nat
    requires delimeter > 0
  {
    NANOSECONDS / delimeter
  }

  lemma StepBounds(delimeter: nat)
    requires 0 < delimeter <= 1000
    ensures Step(delimeter) >= 1_000_000
    ensures Step(delimeter) * delimeter <= NANOSECONDS <= (Step(delimeter) + 1) * delimeter
  {
    QuotientBetween(NANOSECONDS, delimeter, 1_000_000, NANOSECONDS);
    assert NANOSECONDS == Step(delimeter) * delimeter + NANOSECONDS % delimeter;
  }

  lemma NotTooSlow(rate: nat, nominal: nat, chunk: nat, delimeter: nat, step: nat)
    requires nominal == chunk * delimeter && 999 * rate <= 1000 * nominal && step * delimeter <= NANOSECONDS
    ensures 999 * rate * step <= 1000 * (chunk * NANOSECONDS)
  {
    MulMono(999 * rate, 1000 * nominal, step);
    MulMono(step * delimeter, NANOSECONDS, chunk);
    Reorder(chunk, delimeter, step);
  }

  lemma Reorder(a: int, b: int, c: int)
    ensures c * b * a == a * b * c
  {
  }

  lemma NotTooFast(rate: nat, nominal: nat, chunk: nat, delimeter: nat, step: nat)
    requires nominal == chunk * delimeter && nominal <= rate && NANOSECONDS <= step * delimeter
    ensures chunk * NANOSECONDS <= rate * step
  {
    MulMono(nominal, rate, step);
    MulMono(NANOSECONDS, step * delimeter, chunk);
    Reorder(chunk, delimeter, step);
  }

  /**
    The rate that the ticker gives, chunk * 10^9 / step, is no lower than the request by more than 0.1%
    and exceeds it by at most one millionth.
   */
  lemma TickerRate(rate: nat, delimeter: nat, chunk: nat)
    requires 0 < delimeter <= 1000 && 0 <= rate - chunk * delimeter <= rate / 1000
    ensures Step(delimeter) >= 1_000_000
    ensures 999 * rate * Step(delimeter) <= 1000 * (chunk * 1_000_000_000)
    ensures chunk * 1_000_000_000 <= rate * (Step(delimeter) + 1)
  {
    var nominal := chunk * delimeter;
    StepBounds(delimeter);
    assert 999 * rate <= 1000 * nominal;
    NotTooSlow(rate, nominal, chunk, delimeter, Step(delimeter));
    NotTooFast(rate, nominal, chunk, delimeter, Step(delimeter) + 1);
  }
}
