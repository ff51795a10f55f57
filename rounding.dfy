/** Python's `round(x, ndigits)` for a quotient `x = num / den` of integers,
    computed exactly: the result is `units / 10^ndigits` with `units` the
    integer nearest to `num * 10^ndigits / den`, ties going to the even
    neighbour (CPython rounds the exact value of its argument half-to-even). */
module Rounding {
  import opened Numerals

  function Abs(x: int): nat { if x < 0 then -x else x }

  /** `q` is within half a unit of `num / den`. */
  predicate IsNearest(num: int, den: nat, q: int)
    requires den > 0
  {
    2 * Abs(num - q * den) <= den
  }

  /** `q` is `num / den` rounded to the nearest integer, ties to even. */
  predicate IsRoundHalfEven(num: int, den: nat, q: int)
    requires den > 0
  {
    var err := 2 * Abs(num - q * den);
    err < den || (err == den && q % 2 == 0)
  }

  /** Integer rounding of `num / den`, half to even, from the floor
      quotient and remainder. */
  function RoundHalfEven(num: int, den: nat): (q: int)
    requires den > 0
    ensures IsRoundHalfEven(num, den, q)
  {
    var q0, rem := num / den, num % den;
    assert num - q0 * den == rem;
    assert num - (q0 + 1) * den == rem - den;
    if 2 * rem < den then q0
    else if 2 * rem > den then q0 + 1
    else if q0 % 2 == 0 then q0
    else q0 + 1
  }

  lemma {:induction false} MulAtLeast(k: int, den: nat)
    requires k >= 1 && den > 0
    ensures k * den >= den
    ensures k >= 2 ==> k * den >= 2 * den
  {
  }

  /** At most one integer is the half-to-even rounding of `num / den`, so
      `RoundHalfEven` is the only function meeting its contract. */
  lemma {:induction false} RoundHalfEvenUnique(num: int, den: nat, q1: int, q2: int)
    requires den > 0
    requires IsRoundHalfEven(num, den, q1) && IsRoundHalfEven(num, den, q2)
    ensures q1 == q2
  {
    if q1 != q2 {
      var lo, hi := if q1 < q2 then q1 else q2, if q1 < q2 then q2 else q1;
      var e1, e2 := num - lo * den, num - hi * den;
      assert e1 - e2 == (hi - lo) * den;
      MulAtLeast(hi - lo, den);
      assert false;
    }
  }

  /** Half-to-even rounding is one of the nearest integers. */
  lemma {:induction false} RoundHalfEvenIsNearest(num: int, den: nat)
    requires den > 0
    ensures IsNearest(num, den, RoundHalfEven(num, den))
  {
  }

  /** When `den` divides `num` exactly, rounding is plain division. */
  lemma {:induction false} RoundHalfEvenExact(num: int, den: nat)
    requires den > 0 && num % den == 0
    ensures RoundHalfEven(num, den) == num / den
  {
    var q := num / den;
    assert num - q * den == 0;
    RoundHalfEvenUnique(num, den, q, RoundHalfEven(num, den));
  }

  /** `round(num / den, decimal)`, as a `Decimal` with `decimal` fraction
      digits. `decimal` is the readers' `decimal` parameter (default 2). */
  function Round(num: int, den: nat, decimal: nat): (r: Decimal)
    requires den > 0
    ensures r.scale == decimal
    ensures IsNearest(num * Pow10(decimal), den, r.units)
  {
    RoundHalfEvenIsNearest(num * Pow10(decimal), den);
    Decimal(RoundHalfEven(num * Pow10(decimal), den), decimal)
  }

  /** Whenever the scaled quotient is exact, `Round` returns it exactly;
      with a power-of-two divisor of at most `2^k` and `decimal >= k` this
      is every input. */
  lemma {:induction false} RoundExact(num: int, den: nat, decimal: nat)
    requires den > 0 && (num * Pow10(decimal)) % den == 0
    ensures Round(num, den, decimal).units == num * Pow10(decimal) / den
  {
    RoundHalfEvenExact(num * Pow10(decimal), den);
  }
}
