// The texture-size rounding helper of the GL utility header: pow2 rounds a
// requested dimension up to a power of two, never below 2.
module GLUtil {

  ghost predicate IsPowerOfTwo(n: int)
    decreases if n < 0 then 0 else n
  {
    n == 1 || (n >= 2 && n % 2 == 0 && IsPowerOfTwo(n / 2))
  }

  /** What pow2 promises for x: a power of two, at least 2 and at least x,
      and the least such (its half, if it is above 2, is already below x). */
  ghost predicate RoundedUp(x: int, p: int)
  {
    IsPowerOfTwo(p) && p >= 2 && p >= x && (p == 2 || p / 2 < x)
  }

  /** pow2: start at 2 and double while still below x. The source doubles a
      C int, which overflows once x exceeds 2^30. */
  method Pow2(x: int) returns (i: int)
    requires x <= 0x4000_0000
    ensures RoundedUp(x, i)
  {
    i := 2;
    while i < x
      invariant IsPowerOfTwo(i) && i >= 2
      invariant i == 2 || i / 2 < x
      decreases x - i
    {
      i := i * 2;
    }
  }

  /** Of two different powers of two, the larger is at least twice the smaller. */
  lemma {:induction false} PowersDouble(p: int, q: int)
    requires IsPowerOfTwo(p) && IsPowerOfTwo(q) && p < q
    ensures 2 * p <= q
    decreases q
  {
    if p != 1 {
      PowersDouble(p / 2, q / 2);
    }
  }

  /** pow2's result is determined by x. */
  lemma RoundedUpUnique(x: int, p: int, q: int)
    requires RoundedUp(x, p) && RoundedUp(x, q)
    ensures p == q
  {
    if p < q {
      PowersDouble(p, q);
    } else if q < p {
      PowersDouble(q, p);
    }
  }

  /** Idempotence: rounding a result of pow2 again gives the same value. */
  lemma Pow2Idempotent(x: int, p: int, q: int)
    requires RoundedUp(x, p) && RoundedUp(p, q)
    ensures q == p
  {
    assert RoundedUp(p, p);
    RoundedUpUnique(p, p, q);
  }

  /** Monotonicity: a larger request never gets a smaller texture size. */
  lemma Pow2Monotone(x: int, y: int, p: int, q: int)
    requires x <= y && RoundedUp(x, p) && RoundedUp(y, q)
    ensures p <= q
  {
    if q < p {
      PowersDouble(q, p);
    }
  }
}
