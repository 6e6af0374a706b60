/**
 * Decimal's quantize with its default ROUND_HALF_EVEN, on integers: a quotient rounded to the
 * nearest integer, a tie going to the even neighbour. Django rounds a Decimal this way to the
 * field's decimal places when it stores it in a DecimalField.
 */
module Rounding {
  import opened Common

  /** q is n / d rounded to the nearest integer, a tie going to the even neighbour. */
  predicate NearestHalfEven(n: int, d: int, q: int)
    requires d != 0
  {
    && 2 * Abs(q * d - n) <= Abs(d)
    && (2 * Abs(q * d - n) == Abs(d) ==> q % 2 == 0)
  }

  lemma MulSucc(a: int, d: int)
    ensures (a + 1) * d == a * d + d
  {
  }

  lemma MulNeg(a: int, d: int)
    ensures a * -d == -(a * d)
  {
  }

  lemma MulSub(a: int, b: int, d: int)
    ensures a * d - b * d == (a - b) * d
  {
  }

  lemma MulAbs(k: int, d: int)
    ensures Abs(k * d) == Abs(k) * Abs(d)
  {
  }

  lemma MulAtLeastTwice(k: int, a: int)
    requires k >= 2 && a > 0
    ensures k * a >= 2 * a
  {
  }

  /** Two neighbouring integers cannot both be half-even roundings: only one of them is even. */
  lemma TiesApartLessThanDivisor(e: int, f: int, ad: int, q: int, p: int)
    requires ad > 0 && 2 * Abs(e) <= ad && 2 * Abs(f) <= ad
    requires 2 * Abs(e) == ad ==> q % 2 == 0
    requires 2 * Abs(f) == ad ==> p % 2 == 0
    requires q - p == 1 || p - q == 1
    ensures Abs(e - f) < ad
  {
  }

  /** The half-even quotient for a positive divisor, from Euclidean division. */
  function RoundPositive(n: int, d: int): (q: int)
    requires d > 0
    ensures NearestHalfEven(n, d, q)
  {
    var q0, r := n / d, n % d;
    var base := q0 * d;
    assert base + r == n;
    MulSucc(q0, d);
    if 2 * r < d then q0
    else if 2 * r > d then q0 + 1
    else if q0 % 2 == 0 then q0
    else q0 + 1
  }

  /** The quotient n / d rounded half-even, as Decimal's quantize with ROUND_HALF_EVEN. */
  function RoundHalfEven(n: int, d: int): (q: int)
    requires d != 0
    ensures NearestHalfEven(n, d, q)
  {
    if d < 0 then
      var q := RoundPositive(-n, -d);
      MulNeg(q, d);
      q
    else RoundPositive(n, d)
  }

  /**
   * The linear core of uniqueness: two candidates q and p whose errors e and f are within half
   * the divisor, ties going to even, and whose errors differ by (q - p) times the divisor, agree.
   */
  lemma CandidatesAgree(e: int, f: int, ad: int, q: int, p: int)
    requires ad > 0 && 2 * Abs(e) <= ad && 2 * Abs(f) <= ad
    requires 2 * Abs(e) == ad ==> q % 2 == 0
    requires 2 * Abs(f) == ad ==> p % 2 == 0
    requires Abs(e - f) == Abs(q - p) * ad
    ensures q == p
  {
    var ak := Abs(q - p);
    if ak >= 2 {
      MulAtLeastTwice(ak, ad);
    } else if ak == 1 {
      TiesApartLessThanDivisor(e, f, ad, q, p);
    }
  }

  /** There is one half-even rounding: any integer nearest to n / d, ties to even, is RoundHalfEven(n, d). */
  lemma RoundingIsUnique(n: int, d: int, q: int)
    requires d != 0 && NearestHalfEven(n, d, q)
    ensures q == RoundHalfEven(n, d)
  {
    var p := RoundHalfEven(n, d);
    MulSub(q, p, d);
    MulAbs(q - p, d);
    CandidatesAgree(q * d - n, p * d - n, Abs(d), q, p);
  }

  /** An exact quotient is not rounded. */
  lemma ExactQuotientKept(k: int, d: int)
    requires d != 0
    ensures RoundHalfEven(k * d, d) == k
  {
    assert NearestHalfEven(k * d, d, k);
    RoundingIsUnique(k * d, d, k);
  }
}
