/** Quotients, remainders, 3-bit sequence numbers, and increasing sequences. */
module Arithmetic {
  ghost predicate Increasing(s: seq<nat>) {
    forall i, j | 0 <= i < j < |s| :: s[i] < s[j]
  }

  lemma AtLeastOnce(k: int, d: int)
    requires k >= 1 && d > 0
    ensures k * d >= d
  {
    assert (k - 1) * d >= 0;
  }

  lemma QuotientsOrdered(q: int, r: int, q': int, r': int, d: int)
    requires q * d + r == q' * d + r' && 0 <= r < d && 0 <= r' < d
    ensures q <= q'
  {
    assert (q - q') * d == q * d - q' * d;
    if q > q' {
      AtLeastOnce(q - q', d);
    }
  }

  /** Quotient and remainder are the only pair of their kind. */
  lemma Euclid(x: int, d: int, q: int, r: int)
    requires 0 <= r < d && x == q * d + r
    ensures x / d == q && x % d == r
  {
    var q', r' := x / d, x % d;
    assert x == q' * d + r';
    QuotientsOrdered(q, r, q', r', d);
    QuotientsOrdered(q', r', q, r, d);
  }

  lemma Mod8Sum(a: int, b: int)
    ensures (a % 8 + b) % 8 == (a + b) % 8
  {
    var r := (a % 8 + b) % 8;
    Euclid(a + b, 8, a / 8 + (a % 8 + b) / 8, r);
  }

  lemma Mod8Difference(a: int, b: int)
    ensures (a % 8 - b % 8) % 8 == (a - b) % 8
    ensures (a % 8 - b) % 8 == (a - b) % 8
  {
    var r := (a % 8 - b % 8) % 8;
    Euclid(a - b, 8, a / 8 - b / 8 + (a % 8 - b % 8) / 8, r);
    Mod8Sum(a, -b);
  }

  lemma Mod8Small(d: int)
    ensures 0 <= d < 8 ==> d % 8 == d
    ensures -8 <= d < 0 ==> d % 8 == d + 8
  {
  }

  /** Two numbers less than 8 apart are told apart by their remainders. */
  lemma Mod8Distinct(a: int, b: int)
    requires -8 < a - b < 8 && a % 8 == b % 8
    ensures a == b
  {
    Mod8Difference(a, b);
    Mod8Small(a - b);
  }
}
