// Floor and ceiling division, and the two equivalences every rounding argument below rests on.
module Arithmetic {

  /** The quotient rounded up, as both code bases compute it: quotient, plus one on a remainder. */
  function CeilDiv(n: int, d: int): int
    requires d > 0
  {
    if n % d == 0 then n / d else n / d + 1
  }

  /** What BigInt division returns: the quotient rounded toward zero. */
  function TruncatedQuotient(a: int, b: int): int
    requires b != 0
  {
    if a >= 0 then a / b else -((-a) / b)
  }

  /** What BigInt remainder returns: it takes the sign of the dividend. */
  function TruncatedRemainder(a: int, b: int): int
    requires b != 0
  {
    a - TruncatedQuotient(a, b) * b
  }

  function Pow10(n: nat): (p: nat)
    ensures p > 0
  {
    if n == 0 then 1 else 10 * Pow10(n - 1)
  }

  lemma MulMono(a: int, b: int, k: int)
    requires a <= b && 0 <= k
    ensures a * k <= b * k
  {
  }

  lemma MulMonoStrict(a: int, b: int, k: int)
    requires a < b && 0 < k
    ensures a * k < b * k
  {
  }

  lemma CancelMul(a: int, b: int, k: int)
    requires a * k <= b * k && 0 < k
    ensures a <= b
  {
    if a > b {
      MulMonoStrict(b, a, k);
    }
  }

  lemma CancelMulStrict(a: int, b: int, k: int)
    requires a * k < b * k && 0 <= k
    ensures a < b
  {
    if a >= b {
      MulMono(b, a, k);
    }
  }

  lemma Regroup(a: int, b: int, c: int)
    ensures a * b * c == a * c * b
  {
    assert b * c == c * b;
    assert a * b * c == a * (b * c);
    assert a * c * b == a * (c * b);
  }

  /** If a * u <= b * p and b * s <= c * k then, multiplied through, a * s * u <= c * p * k. */
  lemma Through(a: nat, u: nat, b: nat, p: nat, s: nat, c: nat, k: nat)
    requires a * u <= b * p && b * s <= c * k
    ensures a * s * u <= c * p * k
  {
    MulMono(a * u, b * p, s);
    MulMono(b * s, c * k, p);
    Regroup(a, u, s);
    Regroup(b, p, s);
    Regroup(c, k, p);
  }

  lemma Distribute(a: int, b: int, k: int)
    ensures (a + b) * k == a * k + b * k
  {
  }

  /** Flooring is the upper adjoint of multiplication. */
  lemma FloorAtLeast(n: int, d: int, q: int)
    requires d > 0
    ensures q <= n / d <==> q * d <= n
  {
    var k := n / d;
    assert n == k * d + n % d;
    if q <= k {
      MulMono(q, k, d);
    } else {
      MulMono(k + 1, q, d);
    }
  }

  /** Rounding up is its lower adjoint. */
  lemma CeilAtMost(n: int, d: int, q: int)
    requires d > 0
    ensures CeilDiv(n, d) <= q <==> n <= q * d
  {
    var k := n / d;
    assert n == k * d + n % d;
    if q >= k + 1 {
      MulMono(k + 1, q, d);
    } else {
      MulMono(q, k, d);
    }
  }

  /** The two ends of a floor, multiplied out. */
  lemma FloorBounds(n: int, d: int)
    requires d > 0
    ensures n / d * d <= n < (n / d + 1) * d
  {
    FloorAtLeast(n, d, n / d);
    FloorAtLeast(n, d, n / d + 1);
  }

  lemma CeilBounds(n: int, d: int)
    requires d > 0
    ensures (CeilDiv(n, d) - 1) * d < n <= CeilDiv(n, d) * d
  {
    CeilAtMost(n, d, CeilDiv(n, d));
    CeilAtMost(n, d, CeilDiv(n, d) - 1);
  }

  lemma FloorMono(a: int, b: int, d: int)
    requires d > 0 && a <= b
    ensures a / d <= b / d
  {
    FloorAtLeast(a, d, a / d);
    FloorAtLeast(b, d, a / d);
  }

  lemma CeilMono(a: int, b: int, d: int)
    requires d > 0 && a <= b
    ensures CeilDiv(a, d) <= CeilDiv(b, d)
  {
    CeilAtMost(b, d, CeilDiv(b, d));
    CeilAtMost(a, d, CeilDiv(b, d));
  }

  lemma FloorNonNegative(n: nat, d: nat)
    requires d > 0
    ensures 0 <= n / d <= n
  {
    FloorAtLeast(n, d, 0);
    FloorBounds(n, d);
    if n / d > n {
      MulMono(1, d, n / d);
    }
  }

  lemma CeilNonNegative(n: nat, d: nat)
    requires d > 0
    ensures 0 <= CeilDiv(n, d)
  {
    FloorNonNegative(n, d);
  }

  /** Rounding up loses nothing when two parts are rounded separately. */
  lemma CeilSubadditive(a: int, b: int, d: int)
    requires d > 0
    ensures CeilDiv(a + b, d) <= CeilDiv(a, d) + CeilDiv(b, d)
  {
    CeilBounds(a, d);
    CeilBounds(b, d);
    CeilAtMost(a + b, d, CeilDiv(a, d) + CeilDiv(b, d));
    assert (CeilDiv(a, d) + CeilDiv(b, d)) * d == CeilDiv(a, d) * d + CeilDiv(b, d) * d;
  }

  /** The floor is the one number the division can be multiplied back from. */
  lemma FloorIs(n: int, d: int, q: int)
    requires d > 0
    ensures q == n / d <==> q * d <= n < (q + 1) * d
  {
    FloorAtLeast(n, d, q);
    FloorAtLeast(n, d, q + 1);
  }

  lemma CeilIs(n: int, d: int, q: int)
    requires d > 0
    ensures q == CeilDiv(n, d) <==> (q - 1) * d < n <= q * d
  {
    CeilAtMost(n, d, q);
    CeilAtMost(n, d, q - 1);
  }
}
