/**
 Floor and ceiling division, characterised by what they are the largest or the least of. Every
 rounding argument in the project goes through these few facts.
 */
module Division {
  function Ceil(n: nat, d: nat): (q: nat)
    requires d > 0
    ensures (q - 1) * d < n <= q * d
  {
    DivParts(n, d);
    Distribute(n / d, 1, d);
    Distribute(n / d, -1, d);
    if n % d == 0 then n / d else n / d + 1
  }

  /** Quotient and remainder of a natural number. */
  lemma DivParts(n: nat, d: nat)
    requires d > 0
    ensures n / d >= 0 && 0 <= n % d < d
    ensures n == n / d * d + n % d
  {
    if n / d < 0 {
      MulMonotone(n / d, -1, d);
      assert false;
    }
  }

  /** The floor is the largest quotient whose product still fits below the numerator. */
  lemma FloorIsLargest(n: int, d: int, q: int)
    requires d > 0
    ensures q <= n / d <==> q * d <= n
  {
    assert n == n / d * d + n % d;
    Distribute(n / d, 1, d);
    if q <= n / d {
      MulMonotone(q, n / d, d);
    } else {
      MulMonotone(n / d + 1, q, d);
    }
  }

  /** The ceiling is the least quotient whose product reaches the numerator. */
  lemma CeilIsLeast(n: nat, d: nat, q: int)
    requires d > 0
    ensures Ceil(n, d) <= q <==> n <= q * d
  {
    if Ceil(n, d) <= q {
      MulMonotone(Ceil(n, d), q, d);
    } else {
      MulMonotone(q, Ceil(n, d) - 1, d);
    }
  }

  lemma MulMonotone(a: int, b: int, c: int)
    requires a <= b && c >= 0
    ensures a * c <= b * c
  {
    assert 0 <= (b - a) * c;
  }

  lemma Distribute(a: int, b: int, c: int)
    ensures (a + b) * c == a * c + b * c
  {
  }

  /** A quotient between `q * d` and `q * d + d` is `q`. */
  lemma DivUnique(n: int, d: int, q: int)
    requires d > 0 && q * d <= n < q * d + d
    ensures n / d == q
  {
    FloorIsLargest(n, d, q);
    FloorIsLargest(n, d, q + 1);
    assert (q + 1) * d == q * d + d;
  }

  /** Cancelling a positive factor from an inequality of products. */
  lemma CancelFactor(a: int, b: int, c: int)
    requires c > 0 && a * c <= b * c
    ensures a <= b
  {
    if a > b {
      MulMonotone(b + 1, a, c);
      Distribute(b, 1, c);
      assert false;
    }
  }

  lemma DivShrinks(n: nat, d: nat)
    requires d > 0
    ensures 0 <= n / d <= n
  {
    FloorIsLargest(n, d, 0);
    FloorIsLargest(n, d, n / d);
    MulMonotone(1, d, n / d);
  }

  /** Ceiling division composes: halving the ceiling is the ceiling by twice the divisor. */
  lemma CeilHalf(n: nat, d: nat)
    requires d > 0
    ensures Ceil(Ceil(n, d), 2) == Ceil(n, 2 * d)
  {
    var c := Ceil(n, d);
    var w := Ceil(c, 2);
    CeilIsLeast(n, d, 2 * w);
    CeilIsLeast(n, d, 2 * (w - 1));
    assert 2 * w * d == w * (2 * d);
    assert 2 * (w - 1) * d == (w - 1) * (2 * d);
    CeilIsLeast(n, 2 * d, w);
    CeilIsLeast(n, 2 * d, w - 1);
  }

  lemma DivDiv(n: nat, a: nat, b: nat)
    requires a > 0 && b > 0
    ensures a * b > 0 && n / a / b == n / (a * b)
  {
    MulMonotone(1, a, b);
    var q := n / (a * b);
    FloorIsLargest(n, a * b, q);
    FloorIsLargest(n, a * b, q + 1);
    NestedFloor(n, a, b, q);
    NestedFloor(n, a, b, q + 1);
    Distribute(q, 1, b);
    DivUnique(n / a, b, q);
  }

  lemma NestedFloor(n: nat, a: nat, b: nat, q: int)
    requires a > 0 && b > 0
    ensures q * b <= n / a <==> q * (a * b) <= n
  {
    FloorIsLargest(n, a, q * b);
    assert q * b * a == q * (a * b);
  }
}
