/**
 Exact `a * b / denom` on 128-bit operands without ever forming the 256-bit product
 (subledger/src/lib.rs, `wide_mul_div_rem` and `add_mod`). The functions give the mathematical
 value; the method is the program's bit loop, whose every intermediate value is a `u128`.
 */
module WideArithmetic {
  import opened Machine
  import opened Division

  /** The true floor of `a * b / denom`, absent when it does not exist or does not fit. */
  function MulDivFloor(a: u128, b: u128, denom: u128): Option<u128> {
    if denom == 0 || a * b / denom > U128_MAX then None
    else
      MulMonotone(0, a, b);
      DivParts(a * b, denom);
      Some(a * b / denom)
  }

  /** The true quotient and remainder together. */
  function MulDivRem(a: u128, b: u128, denom: u128): Option<(u128, u128)> {
    DivRem(a * b, denom)
  }

  function DivRem(n: nat, denom: u128): Option<(u128, u128)> {
    if denom == 0 || n / denom > U128_MAX then None
    else
      DivParts(n, denom);
      Some((n / denom, n % denom))
  }

  function MulDivCeil(a: u128, b: u128, denom: u128): Option<u128> {
    if denom == 0 || Ceil(a * b, denom) > U128_MAX then None else Some(Ceil(a * b, denom))
  }

  /** `(x + y) mod denom` and the carry, for residues `x` and `y`. */
  function AddMod(x: u128, y: u128, denom: u128): (r: (u128, u128))
    requires x < denom && y < denom
    ensures r.0 < denom && r.1 <= 1
    ensures r.1 * denom + r.0 == x + y
  {
    if x >= denom - y then (x - (denom - y), 1) else (x + y, 0)
  }

  /** One bit of the long division: doubling the prefix of `b` and adding its next bit. */
  lemma LongDivisionStep(fractional: nat, remainder: nat, rem: nat, denom: nat, prefix: nat, bit: nat,
                         carry1: nat, carry2: nat, next: nat)
    requires fractional * denom + remainder == rem * prefix
    requires carry1 * denom + carry2 * denom + next == 2 * remainder + rem * bit
    ensures (2 * fractional + carry1 + carry2) * denom + next == rem * (2 * prefix + bit)
  {
    assert rem * (2 * prefix + bit) == 2 * (rem * prefix) + rem * bit;
    assert (2 * fractional + carry1 + carry2) * denom
        == 2 * (fractional * denom) + carry1 * denom + carry2 * denom;
  }

  /** A quotient of a product whose factor is below the divisor stays within the other factor. */
  lemma FractionBound(fractional: int, next: int, rem: int, denom: int, prefix: int)
    requires 0 <= rem < denom && 0 <= next && 0 <= prefix
    requires fractional * denom + next == rem * prefix
    ensures fractional <= prefix
  {
    MulMonotone(rem, denom, prefix);
    assert rem * prefix <= prefix * denom;
    CancelFactor(fractional, prefix, denom);
  }

  lemma BitOfPrefix(b: nat, bit: nat)
    ensures b / Pow2(bit) == 2 * (b / Pow2(bit + 1)) + b / Pow2(bit) % 2
  {
    DivDiv(b, Pow2(bit), 2);
    assert Pow2(bit + 1) == Pow2(bit) * 2;
  }

  lemma NoBitsAbove(b: nat, bits: nat)
    requires b < Pow2(bits)
    ensures b / Pow2(bits) == 0 && b / Pow2(0) == b
  {
    DivUnique(b, Pow2(bits), 0);
  }

  /** The two partial quotients add up to the quotient of the whole product. */
  lemma SplitQuotient(a: nat, b: nat, denom: nat, fractional: nat, remainder: nat)
    requires denom > 0 && remainder < denom
    requires fractional * denom + remainder == a % denom * b
    ensures a * b / denom == a / denom * b + fractional
    ensures a * b % denom == remainder
  {
    var q := a / denom * b + fractional;
    assert a == a / denom * denom + a % denom;
    Distribute(a / denom * denom, a % denom, b);
    assert a / denom * denom * b == a / denom * b * denom;
    Distribute(a / denom * b, fractional, denom);
    assert a * b == q * denom + remainder;
    DivUnique(a * b, denom, q);
  }

  /** One iteration of the loop: the quotient of the longer prefix, and no overflow on the way. */
  lemma NextBit(fractional: nat, remainder: nat, rem: nat, denom: nat, b: u128, bit: nat,
                carry1: nat, carry2: nat, next: nat)
    requires rem < denom
    requires fractional * denom + remainder == rem * (b / Pow2(bit + 1))
    requires carry1 * denom + carry2 * denom + next == 2 * remainder + rem * (b / Pow2(bit) % 2)
    ensures (2 * fractional + carry1 + carry2) * denom + next == rem * (b / Pow2(bit))
    ensures 2 * fractional + carry1 + carry2 <= U128_MAX
  {
    BitOfPrefix(b, bit);
    DivShrinks(b, Pow2(bit));
    DivShrinks(b, Pow2(bit + 1));
    LongDivisionStep(fractional, remainder, rem, denom, b / Pow2(bit + 1), b / Pow2(bit) % 2, carry1, carry2, next);
    FractionBound(2 * fractional + carry1 + carry2, next, rem, denom, b / Pow2(bit));
    PrefixFits(b, bit);
  }

  /** Binary long division of `rem * b` over the `bits` bits of `b`, from the most significant. */
  method FractionalPart(rem: u128, b: u128, denom: u128, bits: nat) returns (fractional: u128, remainder: u128)
    requires rem < denom && b < Pow2(bits)
    ensures remainder < denom
    ensures fractional * denom + remainder == rem * b
  {
    fractional, remainder := 0, 0;
    NoBitsAbove(b, bits);
    for bit := bits downto 0
      invariant remainder < denom
      invariant fractional * denom + remainder == rem * (b / Pow2(bit))
    {
      var doubled := AddMod(remainder, remainder, denom);
      if b / Pow2(bit) % 2 != 0 {
        var added := AddMod(doubled.0, rem, denom);
        NextBit(fractional, remainder, rem, denom, b, bit, doubled.1, added.1, added.0);
        fractional, remainder := fractional * 2 + doubled.1 + added.1, added.0;
      } else {
        NextBit(fractional, remainder, rem, denom, b, bit, doubled.1, 0, doubled.0);
        fractional, remainder := fractional * 2 + doubled.1, doubled.0;
      }
    }
  }

  /** `whole * b` and the fractional part recombine to the exact answer, or prove it cannot fit. */
  lemma Recombine(a: u128, b: u128, denom: u128, fractional: nat, remainder: nat)
    requires denom > 0 && remainder < denom
    requires fractional * denom + remainder == a % denom * b
    ensures MulDivRem(a, b, denom)
         == if a / denom * b + fractional > U128_MAX then None
            else Some((a / denom * b + fractional, remainder))
  {
    SplitQuotient(a, b, denom, fractional, remainder);
  }

  method WideMulDivRem(a: u128, b: u128, denom: u128) returns (r: Option<(u128, u128)>)
    ensures r == MulDivRem(a, b, denom)
  {
    if denom == 0 {
      return None;
    }
    Pow2Values();
    var fractional, remainder := FractionalPart(a % denom, b, denom, 128);
    Recombine(a, b, denom, fractional, remainder);
    var quotient := a / denom * b;
    if quotient > U128_MAX {
      return None;
    }
    if quotient + fractional > U128_MAX {
      return None;
    }
    r := Some((quotient + fractional, remainder));
  }

  lemma CeilFromRemainder(n: nat, denom: u128)
    requires denom > 0
    ensures Ceil(n, denom) == n / denom + (if n % denom != 0 then 1 else 0)
  {
  }

  method WideMulDivFloor(a: u128, b: u128, denom: u128) returns (r: Option<u128>)
    ensures r == MulDivFloor(a, b, denom)
  {
    var exact := WideMulDivRem(a, b, denom);
    match exact {
      case None => r := None;
      case Some(pair) => r := Some(pair.0);
    }
  }

  method WideMulDivCeil(a: u128, b: u128, denom: u128) returns (r: Option<u128>)
    ensures r == MulDivCeil(a, b, denom)
  {
    var exact := WideMulDivRem(a, b, denom);
    if denom > 0 {
      CeilFromRemainder(a * b, denom);
    }
    match exact {
      case None =>
        r := None;
      case Some(pair) =>
        var carry := if pair.1 != 0 then 1 else 0;
        if pair.0 + carry > U128_MAX {
          r := None;
        } else {
          r := Some(pair.0 + carry);
        }
    }
  }

  lemma PrefixFits(b: u128, bit: nat)
    ensures 2 * (b / Pow2(bit + 1)) <= b / Pow2(bit) <= b
  {
    BitOfPrefix(b, bit);
    FloorIsLargest(b, Pow2(bit), b / Pow2(bit));
    MulMonotone(1, Pow2(bit), b / Pow2(bit));
  }
}
