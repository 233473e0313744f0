/**
 The point arithmetic of the reward epochs (residual-distributor/src/lib.rs): the exact pro-rata split
 by binary long division, the tenure weight, the live caps of the residual cohorts and the claim fee.
 */
module RewardMath {
  import opened Machine
  import opened Division
  import opened WideArithmetic

  const BPS: nat := 10_000
  type Bps = n: int | 0 <= n <= BPS

  /** The exact share `floor(supply * points / total)`; nothing for a point count outside the total. */
  function ShareOf(supply: u64, points: u128, total: u128): u64 {
    if total == 0 || points > total then 0
    else
      ShareWithin(supply, points, total);
      supply * points / total
  }

  lemma ShareWithin(supply: nat, points: nat, total: nat)
    requires total > 0 && points <= total
    ensures 0 <= supply * points / total <= supply
  {
    MulMonotone(points, total, supply);
    FloorIsLargest(supply * points, total, 0);
    FloorIsLargest(supply * points, total, supply + 1);
    Distribute(supply, 1, total);
  }

  lemma ShareMonotone(supply: u64, points: u128, more: u128, total: u128)
    requires points <= more <= total
    ensures ShareOf(supply, points, total) <= ShareOf(supply, more, total)
  {
    if total > 0 {
      MulMonotone(points, more, supply);
      FloorIsLargest(supply * points, total, supply * points / total);
      FloorIsLargest(supply * more, total, supply * points / total);
    }
  }

  /** `quotient` and `remainder` are the division of `product` by `total`. */
  ghost predicate Divides(quotient: nat, remainder: nat, total: nat, product: int) {
    remainder < total && quotient * total + remainder == product
  }

  /** Adding to the product modulo `total`, with the complement instead of an overflowing sum. */
  method AddModulo(quotient: u128, remainder: u128, added: u128, total: u128, ghost product: int)
    returns (quotient': u128, remainder': u128)
    requires Divides(quotient, remainder, total, product) && added <= total && quotient < U128_MAX
    ensures Divides(quotient', remainder', total, product + added)
    ensures quotient <= quotient' <= quotient + 1
  {
    quotient', remainder' := quotient, remainder;
    var complement: u128 := total - added;
    if remainder >= complement {
      remainder' := remainder - complement;
      quotient' := quotient + 1;
      Distribute(quotient, 1, total);
    } else {
      remainder' := remainder + added;
    }
  }

  method Double(quotient: u128, remainder: u128, total: u128, ghost product: int) returns (quotient': u128, remainder': u128)
    requires Divides(quotient, remainder, total, product) && quotient <= U64_MAX
    ensures Divides(quotient', remainder', total, 2 * product)
    ensures quotient' <= 2 * quotient + 1
  {
    assert quotient * 2 * total == 2 * (quotient * total);
    quotient', remainder' := AddModulo(quotient * 2, remainder, remainder, total, quotient * 2 * total + remainder);
  }

  /** Binary long division from the most significant bit: no wide product and no overflow. */
  method LongDivide(supply: u64, points: u128, total: u128, bits: nat) returns (quotient: u128)
    requires 0 < total && points <= total && supply < Pow2(bits)
    ensures quotient == supply * points / total <= supply
  {
    quotient := 0;
    var remainder: u128 := 0;
    EmptyPrefix(supply, points, total, bits);
    for bit := bits downto 0
      invariant Divides(quotient, remainder, total, supply / Pow2(bit) * points)
    {
      ghost var product := supply / Pow2(bit + 1) * points;
      NextPrefix(supply, bit, quotient, remainder, points, total);
      quotient, remainder := Double(quotient, remainder, total, product);
      if supply / Pow2(bit) % 2 != 0 {
        quotient, remainder := AddModulo(quotient, remainder, points, total, 2 * product);
      }
    }
    WholePrefix(supply, points, total, quotient, remainder);
  }

  lemma EmptyPrefix(supply: u64, points: nat, total: nat, bits: nat)
    requires supply < Pow2(bits) && total > 0
    ensures Divides(0, 0, total, supply / Pow2(bits) * points)
  {
    NoBitsAbove(supply, bits);
  }

  lemma WholePrefix(supply: u64, points: nat, total: nat, quotient: nat, remainder: nat)
    requires points <= total && Divides(quotient, remainder, total, supply / Pow2(0) * points)
    ensures quotient == supply * points / total <= supply
  {
    ShareWithin(supply, points, total);
    DivUnique(supply * points, total, quotient);
  }

  /** The quotient so far is within the supply, and the next prefix of the supply is twice the last plus its bit. */
  lemma NextPrefix(supply: u64, bit: nat, quotient: nat, remainder: nat, points: nat, total: nat)
    requires points <= total && Divides(quotient, remainder, total, supply / Pow2(bit + 1) * points)
    ensures quotient <= supply
    ensures supply / Pow2(bit) * points
         == 2 * (supply / Pow2(bit + 1) * points) + (if supply / Pow2(bit) % 2 != 0 then points else 0)
  {
    DivShrinks(supply, Pow2(bit + 1));
    QuotientWithin(quotient, remainder, supply / Pow2(bit + 1), points, total);
    BitOfPrefix(supply, bit);
    NextBit(supply / Pow2(bit + 1), supply / Pow2(bit) % 2, points);
  }

  lemma NextBit(prefix: nat, bit: nat, points: nat)
    requires bit <= 1
    ensures (2 * prefix + bit) * points == 2 * (prefix * points) + (if bit != 0 then points else 0)
  {
    Distribute(2 * prefix, bit, points);
    assert 2 * prefix * points == 2 * (prefix * points);
  }

  lemma QuotientWithin(quotient: nat, remainder: nat, prefix: nat, points: nat, total: nat)
    requires total > 0 && points <= total && quotient * total + remainder == prefix * points
    ensures quotient <= prefix
  {
    MulMonotone(points, total, prefix);
    CancelFactor(quotient, prefix, total);
  }

  method PointsToAmount(supply: u64, points: u128, total: u128) returns (amount: u64)
    ensures amount == ShareOf(supply, points, total)
  {
    if total == 0 || points > total {
      return 0;
    }
    ShareWithin(supply, points, total);
    if supply * points <= U128_MAX {
      return supply * points / total;
    }
    Pow2Values();
    amount := LongDivide(supply, points, total, 64);
  }

  // ------------------------------------------------------------------------------------------
  // Weights
  // ------------------------------------------------------------------------------------------

  /** `floor(log2(n))`, zero below two: 63 minus the leading zeros of a u64. */
  function FloorLog2(n: nat): nat {
    if n < 2 then 0 else 1 + FloorLog2(n / 2)
  }

  lemma {:induction false} FloorLog2Exact(n: nat)
    requires n > 0
    ensures Pow2(FloorLog2(n)) <= n < Pow2(FloorLog2(n) + 1)
  {
    if n >= 2 {
      FloorLog2Exact(n / 2);
    }
  }

  lemma FloorLog2Within(n: u64)
    ensures FloorLog2(n) <= 63
  {
    if n > 0 {
      FloorLog2Exact(n);
      Pow2Values();
      if FloorLog2(n) >= 64 {
        Pow2Monotone(64, FloorLog2(n));
        assert false;
      }
    }
  }

  // ------------------------------------------------------------------------------------------
  // Live caps
  // ------------------------------------------------------------------------------------------

  function ReplacePoints(total: u128, prior: u128, points: u128): Result<u128> {
    if prior > total || total - prior + points > U128_MAX then Err(ArithmeticOverflow) else Ok(total - prior + points)
  }

  /** `multiplier * net`, as a named product. */
  function Weighted(multiplier: nat, net: nat): nat {
    multiplier * net
  }

  function CapResidualPoints(points: u128, frozenNet: u128, capNet: u128): Result<u128> {
    if frozenNet == 0 || capNet >= frozenNet then Ok(points)
    else if points % frozenNet != 0 then Err(InvalidAccountData)
    else
      DivShrinks(points, frozenNet);
      if points / frozenNet * capNet > U128_MAX then Err(ArithmeticOverflow)
      else
        MulMonotone(0, points / frozenNet, capNet);
        Ok(points / frozenNet * capNet)
  }

  /** On a weighted snapshot the cap is exact and cannot be rejected: the same weight on the smaller net. */
  lemma CapIsExact(multiplier: nat, frozenNet: u128, capNet: u128)
    requires Weighted(multiplier, frozenNet) <= U128_MAX
    ensures 0 <= Weighted(multiplier, Min(frozenNet, capNet)) <= Weighted(multiplier, frozenNet)
    ensures CapResidualPoints(Weighted(multiplier, frozenNet), frozenNet, capNet)
         == Ok(Weighted(multiplier, Min(frozenNet, capNet)))
  {
    MulMonotone(Min(frozenNet, capNet), frozenNet, multiplier);
    MulMonotone(0, Min(frozenNet, capNet), multiplier);
    if frozenNet > 0 {
      DivUnique(multiplier * frozenNet, frozenNet, multiplier);
      assert multiplier * frozenNet % frozenNet == 0 by {
        assert multiplier * frozenNet == multiplier * frozenNet / frozenNet * frozenNet + multiplier * frozenNet % frozenNet;
      }
    } else {
      assert multiplier * 0 == 0;
    }
  }

  function TraderLiveCap(priorNet: u128, spentAtSnapshot: u128, currentNet: u128, currentSpent: u128): u128 {
    Min(SaturatingSub(priorNet, SaturatingSub(currentSpent, spentAtSnapshot)), currentNet)
  }

  /** A trader's net and spent counter as the last refresh left them. */
  datatype Snapshot = Snapshot(net: u128, spent: u128)

  function Refresh(s: Snapshot, seen: Snapshot): Snapshot {
    Snapshot(TraderLiveCap(s.net, s.spent, seen.net, seen.spent), seen.spent)
  }

  function RefreshAll(s: Snapshot, seen: seq<Snapshot>): Snapshot
    decreases |seen|
  {
    if seen == [] then s else RefreshAll(Refresh(s, seen[0]), seen[1..])
  }

  predicate SpentRises(from: u128, seen: seq<Snapshot>)
    decreases |seen|
  {
    seen == [] || (from <= seen[0].spent && SpentRises(seen[0].spent, seen[1..]))
  }

  /**
   Refreshing in many steps is never better than one cap against the last observation, never better
   than stopping earlier, and remembers the last spent counter.
   */
  lemma {:induction false} RefreshesOnlyReduce(s: Snapshot, seen: seq<Snapshot>)
    requires seen != [] && SpentRises(s.spent, seen)
    ensures RefreshAll(s, seen).net
         <= TraderLiveCap(s.net, s.spent, seen[|seen| - 1].net, seen[|seen| - 1].spent)
         <= s.net
    ensures RefreshAll(s, seen).spent == seen[|seen| - 1].spent >= s.spent
    decreases |seen|
  {
    var next := Refresh(s, seen[0]);
    if |seen| > 1 {
      RefreshesOnlyReduce(next, seen[1..]);
      assert seen[1..][|seen| - 2] == seen[|seen| - 1];
    } else {
      assert RefreshAll(next, []) == next;
    }
  }

  // ------------------------------------------------------------------------------------------
  // The claim fee
  // ------------------------------------------------------------------------------------------

  function Fee(amount: u64, bps: Bps): (fee: u64)
    ensures fee <= amount
    ensures amount > 0 && bps > 0 ==> fee >= 1
  {
    MulMonotone(bps, BPS, amount);
    CeilIsLeast(amount * bps, BPS, amount);
    CeilIsLeast(amount * bps, BPS, 0);
    assert amount > 0 && bps > 0 ==> amount * bps > 0;
    Ceil(amount * bps, BPS)
  }

  function Net(amount: u64, bps: Bps): u64 {
    amount - Fee(amount, bps)
  }

  /** Splitting one stake into two dust stakes never pays more than claiming it whole. */
  lemma FragmentationNeverPays(supply: u64, a: u128, b: u128, total: u128, bps: Bps)
    requires a + b <= total
    ensures Net(ShareOf(supply, a, total), bps) + Net(ShareOf(supply, b, total), bps)
         <= Net(ShareOf(supply, a + b, total), bps)
  {
    SharesSplit(supply, a, b, total);
    NetSplit(ShareOf(supply, a, total), ShareOf(supply, b, total), ShareOf(supply, a + b, total), bps);
  }

  lemma SharesSplit(supply: u64, a: u128, b: u128, total: u128)
    requires a + b <= total
    ensures ShareOf(supply, a, total) + ShareOf(supply, b, total) <= ShareOf(supply, a + b, total)
  {
    if total > 0 {
      assert supply * (a + b) == supply * a + supply * b;
      FloorsSplit(supply * a, supply * b, total);
    }
  }

  lemma FloorsSplit(m: nat, n: nat, d: nat)
    requires d > 0
    ensures m / d + n / d <= (m + n) / d
  {
    FloorIsLargest(m, d, m / d);
    FloorIsLargest(n, d, n / d);
    Distribute(m / d, n / d, d);
    FloorIsLargest(m + n, d, m / d + n / d);
  }

  lemma NetSplit(x: u64, y: u64, whole: u64, bps: Bps)
    requires x + y <= whole
    ensures Net(x, bps) + Net(y, bps) <= Net(whole, bps)
  {
    var extra := whole - x - y;
    MulMonotone(bps, BPS, extra);
    assert whole * bps == x * bps + y * bps + extra * bps;
    CeilIsLeast(whole * bps, BPS, Fee(x, bps) + Fee(y, bps) + extra);
    CeilIsLeast(x * bps, BPS, Fee(x, bps));
    CeilIsLeast(y * bps, BPS, Fee(y, bps));
  }
}
