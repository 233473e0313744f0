/**
 The pure share arithmetic of an insurance pool (subledger/src/lib.rs, from `VIRTUAL_SHARES` to
 `require_bounded_share_rounding`): pricing with a virtual offset, redemption, the rate-safe burn and
 the packed share generation.

 Throughout, a pool with `totalShares`, `virtualShares` and a priced `balance` quotes every share at
 (balance + 1) / (totalShares + virtualShares).
 */
module ShareMath {
  import opened Machine
  import opened Division
  import opened WideArithmetic

  const VIRTUAL_SHARES: u128 := 1_000_000
  const VIRTUAL_SHARE_SCALE_LIMIT: nat := 20
  const SHARE_GENERATION_MASK: nat := 0xF_FFFF
  const U40_MAX: nat := 0xFF_FFFF_FFFF

  type counter20 = n: int | 0 <= n <= SHARE_GENERATION_MASK

  /** The two counters packed in the u40 generation: exact-loss resets and lazy rescalings. */
  datatype Generation = Generation(reset: counter20, scale: counter20)

  datatype Policy = Principal | WithSurplus

  function EncodeGeneration(reset: nat, scale: nat): Result<Generation> {
    if reset > SHARE_GENERATION_MASK || scale > SHARE_GENERATION_MASK then Err(ArithmeticOverflow)
    else Ok(Generation(reset, scale))
  }

  /** The serialized word: the reset counter in the low 20 bits, the scale epoch above it. */
  function PackGeneration(g: Generation): nat {
    g.reset + g.scale * 0x10_0000
  }

  function UnpackGeneration(encoded: u64): Result<Generation> {
    if encoded > U40_MAX then Err(InvalidAccountData)
    else Ok(Generation(encoded % 0x10_0000, encoded / 0x10_0000))
  }

  lemma GenerationRoundTrip(g: Generation, encoded: u64)
    ensures PackGeneration(g) <= U40_MAX && UnpackGeneration(PackGeneration(g)) == Ok(g)
    ensures UnpackGeneration(encoded).Ok? <==> encoded <= U40_MAX
    ensures encoded <= U40_MAX ==> PackGeneration(UnpackGeneration(encoded).value) == encoded
  {
    DivUnique(PackGeneration(g), 0x10_0000, g.scale);
  }

  function VirtualShares(scale: counter20): (v: u128)
    ensures 1 <= v <= VIRTUAL_SHARES
  {
    if scale >= VIRTUAL_SHARE_SCALE_LIMIT then 1
    else
      CeilIsLeast(VIRTUAL_SHARES, Pow2(scale), VIRTUAL_SHARES);
      MulMonotone(1, Pow2(scale), VIRTUAL_SHARES);
      CeilIsLeast(VIRTUAL_SHARES, Pow2(scale), 0);
      Ceil(VIRTUAL_SHARES, Pow2(scale))
  }

  function MintShares(amount: u64, totalShares: u128, balance: u64, virtualShares: u128): Result<u128> {
    if totalShares + virtualShares > U128_MAX then Err(ArithmeticOverflow)
    else match MulDivFloor(amount, totalShares + virtualShares, balance + 1)
      case Some(shares) => Ok(shares)
      case None => Err(ArithmeticOverflow)
  }

  function RedeemShares(shares: u128, balance: u64, totalShares: u128, virtualShares: u128): Result<u64> {
    if totalShares + virtualShares > U128_MAX then Err(ArithmeticOverflow)
    else match MulDivFloor(shares, balance + 1, totalShares + virtualShares)
      case Some(owed) => if owed <= U64_MAX then Ok(owed) else Err(ArithmeticOverflow)
      case None => Err(ArithmeticOverflow)
  }

  function RateSafeBurn(retired: u128, balanceBefore: u64, balanceAfter: u64, totalShares: u128,
                        virtualShares: u128): Result<u128> {
    if retired > totalShares || balanceAfter > balanceBefore then Err(InvalidAccountData)
    else if totalShares + virtualShares > U128_MAX then Err(ArithmeticOverflow)
    else match MulDivCeil(balanceAfter + 1, totalShares + virtualShares, balanceBefore + 1)
      case None => Err(ArithmeticOverflow)
      case Some(minimumDenominatorAfter) =>
        if minimumDenominatorAfter > totalShares + virtualShares then Err(InvalidAccountData)
        else Ok(Min(retired, totalShares + virtualShares - minimumDenominatorAfter))
  }

  function TotalSharesAfterExit(policy: Policy, outstandingAfter: u64, pricedBalanceAfter: u64,
                                totalShares: u128, burned: u128): Result<u128> {
    if outstandingAfter == 0 then
      (match policy
       case Principal => Ok(0)
       case WithSurplus => Ok(pricedBalanceAfter * VIRTUAL_SHARES))
    else if burned > totalShares then Err(InvalidAccountData)
    else Ok(totalShares - burned)
  }

  function RequireBoundedShareRounding(amount: u64, minted: u128, totalShares: u128, balanceBefore: u64,
                                       virtualShares: u128): Result<()> {
    if minted == 0 then Err(InvalidArgument)
    else if balanceBefore + amount > U64_MAX || totalShares + minted > U128_MAX then Err(ArithmeticOverflow)
    else
      var immediateValue :- RedeemShares(minted, balanceBefore + amount, totalShares + minted, virtualShares);
      Require(immediateValue != 0 && SaturatingSub(amount, immediateValue) <= 1, InvalidArgument)
  }

  // ------------------------------------------------------------------------------------------
  // Redemption
  // ------------------------------------------------------------------------------------------

  /** Shares that are part of the pool always redeem, and never for more than the priced balance. */
  lemma RedeemTotal(shares: u128, balance: u64, totalShares: u128, virtualShares: u128)
    requires shares <= totalShares && virtualShares > 0 && totalShares + virtualShares <= U128_MAX
    ensures RedeemShares(shares, balance, totalShares, virtualShares)
         == Ok(shares * (balance + 1) / (totalShares + virtualShares))
    ensures shares * (balance + 1) / (totalShares + virtualShares) <= balance
  {
    var d := totalShares + virtualShares;
    FloorIsLargest(shares * (balance + 1), d, balance + 1);
    MulMonotone(shares + 1, d, balance + 1);
    assert (balance + 1) * d == d * (balance + 1);
    Distribute(shares, 1, balance + 1);
    assert 0 <= shares * (balance + 1);
    FloorIsLargest(shares * (balance + 1), d, 0);
  }

  // ------------------------------------------------------------------------------------------
  // Entry
  // ------------------------------------------------------------------------------------------

  /** Whatever the rounding, less than one share too many cannot be worth an extra atom. */
  lemma EntryWorthAtMost(amount: nat, minted: nat, n: nat, d: nat)
    requires d > 0
    requires minted * n < amount * d + d + minted
    ensures minted * (n + amount) / (d + minted) <= amount
  {
    FloorIsLargest(minted * (n + amount), d + minted, amount + 1);
    assert (amount + 1) * (d + minted) == amount * d + amount * minted + d + minted;
    assert minted * (n + amount) == minted * n + amount * minted;
  }

  /** The guard on an entry that was not over-minted: it is worth the deposit or one atom less. */
  lemma AcceptedEntryValue(amount: u64, minted: u128, totalShares: u128, balance: u64, virtualShares: u128)
    requires virtualShares > 0
    requires RequireBoundedShareRounding(amount, minted, totalShares, balance, virtualShares).Ok?
    requires minted * (balance + 1) < amount * (totalShares + virtualShares) + totalShares + virtualShares + minted
    ensures RedeemShares(minted, balance + amount, totalShares + minted, virtualShares).Ok?
    ensures var value := RedeemShares(minted, balance + amount, totalShares + minted, virtualShares).value;
            0 < value && amount - 1 <= value <= amount
  {
    EntryWorthAtMost(amount, minted, balance + 1, totalShares + virtualShares);
    assert balance + amount + 1 == balance + 1 + amount;
    assert totalShares + minted + virtualShares == totalShares + virtualShares + minted;
  }

  /** A floor mint never lowers the redeemable value of a share held before it. */
  lemma FloorMintKeepsHolders(held: nat, amount: nat, minted: nat, n: nat, d: nat)
    requires n > 0 && d > 0
    requires minted * n <= amount * d
    ensures held * n / d <= held * (n + amount) / (d + minted)
  {
    var q := held * n / d;
    FloorIsLargest(held * n, d, q);
    assert q * minted <= held * amount by {
      MulMonotone(q * d, held * n, minted * n);
      MulMonotone(minted * n, amount * d, held * n);
      assert q * d * (minted * n) == q * minted * (d * n);
      assert amount * d * (held * n) == held * amount * (d * n);
      assert held * n * (minted * n) == minted * n * (held * n);
      MulMonotone(1, d, n);
      CancelFactor(q * minted, held * amount, d * n);
    }
    FloorIsLargest(held * (n + amount), d + minted, q);
    assert q * (d + minted) == q * d + q * minted;
    assert held * (n + amount) == held * n + held * amount;
  }

  // ------------------------------------------------------------------------------------------
  // Exit
  // ------------------------------------------------------------------------------------------

  /** The quoted rate (balance + 1) / denominator has not risen. */
  ghost predicate RateNotRaised(balanceBefore: nat, denominatorBefore: nat, balanceAfter: nat, denominatorAfter: nat) {
    (balanceAfter + 1) * denominatorBefore <= (balanceBefore + 1) * denominatorAfter
  }

  /** Inside a consistent pool the burn exists and is part of the retired shares. */
  lemma BurnTotal(retired: u128, balanceBefore: u64, balanceAfter: u64, totalShares: u128, virtualShares: u128)
    requires retired <= totalShares && balanceAfter <= balanceBefore
    requires virtualShares > 0 && totalShares + virtualShares <= U128_MAX
    ensures var least := Ceil((balanceAfter + 1) * (totalShares + virtualShares), balanceBefore + 1);
            && least <= totalShares + virtualShares
            && RateSafeBurn(retired, balanceBefore, balanceAfter, totalShares, virtualShares)
            == Ok(Min(retired, totalShares + virtualShares - least))
  {
    var d := totalShares + virtualShares;
    MulMonotone(balanceAfter + 1, balanceBefore + 1, d);
    assert (balanceBefore + 1) * d == d * (balanceBefore + 1);
    CeilIsLeast((balanceAfter + 1) * d, balanceBefore + 1, d);
  }

  /** The burn is the largest part of the retired shares whose burning does not raise the rate. */
  lemma BurnIsLargestSafe(retired: u128, balanceBefore: u64, balanceAfter: u64, totalShares: u128,
                          virtualShares: u128, part: nat)
    requires part <= retired <= totalShares && balanceAfter <= balanceBefore
    requires virtualShares > 0 && totalShares + virtualShares <= U128_MAX
    ensures var r := RateSafeBurn(retired, balanceBefore, balanceAfter, totalShares, virtualShares);
            && r.Ok? && r.value <= retired
            && (part <= r.value <==>
                RateNotRaised(balanceBefore, totalShares + virtualShares,
                              balanceAfter, totalShares + virtualShares - part))
  {
    BurnTotal(retired, balanceBefore, balanceAfter, totalShares, virtualShares);
    SafePart(balanceBefore, balanceAfter, totalShares + virtualShares, part);
  }

  lemma SafePart(balanceBefore: nat, balanceAfter: nat, d: nat, part: nat)
    requires part <= d
    ensures part <= d - Ceil((balanceAfter + 1) * d, balanceBefore + 1)
       <==> RateNotRaised(balanceBefore, d, balanceAfter, d - part)
  {
    CeilIsLeast((balanceAfter + 1) * d, balanceBefore + 1, d - part);
  }

  /** If the rate did not rise, no holding redeems for more than before. */
  lemma LowerRateLowerValue(held: nat, balanceBefore: nat, denominatorBefore: nat, balanceAfter: nat,
                            denominatorAfter: nat)
    requires denominatorBefore > 0 && denominatorAfter > 0
    requires RateNotRaised(balanceBefore, denominatorBefore, balanceAfter, denominatorAfter)
    ensures held * (balanceAfter + 1) / denominatorAfter <= held * (balanceBefore + 1) / denominatorBefore
  {
    var q := held * (balanceAfter + 1) / denominatorAfter;
    FloorIsLargest(held * (balanceAfter + 1), denominatorAfter, q);
    assert q * denominatorBefore <= held * (balanceBefore + 1) by {
      MulMonotone(q * denominatorAfter, held * (balanceAfter + 1), denominatorBefore);
      MulMonotone((balanceAfter + 1) * denominatorBefore, (balanceBefore + 1) * denominatorAfter, held);
      assert held * (balanceAfter + 1) * denominatorBefore == (balanceAfter + 1) * denominatorBefore * held;
      assert held * (balanceBefore + 1) * denominatorAfter == (balanceBefore + 1) * denominatorAfter * held;
      assert q * denominatorBefore * denominatorAfter == q * denominatorAfter * denominatorBefore;
      CancelFactor(q * denominatorBefore, held * (balanceBefore + 1), denominatorAfter);
    }
    FloorIsLargest(held * (balanceBefore + 1), denominatorBefore, q);
  }

  // ------------------------------------------------------------------------------------------
  // Rescaling
  // ------------------------------------------------------------------------------------------

  /** The virtual offset is ceiling-halved by every rescale, exactly like the pool total. */
  lemma VirtualSharesHalve(scale: counter20)
    requires scale < SHARE_GENERATION_MASK
    ensures VirtualShares(scale + 1) == Ceil(VirtualShares(scale), 2)
  {
    if scale < VIRTUAL_SHARE_SCALE_LIMIT {
      CeilHalf(VIRTUAL_SHARES, Pow2(scale));
      assert Pow2(scale + 1) == 2 * Pow2(scale);
      if scale == VIRTUAL_SHARE_SCALE_LIMIT - 1 {
        Pow2Values();
        CeilIsLeast(VIRTUAL_SHARES, Pow2(20), 1);
        CeilIsLeast(VIRTUAL_SHARES, Pow2(20), 0);
      }
    }
  }

  /** One rescale (pool rounded up, holding rounded down) never raises what the holding redeems for. */
  lemma RescaleNeverRaises(held: nat, n: nat, totalShares: nat, virtualShares: nat)
    requires virtualShares > 0
    ensures held / 2 * n / (Ceil(totalShares, 2) + Ceil(virtualShares, 2)) <= held * n / (totalShares + virtualShares)
  {
    HalvedValue(held, held / 2, n, totalShares + virtualShares, Ceil(totalShares, 2) + Ceil(virtualShares, 2));
  }

  /** Half the shares over at least half the denominator are worth no more. */
  lemma HalvedValue(held: nat, half: nat, n: nat, d: nat, d': nat)
    requires 2 * half <= held && 0 < d <= 2 * d'
    ensures half * n / d' <= held * n / d
  {
    var q := half * n / d';
    MulMonotone(0, half, n);
    FloorIsLargest(half * n, d', q);
    FloorIsLargest(half * n, d', 0);
    MulMonotone(2 * half, held, n);
    MulMonotone(d, 2 * d', q);
    assert 2 * half * n == 2 * (half * n);
    assert 2 * d' * q == 2 * (q * d') && d * q == q * d;
    FloorIsLargest(held * n, d, q);
  }

  /** The lazy catch-up of a position: a right shift, zero from 128 steps on. */
  function ShiftRight(shares: u128, steps: nat): u128 {
    if steps >= 128 then 0
    else
      DivShrinks(shares, Pow2(steps));
      shares / Pow2(steps)
  }

  /** Halving `steps` times, one rescale at a time. */
  function HalveDown(shares: u128, steps: nat): u128 {
    if steps == 0 then shares else HalveDown(shares, steps - 1) / 2
  }

  lemma {:induction false} HalvingIsDivision(shares: u128, steps: nat)
    ensures HalveDown(shares, steps) == shares / Pow2(steps)
  {
    if steps > 0 {
      HalvingIsDivision(shares, steps - 1);
      DivDiv(shares, Pow2(steps - 1), 2);
    }
  }

  lemma ShiftIsDivision(shares: u128, steps: nat)
    ensures ShiftRight(shares, steps) == shares / Pow2(steps)
  {
    if steps >= 128 {
      Pow2Values();
      Pow2Monotone(128, steps);
      DivUnique(shares, Pow2(steps), 0);
    }
  }

  /** The lazy shift is exactly the eager halving it stands for. */
  lemma LazyShiftIsEagerHalving(shares: u128, steps: nat)
    ensures ShiftRight(shares, steps) == HalveDown(shares, steps) == shares / Pow2(steps)
  {
    HalvingIsDivision(shares, steps);
    ShiftIsDivision(shares, steps);
  }
}
