/**
 The mint with capacity is total: whatever the amount, the balance and the total, the bounded retry
 loop neither runs out of tries nor meets a total it cannot halve. It fails only when the 20-bit
 scale epoch is exhausted, and what it mints is priced fairly even after a rescale.
 */
module MintCapacity {
  import opened Machine
  import opened Division
  import opened WideArithmetic
  import opened ShareMath
  import opened ShareLedger

  /** There is room for the mint: the basis times (1 + amount / (balance + 1)) stays within u128. */
  predicate Fits(totalShares: nat, scale: counter20, amount: nat, balance: nat) {
    (totalShares + VirtualShares(scale)) * (balance + 1 + amount) <= U128_MAX * (balance + 1)
  }

  /** The pool total after `steps` rescales. */
  function HalveUp(totalShares: nat, steps: nat): nat
    decreases steps
  {
    if steps == 0 then totalShares else HalveUp(Ceil(totalShares, 2), steps - 1)
  }

  /** The exact maximal basis computed by the program is the largest one that fits. */
  lemma MaximumBasis(amount: u64, balance: u64)
    ensures MulDivFloor(U128_MAX, balance + 1, balance + 1 + amount).Some?
    ensures MulDivFloor(U128_MAX, balance + 1, balance + 1 + amount).value
         == U128_MAX * (balance + 1) / (balance + 1 + amount)
  {
    var n := balance + 1;
    FloorIsLargest(U128_MAX * n, n + amount, U128_MAX + 1);
    FloorIsLargest(U128_MAX * n, n + amount, 0);
    MulMonotone(n, n + amount, U128_MAX + 1);
    assert U128_MAX * n < (U128_MAX + 1) * n;
  }

  lemma Commute(a: int, b: int)
    ensures a * b == b * a
  {
  }

  /** A total that does not fit is huge: it can be halved, and its basis dwarfs the balance. */
  lemma TooBigIsHuge(totalShares: nat, scale: counter20, amount: u64, balance: u64)
    requires !Fits(totalShares, scale, amount, balance)
    ensures totalShares > 0x8000_0000_0000_0001
    ensures totalShares + VirtualShares(scale) > 2 * (balance + 1)
  {
    var n, d := balance + 1, totalShares + VirtualShares(scale);
    assert n + amount <= 0x1_0000_0000_0000_0000 * n;
    if totalShares <= 0x8000_0000_0000_0001 {
      MulMonotone(d, 0x8000_0000_0010_0000, n + amount);
    }
    if d <= 2 * n {
      MulMonotone(d, 2 * n, n + amount);
      MulMonotone(n + amount, 0x2_0000_0000_0000_0000, 2 * n);
      Commute(n + amount, 2 * n);
    }
  }

  /** A fitting basis mints, by floor or by ceiling, shares that stay within the u128 namespace. */
  lemma FittingMint(basis: nat, amount: u64, balance: u64)
    requires basis * (balance + 1 + amount) <= U128_MAX * (balance + 1)
    ensures basis <= U128_MAX
    ensures amount * basis / (balance + 1) <= Ceil(amount * basis, balance + 1) <= U128_MAX - basis
    ensures amount * basis / (balance + 1) * (balance + 1) <= amount * basis
    ensures 0 <= amount * basis / (balance + 1)
  {
    var n := balance + 1;
    assert basis * (n + amount) == basis * n + amount * basis;
    assert 0 <= amount * basis;
    CancelFactor(basis, U128_MAX, n);
    Distribute(U128_MAX - basis, basis, n);
    CeilIsLeast(amount * basis, n, U128_MAX - basis);
    FloorIsLargest(amount * basis, n, amount * basis / n);
    FloorIsLargest(amount * basis, n, 0);
    CeilIsLeast(amount * basis, n, Ceil(amount * basis, n));
    FloorIsLargest(amount * basis, n, Ceil(amount * basis, n) + 1);
    assert (Ceil(amount * basis, n) + 1) * n == Ceil(amount * basis, n) * n + n;
  }

  /** The shares of a mint on `basis`: rounded up only right after a rescale. */
  function MintRounded(basis: nat, amount: nat, balance: nat, rescaled: bool): int {
    if rescaled then Ceil(amount * basis, balance + 1) else amount * basis / (balance + 1)
  }

  /** One try succeeds exactly when the total fits; its last capacity check never rejects. */
  lemma TryDecides(pool: Pool, amount: u64, balance: u64, rescaled: bool)
    ensures MulDivFloor(U128_MAX, balance + 1, balance + 1 + amount).Some?
    ensures var maximumBasis := MulDivFloor(U128_MAX, balance + 1, balance + 1 + amount);
            var basis := pool.totalShares + VirtualShares(pool.generation.scale);
            (TryMint(pool, amount, balance, maximumBasis.value, rescaled)
             == Ok(if Fits(pool.totalShares, pool.generation.scale, amount, balance)
                   then Some(MintRounded(basis, amount, balance, rescaled)) else None))
  {
    var basis := pool.totalShares + VirtualShares(pool.generation.scale);
    MaximumBasis(amount, balance);
    FloorIsLargest(U128_MAX * (balance + 1), balance + 1 + amount, basis);
    if Fits(pool.totalShares, pool.generation.scale, amount, balance) {
      FittingMint(basis, amount, balance);
    }
  }

  /** A rescale of a total that does not fit never hits the "cannot halve" error. */
  lemma RescaleOfHuge(pool: Pool, amount: u64, balance: u64)
    requires !Fits(pool.totalShares, pool.generation.scale, amount, balance)
    ensures Rescale(pool).Ok? <==> pool.generation.scale < SHARE_GENERATION_MASK
    ensures Rescale(pool).Ok? ==>
              && Rescale(pool).value.totalShares == Ceil(pool.totalShares, 2)
              && Rescale(pool).value
              == pool.(totalShares := Ceil(pool.totalShares, 2),
                       generation := Generation(pool.generation.reset, pool.generation.scale + 1))
              && balance + 1 <= Rescale(pool).value.totalShares + VirtualShares(pool.generation.scale + 1)
  {
    TooBigIsHuge(pool.totalShares, pool.generation.scale, amount, balance);
    CeilIsLeast(pool.totalShares, 2, pool.totalShares - 1);
    if pool.generation.scale < SHARE_GENERATION_MASK {
      VirtualSharesHalve(pool.generation.scale);
    }
  }

  /** `scaled` is `pool` after some number of rescales. */
  predicate RescaledTo(pool: Pool, scaled: Pool) {
    && pool.generation.scale <= scaled.generation.scale
    && scaled.totalShares == HalveUp(pool.totalShares, scaled.generation.scale - pool.generation.scale)
    && scaled == pool.(totalShares := scaled.totalShares,
                       generation := Generation(pool.generation.reset, scaled.generation.scale))
  }

  /** The minted shares have room beside the total and the virtual offset. */
  predicate HasRoom(minted: Minted) {
    && minted.virtualShares == VirtualShares(minted.pool.generation.scale)
    && minted.pool.totalShares + minted.shares + minted.virtualShares <= U128_MAX
  }

  /** What the mint promises: the least number of rescales that fits, and shares rounded accordingly. */
  ghost predicate MintedFrom(pool: Pool, amount: u64, balance: u64, rescaled: bool, minted: Minted) {
    var steps := minted.pool.generation.scale - pool.generation.scale;
    var basis := minted.pool.totalShares + minted.virtualShares;
    && RescaledTo(pool, minted.pool)
    && HasRoom(minted)
    && Fits(minted.pool.totalShares, minted.pool.generation.scale, amount, balance)
    && (forall j: nat :: j < steps ==> !Fits(HalveUp(pool.totalShares, j), pool.generation.scale + j, amount, balance))
    && minted.shares == MintRounded(basis, amount, balance, rescaled || steps > 0)
    && (rescaled || steps > 0 ==> balance + 1 <= basis)
  }

  /** No number of rescales within the scale epoch makes room. */
  ghost predicate EpochExhausted(pool: Pool, amount: u64, balance: u64) {
    forall j: nat :: j <= SHARE_GENERATION_MASK - pool.generation.scale ==>
      !Fits(HalveUp(pool.totalShares, j), pool.generation.scale + j, amount, balance)
  }

  /** The total halves down to a fitting one within `tries` tries. */
  predicate WithinTries(totalShares: nat, tries: nat) {
    totalShares - 1 <= Pow2(62 + tries)
  }

  lemma AllWithinTries(totalShares: u128, tries: nat)
    requires tries >= 66
    ensures WithinTries(totalShares, tries)
  {
    Pow2Values();
    Pow2Monotone(128, 62 + tries);
  }

  /** The retry loop, started with enough tries for its total, decides the mint. */
  lemma {:induction false} MintLoopTotal(pool: Pool, amount: u64, balance: u64, rescaled: bool, tries: nat)
    requires tries > 0 && WithinTries(pool.totalShares, tries)
    requires rescaled ==> balance + 1 <= pool.totalShares + VirtualShares(pool.generation.scale)
    ensures var maximumBasis := MulDivFloor(U128_MAX, balance + 1, balance + 1 + amount);
            maximumBasis.Some? &&
            var r := MintLoop(pool, amount, balance, maximumBasis.value, rescaled, tries);
            && (r.Ok? ==> MintedFrom(pool, amount, balance, rescaled, r.value))
            && (r.Err? ==> EpochExhausted(pool, amount, balance))
    decreases tries
  {
    TryDecides(pool, amount, balance, rescaled);
    if Fits(pool.totalShares, pool.generation.scale, amount, balance) {
      FittingMint(pool.totalShares + VirtualShares(pool.generation.scale), amount, balance);
    } else {
      TooBigIsHuge(pool.totalShares, pool.generation.scale, amount, balance);
      RescaleOfHuge(pool, amount, balance);
      EnoughTries(pool.totalShares, tries);
      if pool.generation.scale < SHARE_GENERATION_MASK {
        MintAfterRescale(pool, amount, balance, rescaled, tries);
      } else {
        ExhaustedAfterRescale(pool, amount, balance);
      }
    }
  }

  /** The pool one rescale later. */
  function Halved(pool: Pool): Pool
    requires pool.generation.scale < SHARE_GENERATION_MASK
  {
    CeilIsLeast(pool.totalShares, 2, pool.totalShares);
    pool.(totalShares := Ceil(pool.totalShares, 2),
          generation := Generation(pool.generation.reset, pool.generation.scale + 1))
  }

  lemma MintedAfterRescale(pool: Pool, amount: u64, balance: u64, rescaled: bool, minted: Minted)
    requires pool.generation.scale < SHARE_GENERATION_MASK
    requires !Fits(pool.totalShares, pool.generation.scale, amount, balance)
    requires MintedFrom(Halved(pool), amount, balance, true, minted)
    ensures MintedFrom(pool, amount, balance, rescaled, minted)
  {
    var steps := minted.pool.generation.scale - pool.generation.scale;
    forall j: nat | j < steps
      ensures !Fits(HalveUp(pool.totalShares, j), pool.generation.scale + j, amount, balance)
    {
      if j > 0 {
        assert HalveUp(pool.totalShares, j) == HalveUp(Halved(pool).totalShares, j - 1);
      }
    }
  }

  lemma ExhaustedAfterRescale(pool: Pool, amount: u64, balance: u64)
    requires !Fits(pool.totalShares, pool.generation.scale, amount, balance)
    requires pool.generation.scale < SHARE_GENERATION_MASK ==> EpochExhausted(Halved(pool), amount, balance)
    ensures EpochExhausted(pool, amount, balance)
  {
    forall j: nat | j <= SHARE_GENERATION_MASK - pool.generation.scale
      ensures !Fits(HalveUp(pool.totalShares, j), pool.generation.scale + j, amount, balance)
    {
      if j > 0 {
        assert HalveUp(pool.totalShares, j) == HalveUp(Halved(pool).totalShares, j - 1);
      }
    }
  }

  lemma MintAfterRescale(pool: Pool, amount: u64, balance: u64, rescaled: bool, tries: nat)
    requires tries > 1 && WithinTries(Ceil(pool.totalShares, 2), tries - 1)
    requires !Fits(pool.totalShares, pool.generation.scale, amount, balance)
    requires pool.generation.scale < SHARE_GENERATION_MASK
    ensures var maximumBasis := MulDivFloor(U128_MAX, balance + 1, balance + 1 + amount);
            maximumBasis.Some? && Rescale(pool).Ok? &&
            var r := MintLoop(Rescale(pool).value, amount, balance, maximumBasis.value, true, tries - 1);
            && (r.Ok? ==> MintedFrom(pool, amount, balance, rescaled, r.value))
            && (r.Err? ==> EpochExhausted(pool, amount, balance))
    decreases tries, 0
  {
    RescaleOfHuge(pool, amount, balance);
    MintLoopTotal(Halved(pool), amount, balance, true, tries - 1);
    var maximumBasis := MulDivFloor(U128_MAX, balance + 1, balance + 1 + amount).value;
    match MintLoop(Halved(pool), amount, balance, maximumBasis, true, tries - 1) {
      case Ok(minted) => MintedAfterRescale(pool, amount, balance, rescaled, minted);
      case Err(_) => ExhaustedAfterRescale(pool, amount, balance);
    }
  }

  /** The bound on the total halves with every try, so a huge total never meets the last one. */
  lemma EnoughTries(totalShares: nat, tries: nat)
    requires tries > 0 && totalShares > 0x8000_0000_0000_0001
    requires WithinTries(totalShares, tries)
    ensures tries > 1 && WithinTries(Ceil(totalShares, 2), tries - 1)
  {
    assert Pow2(62 + tries) == 2 * Pow2(61 + tries);
    Pow2Values();
    assert Pow2(64) == 2 * Pow2(63);
    assert tries != 1;
  }

  /** The whole mint: it fails exactly when no rescale within the epoch makes room. */
  lemma MintTotal(pool: Pool, amount: u64, balance: u64)
    ensures var r := MintWithCapacity(pool, amount, balance);
            && (r.Err? <==> EpochExhausted(pool, amount, balance))
            && (r.Ok? ==> MintedFrom(pool, amount, balance, false, r.value))
  {
    AllWithinTries(pool.totalShares, MINT_TRIES);
    MaximumBasis(amount, balance);
    MintLoopTotal(pool, amount, balance, false, MINT_TRIES);
    match MintWithCapacity(pool, amount, balance) {
      case Ok(minted) => MintedIsRoom(pool, amount, balance, minted);
      case Err(_) =>
    }
  }

  lemma MintedIsRoom(pool: Pool, amount: u64, balance: u64, minted: Minted)
    requires MintedFrom(pool, amount, balance, false, minted)
    ensures !EpochExhausted(pool, amount, balance)
  {
    var steps := minted.pool.generation.scale - pool.generation.scale;
    assert Fits(HalveUp(pool.totalShares, steps), pool.generation.scale + steps, amount, balance);
  }

  /** A total that already fits is minted into as it is, with the price rounded down. */
  lemma FittingMintNeedsNoRescale(pool: Pool, amount: u64, balance: u64, shares: u128)
    requires Fits(pool.totalShares, pool.generation.scale, amount, balance)
    requires shares == MintRounded(pool.totalShares + VirtualShares(pool.generation.scale), amount, balance, false)
    ensures MintWithCapacity(pool, amount, balance) == Ok(Minted(pool, shares, VirtualShares(pool.generation.scale)))
  {
    TryDecides(pool, amount, balance, false);
  }

  /** After `steps` halvings at most 2^(128 - steps) + 1 shares are left. */
  lemma {:induction false} HalveUpShrinks(totalShares: nat, steps: nat, bits: nat)
    requires totalShares - 1 <= Pow2(bits + steps)
    ensures HalveUp(totalShares, steps) - 1 <= Pow2(bits)
    decreases steps
  {
    if steps > 0 {
      assert Pow2(bits + steps) == 2 * Pow2(bits + steps - 1);
      HalveUpShrinks(Ceil(totalShares, 2), steps - 1, bits);
    }
  }

  /** 65 epochs of headroom are always enough. */
  lemma MintNeverFailsWithHeadroom(pool: Pool, amount: u64, balance: u64)
    requires pool.generation.scale <= SHARE_GENERATION_MASK - 65
    ensures MintWithCapacity(pool, amount, balance).Ok?
    ensures MintWithCapacity(pool, amount, balance).value.pool.generation.scale <= pool.generation.scale + 65
  {
    Pow2Values();
    assert Pow2(64) == 2 * Pow2(63);
    var steps := 65;
    HalveUpShrinks(pool.totalShares, steps, 63);
    var total := HalveUp(pool.totalShares, steps);
    if !Fits(total, pool.generation.scale + steps, amount, balance) {
      TooBigIsHuge(total, pool.generation.scale + steps, amount, balance);
      assert false;
    }
    MintTotal(pool, amount, balance);
  }

  // ------------------------------------------------------------------------------------------
  // No profitable entry
  // ------------------------------------------------------------------------------------------

  /** Neither rounding over-mints: the minted shares cost less than one atom more than the deposit. */
  lemma MintNotOverpriced(pool: Pool, amount: u64, balance: u64, minted: Minted)
    requires MintedFrom(pool, amount, balance, false, minted)
    ensures minted.shares * (balance + 1)
          < amount * (minted.pool.totalShares + minted.virtualShares)
            + minted.pool.totalShares + minted.virtualShares + minted.shares
    ensures minted.pool == pool ==>
              minted.shares * (balance + 1) <= amount * (minted.pool.totalShares + minted.virtualShares)
  {
    var basis := minted.pool.totalShares + minted.virtualShares;
    FittingMint(basis, amount, balance);
    assert minted.pool == pool ==> minted.pool.generation.scale - pool.generation.scale == 0;
    assert (minted.shares - 1) * (balance + 1) == minted.shares * (balance + 1) - (balance + 1);
  }

  /** An accepted deposit is immediately worth its amount or one atom less, never more. */
  lemma NoProfitableEntry(pool: Pool, amount: u64, pricedBalance: u64, minted: Minted)
    requires MintForDeposit(pool, amount, pricedBalance) == Ok(minted)
    ensures minted.pool.totalShares + minted.shares <= U128_MAX && pricedBalance + amount <= U64_MAX
    ensures var value := RedeemShares(minted.shares, pricedBalance + amount, minted.pool.totalShares + minted.shares,
                                      minted.virtualShares);
            value.Ok? && 0 < value.value && amount - 1 <= value.value <= amount
  {
    AcceptedMintValue(BeginRecapitalization(pool, pricedBalance).value, amount, pricedBalance, minted);
  }

  lemma AcceptedMintValue(recapitalized: Pool, amount: u64, pricedBalance: u64, minted: Minted)
    requires MintWithCapacity(recapitalized, amount, pricedBalance) == Ok(minted)
    requires RequireBoundedShareRounding(amount, minted.shares, minted.pool.totalShares, pricedBalance,
                                         minted.virtualShares).Ok?
    ensures minted.pool.totalShares + minted.shares <= U128_MAX && pricedBalance + amount <= U64_MAX
    ensures var value := RedeemShares(minted.shares, pricedBalance + amount, minted.pool.totalShares + minted.shares,
                                      minted.virtualShares);
            value.Ok? && 0 < value.value && amount - 1 <= value.value <= amount
  {
    MintWithinPrice(recapitalized, amount, pricedBalance, minted);
    AcceptedEntryValue(amount, minted.shares, minted.pool.totalShares, pricedBalance, minted.virtualShares);
  }

  lemma MintWithinPrice(pool: Pool, amount: u64, balance: u64, minted: Minted)
    requires MintWithCapacity(pool, amount, balance) == Ok(minted)
    ensures minted.virtualShares > 0
    ensures minted.shares * (balance + 1)
          < amount * (minted.pool.totalShares + minted.virtualShares)
            + minted.pool.totalShares + minted.virtualShares + minted.shares
  {
    MintTotal(pool, amount, balance);
    MintNotOverpriced(pool, amount, balance, minted);
  }

  /** A mint that needed no rescale lowers no earlier holding's redeemable value. */
  lemma MintKeepsHolders(pool: Pool, amount: u64, balance: u64, minted: Minted, held: u128)
    requires MintedFrom(pool, amount, balance, false, minted) && minted.pool == pool
    requires held <= pool.totalShares && balance + amount <= U64_MAX
    ensures var before := RedeemShares(held, balance, pool.totalShares, minted.virtualShares);
            var after := RedeemShares(held, balance + amount, pool.totalShares + minted.shares, minted.virtualShares);
            before.Ok? && after.Ok? && before.value <= after.value
  {
    MintNotOverpriced(pool, amount, balance, minted);
    RedeemAcrossFloorMint(held, amount, minted.shares, balance, pool.totalShares, minted.virtualShares);
  }

  lemma RedeemAcrossFloorMint(held: u128, amount: u64, shares: u128, balance: u64, totalShares: u128, virtualShares: u128)
    requires held <= totalShares && virtualShares > 0 && totalShares + shares + virtualShares <= U128_MAX
    requires balance + amount <= U64_MAX
    requires shares * (balance + 1) <= amount * (totalShares + virtualShares)
    ensures var before := RedeemShares(held, balance, totalShares, virtualShares);
            var after := RedeemShares(held, balance + amount, totalShares + shares, virtualShares);
            before.Ok? && after.Ok? && before.value <= after.value
  {
    FloorMintKeepsHolders(held, amount, shares, balance + 1, totalShares + virtualShares);
    RedeemTotal(held, balance, totalShares, virtualShares);
    RedeemTotal(held, balance + amount, totalShares + shares, virtualShares);
    assert balance + amount + 1 == balance + 1 + amount;
    assert totalShares + shares + virtualShares == totalShares + virtualShares + shares;
  }
}
