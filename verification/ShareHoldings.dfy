/**
 What an owner of an insurance pool holds after each instruction: exits retire exactly the share of the
 principal they take, deposits credit exactly what was minted, and nothing else touches a holding but the
 pool's own rescalings and resets.
 */
module ShareHoldings {
  import opened Machine
  import opened Division
  import opened MapSum
  import opened WideArithmetic
  import opened ShareMath
  import opened Percolator
  import opened InsuranceRouting
  import opened ShareLedger
  import opened ShareSolvency
  import opened MintCapacity
  import opened ShareExits
  import opened ShareFairness

  /** The shares of `owner` as the pool counts them now. */
  function Holding(l: Ledger, owner: Pubkey): u128
    requires owner in l.positions
  {
    EffectiveShares(l.positions[owner], l.pool.generation)
  }

  // ------------------------------------------------------------------------------------------
  // Exits
  // ------------------------------------------------------------------------------------------

  /** The part of a holding that goes with `amount` of the principal, rounded down; all of it with the rest. */
  predicate ProportionalPart(part: int, held: nat, amount: nat, principal: nat) {
    if amount == principal then part == held
    else part * principal <= held * amount < (part + 1) * principal
  }

  lemma RetiredIsProportional(pool: Pool, position: Position, amount: u64)
    requires 0 < amount <= position.principal
    ensures var held := EffectiveShares(position, pool.generation);
            && ProportionalPart(RetiredBy(pool, position, amount), held, amount, position.principal)
            && 0 <= RetiredBy(pool, position, amount) <= held
  {
    var held := EffectiveShares(position, pool.generation);
    MulMonotone(0, held, amount);
    FloorIsLargest(held * amount, position.principal, held * amount / position.principal);
    FloorIsLargest(held * amount, position.principal, held * amount / position.principal + 1);
    ShareOfPart(amount, held, position.principal);
    assert held * amount == amount * held;
  }

  /** An exit takes its amount off the principal and exactly the proportional shares off the holding. */
  lemma ExitRetiresExactly(l: Ledger, owner: Pubkey, request: Option<u64>, now: u64)
    requires Inv(l) && Exit(l, owner, request, now).Ok?
    ensures owner in l.positions
    ensures var amount := if request.None? then l.positions[owner].principal else request.value;
            var l' := Exit(l, owner, request, now).value.0;
            && 0 < amount <= l.positions[owner].principal && owner in l'.positions
            && l'.positions[owner].principal == l.positions[owner].principal - amount
            && (amount < l.positions[owner].principal ==>
                  && l'.pool.generation == l.pool.generation && !l'.positions[owner].withdrawn
                  && Holding(l', owner) == Holding(l, owner) - RetiredBy(l.pool, l.positions[owner], amount))
            && (amount == l.positions[owner].principal ==> l'.positions[owner].withdrawn && Holding(l', owner) == 0)
  {
    var position := l.positions[owner];
    var amount := if request.None? then position.principal else request.value;
    var insurance := ReadInsurance(ReadBalance(l.market).value);
    QuoteTotal(l.pool, l.positions, owner, amount, l.market, insurance);
    PartOfTotals(l.pool, l.positions, owner);
    MoveKeepsEffective(position, l.pool);
    RetiredIsProportional(l.pool, position, amount);
    var quote := QuoteExit(l.pool, position, amount, l.market, insurance).value;
    SettledHolding(l.pool, position, amount, quote, request.None?, now);
    if amount < position.principal {
      StillOpen(l.pool, amount, quote);
    }
  }

  lemma SettledHolding(pool: Pool, position: Position, amount: u64, quote: Quote, terminal: bool, now: u64)
    requires !position.withdrawn && 0 < amount <= position.principal && NotAhead(position.generation, pool.generation)
    requires MoveToCurrentGeneration(position, pool) == Ok((quote.position, quote.current))
    requires quote.retired == RetiredBy(pool, position, amount) <= EffectiveShares(position, pool.generation)
    requires PositionAfterExit(quote, amount, terminal, now).Ok?
    ensures var p := PositionAfterExit(quote, amount, terminal, now).value;
            && p.principal == position.principal - amount && (p.withdrawn <==> amount == position.principal)
            && p.generation == pool.generation
            && (amount < position.principal ==>
                  EffectiveShares(p, pool.generation) == EffectiveShares(position, pool.generation) - quote.retired)
  {
    MoveKeepsEffective(position, pool);
    CurrentShares(PositionAfterExit(quote, amount, terminal, now).value, pool.generation);
  }

  lemma StillOpen(pool: Pool, amount: u64, quote: Quote)
    requires amount < pool.outstanding && PoolAfterExit(pool, amount, quote).Ok?
    ensures PoolAfterExit(pool, amount, quote).value.generation == pool.generation
  {
  }

  /** The steps of a run that are the owner's own. */
  predicate Touches(step: Step, owner: Pubkey) {
    match step
    case DepositStep(o, _, _) => o == owner
    case ExitStep(o, _, _) => o == owner
    case LockStep(o, _) => o == owner
    case MarketStep(_) => false
  }

  predicate Untouched(steps: seq<Step>, owner: Pubkey)
    decreases |steps|
  {
    steps == [] || (!Touches(steps[0], owner) && Untouched(steps[1..], owner))
  }

  lemma {:induction false} OthersLeavePosition(l: Ledger, steps: seq<Step>, owner: Pubkey)
    requires owner in l.positions && Untouched(steps, owner)
    ensures owner in Run(l, steps).positions && Run(l, steps).positions[owner] == l.positions[owner]
    decreases |steps|
  {
    if steps != [] {
      StepLeavesPosition(l, steps[0], owner);
      OthersLeavePosition(Apply(l, steps[0]), steps[1..], owner);
    }
  }

  lemma StepLeavesPosition(l: Ledger, step: Step, owner: Pubkey)
    requires owner in l.positions && !Touches(step, owner)
    ensures owner in Apply(l, step).positions && Apply(l, step).positions[owner] == l.positions[owner]
  {
    match step
    case DepositStep(o, amount, now) =>
      if Deposit(l, o, amount, now).Ok? { DepositWrites(l, o, amount, now); }
    case ExitStep(o, request, now) =>
      if Exit(l, o, request, now).Ok? { ExitWrites(l, o, request, now); }
    case LockStep(o, locked) =>
    case MarketStep(_) =>
  }

  lemma DepositWrites(l: Ledger, owner: Pubkey, amount: u64, now: u64)
    requires Deposit(l, owner, amount, now).Ok?
    ensures var l' := Deposit(l, owner, amount, now).value;
            owner in l'.positions && l'.positions == l.positions[owner := l'.positions[owner]]
  {
  }

  lemma ExitWrites(l: Ledger, owner: Pubkey, request: Option<u64>, now: u64)
    requires Exit(l, owner, request, now).Ok?
    ensures var l' := Exit(l, owner, request, now).value.0;
            owner in l'.positions && l'.positions == l.positions[owner := l'.positions[owner]]
  {
  }

  /**
   Leaving in two steps takes out exactly what was held. Whatever others and the market do in between, the
   second exit owes the floor value of just the shares the first one did not retire, as long as the pool was
   not rescaled or reset meanwhile.
   */
  lemma TwoExitsRetireTheHolding(l: Ledger, owner: Pubkey, first: u64, now: u64, steps: seq<Step>)
    requires Inv(l) && Exit(l, owner, Some(first), now).Ok?
    requires first < l.positions[owner].principal && Untouched(steps, owner)
    ensures var l2 := Run(Exit(l, owner, Some(first), now).value.0, steps);
            && owner in l.positions && first > 0
            && owner in l2.positions && l2.positions[owner].principal == l.positions[owner].principal - first
            && RetiredBy(l2.pool, l2.positions[owner], l2.positions[owner].principal) == Holding(l2, owner)
            && (l2.pool.generation == l.pool.generation ==>
                  && RetiredBy(l.pool, l.positions[owner], first)
                     + RetiredBy(l2.pool, l2.positions[owner], l2.positions[owner].principal) == Holding(l, owner)
                  && forall insurance: u64 ::
                       OwedBy(l2.pool, l2.positions[owner], l2.positions[owner].principal, insurance)
                       == CappedValue(l2.pool, Holding(l, owner) - RetiredBy(l.pool, l.positions[owner], first),
                                      l2.positions[owner].principal, insurance))
  {
    ExitRetiresExactly(l, owner, Some(first), now);
    OthersLeavePosition(Exit(l, owner, Some(first), now).value.0, steps, owner);
    var l2 := Run(Exit(l, owner, Some(first), now).value.0, steps);
    if l2.pool.generation == l.pool.generation {
      forall insurance: u64
        ensures OwedBy(l2.pool, l2.positions[owner], l2.positions[owner].principal, insurance)
             == CappedValue(l2.pool, Holding(l, owner) - RetiredBy(l.pool, l.positions[owner], first),
                            l2.positions[owner].principal, insurance)
      {
        RestIsOwed(l2.pool, l2.positions[owner], insurance);
      }
    }
  }

  lemma RestIsOwed(pool: Pool, position: Position, insurance: u64)
    requires position.principal > 0
    ensures OwedBy(pool, position, position.principal, insurance)
         == CappedValue(pool, EffectiveShares(position, pool.generation), position.principal, insurance)
  {
  }

  /** The floor value of `shares` at the pool's rate, at most at par for PRINCIPAL. */
  function CappedValue(pool: Pool, shares: int, principal: nat, insurance: u64): int {
    var value := shares * (PricedBalance(pool, insurance) + 1) / (pool.totalShares + VirtualShares(pool.generation.scale));
    if pool.policy.Principal? then Min(principal, value) else value
  }

  // ------------------------------------------------------------------------------------------
  // The emptied pool
  // ------------------------------------------------------------------------------------------

  /**
   The last exit leaves no one a claim on what remains: a PRINCIPAL pool has no shares, and a WITH_SURPLUS
   pool holds reserve shares at one atom per 10^6, so that the next deposit is priced at par again.
   */
  lemma LastExitNormalizes(l: Ledger, owner: Pubkey, request: Option<u64>, now: u64)
    requires Inv(l) && Exit(l, owner, request, now).Ok?
    requires Exit(l, owner, request, now).value.0.pool.outstanding == 0
    ensures var (l', owed) := Exit(l, owner, request, now).value;
            var insurance := ReadInsurance(ReadBalance(l.market).value);
            && ReadBalance(l.market).Ok? && owed <= insurance
            && l'.pool.generation == Generation(l.pool.generation.reset, 0)
            && l'.pool.totalShares == (if l.pool.policy.Principal? then 0 else VIRTUAL_SHARES * (insurance - owed))
            && forall o :: o in l'.positions ==> Holding(l', o) == 0
  {
    ExitPays(l, owner, request, now);
    ExitKeeps(l, owner, request, now);
    NormalizedByExit(l, owner, request, now);
    var l' := Exit(l, owner, request, now).value.0;
    EmptyPool(l'.positions, l'.pool.generation);
    AllHoldingsEmpty(l');
  }

  lemma AllHoldingsEmpty(l: Ledger)
    requires forall o :: o in l.positions ==> l.positions[o].withdrawn
    ensures forall o :: o in l.positions ==> Holding(l, o) == 0
  {
  }

  lemma NormalizedByExit(l: Ledger, owner: Pubkey, request: Option<u64>, now: u64)
    requires Exit(l, owner, request, now).Ok? && Exit(l, owner, request, now).value.0.pool.outstanding == 0
    ensures var (l', owed) := Exit(l, owner, request, now).value;
            var insurance := ReadInsurance(ReadBalance(l.market).value);
            && ReadBalance(l.market).Ok? && owed <= insurance
            && l'.pool.generation == Generation(l.pool.generation.reset, 0)
            && l'.pool.totalShares == (if l.pool.policy.Principal? then 0 else VIRTUAL_SHARES * (insurance - owed))
  {
    var amount := if request.None? then l.positions[owner].principal else request.value;
    var insurance := ReadInsurance(ReadBalance(l.market).value);
    NormalizedPool(l.pool, amount, QuoteExit(l.pool, l.positions[owner], amount, l.market, insurance).value, insurance);
  }

  lemma NormalizedPool(pool: Pool, amount: u64, quote: Quote, insurance: u64)
    requires amount == pool.outstanding && quote.owed <= insurance && PoolAfterExit(pool, amount, quote).Ok?
    requires quote.pricedAfter == PricedAfter(pool, amount, insurance, quote.owed)
    ensures var pool' := PoolAfterExit(pool, amount, quote).value;
            && pool'.generation == Generation(pool.generation.reset, 0)
            && pool'.totalShares
               == (if pool.policy.Principal? then 0 else VIRTUAL_SHARES * (insurance - quote.owed))
  {
  }

  // ------------------------------------------------------------------------------------------
  // Deposits
  // ------------------------------------------------------------------------------------------

  /** The balance that a deposit into this ledger is priced at. */
  function Priced(l: Ledger): u64
    requires ReadBalance(l.market).Ok?
  {
    PricedBalance(l.pool, ReadInsurance(ReadBalance(l.market).value))
  }

  /** Only a total loss voids shares, and only where principal is still outstanding does it open a new reset. */
  predicate VoidsShares(pool: Pool, priced: u64) {
    priced == 0 && pool.totalShares > 0
  }

  /** The pool that a deposit mints into. */
  function MintBase(pool: Pool, priced: u64): Pool
    requires VoidsShares(pool, priced) && pool.outstanding > 0 ==> pool.generation.reset < SHARE_GENERATION_MASK
  {
    if !VoidsShares(pool, priced) then pool
    else if pool.outstanding == 0 then pool.(totalShares := 0)
    else pool.(totalShares := 0, generation := Generation(pool.generation.reset + 1, 0))
  }

  /** A reset fails exactly when the 20-bit counter is used up. */
  lemma RecapitalizationExactly(pool: Pool, priced: u64)
    ensures BeginRecapitalization(pool, priced).Ok?
       <==> (VoidsShares(pool, priced) && pool.outstanding > 0 ==> pool.generation.reset < SHARE_GENERATION_MASK)
    ensures BeginRecapitalization(pool, priced).Ok? ==>
              BeginRecapitalization(pool, priced).value == MintBase(pool, priced)
  {
  }

  /** The minted shares are worth the amount or one atom less as soon as both are in the pool. */
  predicate FairEntry(minted: Minted, amount: u64, priced: u64) {
    var d := minted.pool.totalShares + minted.shares + minted.virtualShares;
    && minted.shares > 0 && priced + amount <= U64_MAX && d > 0
    && var value := minted.shares * (priced + amount + 1) / d;
       0 < value && amount - 1 <= value
  }

  lemma RoundingExactly(minted: Minted, amount: u64, priced: u64)
    requires HasRoom(minted)
    ensures RequireBoundedShareRounding(amount, minted.shares, minted.pool.totalShares, priced, minted.virtualShares).Ok?
       <==> FairEntry(minted, amount, priced)
  {
    if minted.shares > 0 && priced + amount <= U64_MAX {
      RedeemTotal(minted.shares, priced + amount, minted.pool.totalShares + minted.shares, minted.virtualShares);
    }
  }

  /** The share side of a deposit, complete: reset, capacity and fair price are all that can stop it. */
  lemma MintSucceedsExactly(pool: Pool, amount: u64, priced: u64)
    ensures MintForDeposit(pool, amount, priced).Ok?
       <==> (&& (VoidsShares(pool, priced) && pool.outstanding > 0 ==> pool.generation.reset < SHARE_GENERATION_MASK)
             && !EpochExhausted(MintBase(pool, priced), amount, priced)
             && MintWithCapacity(MintBase(pool, priced), amount, priced).Ok?
             && FairEntry(MintWithCapacity(MintBase(pool, priced), amount, priced).value, amount, priced))
    ensures MintForDeposit(pool, amount, priced).Ok? ==>
              && MintForDeposit(pool, amount, priced) == MintWithCapacity(MintBase(pool, priced), amount, priced)
              && MintedFrom(MintBase(pool, priced), amount, priced, false, MintForDeposit(pool, amount, priced).value)
  {
    RecapitalizationExactly(pool, priced);
    if BeginRecapitalization(pool, priced).Ok? {
      var base := MintBase(pool, priced);
      MintTotal(base, amount, priced);
      if MintWithCapacity(base, amount, priced).Ok? {
        RoundingExactly(MintWithCapacity(base, amount, priced).value, amount, priced);
      }
    }
  }

  /** What the accounts and the market ask of a deposit beside the mint. */
  predicate CreditAllowed(l: Ledger, owner: Pubkey, amount: u64) {
    && l.pool.outstanding + amount <= U64_MAX
    && (owner in l.positions ==> !l.positions[owner].withdrawn)
    && l.market.phase.Live? && l.market.insurance + amount <= U128_MAX && l.market.vault + amount <= U128_MAX
  }

  /** `market` took the amount: into the lower domain up to the gap, and to the canonical split beyond it. */
  predicate PaidIn(market: Market, amount: u64, market': Market) {
    && market' == market.(domains := market'.domains, insurance := market'.insurance, vault := market'.vault)
    && market'.insurance == market.insurance + amount && market'.vault == market.vault + amount
    && market'.domains.long + market'.domains.short == market.domains.long + market.domains.short + amount
    && (if amount >= Gap(market.domains) then
          market'.domains.long == (market.domains.long + market.domains.short + amount) / 2
        else if market.domains.long < market.domains.short then market'.domains.short == market.domains.short
        else market'.domains.long == market.domains.long)
  }

  /** A live market whose insurance and vault have room takes every deposit: no domain can overflow. */
  lemma TopUpExactly(market: Market, amount: u64)
    requires ReadBalance(market).Ok?
    ensures var r := TopUpInsuranceDomains(market, DepositDelta(market.domains, amount));
            && (r.Ok? <==> market.phase.Live? && market.insurance + amount <= U128_MAX && market.vault + amount <= U128_MAX)
            && (r.Ok? ==> PaidIn(market, amount, r.value))
  {
    HalfShift(market.domains.long + market.domains.short + amount, Max(market.domains.long, market.domains.short));
  }

  /**
   Deposit liveness: in a consistent ledger a deposit fails only outside its window, for an unreadable or
   closed market, a withdrawn position, a full outstanding principal, an exhausted generation counter or an
   unfair price. No share sum of the pool or the position can stop it.
   */
  lemma DepositSucceedsExactly(l: Ledger, owner: Pubkey, amount: u64, now: u64)
    requires Inv(l)
    ensures Deposit(l, owner, amount, now).Ok?
       <==> (&& amount > 0 && l.pool.schedule.depositStart <= now < l.pool.schedule.depositDeadline
             && ReadBalance(l.market).Ok?
             && MintForDeposit(l.pool, amount, Priced(l)).Ok?
             && CreditAllowed(l, owner, amount))
  {
    if amount > 0 && ReadBalance(l.market).Ok? && MintForDeposit(l.pool, amount, Priced(l)).Ok? {
      MintKeeps(l.pool, l.positions, amount, Priced(l));
      CreditExactly(l, ReadBalance(l.market).value, MintForDeposit(l.pool, amount, Priced(l)).value, owner, amount, now);
    }
  }

  /** Crediting a ready mint never fails on shares, and credits exactly the minted ones. */
  lemma CreditExactly(l: Ledger, balance: AssetBalance, minted: Minted, owner: Pubkey, amount: u64, now: u64)
    requires Inv(l) && MintReady(l.pool, l.positions, minted) && ReadBalance(l.market) == Ok(balance)
    ensures CreditDeposit(l, balance, minted, owner, amount, now).Ok? <==> CreditAllowed(l, owner, amount)
    ensures CreditDeposit(l, balance, minted, owner, amount, now).Ok? ==>
              && Credited(l, minted, owner, amount, now, CreditDeposit(l, balance, minted, owner, amount, now).value)
              && PaidIn(l.market, amount, CreditDeposit(l, balance, minted, owner, amount, now).value.market)
  {
    ToppedUp(l, balance, minted, owner, amount, now);
    if owner in l.positions && !l.positions[owner].withdrawn {
      MoveKeepsEffective(l.positions[owner], minted.pool);
      PartOfTotals(minted.pool, l.positions, owner);
    } else {
      LazyShiftIsEagerHalving(0, 0);
    }
    LazyShiftIsEagerHalving(minted.shares, 0);
    if CreditDeposit(l, balance, minted, owner, amount, now).Ok? {
      var p := CreditDeposit(l, balance, minted, owner, amount, now).value.positions[owner];
      CurrentShares(p, minted.pool.generation);
    }
  }

  /** Accounts and market took the amount and the minted shares; the clock restarted; no one else was touched. */
  ghost predicate Credited(l: Ledger, minted: Minted, owner: Pubkey, amount: u64, now: u64, l': Ledger) {
    && l'.pool == minted.pool.(outstanding := l'.pool.outstanding, totalShares := l'.pool.totalShares)
    && l'.pool.outstanding == l.pool.outstanding + amount
    && l'.pool.totalShares == minted.pool.totalShares + minted.shares
    && owner in l'.positions && l'.positions == l.positions[owner := l'.positions[owner]]
    && l'.positions[owner].principal == (if owner in l.positions then l.positions[owner].principal else 0) + amount
    && l'.positions[owner].startSlot == now && !l'.positions[owner].withdrawn
    && Holding(l', owner)
       == (if owner in l.positions then EffectiveShares(l.positions[owner], minted.pool.generation) else 0) + minted.shares
  }

  /** A credit is stopped by the market exactly when the top-up is, and leaves it as the top-up does. */
  lemma ToppedUp(l: Ledger, balance: AssetBalance, minted: Minted, owner: Pubkey, amount: u64, now: u64)
    requires ReadBalance(l.market) == Ok(balance)
    ensures TopUpInsuranceDomains(l.market, DepositDelta(Remaining(balance), amount)).Ok?
       <==> l.market.phase.Live? && l.market.insurance + amount <= U128_MAX && l.market.vault + amount <= U128_MAX
    ensures CreditDeposit(l, balance, minted, owner, amount, now).Ok? ==>
              PaidIn(l.market, amount, CreditDeposit(l, balance, minted, owner, amount, now).value.market)
  {
    TopUpExactly(l.market, amount);
  }

  /**
   A deposit credits exactly the minted shares on top of the holding as it counts in the pool minted into, at
   any price; and the mint is the one that the pool and its balance determine.
   */
  lemma DepositCreditsExactly(l: Ledger, owner: Pubkey, amount: u64, now: u64) returns (minted: Minted)
    requires Inv(l) && Deposit(l, owner, amount, now).Ok?
    ensures ReadBalance(l.market).Ok?
    ensures VoidsShares(l.pool, Priced(l)) && l.pool.outstanding > 0 ==> l.pool.generation.reset < SHARE_GENERATION_MASK
    ensures MintedFrom(MintBase(l.pool, Priced(l)), amount, Priced(l), false, minted)
    ensures FairEntry(minted, amount, Priced(l))
    ensures Credited(l, minted, owner, amount, now, Deposit(l, owner, amount, now).value)
    ensures PaidIn(l.market, amount, Deposit(l, owner, amount, now).value.market)
  {
    minted := MintForDeposit(l.pool, amount, Priced(l)).value;
    MintSucceedsExactly(l.pool, amount, Priced(l));
    MintKeeps(l.pool, l.positions, amount, Priced(l));
    CreditExactly(l, ReadBalance(l.market).value, minted, owner, amount, now);
  }

  /**
   A deposit that neither rescales nor resets the pool lowers no one else's claim, for any amount, read from
   the accounts and the market as the deposit leaves them.
   */
  lemma DepositKeepsOtherClaims(l: Ledger, owner: Pubkey, amount: u64, now: u64, other: Pubkey, part: u64)
    requires Inv(l) && Deposit(l, owner, amount, now).Ok?
    requires Deposit(l, owner, amount, now).value.pool.generation == l.pool.generation
    requires ReadBalance(Deposit(l, owner, amount, now).value.market).Ok?
    requires other != owner && other in l.positions && 0 < part <= l.positions[other].principal
    ensures ReadBalance(l.market).Ok?
    ensures var l' := Deposit(l, owner, amount, now).value;
            && other in l'.positions && l'.positions[other] == l.positions[other]
            && Owes(l, other, part) <= Owes(l', other, part)
  {
    var l' := Deposit(l, owner, amount, now).value;
    var minted := DepositCreditsExactly(l, owner, amount, now);
    DepositPrices(l, owner, amount, now);
    PartOfTotals(l.pool, l.positions, other);
    MintedIntoSamePool(l.pool, amount, Priced(l), minted);
    ClaimThroughMint(l.pool, l'.pool, l.positions[other], part, amount, ReadInsurance(ReadBalance(l.market).value),
                     ReadInsurance(ReadBalance(l'.market).value), minted);
  }

  lemma ClaimThroughMint(pool: Pool, pool': Pool, position: Position, part: u64, amount: u64, insurance: u64,
                         insurance': u64, minted: Minted)
    requires 0 < part <= position.principal && EffectiveShares(position, pool.generation) <= pool.totalShares
    requires MintedFrom(pool, amount, PricedBalance(pool, insurance), false, minted) && minted.pool == pool
    requires pool'.generation == pool.generation && pool'.policy == pool.policy
    requires pool'.totalShares == pool.totalShares + minted.shares
    requires PricedBalance(pool', insurance') == PricedBalance(pool, insurance) + amount
    ensures OwedBy(pool, position, part, insurance) <= OwedBy(pool', position, part, insurance')
  {
    RetiredIsProportional(pool, position, part);
    HeldThroughMint(pool, pool', amount, PricedBalance(pool, insurance), minted, RetiredBy(pool, position, part));
    LowerValueLowerClaim(pool', pool, position, part, insurance', insurance);
  }

  lemma MintedIntoSamePool(pool: Pool, amount: u64, priced: u64, minted: Minted)
    requires pool.outstanding > 0
    requires VoidsShares(pool, priced) ==> pool.generation.reset < SHARE_GENERATION_MASK
    requires MintedFrom(MintBase(pool, priced), amount, priced, false, minted)
    requires minted.pool.generation == pool.generation
    ensures minted.pool == pool && MintedFrom(pool, amount, priced, false, minted)
  {
  }

  lemma HeldThroughMint(pool: Pool, pool': Pool, amount: u64, priced: u64, minted: Minted, held: u128)
    requires MintedFrom(pool, amount, priced, false, minted) && minted.pool == pool
    requires held <= pool.totalShares && priced + amount <= U64_MAX
    requires pool'.generation == pool.generation && pool'.totalShares == pool.totalShares + minted.shares
    ensures ShareValue(pool, held, priced) <= ShareValue(pool', held, priced + amount)
  {
    MintKeepsHolders(pool, amount, priced, minted, held);
    RedeemTotal(held, priced, pool.totalShares, minted.virtualShares);
    RedeemTotal(held, priced + amount, pool.totalShares + minted.shares, minted.virtualShares);
  }
}
