/**
 The reward rules in the terms of the epoch's own configuration and of the accounts a stake is bound to:
 which cohort gets which part of the supply, which counter each cohort follows, when tenure stops, and what
 a claim pays of it.
 */
module RewardLaws {
  import opened Machine
  import opened Division
  import opened MapSum
  import opened ShareLedger
  import opened RewardMath
  import opened RewardEpochs
  import opened RewardSolvency
  import opened RewardCapital

  // ------------------------------------------------------------------------------------------
  // Cohort supplies
  // ------------------------------------------------------------------------------------------

  /** Each cohort's supply is the largest part of the total within its configured share; traders get the rest. */
  lemma CohortSharesAreConfigured(config: Config)
    requires ConfigOk(config)
    ensures LargestShare(config.totalSupply, config.insuranceBps, BPS, config.Supply(Insurance))
    ensures LargestShare(config.totalSupply, config.backingBps, BPS, config.Supply(Backing))
    ensures LargestShare(config.totalSupply, config.lpBps, BPS, config.Supply(Lp))
    ensures LargestShare(config.totalSupply, config.fundingBps, BPS, config.Supply(Funding))
    ensures LargestShare(config.totalSupply,
                         BPS - config.insuranceBps - config.backingBps - config.lpBps - config.fundingBps,
                         BPS, config.Supply(Trader))
  {
    forall c: Cohort ensures LargestShare(config.totalSupply, config.BpsOf(c), BPS, config.Supply(c)) {
      var supply: int := config.Supply(c);
      FloorIsLargest(config.totalSupply * config.BpsOf(c), BPS, supply);
      FloorIsLargest(config.totalSupply * config.BpsOf(c), BPS, supply + 1);
    }
    assert config.BpsOf(Insurance) == config.insuranceBps && config.BpsOf(Backing) == config.backingBps;
    assert config.BpsOf(Lp) == config.lpBps && config.BpsOf(Funding) == config.fundingBps;
    assert config.BpsOf(Trader) == BPS - config.insuranceBps - config.backingBps - config.lpBps - config.fundingBps;
  }

  /** The amount is the cohort's configured part of the supply. */
  predicate CohortAmount(config: Config, c: Cohort, amount: nat)
    requires ConfigOk(config)
  {
    match c
    case Insurance => LargestShare(config.totalSupply, config.insuranceBps, BPS, amount)
    case Backing => LargestShare(config.totalSupply, config.backingBps, BPS, amount)
    case Lp => LargestShare(config.totalSupply, config.lpBps, BPS, amount)
    case Funding => LargestShare(config.totalSupply, config.fundingBps, BPS, amount)
    case Trader =>
      LargestShare(config.totalSupply,
                   BPS - config.insuranceBps - config.backingBps - config.lpBps - config.fundingBps, BPS, amount)
  }

  /** A stake that holds all points of its cohort is paid the cohort's whole configured part, less the fee on flow. */
  lemma SoleStakeTakesTheCohort(r: Rewards, key: StakeKey, signer: Pubkey, recipient: Pubkey, seen: Witness)
    returns (amount: u64)
    requires RewardInv(r) && Claim(r, key, signer, recipient, seen).Ok?
    requires var stake := r.stakes[key];
             && ClaimPoints(stake, seen) == Ok(stake.points)
             && 0 < stake.points == Sum(PointsIn(r.stakes, stake.cohort))
    ensures CohortAmount(r.config, r.stakes[key].cohort, amount)
    ensures var payout := Claim(r, key, signer, recipient, seen).value.1;
            if r.stakes[key].cohort.Insurance? || r.stakes[key].cohort.Backing? then payout == amount
            else ChargedFee(amount, r.config.feeBps, amount - payout)
  {
    var stake := r.stakes[key];
    CohortSharesAreConfigured(r.config);
    amount := r.config.Supply(stake.cohort);
    assert Counted(r.config.totals, r.stakes, stake.cohort);
    DivUnique(amount * stake.points, stake.points, amount);
    FeeIsLeast(amount, r.config.feeBps);
  }

  /** The fee is the least amount that reaches its rate: rounded up, never down. */
  predicate ChargedFee(amount: nat, bps: nat, fee: int) {
    (fee - 1) * BPS < amount * bps <= fee * BPS
  }

  lemma FeeIsLeast(amount: u64, bps: Bps)
    ensures ChargedFee(amount, bps, Fee(amount, bps)) && Net(amount, bps) == amount - Fee(amount, bps)
  {
    MulMonotone(0, amount, bps);
  }

  // ------------------------------------------------------------------------------------------
  // Counters and registration
  // ------------------------------------------------------------------------------------------

  /**
   LP follows what the portfolio received, traders the loss they have not yet spent, and funding payers what
   they paid on both sides together.
   */
  lemma CountersAreTheCohorts(totals: Portfolio)
    ensures FlowCounter(Lp, totals) == totals.received
    ensures if totals.spent <= totals.loss then FlowCounter(Trader, totals) + totals.spent == totals.loss
            else FlowCounter(Trader, totals) == 0
    ensures if totals.longPaid + totals.shortPaid <= U128_MAX
            then FlowCounter(Funding, totals) == totals.longPaid + totals.shortPaid
            else FlowCounter(Funding, totals) == U128_MAX
  {
  }

  lemma RegisterSucceedsExactly(r: Rewards, owner: Pubkey, linked: Pubkey, recipient: Pubkey, cohort: Cohort,
                                seen: Witness, now: u64)
    ensures Register(r, owner, linked, recipient, cohort, seen, now).Ok?
       <==> (&& recipient != DEFAULT_KEY && r.config.freezeSlot == 0
             && (r.config.epoch ==> r.config.emissionStart <= now < r.config.emissionEnd)
             && (if cohort.Insurance? || cohort.Backing? then seen.PositionWitness? else seen.PortfolioWitness?)
             && StakeKey(owner, linked, cohort.Family()) !in r.stakes)
    ensures Register(r, owner, linked, recipient, cohort, seen, now).Ok? ==>
              var r' := Register(r, owner, linked, recipient, cohort, seen, now).value;
              var stake := r'.stakes[StakeKey(owner, linked, cohort.Family())];
              && r' == r.(stakes := r'.stakes) && r'.stakes == r.stakes[StakeKey(owner, linked, cohort.Family()) := stake]
              && stake.points == stake.earningsSnap == 0 && !stake.claimed
              && stake.recipient == recipient && stake.startSlot == now && stake.cohort == cohort
  {
  }

  /** LP and trader rewards exclude each other for one portfolio: whichever registers first, the other never can. */
  lemma OneFlowStakePerPortfolio(r: Rewards, owner: Pubkey, linked: Pubkey, recipient: Pubkey, cohort: Cohort,
                                 seen: Witness, now: u64, steps: seq<RewardStep>, recipient': Pubkey, other: Cohort,
                                 seen': Witness, later: u64)
    requires cohort.Residual() && other.Residual()
    requires Register(r, owner, linked, recipient, cohort, seen, now).Ok?
    ensures Register(RunRewards(Register(r, owner, linked, recipient, cohort, seen, now).value, steps),
                     owner, linked, recipient', other, seen', later).Err?
  {
    RunKeepsRegistration(Register(r, owner, linked, recipient, cohort, seen, now).value, steps, StakeKey(owner, linked, Lp));
  }

  // ------------------------------------------------------------------------------------------
  // Tenure
  // ------------------------------------------------------------------------------------------

  /** The principal that counts: what a forced return recorded, nothing once withdrawn, otherwise all of it. */
  function CountedPrincipal(p: Position): u64 {
    if p.terminalReturned then (if p.terminalReturnSlot.Some? then p.withdrawnAmount else 0)
    else if p.withdrawn then 0
    else p.principal
  }

  /** Tenure ends now, at the end of the emission, or at a forced return, whichever is first. */
  function TenureEnd(config: Config, p: Position, now: u64): u64 {
    var end := if config.epoch && !(p.terminalReturned && p.terminalReturnSlot.None?) then Min(now, config.emissionEnd) else now;
    if p.terminalReturned && p.terminalReturnSlot.Some? then Min(end, p.terminalReturnSlot.value) else end
  }

  /** A weight times a principal never saturates. */
  lemma NoSaturation(n: u64, principal: u64)
    ensures SaturatingMul(FloorLog2(n), principal) == FloorLog2(n) * principal
  {
    FloorLog2Within(n);
    MulMonotone(FloorLog2(n), 63, principal);
  }

  /**
   Capital crystallizes to the binary logarithm of its tenure times its principal; tenure starts at the later
   of registration and the position's own clock, and stops with the emission or a forced return.
   */
  lemma CapitalPointsExactly(config: Config, stake: Stake, p: Position, now: u64)
    requires CrystallizeCapital(config, stake, p, now).Ok?
    ensures var stake' := CrystallizeCapital(config, stake, p, now).value;
            && stake'.eligibleAccum == TenureEnd(config, p, now)
            && stake'.earningsSnap == CountedPrincipal(p)
            && stake'.points == FloorLog2(SaturatingSub(TenureEnd(config, p, now), Max(stake.startSlot, p.startSlot)))
                                * CountedPrincipal(p)
  {
    NoSaturation(SaturatingSub(TenureEnd(config, p, now), Max(stake.startSlot, p.startSlot)), CountedPrincipal(p));
  }

  /** When a capital stake can be crystallized at all. */
  lemma CapitalSucceedsExactly(config: Config, stake: Stake, p: Position, now: u64)
    requires ConfigOk(config)
    ensures CrystallizeCapital(config, stake, p, now).Ok?
       <==> (&& ReadTerminal(p).Ok?
             && (config.epoch && now > config.emissionEnd ==>
                   && now < config.emissionEnd + config.finalizeWindow
                   && !(p.terminalReturned && p.terminalReturnSlot.None?)))
    ensures ReadTerminal(p).Ok? <==> (p.terminalReturned ==> p.withdrawn && p.principal == 0 && p.withdrawnAmount > 0)
  {
  }

  /** Waiting past the end of the emission, or past a forced return, earns nothing more. */
  lemma TenureStops(config: Config, stake: Stake, p: Position, now: u64, later: u64)
    requires CrystallizeCapital(config, stake, p, now).Ok? && CrystallizeCapital(config, stake, p, later).Ok?
    requires || (config.epoch && config.emissionEnd <= now && config.emissionEnd <= later
                 && !(p.terminalReturned && p.terminalReturnSlot.None?))
             || (p.terminalReturned && p.terminalReturnSlot.Some?
                 && p.terminalReturnSlot.value <= now && p.terminalReturnSlot.value <= later)
    ensures CrystallizeCapital(config, stake, p, later) == CrystallizeCapital(config, stake, p, now)
  {
    CapitalPointsExactly(config, stake, p, now);
    CapitalPointsExactly(config, stake, p, later);
  }

  /** A forced return leaves the record that tenure stops at: the slot of the return. */
  lemma TerminalReturnIsRecorded(l: Ledger, owner: Pubkey, request: Option<u64>, now: u64)
    requires AllReadable(l) && Exit(l, owner, request, now).Ok?
    ensures var (p, (l', owed)) := (l.positions[owner], Exit(l, owner, request, now).value);
            var p' := l'.positions[owner];
            if request.None? then
              && p'.terminalReturnSlot == Some(Min(now, MAX_TERMINAL_RETURN_SLOT))
              && CountedPrincipal(p') == p.principal
            else
              && p'.withdrawnAmount == Min(p.withdrawnAmount + owed, U64_MAX)
              && CountedPrincipal(p') == p.principal - request.value
  {
    ExitReadable(l, owner, request, now);
    ExitTelemetry(l, owner, request, now);
  }

  lemma ExitTelemetry(l: Ledger, owner: Pubkey, request: Option<u64>, now: u64)
    requires Exit(l, owner, request, now).Ok?
    ensures var (p, (l', owed)) := (l.positions[owner], Exit(l, owner, request, now).value);
            var p' := l'.positions[owner];
            if request.None? then p'.terminalReturnSlot == Some(Min(now, MAX_TERMINAL_RETURN_SLOT))
            else p'.withdrawnAmount == Min(p.withdrawnAmount + owed, U64_MAX)
  {
  }

  // ------------------------------------------------------------------------------------------
  // Claims
  // ------------------------------------------------------------------------------------------

  /** Under the same clock a claim counts the smaller of the crystallized and the live principal, with full tenure. */
  lemma CapitalClaimExactly(config: Config, stake: Stake, p: Position, now: u64, p': Position)
    requires stake.cohort.Capital() && CrystallizeCapital(config, stake, p, now).Ok? && ReadTerminal(p').Ok?
    requires p'.startSlot == p.startSlot
    requires p'.terminalReturned ==> p'.terminalReturnSlot.Some?
    ensures var stake' := CrystallizeCapital(config, stake, p, now).value;
            && ClaimPoints(stake', PositionWitness(p')).Ok?
            && ClaimPoints(stake', PositionWitness(p')).value
               == FloorLog2(SaturatingSub(TenureEnd(config, p, now), Max(stake.startSlot, p.startSlot)))
                  * Min(CountedPrincipal(p), CountedPrincipal(p'))
  {
    CapitalPointsExactly(config, stake, p, now);
    var n := SaturatingSub(TenureEnd(config, p, now), Max(stake.startSlot, p.startSlot));
    NoSaturation(n, Min(CountedPrincipal(p), CountedPrincipal(p')));
    WeightedMonotone(FloorLog2(n), Min(CountedPrincipal(p), CountedPrincipal(p')), CountedPrincipal(p));
  }

  /** Frozen flow does not depend on a portfolio that is gone: LP and funding payers are paid all their points. */
  lemma FrozenFlowIsPaidInFull(stake: Stake)
    ensures stake.cohort.Lp? ==> ClaimPoints(stake, GonePortfolio) == Ok(stake.points)
    ensures stake.cohort.Funding? ==> ClaimPoints(stake, NoWitness) == Ok(stake.points)
  {
  }

  /** After the emission no flow stake gains: LP and funding are closed, and traders can only lose. */
  lemma AfterEmissionOnlyReduces(r: Rewards, key: StakeKey, signer: Pubkey, seen: Witness, now: u64)
    requires RewardInv(r) && r.config.epoch && now > r.config.emissionEnd
    requires Crystallize(r, key, signer, seen, now).Ok? && !r.stakes[key].cohort.Capital()
    ensures r.stakes[key].cohort.Trader?
    ensures Crystallize(r, key, signer, seen, now).value.stakes[key].points <= r.stakes[key].points
  {
    var stake := r.stakes[key];
    var weight :| 0 <= weight <= 63 && stake.points == Weighted(weight, stake.earningsSnap);
    CapIsExact(weight, stake.earningsSnap,
               TraderLiveCap(stake.earningsSnap, stake.eligibleAccum, NetDelta(stake, seen.totals), seen.totals.spent));
  }

  /** The freeze waits for the finalize window, and fixes the supply that is there to pay. */
  lemma FreezeSucceedsExactly(r: Rewards, mintSupply: u64, now: u64)
    requires ConfigOk(r.config)
    ensures Freeze(r, mintSupply, now).Ok?
       <==> (&& r.config.freezeSlot == 0 && now >= r.config.emissionEnd + r.config.finalizeWindow
             && (if r.config.vaultBalanceMode then r.config.epoch && r.vault > 0
                 else 0 < r.config.totalSupply == mintSupply && r.vault >= r.config.totalSupply))
    ensures Freeze(r, mintSupply, now).Ok? ==>
              Freeze(r, mintSupply, now).value
              == r.(config := r.config.(totalSupply := if r.config.vaultBalanceMode then r.vault else r.config.totalSupply,
                                        frozen := r.config.totals, freezeSlot := now))
  {
  }

  /** Only the owner crystallizes capital, and what else an instruction needs: time, witness, and room in the total. */
  lemma CrystallizeSucceedsExactly(r: Rewards, key: StakeKey, signer: Pubkey, seen: Witness, now: u64)
    requires RewardInv(r)
    ensures Crystallize(r, key, signer, seen, now).Ok?
       <==> (&& r.config.freezeSlot == 0 && (r.config.epoch ==> r.config.emissionStart <= now) && key in r.stakes
             && CrystallizedStake(r.config, key, r.stakes[key], signer, seen, now).Ok?
             && (r.stakes[key].cohort.Capital() ==> signer == key.owner && seen.PositionWitness?)
             && (!r.stakes[key].cohort.Capital() ==> seen.PortfolioWitness?)
             && (r.config.epoch && now > r.config.emissionEnd ==> !r.stakes[key].cohort.Lp? && !r.stakes[key].cohort.Funding?)
             && Sum(PointsIn(r.stakes, r.stakes[key].cohort)) - r.stakes[key].points
                + CrystallizedStake(r.config, key, r.stakes[key], signer, seen, now).value.points <= U128_MAX)
  {
    if key in r.stakes {
      assert Counted(r.config.totals, r.stakes, r.stakes[key].cohort);
      SumBoundsEach(PointsIn(r.stakes, r.stakes[key].cohort), key);
    }
  }

  /** A crystallization only ever fails on the weight of a residual stake, or as its position or witness says. */
  lemma CrystallizedSucceedsExactly(config: Config, key: StakeKey, stake: Stake, signer: Pubkey, seen: Witness, now: u64)
    requires ConfigOk(config) && StakeOk(stake)
    ensures CrystallizedStake(config, key, stake, signer, seen, now).Ok?
       <==> (if stake.cohort.Capital() then
               signer == key.owner && seen.PositionWitness? && CrystallizeCapital(config, stake, seen.position, now).Ok?
             else
               && seen.PortfolioWitness?
               && (stake.cohort.Residual() && !(config.epoch && now > config.emissionEnd) ==>
                     FloorLog2(SaturatingSub(now, stake.startSlot)) * NetDelta(stake, seen.totals) <= U128_MAX))
  {
    if stake.cohort.Residual() && seen.PortfolioWitness? {
      ResidualOk(config, stake, seen.totals, now);
    }
  }

  // ------------------------------------------------------------------------------------------
  // Live caps
  // ------------------------------------------------------------------------------------------

  /** The trader's cap is the largest net that the current net and the spending since the snapshot leave. */
  lemma LiveCapIsLargest(prior: u128, spent: u128, current: u128, currentSpent: u128, net: nat)
    ensures net <= TraderLiveCap(prior, spent, current, currentSpent)
       <==> net <= current && (net == 0 || net + Max(currentSpent - spent, 0) <= prior)
  {
  }

  /** Flow that is still there is claimed in full: nothing spent since, and no smaller net, costs nothing. */
  lemma KeptFlowIsClaimedInFull(config: Config, stake: Stake, totals: Portfolio, now: u64, later: Portfolio)
    requires StakeOk(stake) && stake.cohort.Residual() && CrystallizeResidual(config, stake, totals, now).Ok?
    requires NetDelta(stake, totals) <= NetDelta(stake, later)
    requires stake.cohort.Trader? ==> later.spent <= totals.spent
    ensures var stake' := CrystallizeResidual(config, stake, totals, now).value;
            ClaimPoints(stake', PortfolioWitness(later)) == Ok(stake'.points)
  {
    ResidualOk(config, stake, totals, now);
    var stake' := CrystallizeResidual(config, stake, totals, now).value;
    var weight :| 0 <= weight <= 63 && stake'.points == Weighted(weight, stake'.earningsSnap);
    CapIsExact(weight, stake'.earningsSnap, LiveCap(stake', later));
  }
}
