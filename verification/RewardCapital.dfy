/**
 Capital rewards across two programs: what deposits, exits and terminal returns in the insurance pool do
 to the points of a stake bound to the position.
 */
module RewardCapital {
  import opened Machine
  import opened Division
  import opened ShareMath
  import opened Percolator
  import opened ShareLedger
  import opened RewardMath
  import opened RewardEpochs

  /** The terminal-return record of a position is one that the reward program accepts. */
  predicate Readable(p: Position) {
    p.terminalReturned ==> p.withdrawn && p.principal == 0 && p.withdrawnAmount > 0
  }

  ghost predicate AllReadable(l: Ledger) {
    forall o :: o in l.positions ==> Readable(l.positions[o])
  }

  lemma DepositReadable(l: Ledger, owner: Pubkey, amount: u64, now: u64)
    requires AllReadable(l) && Deposit(l, owner, amount, now).Ok?
    ensures AllReadable(Deposit(l, owner, amount, now).value)
    ensures var p := Deposit(l, owner, amount, now).value.positions[owner];
            !p.terminalReturned && !p.withdrawn && p.startSlot == now
  {
    var balance := ReadBalance(l.market).value;
    var minted := MintForDeposit(l.pool, amount, PricedBalance(l.pool, ReadInsurance(balance))).value;
    CreditReadable(l, balance, minted, owner, amount, now);
  }

  lemma CreditReadable(l: Ledger, balance: AssetBalance, minted: Minted, owner: Pubkey, amount: u64, now: u64)
    requires AllReadable(l) && CreditDeposit(l, balance, minted, owner, amount, now).Ok?
    ensures AllReadable(CreditDeposit(l, balance, minted, owner, amount, now).value)
    ensures var p := CreditDeposit(l, balance, minted, owner, amount, now).value.positions[owner];
            !p.terminalReturned && !p.withdrawn && p.startSlot == now
  {
  }

  /** What an exit leaves behind: the clock of the position, less principal, and the record of a forced return. */
  lemma ExitReadable(l: Ledger, owner: Pubkey, request: Option<u64>, now: u64)
    requires AllReadable(l) && Exit(l, owner, request, now).Ok?
    ensures AllReadable(Exit(l, owner, request, now).value.0)
    ensures var (p, p') := (l.positions[owner], Exit(l, owner, request, now).value.0.positions[owner]);
            && !p.withdrawn && !p.terminalReturned && p'.startSlot == p.startSlot
            && p'.principal == (if request.Some? then p.principal - request.value else 0)
            && (p'.withdrawn <==> p'.principal == 0)
            && (p'.terminalReturned <==> request.None?)
            && (request.None? ==> p'.withdrawnAmount == p.principal)
  {
  }

  lemma {:induction false} RunReadable(l: Ledger, steps: seq<Step>)
    requires AllReadable(l)
    ensures AllReadable(Run(l, steps))
    decreases |steps|
  {
    if steps != [] {
      match steps[0] {
        case DepositStep(owner, amount, now) =>
          if Deposit(l, owner, amount, now).Ok? { DepositReadable(l, owner, amount, now); }
        case ExitStep(owner, request, now) =>
          if Exit(l, owner, request, now).Ok? { ExitReadable(l, owner, request, now); }
        case LockStep(_, _) =>
        case MarketStep(_) =>
      }
      RunReadable(Apply(l, steps[0]), steps[1..]);
    }
  }

  /** Every position that a run of the pool produced can be crystallized against and claimed against. */
  lemma ReachablePositionsAreReadable(policy: Policy, schedule: Schedule, market: Market, steps: seq<Step>, owner: Pubkey)
    requires owner in Run(FreshLedger(policy, schedule, market), steps).positions
    ensures ReadTerminal(Run(FreshLedger(policy, schedule, market), steps).positions[owner]).Ok?
  {
    RunReadable(FreshLedger(policy, schedule, market), steps);
  }

  predicate CapitalStake(stake: Stake) {
    stake.cohort.Capital() && stake.eligibleAccum <= U64_MAX
  }

  /** A claim at a position with no tenure is worth nothing. */
  lemma NoTenureNoPoints(stake: Stake, p: Position)
    requires CapitalStake(stake) && ReadTerminal(p).Ok? && stake.eligibleAccum <= Max(stake.startSlot, p.startSlot)
    ensures ClaimPoints(stake, PositionWitness(p)) == Ok(0)
  {
    assert TenureWeight(stake, p, stake.eligibleAccum) == 0;
  }

  /**
   A top-up restarts the position's clock: crystallizing at once earns nothing, and a top-up after the
   crystallization lends the new capital none of the frozen tenure.
   */
  lemma TopUpRestartsTenure(l: Ledger, owner: Pubkey, amount: u64, now: u64, config: Config, stake: Stake)
    requires AllReadable(l) && Deposit(l, owner, amount, now).Ok? && CapitalStake(stake)
    ensures var p := Deposit(l, owner, amount, now).value.positions[owner];
            && (CrystallizeCapital(config, stake, p, now).Ok? ==> CrystallizeCapital(config, stake, p, now).value.points == 0)
            && (stake.eligibleAccum <= now ==> ClaimPoints(stake, PositionWitness(p)) == Ok(0))
  {
    DepositReadable(l, owner, amount, now);
    RestartedClock(config, stake, Deposit(l, owner, amount, now).value.positions[owner], now);
  }

  lemma RestartedClock(config: Config, stake: Stake, p: Position, now: u64)
    requires CapitalStake(stake) && !p.terminalReturned && p.startSlot == now
    ensures CrystallizeCapital(config, stake, p, now).Ok? ==> CrystallizeCapital(config, stake, p, now).value.points == 0
    ensures stake.eligibleAccum <= now ==> ClaimPoints(stake, PositionWitness(p)) == Ok(0)
  {
    if stake.eligibleAccum <= now {
      NoTenureNoPoints(stake, p);
    }
    if CrystallizeCapital(config, stake, p, now).Ok? {
      var basis := CapitalBasis(config, p, now).value;
      assert basis.1 <= now && TenureWeight(stake, p, basis.1) == 0;
    }
  }

  /** The capital left behind bounds the claim. */
  lemma ClaimWithinLivePrincipal(stake: Stake, p: Position, live: u64)
    requires CapitalStake(stake) && !p.terminalReturned && CapitalPoints(p) <= live
    ensures var r := ClaimPoints(stake, PositionWitness(p));
            && r.Ok? && r.value <= stake.points
            && r.value <= SaturatingMul(TenureWeight(stake, p, stake.eligibleAccum), live)
  {
    var weight := TenureWeight(stake, p, stake.eligibleAccum);
    MulMonotone(Min(stake.earningsSnap, CapitalPoints(p)), live, weight);
  }

  /** Capital that stays where it was crystallized, or grows without a new clock, is claimed in full. */
  lemma KeptCapitalIsClaimedInFull(config: Config, stake: Stake, p: Position, now: u64, p': Position)
    requires stake.cohort.Capital() && !p.terminalReturned && !p'.terminalReturned
    requires CrystallizeCapital(config, stake, p, now).Ok?
    requires p'.startSlot == p.startSlot && CapitalPoints(p) <= CapitalPoints(p')
    ensures var stake' := CrystallizeCapital(config, stake, p, now).value;
            ClaimPoints(stake', PositionWitness(p')) == Ok(stake'.points)
  {
    var stake' := CrystallizeCapital(config, stake, p, now).value;
    assert TenureWeight(stake', p', stake'.eligibleAccum) == TenureWeight(stake, p, stake'.eligibleAccum);
  }

  /** A voluntary exit keeps only the points of the principal left at risk; a full one forfeits them all. */
  lemma ExitForfeits(l: Ledger, owner: Pubkey, amount: u64, now: u64, stake: Stake)
    requires AllReadable(l) && Exit(l, owner, Some(amount), now).Ok? && CapitalStake(stake)
    ensures var (p, p') := (l.positions[owner], Exit(l, owner, Some(amount), now).value.0.positions[owner]);
            var r := ClaimPoints(stake, PositionWitness(p'));
            && amount <= p.principal && r.Ok?
            && r.value <= SaturatingMul(TenureWeight(stake, p, stake.eligibleAccum), p.principal - amount)
            && (amount == p.principal ==> r.value == 0)
  {
    ExitReadable(l, owner, Some(amount), now);
    var (p, p') := (l.positions[owner], Exit(l, owner, Some(amount), now).value.0.positions[owner]);
    ClaimWithinLivePrincipal(stake, p', p.principal - amount);
    assert TenureWeight(stake, p', stake.eligibleAccum) == TenureWeight(stake, p, stake.eligibleAccum);
    if amount == p.principal {
      assert SaturatingMul(TenureWeight(stake, p, stake.eligibleAccum), 0) == 0;
    }
  }

  /** A forced terminal return costs the owner nothing: the claim is worth what it was just before. */
  lemma TerminalReturnPreservesPoints(l: Ledger, owner: Pubkey, now: u64, stake: Stake)
    requires AllReadable(l) && Exit(l, owner, None, now).Ok? && CapitalStake(stake)
    ensures ClaimPoints(stake, PositionWitness(Exit(l, owner, None, now).value.0.positions[owner]))
         == ClaimPoints(stake, PositionWitness(l.positions[owner]))
  {
    ExitReadable(l, owner, None, now);
    var (p, p') := (l.positions[owner], Exit(l, owner, None, now).value.0.positions[owner]);
    assert TenureWeight(stake, p', stake.eligibleAccum) == TenureWeight(stake, p, stake.eligibleAccum);
  }

  // ------------------------------------------------------------------------------------------
  // Flow since registration
  // ------------------------------------------------------------------------------------------

  /** What registration fixed about a stake, and initialisation about the epoch. */
  predicate SameRegistration(r: Rewards, r': Rewards, key: StakeKey)
    requires key in r.stakes
  {
    && key in r'.stakes
    && r'.stakes[key].cohort == r.stakes[key].cohort && r'.stakes[key].recipient == r.stakes[key].recipient
    && r'.stakes[key].snap == r.stakes[key].snap && r'.stakes[key].startSlot == r.stakes[key].startSlot
    && r'.config.epoch == r.config.epoch && r'.config.emissionEnd == r.config.emissionEnd
  }

  lemma StepKeepsRegistration(r: Rewards, step: RewardStep, key: StakeKey)
    requires key in r.stakes
    ensures SameRegistration(r, After(r, step), key)
  {
  }

  lemma {:induction false} RunKeepsRegistration(r: Rewards, steps: seq<RewardStep>, key: StakeKey)
    requires key in r.stakes
    ensures SameRegistration(r, RunRewards(r, steps), key)
    decreases |steps|
  {
    if steps != [] {
      StepKeepsRegistration(r, steps[0], key);
      RunKeepsRegistration(After(r, steps[0]), steps[1..], key);
    }
  }

  /**
   Points count only the flow since registration, under the tenure since registration, however often the
   stake and all others were crystallized in between.
   */
  lemma OnlyFlowSinceRegistrationCounts(r: Rewards, owner: Pubkey, linked: Pubkey, recipient: Pubkey, cohort: Cohort,
                                        first: Portfolio, start: u64, steps: seq<RewardStep>, signer: Pubkey,
                                        last: Portfolio, now: u64)
    requires !cohort.Capital() && !r.config.PostEmission(now)
    requires Register(r, owner, linked, recipient, cohort, PortfolioWitness(first), start).Ok?
    ensures var key := StakeKey(owner, linked, cohort.Family());
            var r1 := Register(r, owner, linked, recipient, cohort, PortfolioWitness(first), start).value;
            var r2 := Crystallize(RunRewards(r1, steps), key, signer, PortfolioWitness(last), now);
            r2.Ok? ==>
              && key in r2.value.stakes
              && r2.value.stakes[key].points
                 == Weighted(if cohort.Residual() then FloorLog2(SaturatingSub(now, start)) else 1,
                             SaturatingSub(FlowCounter(cohort, last), FlowCounter(cohort, first)))
  {
    var key := StakeKey(owner, linked, cohort.Family());
    var r1 := Register(r, owner, linked, recipient, cohort, PortfolioWitness(first), start).value;
    RunKeepsRegistration(r1, steps, key);
    CrystallizedFlow(RunRewards(r1, steps), key, signer, last, now);
  }

  lemma CrystallizedFlow(r: Rewards, key: StakeKey, signer: Pubkey, totals: Portfolio, now: u64)
    requires key in r.stakes && !r.stakes[key].cohort.Capital() && !r.config.PostEmission(now)
    ensures var stake := r.stakes[key];
            var r' := Crystallize(r, key, signer, PortfolioWitness(totals), now);
            r'.Ok? ==>
              && key in r'.value.stakes
              && r'.value.stakes[key].points
                 == Weighted(if stake.cohort.Residual() then FloorLog2(SaturatingSub(now, stake.startSlot)) else 1,
                             NetDelta(stake, totals))
  {
  }
}
