/**
 A reward epoch (residual-distributor/src/lib.rs) as a state machine on values: stakes are registered and
 crystallized into points, the cohort totals are frozen once, and every stake then claims its own share
 of its cohort's supply under the live caps.
 */
module RewardEpochs {
  import opened Machine
  import opened Division
  import opened ShareLedger
  import opened RewardMath

  datatype Cohort = Insurance | Backing | Lp | Trader | Funding {
    predicate Capital() {
      Insurance? || Backing?
    }

    predicate Residual() {
      Lp? || Trader?
    }

    /** LP and trader are two views of one flow: they share a stake address. */
    function Family(): Cohort {
      if Trader? then Lp else this
    }
  }

  datatype PerCohort<T> = PerCohort(insurance: T, backing: T, lp: T, trader: T, funding: T) {
    function Of(c: Cohort): T {
      match c
      case Insurance => insurance
      case Backing => backing
      case Lp => lp
      case Trader => trader
      case Funding => funding
    }

    function With(c: Cohort, value: T): PerCohort<T> {
      match c
      case Insurance => this.(insurance := value)
      case Backing => this.(backing := value)
      case Lp => this.(lp := value)
      case Trader => this.(trader := value)
      case Funding => this.(funding := value)
    }
  }

  datatype Config = Config(
    totalSupply: u64, feeBps: Bps, insuranceBps: Bps, backingBps: Bps, lpBps: Bps, fundingBps: Bps,
    emissionStart: u64, emissionEnd: u64, finalizeWindow: u64, epoch: bool, vaultBalanceMode: bool,
    totals: PerCohort<u128>, frozen: PerCohort<u128>, freezeSlot: u64)
  {
    /** The remainder after the explicit shares. */
    function TraderBps(): Bps {
      SaturatingSub(SaturatingSub(SaturatingSub(SaturatingSub(BPS, insuranceBps), backingBps), lpBps), fundingBps)
    }

    function BpsOf(c: Cohort): Bps {
      match c
      case Insurance => insuranceBps
      case Backing => backingBps
      case Lp => lpBps
      case Trader => TraderBps()
      case Funding => fundingBps
    }

    /** The COIN set aside for a cohort. */
    function Supply(c: Cohort): u64 {
      ShareWithin(totalSupply, BpsOf(c), BPS);
      totalSupply * BpsOf(c) / BPS
    }

    /** The freeze slot doubles as the mark that the epoch is frozen. */
    predicate Frozen() {
      freezeSlot != 0
    }

    /** After the end of an epoch's emission only capital and trader stakes may be finalized. */
    predicate PostEmission(now: u64) {
      epoch && now > emissionEnd
    }
  }

  /**
   `snap` is the counter at registration; `earningsSnap` the principal or net flow behind the points;
   `eligibleAccum` the crystallization slot of capital, or the spent counter of a trader.
   */
  datatype Stake = Stake(
    cohort: Cohort, recipient: Pubkey, snap: u128, earningsSnap: u128, startSlot: u64,
    points: u128, eligibleAccum: u128, claimed: bool)

  datatype StakeKey = StakeKey(owner: Pubkey, linked: Pubkey, family: Cohort)

  /** The cumulative counters of a portfolio, archived generations included. */
  datatype Portfolio = Portfolio(received: u128, loss: u128, spent: u128, longPaid: u128, shortPaid: u128)

  /** The account a stake is bound to, as an instruction finds it. */
  datatype Witness =
    | PositionWitness(position: Position)
    | PortfolioWitness(totals: Portfolio)
    | GonePortfolio
    | NoWitness

  datatype Rewards = Rewards(config: Config, stakes: map<StakeKey, Stake>, vault: u64, paid: PerCohort<nat>)

  // ------------------------------------------------------------------------------------------
  // Counters
  // ------------------------------------------------------------------------------------------

  function FlowCounter(c: Cohort, totals: Portfolio): u128 {
    match c
    case Lp => totals.received
    case Trader => SaturatingSub(totals.loss, totals.spent)
    case _ => Min(totals.longPaid + totals.shortPaid, U128_MAX)
  }

  /** The flow since registration. */
  function NetDelta(stake: Stake, totals: Portfolio): u128 {
    SaturatingSub(FlowCounter(stake.cohort, totals), stake.snap)
  }

  datatype Terminal = Terminal(principal: u64, slot: Option<u64>)

  /** What a forced terminal return recorded about a position. */
  function ReadTerminal(p: Position): Result<Option<Terminal>> {
    if !p.terminalReturned then Ok(None)
    else if !p.withdrawn || p.principal != 0 || p.withdrawnAmount == 0 then Err(InvalidAccountData)
    else Ok(Some(Terminal(p.withdrawnAmount, p.terminalReturnSlot)))
  }

  function CapitalPoints(p: Position): u64 {
    if p.withdrawn then 0 else p.principal
  }

  /** Tenure runs from the later of registration and the position's own clock. */
  function TenureWeight(stake: Stake, p: Position, slot: nat): nat {
    FloorLog2(SaturatingSub(slot, Max(stake.startSlot, p.startSlot)))
  }

  function SaturatingMul(a: nat, b: nat): u128 {
    MulMonotone(0, a, b);
    Min(a * b, U128_MAX)
  }

  // ------------------------------------------------------------------------------------------
  // Register and crystallize
  // ------------------------------------------------------------------------------------------

  function Register(r: Rewards, owner: Pubkey, linked: Pubkey, recipient: Pubkey, cohort: Cohort, seen: Witness, now: u64)
    : Result<Rewards>
  {
    var key := StakeKey(owner, linked, cohort.Family());
    if recipient == DEFAULT_KEY then Err(InvalidArgument)
    else if r.config.Frozen() then Err(InvalidAccountData)
    else if r.config.epoch && (now < r.config.emissionStart || now >= r.config.emissionEnd) then Err(InvalidInstructionData)
    else
      var snap :- (
        if cohort.Capital() then (if seen.PositionWitness? then Ok(0) else Err(IllegalOwner))
        else if seen.PortfolioWitness? then Ok(FlowCounter(cohort, seen.totals))
        else Err(InvalidAccountData));
      if key in r.stakes then Err(InvalidSeeds)
      else Ok(r.(stakes := r.stakes[key := Stake(cohort, recipient, snap, 0, now, 0, 0, false)]))
  }

  /** The principal and the slot a capital stake crystallizes at. */
  function CapitalBasis(config: Config, p: Position, now: u64): Result<(u64, u64)> {
    var terminal :- ReadTerminal(p);
    var cutoff := config.emissionEnd + config.finalizeWindow;
    if config.PostEmission(now) && (cutoff > U64_MAX || now >= cutoff) then Err(InvalidInstructionData)
    else
      var accrual := if config.epoch then Min(now, config.emissionEnd) else now;
      match terminal
      case None => Ok((CapitalPoints(p), accrual))
      case Some(Terminal(principal, Some(slot))) => Ok((principal, Min(accrual, slot)))
      case Some(Terminal(_, None)) => if config.PostEmission(now) then Err(InvalidInstructionData) else Ok((0, now))
  }

  function CrystallizeCapital(config: Config, stake: Stake, p: Position, now: u64): Result<Stake> {
    var (principal, slot) :- CapitalBasis(config, p, now);
    Ok(stake.(points := SaturatingMul(TenureWeight(stake, p, slot), principal),
              earningsSnap := principal, eligibleAccum := slot))
  }

  function CrystallizeResidual(config: Config, stake: Stake, totals: Portfolio, now: u64): Result<Stake> {
    var net := NetDelta(stake, totals);
    var accum := if stake.cohort.Trader? then totals.spent else 0;
    if config.PostEmission(now) then
      var capNet := TraderLiveCap(stake.earningsSnap, stake.eligibleAccum, net, totals.spent);
      var points :- CapResidualPoints(stake.points, stake.earningsSnap, capNet);
      Ok(stake.(points := points, earningsSnap := capNet, eligibleAccum := accum))
    else
      var weight := FloorLog2(SaturatingSub(now, stake.startSlot));
      if Weighted(weight, net) > U128_MAX then Err(ArithmeticOverflow)
      else
        MulMonotone(0, weight, net);
        Ok(stake.(points := Weighted(weight, net), earningsSnap := net, eligibleAccum := accum))
  }

  function CrystallizedStake(config: Config, key: StakeKey, stake: Stake, signer: Pubkey, seen: Witness, now: u64)
    : Result<Stake>
  {
    if stake.cohort.Capital() then
      if signer != key.owner then Err(MissingRequiredSignature)
      else if !seen.PositionWitness? then Err(IllegalOwner)
      else CrystallizeCapital(config, stake, seen.position, now)
    else if !seen.PortfolioWitness? then Err(InvalidAccountData)
    else if stake.cohort.Residual() then CrystallizeResidual(config, stake, seen.totals, now)
    else
      var net := NetDelta(stake, seen.totals);
      Ok(stake.(points := net, earningsSnap := net, eligibleAccum := 0))
  }

  /** Re-derive a stake's points and swap them in its cohort's running total. */
  function Crystallize(r: Rewards, key: StakeKey, signer: Pubkey, seen: Witness, now: u64): Result<Rewards> {
    if r.config.Frozen() then Err(InvalidAccountData)
    else if r.config.epoch && now < r.config.emissionStart then Err(InvalidInstructionData)
    else if key !in r.stakes then Err(IllegalOwner)
    else
      var stake := r.stakes[key];
      if r.config.PostEmission(now) && (stake.cohort.Lp? || stake.cohort.Funding?) then Err(InvalidInstructionData)
      else
        var stake' :- CrystallizedStake(r.config, key, stake, signer, seen, now);
        var total :- ReplacePoints(r.config.totals.Of(stake.cohort), stake.points, stake'.points);
        Ok(r.(config := r.config.(totals := r.config.totals.With(stake.cohort, total)),
              stakes := r.stakes[key := stake']))
  }

  // ------------------------------------------------------------------------------------------
  // Freeze and claim
  // ------------------------------------------------------------------------------------------

  /** Snapshot the denominators, and in vault-balance mode the supply. */
  function Freeze(r: Rewards, mintSupply: u64, now: u64): Result<Rewards> {
    var cutoff := r.config.emissionEnd + r.config.finalizeWindow;
    if r.config.Frozen() then Err(InvalidAccountData)
    else if cutoff > U64_MAX || now < cutoff then Err(InvalidInstructionData)
    else
      var supply :- (
        if r.config.vaultBalanceMode then
          if !r.config.epoch || r.vault == 0 then Err(InvalidAccountData) else Ok(r.vault)
        else if r.config.totalSupply == 0 || mintSupply != r.config.totalSupply || r.vault < r.config.totalSupply then
          Err(InvalidAccountData)
        else Ok(r.config.totalSupply));
      Ok(r.(config := r.config.(totalSupply := supply, frozen := r.config.totals, freezeSlot := now)))
  }

  /** The frozen points of a stake under its live cap. */
  function ClaimPoints(stake: Stake, seen: Witness): Result<u128> {
    match stake.cohort
    case Funding => if seen.NoWitness? then Ok(stake.points) else Err(InvalidInstructionData)
    case Lp =>
      if seen.GonePortfolio? then Ok(stake.points)
      else if !seen.PortfolioWitness? then Err(InvalidAccountData)
      else CapResidualPoints(stake.points, stake.earningsSnap, NetDelta(stake, seen.totals))
    case Trader =>
      if !seen.PortfolioWitness? then Err(InvalidAccountData)
      else
        var net := NetDelta(stake, seen.totals);
        CapResidualPoints(stake.points, stake.earningsSnap,
                          TraderLiveCap(stake.earningsSnap, stake.eligibleAccum, net, seen.totals.spent))
    case _ =>
      if !seen.PositionWitness? then Err(InvalidAccountData)
      else
        var p := seen.position;
        var terminal :- ReadTerminal(p);
        var live := if terminal.Some? then terminal.value.principal else CapitalPoints(p);
        if stake.eligibleAccum > U64_MAX then Err(InvalidAccountData)
        else Ok(Min(stake.points, SaturatingMul(TenureWeight(stake, p, stake.eligibleAccum), Min(stake.earningsSnap, live))))
  }

  /** What `points` of a stake are worth: its exact share of the cohort's supply, less the fee on flow cohorts. */
  function Payout(config: Config, stake: Stake, points: u128): u64 {
    var amount := ShareOf(config.Supply(stake.cohort), points, config.frozen.Of(stake.cohort));
    if stake.cohort.Capital() then amount else Net(amount, config.feeBps)
  }

  /** The checks of a claim, and its price. */
  function PriceClaim(r: Rewards, key: StakeKey, signer: Pubkey, recipient: Pubkey, seen: Witness): Result<u64> {
    if !r.config.Frozen() then Err(InvalidAccountData)
    else if key !in r.stakes then Err(IllegalOwner)
    else
      var stake := r.stakes[key];
      if stake.claimed then Err(InvalidAccountData)
      else if stake.cohort.Capital() && signer != key.owner then Err(MissingRequiredSignature)
      else if recipient != stake.recipient then Err(InvalidAccountData)
      else if stake.points > r.config.frozen.Of(stake.cohort) then Err(InvalidAccountData)
      else
        var points :- ClaimPoints(stake, seen);
        Ok(Payout(r.config, stake, points))
  }

  /** Pay a stake its share of its cohort, less the fee on flow cohorts, once. */
  function Claim(r: Rewards, key: StakeKey, signer: Pubkey, recipient: Pubkey, seen: Witness): Result<(Rewards, u64)> {
    var payout :- PriceClaim(r, key, signer, recipient, seen);
    var stake := r.stakes[key];
    if payout > r.vault then Err(CpiRejected)
    else
      Ok((r.(stakes := r.stakes[key := stake.(claimed := true)],
             vault := r.vault - payout,
             paid := r.paid.With(stake.cohort, r.paid.Of(stake.cohort) + payout)),
          payout))
  }

  // ------------------------------------------------------------------------------------------
  // Runs
  // ------------------------------------------------------------------------------------------

  datatype RewardStep =
    | DoRegister(owner: Pubkey, linked: Pubkey, recipient: Pubkey, cohort: Cohort, seen: Witness, now: u64)
    | DoCrystallize(key: StakeKey, signer: Pubkey, seen: Witness, now: u64)
    | DoFreeze(mintSupply: u64, now: u64)
    | DoClaim(key: StakeKey, signer: Pubkey, recipient: Pubkey, seen: Witness)
    | DoDonate(amount: u64)

  function Perform(r: Rewards, step: RewardStep): Result<Rewards> {
    match step
    case DoRegister(owner, linked, recipient, cohort, seen, now) =>
      Register(r, owner, linked, recipient, cohort, seen, now)
    case DoCrystallize(key, signer, seen, now) => Crystallize(r, key, signer, seen, now)
    case DoFreeze(mintSupply, now) => Freeze(r, mintSupply, now)
    case DoClaim(key, signer, recipient, seen) =>
      var claimed :- Claim(r, key, signer, recipient, seen);
      Ok(claimed.0)
    case DoDonate(amount) =>
      if r.vault + amount > U64_MAX then Err(CpiRejected) else Ok(r.(vault := r.vault + amount))
  }

  function After(r: Rewards, step: RewardStep): Rewards {
    match Perform(r, step)
    case Ok(r') => r'
    case Err(_) => r
  }

  function RunRewards(r: Rewards, steps: seq<RewardStep>): Rewards
    decreases |steps|
  {
    if steps == [] then r else RunRewards(After(r, steps[0]), steps[1..])
  }
}
