/**
 What every reachable reward epoch keeps: the cohort totals are the sums of their stakes' points, and
 after the freeze what was paid plus what is still due never exceeds the cohort's supply, so the vault is
 never short and each stake is paid exactly once.
 */
module RewardSolvency {
  import opened Machine
  import opened Division
  import opened MapSum
  import opened ShareLedger
  import opened RewardMath
  import opened RewardEpochs

  /** The points of one cohort. */
  function PointsIn(stakes: map<StakeKey, Stake>, c: Cohort): map<StakeKey, nat> {
    map k | k in stakes :: if stakes[k].cohort == c then stakes[k].points else 0
  }

  function Due(stake: Stake, c: Cohort, supply: u64, denominator: u128): nat {
    if stake.cohort == c && !stake.claimed then ShareOf(supply, stake.points, denominator) else 0
  }

  /** The uncapped shares still to be claimed from one cohort. */
  function Dues(stakes: map<StakeKey, Stake>, c: Cohort, supply: u64, denominator: u128): map<StakeKey, nat> {
    map k | k in stakes :: Due(stakes[k], c, supply, denominator)
  }

  /** Residual points are a tenure weight below 64 times the net flow they were computed from. */
  predicate StakeOk(stake: Stake) {
    && (stake.cohort.Residual() ==>
          exists weight :: 0 <= weight <= 63 && stake.points == Weighted(weight, stake.earningsSnap))
    && (stake.cohort.Capital() ==> stake.eligibleAccum <= U64_MAX)
  }

  /** What both initialisations demand of the schedule and the cohort shares. */
  predicate ConfigOk(config: Config) {
    && config.insuranceBps + config.backingBps + config.lpBps + config.fundingBps <= BPS
    && config.finalizeWindow > 0
    && config.emissionEnd + config.finalizeWindow <= U64_MAX
  }

  ghost predicate StakesOk(stakes: map<StakeKey, Stake>) {
    forall k :: k in stakes ==> StakeOk(stakes[k]) && k.family == stakes[k].cohort.Family()
  }

  /** The running total of a cohort is exactly its stakes' points. */
  ghost predicate Counted(totals: PerCohort<u128>, stakes: map<StakeKey, Stake>, c: Cohort) {
    totals.Of(c) == Sum(PointsIn(stakes, c))
  }

  /** Paid and due together stay within the cohort's supply. */
  ghost predicate Solvent(config: Config, stakes: map<StakeKey, Stake>, paid: PerCohort<nat>, c: Cohort) {
    paid.Of(c) + Sum(Dues(stakes, c, config.Supply(c), config.frozen.Of(c))) <= config.Supply(c)
  }

  function TotalPaid(paid: PerCohort<nat>): nat {
    paid.insurance + paid.backing + paid.lp + paid.trader + paid.funding
  }

  ghost predicate RewardInv(r: Rewards) {
    && ConfigOk(r.config)
    && StakesOk(r.stakes)
    && (forall c: Cohort :: Counted(r.config.totals, r.stakes, c))
    && (if r.config.Frozen() then
          && r.config.frozen == r.config.totals
          && (forall c: Cohort :: Solvent(r.config, r.stakes, r.paid, c))
          && r.vault + TotalPaid(r.paid) >= r.config.totalSupply
        else
          && TotalPaid(r.paid) == 0
          && (forall k :: k in r.stakes ==> !r.stakes[k].claimed))
  }

  /** The accounts after initialisation. */
  predicate FreshRewards(r: Rewards) {
    && ConfigOk(r.config) && !r.config.Frozen()
    && r.config.totals == PerCohort(0, 0, 0, 0, 0)
    && r.stakes == map[] && r.paid == PerCohort(0, 0, 0, 0, 0)
  }

  lemma FreshRewardsKeep(r: Rewards)
    requires FreshRewards(r)
    ensures RewardInv(r)
  {
    forall c: Cohort ensures Counted(r.config.totals, r.stakes, c) {
      SumZero(PointsIn(r.stakes, c));
    }
  }

  // ------------------------------------------------------------------------------------------
  // Points
  // ------------------------------------------------------------------------------------------

  function PointsFor(stake: Stake, c: Cohort): nat {
    if stake.cohort == c then stake.points else 0
  }

  lemma WritePoints(stakes: map<StakeKey, Stake>, key: StakeKey, stake: Stake, c: Cohort)
    ensures Sum(PointsIn(stakes[key := stake], c))
         == Sum(PointsIn(stakes, c)) - (if key in stakes then PointsFor(stakes[key], c) else 0) + PointsFor(stake, c)
  {
    SumUpdate(PointsIn(stakes, c), key, PointsFor(stake, c));
    assert PointsIn(stakes[key := stake], c) == PointsIn(stakes, c)[key := PointsFor(stake, c)];
  }

  /** Subtract-old and add-new keeps every cohort's total exact; the subtraction never fails. */
  lemma ReplaceKeepsCounted(totals: PerCohort<u128>, stakes: map<StakeKey, Stake>, key: StakeKey, stake: Stake, c: Cohort)
    requires Counted(totals, stakes, c) && Counted(totals, stakes, stake.cohort)
    requires key in stakes && stakes[key].cohort == stake.cohort
    ensures stakes[key].points <= totals.Of(stake.cohort)
    ensures var total := ReplacePoints(totals.Of(stake.cohort), stakes[key].points, stake.points);
            total.Ok? ==> Counted(totals.With(stake.cohort, total.value), stakes[key := stake], c)
  {
    SumBoundsEach(PointsIn(stakes, stake.cohort), key);
    WritePoints(stakes, key, stake, c);
  }

  lemma RegisterKeeps(r: Rewards, owner: Pubkey, linked: Pubkey, recipient: Pubkey, cohort: Cohort, seen: Witness, now: u64)
    requires RewardInv(r) && Register(r, owner, linked, recipient, cohort, seen, now).Ok?
    ensures RewardInv(Register(r, owner, linked, recipient, cohort, seen, now).value)
  {
    var r' := Register(r, owner, linked, recipient, cohort, seen, now).value;
    var key := StakeKey(owner, linked, cohort.Family());
    var stake := r'.stakes[key];
    assert Weighted(0, stake.earningsSnap) == stake.points;
    forall c: Cohort ensures Counted(r'.config.totals, r'.stakes, c) {
      assert Counted(r.config.totals, r.stakes, c);
      WritePoints(r.stakes, key, stake, c);
    }
  }

  /** Every way of crystallizing leaves residual points a weight times their net. */
  lemma CrystallizedOk(config: Config, key: StakeKey, stake: Stake, signer: Pubkey, seen: Witness, now: u64)
    requires StakeOk(stake) && CrystallizedStake(config, key, stake, signer, seen, now).Ok?
    ensures var stake' := CrystallizedStake(config, key, stake, signer, seen, now).value;
            StakeOk(stake') && stake'.cohort == stake.cohort && stake'.claimed == stake.claimed
  {
    if stake.cohort.Residual() {
      ResidualOk(config, stake, seen.totals, now);
    }
  }

  /** The divisibility rejection of a post-emission refresh is unreachable. */
  lemma ResidualOk(config: Config, stake: Stake, totals: Portfolio, now: u64)
    requires StakeOk(stake) && stake.cohort.Residual()
    ensures config.PostEmission(now) ==> CrystallizeResidual(config, stake, totals, now).Ok?
    ensures var r := CrystallizeResidual(config, stake, totals, now);
            r.Ok? ==> StakeOk(r.value) && r.value.cohort == stake.cohort && r.value.claimed == stake.claimed
  {
    var net := NetDelta(stake, totals);
    if config.PostEmission(now) {
      var weight :| 0 <= weight <= 63 && stake.points == Weighted(weight, stake.earningsSnap);
      var capNet := TraderLiveCap(stake.earningsSnap, stake.eligibleAccum, net, totals.spent);
      CapIsExact(weight, stake.earningsSnap, capNet);
    } else {
      FloorLog2Within(SaturatingSub(now, stake.startSlot));
    }
  }

  lemma CrystallizeKeeps(r: Rewards, key: StakeKey, signer: Pubkey, seen: Witness, now: u64)
    requires RewardInv(r) && Crystallize(r, key, signer, seen, now).Ok?
    ensures RewardInv(Crystallize(r, key, signer, seen, now).value)
  {
    var r' := Crystallize(r, key, signer, seen, now).value;
    CrystallizedOk(r.config, key, r.stakes[key], signer, seen, now);
    forall c: Cohort ensures Counted(r'.config.totals, r'.stakes, c) {
      assert Counted(r.config.totals, r.stakes, c) && Counted(r.config.totals, r.stakes, r.stakes[key].cohort);
      ReplaceKeepsCounted(r.config.totals, r.stakes, key, r'.stakes[key], c);
    }
  }

  // ------------------------------------------------------------------------------------------
  // Freeze
  // ------------------------------------------------------------------------------------------

  lemma SuppliesWithin(config: Config)
    requires ConfigOk(config)
    ensures config.Supply(Insurance) + config.Supply(Backing) + config.Supply(Lp) + config.Supply(Trader)
          + config.Supply(Funding) <= config.totalSupply
  {
    var s := config.totalSupply;
    assert s * config.insuranceBps + s * config.backingBps + s * config.lpBps + s * config.fundingBps
         + s * config.TraderBps() == s * BPS by {
      assert config.TraderBps() == BPS - config.insuranceBps - config.backingBps - config.lpBps - config.fundingBps;
    }
  }

  /** All uncapped shares of one cohort together fit in its supply. */
  lemma SharesWithinSupply(stakes: map<StakeKey, Stake>, c: Cohort, supply: u64, denominator: u128)
    requires denominator == Sum(PointsIn(stakes, c))
    ensures Sum(Dues(stakes, c, supply, denominator)) <= supply
  {
    var (dues, points) := (Dues(stakes, c, supply, denominator), PointsIn(stakes, c));
    if denominator == 0 {
      SumZero(dues);
    } else {
      forall k | k in dues ensures dues[k] * denominator <= points[k] * supply {
        DueWithinPoints(stakes[k], c, supply, denominator);
      }
      SumScaled(dues, points, denominator, supply);
      CancelFactor(Sum(dues), supply, denominator);
    }
  }

  lemma DueWithinPoints(stake: Stake, c: Cohort, supply: u64, denominator: u128)
    requires denominator > 0
    ensures Due(stake, c, supply, denominator) * denominator <= PointsFor(stake, c) * supply
  {
    MulMonotone(0, PointsFor(stake, c), supply);
    FloorIsLargest(supply * stake.points, denominator, supply * stake.points / denominator);
  }

  lemma FreezeKeeps(r: Rewards, mintSupply: u64, now: u64)
    requires RewardInv(r) && Freeze(r, mintSupply, now).Ok?
    ensures RewardInv(Freeze(r, mintSupply, now).value)
  {
    var r' := Freeze(r, mintSupply, now).value;
    forall c: Cohort ensures Counted(r'.config.totals, r'.stakes, c) && Solvent(r'.config, r'.stakes, r'.paid, c) {
      assert Counted(r.config.totals, r.stakes, c);
      SharesWithinSupply(r.stakes, c, r'.config.Supply(c), r.config.totals.Of(c));
    }
  }

  // ------------------------------------------------------------------------------------------
  // Claim
  // ------------------------------------------------------------------------------------------

  lemma WriteDues(stakes: map<StakeKey, Stake>, key: StakeKey, stake: Stake, c: Cohort, supply: u64, denominator: u128)
    requires key in stakes
    ensures Sum(Dues(stakes[key := stake], c, supply, denominator))
         == Sum(Dues(stakes, c, supply, denominator)) - Due(stakes[key], c, supply, denominator)
          + Due(stake, c, supply, denominator)
  {
    SumUpdate(Dues(stakes, c, supply, denominator), key, Due(stake, c, supply, denominator));
    assert Dues(stakes[key := stake], c, supply, denominator)
        == Dues(stakes, c, supply, denominator)[key := Due(stake, c, supply, denominator)];
  }

  /** The caps only lower the points, and on reachable stakes they never reject. */
  lemma CapsOnlyLower(stake: Stake, seen: Witness)
    requires StakeOk(stake)
    ensures ClaimPoints(stake, seen).Ok? ==> ClaimPoints(stake, seen).value <= stake.points
    ensures ClaimPoints(stake, seen).Ok? <==> WitnessFits(stake.cohort, seen)
  {
    if stake.cohort.Residual() && seen.PortfolioWitness? {
      var weight :| 0 <= weight <= 63 && stake.points == Weighted(weight, stake.earningsSnap);
      var net := NetDelta(stake, seen.totals);
      CapIsExact(weight, stake.earningsSnap, net);
      CapIsExact(weight, stake.earningsSnap,
                 TraderLiveCap(stake.earningsSnap, stake.eligibleAccum, net, seen.totals.spent));
    }
  }

  /** The witness a claim of each cohort needs. */
  predicate WitnessFits(c: Cohort, seen: Witness) {
    match c
    case Funding => seen.NoWitness?
    case Lp => seen.PortfolioWitness? || seen.GonePortfolio?
    case Trader => seen.PortfolioWitness?
    case _ => seen.PositionWitness? && ReadTerminal(seen.position).Ok?
  }

  /** A frozen stake's points are part of its denominator. */
  lemma PointsWithinFrozen(r: Rewards, key: StakeKey)
    requires RewardInv(r) && r.config.Frozen() && key in r.stakes
    ensures r.stakes[key].points <= r.config.frozen.Of(r.stakes[key].cohort)
  {
    var c := r.stakes[key].cohort;
    assert Counted(r.config.totals, r.stakes, c);
    SumBoundsEach(PointsIn(r.stakes, c), key);
  }

  /** A payout is within what is still due, hence within the cohort's supply and the vault. */
  lemma PayoutWithin(r: Rewards, key: StakeKey, points: u128)
    requires RewardInv(r) && r.config.Frozen() && key in r.stakes && !r.stakes[key].claimed
    requires points <= r.stakes[key].points
    ensures var stake := r.stakes[key];
            var payout := Payout(r.config, stake, points);
            && payout <= Due(stake, stake.cohort, r.config.Supply(stake.cohort), r.config.frozen.Of(stake.cohort))
            && r.paid.Of(stake.cohort) + payout <= r.config.Supply(stake.cohort)
            && payout <= r.vault
  {
    var stake := r.stakes[key];
    var (supply, denominator) := (r.config.Supply(stake.cohort), r.config.frozen.Of(stake.cohort));
    PointsWithinFrozen(r, key);
    ShareMonotone(supply, points, stake.points, denominator);
    SumBoundsEach(Dues(r.stakes, stake.cohort, supply, denominator), key);
    assert Solvent(r.config, r.stakes, r.paid, stake.cohort);
    VaultCovers(r, stake.cohort);
  }

  /** What a cohort has not been paid yet is in the vault. */
  lemma VaultCovers(r: Rewards, c: Cohort)
    requires RewardInv(r) && r.config.Frozen()
    ensures r.paid.Of(c) <= r.config.Supply(c)
    ensures r.config.Supply(c) - r.paid.Of(c) <= r.vault
  {
    SuppliesWithin(r.config);
    forall o: Cohort ensures r.paid.Of(o) <= r.config.Supply(o) {
      assert Solvent(r.config, r.stakes, r.paid, o);
    }
    assert r.paid.Of(Insurance) <= r.config.Supply(Insurance) && r.paid.Of(Backing) <= r.config.Supply(Backing)
        && r.paid.Of(Lp) <= r.config.Supply(Lp) && r.paid.Of(Trader) <= r.config.Supply(Trader)
        && r.paid.Of(Funding) <= r.config.Supply(Funding);
  }

  /**
   Claim liveness: after the freeze an unclaimed stake's claim fails only for the wrong signer, recipient
   or witness. The denominator test, the residual caps and the vault can never stand in its way.
   */
  lemma ClaimSucceedsExactly(r: Rewards, key: StakeKey, signer: Pubkey, recipient: Pubkey, seen: Witness)
    requires RewardInv(r)
    ensures Claim(r, key, signer, recipient, seen).Ok?
       <==> (&& r.config.Frozen() && key in r.stakes && !r.stakes[key].claimed
             && (r.stakes[key].cohort.Capital() ==> signer == key.owner)
             && recipient == r.stakes[key].recipient
             && WitnessFits(r.stakes[key].cohort, seen))
  {
    if r.config.Frozen() && key in r.stakes && !r.stakes[key].claimed {
      CapsOnlyLower(r.stakes[key], seen);
      PointsWithinFrozen(r, key);
      if ClaimPoints(r.stakes[key], seen).Ok? {
        PayoutWithin(r, key, ClaimPoints(r.stakes[key], seen).value);
      }
    }
  }

  /**
   What a claim pays: the largest amount within its points' part of the cohort supply, less the fee on
   flow cohorts; and nothing else changes but the claimed mark and the vault.
   */
  lemma ClaimPaysExactShare(r: Rewards, key: StakeKey, signer: Pubkey, recipient: Pubkey, seen: Witness)
    requires RewardInv(r) && Claim(r, key, signer, recipient, seen).Ok?
    ensures var (r', payout) := Claim(r, key, signer, recipient, seen).value;
            && ClaimPoints(r.stakes[key], seen).Ok?
            && IsShare(r.config, r.stakes[key], ClaimPoints(r.stakes[key], seen).value, payout)
            && r'.config == r.config
            && r'.stakes == r.stakes[key := r.stakes[key].(claimed := true)]
            && r'.vault + payout == r.vault
  {
    var stake := r.stakes[key];
    CapsOnlyLower(stake, seen);
    PointsWithinFrozen(r, key);
    ShareIsLargest(r.config, stake, ClaimPoints(stake, seen).value);
  }

  /** `payout` is the exact share of `points`, after the fee. */
  ghost predicate IsShare(config: Config, stake: Stake, points: u128, payout: u64) {
    exists amount: u64 ::
      && payout == (if stake.cohort.Capital() then amount else Net(amount, config.feeBps))
      && LargestShare(config.Supply(stake.cohort), points, config.frozen.Of(stake.cohort), amount)
  }

  predicate LargestShare(supply: nat, points: nat, total: nat, amount: nat) {
    if total == 0 then amount == 0 else amount * total <= supply * points < (amount + 1) * total
  }

  lemma ShareIsLargest(config: Config, stake: Stake, points: u128)
    requires points <= config.frozen.Of(stake.cohort)
    ensures IsShare(config, stake, points, Payout(config, stake, points))
  {
    var (supply, total) := (config.Supply(stake.cohort), config.frozen.Of(stake.cohort));
    var amount: int := ShareOf(supply, points, total);
    if total > 0 {
      FloorIsLargest(supply * points, total, amount);
      FloorIsLargest(supply * points, total, amount + 1);
    }
    assert LargestShare(supply, points, total, amount);
  }

  lemma ClaimKeeps(r: Rewards, key: StakeKey, signer: Pubkey, recipient: Pubkey, seen: Witness)
    requires RewardInv(r) && Claim(r, key, signer, recipient, seen).Ok?
    ensures RewardInv(Claim(r, key, signer, recipient, seen).value.0)
  {
    var (r', payout) := Claim(r, key, signer, recipient, seen).value;
    var stake := r.stakes[key];
    CapsOnlyLower(stake, seen);
    PayoutWithin(r, key, ClaimPoints(stake, seen).value);
    ClaimedKeeps(r, key, payout, r');
  }

  /** `payout` left the vault for a stake that is now claimed. */
  predicate ClaimedBy(r: Rewards, key: StakeKey, payout: u64, r': Rewards) {
    && key in r.stakes && !r.stakes[key].claimed
    && payout <= r.vault
    && r' == r.(stakes := r.stakes[key := r.stakes[key].(claimed := true)], vault := r.vault - payout,
                paid := r.paid.With(r.stakes[key].cohort, r.paid.Of(r.stakes[key].cohort) + payout))
  }

  lemma ClaimedKeeps(r: Rewards, key: StakeKey, payout: u64, r': Rewards)
    requires RewardInv(r) && r.config.Frozen() && ClaimedBy(r, key, payout, r')
    requires payout <= Due(r.stakes[key], r.stakes[key].cohort, r.config.Supply(r.stakes[key].cohort),
                           r.config.frozen.Of(r.stakes[key].cohort))
    ensures RewardInv(r')
  {
    forall c: Cohort ensures Counted(r'.config.totals, r'.stakes, c) && Solvent(r'.config, r'.stakes, r'.paid, c) {
      assert Counted(r.config.totals, r.stakes, c) && Solvent(r.config, r.stakes, r.paid, c);
      WritePoints(r.stakes, key, r'.stakes[key], c);
      ClaimedSolvent(r, key, payout, r', c);
    }
    assert TotalPaid(r'.paid) == TotalPaid(r.paid) + payout;
  }

  lemma ClaimedSolvent(r: Rewards, key: StakeKey, payout: u64, r': Rewards, c: Cohort)
    requires ClaimedBy(r, key, payout, r') && Solvent(r.config, r.stakes, r.paid, c)
    requires payout <= Due(r.stakes[key], r.stakes[key].cohort, r.config.Supply(r.stakes[key].cohort),
                           r.config.frozen.Of(r.stakes[key].cohort))
    ensures Solvent(r'.config, r'.stakes, r'.paid, c)
  {
    WriteDues(r.stakes, key, r'.stakes[key], c, r.config.Supply(c), r.config.frozen.Of(c));
  }

  // ------------------------------------------------------------------------------------------
  // Runs
  // ------------------------------------------------------------------------------------------

  lemma StepKeepsRewards(r: Rewards, step: RewardStep)
    requires RewardInv(r)
    ensures RewardInv(After(r, step))
  {
    if Perform(r, step).Ok? {
      match step
      case DoRegister(owner, linked, recipient, cohort, seen, now) =>
        RegisterKeeps(r, owner, linked, recipient, cohort, seen, now);
      case DoCrystallize(key, signer, seen, now) => CrystallizeKeeps(r, key, signer, seen, now);
      case DoFreeze(mintSupply, now) => FreezeKeeps(r, mintSupply, now);
      case DoClaim(key, signer, recipient, seen) => ClaimKeeps(r, key, signer, recipient, seen);
      case DoDonate(amount) => DonateKeeps(r, amount);
    }
  }

  lemma DonateKeeps(r: Rewards, amount: u64)
    requires RewardInv(r) && r.vault + amount <= U64_MAX
    ensures RewardInv(r.(vault := r.vault + amount))
  {
    var r' := r.(vault := r.vault + amount);
    forall c: Cohort ensures Counted(r'.config.totals, r'.stakes, c) {
      assert Counted(r.config.totals, r.stakes, c);
    }
    if r.config.Frozen() {
      forall c: Cohort ensures Solvent(r'.config, r'.stakes, r'.paid, c) {
        assert Solvent(r.config, r.stakes, r.paid, c);
      }
    }
  }

  lemma {:induction false} RunKeepsRewards(r: Rewards, steps: seq<RewardStep>)
    requires RewardInv(r)
    ensures RewardInv(RunRewards(r, steps))
    decreases |steps|
  {
    if steps != [] {
      StepKeepsRewards(r, steps[0]);
      RunKeepsRewards(After(r, steps[0]), steps[1..]);
    }
  }

  /**
   Reward solvency over every run: each cohort is paid at most its supply, all cohorts together at most
   the frozen supply, and the vault holds everything that was not paid out of it.
   */
  lemma RewardsAreSolvent(r: Rewards, steps: seq<RewardStep>, c: Cohort)
    requires FreshRewards(r)
    ensures var r' := RunRewards(r, steps);
            && r'.config.totals.Of(c) == Sum(PointsIn(r'.stakes, c))
            && r'.paid.Of(c) <= r'.config.Supply(c)
            && TotalPaid(r'.paid) <= r'.config.totalSupply
            && (r'.config.Frozen() ==> r'.vault + TotalPaid(r'.paid) >= r'.config.totalSupply)
  {
    FreshRewardsKeep(r);
    RunKeepsRewards(r, steps);
    var r' := RunRewards(r, steps);
    assert Counted(r'.config.totals, r'.stakes, c);
    SuppliesWithin(r'.config);
    if r'.config.Frozen() {
      VaultCovers(r', Insurance);
      VaultCovers(r', Backing);
      VaultCovers(r', Lp);
      VaultCovers(r', Trader);
      VaultCovers(r', Funding);
    }
  }

  /** After a freeze (at any slot but zero) the denominators, the supply and every stake's points are final. */
  ghost predicate Final(r: Rewards, r': Rewards) {
    && r'.config == r.config
    && r'.stakes.Keys == r.stakes.Keys
    && forall k :: k in r.stakes ==> ClaimedSince(r.stakes[k], r'.stakes[k])
  }

  predicate ClaimedSince(stake: Stake, stake': Stake) {
    stake' == stake || stake' == stake.(claimed := true)
  }

  lemma {:induction false} FrozenIsFinal(r: Rewards, steps: seq<RewardStep>)
    requires r.config.Frozen()
    ensures Final(r, RunRewards(r, steps))
    decreases |steps|
  {
    if steps != [] {
      assert Final(r, After(r, steps[0]));
      FrozenIsFinal(After(r, steps[0]), steps[1..]);
    }
  }

  /** Each stake is paid at most once, whatever happens afterwards. */
  lemma PaidOnce(r: Rewards, key: StakeKey, signer: Pubkey, recipient: Pubkey, seen: Witness, steps: seq<RewardStep>,
                 signer': Pubkey, recipient': Pubkey, seen': Witness)
    requires Claim(r, key, signer, recipient, seen).Ok?
    ensures var r' := RunRewards(Claim(r, key, signer, recipient, seen).value.0, steps);
            Claim(r', key, signer', recipient', seen').Err?
  {
    var r1 := Claim(r, key, signer, recipient, seen).value.0;
    FrozenIsFinal(r1, steps);
    assert ClaimedSince(r1.stakes[key], RunRewards(r1, steps).stakes[key]);
  }

  /** The freeze is one-shot: with a nonempty finalize window it always leaves its mark. */
  lemma FreezeIsFinal(r: Rewards, mintSupply: u64, now: u64, steps: seq<RewardStep>, mintSupply': u64, now': u64)
    requires RewardInv(r) && Freeze(r, mintSupply, now).Ok?
    ensures var frozen := Freeze(r, mintSupply, now).value;
            var r' := RunRewards(frozen, steps);
            && Final(frozen, r') && frozen.config.frozen == r.config.totals
            && (r.config.vaultBalanceMode ==> frozen.config.totalSupply == r.vault)
            && Freeze(r', mintSupply', now').Err?
  {
    FrozenIsFinal(Freeze(r, mintSupply, now).value, steps);
  }

  // ------------------------------------------------------------------------------------------
  // Residual stakes
  // ------------------------------------------------------------------------------------------

  /** A capped residual claim pays the stake's weight on the smaller of the frozen net and the live cap. */
  lemma ResidualClaimIsWeighted(stake: Stake, totals: Portfolio)
    requires StakeOk(stake) && stake.cohort.Residual()
    ensures exists weight ::
              && 0 <= weight <= 63 && stake.points == Weighted(weight, stake.earningsSnap)
              && ClaimPoints(stake, PortfolioWitness(totals)) == Ok(Weighted(weight, Min(stake.earningsSnap, LiveCap(stake, totals))))
  {
    var weight :| 0 <= weight <= 63 && stake.points == Weighted(weight, stake.earningsSnap);
    CapIsExact(weight, stake.earningsSnap, LiveCap(stake, totals));
  }

  function LiveCap(stake: Stake, totals: Portfolio): u128 {
    var net := NetDelta(stake, totals);
    if stake.cohort.Trader? then TraderLiveCap(stake.earningsSnap, stake.eligibleAccum, net, totals.spent) else net
  }

  /** One refresh of a trader stake after the emission, as anyone may call it. */
  datatype Observation = Observation(totals: Portfolio, now: u64)

  function RefreshStake(config: Config, stake: Stake, seen: seq<Observation>): Stake
    decreases |seen|
  {
    if seen == [] then stake
    else
      match CrystallizeResidual(config, stake, seen[0].totals, seen[0].now)
      case Ok(stake') => RefreshStake(config, stake', seen[1..])
      case Err(_) => RefreshStake(config, stake, seen[1..])
  }

  function Snapshots(stake: Stake, seen: seq<Observation>): (r: seq<Snapshot>)
    ensures |r| == |seen|
    ensures forall i :: 0 <= i < |seen| ==> r[i] == Snapshot(NetDelta(stake, seen[i].totals), seen[i].totals.spent)
  {
    if seen == [] then [] else [Snapshot(NetDelta(stake, seen[0].totals), seen[0].totals.spent)] + Snapshots(stake, seen[1..])
  }

  predicate WeightedAs(stake: Stake, weight: nat, s: Snapshot) {
    stake.points == Weighted(weight, s.net) && stake.earningsSnap == s.net && stake.eligibleAccum == s.spent
  }

  /** Refreshing the stake refreshes its snapshot; the tenure weight never changes. */
  lemma {:induction false} RefreshesKeepWeight(config: Config, stake: Stake, seen: seq<Observation>, weight: nat, s: Snapshot)
    requires stake.cohort.Trader? && WeightedAs(stake, weight, s)
    requires forall i :: 0 <= i < |seen| ==> config.PostEmission(seen[i].now)
    ensures WeightedAs(RefreshStake(config, stake, seen), weight, RefreshAll(s, Snapshots(stake, seen)))
    decreases |seen|
  {
    if seen != [] {
      var net := NetDelta(stake, seen[0].totals);
      var capNet := TraderLiveCap(s.net, s.spent, net, seen[0].totals.spent);
      CapIsExact(weight, s.net, capNet);
      var stake' := CrystallizeResidual(config, stake, seen[0].totals, seen[0].now).value;
      var s' := Refresh(s, Snapshot(net, seen[0].totals.spent));
      RefreshesKeepWeight(config, stake', seen[1..], weight, s');
      SameSnapshots(stake, stake', seen[1..]);
      assert Snapshots(stake, seen)[1..] == Snapshots(stake, seen[1..]);
    }
  }

  lemma SameSnapshots(stake: Stake, stake': Stake, seen: seq<Observation>)
    requires stake'.cohort == stake.cohort && stake'.snap == stake.snap
    ensures Snapshots(stake', seen) == Snapshots(stake, seen)
  {
    forall i | 0 <= i < |seen| ensures Snapshots(stake', seen)[i] == Snapshots(stake, seen)[i] {
    }
  }

  /**
   Many refreshes of a trader stake, with a spent counter that only rises, leave no more points than one
   refresh against the last observation would, and never more than before.
   */
  lemma ManyRefreshesAreNoBetter(config: Config, stake: Stake, seen: seq<Observation>)
    requires stake.cohort.Trader? && StakeOk(stake) && seen != []
    requires forall i :: 0 <= i < |seen| ==> config.PostEmission(seen[i].now)
    requires SpentRises(stake.eligibleAccum, Snapshots(stake, seen))
    ensures RefreshStake(config, stake, seen).points
         <= RefreshStake(config, stake, [seen[|seen| - 1]]).points
         <= stake.points
  {
    var weight :| 0 <= weight <= 63 && stake.points == Weighted(weight, stake.earningsSnap);
    var s := Snapshot(stake.earningsSnap, stake.eligibleAccum);
    var last := [seen[|seen| - 1]];
    assert WeightedAs(stake, weight, s);
    RefreshesKeepWeight(config, stake, seen, weight, s);
    RefreshesKeepWeight(config, stake, last, weight, s);
    NetsOnlyFall(stake, seen, s);
    WeightedMonotone(weight, RefreshAll(s, Snapshots(stake, seen)).net, RefreshAll(s, Snapshots(stake, last)).net);
    WeightedMonotone(weight, RefreshAll(s, Snapshots(stake, last)).net, s.net);
  }

  lemma NetsOnlyFall(stake: Stake, seen: seq<Observation>, s: Snapshot)
    requires seen != [] && SpentRises(s.spent, Snapshots(stake, seen))
    ensures RefreshAll(s, Snapshots(stake, seen)).net <= RefreshAll(s, Snapshots(stake, [seen[|seen| - 1]])).net <= s.net
  {
    RefreshesOnlyReduce(s, Snapshots(stake, seen));
    var last := Snapshots(stake, [seen[|seen| - 1]]);
    assert RefreshAll(s, last) == RefreshAll(Refresh(s, last[0]), last[1..]) == Refresh(s, last[0]);
  }

  lemma WeightedMonotone(weight: nat, a: nat, b: nat)
    requires a <= b
    ensures Weighted(weight, a) <= Weighted(weight, b)
  {
    MulMonotone(a, b, weight);
  }
}
