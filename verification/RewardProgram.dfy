/**
 The reward instructions in their own form: crystallize, freeze and claim change the epoch's totals, a
 stake's fields and the vault in place. A failing instruction leaves every account as it was.
 */
module RewardProgram {
  import opened Machine
  import opened ShareLedger
  import opened RewardMath
  import opened RewardEpochs
  import opened RewardSolvency

  /** A stake account while an instruction works on it. */
  class StakeAccount {
    const cohort: Cohort
    const recipient: Pubkey
    const residualSnap: u128
    const startSlot: u64
    var earningsSnap: u128
    var points: u128
    var eligibleAccum: u128
    var claimed: bool

    function State(): Stake
      reads this
    {
      Stake(cohort, recipient, residualSnap, earningsSnap, startSlot, points, eligibleAccum, claimed)
    }

    constructor (stored: Stake)
      ensures State() == stored
    {
      cohort, recipient, residualSnap, startSlot := stored.cohort, stored.recipient, stored.snap, stored.startSlot;
      earningsSnap, points, eligibleAccum, claimed := stored.earningsSnap, stored.points, stored.eligibleAccum, stored.claimed;
    }

    /** Capital: tenure weight times live principal, clamped to the end of the epoch. */
    method CapitalPointsAt(config: Config, p: Position, now: u64) returns (r: Result<()>)
      modifies this
      ensures r.Ok? ==> CrystallizeCapital(config, old(State()), p, now) == Ok(State())
      ensures r.Err? ==> CrystallizeCapital(config, old(State()), p, now) == Err(r.error) && State() == old(State())
    {
      var basis :- CapitalBasis(config, p, now);
      var (livePrincipal, crystallizedSlot) := basis;
      var multiplier := TenureWeight(State(), p, crystallizedSlot);
      points := SaturatingMul(multiplier, livePrincipal);
      earningsSnap := livePrincipal;
      eligibleAccum := crystallizedSlot;
      r := Ok(());
    }

    /** LP and trader flow: weighted while the emission runs, reduce-only afterwards. */
    method ResidualPoints(config: Config, totals: Portfolio, now: u64) returns (r: Result<()>)
      modifies this
      ensures r.Ok? ==> CrystallizeResidual(config, old(State()), totals, now) == Ok(State())
      ensures r.Err? ==> CrystallizeResidual(config, old(State()), totals, now) == Err(r.error) && State() == old(State())
    {
      var netDelta := NetDelta(State(), totals);
      var newPoints: u128;
      var newNet := netDelta;
      if config.PostEmission(now) {
        newNet := TraderLiveCap(earningsSnap, eligibleAccum, netDelta, totals.spent);
        newPoints :- CapResidualPoints(points, earningsSnap, newNet);
      } else {
        var tenure := SaturatingSub(now, startSlot);
        if Weighted(FloorLog2(tenure), netDelta) > U128_MAX {
          return Err(ArithmeticOverflow);
        }
        newPoints := Weighted(FloorLog2(tenure), netDelta);
      }
      points := newPoints;
      earningsSnap := newNet;
      eligibleAccum := if cohort.Trader? then totals.spent else 0;
      r := Ok(());
    }
  }

  /** The stored accounts of one reward epoch. */
  class RewardEpoch {
    var config: Config
    var stakes: map<StakeKey, Stake>
    var vault: u64
    var paid: PerCohort<nat>

    function State(): Rewards
      reads this
    {
      Rewards(config, stakes, vault, paid)
    }

    /** Totals are exact and, once frozen, what was paid and what is due fit the supply and the vault. */
    ghost predicate Valid()
      reads this
    {
      RewardInv(State())
    }

    /** Swap a stake's points in its cohort's running total. */
    method ReplaceCohortPoints(c: Cohort, prior: u128, points: u128) returns (r: Result<()>)
      modifies this`config
      ensures r.Ok? ==>
                && ReplacePoints(old(config).totals.Of(c), prior, points).Ok?
                && config == old(config).(totals :=
                     old(config).totals.With(c, ReplacePoints(old(config).totals.Of(c), prior, points).value))
      ensures r.Err? ==> ReplacePoints(old(config).totals.Of(c), prior, points) == Err(r.error) && config == old(config)
    {
      var total := config.totals.Of(c);
      if prior > total {
        return Err(ArithmeticOverflow);
      }
      total := total - prior;
      if total + points > U128_MAX {
        return Err(ArithmeticOverflow);
      }
      total := total + points;
      config := config.(totals := config.totals.With(c, total));
      r := Ok(());
    }

    method CrystallizeStake(key: StakeKey, signer: Pubkey, seen: Witness, now: u64) returns (r: Result<()>)
      modifies this
      ensures r.Ok? ==> Crystallize(old(State()), key, signer, seen, now) == Ok(State())
      ensures r.Err? ==> Crystallize(old(State()), key, signer, seen, now) == Err(r.error) && State() == old(State())
      ensures old(Valid()) ==> Valid()
    {
      if config.Frozen() {
        return Err(InvalidAccountData);
      }
      if config.epoch && now < config.emissionStart {
        return Err(InvalidInstructionData);
      }
      if key !in stakes {
        return Err(IllegalOwner);
      }
      var stake := new StakeAccount(stakes[key]);
      var priorPoints := stake.points;
      if config.PostEmission(now) && (stake.cohort.Lp? || stake.cohort.Funding?) {
        return Err(InvalidInstructionData);
      }
      if stake.cohort.Capital() {
        if signer != key.owner {
          return Err(MissingRequiredSignature);
        }
        if !seen.PositionWitness? {
          return Err(IllegalOwner);
        }
        var _ :- stake.CapitalPointsAt(config, seen.position, now);
      } else {
        if !seen.PortfolioWitness? {
          return Err(InvalidAccountData);
        }
        if stake.cohort.Residual() {
          var _ :- stake.ResidualPoints(config, seen.totals, now);
        } else {
          var netDelta := NetDelta(stake.State(), seen.totals);
          stake.points := netDelta;
          stake.earningsSnap := netDelta;
          stake.eligibleAccum := 0;
        }
      }
      assert CrystallizedStake(config, key, stakes[key], signer, seen, now) == Ok(stake.State());
      var _ :- ReplaceCohortPoints(stake.cohort, priorPoints, stake.points);
      stakes := stakes[key := stake.State()];
      r := Ok(());
      if RewardInv(old(State())) {
        CrystallizeKeeps(old(State()), key, signer, seen, now);
      }
    }

    method FreezeEpoch(mintSupply: u64, now: u64) returns (r: Result<()>)
      modifies this
      ensures r.Ok? ==> Freeze(old(State()), mintSupply, now) == Ok(State())
      ensures r.Err? ==> Freeze(old(State()), mintSupply, now) == Err(r.error) && State() == old(State())
      ensures old(Valid()) ==> Valid()
    {
      if config.Frozen() {
        return Err(InvalidAccountData);
      }
      if config.emissionEnd + config.finalizeWindow > U64_MAX || now < config.emissionEnd + config.finalizeWindow {
        return Err(InvalidInstructionData);
      }
      if config.vaultBalanceMode {
        if !config.epoch || vault == 0 {
          return Err(InvalidAccountData);
        }
        config := config.(totalSupply := vault);
      } else if config.totalSupply == 0 || mintSupply != config.totalSupply || vault < config.totalSupply {
        return Err(InvalidAccountData);
      }
      config := config.(frozen := config.totals);
      config := config.(freezeSlot := now);
      r := Ok(());
      if RewardInv(old(State())) {
        FreezeKeeps(old(State()), mintSupply, now);
      }
    }

    /** Check the claim and price it: the exact share of the capped points, less the fee. */
    method PriceShare(key: StakeKey, signer: Pubkey, recipient: Pubkey, seen: Witness) returns (r: Result<u64>)
      ensures r == PriceClaim(State(), key, signer, recipient, seen)
    {
      if !config.Frozen() {
        return Err(InvalidAccountData);
      }
      if key !in stakes {
        return Err(IllegalOwner);
      }
      var stake := stakes[key];
      if stake.claimed {
        return Err(InvalidAccountData);
      }
      if stake.cohort.Capital() && signer != key.owner {
        return Err(MissingRequiredSignature);
      }
      if recipient != stake.recipient {
        return Err(InvalidAccountData);
      }
      var denominator := config.frozen.Of(stake.cohort);
      if stake.points > denominator {
        return Err(InvalidAccountData);
      }
      var points :- ClaimPoints(stake, seen);
      var amount := PointsToAmount(config.Supply(stake.cohort), points, denominator);
      var fee: u64 := if stake.cohort.Capital() then 0 else Fee(amount, config.feeBps);
      r := Ok(amount - fee);
    }

    /** Mark the stake claimed, then pay its share from the vault. */
    method ClaimShare(key: StakeKey, signer: Pubkey, recipient: Pubkey, seen: Witness) returns (r: Result<u64>)
      modifies this
      ensures r.Ok? ==> Claim(old(State()), key, signer, recipient, seen) == Ok((State(), r.value))
      ensures r.Err? ==> Claim(old(State()), key, signer, recipient, seen) == Err(r.error) && State() == old(State())
      ensures old(Valid()) ==> Valid()
    {
      var payout :- PriceShare(key, signer, recipient, seen);
      if payout > vault {
        return Err(CpiRejected);
      }
      var stake := new StakeAccount(stakes[key]);
      stake.claimed := true;
      stakes := stakes[key := stake.State()];
      vault := vault - payout;
      paid := paid.With(stake.cohort, paid.Of(stake.cohort) + payout);
      r := Ok(payout);
      if RewardInv(old(State())) {
        ClaimKeeps(old(State()), key, signer, recipient, seen);
      }
    }
  }
}
