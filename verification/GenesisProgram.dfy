/**
 The instructions of the genesis-vote program in their own form: tallies, ballots and flags are updated
 one after the other, and the insurance pool and the distribution are called through their own programs.
 An instruction that fails leaves every account as it was.
 */
module GenesisProgram {
  import opened Machine
  import opened ShareLedger
  import opened Subledger
  import opened Distribution
  import opened GenesisVote
  import opened GenesisInvariants
  import opened GenesisOutcome

  class GenesisElection {
    var config: Config
    var ballots: map<Pubkey, Ballot>
    var proposals: map<Pubkey, ProposalVote>
    const pool: Program
    const distribution: DistributionProgram

    function State(now: u64): World
      reads this, pool, distribution
    {
      World(now, pool.State(), Election(config, ballots, proposals), distribution.State())
    }

    /** Tallies, locks, outcome and distribution agree across the three programs. */
    ghost predicate Valid(now: u64)
      reads this, pool, distribution
    {
      WorldInv(State(now))
    }

    constructor (bootstrapStart: u64, bootstrapDelay: u64, pool: Program, distribution: DistributionProgram)
      requires bootstrapStart + bootstrapDelay <= U64_MAX
      ensures this.pool == pool && this.distribution == distribution
      ensures ballots == map[] && proposals == map[]
      ensures config == Config(0, 0, 0, bootstrapStart + bootstrapDelay, bootstrapDelay, bootstrapStart, false, false)
    {
      config := Config(0, 0, 0, bootstrapStart + bootstrapDelay, bootstrapDelay, bootstrapStart, false, false);
      ballots, proposals := map[], map[];
      this.pool, this.distribution := pool, distribution;
    }

    /** Back a proposal with the caller's live principal, or retract. */
    method CastBallot(voter: Pubkey, key: Pubkey, action: VoteAction, now: u64) returns (r: Result<()>)
      modifies this, pool
      ensures r.Ok? ==> Vote(old(State(now)), voter, key, action) == Ok(State(now))
      ensures r.Err? ==> Vote(old(State(now)), voter, key, action) == Err(r.error) && State(now) == old(State(now))
      ensures old(Valid(now)) ==> Valid(now)
    {
      var _ :- CountBallot(voter, key, action, now);
      r := pool.SetLock(voter, ballots[voter].Live());
      if WorldInv(old(State(now))) {
        VoteKeeps(old(State(now)), voter, key, action);
      }
    }

    /** Check the authorization, then move the voter's contribution in and out of the tallies. */
    method CountBallot(voter: Pubkey, key: Pubkey, action: VoteAction, now: u64) returns (r: Result<()>)
      modifies this
      ensures r.Ok? ==> CastVote(old(State(now)), voter, key, action) == Ok(State(now).election)
      ensures r.Ok? ==> voter in ballots && voter in pool.positions
      ensures r.Err? ==> CastVote(old(State(now)), voter, key, action) == Err(r.error) && State(now) == old(State(now))
    {
      if key !in proposals {
        return Err(IllegalOwner);
      }
      var pv := proposals[key];
      if action.Back? && pv.executed {
        return Err(InvalidAccountData);
      }
      if action.Back? && now >= config.bootstrapEnd {
        return Err(InvalidInstructionData);
      }
      if voter !in pool.positions {
        return Err(IllegalOwner);
      }
      var principal := pool.positions[voter].principal;
      if action.Back? && action.expectedPrincipal != principal {
        return Err(InvalidInstructionData);
      }
      var config' := config.(outstandingPrincipal := pool.pool.outstanding);
      if action.Retract? && voter !in ballots {
        return Err(InvalidInstructionData);
      }
      var ballot := if voter in ballots then ballots[voter] else Ballot(DEFAULT_KEY, 0, 0, 0);
      if ballot.Live() && ballot.proposal != key {
        return Err(InvalidInstructionData);
      }
      var nonce := ActionNonce(action);
      if nonce != Some(ballot.nonce) && !(nonce == None && ballot.nonce == 0) {
        return Err(InvalidInstructionData);
      }

      if ballot.Live() {
        var moved :- TakeOut(config', pv, ballot);
        config', pv := moved.0, moved.1;
      } else if action.Retract? {
        return Err(InvalidInstructionData);
      }

      if action.Retract? {
        if ballot.nonce + 1 > U64_MAX {
          return Err(ArithmeticOverflow);
        }
        ballot := Ballot(DEFAULT_KEY, 0, 0, ballot.nonce + 1);
      } else {
        if principal == 0 {
          return Err(InvalidAccountData);
        }
        var moved :- PutIn(config', pv, principal);
        config', pv := moved.0, moved.1;
        if ballot.Live() {
          if ballot.nonce + 1 > U64_MAX {
            return Err(ArithmeticOverflow);
          }
          ballot := ballot.(nonce := ballot.nonce + 1);
        }
        ballot := ballot.(proposal := key, weight := principal, principal := principal);
      }
      config := config';
      ballots := ballots[voter := ballot];
      proposals := proposals[key := pv];
      r := Ok(());
    }

    /** The four checked subtractions of a live contribution. */
    method TakeOut(config: Config, pv: ProposalVote, ballot: Ballot)
      returns (r: Result<(Config, ProposalVote)>)
      ensures r == BackOut(config, pv, ballot)
    {
      var config', pv' := config, pv;
      if ballot.weight > pv'.supportWeight {
        return Err(InvalidAccountData);
      }
      pv' := pv'.(supportWeight := pv'.supportWeight - ballot.weight);
      if ballot.principal > pv'.supportPrincipal {
        return Err(InvalidAccountData);
      }
      pv' := pv'.(supportPrincipal := pv'.supportPrincipal - ballot.principal);
      if ballot.weight > config'.totalCastWeight {
        return Err(InvalidAccountData);
      }
      config' := config'.(totalCastWeight := config'.totalCastWeight - ballot.weight);
      if ballot.principal > config'.totalVotedPrincipal {
        return Err(InvalidAccountData);
      }
      config' := config'.(totalVotedPrincipal := config'.totalVotedPrincipal - ballot.principal);
      r := Ok((config', pv'));
    }

    /** The four checked additions of one vote per atom of principal. */
    method PutIn(config: Config, pv: ProposalVote, principal: u64)
      returns (r: Result<(Config, ProposalVote)>)
      ensures r == AddSupport(config, pv, principal)
    {
      var config', pv' := config, pv;
      if pv'.supportWeight + principal > U128_MAX {
        return Err(ArithmeticOverflow);
      }
      pv' := pv'.(supportWeight := pv'.supportWeight + principal);
      if pv'.supportPrincipal + principal > U64_MAX {
        return Err(ArithmeticOverflow);
      }
      pv' := pv'.(supportPrincipal := pv'.supportPrincipal + principal);
      if config'.totalCastWeight + principal > U128_MAX {
        return Err(ArithmeticOverflow);
      }
      config' := config'.(totalCastWeight := config'.totalCastWeight + principal);
      if config'.totalVotedPrincipal + principal > U64_MAX {
        return Err(ArithmeticOverflow);
      }
      config' := config'.(totalVotedPrincipal := config'.totalVotedPrincipal + principal);
      r := Ok((config', pv'));
    }

    /** Seal the winner of the election. */
    method TriggerSeal(key: Pubkey, now: u64) returns (r: Result<()>)
      modifies this, distribution
      ensures r.Ok? ==> Trigger(old(State(now)), key) == Ok(State(now))
      ensures r.Err? ==> Trigger(old(State(now)), key) == Err(r.error) && State(now) == old(State(now))
      ensures old(Valid(now)) ==> Valid(now)
    {
      if key !in proposals {
        return Err(IllegalOwner);
      }
      var pv := proposals[key];
      if pv.executed || config.distributionExecuted || config.terminalRefundsStarted {
        return Err(InvalidAccountData);
      }
      if now < config.bootstrapEnd {
        return Err(InvalidInstructionData);
      }
      if key !in distribution.proposals
        || |distribution.proposals[key].entries| != pv.snapshotEntryCount
        || distribution.proposals[key].totalAmount != pv.snapshotTotalAmount {
        return Err(InvalidAccountData);
      }
      var refundStart :- TerminalRefundStart(pool.pool.schedule, config);
      if now >= refundStart {
        return Err(InvalidInstructionData);
      }
      if config.totalVotedPrincipal * 2 <= pool.pool.outstanding {
        return Err(InvalidInstructionData);
      }
      if pv.supportPrincipal * 2 <= config.totalVotedPrincipal {
        return Err(InvalidInstructionData);
      }
      var _ :- distribution.Seal(key, now);
      pv := pv.(executed := true);
      proposals := proposals[key := pv];
      config := config.(distributionExecuted := true);
      r := Ok(());
      if WorldInv(old(State(now))) {
        TriggerKeeps(old(State(now)), key);
      }
    }

    /** Called by the pool during a terminal return. */
    method RetireBallot(owner: Pubkey, now: u64) returns (r: Result<()>)
      modifies this
      ensures r.Ok? ==> RetireTerminalBallot(old(State(now)), owner) == Ok(State(now).election)
      ensures r.Err? ==> RetireTerminalBallot(old(State(now)), owner) == Err(r.error) && State(now) == old(State(now))
      ensures old(Valid(now)) ==> Tallied(State(now).election)
    {
      if WorldInv(State(now)) {
        RetireBallotExactly(State(now), owner);
      }
      if now < config.bootstrapEnd {
        return Err(InvalidInstructionData);
      }
      var refundStart :- TerminalRefundStart(pool.pool.schedule, config);
      var ballot := if owner in ballots then ballots[owner] else Ballot(DEFAULT_KEY, 0, 0, 0);
      if ballot.Live() && ballot.proposal !in proposals {
        return Err(InvalidAccountData);
      }
      var config' := config;
      if ballot.Live() && proposals[ballot.proposal].executed {
        config' := config'.(terminalRefundsStarted := false);
        config' := config'.(distributionExecuted := true);
      }
      if !config'.distributionExecuted {
        if now < refundStart {
          return Err(InvalidInstructionData);
        }
        config' := config'.(terminalRefundsStarted := true);
      }
      if !ballot.Live() {
        config := config';
        return Ok(());
      }
      var pv := proposals[ballot.proposal];
      var moved :- TakeOut(config', pv, ballot);
      config', pv := moved.0, moved.1;
      proposals := proposals[ballot.proposal := pv];
      ballots := ballots[owner := Ballot(DEFAULT_KEY, 0, 0, ballot.nonce)];
      config := config';
      r := Ok(());
    }
  }
}
