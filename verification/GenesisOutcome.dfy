/**
 The genesis election over whole runs: the invariant survives every instruction of the three programs,
 at most one proposal is sealed, no replayed authorization counts, and the allocation that voters
 approved is the one that is paid.
 */
module GenesisOutcome {
  import opened Machine
  import opened MapSum
  import opened WideArithmetic
  import opened Percolator
  import opened ShareMath
  import opened ShareLedger
  import opened ShareSolvency
  import opened ShareExits
  import opened Distribution
  import opened GenesisVote
  import opened GenesisInvariants

  // ------------------------------------------------------------------------------------------
  // Custody steps
  // ------------------------------------------------------------------------------------------

  /** Only the owner's position may differ. */
  predicate OnlyOwner(positions: map<Pubkey, Position>, positions': map<Pubkey, Position>, owner: Pubkey) {
    owner in positions' && positions' == positions[owner := positions'[owner]]
  }

  /** A deposit keeps the owner's lock and never lowers the principal behind it. */
  lemma DepositEffect(l: Ledger, owner: Pubkey, amount: u64, now: u64)
    requires Deposit(l, owner, amount, now).Ok?
    ensures var l' := Deposit(l, owner, amount, now).value;
            && OnlyOwner(l.positions, l'.positions, owner)
            && l'.positions[owner].voteLocked == (owner in l.positions && l.positions[owner].voteLocked)
            && (owner in l.positions ==> l.positions[owner].principal <= l'.positions[owner].principal)
            && l'.pool.schedule == l.pool.schedule
  {
    var balance := ReadBalance(l.market).value;
    var minted := MintForDeposit(l.pool, amount, PricedBalance(l.pool, ReadInsurance(balance))).value;
    MintKeepsSchedule(l.pool, amount, PricedBalance(l.pool, ReadInsurance(balance)));
    CreditEffect(l, balance, minted, owner, amount, now);
  }

  lemma CreditEffect(l: Ledger, balance: AssetBalance, minted: Minted, owner: Pubkey, amount: u64, now: u64)
    requires CreditDeposit(l, balance, minted, owner, amount, now).Ok?
    ensures var l' := CreditDeposit(l, balance, minted, owner, amount, now).value;
            && OnlyOwner(l.positions, l'.positions, owner)
            && l'.positions[owner].voteLocked == (owner in l.positions && l.positions[owner].voteLocked)
            && (owner in l.positions ==> l.positions[owner].principal <= l'.positions[owner].principal)
            && l'.pool.schedule == minted.pool.schedule
  {
  }

  lemma {:induction false} MintLoopSchedule(pool: Pool, amount: u64, balance: u64, maximumBasis: u128, rescaled: bool, tries: nat)
    requires MintLoop(pool, amount, balance, maximumBasis, rescaled, tries).Ok?
    ensures MintLoop(pool, amount, balance, maximumBasis, rescaled, tries).value.pool.schedule == pool.schedule
    decreases tries
  {
    if TryMint(pool, amount, balance, maximumBasis, rescaled).value.None? {
      MintLoopSchedule(Rescale(pool).value, amount, balance, maximumBasis, true, tries - 1);
    }
  }

  lemma MintKeepsSchedule(pool: Pool, amount: u64, pricedBalance: u64)
    requires MintForDeposit(pool, amount, pricedBalance).Ok?
    ensures MintForDeposit(pool, amount, pricedBalance).value.pool.schedule == pool.schedule
  {
    var recapitalized := BeginRecapitalization(pool, pricedBalance).value;
    var maximumBasis := MulDivFloor(U128_MAX, pricedBalance + 1, pricedBalance + 1 + amount).value;
    MintLoopSchedule(recapitalized, amount, pricedBalance, maximumBasis, false, MINT_TRIES);
  }

  /** An exit touches only its owner's position, and leaves it unlocked. */
  lemma ExitEffect(l: Ledger, owner: Pubkey, request: Option<u64>, now: u64)
    requires Exit(l, owner, request, now).Ok?
    ensures var l' := Exit(l, owner, request, now).value.0;
            && OnlyOwner(l.positions, l'.positions, owner)
            && !l'.positions[owner].voteLocked
            && (request.Some? ==> !l.positions[owner].voteLocked)
            && l'.pool.schedule == l.pool.schedule
  {
  }

  /** The owner's position is locked as before, and a lock keeps the principal behind it. */
  predicate LockHolds(positions: map<Pubkey, Position>, positions': map<Pubkey, Position>, owner: Pubkey) {
    && OnlyOwner(positions, positions', owner)
    && positions'[owner].voteLocked == (owner in positions && positions[owner].voteLocked)
    && (positions'[owner].voteLocked ==> positions[owner].principal <= positions'[owner].principal)
  }

  lemma CustodyKeepsBond(positions: map<Pubkey, Position>, positions': map<Pubkey, Position>, owner: Pubkey,
                         ballots: map<Pubkey, Ballot>)
    requires Bonded(positions, ballots) && LockHolds(positions, positions', owner)
    ensures Bonded(positions', ballots)
  {
  }

  lemma CustodyWorldKeeps(w: World, owner: Pubkey, l: Ledger)
    requires WorldInv(w) && Inv(l) && l.pool.schedule == w.ledger.pool.schedule
    requires LockHolds(w.ledger.positions, l.positions, owner)
    ensures WorldInv(w.(ledger := l))
  {
    CustodyKeepsBond(w.ledger.positions, l.positions, owner, w.election.ballots);
  }

  lemma DepositWorldKeeps(w: World, owner: Pubkey, amount: u64)
    requires WorldInv(w) && Deposit(w.ledger, owner, amount, w.now).Ok?
    ensures WorldInv(w.(ledger := Deposit(w.ledger, owner, amount, w.now).value))
  {
    DepositKeeps(w.ledger, owner, amount, w.now);
    DepositEffect(w.ledger, owner, amount, w.now);
    CustodyWorldKeeps(w, owner, Deposit(w.ledger, owner, amount, w.now).value);
  }

  lemma ExitWorldKeeps(w: World, owner: Pubkey, amount: u64)
    requires WorldInv(w) && Exit(w.ledger, owner, Some(amount), w.now).Ok?
    ensures WorldInv(w.(ledger := Exit(w.ledger, owner, Some(amount), w.now).value.0))
  {
    ExitKeeps(w.ledger, owner, Some(amount), w.now);
    ExitEffect(w.ledger, owner, Some(amount), w.now);
    CustodyWorldKeeps(w, owner, Exit(w.ledger, owner, Some(amount), w.now).value.0);
  }

  // ------------------------------------------------------------------------------------------
  // The terminal return
  // ------------------------------------------------------------------------------------------

  /** In reachable worlds the override for executed proposals finds the flags already set. */
  lemma OverrideChangesNothing(w: World, ballot: Ballot)
    requires WorldInv(w) && ballot.Live() && ballot.proposal in w.election.proposals
    requires w.election.proposals[ballot.proposal].executed
    ensures w.election.config.(terminalRefundsStarted := false, distributionExecuted := true) == w.election.config
  {
  }

  lemma FlagsOfReachable(w: World, owner: Pubkey)
    requires WorldInv(w)
    ensures var ballot := LoadBallot(w.election, owner);
            var refundStart := TerminalRefundStart(w.ledger.pool.schedule, w.election.config).value;
            && (ballot.Live() ==> ballot.proposal in w.election.proposals)
            && TerminalFlags(w.election.config, ballot.Live() && w.election.proposals[ballot.proposal].executed,
                             w.now, refundStart)
            == (if w.election.config.distributionExecuted then Ok(w.election.config)
                else if w.now < refundStart then Err(InvalidInstructionData)
                else Ok(w.election.config.(terminalRefundsStarted := true)))
  {
    var ballot := LoadBallot(w.election, owner);
    if ballot.Live() && w.election.proposals[ballot.proposal].executed {
      OverrideChangesNothing(w, ballot);
    }
  }

  /** Taking a live ballot out of exact tallies succeeds and leaves them exact. */
  lemma BackOutKeeps(e: Election, owner: Pubkey)
    requires Tallied(e) && owner in e.ballots && e.ballots[owner].Live()
    ensures e.ballots[owner].proposal in e.proposals
    ensures var key := e.ballots[owner].proposal;
            var r := BackOut(e.config, e.proposals[key], e.ballots[owner]);
            var dead := Ballot(DEFAULT_KEY, 0, 0, e.ballots[owner].nonce);
            && r.Ok?
            && OnlyTalliesMoved(e.config, e.proposals[key], r.value.0, r.value.1)
            && Tallied(Election(r.value.0, e.ballots[owner := dead], e.proposals[key := r.value.1]))
  {
    var key := e.ballots[owner].proposal;
    ContributionInside(e, owner, key);
    var r := BackOut(e.config, e.proposals[key], e.ballots[owner]);
    var dead := Ballot(DEFAULT_KEY, 0, 0, e.ballots[owner].nonce);
    ContributionKeeps(e, owner, key, dead, Election(r.value.0, e.ballots[owner := dead], e.proposals[key := r.value.1]));
  }

  /** The election with the refund flag as the terminal call leaves it. */
  function Flagged(e: Election): Election {
    e.(config := e.config.(terminalRefundsStarted := e.config.terminalRefundsStarted || !e.config.distributionExecuted))
  }

  /** The flagged election without the owner's contribution. */
  function WithoutBallot(e: Election, owner: Pubkey): Result<Election> {
    var ballot := LoadBallot(e, owner);
    if !ballot.Live() then Ok(e)
    else if ballot.proposal !in e.proposals then Err(InvalidAccountData)
    else
      var r :- BackOut(e.config, e.proposals[ballot.proposal], ballot);
      Ok(Election(r.0, e.ballots[owner := Ballot(DEFAULT_KEY, 0, 0, ballot.nonce)], e.proposals[ballot.proposal := r.1]))
  }

  lemma RetireIsFlaggedRemoval(w: World, owner: Pubkey)
    requires WorldInv(w)
    ensures RetireTerminalBallot(w, owner)
         == if w.now >= w.election.config.bootstrapEnd
               && (w.election.config.distributionExecuted
                   || w.now >= TerminalRefundStart(w.ledger.pool.schedule, w.election.config).value)
            then WithoutBallot(Flagged(w.election), owner)
            else Err(InvalidInstructionData)
  {
    FlagsOfReachable(w, owner);
  }

  /** Only the owner's own contribution left. */
  ghost predicate Removed(e: Election, owner: Pubkey, e': Election) {
    && !LoadBallot(e', owner).Live()
    && LoadBallot(e', owner).nonce == LoadBallot(e, owner).nonce
    && (e'.ballots == e.ballots || (owner in e.ballots && owner in e'.ballots
          && e'.ballots == e.ballots[owner := e'.ballots[owner]]))
    && SameFlags(e, e')
  }

  lemma RemovalTallies(e: Election, owner: Pubkey)
    requires Tallied(e)
    ensures WithoutBallot(e, owner).Ok? && Tallied(WithoutBallot(e, owner).value)
  {
    if LoadBallot(e, owner).Live() {
      BackOutKeeps(e, owner);
    }
  }

  lemma RemovalLeavesRest(e: Election, owner: Pubkey)
    requires WithoutBallot(e, owner).Ok?
    ensures Removed(e, owner, WithoutBallot(e, owner).value)
  {
  }

  /** The refunds start one deposit window after the bootstrap; the schedule must be the election's own. */
  lemma RefundStartExactly(schedule: Schedule, config: Config)
    ensures TerminalRefundStart(schedule, config).Ok?
       <==> (&& 0 < schedule.depositWindow <= schedule.bootstrapDelay
             && schedule.depositStart == config.bootstrapStart && schedule.bootstrapDelay == config.bootstrapDelay
             && schedule.depositDeadline == schedule.depositStart + schedule.depositWindow
             && config.bootstrapEnd == schedule.depositStart + schedule.bootstrapDelay
             && config.bootstrapEnd + schedule.depositWindow <= U64_MAX)
    ensures TerminalRefundStart(schedule, config).Ok? ==>
              TerminalRefundStart(schedule, config).value == config.bootstrapEnd + schedule.depositWindow
  {
  }

  /**
   The terminal call succeeds once an outcome exists, or one deposit window after the bootstrap: no tally can
   fail.
   */
  lemma RetireBallotExactly(w: World, owner: Pubkey)
    requires WorldInv(w)
    ensures RetireTerminalBallot(w, owner).Ok?
       <==> (&& w.now >= w.election.config.bootstrapEnd
             && (w.election.config.distributionExecuted
                 || w.now >= w.election.config.bootstrapEnd + w.ledger.pool.schedule.depositWindow))
    ensures RetireTerminalBallot(w, owner).Ok? ==>
              Tallied(RetireTerminalBallot(w, owner).value)
              && Removed(Flagged(w.election), owner, RetireTerminalBallot(w, owner).value)
  {
    RefundStartExactly(w.ledger.pool.schedule, w.election.config);
    RetireIsFlaggedRemoval(w, owner);
    SameTalliesKeep(w.election, Flagged(w.election));
    RemovalTallies(Flagged(w.election), owner);
    RemovalLeavesRest(Flagged(w.election), owner);
  }

  lemma TerminalReturnKeeps(w: World, owner: Pubkey)
    requires WorldInv(w) && TerminalReturn(w, owner).Ok?
    ensures WorldInv(TerminalReturn(w, owner).value.0)
  {
    RetireBallotExactly(w, owner);
    ExitKeeps(w.ledger, owner, None, w.now);
    ExitEffect(w.ledger, owner, None, w.now);
    var w' := TerminalReturn(w, owner).value.0;
    ReturnKeepsBond(w, owner, w'.ledger.positions, w'.election.ballots);
    RefundStanding(w, owner, w'.election);
  }

  lemma ReturnKeepsBond(w: World, owner: Pubkey, positions: map<Pubkey, Position>, ballots: map<Pubkey, Ballot>)
    requires Bonded(w.ledger.positions, w.election.ballots)
    requires OnlyOwner(w.ledger.positions, positions, owner) && !positions[owner].voteLocked
    requires owner in ballots ==> !ballots[owner].Live()
    requires ballots == w.election.ballots || (owner in ballots && ballots == w.election.ballots[owner := ballots[owner]])
    ensures Bonded(positions, ballots)
  {
  }

  lemma RefundStanding(w: World, owner: Pubkey, e: Election)
    requires WorldInv(w) && RetireTerminalBallot(w, owner) == Ok(e) && Removed(Flagged(w.election), owner, e)
    ensures OneOutcome(w.now, w.ledger.pool.schedule, e, w.dist)
    ensures AllRegistered(w.dist, e.proposals)
  {
    RetireBallotExactly(w, owner);
    SameStanding(w.now, w.ledger.pool.schedule, Flagged(w.election), e, w.dist);
  }

  // ------------------------------------------------------------------------------------------
  // Proposals and the seal
  // ------------------------------------------------------------------------------------------

  /** Nobody voted for a proposal that was not registered. */
  lemma NoVotesFor(ballots: map<Pubkey, Ballot>, proposals: map<Pubkey, ProposalVote>, key: Pubkey)
    requires BallotsOk(ballots, proposals) && key !in proposals
    ensures Sum(VotedFor(ballots, key)) == 0
  {
    forall o | o in ballots ensures VotedFor(ballots, key)[o] == 0 {
      assert BallotOk(ballots[o]);
    }
    SumZero(VotedFor(ballots, key));
  }

  lemma RegisterTalliesOk(e: Election, key: Pubkey, pv: ProposalVote)
    requires BallotsOk(e.ballots, e.proposals) && TalliesOk(e.ballots, e.proposals)
    requires key !in e.proposals && key != DEFAULT_KEY
    requires pv.supportPrincipal == pv.supportWeight == 0
    ensures TalliesOk(e.ballots, e.proposals[key := pv])
  {
    NoVotesFor(e.ballots, e.proposals, key);
    var proposals := e.proposals[key := pv];
    forall k | k in proposals ensures TallyOk(e.ballots, k, proposals[k]) {
      assert k != key ==> TallyOk(e.ballots, k, e.proposals[k]);
    }
  }

  lemma RegisterTallies(e: Election, key: Pubkey, pv: ProposalVote)
    requires Tallied(e) && key !in e.proposals && key != DEFAULT_KEY
    requires pv.supportPrincipal == pv.supportWeight == 0
    ensures Tallied(e.(proposals := e.proposals[key := pv]))
  {
    RegisterTalliesOk(e, key, pv);
    SumUpdate(Supports(e.proposals), key, 0);
    assert Supports(e.proposals[key := pv]) == Supports(e.proposals)[key := 0];
  }

  lemma RegisterKeeps(w: World, payer: Pubkey, key: Pubkey)
    requires WorldInv(w) && RegisterProposal(w, payer, key).Ok?
    ensures WorldInv(RegisterProposal(w, payer, key).value)
  {
    var w' := RegisterProposal(w, payer, key).value;
    assert ProposalOk(w.dist.config, key, w.dist.proposals[key]);
    RegisterTallies(w.election, key, w'.election.proposals[key]);
    RegisterStanding(w, payer, key, w');
  }

  lemma RegisterStanding(w: World, payer: Pubkey, key: Pubkey, w': World)
    requires RegisterProposal(w, payer, key) == Ok(w')
    requires OneOutcome(w.now, w.ledger.pool.schedule, w.election, w.dist) && AllRegistered(w.dist, w.election.proposals)
    ensures OneOutcome(w.now, w.ledger.pool.schedule, w'.election, w.dist) && AllRegistered(w.dist, w'.election.proposals)
  {
    forall k | k in w'.election.proposals ensures RegisteredOk(w.dist, k, w'.election.proposals[k]) {
      assert k != key ==> RegisteredOk(w.dist, k, w.election.proposals[k]);
    }
  }

  /** Two proposals can never both pass the winner test. */
  lemma WinnerIsUnique(e: Election, a: Pubkey, b: Pubkey, liveOutstanding: u64)
    requires Tallied(e) && a in e.proposals && b in e.proposals
    requires Wins(e.config, e.proposals[a], liveOutstanding) && Wins(e.config, e.proposals[b], liveOutstanding)
    ensures a == b
  {
    if a != b {
      SumBoundsPair(Supports(e.proposals), a, b);
      assert false;
    }
  }

  /**
   The trigger succeeds exactly while no outcome exists, within one deposit window after the bootstrap, when
   the live ballots hold more than half of the principal now in the pool and this proposal's ballots more than
   half of those. The snapshot check and the seal itself never reject a registered proposal.
   */
  lemma TriggerSucceedsExactly(w: World, key: Pubkey)
    requires WorldInv(w)
    ensures Trigger(w, key).Ok?
       <==> (&& key in w.election.proposals
             && !w.election.config.distributionExecuted
             && w.election.config.bootstrapEnd <= w.now
                < w.election.config.bootstrapEnd + w.ledger.pool.schedule.depositWindow
             && 2 * Sum(Voted(w.election.ballots)) > w.ledger.pool.outstanding
             && 2 * Sum(VotedFor(w.election.ballots, key)) > Sum(Voted(w.election.ballots)))
    ensures Trigger(w, key).Ok? ==>
              && key in w.election.proposals
              && Trigger(w, key).value.dist.config == w.dist.config.(sealedProposal := key, sealSlot := w.now)
              && Trigger(w, key).value.election == Sealed(w.election, key)
              && Trigger(w, key).value.ledger == w.ledger
  {
    RefundStartExactly(w.ledger.pool.schedule, w.election.config);
    if key in w.election.proposals {
      assert RegisteredOk(w.dist, key, w.election.proposals[key]);
      assert ProposalOk(w.dist.config, key, w.dist.proposals[key]);
      assert TallyOk(w.election.ballots, key, w.election.proposals[key]);
      TriggerOfRegistered(w, key);
    }
  }

  lemma TriggerOfRegistered(w: World, key: Pubkey)
    requires key in w.election.proposals && RegisteredOk(w.dist, key, w.election.proposals[key])
    requires ProposalOk(w.dist.config, key, w.dist.proposals[key])
    requires TallyOk(w.election.ballots, key, w.election.proposals[key]) && TotalsOk(w.election)
    requires OneOutcome(w.now, w.ledger.pool.schedule, w.election, w.dist)
    ensures Trigger(w, key).Ok?
       <==> (&& !w.election.config.distributionExecuted
             && w.election.config.bootstrapEnd <= w.now
                < TerminalRefundStart(w.ledger.pool.schedule, w.election.config).value
             && 2 * Sum(Voted(w.election.ballots)) > w.ledger.pool.outstanding
             && 2 * Sum(VotedFor(w.election.ballots, key)) > Sum(Voted(w.election.ballots)))
    ensures Trigger(w, key).Ok? ==>
              && Trigger(w, key).value.dist.config == w.dist.config.(sealedProposal := key, sealSlot := w.now)
              && Trigger(w, key).value.election == Sealed(w.election, key)
              && Trigger(w, key).value.ledger == w.ledger
  {
    assert SealWinner(w.dist, key, w.now).Ok? <==> !w.dist.config.IsSealed();
  }

  /** Registration takes exactly a full proposal of the payer's own that allocates the whole supply. */
  lemma RegisterSucceedsExactly(w: World, payer: Pubkey, key: Pubkey)
    requires WorldInv(w) && !w.dist.config.IsSealed()
    ensures RegisterProposal(w, payer, key).Ok?
       <==> (&& key in w.dist.proposals && key !in w.election.proposals
             && w.dist.proposals[key].creator == payer
             && 0 < |w.dist.proposals[key].entries| == w.dist.proposals[key].capacity
             && Total(w.dist.proposals[key].entries) == w.dist.config.totalSupply)
  {
    if key in w.dist.proposals {
      assert ProposalOk(w.dist.config, key, w.dist.proposals[key]);
    }
  }

  lemma TriggerKeeps(w: World, key: Pubkey)
    requires WorldInv(w) && Trigger(w, key).Ok?
    ensures WorldInv(Trigger(w, key).value)
  {
    SealKeeps(w.dist, key, w.now);
    TriggerTallies(w, key);
    TriggerStanding(w, key, Trigger(w, key).value);
  }

  lemma TriggerTallies(w: World, key: Pubkey)
    requires Tallied(w.election) && key in w.election.proposals
    ensures Tallied(Sealed(w.election, key)) && key != DEFAULT_KEY
  {
    assert TallyOk(w.election.ballots, key, w.election.proposals[key]);
    var e := Sealed(w.election, key);
    assert SameTallies(w.election, e);
    SameTalliesKeep(w.election, e);
  }

  /** The election once `key` is sealed. */
  function Sealed(e: Election, key: Pubkey): Election
    requires key in e.proposals
  {
    e.(config := e.config.(distributionExecuted := true),
       proposals := e.proposals[key := e.proposals[key].(executed := true)])
  }

  lemma TriggerStanding(w: World, key: Pubkey, w': World)
    requires Trigger(w, key) == Ok(w') && key != DEFAULT_KEY
    requires OneOutcome(w.now, w.ledger.pool.schedule, w.election, w.dist) && AllRegistered(w.dist, w.election.proposals)
    ensures OneOutcome(w.now, w.ledger.pool.schedule, w'.election, w'.dist) && AllRegistered(w'.dist, w'.election.proposals)
  {
    forall k | k in w'.election.proposals ensures RegisteredOk(w'.dist, k, w'.election.proposals[k]) {
      assert RegisteredOk(w.dist, k, w.election.proposals[k]);
    }
  }
}
