/**
 The genesis election over whole runs of the three programs: the invariant survives every instruction,
 a seal is final and excludes refunds, the approved allocation is the one that is paid, a used vote
 authorization never counts again, and a voter can always take locked capital out.
 */
module GenesisRuns {
  import opened Machine
  import opened MapSum
  import opened Percolator
  import opened ShareMath
  import opened ShareLedger
  import opened ShareSolvency
  import opened ShareExits
  import opened Distribution
  import opened GenesisVote
  import opened GenesisInvariants
  import opened GenesisOutcome
  import opened ShareHoldings

  /** The accounts right after the three programs were initialised for one genesis. */
  ghost predicate FreshWorld(w: World) {
    && w.ledger == FreshLedger(w.ledger.pool.policy, w.ledger.pool.schedule, w.ledger.market)
    && w.election.ballots == map[] && w.election.proposals == map[]
    && w.election.config.totalVotedPrincipal == w.election.config.totalCastWeight == 0
    && !w.election.config.distributionExecuted && !w.election.config.terminalRefundsStarted
    && TerminalRefundStart(w.ledger.pool.schedule, w.election.config).Ok?
    && w.dist.proposals == map[] && !w.dist.config.IsSealed()
    && w.dist.paid == w.dist.burned == 0
    && w.dist.received == w.dist.vault >= w.dist.config.totalSupply
  }

  lemma FreshWorldKeeps(w: World)
    requires FreshWorld(w)
    ensures WorldInv(w)
  {
    FreshInv(w.ledger.pool.policy, w.ledger.pool.schedule, w.ledger.market);
    SumZero(Voted(w.election.ballots));
    SumZero(Supports(w.election.proposals));
  }

  // ------------------------------------------------------------------------------------------
  // Every step keeps the invariant
  // ------------------------------------------------------------------------------------------

  lemma TickKeeps(w: World, slots: nat)
    requires WorldInv(w)
    ensures WorldInv(w.(now := Min(w.now + slots, U64_MAX)))
  {
  }

  /** A distribution step that rewrites neither the seal nor a registered proposal's size and total. */
  lemma DistStepKeeps(w: World, dist: Dist)
    requires WorldInv(w) && DistInv(dist, w.now) && dist.config == w.dist.config
    requires forall k :: k in w.election.proposals ==> SameShape(w.dist, dist, k)
    ensures WorldInv(w.(dist := dist))
  {
    forall k | k in w.election.proposals ensures RegisteredOk(dist, k, w.election.proposals[k]) {
      assert RegisteredOk(w.dist, k, w.election.proposals[k]) && SameShape(w.dist, dist, k);
    }
  }

  predicate SameShape(before: Dist, after: Dist, key: Pubkey) {
    key in before.proposals ==>
      && key in after.proposals
      && |after.proposals[key].entries| == |before.proposals[key].entries|
      && after.proposals[key].capacity == before.proposals[key].capacity
      && after.proposals[key].totalAmount == before.proposals[key].totalAmount
  }

  /** A registered proposal is full: nothing can be appended to it. */
  lemma RegisteredNeverGrows(w: World, key: Pubkey, appended: Pubkey, creator: Pubkey, batch: seq<Entry>)
    requires WorldInv(w) && key in w.election.proposals
    requires AppendEntries(w.dist, appended, creator, batch).Ok?
    ensures key in w.dist.proposals
    ensures AppendEntries(w.dist, appended, creator, batch).value.proposals[key] == w.dist.proposals[key]
  {
    assert RegisteredOk(w.dist, key, w.election.proposals[key]);
    if appended == key {
      assert batch == [];
    }
  }

  lemma AppendWorldKeeps(w: World, key: Pubkey, creator: Pubkey, batch: seq<Entry>)
    requires WorldInv(w) && AppendEntries(w.dist, key, creator, batch).Ok?
    ensures WorldInv(w.(dist := AppendEntries(w.dist, key, creator, batch).value))
  {
    var dist := AppendEntries(w.dist, key, creator, batch).value;
    AppendKeeps(w.dist, key, creator, batch, w.now);
    forall k | k in w.election.proposals ensures SameShape(w.dist, dist, k) {
      RegisteredNeverGrows(w, k, key, creator, batch);
    }
    DistStepKeeps(w, dist);
  }

  lemma ClaimWorldKeeps(w: World, key: Pubkey, recipient: Pubkey, index: u32)
    requires WorldInv(w) && Claim(w.dist, key, recipient, index, w.now).Ok?
    ensures WorldInv(w.(dist := Claim(w.dist, key, recipient, index, w.now).value.0))
  {
    ClaimKeeps(w.dist, key, recipient, index, w.now);
    DistStepKeeps(w, Claim(w.dist, key, recipient, index, w.now).value.0);
  }

  lemma CreateWorldKeeps(w: World, key: Pubkey, creator: Pubkey, capacity: u32)
    requires WorldInv(w) && CreateProposal(w.dist, key, creator, capacity).Ok?
    ensures WorldInv(w.(dist := CreateProposal(w.dist, key, creator, capacity).value))
  {
    CreateKeeps(w.dist, key, creator, capacity, w.now);
    DistStepKeeps(w, CreateProposal(w.dist, key, creator, capacity).value);
  }

  lemma SameProposalsKeep(w: World, dist: Dist)
    requires WorldInv(w) && DistInv(dist, w.now) && dist.config == w.dist.config && dist.proposals == w.dist.proposals
    ensures WorldInv(w.(dist := dist))
  {
    DistStepKeeps(w, dist);
  }

  lemma DistributionStepKeeps(w: World, step: Action)
    requires WorldInv(w) && Perform(w, step).Ok?
    requires step.DoCreate? || step.DoAppend? || step.DoClaim? || step.DoBurn? || step.DoDonate?
    ensures WorldInv(Perform(w, step).value)
  {
    match step
    case DoCreate(key, creator, capacity) => CreateWorldKeeps(w, key, creator, capacity);
    case DoAppend(key, creator, batch) => AppendWorldKeeps(w, key, creator, batch);
    case DoClaim(key, recipient, index) => ClaimWorldKeeps(w, key, recipient, index);
    case DoBurn =>
      BurnKeeps(w.dist, w.now);
      SameProposalsKeep(w, BurnUnclaimed(w.dist, w.now).value);
    case DoDonate(amount) =>
      DonateKeeps(w.dist, amount, w.now);
      SameProposalsKeep(w, DonateCoin(w.dist, amount).value);
  }

  lemma StepKeepsWorld(w: World, step: Action)
    requires WorldInv(w)
    ensures WorldInv(After(w, step))
  {
    if Perform(w, step).Ok? {
      match step
      case DoRegister(payer, key) => RegisterKeeps(w, payer, key);
      case DoVote(voter, key, action) => VoteKeeps(w, voter, key, action);
      case DoTrigger(key) => TriggerKeeps(w, key);
      case _ =>
        if step.DoCreate? || step.DoAppend? || step.DoClaim? || step.DoBurn? || step.DoDonate? {
          DistributionStepKeeps(w, step);
        } else {
          CustodyStepKeeps(w, step);
        }
    }
  }

  lemma CustodyStepKeeps(w: World, step: Action)
    requires WorldInv(w) && Perform(w, step).Ok?
    requires step.Tick? || step.MarketChange? || step.DoDeposit? || step.DoExit? || step.DoTerminalReturn?
    ensures WorldInv(Perform(w, step).value)
  {
    match step
    case Tick(slots) => TickKeeps(w, slots);
    case MarketChange(_) =>
    case DoDeposit(owner, amount) => DepositWorldKeeps(w, owner, amount);
    case DoExit(owner, amount) => ExitWorldKeeps(w, owner, amount);
    case DoTerminalReturn(owner) => TerminalReturnKeeps(w, owner);
  }

  /** Every run from a fresh genesis keeps the cross-program invariant. */
  lemma {:induction false} RunKeepsWorld(w: World, steps: seq<Action>)
    requires WorldInv(w)
    ensures WorldInv(RunWorld(w, steps))
    decreases |steps|
  {
    if steps != [] {
      StepKeepsWorld(w, steps[0]);
      RunKeepsWorld(After(w, steps[0]), steps[1..]);
    }
  }

  /** Votes are funded in every reachable world: the cast principal is capital still held by the pool. */
  lemma VotesAreFunded(w: World, steps: seq<Action>)
    requires FreshWorld(w)
    ensures var w' := RunWorld(w, steps);
            && w'.election.config.totalVotedPrincipal == Sum(Voted(w'.election.ballots))
                                                      == Sum(Supports(w'.election.proposals))
            && w'.election.config.totalVotedPrincipal <= w'.ledger.pool.outstanding
  {
    FreshWorldKeeps(w);
    RunKeepsWorld(w, steps);
    VotedWithinOutstanding(RunWorld(w, steps));
  }

  // ------------------------------------------------------------------------------------------
  // One outcome
  // ------------------------------------------------------------------------------------------

  /** The phases of the genesis are fixed when it starts. */
  predicate SamePhases(w: World, w': World) {
    && w'.ledger.pool.schedule == w.ledger.pool.schedule
    && w'.election.config.bootstrapStart == w.election.config.bootstrapStart
    && w'.election.config.bootstrapDelay == w.election.config.bootstrapDelay
    && w'.election.config.bootstrapEnd == w.election.config.bootstrapEnd
  }

  /** What later steps may do to the flags: set them, never clear them, and never re-seal. */
  predicate Settled(w: World, w': World) {
    && w.now <= w'.now
    && SamePhases(w, w')
    && w'.dist.config.claimWindow == w.dist.config.claimWindow
    && w'.dist.config.totalSupply == w.dist.config.totalSupply
    && (w.dist.config.IsSealed() ==> w'.dist.config == w.dist.config)
    && (w.election.config.distributionExecuted ==> w'.election.config.distributionExecuted)
    && (w.election.config.terminalRefundsStarted ==> w'.election.config.terminalRefundsStarted)
  }

  /** A vote moves tallies, the voter's ballot and the voter's lock only. */
  lemma VoteMoves(w: World, voter: Pubkey, key: Pubkey, action: VoteAction)
    requires WorldInv(w) && Vote(w, voter, key, action).Ok?
    ensures var w' := Vote(w, voter, key, action).value;
            && w' == w.(election := w'.election, ledger := w.ledger.(positions := w'.ledger.positions))
            && VoteEffect(w, voter, key, action, w'.election)
            && w'.ledger.positions == w.ledger.positions[voter :=
                 w.ledger.positions[voter].(voteLocked := w'.election.ballots[voter].Live())]
  {
    CastVoteKeeps(w, voter, key, action);
  }

  /** A terminal return moves tallies, the owner's ballot, the refund flag and custody only. */
  lemma ReturnMoves(w: World, owner: Pubkey)
    requires WorldInv(w) && TerminalReturn(w, owner).Ok?
    ensures var w' := TerminalReturn(w, owner).value.0;
            && w' == w.(election := w'.election, ledger := w'.ledger)
            && w'.ledger.pool.schedule == w.ledger.pool.schedule
            && Removed(Flagged(w.election), owner, w'.election)
  {
    RetireBallotExactly(w, owner);
    ExitEffect(w.ledger, owner, None, w.now);
  }

  lemma StepSettles(w: World, step: Action)
    requires WorldInv(w)
    ensures Settled(w, After(w, step))
  {
    if Perform(w, step).Ok? {
      match step
      case DoDeposit(owner, amount) => DepositEffect(w.ledger, owner, amount, w.now);
      case DoExit(owner, amount) => ExitEffect(w.ledger, owner, Some(amount), w.now);
      case DoTerminalReturn(owner) => ReturnMoves(w, owner);
      case DoVote(voter, key, action) => VoteMoves(w, voter, key, action);
      case _ => DistributionSettles(w, step);
    }
  }

  lemma DistributionSettles(w: World, step: Action)
    requires !step.DoDeposit? && !step.DoExit? && !step.DoTerminalReturn? && !step.DoVote?
    ensures Settled(w, After(w, step))
  {
  }

  lemma {:induction false} RunSettles(w: World, steps: seq<Action>)
    requires WorldInv(w)
    ensures Settled(w, RunWorld(w, steps))
    decreases |steps|
  {
    if steps != [] {
      StepKeepsWorld(w, steps[0]);
      StepSettles(w, steps[0]);
      RunSettles(After(w, steps[0]), steps[1..]);
    }
  }

  predicate Executed(w: World, key: Pubkey) {
    key in w.election.proposals && w.election.proposals[key].executed
  }

  /**
   One outcome per election. Of two moments of a run, whatever was sealed at the first is still the only
   executed proposal at the second, it was sealed in the trigger phase, and a refund that opened by
   fallback at either moment excludes a seal at both.
   */
  lemma OneOutcomePerElection(w: World, first: seq<Action>, second: seq<Action>, a: Pubkey, b: Pubkey)
    requires FreshWorld(w)
    ensures var w1 := RunWorld(w, first);
            var w2 := RunWorld(w1, second);
            && (Executed(w1, a) && Executed(w2, b) ==> a == b)
            && (w1.dist.config.IsSealed() ==>
                  && w2.dist.config == w1.dist.config
                  && w.election.config.bootstrapEnd <= w1.dist.config.sealSlot
                     < w.election.config.bootstrapEnd + w.ledger.pool.schedule.depositWindow
                  && !w2.election.config.terminalRefundsStarted)
            && (w1.election.config.terminalRefundsStarted ==> !w2.dist.config.IsSealed())
  {
    FreshWorldKeeps(w);
    RefundStartExactly(w.ledger.pool.schedule, w.election.config);
    RunKeepsWorld(w, first);
    RunSettles(w, first);
    RunSettles(RunWorld(w, first), second);
    RunKeepsWorld(RunWorld(w, first), second);
  }

  // ------------------------------------------------------------------------------------------
  // The approved allocation
  // ------------------------------------------------------------------------------------------

  /** The same entries, some of them paid out and zeroed. */
  predicate PaidDown(entries: seq<Entry>, entries': seq<Entry>) {
    && |entries'| == |entries|
    && forall i :: 0 <= i < |entries| ==>
         entries'[i] == entries[i] || entries'[i] == entries[i].(amount := 0)
  }

  /** A registered proposal keeps its entries; only a sealed one is paid down. */
  ghost predicate Approved(w: World, w': World, key: Pubkey) {
    && key in w'.election.proposals && key in w.dist.proposals && key in w'.dist.proposals
    && PaidDown(w.dist.proposals[key].entries, w'.dist.proposals[key].entries)
    && w'.dist.proposals[key].totalAmount == w.dist.proposals[key].totalAmount
    && (key != w'.dist.config.sealedProposal ==> w'.dist.proposals[key].entries == w.dist.proposals[key].entries)
  }

  lemma VoteStepApproved(w: World, voter: Pubkey, voted: Pubkey, action: VoteAction, key: Pubkey)
    requires WorldInv(w) && key in w.election.proposals && Vote(w, voter, voted, action).Ok?
    ensures Approved(w, Vote(w, voter, voted, action).value, key)
  {
    assert RegisteredOk(w.dist, key, w.election.proposals[key]);
    VoteMoves(w, voter, voted, action);
    UntouchedIsApproved(w, Vote(w, voter, voted, action).value, key);
  }

  lemma ReturnStepApproved(w: World, owner: Pubkey, key: Pubkey)
    requires WorldInv(w) && key in w.election.proposals && TerminalReturn(w, owner).Ok?
    ensures Approved(w, TerminalReturn(w, owner).value.0, key)
  {
    assert RegisteredOk(w.dist, key, w.election.proposals[key]);
    ReturnMoves(w, owner);
    UntouchedIsApproved(w, TerminalReturn(w, owner).value.0, key);
  }

  lemma AppendStepApproved(w: World, appended: Pubkey, creator: Pubkey, batch: seq<Entry>, key: Pubkey)
    requires WorldInv(w) && key in w.election.proposals && AppendEntries(w.dist, appended, creator, batch).Ok?
    ensures Approved(w, w.(dist := AppendEntries(w.dist, appended, creator, batch).value), key)
  {
    RegisteredNeverGrows(w, key, appended, creator, batch);
  }

  lemma RegisteredExists(w: World, key: Pubkey)
    requires WorldInv(w) && key in w.election.proposals
    ensures key in w.dist.proposals
  {
    assert RegisteredOk(w.dist, key, w.election.proposals[key]);
  }

  lemma StepKeepsApproved(w: World, step: Action, key: Pubkey)
    requires WorldInv(w) && key in w.election.proposals
    ensures Approved(w, After(w, step), key)
  {
    RegisteredExists(w, key);
    if step.DoAppend? || step.DoTerminalReturn? || step.DoVote? {
      BallotStepKeepsApproved(w, step, key);
    } else {
      OtherKeepsApproved(w, step, key);
    }
  }

  lemma BallotStepKeepsApproved(w: World, step: Action, key: Pubkey)
    requires WorldInv(w) && key in w.election.proposals && key in w.dist.proposals
    requires step.DoAppend? || step.DoTerminalReturn? || step.DoVote?
    ensures Approved(w, After(w, step), key)
  {
    if Perform(w, step).Ok? {
      match step
      case DoAppend(appended, creator, batch) => AppendStepApproved(w, appended, creator, batch, key);
      case DoTerminalReturn(owner) => ReturnStepApproved(w, owner, key);
      case DoVote(voter, voted, action) => VoteStepApproved(w, voter, voted, action, key);
    }
  }

  lemma UntouchedIsApproved(w: World, w': World, key: Pubkey)
    requires w'.dist == w.dist && key in w.dist.proposals && key in w'.election.proposals
    ensures Approved(w, w', key)
  {
  }

  lemma OtherKeepsApproved(w: World, step: Action, key: Pubkey)
    requires !step.DoAppend? && !step.DoTerminalReturn? && !step.DoVote?
    requires key in w.election.proposals && key in w.dist.proposals
    ensures Approved(w, After(w, step), key)
  {
  }

  lemma ApprovedTransitive(w: World, w1: World, w2: World, key: Pubkey)
    requires Approved(w, w1, key) && Approved(w1, w2, key)
    requires w1.dist.config.IsSealed() ==> w2.dist.config == w1.dist.config
    requires !w1.dist.config.IsSealed() ==> key != w1.dist.config.sealedProposal
    ensures Approved(w, w2, key)
  {
  }

  lemma {:induction false} RunKeepsApproved(w: World, steps: seq<Action>, key: Pubkey)
    requires WorldInv(w) && key in w.election.proposals
    ensures Approved(w, RunWorld(w, steps), key)
    decreases |steps|
  {
    assert RegisteredOk(w.dist, key, w.election.proposals[key]);
    if steps != [] {
      var w1 := After(w, steps[0]);
      StepKeepsWorld(w, steps[0]);
      StepKeepsApproved(w, steps[0], key);
      RunKeepsApproved(w1, steps[1..], key);
      RunSettles(w1, steps[1..]);
      assert TallyOk(w1.election.ballots, key, w1.election.proposals[key]);
      ApprovedTransitive(w, w1, RunWorld(w1, steps[1..]), key);
    }
  }

  /** A claimed entry is never paid again: whoever asks, whenever, and whatever happened in between. */
  lemma ClaimedOnce(w: World, key: Pubkey, recipient: Pubkey, index: u32, steps: seq<Action>, other: Pubkey, later: u64)
    requires WorldInv(w) && Claim(w.dist, key, recipient, index, w.now).Ok?
    ensures var w' := RunWorld(w.(dist := Claim(w.dist, key, recipient, index, w.now).value.0), steps);
            Claim(w'.dist, key, other, index, later).Err?
  {
    var w1 := w.(dist := Claim(w.dist, key, recipient, index, w.now).value.0);
    ClaimWorldKeeps(w, key, recipient, index);
    RunKeepsApproved(w1, steps, key);
  }

  /**
   From the moment a proposal is registered its allocation is fixed. In any later world where it is the
   sealed one, every entry still carries the approved amount or was zeroed by its payment, what was paid
   is exactly what the zeroed entries held, and until the claims close every remaining entry is payable.
   */
  lemma ApprovedAllocationIsPaid(w: World, steps: seq<Action>, key: Pubkey)
    requires WorldInv(w) && key in w.election.proposals && !w.dist.config.IsSealed()
    ensures key in w.dist.proposals && Total(w.dist.proposals[key].entries) == w.dist.config.totalSupply
    ensures var w' := RunWorld(w, steps);
            w'.dist.config.IsSealed() && w'.dist.config.sealedProposal == key ==>
              && key in w'.dist.proposals
              && PaidDown(w.dist.proposals[key].entries, w'.dist.proposals[key].entries)
              && w'.dist.paid == Total(w.dist.proposals[key].entries) - Total(w'.dist.proposals[key].entries)
              && w'.dist.vault + w'.dist.paid + w'.dist.burned == w'.dist.received
              && (w'.now < Min(w'.dist.config.sealSlot + w'.dist.config.claimWindow, U64_MAX) ==>
                    forall i :: 0 <= i < |w'.dist.proposals[key].entries| && w'.dist.proposals[key].entries[i].amount > 0 ==>
                      PaysNow(w', key, i, w.dist.proposals[key].entries[i]))
  {
    assert RegisteredOk(w.dist, key, w.election.proposals[key]);
    assert ProposalOk(w.dist.config, key, w.dist.proposals[key]);
    RunKeepsWorld(w, steps);
    RunKeepsApproved(w, steps, key);
    var w' := RunWorld(w, steps);
    if w'.dist.config.IsSealed() && w'.dist.config.sealedProposal == key
       && w'.now < Min(w'.dist.config.sealSlot + w'.dist.config.claimWindow, U64_MAX) {
      forall i | 0 <= i < |w'.dist.proposals[key].entries| && w'.dist.proposals[key].entries[i].amount > 0
        ensures PaysNow(w', key, i, w.dist.proposals[key].entries[i])
      {
        UnclaimedIsPayable(w'.dist, i, w'.now);
      }
    }
  }

  /** A claim of entry `i` by its approved recipient pays the approved amount. */
  predicate PaysNow(w: World, key: Pubkey, i: nat, approved: Entry) {
    && i <= U32_MAX
    && Claim(w.dist, key, approved.recipient, i, w.now).Ok?
    && Claim(w.dist, key, approved.recipient, i, w.now).value.1 == approved.amount
  }

  // ------------------------------------------------------------------------------------------
  // Replays and locks
  // ------------------------------------------------------------------------------------------

  function NonceOf(e: Election, voter: Pubkey): u64 {
    LoadBallot(e, voter).nonce
  }

  /** No vote lowers a nonce, and every vote on a live ballot, retract or re-back, raises the voter's by one. */
  lemma VoteNonce(w: World, voter: Pubkey, key: Pubkey, action: VoteAction, e: Election, other: Pubkey)
    requires VoteEffect(w, voter, key, action, e)
    ensures NonceOf(w.election, other) <= NonceOf(e, other)
    ensures NonceOf(e, voter) == NonceOf(w.election, voter)
                              + (if LoadBallot(w.election, voter).Live() || action.Retract? then 1 else 0)
  {
  }

  lemma RemovalNonce(e: Election, owner: Pubkey, e': Election, other: Pubkey)
    requires Removed(Flagged(e), owner, e')
    ensures NonceOf(e', other) == NonceOf(e, other)
  {
  }

  lemma VoteStepNonce(w: World, voter: Pubkey, key: Pubkey, action: VoteAction, other: Pubkey)
    requires WorldInv(w) && Vote(w, voter, key, action).Ok?
    ensures NonceOf(w.election, other) <= NonceOf(Vote(w, voter, key, action).value.election, other)
  {
    VoteMoves(w, voter, key, action);
    VoteNonce(w, voter, key, action, Vote(w, voter, key, action).value.election, other);
  }

  lemma ReturnStepNonce(w: World, owner: Pubkey, other: Pubkey)
    requires WorldInv(w) && TerminalReturn(w, owner).Ok?
    ensures NonceOf(TerminalReturn(w, owner).value.0.election, other) == NonceOf(w.election, other)
  {
    ReturnMoves(w, owner);
    RemovalNonce(w.election, owner, TerminalReturn(w, owner).value.0.election, other);
  }

  lemma StepKeepsNonce(w: World, step: Action, voter: Pubkey)
    requires WorldInv(w)
    ensures NonceOf(w.election, voter) <= NonceOf(After(w, step).election, voter)
  {
    if Perform(w, step).Ok? {
      match step
      case DoTerminalReturn(owner) => ReturnStepNonce(w, owner, voter);
      case DoVote(_, key, action) => VoteStepNonce(w, step.voter, key, action, voter);
      case _ => OtherKeepsBallots(w, step);
    }
  }

  lemma OtherKeepsBallots(w: World, step: Action)
    requires !step.DoTerminalReturn? && !step.DoVote?
    ensures After(w, step).election.ballots == w.election.ballots
  {
  }

  lemma {:induction false} RunKeepsNonce(w: World, steps: seq<Action>, voter: Pubkey)
    requires WorldInv(w)
    ensures NonceOf(w.election, voter) <= NonceOf(RunWorld(w, steps).election, voter)
    decreases |steps|
  {
    if steps != [] {
      StepKeepsWorld(w, steps[0]);
      StepKeepsNonce(w, steps[0], voter);
      RunKeepsNonce(After(w, steps[0]), steps[1..], voter);
    }
  }

  lemma StaleIsRefused(w: World, voter: Pubkey, key: Pubkey, action: VoteAction)
    requires NonceOf(w.election, voter) > 0
    requires ActionNonce(action).Some? ==> ActionNonce(action).value < NonceOf(w.election, voter)
    ensures Vote(w, voter, key, action).Err?
  {
  }

  /**
   An authorization used on a live ballot, to retract it or to back again, is used up: after it, whatever
   happens next, no authorization of that voter that names the same nonce, an older one, or none is accepted.
   */
  lemma UsedAuthorizationsAreDead(w: World, voter: Pubkey, key: Pubkey, action: VoteAction, steps: seq<Action>,
                                  replayedKey: Pubkey, replayed: VoteAction)
    requires WorldInv(w) && Vote(w, voter, key, action).Ok? && LoadBallot(w.election, voter).Live()
    requires ActionNonce(replayed).Some? ==> ActionNonce(replayed).value <= NonceOf(w.election, voter)
    ensures Vote(RunWorld(Vote(w, voter, key, action).value, steps), voter, replayedKey, replayed).Err?
  {
    var w1 := Vote(w, voter, key, action).value;
    VoteKeeps(w, voter, key, action);
    VoteMoves(w, voter, key, action);
    VoteNonce(w, voter, key, action, w1.election, voter);
    RunKeepsNonce(w1, steps, voter);
    StaleIsRefused(RunWorld(w1, steps), voter, replayedKey, replayed);
  }

  /**
   No lock outlives its voter's will: in any phase, sealed or not, the owner of a live ballot can retract
   it, and the retract alone makes the whole principal as withdrawable as the market allows.
   */
  lemma RetractFreesPrincipal(w: World, voter: Pubkey, amount: u64)
    requires WorldInv(w) && LoadBallot(w.election, voter).Live() && LoadBallot(w.election, voter).nonce < U64_MAX
    requires voter in w.ledger.positions && 0 < amount <= w.ledger.positions[voter].principal
    ensures w.ledger.positions[voter].voteLocked && Exit(w.ledger, voter, Some(amount), w.now).Err?
    ensures var ballot := LoadBallot(w.election, voter);
            var r := Vote(w, voter, ballot.proposal, Retract(Some(ballot.nonce)));
            && r.Ok?
            && ExitAllowed(r.value.ledger, voter, Some(amount))
            && r.value.ledger == w.ledger.(positions := r.value.ledger.positions)
            && r.value.ledger.positions[voter] == w.ledger.positions[voter].(voteLocked := false)
  {
    var ballot := LoadBallot(w.election, voter);
    RetractIsAllowed(w, voter);
    VoteKeeps(w, voter, ballot.proposal, Retract(Some(ballot.nonce)));
    VoteMoves(w, voter, ballot.proposal, Retract(Some(ballot.nonce)));
    LockedCannotExit(w.ledger, voter, amount, w.now);
  }

  lemma RetractIsAllowed(w: World, voter: Pubkey)
    requires Tallied(w.election) && Bonded(w.ledger.positions, w.election.ballots)
    requires LoadBallot(w.election, voter).Live() && LoadBallot(w.election, voter).nonce < U64_MAX
    ensures voter in w.ledger.positions && w.ledger.positions[voter].voteLocked
    ensures var ballot := LoadBallot(w.election, voter);
            VoteAllowed(w, voter, ballot.proposal, Retract(Some(ballot.nonce)))
  {
  }

  lemma LockedCannotExit(l: Ledger, owner: Pubkey, amount: u64, now: u64)
    requires Inv(l) && owner in l.positions && l.positions[owner].voteLocked
    ensures Exit(l, owner, Some(amount), now).Err?
    ensures 0 < amount <= l.positions[owner].principal ==> !l.positions[owner].withdrawn
  {
  }

  // ------------------------------------------------------------------------------------------
  // The quorum follows the live pool
  // ------------------------------------------------------------------------------------------

  /** Steps that neither add votes nor take principal out of the pool. */
  predicate NoNewSupport(step: Action) {
    !(step.DoVote? && step.action.Back?) && !step.DoExit? && !step.DoTerminalReturn?
  }

  predicate WithoutSupport(steps: seq<Action>)
    decreases |steps|
  {
    steps == [] || (NoNewSupport(steps[0]) && WithoutSupport(steps[1..]))
  }

  /** At most half of the principal in the pool has voted. */
  predicate LacksQuorum(w: World) {
    2 * w.election.config.totalVotedPrincipal <= w.ledger.pool.outstanding
  }

  lemma RetractKeepsLack(w: World, voter: Pubkey, key: Pubkey, action: VoteAction)
    requires WorldInv(w) && LacksQuorum(w) && action.Retract? && Vote(w, voter, key, action).Ok?
    ensures LacksQuorum(Vote(w, voter, key, action).value)
  {
    VoteMoves(w, voter, key, action);
    WriteVoted(w.election.ballots, voter, Vote(w, voter, key, action).value.election.ballots[voter]);
  }

  lemma DepositKeepsLack(w: World, owner: Pubkey, amount: u64)
    requires WorldInv(w) && LacksQuorum(w) && Deposit(w.ledger, owner, amount, w.now).Ok?
    ensures LacksQuorum(w.(ledger := Deposit(w.ledger, owner, amount, w.now).value))
  {
    var minted := DepositCreditsExactly(w.ledger, owner, amount, w.now);
  }

  lemma StepKeepsLack(w: World, step: Action)
    requires WorldInv(w) && LacksQuorum(w) && NoNewSupport(step)
    ensures LacksQuorum(After(w, step))
  {
    if Perform(w, step).Ok? {
      match step
      case DoDeposit(owner, amount) => DepositKeepsLack(w, owner, amount);
      case DoVote(voter, key, action) => RetractKeepsLack(w, voter, key, action);
      case _ => OtherKeepsLack(w, step);
    }
  }

  lemma OtherKeepsLack(w: World, step: Action)
    requires LacksQuorum(w) && NoNewSupport(step) && !step.DoDeposit? && !step.DoVote?
    ensures LacksQuorum(After(w, step))
  {
  }

  lemma {:induction false} RunKeepsLack(w: World, steps: seq<Action>)
    requires WorldInv(w) && LacksQuorum(w) && WithoutSupport(steps)
    ensures LacksQuorum(RunWorld(w, steps))
    decreases |steps|
  {
    if steps != [] {
      StepKeepsWorld(w, steps[0]);
      StepKeepsLack(w, steps[0]);
      RunKeepsLack(After(w, steps[0]), steps[1..]);
    }
  }

  /**
   The quorum is measured against the pool as it is: once deposits have lifted the outstanding principal to
   twice the voted principal, no trigger succeeds until more principal votes or principal leaves.
   */
  lemma DepositsBlockTheTrigger(w: World, steps: seq<Action>, key: Pubkey)
    requires WorldInv(w) && 2 * Sum(Voted(w.election.ballots)) <= w.ledger.pool.outstanding && WithoutSupport(steps)
    ensures Trigger(RunWorld(w, steps), key).Err?
  {
    RunKeepsLack(w, steps);
    RunKeepsWorld(w, steps);
    TriggerSucceedsExactly(RunWorld(w, steps), key);
  }
}
