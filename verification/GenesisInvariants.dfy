/**
 What every run of the genesis election keeps across the three programs: tallies are the sums of live
 ballots, a position is locked exactly while its ballot is live and never holds less than it voted, and
 at most one proposal is ever sealed, inside the trigger phase.
 */
module GenesisInvariants {
  import opened Machine
  import opened MapSum
  import opened Percolator
  import opened ShareMath
  import opened ShareLedger
  import opened ShareSolvency
  import opened ShareExits
  import opened Distribution
  import opened GenesisVote

  function Voted(ballots: map<Pubkey, Ballot>): map<Pubkey, nat> {
    map o | o in ballots :: ballots[o].principal
  }

  function VotedFor(ballots: map<Pubkey, Ballot>, key: Pubkey): map<Pubkey, nat> {
    map o | o in ballots :: if ballots[o].proposal == key then ballots[o].principal else 0
  }

  function Supports(proposals: map<Pubkey, ProposalVote>): map<Pubkey, nat> {
    map k | k in proposals :: proposals[k].supportPrincipal
  }

  /** A live ballot carries one vote per atom; a dead one carries none. */
  predicate BallotOk(b: Ballot) {
    b.weight == b.principal && (b.Live() <==> b.principal > 0)
  }

  /** A tally equals the principal of the ballots on its proposal. */
  ghost predicate TallyOk(ballots: map<Pubkey, Ballot>, key: Pubkey, pv: ProposalVote) {
    && key != DEFAULT_KEY
    && pv.supportPrincipal == pv.supportWeight == Sum(VotedFor(ballots, key))
  }

  ghost predicate BallotsOk(ballots: map<Pubkey, Ballot>, proposals: map<Pubkey, ProposalVote>) {
    forall o :: o in ballots ==> BallotOk(ballots[o]) && (ballots[o].Live() ==> ballots[o].proposal in proposals)
  }

  ghost predicate TalliesOk(ballots: map<Pubkey, Ballot>, proposals: map<Pubkey, ProposalVote>) {
    forall k :: k in proposals ==> TallyOk(ballots, k, proposals[k])
  }

  /** The global tallies are the live ballots, and equally the supports of all proposals. */
  ghost predicate TotalsOk(e: Election) {
    && e.config.totalVotedPrincipal == e.config.totalCastWeight
    && Sum(Voted(e.ballots)) == e.config.totalVotedPrincipal
    && Sum(Supports(e.proposals)) == e.config.totalVotedPrincipal
  }

  ghost predicate Tallied(e: Election) {
    BallotsOk(e.ballots, e.proposals) && TalliesOk(e.ballots, e.proposals) && TotalsOk(e)
  }

  /** A live ballot is backed by locked principal of its owner. */
  predicate Backed(positions: map<Pubkey, Position>, owner: Pubkey, b: Ballot) {
    owner in positions && positions[owner].voteLocked && b.principal <= positions[owner].principal
  }

  ghost predicate Bonded(positions: map<Pubkey, Position>, ballots: map<Pubkey, Ballot>) {
    && (forall o :: o in ballots && ballots[o].Live() ==> Backed(positions, o, ballots[o]))
    && (forall o :: o in positions && positions[o].voteLocked ==> o in ballots && ballots[o].Live())
  }

  /** At most one seal, within the trigger phase, and never beside a fallback refund. */
  ghost predicate OneOutcome(now: u64, schedule: Schedule, e: Election, d: Dist) {
    var refundStart := TerminalRefundStart(schedule, e.config);
    && refundStart.Ok?
    && (e.config.distributionExecuted <==> d.config.IsSealed())
    && (forall k :: k in e.proposals ==>
          (e.proposals[k].executed <==> e.config.distributionExecuted && k == d.config.sealedProposal))
    && (e.config.distributionExecuted ==>
          && d.config.sealedProposal in e.proposals
          && e.config.bootstrapEnd <= d.config.sealSlot < refundStart.value
          && !e.config.terminalRefundsStarted)
    && (e.config.terminalRefundsStarted ==> refundStart.value <= now)
  }

  /** A registered proposal is full and allocates exactly the supply, as in its snapshot. */
  predicate RegisteredOk(d: Dist, key: Pubkey, pv: ProposalVote) {
    && key in d.proposals
    && |d.proposals[key].entries| == d.proposals[key].capacity == pv.snapshotEntryCount
    && pv.snapshotEntryCount > 0
    && d.proposals[key].totalAmount == pv.snapshotTotalAmount == d.config.totalSupply
  }

  ghost predicate AllRegistered(d: Dist, proposals: map<Pubkey, ProposalVote>) {
    forall k :: k in proposals ==> RegisteredOk(d, k, proposals[k])
  }

  ghost predicate WorldInv(w: World) {
    && Inv(w.ledger)
    && Tallied(w.election)
    && Bonded(w.ledger.positions, w.election.ballots)
    && OneOutcome(w.now, w.ledger.pool.schedule, w.election, w.dist)
    && AllRegistered(w.dist, w.election.proposals)
    && DistInv(w.dist, w.now)
  }

  // ------------------------------------------------------------------------------------------
  // Tallies
  // ------------------------------------------------------------------------------------------

  /** Writing one ballot moves the total by exactly its own difference. */
  lemma WriteVoted(ballots: map<Pubkey, Ballot>, voter: Pubkey, b: Ballot)
    ensures Sum(Voted(ballots[voter := b]))
         == Sum(Voted(ballots)) - (if voter in ballots then ballots[voter].principal else 0) + b.principal
  {
    SumUpdate(Voted(ballots), voter, b.principal);
    assert Voted(ballots[voter := b]) == Voted(ballots)[voter := b.principal];
  }

  /** What a ballot contributes to the tally of `key`. */
  function Share(b: Ballot, key: Pubkey): nat {
    if b.proposal == key then b.principal else 0
  }

  lemma WriteVotedFor(ballots: map<Pubkey, Ballot>, voter: Pubkey, b: Ballot, key: Pubkey)
    ensures Sum(VotedFor(ballots[voter := b], key))
         == Sum(VotedFor(ballots, key)) - (if voter in ballots then Share(ballots[voter], key) else 0) + Share(b, key)
  {
    SumUpdate(VotedFor(ballots, key), voter, Share(b, key));
    assert VotedFor(ballots[voter := b], key) == VotedFor(ballots, key)[voter := Share(b, key)];
  }

  /** The contribution of `before` was replaced by that of `after` in one proposal and the totals. */
  predicate Contributed(config: Config, pv: ProposalVote, before: Ballot, after: Ballot, config': Config, pv': ProposalVote) {
    && config'.totalVotedPrincipal == config.totalVotedPrincipal - before.principal + after.principal
    && config'.totalCastWeight == config.totalCastWeight - before.weight + after.weight
    && pv'.supportPrincipal == pv.supportPrincipal - before.principal + after.principal
    && pv'.supportWeight == pv.supportWeight - before.weight + after.weight
  }

  /** The ballot concerns no other proposal than `key`. */
  predicate Only(b: Ballot, key: Pubkey) {
    BallotOk(b) && (b.Live() ==> b.proposal == key)
  }

  lemma TalliesKeep(ballots: map<Pubkey, Ballot>, proposals: map<Pubkey, ProposalVote>, voter: Pubkey, key: Pubkey,
                    before: Ballot, after: Ballot, pv: ProposalVote)
    requires TalliesOk(ballots, proposals) && key in proposals
    requires Only(before, key) && Only(after, key)
    requires if voter in ballots then ballots[voter] == before else before.principal == 0
    requires pv.supportPrincipal == proposals[key].supportPrincipal - before.principal + after.principal
    requires pv.supportWeight == proposals[key].supportWeight - before.weight + after.weight
    ensures TalliesOk(ballots[voter := after], proposals[key := pv])
  {
    assert TallyOk(ballots, key, proposals[key]);
    var proposals' := proposals[key := pv];
    forall k | k in proposals' ensures TallyOk(ballots[voter := after], k, proposals'[k]) {
      assert TallyOk(ballots, k, proposals[k]);
      WriteVotedFor(ballots, voter, after, k);
    }
  }

  lemma TotalsKeep(e: Election, voter: Pubkey, key: Pubkey, before: Ballot, after: Ballot, e': Election)
    requires TotalsOk(e) && key in e.proposals && key in e'.proposals
    requires before.weight == before.principal && after.weight == after.principal
    requires before == LoadBallot(e, voter)
    requires e'.ballots == e.ballots[voter := after] && e'.proposals == e.proposals[key := e'.proposals[key]]
    requires Contributed(e.config, e.proposals[key], before, after, e'.config, e'.proposals[key])
    ensures TotalsOk(e')
  {
    WriteVoted(e.ballots, voter, after);
    var support := e'.proposals[key].supportPrincipal;
    SumUpdate(Supports(e.proposals), key, support);
    assert Supports(e'.proposals) == Supports(e.proposals)[key := support];
  }

  lemma BallotsKeep(ballots: map<Pubkey, Ballot>, proposals: map<Pubkey, ProposalVote>, voter: Pubkey, key: Pubkey,
                    after: Ballot, pv: ProposalVote)
    requires BallotsOk(ballots, proposals) && Only(after, key)
    ensures BallotsOk(ballots[voter := after], proposals[key := pv])
  {
  }

  /** Moving a voter's contribution between nothing and `key` keeps every tally exact. */
  lemma ContributionKeeps(e: Election, voter: Pubkey, key: Pubkey, after: Ballot, e': Election)
    requires Tallied(e) && key in e.proposals && key in e'.proposals
    requires Only(LoadBallot(e, voter), key) && Only(after, key)
    requires e'.ballots == e.ballots[voter := after] && e'.proposals == e.proposals[key := e'.proposals[key]]
    requires Contributed(e.config, e.proposals[key], LoadBallot(e, voter), after, e'.config, e'.proposals[key])
    ensures Tallied(e')
  {
    TalliesKeep(e.ballots, e.proposals, voter, key, LoadBallot(e, voter), after, e'.proposals[key]);
    BallotsKeep(e.ballots, e.proposals, voter, key, after, e'.proposals[key]);
    TotalsKeep(e, voter, key, LoadBallot(e, voter), after, e');
  }

  /** Voted principal is capital held in the subledger. */
  lemma VotedWithinOutstanding(w: World)
    requires Inv(w.ledger) && Tallied(w.election) && Bonded(w.ledger.positions, w.election.ballots)
    ensures w.election.config.totalVotedPrincipal <= w.ledger.pool.outstanding
  {
    BondedSum(w.ledger.positions, w.election.ballots);
  }

  lemma BondedSum(positions: map<Pubkey, Position>, ballots: map<Pubkey, Ballot>)
    requires forall o :: o in ballots ==> BallotOk(ballots[o])
    requires forall o :: o in ballots && ballots[o].Live() ==> o in positions && ballots[o].principal <= positions[o].principal
    ensures Sum(Voted(ballots)) <= Sum(Principals(positions))
  {
    var funded := map o | o in ballots && o in positions :: ballots[o].principal as nat;
    SumSubset(funded, Principals(positions));
    var rest := map o | o in ballots && o !in positions :: 0 as nat;
    SumZero(rest);
    SumDropZeros(Voted(ballots), funded);
  }

  /** Values outside the smaller map are zero, so both sums agree. */
  lemma {:induction false} SumDropZeros(a: map<Pubkey, nat>, b: map<Pubkey, nat>)
    requires b.Keys <= a.Keys
    requires forall k :: k in a ==> if k in b then a[k] == b[k] else a[k] == 0
    ensures Sum(a) == Sum(b)
    decreases |a|
  {
    if a != map[] {
      var k :| k in a;
      SumRemove(a, k);
      if k in b {
        SumRemove(b, k);
        SumDropZeros(a - {k}, b - {k});
      } else {
        SumDropZeros(a - {k}, b);
      }
    } else {
      assert b == map[];
    }
  }

  // ------------------------------------------------------------------------------------------
  // Votes
  // ------------------------------------------------------------------------------------------

  /** What a voter must present: an open proposal, the live principal, and the ballot's own nonce. */
  predicate VoteAllowed(w: World, voter: Pubkey, key: Pubkey, action: VoteAction) {
    var ballot := LoadBallot(w.election, voter);
    && key in w.election.proposals
    && voter in w.ledger.positions
    && (ballot.Live() ==> ballot.proposal == key)
    && (ActionNonce(action) == Some(ballot.nonce) || (ActionNonce(action) == None && ballot.nonce == 0))
    && (match action
        case Back(_, expectedPrincipal) =>
          && !w.election.proposals[key].executed
          && w.now < w.election.config.bootstrapEnd
          && expectedPrincipal == w.ledger.positions[voter].principal > 0
          && (ballot.Live() ==> ballot.nonce < U64_MAX)
        case Retract(_) => ballot.Live() && ballot.nonce < U64_MAX)
  }

  /** With the voter's whole principal counted, all votes together are still funded. */
  lemma NewTotalFunded(positions: map<Pubkey, Position>, ballots: map<Pubkey, Ballot>, voter: Pubkey, after: Ballot)
    requires Bonded(positions, ballots) && voter in positions && after.principal <= positions[voter].principal
    requires BallotOk(after) && forall o :: o in ballots ==> BallotOk(ballots[o])
    ensures Sum(Voted(ballots)) - (if voter in ballots then ballots[voter].principal else 0) + after.principal
         <= Sum(Principals(positions))
  {
    BondedSum(positions, ballots[voter := after]);
    WriteVoted(ballots, voter, after);
  }

  lemma SupportWithinTotal(e: Election, key: Pubkey)
    requires Tallied(e) && key in e.proposals
    ensures e.proposals[key].supportPrincipal <= e.config.totalVotedPrincipal
    ensures e.proposals[key].supportWeight == e.proposals[key].supportPrincipal
  {
    assert TallyOk(e.ballots, key, e.proposals[key]);
    SumMonotone(VotedFor(e.ballots, key), Voted(e.ballots));
  }

  /** The ballot that a move leaves in the tallies. */
  function Counted(back: bool, key: Pubkey, principal: u64): Ballot {
    if back then Ballot(key, principal, principal, 0) else Ballot(DEFAULT_KEY, 0, 0, 0)
  }

  /** Nothing but the tallies differs. */
  predicate OnlyTalliesMoved(config: Config, pv: ProposalVote, config': Config, pv': ProposalVote) {
    && config' == config.(totalVotedPrincipal := config'.totalVotedPrincipal, totalCastWeight := config'.totalCastWeight)
    && pv' == pv.(supportPrincipal := pv'.supportPrincipal, supportWeight := pv'.supportWeight)
  }

  /** With the old contribution inside the tallies and room for the new one, the move is exact. */
  lemma MoveContributionExact(config: Config, pv: ProposalVote, before: Ballot, back: bool, key: Pubkey, principal: u64)
    requires before.Live() || before.principal == before.weight == 0
    requires before.weight <= pv.supportWeight && before.principal <= pv.supportPrincipal
    requires before.weight <= config.totalCastWeight && before.principal <= config.totalVotedPrincipal
    requires back ==>
               && config.totalVotedPrincipal - before.principal + principal <= U64_MAX
               && config.totalCastWeight - before.weight + principal <= U64_MAX
               && pv.supportPrincipal - before.principal + principal <= U64_MAX
               && pv.supportWeight - before.weight + principal <= U64_MAX
    ensures var r := MoveContribution(config, pv, before, back, principal);
            if back && principal == 0 then r.Err?
            else
              && r.Ok?
              && Contributed(config, pv, before, Counted(back, key, principal), r.value.0, r.value.1)
              && OnlyTalliesMoved(config, pv, r.value.0, r.value.1)
  {
  }

  /** No tally operation of an authorized vote can fail. */
  lemma MoveContributionTotal(w: World, voter: Pubkey, key: Pubkey, back: bool, config: Config)
    requires Inv(w.ledger) && Tallied(w.election) && Bonded(w.ledger.positions, w.election.ballots)
    requires key in w.election.proposals && voter in w.ledger.positions
    requires Only(LoadBallot(w.election, voter), key)
    requires config == w.election.config.(outstandingPrincipal := config.outstandingPrincipal)
    ensures var principal := w.ledger.positions[voter].principal;
            var before := LoadBallot(w.election, voter);
            var r := MoveContribution(config, w.election.proposals[key], before, back, principal);
            if back && principal == 0 then r.Err?
            else
              && r.Ok?
              && Contributed(config, w.election.proposals[key], before, Counted(back, key, principal), r.value.0, r.value.1)
              && OnlyTalliesMoved(config, w.election.proposals[key], r.value.0, r.value.1)
  {
    var before := LoadBallot(w.election, voter);
    ContributionInside(w.election, voter, key);
    RoomForSupport(w, voter, key);
    MoveContributionExact(config, w.election.proposals[key], before, back, key, w.ledger.positions[voter].principal);
  }

  /** A voter's standing contribution is inside the tallies it was added to. */
  lemma ContributionInside(e: Election, voter: Pubkey, key: Pubkey)
    requires Tallied(e) && key in e.proposals && Only(LoadBallot(e, voter), key)
    ensures var before := LoadBallot(e, voter);
            && before.weight == before.principal
            && before.weight <= e.proposals[key].supportWeight && before.principal <= e.proposals[key].supportPrincipal
            && before.weight <= e.config.totalCastWeight && before.principal <= e.config.totalVotedPrincipal
  {
    if LoadBallot(e, voter).Live() {
      assert TallyOk(e.ballots, key, e.proposals[key]);
      SumBoundsEach(VotedFor(e.ballots, key), voter);
      SumBoundsEach(Voted(e.ballots), voter);
    }
  }

  /** The voter's principal fits beside everyone else's votes, in the totals and in the tally. */
  lemma RoomForSupport(w: World, voter: Pubkey, key: Pubkey)
    requires Inv(w.ledger) && Tallied(w.election) && Bonded(w.ledger.positions, w.election.ballots)
    requires key in w.election.proposals && voter in w.ledger.positions
    ensures var before := LoadBallot(w.election, voter);
            var added := w.ledger.positions[voter].principal - before.principal;
            && w.election.config.totalVotedPrincipal + added <= U64_MAX
            && w.election.config.totalCastWeight + added <= U64_MAX
            && w.election.proposals[key].supportPrincipal + added <= U64_MAX
            && w.election.proposals[key].supportWeight + added <= U64_MAX
  {
    SupportWithinTotal(w.election, key);
    var principal := w.ledger.positions[voter].principal;
    NewTotalFunded(w.ledger.positions, w.election.ballots, voter,
                   Ballot(if principal > 0 then key else DEFAULT_KEY, principal, principal, 0));
    assert TallyOk(w.election.ballots, key, w.election.proposals[key]);
  }

  /** The effect of a vote on the election, and nothing else. */
  ghost predicate VoteEffect(w: World, voter: Pubkey, key: Pubkey, action: VoteAction, e: Election) {
    && Tallied(e)
    && voter in e.ballots && key in w.election.proposals && key in e.proposals
    && e.ballots == w.election.ballots[voter := e.ballots[voter]]
    && e.proposals == w.election.proposals[key := e.proposals[key]]
    && e.proposals[key] == w.election.proposals[key].(supportWeight := e.proposals[key].supportWeight,
                                                      supportPrincipal := e.proposals[key].supportPrincipal)
    && e.config == w.election.config.(totalVotedPrincipal := e.config.totalVotedPrincipal,
                                      totalCastWeight := e.config.totalCastWeight,
                                      outstandingPrincipal := w.ledger.pool.outstanding)
    && voter in w.ledger.positions
    && RecordAction(LoadBallot(w.election, voter), key, action, w.ledger.positions[voter].principal) == Ok(e.ballots[voter])
  }

  lemma AuthorizeExactly(w: World, voter: Pubkey, key: Pubkey, action: VoteAction)
    requires Tallied(w.election)
    ensures VoteAllowed(w, voter, key, action)
       <==> (&& AuthorizeVote(w, voter, key, action).Ok?
             && (action.Back? ==> w.ledger.positions[voter].principal > 0)
             && RecordAction(LoadBallot(w.election, voter), key, action, w.ledger.positions[voter].principal).Ok?)
    ensures AuthorizeVote(w, voter, key, action).Ok? ==> key != DEFAULT_KEY && Only(LoadBallot(w.election, voter), key)
  {
    if key in w.election.proposals {
      assert TallyOk(w.election.ballots, key, w.election.proposals[key]);
    }
  }

  /** An authorized vote always goes through: no tally operation can stop it. */
  lemma CastVoteExactly(w: World, voter: Pubkey, key: Pubkey, action: VoteAction)
    requires Inv(w.ledger) && Tallied(w.election) && Bonded(w.ledger.positions, w.election.ballots)
    ensures CastVote(w, voter, key, action).Ok? <==> VoteAllowed(w, voter, key, action)
  {
    AuthorizeExactly(w, voter, key, action);
    if AuthorizeVote(w, voter, key, action).Ok? {
      MoveContributionTotal(w, voter, key, action.Back?, w.election.config.(outstandingPrincipal := w.ledger.pool.outstanding));
    }
  }

  lemma CastVoteKeeps(w: World, voter: Pubkey, key: Pubkey, action: VoteAction)
    requires Inv(w.ledger) && Tallied(w.election) && Bonded(w.ledger.positions, w.election.ballots)
    requires CastVote(w, voter, key, action).Ok?
    ensures VoteEffect(w, voter, key, action, CastVote(w, voter, key, action).value)
  {
    AuthorizeExactly(w, voter, key, action);
    MoveContributionTotal(w, voter, key, action.Back?, w.election.config.(outstandingPrincipal := w.ledger.pool.outstanding));
    CastVoteMoves(w, voter, key, action, CastVote(w, voter, key, action).value);
  }

  lemma CastVoteMoves(w: World, voter: Pubkey, key: Pubkey, action: VoteAction, e': Election)
    requires Tallied(w.election) && key in w.election.proposals && voter in w.ledger.positions
    requires Only(LoadBallot(w.election, voter), key) && key != DEFAULT_KEY
    requires action.Back? ==> w.ledger.positions[voter].principal > 0
    requires voter in e'.ballots && key in e'.proposals
    requires e'.ballots == w.election.ballots[voter := e'.ballots[voter]]
    requires e'.proposals == w.election.proposals[key := e'.proposals[key]]
    requires RecordAction(LoadBallot(w.election, voter), key, action, w.ledger.positions[voter].principal) == Ok(e'.ballots[voter])
    requires Contributed(w.election.config, w.election.proposals[key], LoadBallot(w.election, voter),
                         Counted(action.Back?, key, w.ledger.positions[voter].principal), e'.config, e'.proposals[key])
    ensures Tallied(e')
  {
    ContributionKeeps(w.election, voter, key, e'.ballots[voter], e');
  }

  /** The lock follows the ballot. */
  lemma VoteKeepsBond(w: World, voter: Pubkey, positions: map<Pubkey, Position>, ballots: map<Pubkey, Ballot>)
    requires Bonded(w.ledger.positions, w.election.ballots)
    requires voter in w.ledger.positions && voter in ballots
    requires ballots == w.election.ballots[voter := ballots[voter]]
    requires positions == w.ledger.positions[voter := w.ledger.positions[voter].(voteLocked := ballots[voter].Live())]
    requires ballots[voter].principal <= w.ledger.positions[voter].principal
    ensures Bonded(positions, ballots)
  {
  }

  lemma VoteKeeps(w: World, voter: Pubkey, key: Pubkey, action: VoteAction)
    requires WorldInv(w)
    ensures Vote(w, voter, key, action).Ok? <==> VoteAllowed(w, voter, key, action)
    ensures Vote(w, voter, key, action).Ok? ==> WorldInv(Vote(w, voter, key, action).value)
  {
    CastVoteExactly(w, voter, key, action);
    if CastVote(w, voter, key, action).Ok? {
      CastVoteKeeps(w, voter, key, action);
      var e := CastVote(w, voter, key, action).value;
      LockKeeps(w.ledger, voter, e.ballots[voter].Live());
      VoteWorldKeeps(w, voter, key, action, e, Vote(w, voter, key, action).value);
    }
  }

  lemma VoteWorldKeeps(w: World, voter: Pubkey, key: Pubkey, action: VoteAction, e: Election, w': World)
    requires WorldInv(w) && VoteEffect(w, voter, key, action, e)
    requires w' == w.(election := e, ledger := w'.ledger) && Inv(w'.ledger)
    requires w'.ledger == w.ledger.(positions :=
               w.ledger.positions[voter := w.ledger.positions[voter].(voteLocked := e.ballots[voter].Live())])
    ensures WorldInv(w')
  {
    VoteEffectFlags(w, voter, key, action, e);
    VoteKeepsBond(w, voter, w'.ledger.positions, e.ballots);
    SameStanding(w.now, w.ledger.pool.schedule, w.election, e, w.dist);
  }

  /** Same schedule, flags, executed bits and snapshots: only tallies and ballots differ. */
  ghost predicate SameFlags(e: Election, e': Election) {
    && e'.config == e.config.(totalVotedPrincipal := e'.config.totalVotedPrincipal,
                              totalCastWeight := e'.config.totalCastWeight,
                              outstandingPrincipal := e'.config.outstandingPrincipal)
    && e'.proposals.Keys == e.proposals.Keys
    && forall k :: k in e.proposals ==>
         e'.proposals[k] == e.proposals[k].(supportWeight := e'.proposals[k].supportWeight,
                                            supportPrincipal := e'.proposals[k].supportPrincipal)
  }

  lemma VoteEffectFlags(w: World, voter: Pubkey, key: Pubkey, action: VoteAction, e: Election)
    requires VoteEffect(w, voter, key, action, e)
    ensures SameFlags(w.election, e)
    ensures e.ballots[voter].principal <= w.ledger.positions[voter].principal
  {
  }

  lemma SameStanding(now: u64, schedule: Schedule, e: Election, e': Election, d: Dist)
    requires OneOutcome(now, schedule, e, d) && SameFlags(e, e') && AllRegistered(d, e.proposals)
    ensures OneOutcome(now, schedule, e', d) && AllRegistered(d, e'.proposals)
  {
    forall k | k in e'.proposals ensures RegisteredOk(d, k, e'.proposals[k]) {
      assert RegisteredOk(d, k, e.proposals[k]);
    }
  }

  /** Ballots and every tally are the same; flags and executed bits may differ. */
  ghost predicate SameTallies(e: Election, e': Election) {
    && e'.ballots == e.ballots
    && e'.config.totalVotedPrincipal == e.config.totalVotedPrincipal
    && e'.config.totalCastWeight == e.config.totalCastWeight
    && e'.proposals.Keys == e.proposals.Keys
    && forall k :: k in e.proposals ==>
         && e'.proposals[k].supportPrincipal == e.proposals[k].supportPrincipal
         && e'.proposals[k].supportWeight == e.proposals[k].supportWeight
  }

  lemma SameTalliesKeep(e: Election, e': Election)
    requires Tallied(e) && SameTallies(e, e')
    ensures Tallied(e')
  {
    assert Supports(e'.proposals) == Supports(e.proposals);
    forall k | k in e'.proposals ensures TallyOk(e'.ballots, k, e'.proposals[k]) {
      assert TallyOk(e.ballots, k, e.proposals[k]);
    }
  }
}
