/**
 The genesis election (genesis-vote/src/lib.rs) over the insurance ledger it locks and the distribution
 it seals: ballots, proposal tallies, the quorum and majority test, and the terminal retirement of an
 absent owner's ballot. One world state holds the accounts of the three programs; an instruction that
 calls into another program commits in both or in neither.
 */
module GenesisVote {
  import opened Machine
  import opened Percolator
  import opened ShareLedger
  import opened Distribution

  /** `proposal` is the default key when no ballot is live. */
  datatype Ballot = Ballot(proposal: Pubkey, weight: u128, principal: u64, nonce: u64) {
    predicate Live() {
      proposal != DEFAULT_KEY
    }
  }

  datatype ProposalVote = ProposalVote(
    supportWeight: u128, supportPrincipal: u64, executed: bool, snapshotEntryCount: u32, snapshotTotalAmount: u64)

  datatype Config = Config(
    totalVotedPrincipal: u64, totalCastWeight: u128, outstandingPrincipal: u64,
    bootstrapEnd: u64, bootstrapDelay: u64, bootstrapStart: u64,
    distributionExecuted: bool, terminalRefundsStarted: bool)

  /** Proposal tallies are keyed by the distribution proposal they stand for. */
  datatype Election = Election(config: Config, ballots: map<Pubkey, Ballot>, proposals: map<Pubkey, ProposalVote>)

  datatype World = World(now: u64, ledger: Ledger, election: Election, dist: Dist)

  /** A back commits to the ballot nonce and the exact live principal; an old retract carries no nonce. */
  datatype VoteAction = Back(nonce: u64, expectedPrincipal: u64) | Retract(seenNonce: Option<u64>)

  function ActionNonce(action: VoteAction): Option<u64> {
    match action
    case Back(nonce, _) => Some(nonce)
    case Retract(nonce) => nonce
  }

  function TerminalRefundStart(schedule: Schedule, config: Config): Result<u64> {
    if schedule.depositWindow == 0
      || schedule.depositWindow > schedule.bootstrapDelay
      || schedule.depositStart != config.bootstrapStart
      || schedule.bootstrapDelay != config.bootstrapDelay then Err(InvalidAccountData)
    else if schedule.depositStart + schedule.depositWindow > U64_MAX then Err(ArithmeticOverflow)
    else if schedule.depositStart + schedule.depositWindow != schedule.depositDeadline then Err(InvalidAccountData)
    else if schedule.depositStart + schedule.bootstrapDelay > U64_MAX then Err(ArithmeticOverflow)
    else if schedule.depositStart + schedule.bootstrapDelay != config.bootstrapEnd then Err(InvalidAccountData)
    else if config.bootstrapEnd + schedule.depositWindow > U64_MAX then Err(ArithmeticOverflow)
    else Ok(config.bootstrapEnd + schedule.depositWindow)
  }

  /** Only the creator registers, and only a full proposal that allocates the whole supply. */
  function RegisterProposal(w: World, payer: Pubkey, key: Pubkey): Result<World> {
    if key !in w.dist.proposals then Err(IllegalOwner)
    else
      var p := w.dist.proposals[key];
      if p.creator != payer then Err(IllegalOwner)
      else if |p.entries| == 0 || |p.entries| != p.capacity || p.totalAmount != w.dist.config.totalSupply then
        Err(InvalidAccountData)
      else if key in w.election.proposals then Err(AccountAlreadyInitialized)
      else
        Ok(w.(election := w.election.(proposals :=
          w.election.proposals[key := ProposalVote(0, 0, false, |p.entries|, p.totalAmount)])))
  }

  /** Take a live ballot's contribution out of its proposal and of the global tallies. */
  function BackOut(config: Config, pv: ProposalVote, ballot: Ballot): Result<(Config, ProposalVote)> {
    if ballot.weight > pv.supportWeight || ballot.principal > pv.supportPrincipal
      || ballot.weight > config.totalCastWeight || ballot.principal > config.totalVotedPrincipal then
      Err(InvalidAccountData)
    else
      Ok((config.(totalCastWeight := config.totalCastWeight - ballot.weight,
                  totalVotedPrincipal := config.totalVotedPrincipal - ballot.principal),
          pv.(supportWeight := pv.supportWeight - ballot.weight,
              supportPrincipal := pv.supportPrincipal - ballot.principal)))
  }

  /** Add one vote per atom of live principal. */
  function AddSupport(config: Config, pv: ProposalVote, principal: u64): Result<(Config, ProposalVote)> {
    if pv.supportWeight + principal > U128_MAX || pv.supportPrincipal + principal > U64_MAX
      || config.totalCastWeight + principal > U128_MAX || config.totalVotedPrincipal + principal > U64_MAX then
      Err(ArithmeticOverflow)
    else
      Ok((config.(totalCastWeight := config.totalCastWeight + principal,
                  totalVotedPrincipal := config.totalVotedPrincipal + principal),
          pv.(supportWeight := pv.supportWeight + principal, supportPrincipal := pv.supportPrincipal + principal)))
  }

  function LoadBallot(e: Election, voter: Pubkey): Ballot {
    if voter in e.ballots then e.ballots[voter] else Ballot(DEFAULT_KEY, 0, 0, 0)
  }

  /** The ballot after the action. */
  function RecordAction(ballot: Ballot, key: Pubkey, action: VoteAction, principal: u64): Result<Ballot> {
    if action.Retract? then
      if ballot.nonce + 1 > U64_MAX then Err(ArithmeticOverflow)
      else Ok(Ballot(DEFAULT_KEY, 0, 0, ballot.nonce + 1))
    else
      var nonce := if ballot.Live() then ballot.nonce + 1 else ballot.nonce;
      if nonce > U64_MAX then Err(ArithmeticOverflow)
      else Ok(Ballot(key, principal, principal, nonce))
  }

  /** The checks of a vote: phase, live principal, one proposal per voter, and the ballot nonce. */
  function AuthorizeVote(w: World, voter: Pubkey, key: Pubkey, action: VoteAction): Result<()> {
    var e := w.election;
    if key !in e.proposals then Err(IllegalOwner)
    else if action.Back? && e.proposals[key].executed then Err(InvalidAccountData)
    else if action.Back? && w.now >= e.config.bootstrapEnd then Err(InvalidInstructionData)
    else if voter !in w.ledger.positions then Err(IllegalOwner)
    else
      var ballot := LoadBallot(e, voter);
      if action.Back? && action.expectedPrincipal != w.ledger.positions[voter].principal then Err(InvalidInstructionData)
      else if action.Retract? && voter !in e.ballots then Err(InvalidInstructionData)
      else if ballot.Live() && ballot.proposal != key then Err(InvalidInstructionData)
      else if ActionNonce(action) != Some(ballot.nonce) && !(ActionNonce(action) == None && ballot.nonce == 0) then
        Err(InvalidInstructionData)
      else Require(action.Back? || ballot.Live(), InvalidInstructionData)
  }

  /** Move the voter's contribution: out of the tallies if live, and back in for a back. */
  function MoveContribution(config: Config, pv: ProposalVote, ballot: Ballot, back: bool, principal: u64)
    : Result<(Config, ProposalVote)>
  {
    var cleared :- (if ballot.Live() then BackOut(config, pv, ballot) else Ok((config, pv)));
    if !back then Ok(cleared)
    else if principal == 0 then Err(InvalidAccountData)
    else AddSupport(cleared.0, cleared.1, principal)
  }

  /** The election's part of a vote: the caller's principal is read from the ledger. */
  function CastVote(w: World, voter: Pubkey, key: Pubkey, action: VoteAction): Result<Election> {
    var _ :- AuthorizeVote(w, voter, key, action);
    var e := w.election;
    var principal := w.ledger.positions[voter].principal;
    var ballot := LoadBallot(e, voter);
    var config := e.config.(outstandingPrincipal := w.ledger.pool.outstanding);
    var moved :- MoveContribution(config, e.proposals[key], ballot, action.Back?, principal);
    var ballot' :- RecordAction(ballot, key, action, principal);
    Ok(Election(moved.0, e.ballots[voter := ballot'], e.proposals[key := moved.1]))
  }

  /** A vote, with the lock of the voter's position set to whether a ballot is live. */
  function Vote(w: World, voter: Pubkey, key: Pubkey, action: VoteAction): Result<World> {
    var e :- CastVote(w, voter, key, action);
    var ledger :- SetVoteLock(w.ledger, voter, e.ballots[voter].Live());
    Ok(w.(election := e, ledger := ledger))
  }

  /** More than half of the live outstanding principal voted, and more than half of that for `pv`. */
  predicate Wins(config: Config, pv: ProposalVote, liveOutstanding: u64) {
    && config.totalVotedPrincipal * 2 > liveOutstanding
    && pv.supportPrincipal * 2 > config.totalVotedPrincipal
  }

  /** Seal the winner; anyone may call it during the trigger phase. */
  function Trigger(w: World, key: Pubkey): Result<World> {
    var e := w.election;
    if key !in e.proposals then Err(IllegalOwner)
    else
      var pv := e.proposals[key];
      if pv.executed || e.config.distributionExecuted || e.config.terminalRefundsStarted then Err(InvalidAccountData)
      else if w.now < e.config.bootstrapEnd then Err(InvalidInstructionData)
      else if key !in w.dist.proposals
           || |w.dist.proposals[key].entries| != pv.snapshotEntryCount
           || w.dist.proposals[key].totalAmount != pv.snapshotTotalAmount then Err(InvalidAccountData)
      else
        var refundStart :- TerminalRefundStart(w.ledger.pool.schedule, e.config);
        var _ :- Require(w.now < refundStart, InvalidInstructionData);
        var _ :- Require(Wins(e.config, pv, w.ledger.pool.outstanding), InvalidInstructionData);
        var dist :- SealWinner(w.dist, key, w.now);
        Ok(w.(dist := dist,
              election := e.(config := e.config.(distributionExecuted := true),
                             proposals := e.proposals[key := pv.(executed := true)])))
  }

  /** The flags after the terminal call: an executed proposal is evidence, otherwise refunds open. */
  function TerminalFlags(config: Config, backedExecuted: bool, now: u64, refundStart: u64): Result<Config> {
    var config' := if backedExecuted then config.(terminalRefundsStarted := false, distributionExecuted := true) else config;
    if config'.distributionExecuted then Ok(config')
    else if now < refundStart then Err(InvalidInstructionData)
    else Ok(config'.(terminalRefundsStarted := true))
  }

  /** Called by the pool while it returns an absent owner's whole position. */
  function RetireTerminalBallot(w: World, owner: Pubkey): Result<Election> {
    var e := w.election;
    if w.now < e.config.bootstrapEnd then Err(InvalidInstructionData)
    else
      var refundStart :- TerminalRefundStart(w.ledger.pool.schedule, e.config);
      var ballot := LoadBallot(e, owner);
      if ballot.Live() && ballot.proposal !in e.proposals then Err(InvalidAccountData)
      else
        var config :- TerminalFlags(e.config, ballot.Live() && e.proposals[ballot.proposal].executed, w.now, refundStart);
        if !ballot.Live() then Ok(e.(config := config))
        else
          var (config', pv) :- BackOut(config, e.proposals[ballot.proposal], ballot);
          Ok(Election(config', e.ballots[owner := Ballot(DEFAULT_KEY, 0, 0, ballot.nonce)],
                      e.proposals[ballot.proposal := pv]))
  }

  /** The terminal return: the ballot is retired and the position paid out in one transaction. */
  function TerminalReturn(w: World, owner: Pubkey): Result<(World, u64)> {
    var election :- RetireTerminalBallot(w, owner);
    var (ledger, owed) :- Exit(w.ledger, owner, None, w.now);
    Ok((w.(election := election, ledger := ledger), owed))
  }

  // ------------------------------------------------------------------------------------------
  // Runs
  // ------------------------------------------------------------------------------------------

  datatype Action =
    | Tick(slots: nat)
    | MarketChange(market: Market)
    | DoDeposit(owner: Pubkey, amount: u64)
    | DoExit(owner: Pubkey, amount: u64)
    | DoTerminalReturn(owner: Pubkey)
    | DoCreate(key: Pubkey, creator: Pubkey, capacity: u32)
    | DoAppend(key: Pubkey, creator: Pubkey, batch: seq<Entry>)
    | DoRegister(payer: Pubkey, key: Pubkey)
    | DoVote(voter: Pubkey, key: Pubkey, action: VoteAction)
    | DoTrigger(key: Pubkey)
    | DoClaim(key: Pubkey, recipient: Pubkey, index: u32)
    | DoBurn
    | DoDonate(amount: u64)

  function Perform(w: World, step: Action): Result<World> {
    match step
    case Tick(slots) => Ok(w.(now := Min(w.now + slots, U64_MAX)))
    case MarketChange(market) => Ok(w.(ledger := w.ledger.(market := market)))
    case DoDeposit(owner, amount) =>
      var ledger :- Deposit(w.ledger, owner, amount, w.now);
      Ok(w.(ledger := ledger))
    case DoExit(owner, amount) =>
      var r :- Exit(w.ledger, owner, Some(amount), w.now);
      Ok(w.(ledger := r.0))
    case DoTerminalReturn(owner) =>
      var r :- TerminalReturn(w, owner);
      Ok(r.0)
    case DoCreate(key, creator, capacity) =>
      var dist :- CreateProposal(w.dist, key, creator, capacity);
      Ok(w.(dist := dist))
    case DoAppend(key, creator, batch) =>
      var dist :- AppendEntries(w.dist, key, creator, batch);
      Ok(w.(dist := dist))
    case DoRegister(payer, key) => RegisterProposal(w, payer, key)
    case DoVote(voter, key, action) => Vote(w, voter, key, action)
    case DoTrigger(key) => Trigger(w, key)
    case DoClaim(key, recipient, index) =>
      var r :- Claim(w.dist, key, recipient, index, w.now);
      Ok(w.(dist := r.0))
    case DoBurn =>
      var dist :- BurnUnclaimed(w.dist, w.now);
      Ok(w.(dist := dist))
    case DoDonate(amount) =>
      var dist :- DonateCoin(w.dist, amount);
      Ok(w.(dist := dist))
  }

  function After(w: World, step: Action): World {
    match Perform(w, step)
    case Ok(w') => w'
    case Err(_) => w
  }

  function RunWorld(w: World, steps: seq<Action>): World
    decreases |steps|
  {
    if steps == [] then w else RunWorld(After(w, steps[0]), steps[1..])
  }
}
