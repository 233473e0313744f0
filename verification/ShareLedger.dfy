/**
 The insurance share ledger as a state machine on values (subledger/src/lib.rs): the pool and position
 accounts, the share-generation helpers, and the accounting core of `process_insurance_deposit`,
 `process_insurance_withdraw_impl` and `process_set_vote_lock`. A failing instruction is an `Err`: the
 accounts keep their bytes.
 */
module ShareLedger {
  import opened Machine
  import opened Division
  import opened WideArithmetic
  import opened ShareMath
  import opened Percolator
  import opened InsurancePlanner
  import opened InsuranceRouting

  const MAX_TERMINAL_RETURN_SLOT: u64 := 0xFF_FFFF_FFFE
  /** The bounded retries of the mint: `0..=u128::BITS`. */
  const MINT_TRIES: nat := 129

  datatype Schedule = Schedule(depositStart: u64, depositDeadline: u64, depositWindow: u64, bootstrapDelay: u64)

  datatype Pool = Pool(policy: Policy, outstanding: u64, totalShares: u128, generation: Generation, schedule: Schedule)

  datatype Position = Position(
    principal: u64, shares: u128, generation: Generation, withdrawn: bool, withdrawnAmount: u64,
    startSlot: u64, voteLocked: bool, terminalReturned: bool, terminalReturnSlot: Option<u64>)

  /** The pool, the position of every owner, and the market whose insurance the pool operates. */
  datatype Ledger = Ledger(pool: Pool, positions: map<Pubkey, Position>, market: Market)

  // ------------------------------------------------------------------------------------------
  // Share generation helpers
  // ------------------------------------------------------------------------------------------

  function BeginRecapitalization(pool: Pool, pricedBalance: u64): Result<Pool> {
    if pricedBalance != 0 || pool.totalShares == 0 then Ok(pool)
    else if pool.outstanding != 0 then
      var generation :- EncodeGeneration(pool.generation.reset + 1, 0);
      Ok(pool.(generation := generation, totalShares := 0))
    else Ok(pool.(totalShares := 0))
  }

  function Rescale(pool: Pool): Result<Pool> {
    var scaledTotal := Ceil(pool.totalShares, 2);
    if scaledTotal == 0 || scaledTotal == pool.totalShares then Err(ArithmeticOverflow)
    else
      CeilIsLeast(pool.totalShares, 2, pool.totalShares);
      var generation :- EncodeGeneration(pool.generation.reset, pool.generation.scale + 1);
      Ok(pool.(totalShares := scaledTotal, generation := generation))
  }

  datatype Minted = Minted(pool: Pool, shares: u128, virtualShares: u128)

  /** One try: the shares when the total has room for them, `None` when it must be rescaled first. */
  function TryMint(pool: Pool, amount: u64, balance: u64, maximumBasis: u128, rescaled: bool): Result<Option<u128>> {
    var virtualShares := VirtualShares(pool.generation.scale);
    if pool.totalShares + virtualShares > U128_MAX || pool.totalShares + virtualShares > maximumBasis then Ok(None)
    else
      var shares :- (
        if rescaled then
          match MulDivCeil(amount, pool.totalShares + virtualShares, balance + 1)
          case Some(shares) => Ok(shares)
          case None => Err(ArithmeticOverflow)
        else MintShares(amount, pool.totalShares, balance, virtualShares));
      if pool.totalShares + shares + virtualShares <= U128_MAX then Ok(Some(shares)) else Ok(None)
  }

  function MintLoop(pool: Pool, amount: u64, balance: u64, maximumBasis: u128, rescaled: bool, tries: nat): Result<Minted>
    decreases tries
  {
    if tries == 0 then Err(ArithmeticOverflow)
    else
      var attempt :- TryMint(pool, amount, balance, maximumBasis, rescaled);
      match attempt
      case Some(shares) => Ok(Minted(pool, shares, VirtualShares(pool.generation.scale)))
      case None =>
        var scaled :- Rescale(pool);
        MintLoop(scaled, amount, balance, maximumBasis, true, tries - 1)
  }

  function MintWithCapacity(pool: Pool, amount: u64, balance: u64): Result<Minted> {
    match MulDivFloor(U128_MAX, balance + 1, balance + 1 + amount)
    case None => Err(ArithmeticOverflow)
    case Some(maximumBasis) => MintLoop(pool, amount, balance, maximumBasis, false, MINT_TRIES)
  }

  /** The position caught up with the pool's generation, and whether its shares were still current. */
  function MoveToCurrentGeneration(position: Position, pool: Pool): Result<(Position, bool)> {
    var (held, current) := (position.generation, pool.generation);
    if held.reset > current.reset || (held.reset == current.reset && held.scale > current.scale) then
      Err(InvalidAccountData)
    else if held.reset < current.reset then
      Ok((position.(shares := 0, generation := current), false))
    else
      Ok((position.(shares := ShiftRight(position.shares, current.scale - held.scale), generation := current), true))
  }

  // ------------------------------------------------------------------------------------------
  // Deposit
  // ------------------------------------------------------------------------------------------

  function PricedBalance(pool: Pool, insurance: u64): u64 {
    match pool.policy
    case Principal => Min(insurance, pool.outstanding)
    case WithSurplus => insurance
  }

  function ReadInsurance(balance: AssetBalance): u64 {
    Min(balance.remaining, U64_MAX)
  }

  function OpenPosition(positions: map<Pubkey, Position>, owner: Pubkey, pool: Pool): Result<Position> {
    if owner !in positions then
      Ok(Position(0, 0, pool.generation, false, 0, 0, false, false, None))
    else if positions[owner].withdrawn then Err(InvalidAccountData)
    else Ok(positions[owner])
  }

  /** The mint of a deposit: recapitalize, mint with capacity, and accept only a fair entry price. */
  function MintForDeposit(pool: Pool, amount: u64, pricedBalance: u64): Result<Minted> {
    var recapitalized :- BeginRecapitalization(pool, pricedBalance);
    var minted :- MintWithCapacity(recapitalized, amount, pricedBalance);
    var _ :- RequireBoundedShareRounding(amount, minted.shares, minted.pool.totalShares, pricedBalance, minted.virtualShares);
    Ok(minted)
  }

  /** Everything after the mint: open and catch up the position, top up the domains, credit both accounts. */
  function CreditDeposit(l: Ledger, balance: AssetBalance, minted: Minted, owner: Pubkey, amount: u64, now: u64): Result<Ledger> {
    var _ :- Require(l.pool.outstanding + amount <= U64_MAX, ArithmeticOverflow);
    var found :- OpenPosition(l.positions, owner, minted.pool);
    var moved :- MoveToCurrentGeneration(found, minted.pool);
    var position := moved.0;
    var market :- TopUpInsuranceDomains(l.market, DepositDelta(Remaining(balance), amount));
    var _ :- Require(position.principal + amount <= U64_MAX, ArithmeticOverflow);
    var _ :- Require(minted.pool.totalShares + minted.shares <= U128_MAX, ArithmeticOverflow);
    var _ :- Require(position.shares + minted.shares <= U128_MAX, ArithmeticOverflow);
    Ok(Ledger(
      minted.pool.(outstanding := l.pool.outstanding + amount,
                   totalShares := minted.pool.totalShares + minted.shares),
      l.positions[owner := position.(principal := position.principal + amount,
                                     shares := position.shares + minted.shares,
                                     startSlot := now)],
      market))
  }

  function Deposit(l: Ledger, owner: Pubkey, amount: u64, now: u64): Result<Ledger> {
    if amount == 0 || now < l.pool.schedule.depositStart || now >= l.pool.schedule.depositDeadline then
      Err(InvalidInstructionData)
    else
      var balance :- ReadBalance(l.market);
      var minted :- MintForDeposit(l.pool, amount, PricedBalance(l.pool, ReadInsurance(balance)));
      CreditDeposit(l, balance, minted, owner, amount, now)
  }

  // ------------------------------------------------------------------------------------------
  // Exit
  // ------------------------------------------------------------------------------------------

  /** What an exit of `amount` retires, pays and burns. */
  datatype Quote = Quote(position: Position, current: bool, retired: u128, owed: u64, burned: u128, pricedAfter: u64)

  function SharesToRetire(position: Position, current: bool, amount: u64): Result<u128>
  {
    if position.principal == 0 || !current then Ok(0)
    else if amount == position.principal then Ok(position.shares)
    else match MulDivFloor(position.shares, amount, position.principal)
      case Some(retired) => Ok(retired)
      case None => Err(ArithmeticOverflow)
  }

  function Owed(pool: Pool, position: Position, current: bool, retired: u128, amount: u64, pricedBalance: u64): Result<u64> {
    if !current then Ok(0)
    else match pool.policy
      case WithSurplus =>
        RedeemShares(retired, pricedBalance, pool.totalShares, VirtualShares(pool.generation.scale))
      case Principal =>
        if position.shares == 0 then Ok(0)
        else if pool.totalShares == 0 then Err(InvalidAccountData)
        else
          var redeemed :- RedeemShares(retired, pricedBalance, pool.totalShares, VirtualShares(pool.generation.scale));
          Ok(Min(amount, redeemed))
  }

  /** The priced balance once `owed` has left the insurance and `amount` the outstanding principal. */
  function PricedAfter(pool: Pool, amount: u64, insurance: u64, owed: u64): u64
    requires owed <= insurance && amount <= pool.outstanding
  {
    PricedBalance(pool.(outstanding := pool.outstanding - amount), insurance - owed)
  }

  function QuoteExit(pool: Pool, position: Position, amount: u64, market: Market, insurance: u64): Result<Quote>
    requires amount <= pool.outstanding
  {
    var pricedBalance := PricedBalance(pool, insurance);
    var (moved, current) :- MoveToCurrentGeneration(position, pool);
    var retired :- SharesToRetire(moved, current, amount);
    var owed :- Owed(pool, moved, current, retired, amount, pricedBalance);
    if owed > 0 && market.phase.Live? && market.exposed then Err(InvalidAccountData)
    else if owed > insurance then Err(InvalidAccountData)
    else
      var pricedAfter := PricedAfter(pool, amount, insurance, owed);
      var burned :- (
        if retired == 0 then Ok(0)
        else RateSafeBurn(retired, pricedBalance, pricedAfter, pool.totalShares, VirtualShares(pool.generation.scale)));
      Ok(Quote(moved, current, retired, owed, burned, pricedAfter))
  }

  /** The calls of a live exit: one asset-wide withdrawal, then the compensating top-ups. */
  function ExecutePlan(market: Market, plan: Plan): Result<Market> {
    var _ :- Require(plan.gross <= U64_MAX, ArithmeticOverflow);
    var drained :- WithdrawInsuranceAsset(market, plan.gross);
    TopUpInsuranceDomains(drained, plan.redeposit)
  }

  /** The token movement of an exit: nothing for a zero payout, a planned withdrawal while live. */
  function PayExit(market: Market, balance: AssetBalance, owed: u64, amount: u64): Result<Market> {
    if owed == 0 then Ok(market)
    else if market.phase.Live? then
      var plan :- WithdrawalPlan(balance, owed, WithdrawDelta(Remaining(balance), Min(owed, amount)));
      ExecutePlan(market, plan)
    else WithdrawInsuranceAsset(market, owed)
  }

  function PoolAfterExit(pool: Pool, amount: u64, quote: Quote): Result<Pool>
    requires amount <= pool.outstanding
  {
    var outstandingAfter := pool.outstanding - amount;
    var totalShares :- TotalSharesAfterExit(pool.policy, outstandingAfter, quote.pricedAfter, pool.totalShares, quote.burned);
    var generation := if outstandingAfter == 0 then Generation(pool.generation.reset, 0) else pool.generation;
    Ok(pool.(outstanding := outstandingAfter, totalShares := totalShares, generation := generation))
  }

  function PositionAfterExit(quote: Quote, amount: u64, terminal: bool, now: u64): Result<Position>
    requires amount <= quote.position.principal
  {
    var left := quote.position.principal - amount;
    var _ :- Require(!quote.current || quote.retired <= quote.position.shares, InvalidAccountData);
    var shares :=
      if quote.current then quote.position.shares - quote.retired
      else if left == 0 then 0 else quote.position.shares;
    var withdrawnAmount := if terminal then amount else Min(quote.position.withdrawnAmount + quote.owed, U64_MAX);
    var retired := quote.position.(principal := left, shares := shares, withdrawnAmount := withdrawnAmount);
    if left > 0 then Ok(retired)
    else if terminal then
      Ok(retired.(withdrawn := true, voteLocked := false, terminalReturned := true,
                  terminalReturnSlot := Some(Min(now, MAX_TERMINAL_RETURN_SLOT))))
    else Ok(retired.(withdrawn := true))
  }

  /** An exit of `request` atoms of principal, or the terminal return of the whole position. */
  function Exit(l: Ledger, owner: Pubkey, request: Option<u64>, now: u64): Result<(Ledger, u64)> {
    if request == Some(0) then Err(InvalidInstructionData)
    else if owner !in l.positions then Err(IllegalOwner)
    else
      var position := l.positions[owner];
      var terminal := request.None?;
      if position.withdrawn || (terminal && !l.market.phase.ResolvedEmpty?) || (!terminal && position.voteLocked) then Err(InvalidAccountData)
      else
        var amount := if terminal then position.principal else request.value;
        if amount == 0 then Err(InvalidInstructionData)
        else if amount > position.principal || amount > l.pool.outstanding then Err(InsufficientFunds)
        else
          var balance :- ReadBalance(l.market);
          var quote :- QuoteExit(l.pool, position, amount, l.market, ReadInsurance(balance));
          var market :- PayExit(l.market, balance, quote.owed, amount);
          var position' :- PositionAfterExit(quote, amount, terminal, now);
          var pool :- PoolAfterExit(l.pool, amount, quote);
          Ok((Ledger(pool, l.positions[owner := position'], market), quote.owed))
  }

  /** Only the genesis vote, acting for the owner, sets or clears the lock. */
  function SetVoteLock(l: Ledger, owner: Pubkey, locked: bool): Result<Ledger> {
    if owner !in l.positions then Err(IllegalOwner)
    else Ok(l.(positions := l.positions[owner := l.positions[owner].(voteLocked := locked)]))
  }

  // ------------------------------------------------------------------------------------------
  // Runs
  // ------------------------------------------------------------------------------------------

  /** One instruction, or an arbitrary change of the market: loss, donation, reservation, resolution. */
  datatype Step =
    | DepositStep(owner: Pubkey, amount: u64, now: u64)
    | ExitStep(owner: Pubkey, request: Option<u64>, now: u64)
    | LockStep(owner: Pubkey, locked: bool)
    | MarketStep(market: Market)

  function Apply(l: Ledger, step: Step): Ledger {
    match step
    case DepositStep(owner, amount, now) =>
      (match Deposit(l, owner, amount, now) case Ok(l') => l' case Err(_) => l)
    case ExitStep(owner, request, now) =>
      (match Exit(l, owner, request, now) case Ok(r) => r.0 case Err(_) => l)
    case LockStep(owner, locked) =>
      (match SetVoteLock(l, owner, locked) case Ok(l') => l' case Err(_) => l)
    case MarketStep(market) => l.(market := market)
  }

  function Run(l: Ledger, steps: seq<Step>): Ledger
    decreases |steps|
  {
    if steps == [] then l else Run(Apply(l, steps[0]), steps[1..])
  }

  function FreshLedger(policy: Policy, schedule: Schedule, market: Market): Ledger {
    Ledger(Pool(policy, 0, 0, Generation(0, 0), schedule), map[], market)
  }
}
