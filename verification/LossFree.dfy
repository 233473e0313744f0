/**
 Loss-free runs: while a pool prices exactly its outstanding principal the share machine is a plain
 ledger at 10^6 shares per atom, every exit is paid at par, and with no reservation in the way the two
 domains stay at the canonical split of what is deposited. A PRINCIPAL pool is in that state whenever the
 insurance covers the principal; a WITH_SURPLUS pool when the insurance is exactly the principal.
 */
module LossFree {
  import opened Machine
  import opened Division
  import opened MapSum
  import opened WideArithmetic
  import opened ShareMath
  import opened Percolator
  import opened InsurancePlanner
  import opened InsuranceRouting
  import opened ShareLedger
  import opened ShareSolvency
  import opened MintCapacity
  import opened ShareExits

  const GENESIS: Generation := Generation(0, 0)

  /** Every account holds exactly 10^6 shares per atom of principal, and nothing was ever rescaled. */
  ghost predicate AtPar(l: Ledger) {
    && Inv(l)
    && l.pool.generation == GENESIS
    && l.pool.totalShares == VIRTUAL_SHARES * l.pool.outstanding
    && PositionsAtPar(l.positions)
  }

  ghost predicate PositionsAtPar(positions: map<Pubkey, Position>) {
    forall o :: o in positions && !positions[o].withdrawn ==>
      positions[o].generation == GENESIS && positions[o].shares == VIRTUAL_SHARES * positions[o].principal
  }

  /** The pool is priced at exactly its outstanding principal. */
  predicate Unimpaired(l: Ledger) {
    ReadBalance(l.market).Ok? && PricedBalance(l.pool, ReadInsurance(ReadBalance(l.market).value)) == l.pool.outstanding
  }

  /** For a PRINCIPAL pool that means no more than cover. */
  lemma UnimpairedIsCovered(l: Ledger)
    requires ReadBalance(l.market).Ok?
    ensures var insurance := ReadInsurance(ReadBalance(l.market).value);
            Unimpaired(l) <==> (match l.pool.policy
                                case Principal => insurance >= l.pool.outstanding
                                case WithSurplus => insurance == l.pool.outstanding)
  {
  }

  lemma ParVirtualShares()
    ensures VirtualShares(0) == VIRTUAL_SHARES
  {
    CeilIsLeast(VIRTUAL_SHARES, 1, VIRTUAL_SHARES);
    CeilIsLeast(VIRTUAL_SHARES, 1, VIRTUAL_SHARES - 1);
  }

  /** A par share count priced at par is worth exactly its atoms. */
  lemma ParValue(atoms: nat, balance: nat)
    ensures VIRTUAL_SHARES * atoms * (balance + 1) / (VIRTUAL_SHARES * balance + VIRTUAL_SHARES) == atoms
  {
    var d := VIRTUAL_SHARES * balance + VIRTUAL_SHARES;
    assert VIRTUAL_SHARES * atoms * (balance + 1) == atoms * d;
    DivUnique(atoms * d, d, atoms);
  }

  lemma ParFits(outstanding: u64, amount: u64)
    ensures Fits(VIRTUAL_SHARES * outstanding, 0, amount, outstanding)
  {
    ParVirtualShares();
    var n := outstanding + 1;
    MulMonotone(VIRTUAL_SHARES * (n + amount), U128_MAX, n);
    assert VIRTUAL_SHARES * (n + amount) * n == (VIRTUAL_SHARES * outstanding + VIRTUAL_SHARES) * (n + amount);
  }

  lemma ParShares(outstanding: u64, amount: u64)
    ensures MintRounded(VIRTUAL_SHARES * outstanding + VIRTUAL_SHARES, amount, outstanding, false) == VIRTUAL_SHARES * amount
  {
    var n := outstanding + 1;
    assert amount * (VIRTUAL_SHARES * outstanding + VIRTUAL_SHARES) == VIRTUAL_SHARES * amount * n;
    DivUnique(VIRTUAL_SHARES * amount * n, n, VIRTUAL_SHARES * amount);
  }

  lemma ParEntry(pool: Pool, amount: u64)
    requires pool.generation == GENESIS && pool.totalShares == VIRTUAL_SHARES * pool.outstanding && amount > 0
    ensures MintForDeposit(pool, amount, pool.outstanding)
         == if pool.outstanding + amount > U64_MAX then Err(ArithmeticOverflow)
            else Ok(Minted(pool, VIRTUAL_SHARES * amount, VIRTUAL_SHARES))
  {
    ParVirtualShares();
    ParFits(pool.outstanding, amount);
    ParShares(pool.outstanding, amount);
    FittingMintNeedsNoRescale(pool, amount, pool.outstanding, VIRTUAL_SHARES * amount);
    ParRounding(pool.outstanding, amount);
  }

  lemma ParRounding(outstanding: u64, amount: u64)
    requires amount > 0
    ensures RequireBoundedShareRounding(amount, VIRTUAL_SHARES * amount, VIRTUAL_SHARES * outstanding, outstanding, VIRTUAL_SHARES)
         == if outstanding + amount > U64_MAX then Err(ArithmeticOverflow) else Ok(())
  {
    if outstanding + amount <= U64_MAX {
      ParValue(amount, outstanding + amount);
      RedeemTotal(VIRTUAL_SHARES * amount, outstanding + amount, VIRTUAL_SHARES * outstanding + VIRTUAL_SHARES * amount,
                  VIRTUAL_SHARES);
    }
  }

  // ------------------------------------------------------------------------------------------
  // Deposits at par
  // ------------------------------------------------------------------------------------------

  /** Everything a caller must check before depositing into a loss-free pool. */
  predicate DepositAllowed(l: Ledger, owner: Pubkey, amount: u64, now: u64)
    requires ReadBalance(l.market).Ok?
  {
    && amount > 0
    && l.pool.schedule.depositStart <= now < l.pool.schedule.depositDeadline
    && l.pool.outstanding + amount <= U64_MAX
    && (owner in l.positions ==> !l.positions[owner].withdrawn)
    && TopUpInsuranceDomains(l.market, DepositDelta(Remaining(ReadBalance(l.market).value), amount)).Ok?
  }

  lemma ParDeposit(l: Ledger, owner: Pubkey, amount: u64, now: u64)
    requires AtPar(l) && Unimpaired(l)
    ensures Deposit(l, owner, amount, now).Ok? <==> DepositAllowed(l, owner, amount, now)
    ensures Deposit(l, owner, amount, now).Ok? ==> ParDeposited(l, owner, amount, Deposit(l, owner, amount, now).value)
  {
    if amount > 0 {
      ParEntry(l.pool, amount);
      var balance := ReadBalance(l.market).value;
      if l.pool.outstanding + amount <= U64_MAX {
        ParCredit(l, balance, Minted(l.pool, VIRTUAL_SHARES * amount, VIRTUAL_SHARES), owner, amount, now);
      }
    }
  }

  /** The effect of a deposit on a plain ledger, and nothing else. */
  ghost predicate ParDeposited(l: Ledger, owner: Pubkey, amount: u64, l': Ledger)
    requires ReadBalance(l.market).Ok?
  {
    && AtPar(l')
    && l'.pool == l.pool.(outstanding := l'.pool.outstanding, totalShares := l'.pool.totalShares)
    && l'.pool.outstanding == l.pool.outstanding + amount
    && Principals(l'.positions)
    == Principals(l.positions)[owner := (if owner in l.positions then l.positions[owner].principal else 0) + amount]
    && Ok(l'.market) == TopUpInsuranceDomains(l.market, DepositDelta(Remaining(ReadBalance(l.market).value), amount))
  }

  lemma ParMove(position: Position, pool: Pool)
    requires position.generation == pool.generation
    ensures MoveToCurrentGeneration(position, pool) == Ok((position, true))
  {
    LazyShiftIsEagerHalving(position.shares, 0);
  }

  /** The account a deposit finds: the owner's, or a new empty one at the pool's generation. */
  function AccountOf(l: Ledger, owner: Pubkey): Position {
    if owner in l.positions then l.positions[owner]
    else Position(0, 0, l.pool.generation, false, 0, 0, false, false, None)
  }

  lemma ParCreditResult(l: Ledger, balance: AssetBalance, minted: Minted, owner: Pubkey, amount: u64, now: u64)
    requires AtPar(l) && amount > 0 && l.pool.outstanding + amount <= U64_MAX
    requires minted == Minted(l.pool, VIRTUAL_SHARES * amount, VIRTUAL_SHARES)
    ensures var p := AccountOf(l, owner);
            var market := TopUpInsuranceDomains(l.market, DepositDelta(Remaining(balance), amount));
            if p.withdrawn || market.Err? then CreditDeposit(l, balance, minted, owner, amount, now).Err?
            else
              && p.principal <= l.pool.outstanding
              && p.shares == VIRTUAL_SHARES * p.principal
              && CreditDeposit(l, balance, minted, owner, amount, now)
              == Ok(Ledger(l.pool.(outstanding := l.pool.outstanding + amount,
                                   totalShares := VIRTUAL_SHARES * (l.pool.outstanding + amount)),
                           l.positions[owner := p.(principal := p.principal + amount,
                                                   shares := VIRTUAL_SHARES * (p.principal + amount), startSlot := now)],
                           market.value))
  {
    if !AccountOf(l, owner).withdrawn {
      ParMove(AccountOf(l, owner), l.pool);
    }
    if owner in l.positions {
      PartOfTotals(l.pool, l.positions, owner);
    }
  }

  /** Writing a par position keeps every position at par. */
  lemma ParWritten(positions: map<Pubkey, Position>, owner: Pubkey, p: Position)
    requires PositionsAtPar(positions)
    requires p.generation == GENESIS && p.shares == VIRTUAL_SHARES * p.principal
    ensures PositionsAtPar(positions[owner := p])
    ensures Principals(positions[owner := p]) == Principals(positions)[owner := p.principal]
  {
    assert Principals(positions[owner := p]) == Principals(positions)[owner := p.principal];
  }

  lemma ParMintReady(l: Ledger, amount: u64)
    requires AtPar(l) && l.pool.outstanding + amount <= U64_MAX
    ensures MintReady(l.pool, l.positions, Minted(l.pool, VIRTUAL_SHARES * amount, VIRTUAL_SHARES))
  {
    ParVirtualShares();
  }

  lemma ParCredit(l: Ledger, balance: AssetBalance, minted: Minted, owner: Pubkey, amount: u64, now: u64)
    requires AtPar(l) && ReadBalance(l.market) == Ok(balance)
    requires amount > 0 && l.pool.outstanding + amount <= U64_MAX
    requires minted == Minted(l.pool, VIRTUAL_SHARES * amount, VIRTUAL_SHARES)
    ensures CreditDeposit(l, balance, minted, owner, amount, now).Ok?
       <==> (&& (owner in l.positions ==> !l.positions[owner].withdrawn)
             && TopUpInsuranceDomains(l.market, DepositDelta(Remaining(balance), amount)).Ok?)
    ensures CreditDeposit(l, balance, minted, owner, amount, now).Ok? ==>
              ParDeposited(l, owner, amount, CreditDeposit(l, balance, minted, owner, amount, now).value)
  {
    ParCreditResult(l, balance, minted, owner, amount, now);
    match CreditDeposit(l, balance, minted, owner, amount, now) {
      case Ok(l') =>
        ParMintReady(l, amount);
        CreditDepositKeeps(l, balance, minted, owner, amount, now);
        ParCredited(l, owner, amount, l');
      case Err(_) =>
    }
  }

  lemma ParCredited(l: Ledger, owner: Pubkey, amount: u64, l': Ledger)
    requires AtPar(l) && Inv(l') && ReadBalance(l.market).Ok? && owner in l'.positions
    requires l.pool.outstanding + amount <= U64_MAX
    requires l'.pool == l.pool.(outstanding := l.pool.outstanding + amount,
                                totalShares := VIRTUAL_SHARES * (l.pool.outstanding + amount))
    requires l'.positions == l.positions[owner := l'.positions[owner]]
    requires l'.positions[owner].generation == GENESIS
    requires l'.positions[owner].principal == AccountOf(l, owner).principal + amount
    requires l'.positions[owner].shares == VIRTUAL_SHARES * l'.positions[owner].principal
    requires Ok(l'.market) == TopUpInsuranceDomains(l.market, DepositDelta(Remaining(ReadBalance(l.market).value), amount))
    ensures ParDeposited(l, owner, amount, l')
  {
    ParWritten(l.positions, owner, l'.positions[owner]);
  }

  // ------------------------------------------------------------------------------------------
  // Exits at par
  // ------------------------------------------------------------------------------------------

  /** A loss-free exit owes exactly the requested principal and burns exactly its shares. */
  lemma ParQuote(l: Ledger, owner: Pubkey, amount: u64, insurance: u64)
    requires AtPar(l) && PricedBalance(l.pool, insurance) == l.pool.outstanding
    requires owner in l.positions && !l.positions[owner].withdrawn && 0 < amount <= l.positions[owner].principal
    ensures amount <= l.pool.outstanding
    ensures OwedBy(l.pool, l.positions[owner], amount, insurance) == amount
    ensures var q := QuoteExit(l.pool, l.positions[owner], amount, l.market, insurance);
            q.Ok? ==> && q.value.owed == amount
                      && q.value.current
                      && q.value.retired == q.value.burned == VIRTUAL_SHARES * amount
                      && q.value.position == l.positions[owner]
                      && q.value.pricedAfter == l.pool.outstanding - amount
  {
    var position := l.positions[owner];
    LazyShiftIsEagerHalving(position.shares, 0);
    ParVirtualShares();
    ParRetired(position.principal, amount);
    assert RetiredBy(l.pool, position, amount) == VIRTUAL_SHARES * amount;
    ParValue(amount, l.pool.outstanding);
    QuoteTotal(l.pool, l.positions, owner, amount, l.market, insurance);
    PartOfTotals(l.pool, l.positions, owner);
    ParBurn(l.pool.outstanding, amount);
  }

  lemma ParRetired(principal: u64, amount: u64)
    requires principal > 0
    ensures VIRTUAL_SHARES * principal * amount / principal == VIRTUAL_SHARES * amount
  {
    assert VIRTUAL_SHARES * principal * amount == VIRTUAL_SHARES * amount * principal;
    DivUnique(VIRTUAL_SHARES * principal * amount, principal, VIRTUAL_SHARES * amount);
  }

  lemma ParBurn(outstanding: u64, amount: u64)
    requires 0 < amount <= outstanding
    ensures RateSafeBurn(VIRTUAL_SHARES * amount, outstanding, outstanding - amount, VIRTUAL_SHARES * outstanding, VIRTUAL_SHARES)
         == Ok(VIRTUAL_SHARES * amount)
  {
    var d := VIRTUAL_SHARES * outstanding + VIRTUAL_SHARES;
    var part := VIRTUAL_SHARES * amount;
    assert (outstanding - amount + 1) * d == (outstanding + 1) * (d - part);
    BurnIsLargestSafe(part, outstanding, outstanding - amount, VIRTUAL_SHARES * outstanding, VIRTUAL_SHARES, part);
  }

  /** An exit that succeeds in a loss-free pool is paid at par and stays at par. */
  lemma ParExit(l: Ledger, owner: Pubkey, request: Option<u64>, now: u64)
    requires AtPar(l) && Unimpaired(l)
    requires Exit(l, owner, request, now).Ok?
    ensures var amount := if request.None? then l.positions[owner].principal else request.value;
            var (l', paid) := Exit(l, owner, request, now).value;
            && paid == amount
            && AtPar(l')
            && l'.pool.outstanding == l.pool.outstanding - amount
            && Principals(l'.positions) == Principals(l.positions)[owner := l.positions[owner].principal - amount]
            && PayExit(l.market, ReadBalance(l.market).value, amount, amount) == Ok(l'.market)
  {
    ExitKeeps(l, owner, request, now);
    ParExitOf(l, owner, request, now, Exit(l, owner, request, now).value.0);
  }

  lemma ParExitOf(l: Ledger, owner: Pubkey, request: Option<u64>, now: u64, l': Ledger)
    requires AtPar(l) && Unimpaired(l) && Inv(l')
    requires Exit(l, owner, request, now).Ok? && l' == Exit(l, owner, request, now).value.0
    ensures var amount := if request.None? then l.positions[owner].principal else request.value;
            && Exit(l, owner, request, now).value.1 == amount
            && AtPar(l')
            && l'.pool.outstanding == l.pool.outstanding - amount
            && Principals(l'.positions) == Principals(l.positions)[owner := l.positions[owner].principal - amount]
            && PayExit(l.market, ReadBalance(l.market).value, amount, amount) == Ok(l'.market)
  {
    var amount := if request.None? then l.positions[owner].principal else request.value;
    var insurance := ReadInsurance(ReadBalance(l.market).value);
    ParQuote(l, owner, amount, insurance);
    ParSettlement(l.pool, QuoteExit(l.pool, l.positions[owner], amount, l.market, insurance).value, amount, request.None?, now);
    ParWritten(l.positions, owner, l'.positions[owner]);
  }

  lemma ParSettlement(pool: Pool, quote: Quote, amount: u64, terminal: bool, now: u64)
    requires pool.generation == GENESIS
    requires pool.totalShares == VIRTUAL_SHARES * pool.outstanding && 0 < amount <= pool.outstanding
    requires quote.current && quote.retired == quote.burned == VIRTUAL_SHARES * amount
    requires quote.pricedAfter == pool.outstanding - amount
    requires amount <= quote.position.principal && quote.position.shares == VIRTUAL_SHARES * quote.position.principal
    ensures PoolAfterExit(pool, amount, quote)
         == Ok(pool.(outstanding := pool.outstanding - amount, totalShares := VIRTUAL_SHARES * (pool.outstanding - amount)))
    ensures PositionAfterExit(quote, amount, terminal, now).Ok?
    ensures var p := PositionAfterExit(quote, amount, terminal, now).value;
            && p.principal == quote.position.principal - amount
            && p.shares == VIRTUAL_SHARES * p.principal
            && p.generation == quote.position.generation
  {
  }

  lemma ParLock(l: Ledger, owner: Pubkey, locked: bool)
    requires AtPar(l) && SetVoteLock(l, owner, locked).Ok?
    ensures AtPar(SetVoteLock(l, owner, locked).value)
  {
    LockKeeps(l, owner, locked);
  }

  // ------------------------------------------------------------------------------------------
  // Runs
  // ------------------------------------------------------------------------------------------

  /** Along the run, every instruction finds the pool priced at its outstanding principal. */
  predicate NeverImpaired(l: Ledger, steps: seq<Step>)
    decreases |steps|
  {
    steps == [] || ((steps[0].MarketStep? || Unimpaired(l)) && NeverImpaired(Apply(l, steps[0]), steps[1..]))
  }

  lemma ParStep(l: Ledger, step: Step)
    requires AtPar(l) && (step.MarketStep? || Unimpaired(l))
    ensures AtPar(Apply(l, step))
  {
    match step
    case DepositStep(owner, amount, now) => ParDeposit(l, owner, amount, now);
    case ExitStep(owner, request, now) =>
      if Exit(l, owner, request, now).Ok? { ParExit(l, owner, request, now); }
    case LockStep(owner, locked) =>
      if SetVoteLock(l, owner, locked).Ok? { ParLock(l, owner, locked); }
    case MarketStep(_) =>
  }

  lemma {:induction false} ParRun(l: Ledger, steps: seq<Step>)
    requires AtPar(l) && NeverImpaired(l, steps)
    ensures AtPar(Run(l, steps))
    decreases |steps|
  {
    if steps != [] {
      ParStep(l, steps[0]);
      ParRun(Apply(l, steps[0]), steps[1..]);
    }
  }

  /** A fresh pool of either policy is a plain ledger for as long as it is not impaired. */
  lemma LossFreeRefinement(policy: Policy, schedule: Schedule, market: Market, steps: seq<Step>)
    requires NeverImpaired(FreshLedger(policy, schedule, market), steps)
    ensures AtPar(Run(FreshLedger(policy, schedule, market), steps))
  {
    FreshInv(policy, schedule, market);
    ParRun(FreshLedger(policy, schedule, market), steps);
  }

  // ------------------------------------------------------------------------------------------
  // Routing along loss-free runs
  // ------------------------------------------------------------------------------------------

  /** A live market whose only asset-0 insurance is the pool's, unreserved and canonically split. */
  predicate CanonicallySplit(l: Ledger) {
    && l.market.phase.Live? && !l.market.exposed
    && l.market.reserved == Split(0, 0) && l.market.globallyReserved == 0
    && l.market.domains == BalancedDomains(l.pool.outstanding)
    && l.pool.outstanding <= l.market.insurance
    && l.pool.outstanding <= l.market.vault
  }

  lemma SplitIsUnimpaired(l: Ledger)
    requires CanonicallySplit(l)
    ensures Unimpaired(l)
    ensures Remaining(ReadBalance(l.market).value) == l.market.domains
    ensures ReadBalance(l.market).value.withdrawable == l.pool.outstanding
    ensures LongCapacity(ReadBalance(l.market).value) == l.market.domains.long
    ensures ShortCapacity(ReadBalance(l.market).value) == l.market.domains.short
    ensures WellFormed(ReadBalance(l.market).value)
  {
  }

  lemma SplitDeposit(l: Ledger, owner: Pubkey, amount: u64, now: u64)
    requires AtPar(l) && CanonicallySplit(l) && Deposit(l, owner, amount, now).Ok?
    ensures CanonicallySplit(Deposit(l, owner, amount, now).value)
  {
    SplitIsUnimpaired(l);
    ParDeposit(l, owner, amount, now);
    DepositedSplit(l, owner, amount, Deposit(l, owner, amount, now).value);
  }

  lemma DepositedSplit(l: Ledger, owner: Pubkey, amount: u64, l': Ledger)
    requires CanonicallySplit(l) && ReadBalance(l.market).Ok? && ParDeposited(l, owner, amount, l')
    requires Remaining(ReadBalance(l.market).value) == l.market.domains
    ensures CanonicallySplit(l')
  {
    ToppedUpSplit(l.market, l.pool.outstanding, amount);
  }

  /** A deposit's top-up of a canonical split is the canonical split of the new total. */
  lemma ToppedUpSplit(market: Market, total: u64, amount: u64)
    requires market.domains == BalancedDomains(total) && total + amount <= U64_MAX
    requires TopUpInsuranceDomains(market, DepositDelta(market.domains, amount)).Ok?
    ensures TopUpInsuranceDomains(market, DepositDelta(market.domains, amount)).value
         == market.(domains := BalancedDomains(total + amount), insurance := market.insurance + amount,
                    vault := market.vault + amount)
  {
    DeltasKeepBalance(total, amount);
    DepositDeltaCloses(market.domains, amount);
  }

  /** Every allowed exit goes through, and undoes the split of its own deposit. */
  lemma SplitExit(l: Ledger, owner: Pubkey, amount: u64, now: u64)
    requires AtPar(l) && CanonicallySplit(l) && ExitAllowed(l, owner, Some(amount))
    ensures Exit(l, owner, Some(amount), now).Ok?
    ensures Exit(l, owner, Some(amount), now).value.1 == amount
    ensures CanonicallySplit(Exit(l, owner, Some(amount), now).value.0)
  {
    SplitIsUnimpaired(l);
    var balance := ReadBalance(l.market).value;
    PartOfTotals(l.pool, l.positions, owner);
    ParQuote(l, owner, amount, ReadInsurance(balance));
    ExitSucceedsExactly(l, owner, Some(amount), now);
    CoveredMarketPays(l.market, balance, amount, amount);
    ParExit(l, owner, Some(amount), now);
    PaidOutSplit(l.market, balance, l.pool.outstanding, amount);
  }

  /** Paying an exit at par out of a canonical split leaves the canonical split of what remains. */
  lemma PaidOutSplit(market: Market, balance: AssetBalance, total: u64, amount: u64)
    requires ReadBalance(market) == Ok(balance) && market.phase.Live?
    requires market.domains == Remaining(balance) == BalancedDomains(total) && WellFormed(balance)
    requires LongCapacity(balance) == market.domains.long && ShortCapacity(balance) == market.domains.short
    requires 0 < amount <= total == balance.withdrawable && PayExit(market, balance, amount, amount).Ok?
    ensures var paid := PayExit(market, balance, amount, amount).value;
            paid == market.(domains := BalancedDomains(total - amount), insurance := market.insurance - amount,
                            vault := market.vault - amount)
  {
    PayLive(market, balance, amount, amount);
    DeltasKeepBalance(total, amount);
    WithdrawDeltaCloses(market.domains, amount);
    UnreservedExitUndoesDebit(balance, amount);
  }

  /** Only instructions, no market change. */
  predicate Undisturbed(steps: seq<Step>)
    decreases |steps|
  {
    steps == [] || (!steps[0].MarketStep? && Undisturbed(steps[1..]))
  }

  /** Path independence: any interleaving of deposits and exits ends at the canonical split of the net total. */
  lemma {:induction false} RoutingIsPathIndependent(l: Ledger, steps: seq<Step>)
    requires AtPar(l) && CanonicallySplit(l) && Undisturbed(steps)
    ensures AtPar(Run(l, steps)) && CanonicallySplit(Run(l, steps))
    decreases |steps|
  {
    if steps != [] {
      SplitIsUnimpaired(l);
      ParStep(l, steps[0]);
      SplitStep(l, steps[0]);
      RoutingIsPathIndependent(Apply(l, steps[0]), steps[1..]);
    }
  }

  /** From an empty pool on a live, unreserved market the two domains always hold the canonical split. */
  lemma EmptyPoolRouting(policy: Policy, schedule: Schedule, market: Market, steps: seq<Step>)
    requires market.phase.Live? && !market.exposed && market.domains == market.reserved == Split(0, 0)
    requires market.globallyReserved == 0 && Undisturbed(steps)
    ensures var l := Run(FreshLedger(policy, schedule, market), steps);
            l.market.domains == BalancedDomains(l.pool.outstanding)
  {
    FreshInv(policy, schedule, market);
    RoutingIsPathIndependent(FreshLedger(policy, schedule, market), steps);
  }

  lemma SplitStep(l: Ledger, step: Step)
    requires AtPar(l) && CanonicallySplit(l) && !step.MarketStep?
    ensures CanonicallySplit(Apply(l, step))
  {
    match step
    case DepositStep(owner, amount, now) =>
      if Deposit(l, owner, amount, now).Ok? { SplitDeposit(l, owner, amount, now); }
    case ExitStep(owner, request, now) =>
      if Exit(l, owner, request, now).Ok? { SplitExit(l, owner, request.value, now); }
    case LockStep(owner, locked) =>
  }
}
