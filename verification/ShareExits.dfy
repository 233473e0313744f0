/**
 Exits of the share ledger: in every consistent ledger the share accounting of an exit cannot fail,
 all claims together fit the priced balance, no one gains from another's exit, and the invariant
 survives every run.
 */
module ShareExits {
  import opened Machine
  import opened Division
  import opened MapSum
  import opened WideArithmetic
  import opened ShareMath
  import opened Percolator
  import opened InsurancePlanner
  import opened InsuranceRouting
  import opened ShareLedger
  import opened ShareSolvency
  import opened MintCapacity

  /** What `shares` redeem for at the pool's current rate. */
  function ShareValue(pool: Pool, shares: int, pricedBalance: int): int {
    shares * (pricedBalance + 1) / (pool.totalShares + VirtualShares(pool.generation.scale))
  }

  /** The part of a position's effective shares that an exit of `amount` retires. */
  function RetiredBy(pool: Pool, position: Position, amount: nat): int
    requires 0 < amount <= position.principal
  {
    var held := EffectiveShares(position, pool.generation);
    if amount == position.principal then held else held * amount / position.principal
  }

  /** What an exit of `amount` pays: the value of the retired shares, capped at par for PRINCIPAL. */
  function OwedBy(pool: Pool, position: Position, amount: nat, insurance: u64): int
    requires 0 < amount <= position.principal
  {
    var value := ShareValue(pool, RetiredBy(pool, position, amount), PricedBalance(pool, insurance));
    match pool.policy
    case Principal => Min(amount, value)
    case WithSurplus => value
  }

  // ------------------------------------------------------------------------------------------
  // Share accounting cannot fail
  // ------------------------------------------------------------------------------------------

  lemma RetireTotal(pool: Pool, position: Position, amount: u64)
    requires !position.withdrawn && NotAhead(position.generation, pool.generation)
    requires 0 < amount <= position.principal
    ensures var moved := MoveToCurrentGeneration(position, pool).value;
            && MoveToCurrentGeneration(position, pool).Ok?
            && 0 <= RetiredBy(pool, position, amount) <= moved.0.shares
            && SharesToRetire(moved.0, moved.1, amount) == Ok(RetiredBy(pool, position, amount))
  {
    MoveKeepsEffective(position, pool);
    var held := EffectiveShares(position, pool.generation);
    ShareOfPart(amount, held, position.principal);
    assert held * amount == amount * held;
  }

  lemma OwedTotal(pool: Pool, position: Position, current: bool, retired: u128, amount: u64, pricedBalance: u64)
    requires pool.totalShares + VirtualShares(pool.generation.scale) <= U128_MAX
    requires retired <= position.shares <= pool.totalShares && (!current ==> retired == 0)
    ensures 0 <= ShareValue(pool, retired, pricedBalance) <= pricedBalance
    ensures Owed(pool, position, current, retired, amount, pricedBalance)
         == Ok(match pool.policy
               case Principal => Min(amount, ShareValue(pool, retired, pricedBalance))
               case WithSurplus => ShareValue(pool, retired, pricedBalance))
  {
    RedeemTotal(retired, pricedBalance, pool.totalShares, VirtualShares(pool.generation.scale));
    if retired == 0 {
      DivUnique(0, pool.totalShares + VirtualShares(pool.generation.scale), 0);
    }
  }

  /** The quote of an exit always exists, unless it would pay out of an exposed live market. */
  lemma QuoteTotal(pool: Pool, positions: map<Pubkey, Position>, owner: Pubkey, amount: u64, market: Market, insurance: u64)
    requires Consistent(pool, positions) && owner in positions && !positions[owner].withdrawn
    requires 0 < amount <= positions[owner].principal
    ensures amount <= pool.outstanding
    ensures 0 <= OwedBy(pool, positions[owner], amount, insurance) <= PricedBalance(pool, insurance)
    ensures var owed := OwedBy(pool, positions[owner], amount, insurance);
            var r := QuoteExit(pool, positions[owner], amount, market, insurance);
            && (r.Err? <==> owed > 0 && market.phase.Live? && market.exposed)
            && (r.Ok? ==>
                  && r.value.position == MoveToCurrentGeneration(positions[owner], pool).value.0
                  && r.value.current == MoveToCurrentGeneration(positions[owner], pool).value.1
                  && r.value.owed == owed
                  && r.value.retired == RetiredBy(pool, positions[owner], amount)
                  && r.value.burned <= r.value.retired <= r.value.position.shares
                  && r.value.pricedAfter == PricedAfter(pool, amount, insurance, owed) <= PricedBalance(pool, insurance)
                  && (r.value.retired > 0 ==>
                        RateSafeBurn(r.value.retired, PricedBalance(pool, insurance), r.value.pricedAfter,
                                     pool.totalShares, VirtualShares(pool.generation.scale)) == Ok(r.value.burned)))
  {
    var position := positions[owner];
    PartOfTotals(pool, positions, owner);
    MoveKeepsEffective(position, pool);
    RetireTotal(pool, position, amount);
    var (moved, current) := MoveToCurrentGeneration(position, pool).value;
    var retired := RetiredBy(pool, position, amount);
    var pricedBalance := PricedBalance(pool, insurance);
    OwedTotal(pool, moved, current, retired, amount, pricedBalance);
    var owed := OwedBy(pool, position, amount, insurance);
    BurnTotal(retired, pricedBalance, PricedAfter(pool, amount, insurance, owed), pool.totalShares,
              VirtualShares(pool.generation.scale));
  }

  // ------------------------------------------------------------------------------------------
  // The invariant
  // ------------------------------------------------------------------------------------------

  /** When no principal is left, every position is withdrawn and no shares are owned. */
  lemma EmptyPool(positions: map<Pubkey, Position>, current: Generation)
    requires forall o :: o in positions ==> (positions[o].withdrawn <==> positions[o].principal == 0)
    requires Sum(Principals(positions)) == 0
    ensures forall o :: o in positions ==> positions[o].withdrawn
    ensures Sum(AllEffectiveShares(positions, current)) == 0
  {
    forall o | o in positions ensures positions[o].withdrawn {
      SumBoundsEach(Principals(positions), o);
    }
    SumZero(AllEffectiveShares(positions, current));
  }

  /** The pool after an exit keeps room for the virtual offset. */
  lemma PoolAfterExitTotals(pool: Pool, amount: u64, quote: Quote, pool': Pool)
    requires pool.totalShares + VirtualShares(pool.generation.scale) <= U128_MAX
    requires amount <= pool.outstanding && quote.burned <= pool.totalShares
    requires PoolAfterExit(pool, amount, quote) == Ok(pool')
    ensures pool'.outstanding == pool.outstanding - amount
    ensures pool'.totalShares + VirtualShares(pool'.generation.scale) <= U128_MAX
    ensures pool'.outstanding > 0 ==>
              pool'.generation == pool.generation && pool'.totalShares == pool.totalShares - quote.burned
  {
  }

  /** The pool account written by an exit of `amount` that burns `burned` shares. */
  ghost predicate ExitedPool(pool: Pool, amount: u64, burned: u128, pool': Pool) {
    && pool'.outstanding == pool.outstanding - amount
    && pool'.totalShares + VirtualShares(pool'.generation.scale) <= U128_MAX
    && (pool'.outstanding > 0 ==> pool'.generation == pool.generation && pool'.totalShares == pool.totalShares - burned)
  }

  /** The position account written by an exit of `amount` that retires at least `burned` shares. */
  ghost predicate ExitedPosition(pool: Pool, position: Position, amount: u64, burned: u128, position': Position) {
    && position'.principal == position.principal - amount
    && (position'.withdrawn <==> position'.principal == 0)
    && position'.generation == pool.generation
    && position'.shares + burned <= EffectiveShares(position, pool.generation)
  }

  /** Writing the two accounts of an exit keeps the ledger consistent. */
  lemma SettleKeeps(pool: Pool, positions: map<Pubkey, Position>, owner: Pubkey, amount: u64, burned: u128,
                    position': Position, pool': Pool)
    requires Consistent(pool, positions) && owner in positions
    requires ExitedPosition(pool, positions[owner], amount, burned, position')
    requires ExitedPool(pool, amount, burned, pool')
    ensures Consistent(pool', positions[owner := position'])
  {
    WritePrincipal(positions, owner, position');
    if pool'.outstanding == 0 {
      EmptyPool(positions[owner := position'], pool'.generation);
    } else {
      SettledShares(pool, positions, owner, burned, position');
    }
  }

  /** The shares that stay effective fit what the burn leaves of the total. */
  lemma SettledShares(pool: Pool, positions: map<Pubkey, Position>, owner: Pubkey, burned: u128, position': Position)
    requires Consistent(pool, positions) && owner in positions
    requires position'.generation == pool.generation
    requires position'.shares + burned <= EffectiveShares(positions[owner], pool.generation)
    ensures Sum(AllEffectiveShares(positions[owner := position'], pool.generation)) <= pool.totalShares - burned
  {
    WriteShares(positions, owner, position', pool.generation);
    CurrentShares(position', pool.generation);
  }

  lemma ExitKeeps(l: Ledger, owner: Pubkey, request: Option<u64>, now: u64)
    requires Inv(l) && Exit(l, owner, request, now).Ok?
    ensures Inv(Exit(l, owner, request, now).value.0)
  {
    var position := l.positions[owner];
    var amount := if request.None? then position.principal else request.value;
    var insurance := ReadInsurance(ReadBalance(l.market).value);
    QuoteTotal(l.pool, l.positions, owner, amount, l.market, insurance);
    MoveKeepsEffective(position, l.pool);
    var quote := QuoteExit(l.pool, position, amount, l.market, insurance).value;
    var l' := Exit(l, owner, request, now).value.0;
    PartOfTotals(l.pool, l.positions, owner);
    PoolAfterExitTotals(l.pool, amount, quote, l'.pool);
    SettleKeeps(l.pool, l.positions, owner, amount, quote.burned, l'.positions[owner], l'.pool);
  }

  lemma LockKeeps(l: Ledger, owner: Pubkey, locked: bool)
    requires Inv(l) && SetVoteLock(l, owner, locked).Ok?
    ensures Inv(SetVoteLock(l, owner, locked).value)
  {
    var p := l.positions[owner].(voteLocked := locked);
    WriteSums(l.positions, owner, p, l.pool.generation);
    assert EffectiveShares(p, l.pool.generation) == EffectiveShares(l.positions[owner], l.pool.generation);
  }

  lemma FreshInv(policy: Policy, schedule: Schedule, market: Market)
    ensures Inv(FreshLedger(policy, schedule, market))
  {
    SumZero(Principals(map[]));
    SumZero(AllEffectiveShares(map[], Generation(0, 0)));
  }

  lemma StepKeeps(l: Ledger, step: Step)
    requires Inv(l)
    ensures Inv(Apply(l, step))
  {
    match step
    case DepositStep(owner, amount, now) =>
      if Deposit(l, owner, amount, now).Ok? { DepositKeeps(l, owner, amount, now); }
    case ExitStep(owner, request, now) =>
      if Exit(l, owner, request, now).Ok? { ExitKeeps(l, owner, request, now); }
    case LockStep(owner, locked) =>
      if SetVoteLock(l, owner, locked).Ok? { LockKeeps(l, owner, locked); }
    case MarketStep(_) =>
  }

  /** Safety over whole runs: any instructions, interleaved with any losses and donations. */
  lemma {:induction false} RunKeeps(l: Ledger, steps: seq<Step>)
    requires Inv(l)
    ensures Inv(Run(l, steps))
    decreases |steps|
  {
    if steps != [] {
      StepKeeps(l, steps[0]);
      RunKeeps(Apply(l, steps[0]), steps[1..]);
    }
  }

  // ------------------------------------------------------------------------------------------
  // Solvency
  // ------------------------------------------------------------------------------------------

  /** What each live position would be paid for its whole principal right now. */
  function Claims(l: Ledger, insurance: u64): map<Pubkey, int> {
    map o | o in l.positions ::
      if l.positions[o].withdrawn || l.positions[o].principal == 0 then 0
      else OwedBy(l.pool, l.positions[o], l.positions[o].principal, insurance)
  }

  lemma ClaimWithinShares(l: Ledger, insurance: u64, owner: Pubkey)
    requires owner in l.positions
    ensures Claims(l, insurance)[owner] * (l.pool.totalShares + VirtualShares(l.pool.generation.scale))
         <= EffectiveShares(l.positions[owner], l.pool.generation) * (PricedBalance(l.pool, insurance) + 1)
  {
    var held := EffectiveShares(l.positions[owner], l.pool.generation);
    var n := PricedBalance(l.pool, insurance) + 1;
    FloorIsLargest(held * n, l.pool.totalShares + VirtualShares(l.pool.generation.scale), Claims(l, insurance)[owner]);
    assert 0 <= held * n;
  }

  /** All claims redeemed together fit the priced balance, whatever insurance the market left. */
  lemma ClaimsAreCovered(l: Ledger, insurance: u64, claims: map<Pubkey, nat>)
    requires Inv(l) && claims == Claims(l, insurance)
    ensures Sum(claims) <= PricedBalance(l.pool, insurance) <= insurance
  {
    var n := PricedBalance(l.pool, insurance) + 1;
    var d := l.pool.totalShares + VirtualShares(l.pool.generation.scale);
    var shares := AllEffectiveShares(l.positions, l.pool.generation);
    forall o | o in claims ensures claims[o] * d <= shares[o] * n {
      ClaimWithinShares(l, insurance, o);
    }
    SumScaled(claims, shares, d, n);
    BelowByScale(Sum(claims), Sum(shares), d, n);
  }

  lemma BelowByScale(a: nat, b: nat, d: nat, n: nat)
    requires a * d <= b * n && b < d && n > 0
    ensures a < n
  {
    MulMonotone(b + 1, d, n);
    Distribute(b, 1, n);
    assert d * n == n * d;
    if a >= n {
      MulMonotone(n, a, d);
      assert false;
    }
  }

  lemma ClaimsExist(l: Ledger, insurance: u64) returns (claims: map<Pubkey, nat>)
    requires Inv(l)
    ensures claims == Claims(l, insurance)
  {
    forall o | o in l.positions ensures Claims(l, insurance)[o] >= 0 {
      if l.positions[o].principal > 0 {
        QuoteTotal(l.pool, l.positions, o, l.positions[o].principal, l.market, insurance);
      }
    }
    claims := map o | o in l.positions :: Claims(l, insurance)[o] as nat;
  }

  /**
   Share solvency over every run of a fresh pool, with arbitrary losses and donations on the way: live
   principals are the outstanding principal, and all claims together fit the insurance there is.
   */
  lemma EveryRunIsSolvent(policy: Policy, schedule: Schedule, market: Market, steps: seq<Step>, insurance: u64)
    returns (claims: map<Pubkey, nat>)
    ensures var l := Run(FreshLedger(policy, schedule, market), steps);
            && Sum(Principals(l.positions)) == l.pool.outstanding
            && (forall o :: o in l.positions && !l.positions[o].withdrawn ==>
                  NotAhead(l.positions[o].generation, l.pool.generation))
            && Sum(AllEffectiveShares(l.positions, l.pool.generation)) <= l.pool.totalShares
            && claims == Claims(l, insurance)
            && Sum(claims) <= PricedBalance(l.pool, insurance) <= insurance
  {
    FreshInv(policy, schedule, market);
    RunKeeps(FreshLedger(policy, schedule, market), steps);
    var l := Run(FreshLedger(policy, schedule, market), steps);
    claims := ClaimsExist(l, insurance);
    ClaimsAreCovered(l, insurance, claims);
  }

  // ------------------------------------------------------------------------------------------
  // No one gains from another's exit
  // ------------------------------------------------------------------------------------------

  /** While the pool stays open, no remaining holding redeems for more after someone else's exit. */
  lemma ExitKeepsOthers(l: Ledger, owner: Pubkey, request: Option<u64>, now: u64, held: nat)
    requires Inv(l) && Exit(l, owner, request, now).Ok?
    requires Exit(l, owner, request, now).value.0.pool.outstanding > 0
    ensures var amount := if request.None? then l.positions[owner].principal else request.value;
            var (l', owed) := Exit(l, owner, request, now).value;
            var insurance := ReadInsurance(ReadBalance(l.market).value);
            && owed <= insurance && amount <= l.pool.outstanding
            && l'.pool.generation == l.pool.generation
            && ShareValue(l'.pool, held, PricedAfter(l.pool, amount, insurance, owed))
               <= ShareValue(l.pool, held, PricedBalance(l.pool, insurance))
  {
    var amount := if request.None? then l.positions[owner].principal else request.value;
    var insurance := ReadInsurance(ReadBalance(l.market).value);
    QuoteKeepsOthers(l.pool, l.positions, owner, amount, l.market, insurance, held);
  }

  lemma QuoteKeepsOthers(pool: Pool, positions: map<Pubkey, Position>, owner: Pubkey, amount: u64, market: Market,
                         insurance: u64, held: nat)
    requires Consistent(pool, positions) && owner in positions && !positions[owner].withdrawn
    requires 0 < amount <= positions[owner].principal && amount < pool.outstanding
    requires QuoteExit(pool, positions[owner], amount, market, insurance).Ok?
    ensures var quote := QuoteExit(pool, positions[owner], amount, market, insurance).value;
            && quote.owed <= insurance
            && quote.pricedAfter == PricedAfter(pool, amount, insurance, quote.owed)
            && PoolAfterExit(pool, amount, quote)
            == Ok(pool.(outstanding := pool.outstanding - amount, totalShares := pool.totalShares - quote.burned))
            && ShareValue(PoolAfterExit(pool, amount, quote).value, held, quote.pricedAfter)
               <= ShareValue(pool, held, PricedBalance(pool, insurance))
  {
    QuoteTotal(pool, positions, owner, amount, market, insurance);
    PartOfTotals(pool, positions, owner);
    MoveKeepsEffective(positions[owner], pool);
    var quote := QuoteExit(pool, positions[owner], amount, market, insurance).value;
    BurnKeepsOthers(pool, quote.retired, quote.burned, PricedBalance(pool, insurance), quote.pricedAfter, held);
  }

  lemma BurnKeepsOthers(pool: Pool, retired: u128, burned: u128, before: u64, after: u64, held: nat)
    requires burned <= retired <= pool.totalShares && after <= before
    requires pool.totalShares + VirtualShares(pool.generation.scale) <= U128_MAX
    requires retired > 0 ==> RateSafeBurn(retired, before, after, pool.totalShares, VirtualShares(pool.generation.scale)) == Ok(burned)
    ensures held * (after + 1) / (pool.totalShares - burned + VirtualShares(pool.generation.scale))
         <= ShareValue(pool, held, before)
  {
    var v := VirtualShares(pool.generation.scale);
    var d := pool.totalShares + v;
    if retired > 0 {
      BurnIsLargestSafe(retired, before, after, pool.totalShares, v, burned);
    } else {
      MulMonotone(after + 1, before + 1, d);
    }
    LowerRateLowerValue(held, before, d, after, d - burned);
    assert pool.totalShares - burned + v == d - burned;
  }

  /** Nor does a rescale help anyone: after any number of steps every holding redeems for at most as much. */
  lemma {:induction false} RescalesNeverRaise(pool: Pool, held: u128, steps: nat, pricedBalance: u64)
    requires pool.generation.scale + steps <= SHARE_GENERATION_MASK
    ensures HalveUp(pool.totalShares, steps) <= U128_MAX
    ensures ShareValue(pool.(totalShares := HalveUp(pool.totalShares, steps),
                             generation := Generation(pool.generation.reset, pool.generation.scale + steps)),
                       ShiftRight(held, steps), pricedBalance)
         <= ShareValue(pool, held, pricedBalance)
    decreases steps
  {
    LazyShiftIsEagerHalving(held, steps);
    if steps > 0 {
      RescaleNeverRaises(held, pricedBalance + 1, pool.totalShares, VirtualShares(pool.generation.scale));
      VirtualSharesHalve(pool.generation.scale);
      RescalesNeverRaise(Halved(pool), held / 2, steps - 1, pricedBalance);
      LazyShiftIsEagerHalving(held / 2, steps - 1);
      DivDiv(held, 2, Pow2(steps - 1));
    } else {
      assert pool.(totalShares := HalveUp(pool.totalShares, 0)) == pool;
    }
  }

  // ------------------------------------------------------------------------------------------
  // Liveness of the whole exit
  // ------------------------------------------------------------------------------------------

  /** `owed` left the market: from the domains, the insurance and the vault alike. */
  predicate PaidFrom(market: Market, market': Market, owed: nat) {
    && market' == market.(domains := market'.domains, insurance := market'.insurance, vault := market'.vault)
    && market'.domains.long + market'.domains.short == market.domains.long + market.domains.short - owed
    && market'.insurance == market.insurance - owed
    && market'.vault == market.vault - owed
    && market'.domains.long <= market.domains.long && market'.domains.short <= market.domains.short
  }

  /** Where a live payout aims to leave the domains. */
  function PayTarget(balance: AssetBalance, owed: u64, amount: u64): Result<Split> {
    PlannedTarget(balance, owed, WithdrawDelta(Remaining(balance), Min(owed, amount)))
  }

  /**
   What a live market needs beyond the capacity: books in which the insurance covers both domains, and a
   gross withdrawal that is a token amount.
   */
  predicate PlanFits(market: Market, balance: AssetBalance, owed: u64, amount: u64) {
    && market.domains.long + market.domains.short <= market.insurance
    && PayTarget(balance, owed, amount).Ok?
    && GrossFor(balance, PayTarget(balance, owed, amount).value) <= U64_MAX
  }

  /** Executing a plan on the market itself lands where the plan says, and pays exactly `owed`. */
  lemma ExecutedPlanPays(market: Market, balance: AssetBalance, owed: u64, target: Split, plan: Plan)
    requires market.phase.Live? && ReadBalance(market) == Ok(balance)
    requires PlanLands(balance, owed, target, plan) && plan.gross <= U64_MAX
    ensures var paid := ExecutePlan(market, plan);
            paid.Ok? && PaidFrom(market, paid.value, owed) && paid.value.domains == target
  {
    DrainedMarket(market, balance, plan.gross);
  }

  /** The withdrawal call succeeds exactly up to the capacity, and takes the drained amounts. */
  lemma DrainedMarket(market: Market, balance: AssetBalance, gross: nat)
    requires ReadBalance(market) == Ok(balance)
    ensures WithdrawInsuranceAsset(market, gross).Ok? <==> gross <= balance.withdrawable
    ensures WithdrawInsuranceAsset(market, gross).Ok? ==>
              var drained := WithdrawInsuranceAsset(market, gross).value;
              PaidFrom(market, drained, gross) && DrainLongFirst(balance, gross) == Ok(drained.domains)
  {
  }

  /** A live market pays exactly the plans that fit, and ends at their target. */
  lemma PayLive(market: Market, balance: AssetBalance, owed: u64, amount: u64)
    requires ReadBalance(market) == Ok(balance) && amount > 0
    requires market.phase.Live? && owed > 0
    ensures PayExit(market, balance, owed, amount).Ok?
       <==> owed <= balance.withdrawable && PlanFits(market, balance, owed, amount)
    ensures PayExit(market, balance, owed, amount).Ok? ==>
              && PaidFrom(market, PayExit(market, balance, owed, amount).value, owed)
              && PayTarget(balance, owed, amount) == Ok(PayExit(market, balance, owed, amount).value.domains)
  {
    ReadBalanceWellFormed(market);
    var debit := WithdrawDelta(Remaining(balance), Min(owed, amount));
    WithdrawalPlanExactly(balance, owed, debit);
    if WellFormed(balance) && owed <= balance.withdrawable {
      WithdrawDeltaCloses(Remaining(balance), Min(owed, amount));
      var target := PayTarget(balance, owed, amount).value;
      PlannedGross(balance, owed, target);
      var plan := WithdrawalPlan(balance, owed, debit).value;
      if plan.gross <= U64_MAX {
        ExecutedPlanPays(market, balance, owed, target, plan);
      }
    }
  }

  /** Percolator can pay an exit exactly up to its withdrawable capacity, and then pays just that. */
  lemma PayTotal(market: Market, balance: AssetBalance, owed: u64, amount: u64)
    requires ReadBalance(market) == Ok(balance) && amount > 0
    ensures PayExit(market, balance, owed, amount).Ok? <==>
              owed == 0
              || (owed <= balance.withdrawable && (market.phase.Live? ==> PlanFits(market, balance, owed, amount)))
    ensures PayExit(market, balance, owed, amount).Ok? ==>
              PaidFrom(market, PayExit(market, balance, owed, amount).value, owed)
  {
    if owed > 0 && market.phase.Live? {
      PayLive(market, balance, owed, amount);
    } else {
      DrainedMarket(market, balance, owed);
    }
  }

  /** What a caller can check before an exit. */
  predicate ExitAllowed(l: Ledger, owner: Pubkey, request: Option<u64>) {
    && owner in l.positions && !l.positions[owner].withdrawn
    && (match request
        case None => l.market.phase.ResolvedEmpty?
        case Some(amount) => !l.positions[owner].voteLocked && 0 < amount <= l.positions[owner].principal)
  }

  /** The market's part: nothing to pay, or capacity in an unexposed market for a plan that fits. */
  predicate MarketPays(market: Market, balance: AssetBalance, owed: u64, amount: u64) {
    owed == 0
    || (&& owed <= balance.withdrawable
        && (market.phase.Live? ==> !market.exposed && PlanFits(market, balance, owed, amount)))
  }

  /**
   Exit liveness: in a consistent ledger an allowed exit fails only if the market cannot be read, or owes
   something that the market cannot pay. No share computation, no total and no generation can stand in
   its way; and it moves exactly what it owes.
   */
  lemma ExitSucceedsExactly(l: Ledger, owner: Pubkey, request: Option<u64>, now: u64)
    requires Inv(l)
    ensures var r := Exit(l, owner, request, now);
            if !ExitAllowed(l, owner, request) || ReadBalance(l.market).Err? then r.Err?
            else
              var balance := ReadBalance(l.market).value;
              var amount := if request.None? then l.positions[owner].principal else request.value;
              var owed := OwedBy(l.pool, l.positions[owner], amount, ReadInsurance(balance));
              && 0 <= owed <= U64_MAX
              && (r.Ok? <==> MarketPays(l.market, balance, owed, amount))
              && (r.Ok? ==> r.value.1 == owed && PaidFrom(l.market, r.value.0.market, owed))
  {
    if ExitAllowed(l, owner, request) && ReadBalance(l.market).Ok? {
      ExitOfAllowed(l, owner, request, now, ReadBalance(l.market).value);
    }
  }

  lemma ExitOfAllowed(l: Ledger, owner: Pubkey, request: Option<u64>, now: u64, balance: AssetBalance)
    requires Inv(l) && ExitAllowed(l, owner, request) && ReadBalance(l.market) == Ok(balance)
    ensures var r := Exit(l, owner, request, now);
            var amount := if request.None? then l.positions[owner].principal else request.value;
            var owed := OwedBy(l.pool, l.positions[owner], amount, ReadInsurance(balance));
            && 0 <= owed <= U64_MAX
            && (r.Ok? <==> MarketPays(l.market, balance, owed, amount))
            && (r.Ok? ==> r.value.1 == owed && PaidFrom(l.market, r.value.0.market, owed))
  {
    var position := l.positions[owner];
    var amount := if request.None? then position.principal else request.value;
    QuoteTotal(l.pool, l.positions, owner, amount, l.market, ReadInsurance(balance));
    PartOfTotals(l.pool, l.positions, owner);
    MoveKeepsEffective(position, l.pool);
    var quote := QuoteExit(l.pool, position, amount, l.market, ReadInsurance(balance));
    if quote.Ok? {
      PayTotal(l.market, balance, quote.value.owed, amount);
      SettlementTotal(l.pool, quote.value, amount, request.None?, now);
    }
  }

  /**
   The usual market: when the capacity is a token amount and the insurance covers the domains, capacity and
   exposure decide alone.
   */
  lemma CoveredMarketPays(market: Market, balance: AssetBalance, owed: u64, amount: u64)
    requires ReadBalance(market) == Ok(balance) && amount > 0
    requires market.domains.long + market.domains.short <= market.insurance && balance.withdrawable <= U64_MAX
    ensures MarketPays(market, balance, owed, amount)
       <==> owed == 0 || (owed <= balance.withdrawable && !(market.phase.Live? && market.exposed))
  {
    if 0 < owed <= balance.withdrawable {
      CoveredPlanFits(market, balance, owed, amount);
    }
  }

  lemma CoveredPlanFits(market: Market, balance: AssetBalance, owed: u64, amount: u64)
    requires ReadBalance(market) == Ok(balance) && amount > 0 && 0 < owed <= balance.withdrawable <= U64_MAX
    requires market.domains.long + market.domains.short <= market.insurance
    ensures PlanFits(market, balance, owed, amount)
  {
    ReadBalanceWellFormed(market);
    var debit := WithdrawDelta(Remaining(balance), Min(owed, amount));
    WithdrawDeltaCloses(Remaining(balance), Min(owed, amount));
    WithdrawalPlanExactly(balance, owed, debit);
    PlannedGross(balance, owed, PayTarget(balance, owed, amount).value);
  }

  /** Writing back a quote whose parts nest never fails. */
  lemma SettlementTotal(pool: Pool, quote: Quote, amount: u64, terminal: bool, now: u64)
    requires amount <= pool.outstanding && amount <= quote.position.principal
    requires quote.burned <= quote.retired <= quote.position.shares <= pool.totalShares
    ensures PositionAfterExit(quote, amount, terminal, now).Ok?
    ensures PoolAfterExit(pool, amount, quote).Ok?
  {
  }
}
