/**
 What deposits and exits mean for the owners of an insurance pool, read from the accounts and the market
 as the instruction leaves them.
 */
module ShareFairness {
  import opened Machine
  import opened Division
  import opened MapSum
  import opened WideArithmetic
  import opened ShareMath
  import opened Percolator
  import opened InsuranceRouting
  import opened ShareLedger
  import opened ShareSolvency
  import opened MintCapacity
  import opened ShareExits

  /** What an exit of `amount` would owe the owner in this ledger and its market. */
  function Owes(l: Ledger, owner: Pubkey, amount: u64): int
    requires owner in l.positions && 0 < amount <= l.positions[owner].principal && ReadBalance(l.market).Ok?
  {
    OwedBy(l.pool, l.positions[owner], amount, ReadInsurance(ReadBalance(l.market).value))
  }

  // ------------------------------------------------------------------------------------------
  // No one gains from another's exit
  // ------------------------------------------------------------------------------------------

  /** The balance read after a payment is the balance before it, less the payment. */
  lemma PaidBalance(market: Market, market': Market, owed: nat)
    requires ReadBalance(market).Ok? && PaidFrom(market, market', owed)
    ensures ReadBalance(market').Ok?
    ensures ReadBalance(market').value.remaining == ReadBalance(market).value.remaining - owed
  {
  }

  /** An exit moves what it owes out of the market, at most the amount for PRINCIPAL, and never more than it priced. */
  lemma ExitPays(l: Ledger, owner: Pubkey, request: Option<u64>, now: u64)
    requires Inv(l) && Exit(l, owner, request, now).Ok?
    ensures ReadBalance(l.market).Ok? && owner in l.positions
    ensures var amount := if request.None? then l.positions[owner].principal else request.value;
            var (l', owed) := Exit(l, owner, request, now).value;
            && PaidFrom(l.market, l'.market, owed)
            && owed <= PricedBalance(l.pool, ReadInsurance(ReadBalance(l.market).value))
            && (l.pool.policy.Principal? ==> owed <= amount)
  {
    ExitSucceedsExactly(l, owner, request, now);
    var amount := if request.None? then l.positions[owner].principal else request.value;
    QuoteTotal(l.pool, l.positions, owner, amount, l.market, ReadInsurance(ReadBalance(l.market).value));
  }

  /** The priced balance that the market shows after an exit is the one the exit was settled at. */
  lemma SettledPrice(pool: Pool, pool': Pool, amount: u64, remaining: u128, owed: u64)
    requires amount <= pool.outstanding && owed <= Min(remaining, U64_MAX)
    requires pool'.policy == pool.policy && pool'.outstanding == pool.outstanding - amount
    requires if pool.policy.Principal? then owed <= amount else remaining <= U64_MAX
    ensures PricedBalance(pool', Min(remaining - owed, U64_MAX))
         == PricedAfter(pool, amount, Min(remaining, U64_MAX), owed)
  {
  }

  /**
   Every other owner's claim, for any amount, is worth at most what it was before the exit, read from the
   market as the exit leaves it.
   */
  lemma ExitKeepsOtherClaims(l: Ledger, owner: Pubkey, request: Option<u64>, now: u64, other: Pubkey, amount: u64)
    requires Inv(l) && Exit(l, owner, request, now).Ok?
    requires l.pool.policy.Principal? || ReadBalance(l.market).value.remaining <= U64_MAX
    requires other != owner && other in l.positions && 0 < amount <= l.positions[other].principal
    ensures ReadBalance(l.market).Ok?
    ensures var l' := Exit(l, owner, request, now).value.0;
            && ReadBalance(l'.market).Ok?
            && other in l'.positions && l'.positions[other] == l.positions[other]
            && Owes(l', other, amount) <= Owes(l, other, amount)
  {
    ExitPays(l, owner, request, now);
    var (l', owed) := Exit(l, owner, request, now).value;
    PaidBalance(l.market, l'.market, owed);
    ExitLeavesOthers(l, owner, request, now, other);
    SumBoundsPair(Principals(l.positions), owner, other);
    RetireTotal(l.pool, l.positions[other], amount);
    ExitKeepsOthers(l, owner, request, now, RetiredBy(l.pool, l.positions[other], amount));
    SettledPrice(l.pool, l'.pool, if request.None? then l.positions[owner].principal else request.value,
                 ReadBalance(l.market).value.remaining, owed);
    LowerValueLowerClaim(l.pool, l'.pool, l.positions[other], amount,
                         ReadInsurance(ReadBalance(l.market).value), ReadInsurance(ReadBalance(l'.market).value));
  }

  lemma ExitLeavesOthers(l: Ledger, owner: Pubkey, request: Option<u64>, now: u64, other: Pubkey)
    requires Exit(l, owner, request, now).Ok? && other != owner && other in l.positions
    ensures owner in l.positions
    ensures var amount := if request.None? then l.positions[owner].principal else request.value;
            var l' := Exit(l, owner, request, now).value.0;
            && other in l'.positions && l'.positions[other] == l.positions[other]
            && amount <= l.positions[owner].principal && amount <= l.pool.outstanding
            && l'.pool.outstanding == l.pool.outstanding - amount && l'.pool.policy == l.pool.policy
  {
  }

  /** If the retired shares are worth no more, neither is the claim. */
  lemma LowerValueLowerClaim(pool: Pool, pool': Pool, position: Position, amount: u64, insurance: u64, insurance': u64)
    requires 0 < amount <= position.principal && pool'.policy == pool.policy && pool'.generation == pool.generation
    requires ShareValue(pool', RetiredBy(pool, position, amount), PricedBalance(pool', insurance'))
          <= ShareValue(pool, RetiredBy(pool, position, amount), PricedBalance(pool, insurance))
    ensures OwedBy(pool', position, amount, insurance') <= OwedBy(pool, position, amount, insurance)
  {
  }

  // ------------------------------------------------------------------------------------------
  // No profitable entry
  // ------------------------------------------------------------------------------------------

  /** A deposit raises the priced balance by exactly its amount. */
  lemma DepositPrices(l: Ledger, owner: Pubkey, amount: u64, now: u64)
    requires Deposit(l, owner, amount, now).Ok? && ReadBalance(Deposit(l, owner, amount, now).value.market).Ok?
    ensures ReadBalance(l.market).Ok?
    ensures var l' := Deposit(l, owner, amount, now).value;
            (PricedBalance(l'.pool, ReadInsurance(ReadBalance(l'.market).value))
             == PricedBalance(l.pool, ReadInsurance(ReadBalance(l.market).value)) + amount)
  {
    var balance := ReadBalance(l.market).value;
    var minted := MintOf(l, amount);
    NoProfitableEntry(l.pool, amount, PricedBalance(l.pool, ReadInsurance(balance)), minted);
    MintKeepsPolicy(l.pool, amount, PricedBalance(l.pool, ReadInsurance(balance)));
    CreditPrices(l, balance, minted, owner, amount, now);
  }

  /** The mint inside a deposit. */
  function MintOf(l: Ledger, amount: u64): Minted
    requires ReadBalance(l.market).Ok?
    requires MintForDeposit(l.pool, amount, PricedBalance(l.pool, ReadInsurance(ReadBalance(l.market).value))).Ok?
  {
    MintForDeposit(l.pool, amount, PricedBalance(l.pool, ReadInsurance(ReadBalance(l.market).value))).value
  }

  lemma MintKeepsPolicy(pool: Pool, amount: u64, pricedBalance: u64)
    requires MintForDeposit(pool, amount, pricedBalance).Ok?
    ensures var minted := MintForDeposit(pool, amount, pricedBalance).value;
            minted.pool.policy == pool.policy && minted.virtualShares == VirtualShares(minted.pool.generation.scale)
  {
    MintTotal(BeginRecapitalization(pool, pricedBalance).value, amount, pricedBalance);
  }

  lemma CreditPrices(l: Ledger, balance: AssetBalance, minted: Minted, owner: Pubkey, amount: u64, now: u64)
    requires ReadBalance(l.market) == Ok(balance) && minted.pool.policy == l.pool.policy
    requires PricedBalance(l.pool, ReadInsurance(balance)) + amount <= U64_MAX
    requires CreditDeposit(l, balance, minted, owner, amount, now).Ok?
    ensures var l' := CreditDeposit(l, balance, minted, owner, amount, now).value;
            ReadBalance(l'.market).Ok? ==>
              (PricedBalance(l'.pool, ReadInsurance(ReadBalance(l'.market).value))
               == PricedBalance(l.pool, ReadInsurance(balance)) + amount)
  {
    ToppedUpBalance(l.market, DepositDelta(Remaining(balance), amount));
  }

  /** The balance read after a top-up is the balance before it plus the amounts. */
  lemma ToppedUpBalance(market: Market, amounts: Split)
    requires ReadBalance(market).Ok? && TopUpInsuranceDomains(market, amounts).Ok?
    ensures var topped := ReadBalance(TopUpInsuranceDomains(market, amounts).value);
            topped.Ok? ==> topped.value.remaining == ReadBalance(market).value.remaining + amounts.long + amounts.short
  {
  }

  /**
   A newcomer who deposits and leaves at once gets the amount back or one atom less, whatever losses,
   donations and rescalings came before.
   */
  lemma DepositThenExit(l: Ledger, owner: Pubkey, amount: u64, now: u64, later: u64)
    requires Inv(l) && owner !in l.positions && Deposit(l, owner, amount, now).Ok?
    ensures var l' := Deposit(l, owner, amount, now).value;
            && owner in l'.positions && 0 < amount == l'.positions[owner].principal
            && (ReadBalance(l'.market).Ok? ==>
                  amount - 1 <= Owes(l', owner, amount) <= amount && 0 < Owes(l', owner, amount))
            && (Exit(l', owner, Some(amount), later).Ok? ==>
                  amount - 1 <= Exit(l', owner, Some(amount), later).value.1 <= amount)
  {
    var l' := Deposit(l, owner, amount, now).value;
    NewcomerOwns(l, ReadBalance(l.market).value, MintOf(l, amount), owner, amount, now);
    if ReadBalance(l'.market).Ok? {
      NewcomerIsOwed(l, owner, amount, now);
    }
    DepositKeeps(l, owner, amount, now);
    ExitSucceedsExactly(l', owner, Some(amount), later);
  }

  lemma NewcomerIsOwed(l: Ledger, owner: Pubkey, amount: u64, now: u64)
    requires owner !in l.positions && Deposit(l, owner, amount, now).Ok?
    requires ReadBalance(Deposit(l, owner, amount, now).value.market).Ok?
    ensures var l' := Deposit(l, owner, amount, now).value;
            && owner in l'.positions && 0 < amount == l'.positions[owner].principal
            && !l'.positions[owner].withdrawn && !l'.positions[owner].voteLocked
            && amount - 1 <= Owes(l', owner, amount) <= amount && 0 < Owes(l', owner, amount)
  {
    var priced := PricedBalance(l.pool, ReadInsurance(ReadBalance(l.market).value));
    var minted := MintOf(l, amount);
    DepositPrices(l, owner, amount, now);
    MintKeepsPolicy(l.pool, amount, priced);
    NoProfitableEntry(l.pool, amount, priced, minted);
    var l' := Deposit(l, owner, amount, now).value;
    NewcomerOwns(l, ReadBalance(l.market).value, minted, owner, amount, now);
    NewcomerClaim(l'.pool, l'.positions[owner], amount, ReadInsurance(ReadBalance(l'.market).value), priced, minted);
  }

  lemma NewcomerClaim(pool: Pool, position: Position, amount: u64, insurance: u64, priced: u64, minted: Minted)
    requires position.principal == amount > 0 && EffectiveShares(position, pool.generation) == minted.shares
    requires pool.totalShares == minted.pool.totalShares + minted.shares && pool.generation == minted.pool.generation
    requires minted.virtualShares == VirtualShares(minted.pool.generation.scale)
    requires PricedBalance(pool, insurance) == priced + amount
    requires var value := RedeemShares(minted.shares, priced + amount, minted.pool.totalShares + minted.shares,
                                       minted.virtualShares);
             value.Ok? && 0 < value.value && amount - 1 <= value.value <= amount
    ensures 0 < OwedBy(pool, position, amount, insurance)
    ensures amount - 1 <= OwedBy(pool, position, amount, insurance) <= amount
  {
    WholeClaim(pool, position, insurance);
  }

  /** A claim for the whole principal is the redemption of all effective shares, at most at par for PRINCIPAL. */
  lemma WholeClaim(pool: Pool, position: Position, insurance: u64)
    requires position.principal > 0
    requires RedeemShares(EffectiveShares(position, pool.generation), PricedBalance(pool, insurance), pool.totalShares,
                          VirtualShares(pool.generation.scale)).Ok?
    ensures var value := RedeemShares(EffectiveShares(position, pool.generation), PricedBalance(pool, insurance),
                                      pool.totalShares, VirtualShares(pool.generation.scale)).value;
            OwedBy(pool, position, position.principal, insurance)
            == (if pool.policy.Principal? then Min(position.principal, value) else value)
  {
  }

  /** The newcomer owns just the minted shares. */
  lemma NewcomerOwns(l: Ledger, balance: AssetBalance, minted: Minted, owner: Pubkey, amount: u64, now: u64)
    requires owner !in l.positions && CreditDeposit(l, balance, minted, owner, amount, now).Ok?
    ensures var l' := CreditDeposit(l, balance, minted, owner, amount, now).value;
            && l'.pool.totalShares == minted.pool.totalShares + minted.shares
            && l'.pool.generation == minted.pool.generation && l'.pool.policy == minted.pool.policy
            && owner in l'.positions && l'.positions[owner].principal == amount
            && !l'.positions[owner].withdrawn && !l'.positions[owner].voteLocked
            && EffectiveShares(l'.positions[owner], l'.pool.generation) == minted.shares
  {
    LazyShiftIsEagerHalving(minted.shares, 0);
  }
}
