/**
 What every reachable ledger keeps: principals sum to the outstanding principal, live generations are
 never ahead of the pool, and the lazily shifted shares sum to at most the pool total. It follows that
 all claims together never exceed the priced balance.
 */
module ShareSolvency {
  import opened Machine
  import opened Division
  import opened MapSum
  import opened WideArithmetic
  import opened ShareMath
  import opened Percolator
  import opened InsuranceRouting
  import opened ShareLedger
  import opened MintCapacity

  function Principals(positions: map<Pubkey, Position>): map<Pubkey, nat> {
    map o | o in positions :: positions[o].principal
  }

  /** The lexicographic order on (reset, scale). */
  predicate NotAhead(held: Generation, current: Generation) {
    held.reset < current.reset || (held.reset == current.reset && held.scale <= current.scale)
  }

  /** The shares of a position as the pool sees them: shifted to its scale, void after a reset. */
  function EffectiveShares(p: Position, current: Generation): u128 {
    if p.withdrawn || p.generation.reset != current.reset || p.generation.scale > current.scale then 0
    else ShiftRight(p.shares, current.scale - p.generation.scale)
  }

  function AllEffectiveShares(positions: map<Pubkey, Position>, current: Generation): map<Pubkey, nat> {
    map o | o in positions :: EffectiveShares(positions[o], current)
  }

  ghost predicate Consistent(pool: Pool, positions: map<Pubkey, Position>) {
    && (forall o :: o in positions ==> (positions[o].withdrawn <==> positions[o].principal == 0))
    && (forall o :: o in positions && !positions[o].withdrawn ==> NotAhead(positions[o].generation, pool.generation))
    && Sum(Principals(positions)) == pool.outstanding
    && Sum(AllEffectiveShares(positions, pool.generation)) <= pool.totalShares
    && pool.totalShares + VirtualShares(pool.generation.scale) <= U128_MAX
  }

  ghost predicate Inv(l: Ledger) {
    Consistent(l.pool, l.positions)
  }

  /** A live position is part of the totals. */
  lemma PartOfTotals(pool: Pool, positions: map<Pubkey, Position>, owner: Pubkey)
    requires Consistent(pool, positions) && owner in positions
    ensures positions[owner].principal <= pool.outstanding
    ensures EffectiveShares(positions[owner], pool.generation) <= pool.totalShares
  {
    SumBoundsEach(Principals(positions), owner);
    SumBoundsEach(AllEffectiveShares(positions, pool.generation), owner);
  }

  /** Writing one position moves both sums by exactly its own difference. */
  lemma WriteSums(positions: map<Pubkey, Position>, owner: Pubkey, p: Position, current: Generation)
    ensures Sum(Principals(positions[owner := p]))
         == Sum(Principals(positions)) - (if owner in positions then positions[owner].principal else 0) + p.principal
    ensures Sum(AllEffectiveShares(positions[owner := p], current))
         == Sum(AllEffectiveShares(positions, current))
            - (if owner in positions then EffectiveShares(positions[owner], current) else 0)
            + EffectiveShares(p, current)
  {
    WritePrincipal(positions, owner, p);
    WriteShares(positions, owner, p, current);
  }

  lemma WritePrincipal(positions: map<Pubkey, Position>, owner: Pubkey, p: Position)
    ensures Sum(Principals(positions[owner := p]))
         == Sum(Principals(positions)) - (if owner in positions then positions[owner].principal else 0) + p.principal
  {
    SumUpdate(Principals(positions), owner, p.principal);
    assert Principals(positions[owner := p]) == Principals(positions)[owner := p.principal];
  }

  lemma WriteShares(positions: map<Pubkey, Position>, owner: Pubkey, p: Position, current: Generation)
    ensures Sum(AllEffectiveShares(positions[owner := p], current))
         == Sum(AllEffectiveShares(positions, current))
            - (if owner in positions then EffectiveShares(positions[owner], current) else 0)
            + EffectiveShares(p, current)
  {
    SumUpdate(AllEffectiveShares(positions, current), owner, EffectiveShares(p, current));
    assert AllEffectiveShares(positions[owner := p], current)
        == AllEffectiveShares(positions, current)[owner := EffectiveShares(p, current)];
  }

  // ------------------------------------------------------------------------------------------
  // Generation changes
  // ------------------------------------------------------------------------------------------

  lemma RecapitalizationKeeps(pool: Pool, positions: map<Pubkey, Position>, pricedBalance: u64)
    requires Consistent(pool, positions)
    requires BeginRecapitalization(pool, pricedBalance).Ok?
    ensures Consistent(BeginRecapitalization(pool, pricedBalance).value, positions)
  {
    var pool' := BeginRecapitalization(pool, pricedBalance).value;
    if pool' != pool {
      forall o | o in positions ensures EffectiveShares(positions[o], pool'.generation) == 0 {
        PartOfTotals(pool, positions, o);
      }
      SumZero(AllEffectiveShares(positions, pool'.generation));
    }
  }

  /** One more scale step halves a position's effective shares, rounding down. */
  lemma EffectiveSharesHalve(p: Position, current: Generation)
    requires current.scale < SHARE_GENERATION_MASK && (!p.withdrawn ==> NotAhead(p.generation, current))
    ensures EffectiveShares(p, Generation(current.reset, current.scale + 1)) == EffectiveShares(p, current) / 2
  {
    if !p.withdrawn && p.generation.reset == current.reset {
      LazyShiftIsEagerHalving(p.shares, current.scale - p.generation.scale);
      LazyShiftIsEagerHalving(p.shares, current.scale - p.generation.scale + 1);
    }
  }

  lemma OneRescaleKeeps(pool: Pool, positions: map<Pubkey, Position>)
    requires Consistent(pool, positions) && pool.generation.scale < SHARE_GENERATION_MASK
    ensures Ceil(pool.totalShares, 2) <= U128_MAX
    ensures Consistent(pool.(totalShares := Ceil(pool.totalShares, 2),
                             generation := Generation(pool.generation.reset, pool.generation.scale + 1)), positions)
  {
    var next := Generation(pool.generation.reset, pool.generation.scale + 1);
    forall o | o in positions
      ensures EffectiveShares(positions[o], next) * 2 <= EffectiveShares(positions[o], pool.generation)
    {
      EffectiveSharesHalve(positions[o], pool.generation);
    }
    SumScaled(AllEffectiveShares(positions, next), AllEffectiveShares(positions, pool.generation), 2, 1);
    VirtualSharesHalve(pool.generation.scale);
  }

  lemma {:induction false} RescalesKeep(pool: Pool, positions: map<Pubkey, Position>, steps: nat)
    requires Consistent(pool, positions) && pool.generation.scale + steps <= SHARE_GENERATION_MASK
    ensures HalveUp(pool.totalShares, steps) <= U128_MAX
    ensures Consistent(pool.(totalShares := HalveUp(pool.totalShares, steps),
                             generation := Generation(pool.generation.reset, pool.generation.scale + steps)), positions)
    decreases steps
  {
    if steps > 0 {
      OneRescaleKeeps(pool, positions);
      RescalesKeep(pool.(totalShares := Ceil(pool.totalShares, 2),
                         generation := Generation(pool.generation.reset, pool.generation.scale + 1)), positions, steps - 1);
    } else {
      assert pool.(totalShares := HalveUp(pool.totalShares, 0)) == pool;
    }
  }

  /** Catching up neither fails nor changes what a live position is worth to the pool. */
  lemma MoveKeepsEffective(p: Position, pool: Pool)
    requires !p.withdrawn && NotAhead(p.generation, pool.generation)
    ensures var r := MoveToCurrentGeneration(p, pool);
            && r.Ok?
            && r.value.0 == p.(shares := EffectiveShares(p, pool.generation), generation := pool.generation)
            && r.value.1 == (p.generation.reset == pool.generation.reset)
            && EffectiveShares(r.value.0, pool.generation) == EffectiveShares(p, pool.generation)
  {
    var shares := EffectiveShares(p, pool.generation);
    LazyShiftIsEagerHalving(shares, 0);
  }

  /** Shares of a position written at the pool's own generation count in full. */
  lemma CurrentShares(p: Position, current: Generation)
    requires p.generation == current
    ensures EffectiveShares(p, current) == if p.withdrawn then 0 else p.shares
  {
    LazyShiftIsEagerHalving(p.shares, 0);
  }

  // ------------------------------------------------------------------------------------------
  // Deposits
  // ------------------------------------------------------------------------------------------

  /** A mint leaves a consistent pool with room for its shares. */
  ghost predicate MintReady(pool: Pool, positions: map<Pubkey, Position>, minted: Minted) {
    && Consistent(minted.pool, positions)
    && minted.pool.outstanding == pool.outstanding
    && minted.pool.policy == pool.policy
    && minted.pool.schedule == pool.schedule
    && minted.pool.totalShares + minted.shares + VirtualShares(minted.pool.generation.scale) <= U128_MAX
  }

  lemma RescaledMintReady(pool: Pool, positions: map<Pubkey, Position>, minted: Minted)
    requires Consistent(pool, positions) && RescaledTo(pool, minted.pool) && HasRoom(minted)
    ensures MintReady(pool, positions, minted)
  {
    var steps := minted.pool.generation.scale - pool.generation.scale;
    RescalesKeep(pool, positions, steps);
    assert minted.pool == pool.(totalShares := HalveUp(pool.totalShares, steps),
                                generation := Generation(pool.generation.reset, pool.generation.scale + steps));
  }

  lemma CapacityMintReady(pool: Pool, positions: map<Pubkey, Position>, amount: u64, pricedBalance: u64)
    requires Consistent(pool, positions) && MintWithCapacity(pool, amount, pricedBalance).Ok?
    ensures MintReady(pool, positions, MintWithCapacity(pool, amount, pricedBalance).value)
  {
    MintTotal(pool, amount, pricedBalance);
    RescaledMintReady(pool, positions, MintWithCapacity(pool, amount, pricedBalance).value);
  }

  lemma MintKeeps(pool: Pool, positions: map<Pubkey, Position>, amount: u64, pricedBalance: u64)
    requires Consistent(pool, positions) && MintForDeposit(pool, amount, pricedBalance).Ok?
    ensures MintReady(pool, positions, MintForDeposit(pool, amount, pricedBalance).value)
  {
    RecapitalizationKeeps(pool, positions, pricedBalance);
    var recapitalized := BeginRecapitalization(pool, pricedBalance).value;
    CapacityMintReady(recapitalized, positions, amount, pricedBalance);
  }

  /** Crediting a caught-up position with freshly minted shares. */
  lemma CreditKeeps(pool: Pool, positions: map<Pubkey, Position>, owner: Pubkey, p: Position, amount: u64, shares: u128)
    requires Consistent(pool, positions) && amount > 0
    requires pool.outstanding + amount <= U64_MAX
    requires pool.totalShares + shares + VirtualShares(pool.generation.scale) <= U128_MAX
    requires p.generation == pool.generation && !p.withdrawn
    requires if owner in positions then
               && p.principal == positions[owner].principal + amount
               && p.shares == EffectiveShares(positions[owner], pool.generation) + shares
             else p.principal == amount && p.shares == shares
    ensures Consistent(pool.(outstanding := pool.outstanding + amount, totalShares := pool.totalShares + shares),
                       positions[owner := p])
  {
    WriteSums(positions, owner, p, pool.generation);
    CurrentShares(p, pool.generation);
  }

  lemma CreditDepositKeeps(l: Ledger, balance: AssetBalance, minted: Minted, owner: Pubkey, amount: u64, now: u64)
    requires amount > 0 && MintReady(l.pool, l.positions, minted)
    requires CreditDeposit(l, balance, minted, owner, amount, now).Ok?
    ensures Inv(CreditDeposit(l, balance, minted, owner, amount, now).value)
  {
    var l' := CreditDeposit(l, balance, minted, owner, amount, now).value;
    var found := OpenPosition(l.positions, owner, minted.pool).value;
    MoveKeepsEffective(found, minted.pool);
    if owner !in l.positions {
      CurrentShares(found, minted.pool.generation);
    }
    CreditKeeps(minted.pool, l.positions, owner, l'.positions[owner], amount, minted.shares);
  }

  lemma DepositKeeps(l: Ledger, owner: Pubkey, amount: u64, now: u64)
    requires Inv(l) && Deposit(l, owner, amount, now).Ok?
    ensures Inv(Deposit(l, owner, amount, now).value)
  {
    var balance := ReadBalance(l.market).value;
    var pricedBalance := PricedBalance(l.pool, ReadInsurance(balance));
    MintKeeps(l.pool, l.positions, amount, pricedBalance);
    CreditDepositKeeps(l, balance, MintForDeposit(l.pool, amount, pricedBalance).value, owner, amount, now);
  }
}
