/**
 The subledger's instructions in the program's own form (subledger/src/lib.rs): accounts are read into
 objects whose fields are updated step by step, and are written back only when the instruction
 succeeds. Each method is proved against the state machine of `ShareLedger`.
 */
module Subledger {
  import opened Machine
  import opened Division
  import opened WideArithmetic
  import opened ShareMath
  import opened Percolator
  import opened InsuranceRouting
  import opened ShareLedger
  import opened ShareSolvency
  import opened ShareExits

  /** The pool account while an instruction works on it. */
  class PoolAccount {
    const policy: Policy
    const schedule: Schedule
    var outstandingPrincipal: u64
    var totalShares: u128
    var shareGeneration: Generation

    function State(): Pool
      reads this
    {
      Pool(policy, outstandingPrincipal, totalShares, shareGeneration, schedule)
    }

    constructor (stored: Pool)
      ensures State() == stored
    {
      policy, schedule := stored.policy, stored.schedule;
      outstandingPrincipal, totalShares := stored.outstanding, stored.totalShares;
      shareGeneration := stored.generation;
    }

    /** Void every share of a fully impaired pool before new capital enters. */
    method BeginFullyImpairedRecapitalization(pricedBalance: u64) returns (r: Result<()>)
      modifies this
      ensures r.Ok? ==> BeginRecapitalization(old(State()), pricedBalance) == Ok(State())
      ensures r.Err? ==> BeginRecapitalization(old(State()), pricedBalance) == Err(r.error)
    {
      if pricedBalance != 0 || totalShares == 0 {
        return Ok(());
      }
      if outstandingPrincipal != 0 {
        shareGeneration :- EncodeGeneration(shareGeneration.reset + 1, 0);
      }
      totalShares := 0;
      r := Ok(());
    }

    /** Halve the total, rounding up, and open the next scale epoch. */
    method RescaleShares() returns (r: Result<()>)
      modifies this
      ensures r.Ok? ==> Rescale(old(State())) == Ok(State())
      ensures r.Err? ==> Rescale(old(State())) == Err(r.error)
    {
      var scaledTotal := Ceil(totalShares, 2);
      if scaledTotal == 0 || scaledTotal == totalShares {
        return Err(ArithmeticOverflow);
      }
      CeilIsLeast(totalShares, 2, totalShares);
      totalShares := scaledTotal;
      shareGeneration :- EncodeGeneration(shareGeneration.reset, shareGeneration.scale + 1);
      r := Ok(());
    }

    /** One attempt of the mint at the current scale; `None` asks for a rescale. */
    method TryMintShares(amount: u64, balance: u64, maximumBasis: u128, rescaled: bool) returns (r: Result<Option<u128>>)
      ensures r == TryMint(State(), amount, balance, maximumBasis, rescaled)
    {
      var virtualShares := VirtualShares(shareGeneration.scale);
      if totalShares + virtualShares > U128_MAX {
        return Ok(None);
      }
      var basis := totalShares + virtualShares;
      if basis > maximumBasis {
        return Ok(None);
      }
      var shares: Option<u128>;
      if rescaled {
        shares := WideMulDivCeil(amount, basis, balance + 1);
      } else {
        shares := WideMulDivFloor(amount, basis, balance + 1);
      }
      if shares == None {
        return Err(ArithmeticOverflow);
      }
      if totalShares + shares.value + virtualShares > U128_MAX {
        return Ok(None);
      }
      r := Ok(shares);
    }

    /** Mint for `amount`, rescaling until the shares have room: 129 tries at most. */
    method MintSharesWithCapacity(amount: u64, balance: u64) returns (r: Result<(u128, u128)>)
      modifies this
      ensures r.Ok? ==> MintWithCapacity(old(State()), amount, balance) == Ok(Minted(State(), r.value.0, r.value.1))
      ensures r.Err? ==> MintWithCapacity(old(State()), amount, balance) == Err(r.error)
    {
      var quotient := WideMulDivFloor(U128_MAX, balance + 1, balance + 1 + amount);
      if quotient == None {
        return Err(ArithmeticOverflow);
      }
      var maximumBasis := quotient.value;
      var rescaled := false;
      ghost var outcome := MintWithCapacity(State(), amount, balance);
      for i := 0 to MINT_TRIES
        invariant MintLoop(State(), amount, balance, maximumBasis, rescaled, MINT_TRIES - i) == outcome
      {
        var attempt :- TryMintShares(amount, balance, maximumBasis, rescaled);
        if attempt != None {
          return Ok((attempt.value, VirtualShares(shareGeneration.scale)));
        }
        var _ :- RescaleShares();
        rescaled := true;
      }
      r := Err(ArithmeticOverflow);
    }

    /** The whole mint of a deposit: recapitalize, mint, and refuse an unfair entry price. */
    method MintDepositShares(amount: u64, pricedBalance: u64) returns (r: Result<(u128, u128)>)
      modifies this
      ensures r.Ok? ==> MintForDeposit(old(State()), amount, pricedBalance) == Ok(Minted(State(), r.value.0, r.value.1))
      ensures r.Err? ==> MintForDeposit(old(State()), amount, pricedBalance) == Err(r.error)
    {
      var _ :- BeginFullyImpairedRecapitalization(pricedBalance);
      var minted :- MintSharesWithCapacity(amount, pricedBalance);
      var _ :- RequireBoundedShareRounding(amount, minted.0, totalShares, pricedBalance, minted.1);
      r := Ok(minted);
    }

    /** Retire `amount` of principal: burn the quoted shares, and reset an emptied pool. */
    method RetirePrincipal(amount: u64, quote: Quote) returns (r: Result<()>)
      requires amount <= outstandingPrincipal
      modifies this
      ensures r.Ok? ==> PoolAfterExit(old(State()), amount, quote) == Ok(State())
      ensures r.Err? ==> PoolAfterExit(old(State()), amount, quote) == Err(r.error)
    {
      outstandingPrincipal := outstandingPrincipal - amount;
      totalShares :- TotalSharesAfterExit(policy, outstandingPrincipal, quote.pricedAfter, totalShares, quote.burned);
      if outstandingPrincipal == 0 {
        shareGeneration := Generation(shareGeneration.reset, 0);
      }
      r := Ok(());
    }
  }

  /** A position account while an instruction works on it. */
  class PositionAccount {
    var principal: u64
    var shares: u128
    var shareGeneration: Generation
    var withdrawn: bool
    var withdrawnAmount: u64
    var startSlot: u64
    var voteLocked: bool
    var terminalReturned: bool
    var terminalReturnSlot: Option<u64>

    function State(): Position
      reads this
    {
      Position(principal, shares, shareGeneration, withdrawn, withdrawnAmount, startSlot, voteLocked,
               terminalReturned, terminalReturnSlot)
    }

    constructor (stored: Position)
      ensures State() == stored
    {
      principal, shares, shareGeneration := stored.principal, stored.shares, stored.generation;
      withdrawn, withdrawnAmount, startSlot := stored.withdrawn, stored.withdrawnAmount, stored.startSlot;
      voteLocked, terminalReturned := stored.voteLocked, stored.terminalReturned;
      terminalReturnSlot := stored.terminalReturnSlot;
    }

    /** Catch up with the pool's generation; the result says whether the shares were still current. */
    method MoveToCurrentShareGeneration(current: Generation, ghost pool: Pool) returns (r: Result<bool>)
      requires current == pool.generation
      modifies this
      ensures r.Ok? ==> MoveToCurrentGeneration(old(State()), pool) == Ok((State(), r.value))
      ensures r.Err? ==> MoveToCurrentGeneration(old(State()), pool) == Err(r.error)
    {
      if shareGeneration.reset > current.reset
        || (shareGeneration.reset == current.reset && shareGeneration.scale > current.scale) {
        return Err(InvalidAccountData);
      }
      var resetIsCurrent := shareGeneration.reset == current.reset;
      if shareGeneration.reset < current.reset {
        shares := 0;
      } else if shareGeneration.scale < current.scale {
        shares := ShiftRight(shares, current.scale - shareGeneration.scale);
      } else {
        assert Pow2(0) == 1 && shares / 1 == shares;
      }
      shareGeneration := current;
      r := Ok(resetIsCurrent);
    }

    /** Credit a deposit; topping up restarts the position's clock. */
    method Credit(amount: u64, minted: u128, now: u64) returns (r: Result<()>)
      modifies this
      ensures r == if old(principal) + amount > U64_MAX || old(shares) + minted > U128_MAX then Err(ArithmeticOverflow) else Ok(())
      ensures r.Ok? ==> State() == old(State()).(principal := old(principal) + amount, shares := old(shares) + minted, startSlot := now)
    {
      if principal + amount > U64_MAX || shares + minted > U128_MAX {
        return Err(ArithmeticOverflow);
      }
      principal := principal + amount;
      shares := shares + minted;
      startSlot := now;
      r := Ok(());
    }

    /** Take the quoted exit out of a caught-up position; an emptied position is withdrawn for good. */
    method Retire(amount: u64, quote: Quote, terminal: bool, now: u64) returns (r: Result<()>)
      requires State() == quote.position && amount <= principal
      modifies this
      ensures r.Ok? ==> PositionAfterExit(quote, amount, terminal, now) == Ok(State())
      ensures r.Err? ==> PositionAfterExit(quote, amount, terminal, now) == Err(r.error)
    {
      principal := principal - amount;
      if quote.current {
        if quote.retired > shares {
          return Err(InvalidAccountData);
        }
        shares := shares - quote.retired;
      } else if principal == 0 {
        shares := 0;
      }
      withdrawnAmount := if terminal then amount else Min(withdrawnAmount + quote.owed, U64_MAX);
      if principal == 0 {
        withdrawn := true;
        if terminal {
          voteLocked := false;
          terminalReturned := true;
          terminalReturnSlot := Some(Min(now, MAX_TERMINAL_RETURN_SLOT));
        }
      }
      r := Ok(());
    }
  }

  /** Catch the position up, then price the exit: what it retires, pays and burns. */
  method PriceExit(pool: Pool, position: PositionAccount, amount: u64, market: Market, insurance: u64) returns (r: Result<Quote>)
    requires amount <= pool.outstanding
    modifies position
    ensures r == QuoteExit(pool, old(position.State()), amount, market, insurance)
    ensures r.Ok? ==> position.State() == r.value.position
  {
    var pricedBalance := PricedBalance(pool, insurance);
    var current :- position.MoveToCurrentShareGeneration(pool.generation, pool);
    var retired :- SharesToRetire(position.State(), current, amount);
    var owed :- Owed(pool, position.State(), current, retired, amount, pricedBalance);
    if owed > 0 && market.phase.Live? && market.exposed {
      return Err(InvalidAccountData);
    }
    if owed > insurance {
      return Err(InvalidAccountData);
    }
    var pricedAfter := PricedAfter(pool, amount, insurance, owed);
    var burned: u128 := 0;
    if retired != 0 {
      burned :- RateSafeBurn(retired, pricedBalance, pricedAfter, pool.totalShares, VirtualShares(pool.generation.scale));
    }
    r := Ok(Quote(position.State(), current, retired, owed, burned, pricedAfter));
  }

  /** The stored accounts of one insurance pool and the market it operates. */
  class Program {
    var pool: Pool
    var positions: map<Pubkey, Position>
    var market: Market

    function State(): Ledger
      reads this
    {
      Ledger(pool, positions, market)
    }

    /** The share ledger is consistent, so that all claims together fit the insurance. */
    ghost predicate Valid()
      reads this
    {
      Inv(State())
    }

    constructor (policy: Policy, schedule: Schedule, market: Market)
      ensures State() == FreshLedger(policy, schedule, market) && Valid()
    {
      pool := Pool(policy, 0, 0, Generation(0, 0), schedule);
      positions := map[];
      this.market := market;
      new;
      FreshInv(policy, schedule, market);
    }

    method InsuranceDeposit(owner: Pubkey, amount: u64, now: u64) returns (r: Result<()>)
      modifies this
      ensures r.Ok? ==> Deposit(old(State()), owner, amount, now) == Ok(State())
      ensures r.Err? ==> Deposit(old(State()), owner, amount, now) == Err(r.error) && State() == old(State())
      ensures old(Valid()) ==> Valid()
    {
      ghost var before := State();
      if amount == 0 {
        return Err(InvalidInstructionData);
      }
      if now < pool.schedule.depositStart || now >= pool.schedule.depositDeadline {
        return Err(InvalidInstructionData);
      }
      var balanceBefore :- ReadBalance(market);
      var working := new PoolAccount(pool);
      var minted :- working.MintDepositShares(amount, PricedBalance(pool, ReadInsurance(balanceBefore)));
      r := CreditAccounts(balanceBefore, working, minted.0, minted.1, owner, amount, now);
      if r.Ok? && Inv(before) {
        DepositKeeps(before, owner, amount, now);
      }
    }

    /** Top up the domains and credit both accounts with the minted shares. */
    method CreditAccounts(balanceBefore: AssetBalance, working: PoolAccount, shares: u128, ghost virtualShares: u128,
                          owner: Pubkey, amount: u64, now: u64) returns (r: Result<()>)
      modifies this, working
      ensures var minted := Minted(old(working.State()), shares, virtualShares);
              CreditDeposit(old(State()), balanceBefore, minted, owner, amount, now)
              == (match r case Ok(_) => Ok(State()) case Err(e) => Err(e))
      ensures r.Err? ==> State() == old(State())
    {
      if pool.outstanding + amount > U64_MAX {
        return Err(ArithmeticOverflow);
      }
      var found :- OpenPosition(positions, owner, working.State());
      var position := new PositionAccount(found);
      var _ :- position.MoveToCurrentShareGeneration(working.shareGeneration, working.State());
      var market' :- TopUpInsuranceDomains(market, DepositDelta(Remaining(balanceBefore), amount));
      working.outstandingPrincipal := pool.outstanding + amount;
      if working.totalShares + shares > U128_MAX {
        return Err(ArithmeticOverflow);
      }
      working.totalShares := working.totalShares + shares;
      var _ :- position.Credit(amount, shares, now);

      pool := working.State();
      positions := positions[owner := position.State()];
      market := market';
      r := Ok(());
    }

    /** An exit of `request` atoms, or the terminal return of the whole position. */
    method InsuranceWithdraw(owner: Pubkey, request: Option<u64>, now: u64) returns (r: Result<u64>)
      modifies this
      ensures r.Ok? ==> Exit(old(State()), owner, request, now) == Ok((State(), r.value))
      ensures r.Err? ==> Exit(old(State()), owner, request, now) == Err(r.error) && State() == old(State())
      ensures old(Valid()) ==> Valid()
    {
      ghost var before := State();
      if request == Some(0) {
        return Err(InvalidInstructionData);
      }
      if owner !in positions {
        return Err(IllegalOwner);
      }
      var terminal := request.None?;
      var position := new PositionAccount(positions[owner]);
      if position.withdrawn || (terminal && !market.phase.ResolvedEmpty?) || (!terminal && position.voteLocked) {
        return Err(InvalidAccountData);
      }
      var amount := if terminal then position.principal else request.value;
      if amount == 0 {
        return Err(InvalidInstructionData);
      }
      if amount > position.principal || amount > pool.outstanding {
        return Err(InsufficientFunds);
      }
      var balance :- ReadBalance(market);
      var quote :- PriceExit(pool, position, amount, market, ReadInsurance(balance));
      var market' :- PayExit(market, balance, quote.owed, amount);
      var _ :- position.Retire(amount, quote, terminal, now);
      var working := new PoolAccount(pool);
      var _ :- working.RetirePrincipal(amount, quote);

      pool := working.State();
      positions := positions[owner := position.State()];
      market := market';
      r := Ok(quote.owed);
      if Inv(before) {
        ExitKeeps(before, owner, request, now);
      }
    }

    method SetLock(owner: Pubkey, locked: bool) returns (r: Result<()>)
      modifies this
      ensures r.Ok? ==> SetVoteLock(old(State()), owner, locked) == Ok(State())
      ensures r.Err? ==> SetVoteLock(old(State()), owner, locked) == Err(r.error) && State() == old(State())
      ensures old(Valid()) ==> Valid()
    {
      ghost var before := State();
      if owner !in positions {
        return Err(IllegalOwner);
      }
      positions := positions[owner := positions[owner].(voteLocked := locked)];
      r := Ok(());
      if Inv(before) {
        LockKeeps(before, owner, locked);
      }
    }
  }
}
