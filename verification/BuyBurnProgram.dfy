/**
 The buy-and-burn objects in their own form: the insurance and the schedule's progress are updated in
 place, and an execution plans its fills bid by bid before it touches the insurance or the book.
 */
module BuyBurnProgram {
  import opened Machine
  import opened Division
  import opened RewardMath
  import opened BidRanking
  import opened BuyBurn
  import opened BuyBurnSafety

  class Market0Insurance {
    var balance: u128
    var reserved: u128
    var retainedFloor: u128
    var burnBps: Bps

    function State(): Insurance
      reads this
    {
      Insurance(balance, reserved, retainedFloor, burnBps)
    }

    constructor (balance: u128, reserved: u128, burnBps: Bps)
      ensures State() == NewInsurance(balance, reserved, burnBps)
    {
      this.balance, this.reserved, this.burnBps := balance, reserved, burnBps;
      retainedFloor := SaturatingSub(balance, reserved);
    }

    method Profit(amount: u128) returns (r: Result<()>)
      modifies this
      ensures r.Ok? ==> RecordProfit(old(State()), amount) == Ok(State())
      ensures r.Err? ==> RecordProfit(old(State()), amount) == Err(r.error) && State() == old(State())
    {
      if amount == 0 {
        return Err(InvalidArgument);
      }
      var floorBefore :- ExpectedFloor(State());
      var floorDeficit := SaturatingSub(floorBefore, balance);
      var floorGrowthBase := SaturatingSub(amount, floorDeficit);
      if floorGrowthBase * burnBps > U128_MAX {
        return Err(ArithmeticOverflow);
      }
      ShareWithin(floorGrowthBase, burnBps, BPS);
      var burnGrowth := floorGrowthBase * burnBps / BPS;
      var retainedGrowth := floorGrowthBase - burnGrowth;
      if balance + amount > U128_MAX || retainedFloor + retainedGrowth > U128_MAX {
        return Err(ArithmeticOverflow);
      }
      balance := balance + amount;
      retainedFloor := retainedFloor + retainedGrowth;
      r := Ok(());
    }

    method Loss(amount: u128) returns (r: Result<()>)
      modifies this
      ensures r.Ok? ==> RecordLoss(old(State()), amount) == Ok(State())
      ensures r.Err? ==> RecordLoss(old(State()), amount) == Err(r.error) && State() == old(State())
    {
      if amount == 0 {
        return Err(InvalidArgument);
      }
      if amount > balance {
        return Err(InsufficientFunds);
      }
      balance := balance - amount;
      r := Ok(());
    }

    method Pull(amount: u128) returns (r: Result<()>)
      modifies this
      ensures r.Ok? ==> PullSurplus(old(State()), amount) == Ok(State())
      ensures r.Err? ==> PullSurplus(old(State()), amount) == Err(r.error) && State() == old(State())
    {
      var surplus :- WithdrawableSurplus(State());
      if amount > surplus {
        return Err(InsufficientFunds);
      }
      if amount > balance {
        return Err(ArithmeticOverflow);
      }
      balance := balance - amount;
      r := Ok(());
    }
  }

  /** The search for the next interval target, one interval at a time. */
  method NextIntervalTarget(s: Schedule, pulled: u128) returns (r: Result<u128>)
    ensures r == NextIntervalTargetAfter(s, pulled)
  {
    if pulled >= s.total {
      return Ok(s.total);
    }
    if pulled * s.intervalCount > U128_MAX {
      return Err(ArithmeticOverflow);
    }
    MulMonotone(0, pulled, s.intervalCount);
    DivParts(pulled * s.intervalCount, s.total);
    var interval := pulled * s.intervalCount / s.total + 1;
    while interval <= s.intervalCount
      invariant interval >= 0
      invariant NextTargetFrom(s, pulled, interval) == NextIntervalTargetAfter(s, pulled)
    {
      var target :- CheckedShare(s.total, interval, s.intervalCount);
      if target > pulled {
        return Ok(target);
      }
      interval := interval + 1;
    }
    r := Ok(s.total);
  }

  /** One planned write of a bid, applied only when the whole plan stands. */
  datatype BidUpdate = BidUpdate(index: nat, filled: u128, burned: u128)

  function Applied(bids: seq<Bid>, updates: seq<BidUpdate>): (r: seq<Bid>)
    ensures |r| == |bids|
    decreases |updates|
  {
    if updates == [] then bids
    else
      var before := Applied(bids, updates[..|updates| - 1]);
      var u := updates[|updates| - 1];
      if u.index < |before| then before[u.index := before[u.index].(filled := u.filled, burned := u.burned)] else before
  }

  predicate InBook(bids: seq<Bid>, updates: seq<BidUpdate>) {
    forall k :: 0 <= k < |updates| ==> updates[k].index < |bids|
  }

  /** Different bids of the book. */
  predicate Queued(bids: seq<Bid>, order: seq<nat>) {
    && (forall j :: 0 <= j < |order| ==> order[j] < |bids|)
    && (forall i, j :: 0 <= i < j < |order| ==> order[i] != order[j])
  }

  /** The bids from position `k` on have not been written yet. */
  predicate Untouched(bids: seq<Bid>, updates: seq<BidUpdate>, order: seq<nat>, k: nat)
    requires Queued(bids, order)
  {
    forall j :: k <= j < |order| ==> Applied(bids, updates)[order[j]] == bids[order[j]]
  }

  lemma OneMoreUpdate(bids: seq<Bid>, updates: seq<BidUpdate>, order: seq<nat>, k: nat, u: BidUpdate)
    requires Queued(bids, order) && Untouched(bids, updates, order, k) && k < |order| && u.index == order[k]
    ensures Untouched(bids, updates + [u], order, k + 1)
    ensures Applied(bids, updates + [u])
         == Applied(bids, updates)[u.index := bids[u.index].(filled := u.filled, burned := u.burned)]
  {
    assert (updates + [u])[..|updates|] == updates;
  }

  /** After one turn the round goes on with the rest of the queue, or has failed. */
  lemma NextTurn(st: Filling, order: seq<nat>, k: nat, turn: Result<Filling>)
    requires k < |order| && st.remaining > 0
    requires forall p :: 0 <= p < |order| ==> order[p] < |st.bids|
    requires turn == FillOne(st, order[k])
    ensures match turn
            case Ok(st') => |st'.bids| == |st.bids| && FillAll(st, order[k..]) == FillAll(st', order[k + 1..])
            case Err(e) => FillAll(st, order[k..]) == Err(e)
  {
    assert order[k..][0] == order[k] && order[k..][1..] == order[k + 1..];
  }

  /** The bid after a fill. */
  function FilledBid(bid: Bid, usdc: u128, coin: u128): Bid
    requires bid.filled + usdc <= U128_MAX && bid.burned + coin <= U128_MAX
  {
    bid.(filled := bid.filled + usdc, burned := bid.burned + coin)
  }

  /** Recording one fill continues the same round. */
  lemma OneMoreFill(book: seq<Bid>, order: seq<nat>, k: nat, st: Filling, updates: seq<BidUpdate>, usdc: u128, coin: u128)
    requires Queued(book, order) && k < |order| && Untouched(book, updates, order, k) && st.bids == Applied(book, updates)
    requires book[order[k]].filled + usdc <= U128_MAX && book[order[k]].burned + coin <= U128_MAX
    ensures var u := BidUpdate(order[k], book[order[k]].filled + usdc, book[order[k]].burned + coin);
            && Untouched(book, updates + [u], order, k + 1)
            && Applied(book, updates + [u]) == st.bids[order[k] := FilledBid(book[order[k]], usdc, coin)]
  {
    OneMoreUpdate(book, updates, order, k, BidUpdate(order[k], book[order[k]].filled + usdc, book[order[k]].burned + coin));
  }

  /** The round as a plan describes it: budget left, COIN burned, and the book with the updates applied. */
  ghost function Planned(book: seq<Bid>, r: Result<(u128, u128, seq<BidUpdate>)>): Result<Filling> {
    match r
    case Ok((remaining, burnedCoin, updates)) => Ok(Filling(remaining, burnedCoin, Applied(book, updates)))
    case Err(e) => Err(e)
  }

  class BuyBurnState {
    const schedule: Schedule
    var pulled: u128
    var burned: u128

    function State(insurance: Market0Insurance, bids: array<Bid>): Auction
      reads this, insurance, bids
    {
      Auction(insurance.State(), schedule, pulled, burned, bids[..])
    }

    constructor (schedule: Schedule)
      ensures this.schedule == schedule && pulled == 0 && burned == 0
    {
      this.schedule := schedule;
      pulled, burned := 0, 0;
    }

    /** The fill of one bid from what is left: its USDC and COIN, or nothing for less than an atom. */
    method FillBid(ghost st: Filling, index: nat, bid: Bid, remaining: u128, burnedCoin: u128)
      returns (r: Result<Option<(u128, u128)>>)
      requires index < |st.bids| && st.bids[index] == bid && st.remaining == remaining && st.burned == burnedCoin
      ensures match r
              case Err(e) => FillOne(st, index) == Err(e)
              case Ok(None) => FillOne(st, index) == Ok(st)
              case Ok(Some((usdc, coin))) =>
                && usdc <= remaining && burnedCoin + coin <= U128_MAX
                && bid.filled + usdc <= U128_MAX && bid.burned + coin <= U128_MAX
                && FillOne(st, index) == Ok(Filling(remaining - usdc, burnedCoin + coin,
                     st.bids[index := FilledBid(bid, usdc, coin)]))
    {
      var open :- RemainingUsdc(bid);
      var usdc := Min(remaining, open);
      var coin :- CoinForFill(bid, usdc);
      if coin == None {
        return Ok(None);
      }
      if bid.filled + usdc > U128_MAX || bid.burned + coin.value > U128_MAX || burnedCoin + coin.value > U128_MAX {
        return Err(ArithmeticOverflow);
      }
      r := Ok(Some((usdc, coin.value)));
    }

    /** One turn of the plan over the bids with the updates so far. */
    method PlanTurn(ghost book: seq<Bid>, ghost order: seq<nat>, ghost k: nat, index: nat, bid: Bid, remaining: u128,
                    burnedCoin: u128, updates: seq<BidUpdate>)
      returns (r: Result<(u128, u128, seq<BidUpdate>)>)
      requires k < |order| && remaining > 0 && Queued(book, order) && index == order[k] && bid == book[index]
      requires InBook(book, updates) && Untouched(book, updates, order, k)
      ensures r.Ok? ==> InBook(book, r.value.2) && Untouched(book, r.value.2, order, k + 1)
      ensures Planned(book, r) == FillOne(Filling(remaining, burnedCoin, Applied(book, updates)), index)
    {
      ghost var st := Filling(remaining, burnedCoin, Applied(book, updates));
      var fill :- FillBid(st, index, bid, remaining, burnedCoin);
      if fill == None {
        return Ok((remaining, burnedCoin, updates));
      }
      var (usdc, coin) := fill.value;
      OneMoreFill(book, order, k, st, updates, usdc, coin);
      r := Ok((remaining - usdc, burnedCoin + coin, updates + [BidUpdate(index, bid.filled + usdc, bid.burned + coin)]));
    }

    /** Visit the ranked bids best first and collect their fills; the book is not touched yet. */
    method PlanFills(bids: array<Bid>, cap: u128) returns (r: Result<(u128, u128, seq<BidUpdate>)>)
      requires bids.Length <= MAX_BIDS
      ensures r.Ok? ==> FillAll(Filling(cap, 0, bids[..]), Ranking(bids[..]))
                        == Ok(Filling(r.value.0, r.value.1, Applied(bids[..], r.value.2)))
      ensures r.Ok? ==> forall k :: 0 <= k < |r.value.2| ==> r.value.2[k].index < bids.Length
      ensures r.Err? ==> FillAll(Filling(cap, 0, bids[..]), Ranking(bids[..])) == Err(r.error)
    {
      var ranked := TopBidIndices(bids);
      SortedUnique(bids[..], ranked.value, ranked.value);
      r := FillInOrder(bids, ranked.value, cap);
    }

    method FillInOrder(bids: array<Bid>, order: seq<nat>, cap: u128) returns (r: Result<(u128, u128, seq<BidUpdate>)>)
      requires Queued(bids[..], order)
      ensures r.Ok? ==> FillAll(Filling(cap, 0, bids[..]), order)
                        == Ok(Filling(r.value.0, r.value.1, Applied(bids[..], r.value.2)))
      ensures r.Ok? ==> forall k :: 0 <= k < |r.value.2| ==> r.value.2[k].index < bids.Length
      ensures r.Err? ==> FillAll(Filling(cap, 0, bids[..]), order) == Err(r.error)
    {
      var remaining: u128, burnedCoin: u128 := cap, 0;
      var updates: seq<BidUpdate> := [];
      ghost var book := bids[..];
      ghost var outcome := FillAll(Filling(cap, 0, book), order);
      assert order[0..] == order;
      for k := 0 to |order|
        invariant InBook(book, updates)
        invariant Untouched(book, updates, order, k)
        invariant FillAll(Filling(remaining, burnedCoin, Applied(book, updates)), order[k..]) == outcome
      {
        if remaining == 0 {
          break;
        }
        ghost var st := Filling(remaining, burnedCoin, Applied(book, updates));
        var turn := PlanTurn(book, order, k, order[k], bids[order[k]], remaining, burnedCoin, updates);
        NextTurn(st, order, k, Planned(book, turn));
        var planned :- turn;
        remaining, burnedCoin, updates := planned.0, planned.1, planned.2;
      }
      r := Ok((remaining, burnedCoin, updates));
    }

    /** Write the planned fills into the book. */
    method ApplyUpdates(bids: array<Bid>, updates: seq<BidUpdate>)
      requires forall k :: 0 <= k < |updates| ==> updates[k].index < bids.Length
      modifies bids
      ensures bids[..] == Applied(old(bids[..]), updates)
    {
      for k := 0 to |updates|
        invariant bids[..] == Applied(old(bids[..]), updates[..k])
      {
        assert updates[..k + 1][..k] == updates[..k];
        var u := updates[k];
        bids[u.index] := bids[u.index].(filled := u.filled, burned := u.burned);
      }
      assert updates[..|updates|] == updates;
    }

    /** Pull the plan's spending from the insurance and record its fills. */
    method Commit(insurance: Market0Insurance, bids: array<Bid>, pull: u128, burnedCoin: u128, updates: seq<BidUpdate>)
      returns (r: Result<()>)
      requires InBook(bids[..], updates)
      modifies this, insurance, bids
      ensures r.Ok? ==> Settle(old(State(insurance, bids)), pull, burnedCoin, Applied(old(bids[..]), updates))
                        == Ok(State(insurance, bids))
      ensures r.Err? ==> Settle(old(State(insurance, bids)), pull, burnedCoin, Applied(old(bids[..]), updates))
                         == Err(r.error)
                         && State(insurance, bids) == old(State(insurance, bids))
    {
      if pulled + pull > U128_MAX || burned + burnedCoin > U128_MAX {
        return Err(ArithmeticOverflow);
      }
      var newPulled := pulled + pull;
      var newBurned := burned + burnedCoin;
      var _ :- insurance.Pull(pull);
      ApplyUpdates(bids, updates);
      pulled := newPulled;
      burned := newBurned;
      r := Ok(());
    }

    method RunExecution(insurance: Market0Insurance, bids: array<Bid>, slot: u64) returns (r: Result<u128>)
      requires ScheduleOk(schedule)
      modifies this, insurance, bids
      ensures r.Ok? ==> Execute(old(State(insurance, bids)), slot) == Ok(State(insurance, bids))
      ensures r.Ok? ==> pulled == old(pulled) + r.value
      ensures r.Err? ==> Execute(old(State(insurance, bids)), slot) == Err(r.error)
                         && State(insurance, bids) == old(State(insurance, bids))
      ensures old(AuctionOk(State(insurance, bids))) ==> AuctionOk(State(insurance, bids))
    {
      var cap :- BudgetCap(State(insurance, bids), slot);
      if cap == 0 {
        return Ok(0);
      }
      if bids.Length > MAX_BIDS {
        return Err(InvalidArgument);
      }
      var plan :- PlanFills(bids, cap);
      if plan.0 > cap {
        return Err(ArithmeticOverflow);
      }
      var pull := cap - plan.0;
      if pull == 0 {
        return Ok(0);
      }
      var _ :- Commit(insurance, bids, pull, plan.1, plan.2);
      r := Ok(pull);
      if AuctionOk(old(State(insurance, bids))) {
        ExecuteKeeps(old(State(insurance, bids)), slot);
      }
    }
  }
}
