/**
 What every run of the buy-and-burn keeps: the release is never outrun, the insurance floor never pierced,
 fills add up to the pull, no bid is overfilled or pays more than its own price, and better bids go first.
 */
module BuyBurnSafety {
  import opened Machine
  import opened Division
  import opened RewardMath
  import opened BidRanking
  import opened BuyBurn

  // ------------------------------------------------------------------------------------------
  // Insurance
  // ------------------------------------------------------------------------------------------

  function Surplus(i: Insurance): nat {
    SaturatingSub(i.balance, i.reserved + i.retainedFloor)
  }

  /**
   Losses are made good before anything becomes burnable: a profit adds to the withdrawable surplus just
   the burn share of what exceeds the floor's deficit, and the floor itself never falls.
   */
  lemma ProfitRestoresFloorFirst(i: Insurance, amount: u128)
    requires i.reserved + i.retainedFloor <= U128_MAX && RecordProfit(i, amount).Ok?
    ensures var i' := RecordProfit(i, amount).value;
            var deficit := SaturatingSub(i.reserved + i.retainedFloor, i.balance);
            && i'.balance == i.balance + amount && i'.reserved == i.reserved
            && i'.retainedFloor >= i.retainedFloor
            && i'.reserved + i'.retainedFloor <= U128_MAX
            && Surplus(i') == Surplus(i) + SaturatingSub(amount, deficit) * i.burnBps / BPS
  {
    ShareWithin(SaturatingSub(amount, SaturatingSub(i.reserved + i.retainedFloor, i.balance)), i.burnBps, BPS);
  }

  // ------------------------------------------------------------------------------------------
  // The release schedule
  // ------------------------------------------------------------------------------------------

  predicate ScheduleOk(s: Schedule) {
    && s.intervalSlots > 0 && 0 < s.intervalCount <= MAX_INTERVALS
    && s.end == s.start + s.intervalSlots * s.intervalCount
  }

  /** The cumulative budget after `n` intervals. */
  function Target(s: Schedule, n: nat): nat
    requires s.intervalCount > 0
  {
    MulMonotone(0, s.total, n);
    DivParts(s.total * n, s.intervalCount);
    s.total * n / s.intervalCount
  }

  /** The budget released by `slot`, as an unbounded number. */
  function Released(s: Schedule, slot: u64): nat
    requires ScheduleOk(s)
  {
    if slot <= s.start then 0 else if slot >= s.end then s.total else Target(s, IntervalsElapsed(s, slot))
  }

  lemma NewScheduleOk(start: u64, intervalSlots: u64, intervalCount: u64, insurance: Insurance)
    requires NewSchedule(start, intervalSlots, intervalCount, insurance).Ok?
    ensures var s := NewSchedule(start, intervalSlots, intervalCount, insurance).value;
            ScheduleOk(s) && s.total == Surplus(insurance)
  {
  }

  lemma ReleasedExact(s: Schedule, slot: u64)
    requires ScheduleOk(s) && BudgetReleasedBy(s, slot).Ok?
    ensures BudgetReleasedBy(s, slot).value == Released(s, slot)
  {
  }

  /** Between start and end the release is the target of exactly the completed intervals. */
  lemma ReleasedIsCompletedIntervals(s: Schedule, slot: u64, n: nat)
    requires ScheduleOk(s) && s.start < slot < s.end
    requires n * s.intervalSlots <= slot - s.start < (n + 1) * s.intervalSlots
    ensures n < s.intervalCount && Released(s, slot) == Target(s, n)
  {
    Distribute(n, 1, s.intervalSlots);
    DivUnique(slot - s.start, s.intervalSlots, n);
    if n >= s.intervalCount {
      MulMonotone(s.intervalCount, n, s.intervalSlots);
      assert false;
    }
  }

  lemma TargetMonotone(s: Schedule, m: nat, n: nat)
    requires s.intervalCount > 0 && m <= n
    ensures Target(s, m) <= Target(s, n)
    ensures Target(s, s.intervalCount) == s.total
  {
    MulMonotone(m, n, s.total);
    FloorIsLargest(s.total * m, s.intervalCount, Target(s, m));
    FloorIsLargest(s.total * n, s.intervalCount, Target(s, m));
    DivUnique(s.total * s.intervalCount, s.intervalCount, s.total);
  }

  /** The release never shrinks with time and never exceeds the budget. */
  lemma ReleasedMonotone(s: Schedule, slot: u64, later: u64)
    requires ScheduleOk(s) && slot <= later
    ensures Released(s, slot) <= Released(s, later) <= s.total
  {
    if s.start < later < s.end {
      TargetMonotone(s, IntervalsElapsed(s, later), s.intervalCount);
    }
    if s.start < slot < s.end {
      TargetMonotone(s, IntervalsElapsed(s, slot), s.intervalCount);
      if later < s.end {
        FloorIsLargest(slot - s.start, s.intervalSlots, (slot - s.start) / s.intervalSlots);
        FloorIsLargest(later - s.start, s.intervalSlots, (slot - s.start) / s.intervalSlots);
        TargetMonotone(s, IntervalsElapsed(s, slot), IntervalsElapsed(s, later));
      }
    }
  }

  /** `t` is the least interval target above `pulled`. */
  ghost predicate LeastTargetAbove(s: Schedule, pulled: nat, t: nat)
    requires s.intervalCount > 0
  {
    && pulled < t <= s.total
    && forall n: nat :: pulled < Target(s, n) ==> t <= Target(s, n)
  }

  lemma {:induction false} NextTargetFromLeast(s: Schedule, pulled: u128, interval: nat)
    requires ScheduleOk(s) && pulled < s.total && 0 < interval <= s.intervalCount
    requires Target(s, interval - 1) <= pulled
    requires NextTargetFrom(s, pulled, interval).Ok?
    ensures LeastTargetAbove(s, pulled, NextTargetFrom(s, pulled, interval).value)
    decreases s.intervalCount - interval
  {
    TargetMonotone(s, interval, s.intervalCount);
    if Target(s, interval) > pulled {
      forall n: nat | pulled < Target(s, n) ensures Target(s, interval) <= Target(s, n) {
        if n < interval {
          TargetMonotone(s, n, interval - 1);
          assert false;
        }
        TargetMonotone(s, interval, n);
      }
    } else {
      NextTargetFromLeast(s, pulled, interval + 1);
    }
  }

  /** Starting the search past the completed intervals misses no target. */
  lemma NextTargetIsLeast(s: Schedule, pulled: u128)
    requires ScheduleOk(s) && pulled < s.total && NextIntervalTargetAfter(s, pulled).Ok?
    ensures LeastTargetAbove(s, pulled, NextIntervalTargetAfter(s, pulled).value)
  {
    var completed := pulled * s.intervalCount / s.total;
    CompletedIntervals(s, pulled);
    NextTargetFromLeast(s, pulled, completed + 1);
  }

  // ------------------------------------------------------------------------------------------
  // Bids
  // ------------------------------------------------------------------------------------------

  /** Neither side overfilled, both closed together, and never more COIN per USDC than was bid. */
  predicate BidOk(bid: Bid) {
    && bid.coin > 0 && bid.usdc > 0 && bid.coin * bid.usdc <= U128_MAX
    && bid.filled <= bid.usdc && bid.burned <= bid.coin
    && (bid.filled == bid.usdc <==> bid.burned == bid.coin)
    && bid.burned * bid.usdc <= bid.filled * bid.coin
  }

  predicate BidsOk(bids: seq<Bid>) {
    forall i :: 0 <= i < |bids| ==> BidOk(bids[i])
  }

  /** A point between two points under the bid's price line is under it too. */
  lemma InterpolatedPrice(coin: nat, usdc: nat, filled: nat, burned: nat, fill: nat, c: nat)
    requires burned <= coin && filled + fill < usdc
    requires burned * usdc <= filled * coin
    requires c * (usdc - filled) <= (coin - burned) * fill
    ensures (burned + c) * usdc <= (filled + fill) * coin
  {
    var open := usdc - filled;
    ScaledBurn(coin, usdc, burned, open, fill, c);
    MulMonotone(burned * usdc, filled * coin, open - fill);
    ScaledFill(coin, usdc, filled, open, fill);
    CancelFactor((burned + c) * usdc, (filled + fill) * coin, open);
  }

  lemma ScaledBurn(coin: nat, usdc: nat, burned: nat, open: nat, fill: nat, c: nat)
    requires burned <= coin && c * open <= (coin - burned) * fill
    ensures (burned + c) * usdc * open <= burned * usdc * (open - fill) + coin * usdc * fill
  {
    MulMonotone(c * open, (coin - burned) * fill, usdc);
    assert (burned + c) * usdc * open == burned * usdc * open + c * open * usdc;
    assert (coin - burned) * fill * usdc == coin * usdc * fill - burned * usdc * fill;
    assert burned * usdc * (open - fill) == burned * usdc * open - burned * usdc * fill;
  }

  lemma ScaledFill(coin: nat, usdc: nat, filled: nat, open: nat, fill: nat)
    requires usdc == filled + open
    ensures filled * coin * (open - fill) + coin * usdc * fill == (filled + fill) * coin * open
  {
    assert coin * usdc * fill == filled * coin * fill + coin * open * fill;
    assert filled * coin * (open - fill) == filled * coin * open - filled * coin * fill;
    assert (filled + fill) * coin * open == filled * coin * open + coin * open * fill;
  }

  /** The budget does not buy one atom of COIN at the price of what is left of a bid. */
  predicate BelowAtom(rest: Remaining, budget: nat) {
    rest.coin * budget < rest.usdc
  }

  /** What one turn did to bid `i`: nothing for less than an atom of COIN, or a fill within the bid. */
  predicate TurnOk(st: Filling, i: nat, st': Filling)
    requires Rankable(st.bids, i)
  {
    var rest := Rest(st.bids, i);
    if st' == st then st.remaining < rest.usdc && BelowAtom(rest, st.remaining)
    else
      && |st'.bids| == |st.bids| && st'.bids == st.bids[i := st'.bids[i]]
      && BidOk(st'.bids[i])
      && st'.remaining + st'.bids[i].filled == st.remaining + st.bids[i].filled
      && st'.burned - st'.bids[i].burned == st.burned - st.bids[i].burned
      && st'.bids[i] == st.bids[i].(filled := st'.bids[i].filled, burned := st'.bids[i].burned)
      && (st'.bids[i].filled == st'.bids[i].usdc || st'.remaining == 0)
  }

  /** A turn can only fail when the COIN burned in this execution overflows. */
  lemma TurnKeeps(st: Filling, i: nat)
    requires Rankable(st.bids, i) && BidOk(st.bids[i]) && st.remaining > 0
    ensures FillOne(st, i).Ok? ==> TurnOk(st, i, FillOne(st, i).value)
    ensures st.burned + Rest(st.bids, i).coin <= U128_MAX ==> FillOne(st, i).Ok?
  {
    var (bid, rest) := (st.bids[i], Rest(st.bids, i));
    if st.remaining < rest.usdc {
      PartialFill(bid, rest, st.remaining);
    }
  }

  /** Pro rata COIN for part of a bid: the largest amount within the price of what is left, never all of it. */
  lemma PartialFill(bid: Bid, rest: Remaining, fill: u128)
    requires BidOk(bid) && RankableBid(bid) == Some(rest) && 0 < fill < rest.usdc
    ensures CoinForFill(bid, fill).Ok?
    ensures match CoinForFill(bid, fill).value
            case None => BelowAtom(rest, fill)
            case Some(c) =>
              && 0 < c < rest.coin
              && c * rest.usdc <= rest.coin * fill < (c + 1) * rest.usdc
              && BidOk(bid.(filled := bid.filled + fill, burned := bid.burned + c))
  {
    FillRounding(rest.coin, rest.usdc, fill);
    InterpolatedPrice(bid.coin, bid.usdc, bid.filled, bid.burned, fill, rest.coin * fill / rest.usdc);
  }

  lemma FillRounding(coin: nat, usdc: nat, fill: nat)
    requires coin > 0 && 0 < fill < usdc
    ensures coin * fill <= coin * usdc
    ensures var c := coin * fill / usdc;
            && 0 <= c < coin && c * usdc <= coin * fill < (c + 1) * usdc
            && (c == 0 <==> coin * fill < usdc)
  {
    MulMonotone(fill, usdc, coin);
    MulMonotone(fill + 1, usdc, coin);
    Distribute(fill, 1, coin);
    FloorIsLargest(coin * fill, usdc, 0);
    FloorIsLargest(coin * fill, usdc, 1);
    FloorIsLargest(coin * fill, usdc, coin * fill / usdc);
    FloorIsLargest(coin * fill, usdc, coin * fill / usdc + 1);
    FloorIsLargest(coin * fill, usdc, coin);
  }

  // ------------------------------------------------------------------------------------------
  // Whole executions
  // ------------------------------------------------------------------------------------------

  function TotalFilled(bids: seq<Bid>): nat {
    if bids == [] then 0 else bids[0].filled + TotalFilled(bids[1..])
  }

  function TotalBurned(bids: seq<Bid>): nat {
    if bids == [] then 0 else bids[0].burned + TotalBurned(bids[1..])
  }

  lemma {:induction false} WriteBid(bids: seq<Bid>, i: nat, bid: Bid)
    requires i < |bids|
    ensures TotalFilled(bids[i := bid]) == TotalFilled(bids) - bids[i].filled + bid.filled
    ensures TotalBurned(bids[i := bid]) == TotalBurned(bids) - bids[i].burned + bid.burned
  {
    if i > 0 {
      WriteBid(bids[1..], i - 1, bid);
      assert bids[i := bid][1..] == bids[1..][i - 1 := bid];
    } else {
      assert bids[i := bid][1..] == bids[1..];
    }
  }

  /** The bids still to come keep their order when the first one is filled. */
  lemma QueueTail(bids: seq<Bid>, order: seq<nat>, bid: Bid)
    requires order != [] && Sorted(bids, order)
    ensures forall p :: 1 <= p < |order| ==> order[p] != order[0]
    ensures Sorted(bids[order[0] := bid], order[1..])
  {
    forall p | 1 <= p < |order| ensures order[p] != order[0] {
      assert Before(bids, order[0], order[p]);
    }
    var bids' := bids[order[0] := bid];
    forall p, q | 0 <= p < q < |order| - 1 ensures Before(bids', order[1..][p], order[1..][q]) {
      assert Before(bids, order[p + 1], order[q + 1]);
    }
  }

  /** What a whole round keeps: the budget it spent is in the bids, and so is the COIN it burned. */
  predicate RoundOk(st: Filling, order: seq<nat>, st': Filling) {
    && |st'.bids| == |st.bids|
    && BidsOk(st'.bids)
    && st'.remaining <= st.remaining
    && st'.remaining + TotalFilled(st'.bids) == st.remaining + TotalFilled(st.bids)
    && st'.burned - TotalBurned(st'.bids) == st.burned - TotalBurned(st.bids)
    && forall i :: 0 <= i < |st.bids| && i !in order ==> st'.bids[i] == st.bids[i]
  }

  lemma {:induction false} RoundKeeps(st: Filling, order: seq<nat>)
    requires Sorted(st.bids, order) && BidsOk(st.bids) && FillAll(st, order).Ok?
    ensures RoundOk(st, order, FillAll(st, order).value)
    decreases |order|
  {
    if order != [] && st.remaining > 0 {
      var st1 := FillOne(st, order[0]).value;
      TurnKeeps(st, order[0]);
      WriteBid(st.bids, order[0], st1.bids[order[0]]);
      QueueTail(st.bids, order, st1.bids[order[0]]);
      assert st1.bids == st.bids[order[0] := st1.bids[order[0]]];
      RoundKeeps(st1, order[1..]);
      assert forall i :: i in order[1..] ==> i in order;
    }
  }

  /** What could not buy an atom from a better bid buys none from a worse one. */
  lemma NoAtomFromWorse(better: Remaining, worse: Remaining, budget: u128)
    requires better.usdc > 0 && worse.coin > 0 && BelowAtom(better, budget)
    requires better.coin * worse.usdc >= worse.coin * better.usdc
    ensures budget < worse.usdc && BelowAtom(worse, budget)
  {
    if budget >= worse.usdc {
      MulMonotone(worse.usdc, budget, better.coin);
      MulMonotone(1, worse.coin, better.usdc);
      assert false;
    }
    MulMonotone(worse.coin * better.usdc, better.coin * worse.usdc, budget);
    MulMonotone(better.coin * budget + 1, better.usdc, worse.usdc);
    assert worse.coin * budget * better.usdc == worse.coin * better.usdc * budget;
    assert better.coin * worse.usdc * budget == better.coin * budget * worse.usdc;
    assert (better.coin * budget + 1) * worse.usdc == better.coin * budget * worse.usdc + worse.usdc;
    if worse.coin * budget >= worse.usdc {
      MulMonotone(worse.usdc, worse.coin * budget, better.usdc);
      assert false;
    }
  }

  /** Once a bid is passed over for less than an atom, no worse bid is filled either. */
  lemma {:induction false} PassedOverEndsRound(st: Filling, order: seq<nat>, better: Remaining)
    requires Sorted(st.bids, order) && BidsOk(st.bids) && st.remaining > 0
    requires better.usdc > 0 && BelowAtom(better, st.remaining)
    requires forall p :: 0 <= p < |order| ==>
               better.coin * Rest(st.bids, order[p]).usdc >= Rest(st.bids, order[p]).coin * better.usdc
    ensures FillAll(st, order) == Ok(st)
    decreases |order|
  {
    if order != [] {
      var rest := Rest(st.bids, order[0]);
      NoAtomFromWorse(better, rest, st.remaining);
      PartialFill(st.bids[order[0]], rest, st.remaining);
      FloorIsLargest(rest.coin * st.remaining, rest.usdc, 1);
      PassedOverEndsRound(st, order[1..], better);
    }
  }

  /** Best first: a bid is filled only after every better-ranked bid has been filled completely. */
  lemma {:induction false} BestFirst(st: Filling, order: seq<nat>, p: nat, q: nat)
    requires Sorted(st.bids, order) && BidsOk(st.bids) && FillAll(st, order).Ok?
    requires p < q < |order|
    ensures var st' := FillAll(st, order).value;
            && |st'.bids| == |st.bids|
            && (st'.bids[order[q]] != st.bids[order[q]] ==> st'.bids[order[p]].filled == st'.bids[order[p]].usdc)
    decreases |order|
  {
    RoundKeeps(st, order);
    if st.remaining > 0 {
      var st1 := FillOne(st, order[0]).value;
      TurnKeeps(st, order[0]);
      QueueTail(st.bids, order, st1.bids[order[0]]);
      assert st1.bids == st.bids[order[0] := st1.bids[order[0]]];
      assert order[1..][q - 1] == order[q];
      if p > 0 {
        assert order[1..][p - 1] == order[p];
        BestFirst(st1, order[1..], p - 1, q - 1);
      } else if st1 == st {
        SkippedEndsRound(st, order);
      } else {
        RoundKeeps(st1, order[1..]);
        assert order[0] !in order[1..];
      }
    }
  }

  /** The bid is closed, or what is left of the budget does not buy one atom from it. */
  predicate Done(st: Filling, i: nat)
    requires i < |st.bids|
  {
    st.bids[i].filled == st.bids[i].usdc
    || (Rankable(st.bids, i) && BelowAtom(Rest(st.bids, i), st.remaining))
  }

  /** A round leaves budget over only when no ranked bid could sell another atom for it. */
  lemma {:induction false} RoundExhausts(st: Filling, order: seq<nat>, p: nat)
    requires Sorted(st.bids, order) && BidsOk(st.bids) && FillAll(st, order).Ok? && p < |order|
    ensures var st' := FillAll(st, order).value;
            |st'.bids| == |st.bids| && (st'.remaining > 0 ==> Done(st', order[p]))
    decreases |order|
  {
    RoundKeeps(st, order);
    if st.remaining > 0 {
      var st1 := FillOne(st, order[0]).value;
      TurnKeeps(st, order[0]);
      QueueTail(st.bids, order, st1.bids[order[0]]);
      assert st1.bids == st.bids[order[0] := st1.bids[order[0]]];
      if p > 0 {
        assert order[1..][p - 1] == order[p];
        RoundExhausts(st1, order[1..], p - 1);
      } else if st1 == st {
        SkippedEndsRound(st, order);
      } else {
        RoundKeeps(st1, order[1..]);
        assert order[0] !in order[1..];
      }
    }
  }

  /** Skipping the best bid ends the round. */
  lemma SkippedEndsRound(st: Filling, order: seq<nat>)
    requires order != [] && Sorted(st.bids, order) && BidsOk(st.bids) && st.remaining > 0
    requires BelowAtom(Rest(st.bids, order[0]), st.remaining)
    ensures FillAll(st, order[1..]) == Ok(st)
  {
    forall r | 0 <= r < |order| - 1
      ensures Rest(st.bids, order[0]).coin * Rest(st.bids, order[1..][r]).usdc
           >= Rest(st.bids, order[1..][r]).coin * Rest(st.bids, order[0]).usdc
    {
      assert Before(st.bids, order[0], order[r + 1]);
    }
    PassedOverEndsRound(st, order[1..], Rest(st.bids, order[0]));
  }

  // ------------------------------------------------------------------------------------------
  // Executions
  // ------------------------------------------------------------------------------------------

  ghost predicate AuctionOk(a: Auction) {
    && ScheduleOk(a.schedule)
    && a.insurance.reserved + a.insurance.retainedFloor <= U128_MAX
    && BidsOk(a.bids)
  }

  /** An execution moved `pull` from the insurance into fills, within every limit of this slot. */
  ghost predicate Executed(a: Auction, slot: u64, a': Auction)
    requires ScheduleOk(a.schedule)
  {
    && a' == a.(insurance := a.insurance.(balance := a'.insurance.balance), pulled := a'.pulled,
                burned := a'.burned, bids := a'.bids)
    && a.pulled <= a'.pulled
    && a'.insurance.balance + a'.pulled == a.insurance.balance + a.pulled
    && a'.pulled - a.pulled == TotalFilled(a'.bids) - TotalFilled(a.bids)
    && a'.burned - a.burned == TotalBurned(a'.bids) - TotalBurned(a.bids)
    && (a'.pulled > a.pulled ==>
          && a'.pulled <= Released(a.schedule, slot)
          && (forall n: nat :: a.pulled < Target(a.schedule, n) ==> a'.pulled <= Target(a.schedule, n))
          && a'.insurance.balance >= a.insurance.reserved + a.insurance.retainedFloor)
  }

  lemma CapWithinLimits(a: Auction, slot: u64)
    requires ScheduleOk(a.schedule) && a.insurance.reserved + a.insurance.retainedFloor <= U128_MAX
    requires BudgetCap(a, slot).Ok? && BudgetCap(a, slot).value > 0
    ensures var cap := BudgetCap(a, slot).value;
            && a.pulled + cap <= Released(a.schedule, slot) <= a.schedule.total
            && (forall n: nat :: a.pulled < Target(a.schedule, n) ==> a.pulled + cap <= Target(a.schedule, n))
            && cap <= Surplus(a.insurance)
  {
    ReleasedExact(a.schedule, slot);
    ReleasedMonotone(a.schedule, slot, slot);
    NextTargetIsLeast(a.schedule, a.pulled);
  }

  /** One execution: within the release, above the floor, best bids first, and nothing created or lost. */
  lemma ExecuteKeeps(a: Auction, slot: u64)
    requires AuctionOk(a) && Execute(a, slot).Ok?
    ensures AuctionOk(Execute(a, slot).value)
    ensures Executed(a, slot, Execute(a, slot).value)
  {
    var cap := BudgetCap(a, slot).value;
    if cap > 0 {
      CapWithinLimits(a, slot);
      RoundKeeps(Filling(cap, 0, a.bids), Ranking(a.bids));
    }
  }

  /** Best first across an execution of the whole book. */
  lemma ExecuteBestFirst(a: Auction, slot: u64, i: nat, j: nat)
    requires AuctionOk(a) && Execute(a, slot).Ok? && Before(a.bids, i, j)
    ensures var a' := Execute(a, slot).value;
            |a'.bids| == |a.bids| && (a'.bids[j] != a.bids[j] ==> a'.bids[i].filled == a'.bids[i].usdc)
  {
    var cap := BudgetCap(a, slot).value;
    if cap > 0 {
      var order := Ranking(a.bids);
      RoundKeeps(Filling(cap, 0, a.bids), order);
      assert i in order && j in order;
      var p, q :| 0 <= p < |order| && 0 <= q < |order| && order[p] == i && order[q] == j;
      RankedEarlier(a.bids, order, p, q);
      BestFirst(Filling(cap, 0, a.bids), order, p, q);
    }
  }

  // ------------------------------------------------------------------------------------------
  // When an execution fails
  // ------------------------------------------------------------------------------------------

  /** The COIN for part of what is left of a bid. */
  function CoinFor(rest: Remaining, usdc: nat): nat
    requires rest.usdc > 0
  {
    MulMonotone(0, rest.coin, usdc);
    DivParts(rest.coin * usdc, rest.usdc);
    if usdc >= rest.usdc then rest.coin else rest.coin * usdc / rest.usdc
  }

  /** The COIN that a budget burns along a queue of different bids, as an unbounded number. */
  ghost function Burns(bids: seq<Bid>, order: seq<nat>, budget: nat): nat
    requires forall p :: 0 <= p < |order| ==> Rankable(bids, order[p])
    decreases |order|
  {
    if order == [] || budget == 0 then 0
    else
      var rest := Rest(bids, order[0]);
      var coin := CoinFor(rest, budget);
      if coin == 0 then Burns(bids, order[1..], budget)
      else coin + Burns(bids, order[1..], budget - Min(budget, rest.usdc))
  }

  /** Only the bids of the queue matter. */
  lemma {:induction false} BurnsFrame(bids: seq<Bid>, bids': seq<Bid>, order: seq<nat>, budget: nat)
    requires forall p :: 0 <= p < |order| ==>
               Rankable(bids, order[p]) && Rankable(bids', order[p]) && bids[order[p]] == bids'[order[p]]
    ensures Burns(bids, order, budget) == Burns(bids', order, budget)
    decreases |order|
  {
    if order != [] && budget > 0 {
      var rest := Rest(bids, order[0]);
      BurnsFrame(bids, bids', order[1..], budget);
      BurnsFrame(bids, bids', order[1..], budget - Min(budget, rest.usdc));
    }
  }

  /** One turn fails exactly when its COIN overflows the execution's total, and otherwise burns just that. */
  lemma TurnExactly(st: Filling, i: nat)
    requires Rankable(st.bids, i) && BidOk(st.bids[i]) && st.remaining > 0
    ensures var rest := Rest(st.bids, i);
            var coin := CoinFor(rest, st.remaining);
            && (FillOne(st, i).Ok? <==> st.burned + coin <= U128_MAX)
            && (FillOne(st, i).Ok? ==>
                  && FillOne(st, i).value.burned == st.burned + coin
                  && FillOne(st, i).value.remaining == st.remaining - (if coin == 0 then 0 else Min(st.remaining, rest.usdc)))
  {
    var (bid, rest) := (st.bids[i], Rest(st.bids, i));
    if st.remaining < rest.usdc {
      PartialFill(bid, rest, st.remaining);
      FillRounding(rest.coin, rest.usdc, st.remaining);
    }
  }

  lemma {:induction false} RoundExactly(st: Filling, order: seq<nat>)
    requires Sorted(st.bids, order) && BidsOk(st.bids)
    ensures FillAll(st, order).Ok? <==> st.burned + Burns(st.bids, order, st.remaining) <= U128_MAX
    ensures FillAll(st, order).Ok? ==>
              FillAll(st, order).value.burned == st.burned + Burns(st.bids, order, st.remaining)
    decreases |order|
  {
    if order != [] && st.remaining > 0 {
      TurnKeeps(st, order[0]);
      TurnExactly(st, order[0]);
      if FillOne(st, order[0]).Ok? {
        var st1 := FillOne(st, order[0]).value;
        QueueTail(st.bids, order, st1.bids[order[0]]);
        assert st1.bids == st.bids[order[0] := st1.bids[order[0]]];
        RoundExactly(st1, order[1..]);
        BurnsFrame(st.bids, st1.bids, order[1..], st1.remaining);
      }
    }
  }

  /** The first interval from `n` on whose target is above `pulled`, or the last one. */
  function FirstFrom(s: Schedule, pulled: nat, n: nat): nat
    requires s.intervalCount > 0
    decreases s.intervalCount - n
  {
    if n >= s.intervalCount || Target(s, n) > pulled then n else FirstFrom(s, pulled, n + 1)
  }

  /** The search forms the products of the intervals up to the first target above `pulled`, and no more. */
  lemma {:induction false} SearchExactly(s: Schedule, pulled: u128, interval: nat)
    requires ScheduleOk(s) && pulled < s.total && interval <= s.intervalCount
    ensures var first := FirstFrom(s, pulled, interval);
            && interval <= first <= s.intervalCount && pulled < Target(s, first)
            && (NextTargetFrom(s, pulled, interval).Ok? <==> s.total * first <= U128_MAX)
    decreases s.intervalCount - interval
  {
    TargetMonotone(s, interval, s.intervalCount);
    CheckedTarget(s, interval);
    if interval < s.intervalCount && Target(s, interval) <= pulled {
      SearchExactly(s, pulled, interval + 1);
      SmallerProduct(s.total, interval, FirstFrom(s, pulled, interval));
    }
  }

  lemma CheckedTarget(s: Schedule, n: nat)
    requires ScheduleOk(s) && n <= s.intervalCount
    ensures CheckedShare(s.total, n, s.intervalCount)
         == if s.total * n <= U128_MAX then Ok(Target(s, n)) else Err(ArithmeticOverflow)
  {
  }

  lemma SmallerProduct(total: nat, m: nat, n: nat)
    requires m <= n
    ensures total * m <= total * n
  {
    MulMonotone(m, n, total);
  }

  /** Intervals whose target is within `pulled` do not change the first one above it. */
  lemma {:induction false} FirstSkips(s: Schedule, pulled: nat, n: nat)
    requires ScheduleOk(s) && n < s.intervalCount && Target(s, n) <= pulled
    ensures FirstFrom(s, pulled, 0) == FirstFrom(s, pulled, n + 1)
    decreases n
  {
    if n > 0 {
      TargetMonotone(s, n - 1, n);
      FirstSkips(s, pulled, n - 1);
    }
  }

  /** Finding the next target fails exactly when the product that makes it overflows. */
  lemma NextTargetExactly(s: Schedule, pulled: u128)
    requires ScheduleOk(s) && pulled < s.total
    ensures NextIntervalTargetAfter(s, pulled).Ok? <==> s.total * FirstFrom(s, pulled, 0) <= U128_MAX
  {
    var completed := pulled * s.intervalCount / s.total;
    CompletedIntervals(s, pulled);
    FirstSkips(s, pulled, completed);
    SearchExactly(s, pulled, completed + 1);
    var first := FirstFrom(s, pulled, 0);
    FloorIsLargest(s.total * first, s.intervalCount, pulled);
  }

  /** The intervals that `pulled` has completed: fewer than all, and none with a target above it. */
  lemma CompletedIntervals(s: Schedule, pulled: u128)
    requires ScheduleOk(s) && pulled < s.total
    ensures var completed := pulled * s.intervalCount / s.total;
            0 <= completed < s.intervalCount && Target(s, completed) <= pulled
  {
    var completed := pulled * s.intervalCount / s.total;
    FloorIsLargest(pulled * s.intervalCount, s.total, completed);
    FloorIsLargest(pulled * s.intervalCount, s.total, 0);
    FloorIsLargest(pulled * s.intervalCount, s.total, s.intervalCount);
    MulMonotone(pulled + 1, s.total, s.intervalCount);
    Distribute(pulled, 1, s.intervalCount);
    FloorIsLargest(s.total * completed, s.intervalCount, pulled + 1);
  }

  /** The products that the schedule forms at `slot` fit: of the elapsed intervals, and of the next target. */
  ghost predicate ScheduleFits(s: Schedule, pulled: nat, slot: u64)
    requires ScheduleOk(s)
  {
    && (s.start < slot < s.end ==> s.total * IntervalsElapsed(s, slot) <= U128_MAX)
    && (pulled < Released(s, slot) ==> s.total * FirstFrom(s, pulled, 0) <= U128_MAX)
  }

  lemma CapExactly(a: Auction, slot: u64)
    requires AuctionOk(a) && a.pulled <= a.schedule.total
    ensures BudgetCap(a, slot).Ok? <==> ScheduleFits(a.schedule, a.pulled, slot)
  {
    ReleasedMonotone(a.schedule, slot, slot);
    if a.pulled < a.schedule.total {
      NextTargetExactly(a.schedule, a.pulled);
      if NextIntervalTargetAfter(a.schedule, a.pulled).Ok? {
        NextTargetIsLeast(a.schedule, a.pulled);
      }
    }
  }

  /**
   An execution fails exactly when a product of the schedule overflows, or there is something to spend and
   the book has more than 64 bids or the COIN burned overflows: no bid arithmetic, no ranking and no pull
   can stop it.
   */
  lemma ExecuteSucceedsExactly(a: Auction, slot: u64)
    requires AuctionOk(a) && a.pulled <= a.schedule.total
    ensures Execute(a, slot).Ok?
       <==> (&& ScheduleFits(a.schedule, a.pulled, slot)
             && (BudgetCap(a, slot) == Ok(0)
                 || (&& |a.bids| <= MAX_BIDS && BudgetCap(a, slot).Ok?
                     && a.burned + Burns(a.bids, Ranking(a.bids), BudgetCap(a, slot).value) <= U128_MAX)))
  {
    CapExactly(a, slot);
    if BudgetCap(a, slot).Ok? && BudgetCap(a, slot).value > 0 {
      var st := Filling(BudgetCap(a, slot).value, 0, a.bids);
      CapWithinLimits(a, slot);
      RoundExactly(st, Ranking(a.bids));
      if FillAll(st, Ranking(a.bids)).Ok? {
        RoundKeeps(st, Ranking(a.bids));
        SpentWithBurn(st, Ranking(a.bids));
      }
    }
  }

  /** A round that spends nothing burns nothing. */
  lemma {:induction false} SpentWithBurn(st: Filling, order: seq<nat>)
    requires Sorted(st.bids, order) && BidsOk(st.bids) && FillAll(st, order).Ok?
    ensures FillAll(st, order).value.remaining == st.remaining ==> FillAll(st, order).value.burned == st.burned
    ensures FillAll(st, order).value.remaining <= st.remaining
    decreases |order|
  {
    RoundKeeps(st, order);
    if order != [] && st.remaining > 0 {
      TurnKeeps(st, order[0]);
      TurnExactly(st, order[0]);
      var st1 := FillOne(st, order[0]).value;
      QueueTail(st.bids, order, st1.bids[order[0]]);
      assert st1.bids == st.bids[order[0] := st1.bids[order[0]]];
      SpentWithBurn(st1, order[1..]);
    }
  }

  // ------------------------------------------------------------------------------------------
  // Runs
  // ------------------------------------------------------------------------------------------

  /**
   An auction with the latest execution slot, all profits and losses since it began, and the fills and burns
   of the bids that have left the book.
   */
  datatype Run = Run(auction: Auction, latest: u64, profits: nat, losses: nat, departedFills: nat, departedBurns: nat)

  function Departed(r: Run, bid: Bid): Run {
    r.(departedFills := r.departedFills + bid.filled, departedBurns := r.departedBurns + bid.burned)
  }

  function Next(r: Run, step: AuctionStep): (r': Run)
    requires r.auction.schedule.intervalSlots > 0
    ensures r'.auction.schedule == r.auction.schedule
  {
    match Perform(r.auction, step)
    case Err(_) => r
    case Ok(a) =>
      match step
      case Execution(slot) => r.(auction := a, latest := Max(r.latest, slot))
      case Profit(amount) => r.(auction := a, profits := r.profits + amount)
      case Loss(amount) => r.(auction := a, losses := r.losses + amount)
      case ReplaceBid(i, _) => Departed(r, r.auction.bids[i]).(auction := a)
      case RemoveBid(i) => Departed(r, r.auction.bids[i]).(auction := a)
      case _ => r.(auction := a)
  }

  /** The run `r` started with `initial` atoms of insurance. */
  ghost predicate RunOk(r: Run, initial: nat) {
    && AuctionOk(r.auction)
    && r.auction.pulled <= Released(r.auction.schedule, r.latest)
    && r.auction.pulled == TotalFilled(r.auction.bids) + r.departedFills
    && r.auction.burned == TotalBurned(r.auction.bids) + r.departedBurns
    && r.auction.insurance.balance + r.auction.pulled + r.losses == initial + r.profits
  }

  lemma NextKeeps(r: Run, step: AuctionStep, initial: nat)
    requires RunOk(r, initial)
    ensures RunOk(Next(r, step), initial)
    ensures Next(r, step).auction.insurance.reserved == r.auction.insurance.reserved
    ensures Next(r, step).auction.insurance.retainedFloor >= r.auction.insurance.retainedFloor
  {
    if Perform(r.auction, step).Ok? {
      match step
      case Execution(slot) =>
        ExecuteKeeps(r.auction, slot);
        ReleasedMonotone(r.auction.schedule, r.latest, Max(r.latest, slot));
        ReleasedMonotone(r.auction.schedule, slot, Max(r.latest, slot));
      case Profit(amount) => ProfitRestoresFloorFirst(r.auction.insurance, amount);
      case Loss(_) =>
      case SetBurnBps(_) =>
      case PlaceBid(bid) => PlacedBid(r.auction.bids, bid);
      case ReplaceBid(i, bid) => WriteBid(r.auction.bids, i, bid);
      case RemoveBid(i) => RemovedBid(r.auction.bids, i);
    }
  }

  /** A fresh bid adds nothing to the totals. */
  lemma {:induction false} PlacedBid(bids: seq<Bid>, bid: Bid)
    requires BidsOk(bids) && FreshBid(bid)
    ensures BidsOk(bids + [bid])
    ensures TotalFilled(bids + [bid]) == TotalFilled(bids) && TotalBurned(bids + [bid]) == TotalBurned(bids)
  {
    if bids == [] {
      assert bids + [bid] == [bid] && [bid][1..] == [];
    } else {
      PlacedBid(bids[1..], bid);
      assert (bids + [bid])[1..] == bids[1..] + [bid];
    }
  }

  /** Removing a bid takes just its own fills and burns out of the totals. */
  lemma {:induction false} RemovedBid(bids: seq<Bid>, i: nat)
    requires BidsOk(bids) && i < |bids|
    ensures BidsOk(bids[..i] + bids[i + 1..])
    ensures TotalFilled(bids[..i] + bids[i + 1..]) == TotalFilled(bids) - bids[i].filled
    ensures TotalBurned(bids[..i] + bids[i + 1..]) == TotalBurned(bids) - bids[i].burned
  {
    if i == 0 {
      assert bids[..0] + bids[1..] == bids[1..];
    } else {
      RemovedBid(bids[1..], i - 1);
      assert (bids[..i] + bids[i + 1..])[1..] == bids[1..][..i - 1] + bids[1..][i..];
    }
  }

  function RunAll(r: Run, steps: seq<AuctionStep>): Run
    requires r.auction.schedule.intervalSlots > 0
    decreases |steps|
  {
    if steps == [] then r else RunAll(Next(r, steps[0]), steps[1..])
  }

  lemma {:induction false} RunAllKeeps(r: Run, steps: seq<AuctionStep>, initial: nat)
    requires RunOk(r, initial)
    ensures RunOk(RunAll(r, steps), initial)
    ensures RunAll(r, steps).auction.schedule == r.auction.schedule
    ensures RunAll(r, steps).auction.insurance.reserved + RunAll(r, steps).auction.insurance.retainedFloor
         >= r.auction.insurance.reserved + r.auction.insurance.retainedFloor
    decreases |steps|
  {
    if steps != [] {
      NextKeeps(r, steps[0], initial);
      RunAllKeeps(Next(r, steps[0]), steps[1..], initial);
    }
  }

  /**
   Buy-burn safety over every run from a new schedule: never more pulled than the latest execution slot
   released, never more than the total budget; what left the insurance is the losses and the fills of the
   bids, those that have left the book included; and every bid is within its amounts and its price.
   */
  lemma BuyBurnIsSafe(insurance: Insurance, start: u64, intervalSlots: u64, intervalCount: u64, steps: seq<AuctionStep>)
    requires insurance.reserved + insurance.retainedFloor <= U128_MAX
    requires NewSchedule(start, intervalSlots, intervalCount, insurance).Ok?
    ensures var s := NewSchedule(start, intervalSlots, intervalCount, insurance).value;
            var r := RunAll(Run(Auction(insurance, s, 0, 0, []), 0, 0, 0, 0, 0), steps);
            && ScheduleOk(s)
            && r.auction.pulled <= Released(s, r.latest) <= s.total == Surplus(insurance)
            && r.auction.pulled == TotalFilled(r.auction.bids) + r.departedFills
            && r.auction.burned == TotalBurned(r.auction.bids) + r.departedBurns
            && r.auction.insurance.balance + r.auction.pulled + r.losses == insurance.balance + r.profits
            && BidsOk(r.auction.bids)
  {
    var s := NewSchedule(start, intervalSlots, intervalCount, insurance).value;
    NewScheduleOk(start, intervalSlots, intervalCount, insurance);
    var r := Run(Auction(insurance, s, 0, 0, []), 0, 0, 0, 0, 0);
    RunAllKeeps(r, steps, insurance.balance);
    ReleasedMonotone(s, RunAll(r, steps).latest, RunAll(r, steps).latest);
  }
}
