/**
 The buy-and-burn spends what it may: the budget of an execution is the largest amount within the release,
 the next target and the surplus, and it is spent in full unless no bid of the book sells another atom.
 */
module BuyBurnLaws {
  import opened Machine
  import opened Division
  import opened RewardMath
  import opened BidRanking
  import opened BuyBurn
  import opened BuyBurnSafety

  /** Pulling `c` more stays within the release, every next target and the surplus above the floor. */
  ghost predicate MaySpend(a: Auction, slot: u64, c: nat)
    requires ScheduleOk(a.schedule)
  {
    && a.pulled + c <= Released(a.schedule, slot)
    && (forall n: nat :: a.pulled < Target(a.schedule, n) ==> a.pulled + c <= Target(a.schedule, n))
    && c <= Surplus(a.insurance)
  }

  /** `c` is the most that an execution at `slot` may spend. */
  ghost predicate LargestBudget(a: Auction, slot: u64, c: nat)
    requires ScheduleOk(a.schedule)
  {
    && (c > 0 ==> MaySpend(a, slot, c))
    && forall d: nat :: d > c ==> !MaySpend(a, slot, d)
  }

  lemma BudgetIsLargest(a: Auction, slot: u64)
    requires AuctionOk(a) && BudgetCap(a, slot).Ok?
    ensures LargestBudget(a, slot, BudgetCap(a, slot).value)
  {
    var cap := BudgetCap(a, slot).value;
    ReleasedExact(a.schedule, slot);
    ReleasedMonotone(a.schedule, slot, slot);
    if cap > 0 {
      CapWithinLimits(a, slot);
    }
    forall d: nat | d > cap ensures !MaySpend(a, slot, d) {
      if MaySpend(a, slot, d) {
        NothingAboveCap(a, slot, d);
      }
    }
  }

  lemma NothingAboveCap(a: Auction, slot: u64, d: nat)
    requires AuctionOk(a) && BudgetCap(a, slot).Ok? && MaySpend(a, slot, d)
    ensures d <= BudgetCap(a, slot).value
  {
    ReleasedExact(a.schedule, slot);
    ReleasedMonotone(a.schedule, slot, slot);
    if d > 0 {
      NextTargetIsLeast(a.schedule, a.pulled);
      TargetReached(a.schedule, a.pulled);
    }
  }

  /** The least target above `pulled` is the target of some interval. */
  lemma TargetReached(s: Schedule, pulled: u128)
    requires ScheduleOk(s) && pulled < s.total && NextIntervalTargetAfter(s, pulled).Ok?
    ensures exists n: nat :: Target(s, n) == NextIntervalTargetAfter(s, pulled).value
  {
    CompletedIntervals(s, pulled);
    SearchReaches(s, pulled, pulled * s.intervalCount / s.total + 1);
  }

  lemma {:induction false} SearchReaches(s: Schedule, pulled: u128, interval: nat)
    requires ScheduleOk(s) && pulled < s.total && interval <= s.intervalCount
    requires NextTargetFrom(s, pulled, interval).Ok?
    ensures exists n: nat :: Target(s, n) == NextTargetFrom(s, pulled, interval).value
    decreases s.intervalCount - interval
  {
    CheckedTarget(s, interval);
    TargetMonotone(s, interval, s.intervalCount);
    if Target(s, interval) > pulled {
      assert Target(s, interval) == NextTargetFrom(s, pulled, interval).value;
    } else {
      SearchReaches(s, pulled, interval + 1);
    }
  }

  /** An escrowed bid is ranked exactly while it is open, with all that is left of it. */
  lemma OpenBidsAreRanked(bid: Bid)
    requires BidOk(bid)
    ensures RankableBid(bid)
         == if bid.bidder != DEFAULT_KEY && bid.filled < bid.usdc
            then Some(Remaining(bid.coin - bid.burned, bid.usdc - bid.filled)) else None
  {
    MulMonotone(bid.coin - bid.burned, bid.coin, bid.usdc - bid.filled);
    MulMonotone(bid.usdc - bid.filled, bid.usdc, bid.coin);
    assert bid.coin * (bid.usdc - bid.filled) == (bid.usdc - bid.filled) * bid.coin;
    assert bid.coin * bid.usdc == bid.usdc * bid.coin;
  }

  /** The bid is closed, or `rest` does not buy one atom of COIN at the price of what is left of it. */
  predicate SoldOut(bid: Bid, rest: nat) {
    bid.filled == bid.usdc || (bid.coin - bid.burned) * rest < bid.usdc - bid.filled
  }

  /** No bid of the book sells another atom for `rest`. */
  predicate BookSoldOut(bids: seq<Bid>, rest: nat) {
    forall i :: 0 <= i < |bids| && bids[i].bidder != DEFAULT_KEY ==> SoldOut(bids[i], rest)
  }

  /** Slots without a bidder are as they were. */
  predicate EmptySlotsKept(bids: seq<Bid>, bids': seq<Bid>) {
    |bids'| == |bids| && forall i :: 0 <= i < |bids| && bids[i].bidder == DEFAULT_KEY ==> bids'[i] == bids[i]
  }

  /**
   An execution either pulls its whole budget, the largest amount it may spend, or leaves no bid of the book
   that would sell an atom for the rest; it never fills a slot without a bidder.
   */
  lemma ExecuteSpendsItsBudget(a: Auction, slot: u64, c: nat)
    requires AuctionOk(a) && Execute(a, slot).Ok? && LargestBudget(a, slot, c)
    ensures var a' := Execute(a, slot).value;
            && EmptySlotsKept(a.bids, a'.bids) && a.pulled <= a'.pulled <= a.pulled + c
            && (a'.pulled == a.pulled + c || BookSoldOut(a'.bids, a.pulled + c - a'.pulled))
  {
    BudgetIsLargest(a, slot);
    var cap := BudgetCap(a, slot).value;
    assert cap == c;
    if cap > 0 {
      RoundSpends(a, slot, cap);
    }
  }

  lemma RoundSpends(a: Auction, slot: u64, cap: u128)
    requires AuctionOk(a) && Execute(a, slot).Ok? && BudgetCap(a, slot) == Ok(cap) && cap > 0
    ensures var a' := Execute(a, slot).value;
            && EmptySlotsKept(a.bids, a'.bids) && a.pulled <= a'.pulled <= a.pulled + cap
            && (a'.pulled == a.pulled + cap || BookSoldOut(a'.bids, a.pulled + cap - a'.pulled))
  {
    var st := Filling(cap, 0, a.bids);
    var order := Ranking(a.bids);
    RoundKeeps(st, order);
    OnlyOpenBidsTrade(st, order);
    UnspentRound(st, order);
  }

  lemma OnlyOpenBidsTrade(st: Filling, order: seq<nat>)
    requires Ranked(st.bids, |st.bids|, order) && BidsOk(st.bids) && FillAll(st, order).Ok?
    ensures var st' := FillAll(st, order).value;
            && EmptySlotsKept(st.bids, st'.bids)
            && (st'.remaining > 0 ==> BookSoldOut(st'.bids, st'.remaining))
  {
    RoundKeeps(st, order);
    var st' := FillAll(st, order).value;
    forall i | 0 <= i < |st.bids| && st.bids[i].bidder == DEFAULT_KEY ensures st'.bids[i] == st.bids[i] {
      OpenBidsAreRanked(st.bids[i]);
      assert i !in order;
    }
    if st'.remaining > 0 {
      forall i | 0 <= i < |st.bids| && st'.bids[i].bidder != DEFAULT_KEY ensures SoldOut(st'.bids[i], st'.remaining) {
        OneSoldOut(st, order, i);
      }
    }
  }

  lemma OneSoldOut(st: Filling, order: seq<nat>, i: nat)
    requires Ranked(st.bids, |st.bids|, order) && BidsOk(st.bids) && FillAll(st, order).Ok? && i < |st.bids|
    requires RoundOk(st, order, FillAll(st, order).value) && FillAll(st, order).value.remaining > 0
    requires FillAll(st, order).value.bids[i].bidder != DEFAULT_KEY
    ensures SoldOut(FillAll(st, order).value.bids[i], FillAll(st, order).value.remaining)
  {
    if i in order {
      var p :| 0 <= p < |order| && order[p] == i;
      RoundExhausts(st, order, p);
      DoneIsSoldOut(FillAll(st, order).value, i);
    } else {
      OpenBidsAreRanked(st.bids[i]);
      assert !Rankable(st.bids, i);
    }
  }

  lemma DoneIsSoldOut(st: Filling, i: nat)
    requires i < |st.bids| && BidOk(st.bids[i]) && Done(st, i)
    ensures SoldOut(st.bids[i], st.remaining)
  {
    OpenBidsAreRanked(st.bids[i]);
  }

  /** A round that spends nothing changes no bid. */
  lemma {:induction false} UnspentRound(st: Filling, order: seq<nat>)
    requires Sorted(st.bids, order) && BidsOk(st.bids) && FillAll(st, order).Ok?
    ensures FillAll(st, order).value.remaining <= st.remaining
    ensures FillAll(st, order).value.remaining == st.remaining ==> FillAll(st, order).value == st
    decreases |order|
  {
    RoundKeeps(st, order);
    if order != [] && st.remaining > 0 {
      TurnKeeps(st, order[0]);
      TurnExactly(st, order[0]);
      var st1 := FillOne(st, order[0]).value;
      QueueTail(st.bids, order, st1.bids[order[0]]);
      assert st1.bids == st.bids[order[0] := st1.bids[order[0]]];
      UnspentRound(st1, order[1..]);
    }
  }

  // ------------------------------------------------------------------------------------------
  // Insurance and schedule
  // ------------------------------------------------------------------------------------------

  /** A new insurance account retains everything it starts with: nothing is burnable before a profit. */
  lemma NewInsuranceRetainsAll(balance: u128, reserved: u128, burnBps: Bps)
    ensures var i := NewInsurance(balance, reserved, burnBps);
            && i.balance == balance && i.reserved == reserved && i.burnBps == burnBps
            && i.reserved + i.retainedFloor == Max(balance, reserved)
            && Surplus(i) == 0
  {
  }

  /** A profit is recorded exactly when its products and sums fit; below the deficit it leaves the floor alone. */
  lemma ProfitExactly(i: Insurance, amount: u128)
    requires i.reserved + i.retainedFloor <= U128_MAX
    ensures var excess := SaturatingSub(amount, SaturatingSub(i.reserved + i.retainedFloor, i.balance));
            && (RecordProfit(i, amount).Ok?
                <==> amount > 0 && excess * i.burnBps <= U128_MAX && i.balance + amount <= U128_MAX)
            && (RecordProfit(i, amount).Ok? ==>
                  && RecordProfit(i, amount).value.retainedFloor - i.retainedFloor == excess - excess * i.burnBps / BPS
                  && RecordProfit(i, amount).value.burnBps == i.burnBps)
  {
    ShareWithin(SaturatingSub(amount, SaturatingSub(i.reserved + i.retainedFloor, i.balance)), i.burnBps, BPS);
  }

  /** A schedule needs nonempty intervals, at most 150 of them, that end within u64. */
  lemma NewScheduleExactly(start: u64, intervalSlots: u64, intervalCount: u64, insurance: Insurance)
    requires insurance.reserved + insurance.retainedFloor <= U128_MAX
    ensures NewSchedule(start, intervalSlots, intervalCount, insurance).Ok?
       <==> 0 < intervalSlots && 0 < intervalCount <= 150 && start + intervalSlots * intervalCount <= U64_MAX
    ensures NewSchedule(start, intervalSlots, intervalCount, insurance).Ok? ==>
              NewSchedule(start, intervalSlots, intervalCount, insurance).value
              == Schedule(start, start + intervalSlots * intervalCount, Surplus(insurance), intervalSlots, intervalCount)
  {
    MulMonotone(0, intervalSlots, intervalCount);
  }
}
