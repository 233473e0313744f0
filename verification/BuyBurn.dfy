/**
 The surplus buy-and-burn of market 0 (twap/src/surplus.rs): insurance with a retained floor, a budget
 released interval by interval, and executions that spend it on the best bids.
 */
module BuyBurn {
  import opened Machine
  import opened Division
  import opened RewardMath
  import opened BidRanking

  const MAX_INTERVALS: u64 := 150

  // ------------------------------------------------------------------------------------------
  // Insurance
  // ------------------------------------------------------------------------------------------

  datatype Insurance = Insurance(balance: u128, reserved: u128, retainedFloor: u128, burnBps: Bps)

  function NewInsurance(balance: u128, reserved: u128, burnBps: Bps): Insurance {
    Insurance(balance, reserved, SaturatingSub(balance, reserved), burnBps)
  }

  function ExpectedFloor(i: Insurance): Result<u128> {
    if i.reserved + i.retainedFloor > U128_MAX then Err(ArithmeticOverflow) else Ok(i.reserved + i.retainedFloor)
  }

  function WithdrawableSurplus(i: Insurance): Result<u128> {
    var floor :- ExpectedFloor(i);
    Ok(SaturatingSub(i.balance, floor))
  }

  /** Profit first restores the floor; of the rest only the burn share becomes withdrawable. */
  function RecordProfit(i: Insurance, amount: u128): Result<Insurance> {
    if amount == 0 then Err(InvalidArgument)
    else
      var floor :- ExpectedFloor(i);
      var base := SaturatingSub(amount, SaturatingSub(floor, i.balance));
      if base * i.burnBps > U128_MAX then Err(ArithmeticOverflow)
      else
        ShareWithin(base, i.burnBps, BPS);
        var retained := base - base * i.burnBps / BPS;
        if i.balance + amount > U128_MAX || i.retainedFloor + retained > U128_MAX then Err(ArithmeticOverflow)
        else Ok(i.(balance := i.balance + amount, retainedFloor := i.retainedFloor + retained))
  }

  function RecordLoss(i: Insurance, amount: u128): Result<Insurance> {
    if amount == 0 then Err(InvalidArgument)
    else if amount > i.balance then Err(InsufficientFunds)
    else Ok(i.(balance := i.balance - amount))
  }

  function PullSurplus(i: Insurance, amount: u128): Result<Insurance> {
    var surplus :- WithdrawableSurplus(i);
    if amount > surplus then Err(InsufficientFunds)
    else if amount > i.balance then Err(ArithmeticOverflow)
    else Ok(i.(balance := i.balance - amount))
  }

  // ------------------------------------------------------------------------------------------
  // Schedule
  // ------------------------------------------------------------------------------------------

  datatype Schedule = Schedule(start: u64, end: u64, total: u128, intervalSlots: u64, intervalCount: u64)

  function NewSchedule(start: u64, intervalSlots: u64, intervalCount: u64, insurance: Insurance): Result<Schedule> {
    if intervalSlots == 0 || intervalCount == 0 || intervalCount > MAX_INTERVALS then Err(InvalidArgument)
    else if intervalSlots * intervalCount > U64_MAX || start + intervalSlots * intervalCount > U64_MAX then
      Err(ArithmeticOverflow)
    else
      MulMonotone(1, intervalSlots, intervalCount);
      var total :- WithdrawableSurplus(insurance);
      Ok(Schedule(start, start + intervalSlots * intervalCount, total, intervalSlots, intervalCount))
  }

  /** `total * n / d` with the program's checked product. */
  function CheckedShare(total: u128, n: u64, d: u64): Result<u128> {
    if total * n > U128_MAX || d == 0 then Err(ArithmeticOverflow)
    else
      MulMonotone(0, total, n);
      DivShrinks(total * n, d);
      Ok(total * n / d)
  }

  /** The intervals completed by `slot`, at most all of them. */
  function IntervalsElapsed(s: Schedule, slot: u64): u64
    requires s.start <= slot && s.intervalSlots > 0
  {
    DivShrinks(slot - s.start, s.intervalSlots);
    Min((slot - s.start) / s.intervalSlots, s.intervalCount)
  }

  function BudgetReleasedBy(s: Schedule, slot: u64): Result<u128>
    requires s.intervalSlots > 0
  {
    if slot <= s.start then Ok(0)
    else if slot >= s.end then Ok(s.total)
    else CheckedShare(s.total, IntervalsElapsed(s, slot), s.intervalCount)
  }

  /** The first target above `pulled`, looking from `interval` on. */
  function NextTargetFrom(s: Schedule, pulled: u128, interval: nat): Result<u128>
    decreases s.intervalCount - interval
  {
    if interval > s.intervalCount then Ok(s.total)
    else
      var target :- CheckedShare(s.total, interval, s.intervalCount);
      if target > pulled then Ok(target) else NextTargetFrom(s, pulled, interval + 1)
  }

  function NextIntervalTargetAfter(s: Schedule, pulled: u128): Result<u128> {
    if pulled >= s.total then Ok(s.total)
    else
      if pulled * s.intervalCount > U128_MAX then Err(ArithmeticOverflow)
      else
        MulMonotone(0, pulled, s.intervalCount);
        DivParts(pulled * s.intervalCount, s.total);
        NextTargetFrom(s, pulled, pulled * s.intervalCount / s.total + 1)
  }

  // ------------------------------------------------------------------------------------------
  // Fills
  // ------------------------------------------------------------------------------------------

  function RemainingCoin(bid: Bid): Result<u128> {
    if bid.burned > bid.coin then Err(InvalidAccountData) else Ok(bid.coin - bid.burned)
  }

  function RemainingUsdc(bid: Bid): Result<u128> {
    if bid.filled > bid.usdc then Err(InvalidAccountData)
    else
      var coin :- RemainingCoin(bid);
      Ok(if coin == 0 then 0 else bid.usdc - bid.filled)
  }

  /** The COIN burned for `usdc`: all of it for the last atom, otherwise pro rata, rounded for the bidder. */
  function CoinForFill(bid: Bid, usdc: u128): Result<Option<u128>> {
    if usdc == 0 then Ok(None)
    else
      var remainingUsdc :- RemainingUsdc(bid);
      var remainingCoin :- RemainingCoin(bid);
      if usdc > remainingUsdc then Err(InvalidAccountData)
      else
        var coin :- (
          if usdc == remainingUsdc then Ok(remainingCoin)
          else if remainingCoin * usdc > U128_MAX then Err(ArithmeticOverflow)
          else
            MulMonotone(0, remainingCoin, usdc);
            DivShrinks(remainingCoin * usdc, remainingUsdc);
            Ok(remainingCoin * usdc / remainingUsdc));
        Ok(if coin == 0 then None else Some(coin))
  }

  /** An execution under way: the budget left, the COIN burned so far, and the bids after their fills. */
  datatype Filling = Filling(remaining: u128, burned: u128, bids: seq<Bid>)

  /** Fill bid `i` with what is left. */
  function FillOne(st: Filling, i: nat): Result<Filling>
    requires i < |st.bids|
  {
    var bid := st.bids[i];
    var open :- RemainingUsdc(bid);
    var usdc := Min(st.remaining, open);
    var coin :- CoinForFill(bid, usdc);
    match coin
    case None => Ok(st)
    case Some(c) =>
      if bid.filled + usdc > U128_MAX || bid.burned + c > U128_MAX || st.burned + c > U128_MAX then Err(ArithmeticOverflow)
      else Ok(Filling(st.remaining - usdc, st.burned + c,
                      st.bids[i := bid.(filled := bid.filled + usdc, burned := bid.burned + c)]))
  }

  function FillAll(st: Filling, order: seq<nat>): Result<Filling>
    requires forall p :: 0 <= p < |order| ==> order[p] < |st.bids|
    decreases |order|
  {
    if order == [] || st.remaining == 0 then Ok(st)
    else
      var st' :- FillOne(st, order[0]);
      FillAll(st', order[1..])
  }

  // ------------------------------------------------------------------------------------------
  // Executions
  // ------------------------------------------------------------------------------------------

  datatype Auction = Auction(insurance: Insurance, schedule: Schedule, pulled: u128, burned: u128, bids: seq<Bid>)

  /** What may be pulled now: up to the next interval target, within the release and above the floor. */
  function NextReleasable(a: Auction, slot: u64): Result<u128>
    requires a.schedule.intervalSlots > 0
  {
    var released :- BudgetReleasedBy(a.schedule, slot);
    if released <= a.pulled then Ok(0)
    else
      var target :- NextIntervalTargetAfter(a.schedule, a.pulled);
      if Min(released, target) < a.pulled then Err(ArithmeticOverflow) else Ok(Min(released, target) - a.pulled)
  }

  function BudgetCap(a: Auction, slot: u64): Result<u128>
    requires a.schedule.intervalSlots > 0
  {
    var releasable :- NextReleasable(a, slot);
    var surplus :- WithdrawableSurplus(a.insurance);
    Ok(Min(releasable, surplus))
  }

  function PlanExecution(a: Auction, slot: u64): Result<Filling>
    requires a.schedule.intervalSlots > 0
  {
    var cap :- BudgetCap(a, slot);
    if cap == 0 then Ok(Filling(0, 0, a.bids))
    else if |a.bids| > MAX_BIDS then Err(InvalidArgument)
    else FillAll(Filling(cap, 0, a.bids), Ranking(a.bids))
  }

  /** Take `pull` out of the insurance and record the fills that spend it. */
  function Settle(a: Auction, pull: u128, burnedCoin: u128, bids: seq<Bid>): Result<Auction> {
    if a.pulled + pull > U128_MAX || a.burned + burnedCoin > U128_MAX then Err(ArithmeticOverflow)
    else
      var insurance :- PullSurplus(a.insurance, pull);
      Ok(a.(insurance := insurance, pulled := a.pulled + pull, burned := a.burned + burnedCoin, bids := bids))
  }

  /** Pull what the plan spends and record the fills; a plan that spends nothing changes nothing. */
  function Execute(a: Auction, slot: u64): Result<Auction>
    requires a.schedule.intervalSlots > 0
  {
    var plan :- PlanExecution(a, slot);
    var cap :- BudgetCap(a, slot);
    if cap < plan.remaining then Err(ArithmeticOverflow)
    else
      if cap == plan.remaining then Ok(a) else Settle(a, cap - plan.remaining, plan.burned, plan.bids)
  }

  /** A bid as its escrow admits it. */
  predicate FreshBid(bid: Bid) {
    && bid.bidder != DEFAULT_KEY && bid.coin > 0 && bid.usdc > 0
    && bid.filled == 0 && bid.burned == 0 && bid.coin * bid.usdc <= U128_MAX
  }

  /** The book is changed by others: bids are placed, replaced in their slot, and withdrawn or evicted. */
  datatype AuctionStep =
    | Execution(slot: u64)
    | Profit(amount: u128)
    | Loss(amount: u128)
    | SetBurnBps(bps: Bps)
    | PlaceBid(bid: Bid)
    | ReplaceBid(index: nat, bid: Bid)
    | RemoveBid(index: nat)

  function Perform(a: Auction, step: AuctionStep): Result<Auction>
    requires a.schedule.intervalSlots > 0
  {
    match step
    case Execution(slot) => Execute(a, slot)
    case Profit(amount) =>
      var insurance :- RecordProfit(a.insurance, amount);
      Ok(a.(insurance := insurance))
    case Loss(amount) =>
      var insurance :- RecordLoss(a.insurance, amount);
      Ok(a.(insurance := insurance))
    case SetBurnBps(bps) => Ok(a.(insurance := a.insurance.(burnBps := bps)))
    case PlaceBid(bid) => if FreshBid(bid) then Ok(a.(bids := a.bids + [bid])) else Err(InvalidArgument)
    case ReplaceBid(i, bid) =>
      if i < |a.bids| && FreshBid(bid) then Ok(a.(bids := a.bids[i := bid])) else Err(InvalidArgument)
    case RemoveBid(i) => if i < |a.bids| then Ok(a.(bids := a.bids[..i] + a.bids[i + 1..])) else Err(InvalidArgument)
  }
}
