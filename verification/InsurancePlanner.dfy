/**
 The long-first withdrawal planner (percolator-accounting/src/lib.rs). Percolator withdraws
 asset-wide insurance by draining every withdrawable long-domain atom before it touches the short
 domain; a plan is one such withdrawal followed by domain top-ups.
 */
module InsurancePlanner {
  import opened Machine
  import opened Percolator

  datatype Plan = Plan(gross: u128, redeposit: Split)

  /** The canonical odd-atom split. */
  function BalancedDomains(total: u128): Split {
    Split(total / 2, total - total / 2)
  }

  function PlanWithdrawalToDomains(balance: AssetBalance, payout: u128, target: Split): Result<Plan> {
    if balance.long.remaining + balance.short.remaining > U128_MAX then Err(InvalidAccountData)
    else if target.long + target.short > U128_MAX then Err(InvalidAccountData)
    else if balance.long.remaining + balance.short.remaining != balance.remaining
         || payout > balance.remaining
         || payout > balance.withdrawable
         || target.long + target.short != balance.remaining - payout then Err(InvalidAccountData)
    else
      var longCapacity, shortCapacity := LongCapacity(balance), ShortCapacity(balance);
      if shortCapacity > balance.short.withdrawable then Err(InvalidAccountData)
      else
        var currentLong, currentShort := balance.long.remaining, balance.short.remaining;
        if longCapacity > currentLong || shortCapacity > currentShort then Err(InvalidAccountData)
        else if target.long < currentLong - longCapacity || target.short < currentShort - shortCapacity then
          Err(InvalidAccountData)
        else
          var plan :- (
            if target.short >= currentShort then
              if target.long > currentLong || currentLong - target.long > longCapacity then Err(InvalidAccountData)
              else Ok(Plan(currentLong - target.long, Split(0, target.short - currentShort)))
            else
              var shortDebit := currentShort - target.short;
              if shortDebit > shortCapacity then Err(InvalidAccountData)
              else Ok(Plan(longCapacity + shortDebit, Split(target.long - (currentLong - longCapacity), 0))));
          var grossLong := Min(plan.gross, longCapacity);
          var grossShort := plan.gross - grossLong;
          if grossLong > currentLong || grossShort > currentShort
            || plan.redeposit.long + plan.redeposit.short > plan.gross then Err(InvalidAccountData)
          else if plan.gross > balance.withdrawable
               || grossShort > shortCapacity
               || currentLong - grossLong + plan.redeposit.long != target.long
               || currentShort - grossShort + plan.redeposit.short != target.short
               || plan.gross - (plan.redeposit.long + plan.redeposit.short) != payout then Err(InvalidAccountData)
          else Ok(plan)
  }

  /** The withdrawal and the top-ups of a plan, one after the other. */
  function Execute(balance: AssetBalance, plan: Plan): Result<Split> {
    var drained :- DrainLongFirst(balance, plan.gross);
    AddToDomains(drained, plan.redeposit)
  }

  /** Executing `plan` pays out `payout` net and leaves the domains exactly at `target`. */
  predicate Reaches(balance: AssetBalance, payout: nat, target: Split, plan: Plan) {
    && Execute(balance, plan) == Ok(target)
    && plan.gross - (plan.redeposit.long + plan.redeposit.short) == payout
  }

  /** What a caller can check: the totals add up and no reservation floor is crossed. */
  predicate Feasible(balance: AssetBalance, payout: nat, target: Split) {
    && WellFormed(balance)
    && payout <= balance.withdrawable
    && target.long + target.short == balance.remaining - payout
    && target.long >= balance.long.remaining - LongCapacity(balance)
    && target.short >= balance.short.remaining - ShortCapacity(balance)
  }

  /** The planner succeeds exactly on the feasible requests, and what it returns does the job. */
  lemma PlannerSucceedsExactly(balance: AssetBalance, payout: u128, target: Split)
    ensures PlanWithdrawalToDomains(balance, payout, target).Ok? <==> Feasible(balance, payout, target)
    ensures Feasible(balance, payout, target) ==>
              Reaches(balance, payout, target, PlanWithdrawalToDomains(balance, payout, target).value)
  {
  }

  /** Completeness and minimality: any plan that works shows the planner succeeds with no more gross. */
  lemma PlannerIsMinimal(balance: AssetBalance, payout: u128, target: Split, plan: Plan)
    requires WellFormed(balance) && Reaches(balance, payout, target, plan)
    ensures PlanWithdrawalToDomains(balance, payout, target).Ok?
    ensures PlanWithdrawalToDomains(balance, payout, target).value.gross <= plan.gross
  {
    PlannerSucceedsExactly(balance, payout, target);
  }

  /** The gross withdrawal that a target asks for: a short debit costs the whole long capacity first. */
  function GrossFor(balance: AssetBalance, target: Split): int {
    if target.short < balance.short.remaining then LongCapacity(balance) + balance.short.remaining - target.short
    else balance.long.remaining - target.long
  }

  lemma PlannedGross(balance: AssetBalance, payout: u128, target: Split)
    requires PlanWithdrawalToDomains(balance, payout, target).Ok?
    ensures PlanWithdrawalToDomains(balance, payout, target).value.gross == GrossFor(balance, target)
  {
  }
}
