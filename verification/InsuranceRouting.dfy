/**
 How the subledger routes insurance between the long and the short domain (subledger/src/lib.rs):
 deposits repair the lower domain, exits debit the higher one, and the exit's withdrawal plan is
 clamped to the reservation floors before it is handed to the planner.
 */
module InsuranceRouting {
  import opened Machine
  import opened Division
  import opened WideArithmetic
  import opened Percolator
  import opened InsurancePlanner

  function Remaining(balance: AssetBalance): Split {
    Split(balance.long.remaining, balance.short.remaining)
  }

  /** Credit toward the lower domain, then split the rest evenly with the odd atom to the short. */
  function DepositDelta(balances: Split, amount: u64): Split {
    if balances.long <= balances.short then
      var gap := Min(balances.short - balances.long, amount);
      var remainder := amount - gap;
      Split(gap + remainder / 2, remainder - remainder / 2)
    else
      var gap := Min(balances.long - balances.short, amount);
      var remainder := amount - gap;
      Split(remainder / 2, gap + remainder - remainder / 2)
  }

  /** Debit from the higher domain, then split the rest evenly with the odd atom from the long. */
  function WithdrawDelta(balances: Split, amount: u64): Split {
    if balances.long >= balances.short then
      var gap := Min(balances.long - balances.short, amount);
      var remainder := amount - gap;
      Split(gap + remainder - remainder / 2, remainder / 2)
    else
      var gap := Min(balances.short - balances.long, amount);
      var remainder := amount - gap;
      Split(remainder - remainder / 2, gap + remainder / 2)
  }

  /** The long debit an exit would take if no reservation stood in its way. */
  function IdealLongDebit(balance: AssetBalance, payout: u128, principalDebit: Split): Result<u128> {
    var principalTotal := principalDebit.long + principalDebit.short;
    if principalTotal > U128_MAX then Err(ArithmeticOverflow)
    else if payout <= principalTotal then
      (match MulDivFloor(payout, principalDebit.long, principalTotal)
       case Some(debit) => Ok(debit)
       case None => Err(ArithmeticOverflow))
    else
      var surplus := payout - principalTotal;
      var residualLong := SaturatingSub(balance.long.remaining, principalDebit.long);
      var residualShort := SaturatingSub(balance.short.remaining, principalDebit.short);
      if residualLong + residualShort > U128_MAX then Err(ArithmeticOverflow)
      else if surplus > residualLong + residualShort then Err(InvalidAccountData)
      else match MulDivFloor(surplus, residualLong, residualLong + residualShort)
        case None => Err(ArithmeticOverflow)
        case Some(share) =>
          if principalDebit.long + share > U128_MAX then Err(ArithmeticOverflow)
          else Ok(principalDebit.long + share)
  }

  function WithdrawalPlan(balance: AssetBalance, payout: u128, principalDebit: Split): Result<Plan> {
    if balance.long.remaining + balance.short.remaining > U128_MAX
      || principalDebit.long + principalDebit.short > U128_MAX then Err(ArithmeticOverflow)
    else if payout == 0
         || principalDebit.long + principalDebit.short == 0
         || payout > balance.remaining
         || payout > balance.withdrawable
         || balance.long.remaining + balance.short.remaining != balance.remaining then Err(InvalidAccountData)
    else if ShortCapacity(balance) > balance.short.withdrawable then Err(InvalidAccountData)
    else
      var idealLongDebit :- IdealLongDebit(balance, payout, principalDebit);
      var target :- ClampedTarget(balance, payout, idealLongDebit);
      PlanWithdrawalToDomains(balance, payout, target)
  }

  /** The domain balances after the exit, with the ideal debit clamped to the capacities. */
  function ClampedTarget(balance: AssetBalance, payout: u128, idealLongDebit: u128): Result<Split> {
    var minimumLongDebit := SaturatingSub(payout, ShortCapacity(balance));
    var maximumLongDebit := Min(payout, LongCapacity(balance));
    if minimumLongDebit > maximumLongDebit then Err(InvalidAccountData)
    else
      var longDebit := Max(minimumLongDebit, Min(idealLongDebit, maximumLongDebit));
      if longDebit > payout
        || longDebit > balance.long.remaining
        || payout - longDebit > balance.short.remaining then Err(InvalidAccountData)
      else Ok(Split(balance.long.remaining - longDebit, balance.short.remaining - (payout - longDebit)))
  }

  // ------------------------------------------------------------------------------------------
  // The deltas
  // ------------------------------------------------------------------------------------------

  function Gap(balances: Split): nat {
    if balances.long <= balances.short then balances.short - balances.long else balances.long - balances.short
  }

  /** A deposit splits its whole amount, and closes the gap by it down to the odd atom. */
  lemma DepositDeltaCloses(balances: Split, amount: u64)
    requires balances.long + balances.short + amount <= U128_MAX
    ensures var d := DepositDelta(balances, amount);
            && d.long + d.short == amount
            && Gap(Split(balances.long + d.long, balances.short + d.short)) <= Max(Gap(balances) - amount, 1)
  {
  }

  /** An exit never debits more than a domain holds, and closes the gap down to the odd atom. */
  lemma WithdrawDeltaCloses(balances: Split, amount: u64)
    requires amount <= balances.long + balances.short
    ensures var d := WithdrawDelta(balances, amount);
            && d.long + d.short == amount
            && d.long <= balances.long && d.short <= balances.short
            && Gap(Split(balances.long - d.long, balances.short - d.short)) <= Max(Gap(balances) - amount, 1)
  {
  }

  /**
   A deposit smaller than the gap goes wholly to the lower domain; any other ends at the canonical split of the
   new total.
   */
  lemma DepositDeltaExactly(balances: Split, amount: u64)
    requires balances.long + balances.short + amount <= U128_MAX
    ensures var d := DepositDelta(balances, amount);
            if amount >= Gap(balances) then
              AddToDomains(balances, d) == Ok(BalancedDomains(balances.long + balances.short + amount))
            else d == (if balances.long < balances.short then Split(amount, 0) else Split(0, amount))
  {
    if amount >= Gap(balances) {
      HalfShift(balances.long + balances.short + amount, Max(balances.long, balances.short));
    }
  }

  /**
   An exit smaller than the gap comes wholly from the higher domain; any other ends at the canonical split of
   the new total.
   */
  lemma WithdrawDeltaExactly(balances: Split, amount: u64)
    requires amount <= balances.long + balances.short <= U128_MAX
    ensures var d := WithdrawDelta(balances, amount);
            if amount >= Gap(balances) then
              && d.long <= balances.long && d.short <= balances.short
              && Split(balances.long - d.long, balances.short - d.short)
                 == BalancedDomains(balances.long + balances.short - amount)
            else d == (if balances.long > balances.short then Split(amount, 0) else Split(0, amount))
  {
    if amount >= Gap(balances) {
      var rest := amount - Gap(balances);
      HalfShift(rest, 0);
      HalfShift(balances.long + balances.short - amount, 0);
    }
  }

  /** On canonical balances a deposit and an exit both land on the canonical split of the new total. */
  lemma DeltasKeepBalance(total: u128, amount: u64)
    ensures total + amount <= U128_MAX ==>
              (AddToDomains(BalancedDomains(total), DepositDelta(BalancedDomains(total), amount))
               == Ok(BalancedDomains(total + amount)))
    ensures amount <= total ==>
              (var d := WithdrawDelta(BalancedDomains(total), amount);
               && d.long <= BalancedDomains(total).long && d.short <= BalancedDomains(total).short
               && BalancedDomains(total - amount)
               == Split(BalancedDomains(total).long - d.long, BalancedDomains(total).short - d.short))
  {
    if total + amount <= U128_MAX {
      DepositKeepsBalance(total, amount);
    }
    if amount <= total {
      WithdrawKeepsBalance(total, amount);
    }
  }

  lemma DepositKeepsBalance(total: u128, amount: u64)
    requires total + amount <= U128_MAX
    ensures AddToDomains(BalancedDomains(total), DepositDelta(BalancedDomains(total), amount))
         == Ok(BalancedDomains(total + amount))
  {
    HalfShift(total, total / 2);
    BalancedDelta(total / 2, total % 2, amount);
    HalfOfSum(total, amount);
  }

  /** The deposit delta of domains that differ by at most the odd atom. */
  lemma BalancedDelta(half: nat, odd: nat, amount: u64)
    requires odd <= 1 && half + odd <= U128_MAX
    ensures var gap := Min(odd, amount);
            DepositDelta(Split(half, half + odd), amount) == Split(gap + (amount - gap) / 2, amount - gap - (amount - gap) / 2)
  {
  }

  /** The half of a sum is one half, the odd atom it can pair with, and half of the rest. */
  lemma HalfOfSum(total: nat, amount: nat)
    ensures var gap := Min(total % 2, amount);
            (total + amount) / 2 == total / 2 + gap + (amount - gap) / 2
  {
    if total % 2 == 0 {
      HalfShift(total + amount, total / 2);
    } else if amount > 0 {
      HalfShift(total + amount, total / 2 + 1);
    }
  }

  lemma WithdrawKeepsBalance(total: u128, amount: u64)
    requires amount <= total
    ensures var d := WithdrawDelta(BalancedDomains(total), amount);
            && d.long <= BalancedDomains(total).long && d.short <= BalancedDomains(total).short
            && BalancedDomains(total - amount)
            == Split(BalancedDomains(total).long - d.long, BalancedDomains(total).short - d.short)
  {
    var gap := Min(total % 2, amount);
    HalfShift(total, total / 2);
    HalfShift(total - amount, total / 2);
    HalfShift(amount - gap, 0);
  }

  /** Taking out `h` pairs takes `h` out of the half. */
  lemma HalfShift(n: nat, h: nat)
    ensures n / 2 == h + (n - 2 * h) / 2
    ensures n == 2 * (n / 2) + n % 2 && 0 <= n % 2 <= 1
  {
  }

  // ------------------------------------------------------------------------------------------
  // The clamped plan
  // ------------------------------------------------------------------------------------------

  lemma ShareOfPart(part: nat, share: nat, whole: nat)
    requires part <= whole && whole > 0
    ensures 0 <= part * share / whole <= share
  {
    MulMonotone(part, whole, share);
    FloorIsLargest(part * share, whole, part * share / whole);
    FloorIsLargest(part * share, whole, 0);
    CancelFactor(part * share / whole, share, whole);
  }

  /** Whatever the principal debit, a payable exit has an ideal long debit. */
  lemma IdealDebitExists(balance: AssetBalance, payout: u128, principalDebit: Split)
    requires WellFormed(balance) && payout <= balance.withdrawable
    requires 0 < principalDebit.long + principalDebit.short <= U128_MAX
    ensures IdealLongDebit(balance, payout, principalDebit).Ok?
  {
    var principalTotal := principalDebit.long + principalDebit.short;
    if payout <= principalTotal {
      ShareOfPart(payout, principalDebit.long, principalTotal);
    } else {
      var residualLong := SaturatingSub(balance.long.remaining, principalDebit.long);
      var residualShort := SaturatingSub(balance.short.remaining, principalDebit.short);
      ShareOfPart(payout - principalTotal, residualLong, residualLong + residualShort);
    }
  }

  /** An impaired exit takes the largest proportional part of each domain's principal debit, and no more. */
  lemma ImpairedFollowsPrincipal(balance: AssetBalance, payout: u128, principalDebit: Split, ideal: u128)
    requires 0 < payout <= principalDebit.long + principalDebit.short
    requires IdealLongDebit(balance, payout, principalDebit) == Ok(ideal)
    ensures ShareFits(ideal, payout, principalDebit.long, principalDebit.long + principalDebit.short)
    ensures ideal <= principalDebit.long && 0 <= payout - ideal <= principalDebit.short
    ensures payout == principalDebit.long + principalDebit.short ==> ideal == principalDebit.long
  {
    ShareOfSurplus(payout, principalDebit.long, principalDebit.short);
  }

  /**
   An exit with surplus takes the principal debit first and then shares the surplus over the residual
   balances, within both domains.
   */
  lemma SurplusFollowsResiduals(balance: AssetBalance, payout: u128, principal: u64, ideal: u128)
    requires WellFormed(balance) && 0 < principal <= payout <= balance.withdrawable
    requires IdealLongDebit(balance, payout, WithdrawDelta(Remaining(balance), principal)) == Ok(ideal)
    ensures var debit := WithdrawDelta(Remaining(balance), principal);
            && debit.long <= ideal <= balance.long.remaining
            && debit.short <= payout - ideal <= balance.short.remaining
            && (payout > principal ==>
                  var (residualLong, residualShort) := (balance.long.remaining - debit.long, balance.short.remaining - debit.short);
                  ShareFits(ideal - debit.long, payout - principal, residualLong, residualLong + residualShort))
  {
    var debit := WithdrawDelta(Remaining(balance), principal);
    WithdrawDeltaCloses(Remaining(balance), principal);
    if payout > principal {
      ShareOfSurplus(payout - principal, balance.long.remaining - debit.long, balance.short.remaining - debit.short);
    } else {
      ImpairedFollowsPrincipal(balance, payout, debit, ideal);
    }
  }

  /** `share` is the largest part of `amount` in proportion to `part` of `whole`. */
  predicate ShareFits(share: int, amount: nat, part: nat, whole: nat) {
    share * whole <= amount * part < (share + 1) * whole
  }

  lemma ShareOfSurplus(surplus: nat, long: nat, short: nat)
    requires 0 < surplus <= long + short
    ensures var share := surplus * long / (long + short);
            && ShareFits(share, surplus, long, long + short)
            && 0 <= share <= long && 0 <= surplus - share <= short
  {
    var share := surplus * long / (long + short);
    FloorIsLargest(surplus * long, long + short, share);
    FloorIsLargest(surplus * long, long + short, share + 1);
    ShareOfPart(surplus, long, long + short);
    ShareOfPart(long, surplus, long + short);
    assert long * surplus == surplus * long;
    LeftForShort(surplus, long, short);
    FloorIsLargest(surplus * long, long + short, surplus - short);
  }

  lemma LeftForShort(surplus: nat, long: nat, short: nat)
    requires surplus <= long + short
    ensures (surplus - short) * (long + short) <= surplus * long
  {
    MulMonotone(surplus, long + short, short);
    assert (surplus - short) * (long + short) == surplus * long + surplus * short - (long + short) * short;
  }

  /** No feasible target that only debits comes closer to the ideal long debit than the clamped one. */
  lemma ClampedTargetIsNearest(balance: AssetBalance, payout: u128, ideal: u128, other: Split)
    requires WellFormed(balance) && payout <= balance.withdrawable && Feasible(balance, payout, other)
    requires other.long <= balance.long.remaining && other.short <= balance.short.remaining
    ensures ClampedTarget(balance, payout, ideal).Ok?
    ensures Distance(balance.long.remaining - ClampedTarget(balance, payout, ideal).value.long, ideal)
         <= Distance(balance.long.remaining - other.long, ideal)
  {
    ClampedTargetFeasible(balance, payout, ideal);
  }

  function Distance(a: int, b: int): nat {
    if a <= b then b - a else a - b
  }

  /** Where a payable exit with this principal debit leaves the domains. */
  function PlannedTarget(balance: AssetBalance, payout: u128, principalDebit: Split): Result<Split> {
    var ideal :- IdealLongDebit(balance, payout, principalDebit);
    ClampedTarget(balance, payout, ideal)
  }

  /**
   The clamped plan exists exactly when Percolator can pay: for every positive payout within the capacity
   and every positive principal debit the target is feasible, the plan reaches it, and neither domain
   gains.
   */
  lemma WithdrawalPlanExactly(balance: AssetBalance, payout: u128, principalDebit: Split)
    ensures WithdrawalPlan(balance, payout, principalDebit).Ok?
       <==> (&& WellFormed(balance) && 0 < payout <= balance.withdrawable
             && 0 < principalDebit.long + principalDebit.short <= U128_MAX)
    ensures WithdrawalPlan(balance, payout, principalDebit).Ok? ==>
              && PlannedTarget(balance, payout, principalDebit).Ok?
              && PlanLands(balance, payout, PlannedTarget(balance, payout, principalDebit).value,
                           WithdrawalPlan(balance, payout, principalDebit).value)
  {
    if WithdrawalPlan(balance, payout, principalDebit).Ok? {
      PlanNeedsCapacity(balance, payout, principalDebit);
    }
    if WellFormed(balance) && 0 < payout <= balance.withdrawable
       && 0 < principalDebit.long + principalDebit.short <= U128_MAX {
      PlanOfCapacity(balance, payout, principalDebit);
    }
  }

  /** The plan pays `payout`, ends at a feasible target, and only ever debits a domain. */
  predicate PlanLands(balance: AssetBalance, payout: nat, target: Split, plan: Plan) {
    && Feasible(balance, payout, target) && Reaches(balance, payout, target, plan)
    && target.long <= balance.long.remaining && target.short <= balance.short.remaining
  }

  lemma PlanOfCapacity(balance: AssetBalance, payout: u128, principalDebit: Split)
    requires WellFormed(balance) && 0 < payout <= balance.withdrawable
    requires 0 < principalDebit.long + principalDebit.short <= U128_MAX
    ensures WithdrawalPlan(balance, payout, principalDebit).Ok? && PlannedTarget(balance, payout, principalDebit).Ok?
    ensures PlanLands(balance, payout, PlannedTarget(balance, payout, principalDebit).value,
                      WithdrawalPlan(balance, payout, principalDebit).value)
  {
    IdealDebitExists(balance, payout, principalDebit);
    ClampedTargetFeasible(balance, payout, IdealLongDebit(balance, payout, principalDebit).value);
    PlannerSucceedsExactly(balance, payout, PlannedTarget(balance, payout, principalDebit).value);
  }

  lemma PlanNeedsCapacity(balance: AssetBalance, payout: u128, principalDebit: Split)
    requires WithdrawalPlan(balance, payout, principalDebit).Ok?
    ensures WellFormed(balance) && 0 < payout <= balance.withdrawable
    ensures 0 < principalDebit.long + principalDebit.short <= U128_MAX
  {
    PlannerSucceedsExactly(balance, payout, PlannedTarget(balance, payout, principalDebit).value);
  }

  /** With no floor in the way, an exit that pays no surplus undoes exactly its principal debit. */
  lemma UnreservedExitUndoesDebit(balance: AssetBalance, payout: u64)
    requires WellFormed(balance) && 0 < payout <= balance.withdrawable
    requires var debit := WithdrawDelta(Remaining(balance), payout);
             debit.long <= LongCapacity(balance) && debit.short <= ShortCapacity(balance)
    ensures var debit := WithdrawDelta(Remaining(balance), payout);
            && PlannedTarget(balance, payout, debit).Ok?
            && AddToDomains(PlannedTarget(balance, payout, debit).value, debit) == Ok(Remaining(balance))
  {
    var debit := WithdrawDelta(Remaining(balance), payout);
    WithdrawDeltaCloses(Remaining(balance), payout);
    IdealDebitExists(balance, payout, debit);
    ImpairedFollowsPrincipal(balance, payout, debit, IdealLongDebit(balance, payout, debit).value);
    ClampedTargetFeasible(balance, payout, debit.long);
  }

  lemma ClampedTargetFeasible(balance: AssetBalance, payout: u128, ideal: u128)
    requires WellFormed(balance) && payout <= balance.withdrawable
    ensures ClampedTarget(balance, payout, ideal).Ok?
    ensures var target := ClampedTarget(balance, payout, ideal).value;
            && Feasible(balance, payout, target)
            && target.long <= balance.long.remaining && target.short <= balance.short.remaining
            && (ideal <= LongCapacity(balance) && 0 <= payout - ideal <= ShortCapacity(balance) ==>
                  target.long == balance.long.remaining - ideal
                  && target.short == balance.short.remaining - (payout - ideal))
  {
  }
}
