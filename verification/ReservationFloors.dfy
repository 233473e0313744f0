/**
 The reservations of a market, proved on the market itself: no payment takes a domain below what is
 reserved in it or the insurance below what is reserved globally, and the capacity that is read is the
 largest amount for which that can hold.
 */
module ReservationFloors {
  import opened Machine
  import opened Percolator
  import opened InsurancePlanner
  import opened InsuranceRouting
  import opened ShareLedger
  import opened ShareExits

  /** After a payment every balance is at or above its reservation, or where it was if it was already below. */
  predicate FloorsKept(market: Market, market': Market) {
    && market'.domains.long >= Min(market.domains.long, market.reserved.long)
    && market'.domains.short >= Min(market.domains.short, market.reserved.short)
    && market'.insurance >= Min(market.insurance, market.globallyReserved)
    && market'.reserved == market.reserved && market'.globallyReserved == market.globallyReserved
  }

  /** Taking out `gross`, `long` of it from the long domain, is possible above all reservations. */
  predicate Withdrawable(market: Market, gross: nat, long: nat) {
    && long <= gross && long <= market.domains.long && gross - long <= market.domains.short
    && gross <= market.insurance && gross <= market.vault
    && FloorsKept(market, Taken(market, gross, long))
  }

  function Taken(market: Market, gross: nat, long: nat): Market
    requires long <= gross && long <= market.domains.long && gross - long <= market.domains.short
    requires gross <= market.insurance && gross <= market.vault
  {
    market.(domains := Split(market.domains.long - long, market.domains.short - (gross - long)),
            insurance := market.insurance - gross, vault := market.vault - gross)
  }

  /** The most that the long domain can give: everything above its reservation. */
  function LongShare(market: Market, gross: nat): nat {
    Min(gross, SaturatingSub(market.domains.long, market.reserved.long))
  }

  /**
   The withdrawable capacity is the largest amount that can leave above all reservations, however it is
   split; and if any split can, the long-first one can.
   */
  lemma CapacityIsLargest(market: Market, balance: AssetBalance, gross: nat)
    requires ReadBalance(market) == Ok(balance)
    ensures gross <= balance.withdrawable <==> Withdrawable(market, gross, LongShare(market, gross))
    ensures forall long: nat :: Withdrawable(market, gross, long) ==> gross <= balance.withdrawable
  {
  }

  /** The two domain capacities are what the long-first order can take from each. */
  lemma DomainCapacities(market: Market, balance: AssetBalance)
    requires ReadBalance(market) == Ok(balance)
    ensures LongCapacity(balance) == LongShare(market, balance.withdrawable)
    ensures ShortCapacity(balance) == balance.withdrawable - LongShare(market, balance.withdrawable)
    ensures Remaining(balance) == market.domains
    ensures balance.remaining == Min(market.domains.long + market.domains.short, market.insurance)
  {
    CapacityIsLargest(market, balance, balance.withdrawable);
  }

  /** The withdrawal call drains the long domain down to its reservation before it touches the short one. */
  lemma WithdrawalKeepsFloors(market: Market, gross: nat)
    requires WithdrawInsuranceAsset(market, gross).Ok?
    ensures var long := LongShare(market, gross);
            Withdrawable(market, gross, long) && WithdrawInsuranceAsset(market, gross) == Ok(Taken(market, gross, long))
  {
    CapacityIsLargest(market, ReadBalance(market).value, gross);
  }

  /** Every payment of an exit, live or resolved, keeps the reservation floors. */
  lemma PaymentKeepsFloors(market: Market, balance: AssetBalance, owed: u64, amount: u64)
    requires ReadBalance(market) == Ok(balance) && PayExit(market, balance, owed, amount).Ok?
    ensures FloorsKept(market, PayExit(market, balance, owed, amount).value)
  {
    if owed > 0 && market.phase.Live? {
      var plan := WithdrawalPlan(balance, owed, WithdrawDelta(Remaining(balance), Min(owed, amount))).value;
      WithdrawalKeepsFloors(market, plan.gross);
    } else if owed > 0 {
      WithdrawalKeepsFloors(market, owed);
    }
  }

  /** So does every exit. */
  lemma ExitKeepsFloors(l: Ledger, owner: Pubkey, request: Option<u64>, now: u64)
    requires Exit(l, owner, request, now).Ok?
    ensures FloorsKept(l.market, Exit(l, owner, request, now).value.0.market)
  {
    var amount := if request.None? then l.positions[owner].principal else request.value;
    var balance := ReadBalance(l.market).value;
    var quote := QuoteExit(l.pool, l.positions[owner], amount, l.market, ReadInsurance(balance)).value;
    PaymentKeepsFloors(l.market, balance, quote.owed, amount);
  }
}
