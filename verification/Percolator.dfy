/**
 What the insurance programs see of Percolator: the two domain budgets of one asset with their
 reservations, the global insurance they are part of, and the two calls that move them
 (percolator-accounting/src/lib.rs, `read_asset_insurance_balance`).
 */
module Percolator {
  import opened Machine

  /** An amount per domain. */
  datatype Split = Split(long: u128, short: u128)

  datatype DomainBalance = DomainBalance(remaining: u128, withdrawable: u128)
  datatype AssetBalance = AssetBalance(long: DomainBalance, short: DomainBalance, remaining: u128, withdrawable: u128)

  /** A resolved market becomes empty when its last portfolio and capital balance have left. */
  datatype Phase = Live | Resolved | ResolvedEmpty

  /** Asset 0 of a market; `exposed` says that open positions or unresolved losses exist. */
  datatype Market = Market(domains: Split, reserved: Split, insurance: u128, globallyReserved: u128, vault: u128,
                           phase: Phase, exposed: bool)

  function ReadDomain(remaining: u128, reserved: u128, globalAvailable: u128): DomainBalance {
    DomainBalance(remaining, Min(SaturatingSub(remaining, reserved), globalAvailable))
  }

  function ReadBalance(market: Market): Result<AssetBalance> {
    var globalAvailable := Min(SaturatingSub(market.insurance, market.globallyReserved), market.vault);
    var long := ReadDomain(market.domains.long, market.reserved.long, globalAvailable);
    var short := ReadDomain(market.domains.short, market.reserved.short, globalAvailable);
    if long.remaining + short.remaining > U128_MAX then Err(InvalidAccountData)
    else Ok(AssetBalance(long, short, Min(long.remaining + short.remaining, market.insurance),
                         Min(long.withdrawable + short.withdrawable, globalAvailable)))
  }

  function LongCapacity(balance: AssetBalance): u128 {
    Min(balance.withdrawable, balance.long.withdrawable)
  }

  function ShortCapacity(balance: AssetBalance): u128 {
    balance.withdrawable - LongCapacity(balance)
  }

  /** Percolator's asset-wide withdrawal: the long domain first, within both capacities. */
  function DrainLongFirst(balance: AssetBalance, gross: nat): Result<Split> {
    var fromLong := Min(gross, LongCapacity(balance));
    if gross > balance.withdrawable
      || gross - fromLong > balance.short.withdrawable
      || fromLong > balance.long.remaining
      || gross - fromLong > balance.short.remaining then Err(CpiRejected)
    else Ok(Split(balance.long.remaining - fromLong, balance.short.remaining - (gross - fromLong)))
  }

  function AddToDomains(balances: Split, amounts: Split): Result<Split> {
    if balances.long + amounts.long > U128_MAX || balances.short + amounts.short > U128_MAX then Err(CpiRejected)
    else Ok(Split(balances.long + amounts.long, balances.short + amounts.short))
  }

  /** The withdrawal call: the drained amount leaves the domains, the insurance and the vault. */
  function WithdrawInsuranceAsset(market: Market, gross: nat): Result<Market> {
    var balance :- ReadBalance(market);
    var drained :- DrainLongFirst(balance, gross);
    if gross > market.insurance || gross > market.vault then Err(CpiRejected)
    else Ok(market.(domains := drained, insurance := market.insurance - gross, vault := market.vault - gross))
  }

  /** The domain top-up calls, for a live market: the amounts enter the domains, the insurance and the vault. */
  function TopUpInsuranceDomains(market: Market, amounts: Split): Result<Market> {
    var _ :- Require(market.phase.Live?, CpiRejected);
    var domains :- AddToDomains(market.domains, amounts);
    var amount := amounts.long + amounts.short;
    if market.insurance + amount > U128_MAX || market.vault + amount > U128_MAX then Err(CpiRejected)
    else Ok(market.(domains := domains, insurance := market.insurance + amount, vault := market.vault + amount))
  }

  /** The balance snapshot is consistent: totals agree and no capacity exceeds what it withdraws from. */
  predicate WellFormed(balance: AssetBalance) {
    && balance.long.remaining + balance.short.remaining == balance.remaining
    && LongCapacity(balance) <= balance.long.remaining
    && ShortCapacity(balance) <= balance.short.withdrawable
    && ShortCapacity(balance) <= balance.short.remaining
  }

  /** A snapshot read from a market is consistent exactly when the domains are covered by the insurance. */
  lemma ReadBalanceWellFormed(market: Market)
    ensures ReadBalance(market).Ok? ==>
              (WellFormed(ReadBalance(market).value) <==> market.domains.long + market.domains.short <= market.insurance)
  {
  }
}
