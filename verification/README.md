# Verified model of the genesis custody, vote, distribution, reward and buy-burn programs

This project models the accounting core of six components and proves what they promise over whole runs.

* **Insurance share ledger** (`Machine`, `Division`, `MapSum`, `WideArithmetic`, `ShareMath`, `ShareLedger`,
  `MintCapacity`, `ShareSolvency`, `ShareExits`, `ShareFairness`, `ShareHoldings`, `LossFree`, `Subledger`). A pool
  prices shares with a virtual offset, halves its total when a mint would not fit (positions catch up later by a
  shift), voids all shares after a total loss, and burns only a rate-safe part of what an exit retires. Losses and
  donations are arbitrary changes of the market between two instructions.
* **Domain router and withdrawal planner** (`Percolator`, `InsurancePlanner`, `InsuranceRouting`,
  `ReservationFloors`). Insurance lives in a long and a short domain with reservation floors; one asset-wide
  withdrawal drains the long domain first, and top-ups then reach the target split.
* **Genesis election** (`Distribution`, `GenesisVote`, `GenesisInvariants`, `GenesisOutcome`, `GenesisRuns`,
  `GenesisProgram`). A transition system over the accounts of three programs: ballots and tallies, the vote lock on
  insurance positions, and the COIN distribution that the election seals.
* **Reward epochs** (`RewardMath`, `RewardEpochs`, `RewardSolvency`, `RewardCapital`, `RewardLaws`,
  `RewardProgram`). Stakes are registered, crystallized into points, frozen into denominators, and paid floor shares
  under live caps.
* **Surplus buy-and-burn** (`BidRanking`, `BuyBurn`, `BuyBurnSafety`, `BuyBurnLaws`, `BuyBurnProgram`). Bids are
  ranked by an exact fraction comparison, the budget is released interval by interval, and executions fill the best
  bids first.

Every instruction is a function on values that returns `Ok` with the new accounts or `Err` with the accounts
unchanged; the invariants and the theorems over runs are about these functions. Where a program updates its accounts
in place, a class with those fields has the instruction as a method, written step by step with the program's loops,
and its contract equates the new state with the function; the instructions of a whole program also keep its
invariant. Machine widths are subset types of `int`, so storing a
value in one proves that the operation did not overflow; a checked operation that can fail is an explicit branch.

The design notes at the repository's root mention a log-time vote multiplier. The code does not have one: vote power
is exactly one vote per atom of live principal (`genesis-vote/src/lib.rs:151-154`), and so it is here.

What the environment supplies is a parameter: the clock slot, the market's books, the portfolio counters, and the
donations to a vault. Facts fixed when accounts are initialised are stated as the fresh states
(`GenesisRuns.FreshWorld`, `RewardSolvency.FreshRewards`, `ShareLedger.FreshLedger`): the pool's schedule is the one
in the election's address, the distribution vault holds the supply it promises, cohort shares sum to at most 10000
basis points, and the finalize window is not empty.

## Model

| member | source | states |
|---|---|---|
| WideArithmetic.WideMulDivRem | subledger/src/lib.rs:773-803 | the bit loop returns the true quotient and remainder of a·b/denom for all 128-bit inputs, and nothing exactly when denom is 0 or the quotient does not fit; no intermediate overflows |
| WideArithmetic.WideMulDivFloor | subledger/src/lib.rs:805-807 | the exact floor of the wide quotient |
| WideArithmetic.WideMulDivCeil | subledger/src/lib.rs:809-812 | the exact ceiling of the wide quotient, absent exactly when it does not fit |
| WideArithmetic.FractionalPart | subledger/src/lib.rs:786-800 | binary long division of rem·b by denom, every step within 128 bits |
| WideArithmetic.AddMod | subledger/src/lib.rs:948-955 | sum of residues modulo denom with its carry, without overflow |
| Percolator.ReadBalanceWellFormed | percolator-accounting/src/lib.rs:702-781 | the balance read from a market is consistent exactly when the domains are covered by the insurance |
| ReservationFloors.CapacityIsLargest | percolator-accounting/src/lib.rs:715-781 | the withdrawable capacity is the largest amount that can leave with both domain reservations, the global reservation and the vault respected, however it is split, and the long-first split attains it |
| ReservationFloors.DomainCapacities | percolator-accounting/src/lib.rs:715-781 | the capacity of each domain is what the long-first order can take above its reservation, and the remaining balance is what domains and insurance both cover |
| ReservationFloors.WithdrawalKeepsFloors | percolator-accounting/src/lib.rs:89-94 | a withdrawal drains the long domain down to its reservation before it touches the short one, and keeps every floor |
| ReservationFloors.PaymentKeepsFloors | subledger/src/lib.rs:2646-2755 | every payment of an exit, live or resolved, leaves each domain at or above its reservation and the insurance at or above the global one, or where they already were below |
| ReservationFloors.ExitKeepsFloors | subledger/src/lib.rs:2352-2820 | so does every exit |
| InsurancePlanner.PlannerSucceedsExactly | percolator-accounting/src/lib.rs:95-210 | the planner succeeds exactly when totals agree and no reservation floor is crossed, and its plan pays the payout and lands on the target |
| InsurancePlanner.PlannerIsMinimal | percolator-accounting/src/lib.rs:95-210 | if any long-first withdrawal plus top-ups does the job, the planner succeeds, with no larger gross withdrawal |
| InsuranceRouting.DepositDeltaCloses | subledger/src/lib.rs:824-838 | a deposit is split completely and leaves a domain gap of at most max(gap − amount, 1) |
| InsuranceRouting.WithdrawDeltaCloses | subledger/src/lib.rs:840-856 | an exit debit never exceeds a domain and leaves a gap of at most max(gap − amount, 1) |
| InsuranceRouting.DepositDeltaExactly | subledger/src/lib.rs:824-838 | a deposit below the gap goes wholly to the lower domain, any other ends at the canonical split of the new total, from every starting skew |
| InsuranceRouting.WithdrawDeltaExactly | subledger/src/lib.rs:840-856 | an exit below the gap comes wholly from the higher domain, any other ends at the canonical split of the new total, from every starting skew |
| InsuranceRouting.DeltasKeepBalance | subledger/src/lib.rs:824-856 | on the canonical split, deposits and exits land on the canonical split of the new total |
| InsuranceRouting.ClampedTargetIsNearest | subledger/src/lib.rs:917-936 | no feasible target that only debits comes closer to the ideal long debit than the clamped one |
| InsuranceRouting.WithdrawalPlanExactly | subledger/src/lib.rs:858-945 | for every balance, payout and principal debit the clamped plan exists exactly when 0 < payout <= withdrawable on consistent books and the debit is positive; its target is feasible, the plan reaches it, and no domain gains |
| InsuranceRouting.ImpairedFollowsPrincipal | subledger/src/lib.rs:891-893 | a payout within the principal debit takes the largest proportional part of the long debit, and never more than either domain's debit |
| InsuranceRouting.UnreservedExitUndoesDebit | subledger/src/lib.rs:858-945 | with no floor in the way a payout without surplus undoes exactly its principal debit |
| InsuranceRouting.SurplusFollowsResiduals | subledger/src/lib.rs:891-916 | an exit with surplus takes the principal debit first, then the largest proportional part of the residual long balance, within both domains |
| ShareMath.GenerationRoundTrip | subledger/src/lib.rs:967-982 | packing and unpacking the (reset, scale) word are inverse on all u40 words, and larger words are rejected |
| ShareMath.BurnIsLargestSafe | subledger/src/lib.rs:1155-1187 | the burn exists and is the largest part of the retired shares that does not raise (balance+1)/(shares+virtual) |
| ShareMath.LowerRateLowerValue | subledger/src/lib.rs:1131-1148 | if the rate did not rise, no holding redeems for more |
| ShareMath.FloorMintKeepsHolders | subledger/src/lib.rs:993-1010 | a floor mint never lowers the redeemable value of an earlier holding |
| ShareMath.LazyShiftIsEagerHalving | subledger/src/lib.rs:1107-1129 | one right shift by k equals k halvings, and is zero from 128 steps on |
| ShareMath.VirtualSharesHalve | subledger/src/lib.rs:984-991 | each scale epoch ceiling-halves the virtual offset like the total |
| MintCapacity.TryDecides | subledger/src/lib.rs:1052-1105 | one try mints exactly when the total fits, and its last capacity test never rejects |
| MintCapacity.RescaleOfHuge | subledger/src/lib.rs:1034-1050 | rescaling a total that does not fit never meets the cannot-halve error; it fails exactly at the last scale epoch |
| MintCapacity.MintTotal | subledger/src/lib.rs:1052-1105 | the retry loop fails exactly when no rescale within the 20-bit epoch makes room, otherwise it stops at the first fitting scale and total + minted + virtual fits u128 |
| MintCapacity.MintNeverFailsWithHeadroom | subledger/src/lib.rs:1052-1105 | 65 scale epochs of headroom are always enough, for every total, amount and balance |
| MintCapacity.FittingMintNeedsNoRescale | subledger/src/lib.rs:1064-1090 | a fitting total is minted into unchanged at the floor price |
| MintCapacity.NoProfitableEntry | subledger/src/lib.rs:1243-1270 | the shares of an accepted deposit are at once worth its amount or one atom less, after a floor or a ceiling mint |
| MintCapacity.MintKeepsHolders | subledger/src/lib.rs:993-1010 | a mint without rescale lowers no earlier holder's redemption |
| ShareSolvency.RecapitalizationKeeps | subledger/src/lib.rs:1019-1032 | voiding the shares after a total loss keeps the ledger consistent |
| ShareSolvency.RescalesKeep | subledger/src/lib.rs:1034-1050 | any number of rescales keeps the shifted live shares within the halved total |
| ShareSolvency.MoveKeepsEffective | subledger/src/lib.rs:1107-1129 | catching up with the pool's generation never fails on a reachable position and changes no effective shares |
| ShareSolvency.DepositKeeps | subledger/src/lib.rs:2115-2278 | an accepted deposit keeps principals, generations and shares consistent |
| ShareExits.QuoteTotal | subledger/src/lib.rs:2544-2645 | pricing an allowed exit never fails except for an exposed market, and retires, owes and burns nested amounts |
| ShareExits.ExitKeeps | subledger/src/lib.rs:2453-2820 | an exit keeps the ledger consistent, also when it empties the pool |
| ShareExits.RunKeeps | subledger/src/lib.rs:2050-2887 | every run of deposits, exits, locks and arbitrary market changes keeps the invariant |
| ShareExits.ClaimsAreCovered | subledger/src/lib.rs:1131-1148 | all claims redeemed together never exceed the priced balance |
| ShareExits.EveryRunIsSolvent | subledger/src/lib.rs:2050-2887 | after every run of a fresh pool principals sum to the outstanding principal, no live generation is ahead of the pool, lazily shifted shares sum to at most the total, and all claims fit the insurance |
| ShareHoldings.RetiredIsProportional | subledger/src/lib.rs:2562-2569 | what an exit retires is the largest part of the holding in proportion to the principal it takes, and all of it with the rest |
| ShareHoldings.ExitRetiresExactly | subledger/src/lib.rs:2769-2783 | at any price, the owner's effective shares after an exit are those before minus exactly the retired ones, and none once the principal is gone |
| ShareHoldings.TwoExitsRetireTheHolding | subledger/src/lib.rs:2544-2793 | whatever others and the market do in between, leaving in two steps retires exactly the holding, and the second exit owes the floor value of the shares not yet retired, as long as the pool was not rescaled or reset |
| ShareHoldings.LastExitNormalizes | subledger/src/lib.rs:1204-1226 | the exit that empties the pool leaves no holding, scale zero, and no shares (PRINCIPAL) or reserve shares at one atom per 10^6 (WITH_SURPLUS) |
| ShareHoldings.RecapitalizationExactly | subledger/src/lib.rs:1019-1032 | shares are voided only after a total loss, the reset counter rises only where principal is outstanding, and it fails exactly when the counter is used up |
| ShareHoldings.MintSucceedsExactly | subledger/src/lib.rs:1019-1105 | the mint of a deposit fails exactly for a used-up reset counter, an exhausted scale epoch or an unfair price |
| ShareHoldings.DepositSucceedsExactly | subledger/src/lib.rs:2050-2278 | in a consistent ledger no share sum of the pool or the position can stop a deposit: it fails exactly outside its window, for an unreadable or closed market, a withdrawn position, a full outstanding principal, or by its mint |
| ShareHoldings.DepositCreditsExactly | subledger/src/lib.rs:2115-2278 | at any price a deposit adds exactly the minted shares to the holding as it counts in the pool minted into, restarts the clock, touches no one else, and brings the domains to the canonical split or closer to it |
| ShareHoldings.TopUpExactly | subledger/src/lib.rs:824-838 | a live market whose insurance and vault have room takes every deposit: no domain can overflow, and it ends at the canonical split or the lower domain takes it all |
| ShareHoldings.DepositKeepsOtherClaims | subledger/src/lib.rs:993-1010 | a deposit without rescale or reset lowers no other owner's claim, read from the accounts and the market it leaves |
| ShareFairness.ExitKeepsOtherClaims | subledger/src/lib.rs:2629-2645 | every other owner's claim, for any amount, read from the accounts and the market as the exit leaves them, is worth at most what it was before |
| ShareFairness.DepositThenExit | subledger/src/lib.rs:2050-2278 | a newcomer who deposits and exits at once is owed, and paid, the amount or one atom less, after any history of losses, donations and rescalings |
| ShareExits.RescalesNeverRaise | subledger/src/lib.rs:1034-1050 | after any number of rescales no holding redeems for more |
| ShareExits.PayTotal | subledger/src/lib.rs:2646-2755 | for every readable market, a payout goes through exactly within the withdrawable capacity and, while live, when the insurance covers the domains and the gross withdrawal is a token amount; then exactly what is owed leaves the domains, the insurance and the vault |
| ShareExits.ExitSucceedsExactly | subledger/src/lib.rs:2352-2820 | for every market, an allowed exit fails exactly when the market is unreadable or cannot pay what is owed (exposed, short of capacity, or no fitting plan); no share computation, total or generation can stop it, and it pays exactly the floor value of its shares |
| ShareExits.CoveredMarketPays | subledger/src/lib.rs:2646-2755 | when the insurance covers the domains and the capacity is a token amount, capacity and exposure decide alone |
| LossFree.ParDeposit | subledger/src/lib.rs:2050-2278 | in a pool of either policy priced at its outstanding principal, a deposit succeeds exactly under the caller-checkable conditions and adds its amount at 10^6 shares per atom |
| LossFree.UnimpairedIsCovered | subledger/src/lib.rs:2126-2133 | a PRINCIPAL pool is priced at its principal exactly when the insurance covers it, a WITH_SURPLUS pool exactly when the insurance equals it |
| LossFree.ParExit | subledger/src/lib.rs:2544-2820 | an exit from such a pool pays exactly the requested amount and retires just that principal |
| LossFree.LossFreeRefinement | subledger/src/lib.rs:2126-2133 | for both policies, in every run whose instructions find the pool priced at its outstanding principal, the share machine is the plain ledger and nothing is rescaled |
| LossFree.RoutingIsPathIndependent | subledger/src/lib.rs:2144-2147 | for both policies, any interleaving of deposits and exits keeps the domains at the canonical split of the net total |
| LossFree.EmptyPoolRouting | subledger/src/lib.rs:824-856 | from an empty pool of either policy on a live, unreserved market every such run ends at the canonical split |
| LossFree.SplitExit | subledger/src/lib.rs:2617-2625 | in such a run every allowed exit goes through at par and undoes its share of the split |
| Subledger.PoolAccount.BeginFullyImpairedRecapitalization | subledger/src/lib.rs:1019-1032 | the in-place reset equals the specification |
| Subledger.PoolAccount.RescaleShares | subledger/src/lib.rs:1034-1050 | the in-place halving equals the specification |
| Subledger.PoolAccount.MintSharesWithCapacity | subledger/src/lib.rs:1052-1105 | the retry loop over the mutable pool equals the recursive specification |
| Subledger.PoolAccount.RetirePrincipal | subledger/src/lib.rs:2769-2793 | the pool after an exit, reset when it empties |
| Subledger.PositionAccount.MoveToCurrentShareGeneration | subledger/src/lib.rs:1107-1129 | the in-place catch-up equals the specification |
| Subledger.PositionAccount.Retire | subledger/src/lib.rs:2769-2815 | the position after an exit or a terminal return |
| Subledger.Program.InsuranceDeposit | subledger/src/lib.rs:2050-2278 | the stored accounts after a deposit are the specified ones, unchanged when it fails, and stay consistent |
| Subledger.Program.InsuranceWithdraw | subledger/src/lib.rs:2352-2820 | the stored accounts and the payout of an exit are the specified ones, nothing changes when it fails, and the accounts stay consistent |
| Subledger.Program.SetLock | subledger/src/lib.rs:2832-2887 | the vote lock is set to what the genesis vote asks for |
| Distribution.AppendTotalExact | distribution/src/lib.rs:597-614 | a batch is accepted exactly when every entry is valid and the exact sum stays within the supply |
| Distribution.AppendSucceedsExactly | distribution/src/lib.rs:572-637 | only its creator fills a proposal, before any seal and within capacity, with valid entries whose sum stays within the supply; the entries already there and all other proposals stay |
| Distribution.ClaimKeeps | distribution/src/lib.rs:684-757 | a claim pays the entry's amount to its own recipient, zeroes just that entry, and keeps COIN conserved and the rest covered |
| Distribution.ClaimSucceedsExactly | distribution/src/lib.rs:684-757 | a claim succeeds exactly for an unclaimed entry of the sealed proposal, by the recipient it names, before seal slot plus claim window; the vault never refuses |
| Distribution.BurnSucceedsExactly | distribution/src/lib.rs:761-815 | burning starts exactly where claiming ends and takes the whole vault |
| Distribution.UnclaimedIsPayable | distribution/src/lib.rs:684-757 | inside the claim window every unclaimed entry is payable to its recipient, whatever was claimed before |
| Distribution.BurnKeeps | distribution/src/lib.rs:761-815 | burning happens only after the window and keeps paid + burned + vault equal to what the vault received |
| Distribution.DistributionProgram.Append | distribution/src/lib.rs:572-637 | the two passes over a batch equal the specification |
| Distribution.DistributionProgram.Seal | distribution/src/lib.rs:640-680 | the sealed distribution is the specified one |
| Distribution.DistributionProgram.ClaimEntry | distribution/src/lib.rs:684-757 | payment and zeroed entry are the specified ones |
| Distribution.DistributionProgram.Burn | distribution/src/lib.rs:761-815 | the vault is emptied only after the window |
| GenesisInvariants.CastVoteExactly | genesis-vote/src/lib.rs:1076-1254 | a vote goes through exactly when the proposal is open, the principal and the nonce match and the voter backs one proposal; no tally operation can stop it |
| GenesisInvariants.VoteKeeps | genesis-vote/src/lib.rs:1211-1299 | a vote keeps tallies equal to the live ballots and the position locked exactly while its ballot is live |
| GenesisInvariants.VotedWithinOutstanding | genesis-vote/src/lib.rs:1211-1262 | the voted principal never exceeds the pool's outstanding principal |
| GenesisOutcome.RefundStartExactly | genesis-vote/src/lib.rs:319-362 | refunds start one deposit window after the bootstrap end, exactly for a pool schedule that is the election's own |
| GenesisOutcome.RetireBallotExactly | genesis-vote/src/lib.rs:533-658 | the terminal call succeeds exactly once an outcome exists or one deposit window after the bootstrap has passed; no tally subtraction underflows, and only the owner's ballot leaves the tallies |
| GenesisOutcome.OverrideChangesNothing | genesis-vote/src/lib.rs:610-620 | the override for an executed proposal finds its flags already set in every reachable world |
| GenesisOutcome.TerminalReturnKeeps | subledger/src/lib.rs:2453-2511 | a terminal return keeps the cross-program invariant |
| GenesisOutcome.WinnerIsUnique | genesis-vote/src/lib.rs:1373-1391 | two proposals can never both pass the winner test |
| GenesisOutcome.TriggerSucceedsExactly | genesis-vote/src/lib.rs:1304-1420 | the trigger succeeds exactly while no outcome exists, within one deposit window after the bootstrap, when the live ballots sum to more than half of the principal now in the pool and this proposal's ballots to more than half of those; it seals that proposal at that slot, and the snapshot test never rejects a registered proposal |
| GenesisOutcome.RegisterSucceedsExactly | genesis-vote/src/lib.rs:813-925 | before a seal, registration takes exactly a full, unregistered proposal of the payer's own whose entries sum to the supply |
| GenesisRuns.RunKeepsWorld | genesis-vote/src/lib.rs:1076-1420 | every run of the three programs keeps the cross-program invariant |
| GenesisRuns.VotesAreFunded | genesis-vote/src/lib.rs:1211-1262 | over every run the total is the sum of live ballots and of proposal supports, and at most the outstanding principal |
| GenesisRuns.OneOutcomePerElection | genesis-vote/src/lib.rs:1304-1391 | over every run at most one proposal is sealed, only in [bootstrap end, refund start), for good, and never beside a fallback refund |
| GenesisRuns.RegisteredNeverGrows | genesis-vote/src/lib.rs:859-901 | nothing can be appended to a registered proposal |
| GenesisRuns.ClaimedOnce | distribution/src/lib.rs:713-757 | over every run after a claim the same entry is never paid again, whoever asks and whenever |
| GenesisRuns.ApprovedAllocationIsPaid | distribution/src/lib.rs:593-757 | from registration on the allocation is fixed: once sealed, every entry still holds the approved amount or was zeroed by its payment, paid is what the zeroed entries held, and remaining entries are payable until claims close |
| GenesisRuns.UsedAuthorizationsAreDead | genesis-vote/src/lib.rs:1187-1262 | an authorization used on a live ballot, to retract it or to back again, is used up: after any later run none with the same, an older or no nonce is accepted |
| GenesisRuns.DepositsBlockTheTrigger | genesis-vote/src/lib.rs:1373-1381 | once deposits have lifted the outstanding principal to twice the voted principal, no trigger succeeds until more principal votes or principal leaves |
| GenesisRuns.RetractFreesPrincipal | genesis-vote/src/lib.rs:1131-1141 | in every phase the owner of a live ballot can retract, and that alone makes the locked principal exitable |
| GenesisProgram.GenesisElection.CastBallot | genesis-vote/src/lib.rs:1076-1299 | the tally updates and the lock call equal the specification, nothing changes on failure, and the cross-program invariant is kept |
| GenesisProgram.GenesisElection.TriggerSeal | genesis-vote/src/lib.rs:1304-1420 | flags and seal are set together, or nothing changes, and the cross-program invariant is kept |
| GenesisProgram.GenesisElection.RetireBallot | genesis-vote/src/lib.rs:533-658 | the terminal ballot removal equals the specification |
| RewardMath.LongDivide | residual-distributor/src/lib.rs:160-183 | 64 quotient and remainder steps give the exact share, every value within 128 bits |
| RewardMath.PointsToAmount | residual-distributor/src/lib.rs:150-184 | the result is floor(supply·points/total) when points are within a positive total, otherwise 0 |
| RewardMath.FloorLog2Exact | residual-distributor/src/lib.rs:427-435 | the weight is the exact floor of the binary logarithm |
| RewardMath.CapIsExact | residual-distributor/src/lib.rs:196-208 | on points k·net the cap is k·min(net, cap), with no divisibility or overflow rejection |
| RewardMath.RefreshesOnlyReduce | residual-distributor/src/lib.rs:210-220 | any refresh sequence with a rising spent counter ends at most at the single direct cap |
| RewardMath.FragmentationNeverPays | residual-distributor/src/lib.rs:2810-2825 | splitting a stake never increases its payout after the ceiling fee |
| RewardSolvency.ReplaceKeepsCounted | residual-distributor/src/lib.rs:186-192 | subtract-old, add-new keeps every cohort total the exact sum of its points, and the subtraction never fails |
| RewardSolvency.CrystallizeKeeps | residual-distributor/src/lib.rs:2173-2408 | crystallizing keeps the epoch's invariant |
| RewardSolvency.ResidualOk | residual-distributor/src/lib.rs:2339-2366 | a residual stake's points stay a weight below 64 times its net, and a post-emission refresh is never rejected |
| RewardSolvency.FreezeIsFinal | residual-distributor/src/lib.rs:2424-2510 | a freeze fixes denominators, supply and points for good, and a second freeze is rejected |
| RewardSolvency.ClaimSucceedsExactly | residual-distributor/src/lib.rs:2530-2860 | after the freeze an unclaimed stake's claim fails only for a wrong signer, recipient or witness; the denominator test, the caps and the vault never reject |
| RewardSolvency.ClaimPaysExactShare | residual-distributor/src/lib.rs:2643-2830 | a claim pays the largest amount within its capped points' part of the cohort supply, less the fee on flow cohorts, and changes only its mark and the vault |
| RewardLaws.CohortSharesAreConfigured | residual-distributor/src/lib.rs:774-792 | each of the five cohort supplies is the largest amount within its own configured share of the total, traders taking the remainder |
| RewardLaws.SoleStakeTakesTheCohort | residual-distributor/src/lib.rs:2634-2830 | a stake holding all points of its cohort is paid that cohort's configured part, less the least fee that reaches its rate on flow cohorts |
| RewardLaws.CountersAreTheCohorts | residual-distributor/src/lib.rs:373-396 | LP follows received, traders the loss not yet spent, funding payers both paid sides together |
| RewardLaws.RegisterSucceedsExactly | residual-distributor/src/lib.rs:1950-2162 | registration is open exactly to an untaken stake address with a recipient and a matching account, before the freeze and inside the emission, and starts at zero points |
| RewardLaws.OneFlowStakePerPortfolio | residual-distributor/src/lib.rs:1365-1373 | LP and trader stakes of one portfolio exclude each other for good |
| RewardLaws.CapitalPointsExactly | residual-distributor/src/lib.rs:2243-2306 | capital points are the binary logarithm of the tenure times the counted principal, from the later of registration and position clock to now, the emission end or a forced return |
| RewardLaws.TenureStops | residual-distributor/src/lib.rs:2270-2295 | waiting past the emission end or a forced return earns nothing more |
| RewardLaws.TerminalReturnIsRecorded | subledger/src/lib.rs:2795-2815 | a forced return records its slot and the principal it returned, which is what the reward counts |
| RewardLaws.CapitalClaimExactly | residual-distributor/src/lib.rs:2646-2681 | under the same clock a claim counts the smaller of crystallized and live principal with the full tenure |
| RewardLaws.KeptFlowIsClaimedInFull | residual-distributor/src/lib.rs:2780-2800 | residual flow that is still there, with nothing spent since, is claimed with all its points |
| RewardLaws.LiveCapIsLargest | residual-distributor/src/lib.rs:210-220 | the trader cap is the largest net that the current net and the spending since the snapshot leave |
| RewardLaws.AfterEmissionOnlyReduces | residual-distributor/src/lib.rs:2196-2222 | after the emission LP and funding are closed and a trader's points can only fall |
| RewardLaws.CrystallizeSucceedsExactly | residual-distributor/src/lib.rs:2173-2408 | who may crystallize what and when, and that the running total never stands in the way below its width |
| RewardLaws.FreezeSucceedsExactly | residual-distributor/src/lib.rs:2424-2510 | a freeze waits for the finalize window and fixes the supply that is there to pay |
| RewardSolvency.RewardsAreSolvent | residual-distributor/src/lib.rs:2480-2860 | over every run a cohort total is the sum of its points, each cohort is paid at most its supply, all together at most the frozen supply, and the vault covers what is unpaid |
| RewardSolvency.SuppliesWithin | residual-distributor/src/lib.rs:774-792 | the cohort supplies together never exceed the total supply |
| RewardSolvency.PaidOnce | residual-distributor/src/lib.rs:2607-2830 | a stake that was paid is never paid again |
| RewardSolvency.ResidualClaimIsWeighted | residual-distributor/src/lib.rs:2780-2800 | a capped residual claim is worth its weight times the smaller of frozen net and live cap |
| RewardSolvency.ManyRefreshesAreNoBetter | residual-distributor/src/lib.rs:2339-2366 | many post-emission refreshes of a trader stake leave no more points than one against the last observation |
| RewardCapital.ReachablePositionsAreReadable | residual-distributor/src/lib.rs:262-316 | every position that a run of the pool produced passes the reward program's terminal-record check |
| RewardCapital.TopUpRestartsTenure | residual-distributor/src/lib.rs:2243-2306 | a top-up earns nothing at once and lends no frozen tenure to new capital |
| RewardCapital.KeptCapitalIsClaimedInFull | residual-distributor/src/lib.rs:2645-2680 | capital kept under the same clock is claimed with all its crystallized points |
| RewardCapital.ExitForfeits | residual-distributor/src/lib.rs:2646-2681 | after a voluntary exit a claim is bounded by the principal left, and a full exit forfeits it |
| RewardCapital.TerminalReturnPreservesPoints | residual-distributor/src/lib.rs:2658-2668 | a forced terminal return leaves the claim worth what it was just before |
| RewardCapital.OnlyFlowSinceRegistrationCounts | residual-distributor/src/lib.rs:2307-2408 | after any run since registration, points count only the counter's growth since registration, under the tenure since registration |
| RewardProgram.RewardEpoch.ReplaceCohortPoints | residual-distributor/src/lib.rs:186-192 | the in-place total update equals the specification |
| RewardProgram.RewardEpoch.CrystallizeStake | residual-distributor/src/lib.rs:2173-2408 | stake and totals after crystallizing are the specified ones |
| RewardProgram.RewardEpoch.FreezeEpoch | residual-distributor/src/lib.rs:2424-2510 | the frozen config is the specified one |
| RewardProgram.RewardEpoch.ClaimShare | residual-distributor/src/lib.rs:2530-2860 | payment, claimed mark and vault are the specified ones, and the epoch stays solvent |
| BidRanking.CompareFraction | twap/src/surplus.rs:1361-1410 | the continued-fraction loop terminates and returns the exact order for all 128-bit inputs; it fails exactly for a zero denominator |
| BidRanking.EuclidIsExact | twap/src/surplus.rs:1371-1400 | Euclid's steps on both fractions decide the order of the cross products |
| BidRanking.SortedUnique | twap/src/surplus.rs:1290-1318 | a ranking is determined by its bids and repeats none |
| BidRanking.InsertKeeps | twap/src/surplus.rs:1298-1315 | inserting the newest bid before the first it strictly beats keeps price order with ties in book order |
| BidRanking.TopBidIndices | twap/src/surplus.rs:1290-1318 | every rankable bid exactly once, by descending COIN per USDC, ties in book order; it fails exactly beyond 64 bids |
| BuyBurnSafety.ProfitRestoresFloorFirst | twap/src/surplus.rs:398-423 | a profit restores the floor first and adds to the withdrawable surplus just the burn share of the rest; the floor never falls |
| BuyBurnSafety.ReleasedMonotone | twap/src/surplus.rs:1012-1028 | the release never shrinks with time and never exceeds the budget |
| BuyBurnSafety.ReleasedIsCompletedIntervals | twap/src/surplus.rs:1012-1028 | inside the window the release is the target of exactly the completed intervals |
| BuyBurnSafety.NextTargetIsLeast | twap/src/surplus.rs:1030-1057 | the search returns the least interval target above what was pulled |
| BuyBurnSafety.PartialFill | twap/src/surplus.rs:518-543 | a partial fill burns the largest amount within the remaining price, never all of it, and never above the original bid's price over all its fills |
| BuyBurnSafety.TurnKeeps | twap/src/surplus.rs:1152-1187 | one turn fills a bid within its limits or skips it for less than an atom |
| BuyBurnSafety.RoundKeeps | twap/src/surplus.rs:1146-1196 | the budget spent equals the growth of the fills, and no other bid changes |
| BuyBurnSafety.RoundExhausts | twap/src/surplus.rs:1146-1196 | budget is left over only when no ranked bid could sell another atom for it |
| BuyBurnSafety.ExecuteBestFirst | twap/src/surplus.rs:1146-1187 | a bid is filled only if every better-ranked bid is filled completely |
| BuyBurnSafety.ExecuteKeeps | twap/src/surplus.rs:1099-1134 | an execution moves at most to the release and to the least target above, keeps the insurance at or above its floor, and conserves insurance plus pulled |
| BuyBurnLaws.BudgetIsLargest | twap/src/surplus.rs:1085-1143 | the budget of an execution is the largest amount within the release, every next target and the surplus |
| BuyBurnLaws.ExecuteSpendsItsBudget | twap/src/surplus.rs:1099-1196 | an execution pulls that whole budget, or leaves no bid of the book that would sell an atom for the rest, and never fills a slot without a bidder |
| BuyBurnLaws.OpenBidsAreRanked | twap/src/surplus.rs:1320-1336 | an escrowed bid is ranked exactly while it is open, with all that is left of it: its product never excludes it |
| BuyBurnLaws.NewInsuranceRetainsAll | twap/src/surplus.rs:360-373 | a new insurance account retains all it starts with |
| BuyBurnLaws.ProfitExactly | twap/src/surplus.rs:398-423 | when a profit is recorded, and that the floor grows by just the retained part of the excess over the deficit |
| BuyBurnLaws.NewScheduleExactly | twap/src/surplus.rs:981-1010 | schedules of 1 to 150 nonempty intervals within u64, budgeted at the surplus |
| BuyBurnSafety.ExecuteSucceedsExactly | twap/src/surplus.rs:1099-1196 | an execution fails exactly when a product of the schedule overflows, or there is something to spend and the book has more than 64 bids or the burned COIN overflows; no bid arithmetic, ranking or pull can stop it |
| BuyBurnSafety.NextTargetExactly | twap/src/surplus.rs:1030-1057 | the target search fails exactly when the product of the next target overflows |
| BuyBurnSafety.RoundExactly | twap/src/surplus.rs:1146-1187 | a round burns exactly the unbounded sum of its bids' shares, and fails exactly when that sum overflows |
| BuyBurnSafety.BuyBurnIsSafe | twap/src/surplus.rs:1060-1196 | over every run, with bids placed, replaced and removed at any time, pulled is at most what the latest execution slot released and equals the fills of present and departed bids, burned likewise, insurance accounts for every profit, loss and pull, and each bid stays within amounts and price |
| BuyBurnProgram.Market0Insurance.Profit | twap/src/surplus.rs:398-423 | the in-place profit equals the specification |
| BuyBurnProgram.Market0Insurance.Loss | twap/src/surplus.rs:434-443 | the in-place loss equals the specification |
| BuyBurnProgram.Market0Insurance.Pull | twap/src/surplus.rs:445-455 | the in-place pull equals the specification |
| BuyBurnProgram.NextIntervalTarget | twap/src/surplus.rs:1030-1057 | the interval loop equals the recursive search |
| BuyBurnProgram.BuyBurnState.PlanFills | twap/src/surplus.rs:1136-1196 | collecting updates over the ranking and applying them equals filling the bids one after the other |
| BuyBurnProgram.BuyBurnState.RunExecution | twap/src/surplus.rs:1099-1134 | insurance, progress and book after an execution are the specified ones, nothing changes on failure, and the auction's invariant is kept |

## Left out

- ShareFairness.ExitKeepsOtherClaims: for a WITH_SURPLUS pool it assumes that the market's asset-0 insurance is a u64, as token amounts are; beyond that the program prices a capped reading.
- Stored generations: the pool and positions hold the (reset, scale) pair; the packed word appears only in the codec lemma.
- Account plumbing: addresses derived from seeds, signer, owner and writable checks, rent, and token-account validation are preconditions; a token movement is an atomic balance change.
- Percolator itself: only asset 0's domains, reservations, capacities and vault, with arbitrary changes between instructions.
- The pool's operator and authority hand-offs, backing returns and assertions (`subledger/src/lib.rs:2889-3190`).
- The custody of ordinary token pools (`subledger/src/lib.rs:1515-1812`) and the full exit's comparison with a client snapshot (`subledger/src/lib.rs:2302-2343`).
- Historical layouts: pre-share pools and their `payout` path, legacy vote configs and their retract, predecessor stakes and their claim-only addresses.
- Proposal tallies are keyed by the distribution proposal they stand for; the tally account's own address is not modelled.
- The terminal return runs the ballot removal before the custody checks, so when both would fail the reported error may differ.
- Portfolio archives, market retirement and allow-lists: the counters, or their absence, are the witness given to crystallize and claim.
- The unused `sealed` byte and reserved funding fields of the reward config.
- Which slot a placement reuses or evicts, who may withdraw, escrow addresses and refund accounts: a run may place, replace or remove any bid at any time.
- The buy-burn policy match between schedule and insurance, and authority rotation.
- `market-controller`, `setup`, `sim`, `twap-program` and Percolator instruction encoding: single-branch checks and wire formats.
