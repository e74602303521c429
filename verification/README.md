# Money core of an opinion market, in Dafny

The repository is a real-money opinion market: users vote and trade YES/NO
shares against an automated market maker, and the market settles at the share
of YES votes. This project models the parts whose correctness moves money, and
the concurrent protocols around them, and proves what they keep over whole
runs. `dafny verify dfyconfig.toml` checks all of it.

| modules | what they model |
|---|---|
| `Money`, `Isqrt`, `Amm`, `AmmSell`, `AmmLaws` | fee split, integer square root, buy and sell quotes of the constant-product pool, and laws over several quotes |
| `Ledger` | the double-entry ledger as a class over a mutable account map |
| `Resolution` | settlement of all holdings against escrow, and its ledger legs |
| `Trading`, `MarketWorld`, `MarketResolve`, `MarketRuns`, `MarketPayable`, `MarketGates`, `MarketBallots`, `MarketZeroNet`, `MarketStore` | one market over the shared ledger: seeding, trades, votes, advances, resolution; whole runs of them; which commands are taken; from the ballots cast to the money paid; the same commands on stored rows changed in place |
| `Lifecycle`, `Cascade` | the state table, keyed advances, and the clock-driven cascade under interference |
| `Refund`, `Quorum`, `RefundRuns`, `RefundSent`, `RefundStore` | sending a refund: signed attempts, leases, resends, the non-landing quorum, replacement, crashes between any two effects |
| `Deposits`, `DepositDecisions`, `DepositStore` | the deposit machine: suspense, compare-and-swap on stale reads, two-person decisions |
| `Switches`, `Locks`, `LockSession`, `Pauses` | the table of locks and fences under any mix of money commands and configuration writes, the resolution's lock-and-recheck loop run against it, and what pauses promise about trades and votes in flight |
| `Moderation`, `ModerationJobs`, `ModerationStore` | moderation jobs read from an event log whose rows commit out of order; leases and fencing tokens |
| `Reputation` | fixed-point moving average of scores, and tiers |
| `Relay`, `RelayDelivery`, `RelayStore` | the at-least-once outbox relay over the same kind of log, rows written under their source's lock, and the bounded dedupe set of a client of one market |
| `Sums` | sums over maps, independent of order |

Conventions: `I64` is the source's 64-bit integer and every overflow it can
report is written out. A store transaction is one atomic step that commits or
changes nothing. Clocks, verdicts of compliance gates, chain answers and
configuration are parameters. Each `...Store` class changes its fields in
place; its methods are proved equal to a function of the old state (`...Next`),
and the run theorems are about those functions.

## Where the code and its own description differ

- `crates/domain/src/ledger.rs:248-251` says the internal total always mirrors
  the External account. It fails exactly when External stands at the smallest
  64-bit value (`InternalTotalMirrorsExternal`, reached in
  `SaturationIsReachable`).
- `crates/domain/src/amm.rs:209` says a sell is refused as draining when its
  burn would empty the other reserve. The greatest burn never empties it; the
  guard looks at the floored root and fires exactly when
  `2*sell*other <= sell + s - other` (`DrainGuard`); the sells it refuses would
  have left exactly one unit (`DrainRefusalLeavesOne`, `DrainRefusalHappens`).
- A sell whose fee takes the whole burn is quoted, and then refused by the
  ledger for its zero user leg: exactly when the pool cannot give up
  `ceil(10000 / (10000 - fee))` sets (`SellIsPlacedIff`), as in the run from
  seeding of `ZeroNetSellIsRefused`.
- `crates/application/src/resolve_market.rs:12-14` says an all-zero settlement
  writes no ledger transaction. Line 328 always applies one, which would be
  refused for too few entries (`LegsAreBalanced`); from a seeded market the case
  cannot arise (`SettlementNeverRejected`).
- `crates/application/src/credit_deposit.rs:1101-1106` lets an unknown attempt
  become broadcast, but the store has no such edge
  (`crates/adapters/src/pg/outbound_tx.rs:349-368`), so that mark is always
  refused (`MarkKeeps`).
- The rail keeps the first bytes of a payment for the life of the process
  (`crates/adapters/src/rails/solana.rs:159-177`), so a process that sent an
  attempt cannot replace it (`ReplacesIff`, `ReplacementNeedsFreshRail`, and the
  run of `SenderCannotReplace`).
- `crates/application/src/credit_deposit.rs:777-778` says an attempt becomes
  broadcast only after its rail call succeeded. The mark goes to whichever
  attempt is live (`crates/application/src/credit_deposit.rs:1092-1109`), so a
  process that is slow to mark can hit a replacement nobody has sent. In every
  truthful run the mark is true while the marking process's rail holds the newest
  attempt's bytes (`OwnMarkIsTrue`, `BroadcastWasSent`); otherwise there is, for
  any two such attempts, a truthful run in which it is not, and the refund is then
  lost for good (`LateMarkLosesRefund`, `LostForever`).
- `crates/application/src/moderation_escalate.rs:4-7` has the cursor turn every
  comment event into a job. Event numbers are taken at insert
  (`migrations/0001_init.sql:329-330`) and the cursor reads by number
  (`crates/adapters/src/pg/video_tx.rs:486-500`), so a comment that commits
  after a higher number has been read is passed over for good
  (`LateCommitIsSkipped`, `SkippedForever`); in every run it has its job exactly
  when the cursor had not yet passed its number (`JobIffCommittedInTime`).
- `crates/application/src/place_trade.rs:203-204` and
  `docs-site/walkthroughs/trade.md:161` say the book never trades against a
  frozen tape. A trade reads the voting switch, but takes only the two trading
  fences (`crates/application/src/place_trade.rs:189-193`), and a voting pause is
  written under the voting fence alone
  (`crates/application/src/ops/config.rs:1332-1352`). So a pause can be committed
  between the read and the trade's commit (`PauseOvertakesTrade`, and the run
  from the start of `TradesAgainstFrozenTape`). In every run a trade is committed
  under a voting pause exactly when the changes made since its reads leave one in
  force (`TradeUnderVotingPauseIff`); the two trading pauses, and the voting pause
  towards votes, do hold (`NoTradeUnderTradingPause`, `NoVoteUnderVotingPause`).

Reputation moves in whole micro-units, so it stands still within 7, 14 or 29 of
them of a steady score (`MovesIff`, `EndsAreOutOfReach`); the source promises no
more than that the coefficient is below the unit.

## Model

| member | source | states |
|---|---|---|
| Money.ApplyFee | crates/domain/src/money.rs:48-62 | Net and fee reassemble the gross, neither is negative, and each rejection happens exactly for a negative gross or a rate above 100 % |
| Money.FeeIsLeastCover | crates/domain/src/money.rs:48-62 | The fee is the least whole amount that covers the rate: any other amount covers it if and only if it is at least the fee |
| Money.FeeIsSubadditive | crates/domain/src/money.rs:48-62 | Paying in two parts at one rate never costs less in fees than paying at once |
| Isqrt.IsqrtU128 | crates/domain/src/amm.rs:86-101 | For every `u128` the Newton loop stops and returns the floor of the square root |
| Isqrt.SeedIsAboveRoot | crates/domain/src/amm.rs:92-93 | The power-of-two starting point lies at or above the root |
| Isqrt.NewtonStepStaysAbove | crates/domain/src/amm.rs:94-100 | No Newton step from above the root falls below its floor |
| Isqrt.StopsAtFloor | crates/domain/src/amm.rs:94-100 | Where the iteration stops decreasing, it stands on the floor |
| Amm.NewPool | crates/domain/src/amm.rs:109-117 | A pool is accepted exactly inside the reserve and fee limits |
| Amm.BuyIsExact | crates/domain/src/amm.rs:144-195 | Accepts exactly under the caps with something left after the fee, never overflows, mints the net on both sides, keeps the pool valid, never lowers the product, gives the most shares that keep it, and floors the average price |
| AmmSell.GreatestBurnIsGreatest | crates/domain/src/amm.rs:251-266 | The burn keeps the product and every larger one within the other reserve breaks it |
| AmmSell.DrainGuard | crates/domain/src/amm.rs:244-254 | The drain guard fires if and only if `2*sell*other <= sell + s - other` |
| AmmSell.DrainRefusalLeavesOne | crates/domain/src/amm.rs:244-254 | Every sell refused as draining could have burned down to exactly one unit of the other reserve |
| AmmSell.DrainRefusalHappens | crates/domain/src/amm.rs:244-254 | Such a refused sell exists: five shares against reserves 1 and 2, whose greatest burn is 1 |
| AmmSell.GuardAround | crates/domain/src/amm.rs:244-266 | Below the floored root every burn keeps the product, above it none does, so one repair step is enough |
| AmmSell.RepairBurn | crates/domain/src/amm.rs:255-266 | The guard loop steps down at most once and ends on the greatest burn |
| AmmSell.FindBurn | crates/domain/src/amm.rs:226-266 | The floored root, the drain guard and the repair find the greatest burn, or report draining exactly when `2*sell*other <= sell + s - other` |
| AmmSell.SellIsExact | crates/domain/src/amm.rs:211-288 | A sell is quoted exactly under conditions on its inputs, each refusal has its error, seller and fee share the greatest burn that keeps the product, and the fee is that burn's rate rounded up |
| AmmSell.QuoteSell | crates/domain/src/amm.rs:211-288 | The quote with root, guard loop, caps and fee equals the root-free specification for every input, is never an overflow error, and is exactly the sell of `SellIsExact` |
| AmmLaws.SellIsSound | crates/domain/src/amm.rs:251-288 | A sell burns at most the shares sold and less than the other reserve, keeps the pool valid and never lowers the product |
| AmmLaws.SplitBuyNeverGainsShares | crates/domain/src/amm.rs:144-195 | Two consecutive buys never yield more shares than one buy of their sum at the same rate |
| AmmLaws.RoundTripNeverProfits | crates/domain/src/amm.rs:530-540 | Selling at once everything just bought returns no more than the net paid in, at any two fees |
| AmmLaws.ShiftWithoutLoss | crates/domain/src/amm.rs:162-172 | If moving both reserves by one amount does not lower the product, the amount is not negative |
| Ledger.CheckTransaction | crates/domain/src/ledger.rs:97-109 | Accepts exactly two or more nonzero legs that sum to zero, and names the first of these that fails |
| Ledger.Balances.OpenAccount | crates/domain/src/ledger.rs:146-173 | Opening is a no-op for an open id, refuses a second External or money singleton per currency, and otherwise adds an empty account |
| Ledger.Balances.ApplyTransaction | crates/domain/src/ledger.rs:191-240 | Takes a transaction exactly when it is acceptable and then posts all of it, whatever order accounts are visited in; a refusal names a true reason and changes nothing |
| Ledger.Balances.Aggregate | crates/domain/src/ledger.rs:192-198 | One delta per account, however often a transaction names it |
| Ledger.Balances.CheckCurrencies | crates/domain/src/ledger.rs:200-216 | Passes exactly when every account is open and every currency balances |
| Ledger.Balances.ComputePosts | crates/domain/src/ledger.rs:218-232 | Passes exactly when no post-balance overflows or overdraws, before anything is written |
| Ledger.OrderIsIrrelevant | crates/domain/src/ledger.rs:191-240 | Acceptance and the resulting balances do not depend on the order of the legs |
| Ledger.EveryRunIsSound | crates/domain/src/ledger.rs:146-240 | In every state reached by opening and applying, each currency sums to zero, no internal account is negative, and each currency has at most one External account |
| Ledger.OpeningIsRefusedIff | crates/domain/src/ledger.rs:146-173 | An opening is refused exactly for a new id of a second External, withholding, suspense or bonus reserve account in the currency |
| Ledger.EveryRunHasOneOfAKind | crates/domain/src/ledger.rs:146-173 | In every state reached by opening and applying, each currency has at most one account of each of these kinds |
| Ledger.InternalTotalMirrorsExternal | crates/domain/src/ledger.rs:253-261 | The reported internal total equals minus the External balance if and only if that balance is not the smallest 64-bit value |
| Ledger.SaturationIsReachable | crates/domain/src/ledger.rs:253-261 | Five calls reach a ledger where the reported total saturates and the mirror fails |
| Ledger.Balances.ReportInternalTotal | crates/domain/src/ledger.rs:253-261 | The fold returns the saturated sum of the internal accounts |
| Ledger.InternalBalanceFits | crates/domain/src/ledger.rs:218-232 | Moving money between internal accounts cannot overflow a balance while the currency total fits |
| Ledger.FirstUseOpens | crates/adapters/src/pg/trade_tx.rs:189-250 | In a ledger whose accounts are filed under their owners, opening on first use is never refused and keeps it so |
| Ledger.Balances.FindAccount | crates/adapters/src/pg/trade_tx.rs:189-250 | The account is there afterwards, empty if it is new, and no other account changes |
| Resolution.SettleMarket | crates/domain/src/resolution.rs:80-155 | Equals the loop-free specification, errors included; payouts and dust recombine to escrow and dust is below the number of holdings |
| Resolution.SettleIsExact | crates/domain/src/resolution.rs:80-155 | Exactly the complete, non-empty books settle; each holding gets the floored share of its side's rate in basis points; the others have the stated errors |
| Resolution.DustIsBounded | crates/domain/src/resolution.rs:121-152 | For every complete book and rate, payouts never exceed escrow and the floors lose less than one unit per holding |
| Resolution.SettlementEntries | crates/application/src/resolve_market.rs:110-142 | The running total cannot overflow and the legs are the nonzero payouts, the dust and minus their total |
| Resolution.LegsAreBalanced | crates/application/src/resolve_market.rs:110-142 | The legs form a valid transaction if and only if the total is positive, the all-zero case is rejected for too few entries, and each account receives exactly its payouts |
| Trading.QuoteLegs | crates/application/src/place_trade.rs:367-452 | The checked, step-by-step computation equals the specification, and the average price of a sell never overflows |
| Trading.Relieve | crates/application/src/place_trade.rs:419-441 | A sell relieves its floored share of the cost, bracketed in `CostRelieved`, and books the rest as profit, unless the profit leaves the 64-bit range |
| Trading.LegsAreSound | crates/application/src/place_trade.rs:381-450 | Pool, money and position are each conserved: both reserves and the shares move by the escrow leg, the three money legs cancel, realized less cost moves by the cash |
| Trading.LegsAreExact | crates/application/src/place_trade.rs:367-452 | Exactly which orders have legs and why others do not; a buy's whole amount becomes cost; a sell relieves the floored share of the cost, stated by the position before and after, and realizes the rest |
| Trading.CostRelieved | crates/application/src/place_trade.rs:419-425 | The cost relieved is the floored share of the sold part, never more than the cost, and all of it when everything is sold |
| MarketRuns.SeedIsSolvent | crates/application/src/seed_market.rs:106-132 | Whatever ledger it starts in, a seeded market satisfies the whole invariant with escrow equal to the seed |
| MarketWorld.TradeKeepsInv | crates/application/src/place_trade.rs:77-325 | Every trade command, however it ends, keeps solvency, the cash identity and the realization facts |
| MarketResolve.ResolveKeepsInv | crates/application/src/resolve_market.rs:183-545 | Every resolve command, however it ends, keeps the invariant |
| MarketResolve.RulingIsSound | crates/application/src/resolve_market.rs:185-312 | Only an unpaid market is held or settled, from Closed or Resolving, at the floored tally of at least one vote, or at half when void |
| MarketResolve.RulingIsExact | crates/application/src/resolve_market.rs:192-312 | An unpaid market is held, settled at the tally, voided or refused exactly under stated conditions on state, flag, sweep, curator, votes, open interest and escrow, each refusal with its reason |
| MarketResolve.OpenInterestIsAtStake | crates/application/src/resolve_market.rs:297-311 | Open interest is what escrow and fees hold beyond the seed plus the profits already realized |
| MarketRuns.SolventForever | crates/application/src/seed_market.rs:106-132 | From seeding through any run, escrow equals pool plus users on YES and on NO until it is paid out, and then it is zero |
| MarketRuns.NoClosedLoopProfit | crates/domain/src/amm.rs:530-540 | Any run that returns the users' YES and NO totals to where they were leaves escrow no smaller, and the users together no richer than before less the run's fees |
| MarketRuns.CashFlowIdentity | crates/application/src/place_trade.rs:381-450 | After any run, settlement included, cash taken from a position equals realized profit less cost, the facts sum to that profit, and nothing held costs nothing |
| MarketRuns.PaysOnceAndReplaysTheSame | crates/application/src/resolve_market.rs:185-191 | After a payout, whatever runs, a later resolution changes nothing and returns the same outcome and rate as a replay |
| MarketRuns.TallyIsFrozenAfterClosing | crates/application/src/cast_vote.rs:75-85 | Once a market is closed no run changes its tally |
| MarketRuns.TradeReplays | crates/application/src/place_trade.rs:78-102 | A placed trade sent again after any run returns its receipt and changes nothing; its key with another command, configuration version included, is a conflict |
| MarketRuns.VoteReplays | crates/application/src/cast_vote.rs:44-63 | A cast vote sent again after any run is a replay and changes nothing; its key with another ballot is a conflict |
| MarketResolve.HoldingsAreComplete | crates/application/src/resolve_market.rs:317-321 | However the holdings are listed, each side sums to the pool reserve plus all users |
| MarketResolve.SettlementNeverRejected | crates/application/src/resolve_market.rs:314-328 | In every solvent market settlement succeeds at any rate; its legs are valid, drain escrow to exactly zero, and leave dust below the number of holdings |
| MarketResolve.PayoutIsTaken | crates/application/src/resolve_market.rs:325-328 | In a sound ledger the payout transaction of a solvent market is always accepted |
| MarketWorld.TallyIsAProportion | crates/application/src/model.rs:691-698 | The floored tally lies between 0 and 10 000 basis points |
| MarketWorld.TallyIsTheYesShare | crates/application/src/model.rs:691-698 | The tally is the floored share, in basis points, of those who voted YES among all who voted |
| MarketBallots.PaidByTheBallots | crates/application/src/resolve_market.rs:230-405 | From seeding through any run: a resolution that is not void pays every listed position the floored share of its side among the ballots cast, a void one half, closes it, and credits each user's account with the sum |
| MarketBallots.RunCounts | crates/application/src/cast_vote.rs:120-149 | In every run the votes counted are exactly the ballots cast, one per user |
| MarketGates.VoteIsExact | crates/application/src/cast_vote.rs:40-149 | A ballot is cast exactly when fresh, in an open market, before the cutoff, by an eligible user who has not voted; it adds that one vote, and a refusal names the first thing wrong |
| MarketGates.TradeGatesAreExact | crates/application/src/place_trade.rs:77-243 | A fresh trade is quoted exactly in a live market with the tally in sight for an admitted voter, and otherwise refused for the first gate it fails |
| MarketGates.PlacedIsExact | crates/application/src/place_trade.rs:244-325 | A placed trade writes exactly the legs of its order: pool, one position, receipt, realization, cash and fees, and leaves every other position alone |
| MarketGates.SeedIsExact | crates/application/src/seed_market.rs:60-132 | In a funded ledger a new market is seeded exactly with a positive seed within the pool limits that the house can pay, a legal fee and an open breaker |
| MarketPayable.QuotedIsPlaced | crates/application/src/place_trade.rs:244-270 | An admitted, quoted and affordable trade is placed unless its user leg is zero, and then it is refused for that alone |
| MarketPayable.SellIsPlacedIff | crates/application/src/place_trade.rs:244-270 | An admitted sell that the pool quotes never lacks escrow: it is placed if and only if the pool can give up ceil(10000 / (10000 - fee)) sets without its product falling, and otherwise its zero leg is refused |
| MarketPayable.NetIsPositiveIff | crates/domain/src/money.rs:48-62 | A burn leaves a whole unit after the fee if and only if it is at least ceil(10000 / (10000 - fee)); at 100 % none does |
| MarketZeroNet.ZeroNetSell | crates/domain/src/amm.rs:268-288 | Three shares into any even pool at any positive fee are quoted and pay nothing |
| MarketZeroNet.ZeroNetSellIsRefused | crates/application/src/place_trade.rs:244-270 | From seeding in any funded ledger, a vote and two buys lead to a market where that sell is quoted and yet refused for its zero entry, at every positive fee |
| MarketPayable.PaidUnlessProfitOverflows | crates/application/src/resolve_market.rs:314-404 | A solvent market in a funded ledger can be paid if and only if no holder's realized profit leaves the 64-bit range |
| MarketPayable.ReceiptIsTrue | crates/application/src/place_trade.rs:244-325 | A placed trade moves exactly the money and shares its receipt names, on the ledger, the position and the recorded cash |
| MarketPayable.PayoutsReachTheirUsers | crates/application/src/resolve_market.rs:363-404 | Settlement pays each user's account exactly what it books to that user's positions |
| MarketPayable.RunKeepsLedgerSound | crates/domain/src/ledger.rs:191-240 | Every run of a market keeps the shared ledger balanced and its internal accounts covered |
| MarketStore.Exchange.SeedMarket | crates/application/src/seed_market.rs:56-153 | A recorded key replays its market and changes nothing; otherwise the in-place seeding equals the specification, and a failure leaves the ledger as it was |
| MarketStore.Store.PlaceTrade | crates/application/src/place_trade.rs:77-336 | The in-place command changes the stored rows exactly as specified: replay by key, every refusal, accounts opened on first use and taken back on a refusal |
| MarketStore.Store.CastVote | crates/application/src/cast_vote.rs:40-149 | Replay by key; otherwise a vote is stored exactly while Live or Closing, before the cutoff, for an eligible user, once per user |
| MarketStore.Store.Advance | crates/application/src/advance_market.rs:54-125 | A recorded key replays its edge and moves nothing; otherwise a non-financial event moves the market along the table as a step of its run |
| MarketStore.Store.Resolve | crates/application/src/resolve_market.rs:183-545 | The in-place resolution equals the specification: replay, gates, hold, decision, payout |
| MarketStore.Store.PayOut | crates/application/src/resolve_market.rs:314-405 | Pays everything and closes every listed position, or rolls all of it back |
| MarketStore.Store.ClosePositions | crates/application/src/resolve_market.rs:363-404 | Closes the listed positions at their payouts with one fact each, and stops exactly when a profit overflows |
| Lifecycle.EdgesClimb | crates/domain/src/market.rs:44-99 | Every legal edge raises the rank, each non-financial event has exactly one source state, and exactly Paid and Voided have no way out |
| Lifecycle.TableIsExact | crates/domain/src/market.rs:44-99 | A non-financial event moves up exactly one rank from its source state; resolving, paying and voiding are legal exactly where stated and end where stated |
| Cascade.AdvanceKeeps | crates/application/src/advance_market.rs:54-125 | A recorded key always means its source state has been left for good, and every receipt, replayed or not, names a legal edge |
| Cascade.AdvanceIsExact | crates/application/src/advance_market.rs:54-125 | An advance moves exactly for a fresh key in the event's source state, by one rank, recording the key; a used key only reports what it did |
| Cascade.DueIsExact | crates/application/src/advance_due.rs:110-120 | An event is due exactly from its state's boundary on, and leads one rank up |
| Cascade.OthersKeep | crates/application/src/advance_due.rs:262-300 | No run of other advances, flags, holds, payouts and voids lowers the rank or breaks that |
| Cascade.KeyAheadMakesNoProgress | crates/application/src/advance_market.rs:70-80 | A turn makes no progress if and only if its key is already recorded while the market is still in the source state |
| Cascade.Runner.Execute | crates/application/src/advance_market.rs:54-125 | The in-place keyed transition equals its specification |
| Cascade.Runner.Cascade | crates/application/src/advance_due.rs:106-148 | The loop ends under any interference; every turn that does not end it raises the state read next, at most three times, and the ending agrees with the state last read; undisturbed it brings the market exactly to the state the clock demands |
| Refund.BeginKeeps | crates/application/src/credit_deposit.rs:783-936 | From coherent rows a send never meets a corrupt row, only moves the newest attempt or adds the first |
| Refund.ResumeIsExact | crates/application/src/credit_deposit.rs:822-889 | A call on a refund being sent: a prepared attempt past its lease becomes broadcast exactly when seen, is sent again exactly when missing and in time, and otherwise becomes unknown; an unknown one is only sent again in time; the rest changes nothing |
| Refund.StartIsExact | crates/application/src/credit_deposit.rs:891-935 | A first attempt is committed exactly when its signature is unused, valid and accepted by the rail and the commit succeeds; the rail keeps the bytes even if it does not |
| Refund.ReplaceKeeps | crates/application/src/credit_deposit.rs:947-1055 | A replacement changes the rows only on a definitive verdict, retiring the unknown attempt and adding its successor together |
| Refund.ReplacesIff | crates/application/src/credit_deposit.rs:947-1055 | A replacement is committed if and only if the payment is sending, its fingerprint is the process's own, the newest attempt is unknown and expired, the verdict is definitive, the new signature is unused by this and every other payment, and the rail holds nothing or the same bytes; the old attempt then stands as failed and the new one carries the offered bytes |
| Refund.MarkKeeps | crates/application/src/credit_deposit.rs:1080-1111 | Marking changes the rows if and only if the live attempt is prepared: the store refuses the edge from unknown that the caller allows |
| Refund.SettleKeeps | crates/application/src/credit_deposit.rs:1119-1238 | A settlement keeps the rows coherent and only moves the newest attempt |
| Refund.SettlesIff | crates/application/src/credit_deposit.rs:1119-1238 | A receipt ends the refund if and only if the refund is sending on the same rail and the receipt equals the payment by the newest attempt in signature, coin, accounts, amount and finality; afterwards the same receipt is a repetition |
| Refund.LiveIsNewest | crates/application/src/credit_deposit.rs:818-826 | While sending, the newest attempt is the live one and carries the highest number |
| Refund.SaveIsExact | crates/adapters/src/pg/outbound_tx.rs:175-240 | A save succeeds exactly along a listed way with no second live and no second finalized attempt, and moves only that attempt |
| Refund.InsertIsExact | crates/adapters/src/pg/outbound_tx.rs:100-172 | An attempt is stored exactly if prepared, valid, unused, and numbered as the successor of the failed attempt it replaces |
| Refund.OneFinalizedCounts | crates/application/src/credit_deposit.rs:808-819 | The test for a completed refund holds exactly when one attempt is finalized |
| Refund.PersistSigned | crates/adapters/src/rails/solana.rs:159-177 | The rail accepts bytes exactly when it holds none or the same |
| Quorum.NonLandingVerdict | crates/application/src/money/types.rs:674-697 | Definitive if and only if every answer is usable and at least two are failing votes |
| Quorum.RefundVerdict | crates/application/src/credit_deposit.rs:1057-1078 | Definitive if and only if exactly the three pinned endpoints answered, none saw the signature, and two fail |
| Quorum.DefinitiveIff | crates/application/src/credit_deposit.rs:1057-1078 | Definitive means three complete negative answers from the three pinned endpoints, two of them past the last valid height |
| Quorum.VerdictIsSound | crates/application/src/money/types.rs:674-697 | With at most one lying endpoint, a definitive verdict means the transfer has not landed and no longer can |
| RefundRuns.EveryRunKeepsInv | crates/application/src/credit_deposit.rs:783-1238 | Every interleaving of calls, crashes, resends and chain progress keeps the protocol invariant |
| RefundRuns.AtMostOneLands | crates/application/src/credit_deposit.rs:783-1238 | In every run at most one signed transfer ever lands, it is the newest attempt, and all others have definitively failed |
| RefundRuns.RefundedMeansPaidOnce | crates/application/src/credit_deposit.rs:1119-1238 | A refund recorded as done has exactly one finalized attempt, and exactly that transfer landed |
| RefundRuns.OneLiveAttempt | crates/application/src/credit_deposit.rs:783-1238 | At any time at most one attempt is live, and only the newest, while sending |
| RefundRuns.ReplacementNeedsFreshRail | crates/adapters/src/rails/solana.rs:159-177 | A process whose rail still holds an earlier attempt's bytes can never commit a replacement |
| RefundRuns.SenderCannotReplace | crates/adapters/src/rails/solana.rs:159-177 | Such a case is reached: an attempt is sent and expires, every endpoint reports it absent, and its own sender changes nothing where a restarted process would replace it |
| RefundSent.OwnMarkIsTrue | crates/application/src/credit_deposit.rs:1080-1111 | In every truthful run, a process about to mark whose rail holds the newest attempt's bytes has sent that attempt |
| RefundSent.BroadcastWasSent | crates/application/src/credit_deposit.rs:777-936 | In every truthful run in which processes mark only their own, every attempt that stands as broadcast was sent |
| RefundSent.LateMarkLosesRefund | crates/application/src/credit_deposit.rs:1080-1111 | A truthful run from the start in which a late mark makes an unsent replacement stand as broadcast; no later run changes the refund |
| RefundSent.LostForever | crates/application/src/credit_deposit.rs:826-830 | A refund whose newest attempt stands as broadcast, was not sent and is in nobody's hands never changes again |
| RefundStore.Store.BeginSend | crates/application/src/credit_deposit.rs:783-936 | The in-place call equals its specification, rows, rail, follow-up and answer |
| RefundStore.Store.ReplaceExpired | crates/application/src/credit_deposit.rs:947-1055 | The in-place call equals its specification, including what a lost commit leaves behind |
| RefundStore.Store.MarkBroadcast | crates/application/src/credit_deposit.rs:1080-1111 | The in-place call equals its specification |
| RefundStore.Store.SettleRefund | crates/application/src/credit_deposit.rs:1119-1238 | The in-place call equals its specification |
| RefundStore.Store.Save | crates/adapters/src/pg/outbound_tx.rs:175-240 | Moves an attempt along a legal edge unless another is live or finalized, and otherwise changes nothing |
| RefundStore.Store.NextAttemptNumber | crates/application/src/money/outbound.rs:72-79 | One above the highest attempt number, or one |
| RefundStore.Rail.Persist | crates/adapters/src/rails/solana.rs:159-177 | First bytes win; others are refused |
| Deposits.EveryRunKeepsInv | crates/application/src/credit_deposit.rs:147-385 | Every run of observations, admissions, holds, decisions and refunds, on reads however stale, keeps the machine's invariant |
| Deposits.SuspenseIsWhatWaits | crates/application/src/credit_deposit.rs:147-385 | In every run the suspense balance equals the amounts of deposits neither admitted nor refunded |
| Deposits.ReleasedExactlyOnce | crates/application/src/credit_deposit.rs:316-345 | In every run each deposit leaves suspense at most once, for its exact amount, to its user or back out according to its state |
| Deposits.ReleaseIsFinal | crates/adapters/src/pg/credit_tx.rs:759-815 | No later step, however stale, undoes or repeats an admission or a refund |
| Deposits.StepIsLegal | crates/application/src/credit_deposit.rs:53-78 | Every step moves a deposit along the table, at most through a pending admission, and never changes its amount, user or origin |
| Deposits.ObservationReplays | crates/application/src/credit_deposit.rs:156-169 | A stored observation answers every repeat after any run: the same binding is known, another is a conflict, and neither changes anything |
| Deposits.SuspenseCovers | crates/application/src/credit_deposit.rs:316-338 | Suspense always covers a waiting deposit: a release is accepted if and only if the receiving account, opened if need be, can take it |
| Deposits.RefundsAreDualControlled | crates/application/src/credit_deposit.rs:719-757 | Every deposit in a refund state was decided by two different people |
| DepositDecisions.AdmitIsExact | crates/application/src/credit_deposit.rs:225-360 | A row the call may take up is admitted exactly on a clear verdict for a known, payable user, held exactly without a user or on a hold, and otherwise left alone; a row that moved meanwhile is left alone |
| DepositDecisions.AdmittedOnSomeonesWord | crates/application/src/credit_deposit.rs:225-360 | In every run an admitted deposit was admitted by a step with a clear verdict, or two different people decided to admit it |
| DepositDecisions.ConfirmAdmitIsExact | crates/application/src/credit_deposit.rs:481-600 | A held deposit of a payable user is admitted exactly by a pending proposal confirmed in time by someone else |
| DepositDecisions.ConfirmRefundIsExact | crates/application/src/credit_deposit.rs:608-710 | A held deposit is approved for refund exactly by such a proposal, and of a known user only when clear |
| DepositDecisions.ProposeIsExact | crates/application/src/credit_deposit.rs:408-470 | A proposal is taken exactly under a fresh number, about a stored deposit seen on hold |
| DepositDecisions.SendIsExact | crates/application/src/credit_deposit.rs:908-920 | An approved refund is taken up exactly by a caller who saw it approved, while it still is |
| DepositDecisions.SettleIsExact | crates/application/src/credit_deposit.rs:1119-1238 | A refund being sent leaves suspense exactly once, if the ledger takes it |
| DepositDecisions.ObserveIsExact | crates/application/src/credit_deposit.rs:147-215 | A valid new signature is stored exactly when both accounts have room, and moves its amount from External into suspense |
| DepositStore.Store.ObserveFinalized | crates/application/src/credit_deposit.rs:147-217 | The in-place observation equals its specification: stored, known, in conflict with its binding, or invalid |
| DepositStore.Store.AdmitObserved | crates/application/src/credit_deposit.rs:225-385 | The in-place admission equals its specification, with every refusal rolled back |
| DepositStore.Store.ConfirmManualAdmission | crates/application/src/credit_deposit.rs:481-600 | The in-place confirmation equals its specification |
| DepositStore.Store.ConfirmDepositRefund | crates/application/src/credit_deposit.rs:608-710 | The in-place confirmation equals its specification |
| DepositStore.Store.ReleaseFunds | crates/adapters/src/pg/credit_tx.rs:785-815 | Ledger, mark and status move together or not at all |
| DepositStore.Store.ClaimRefund | crates/application/src/credit_deposit.rs:783-936 | Moves an approved refund to sending, and only that |
| DepositStore.Store.CompleteRefund | crates/application/src/credit_deposit.rs:1119-1238 | Releases a sending refund out of suspense exactly once |
| Locks.CommandsAscend | crates/application/src/ops/config.rs:1326-1352 | Every command, configuration writes included, asks for its locks and fences in one strictly ascending order |
| Locks.NeverDeadlocked | crates/adapters/src/pg/trade_tx.rs:27-63 | Whatever commands run, with shared fences and in whatever order waiters are served, no set of transactions waits only on itself |
| Locks.SomeoneCanMove | crates/adapters/src/pg/trade_tx.rs:27-63 | While anyone is at work, someone can be granted a lock or is not waiting for one |
| Locks.ResolutionHoldsEveryone | crates/application/src/resolve_market.rs:183-222 | In every run, from a passed recheck until it ends, a resolution holds its market and the lock of every voter, holder and referral party that takes part in the market at that moment |
| Locks.NoTwoWriters | crates/adapters/src/pg/trade_tx.rs:27-63 | In every run two transactions that may both write never write about the same key, user, market, pair or configuration |
| Locks.GrantIsExact | crates/adapters/src/pg/trade_tx.rs:27-63 | A transaction gets its next lock exactly when nobody holds it against it |
| Locks.StrangersDoNotBlock | crates/adapters/src/pg/ops_config_tx.rs:404-420 | Trades and votes with different keys, users and markets never keep each other from a lock, fences included |
| Locks.RecheckIsExact | crates/application/src/resolve_market.rs:200-222 | A recheck passes exactly if everyone who takes part by then was listed; otherwise the transaction is dropped |
| Locks.ListingIsExact | crates/application/src/resolve_market.rs:150-190 | A listing is taken exactly if it names everyone who takes part and no one else |
| Locks.WritersTakePart | crates/application/src/resolve_market.rs:150-172 | Voters, traders who voted and bound users take part from their commit on, and a resolution leaves no holder |
| Locks.SortDedup | crates/application/src/resolve_market.rs:155-172 | Sorted without repeats, with the same users |
| Pauses.NoTradeUnderTradingPause | crates/application/src/place_trade.rs:185-202 | In every run, when a trade may commit, trading is paused neither everywhere nor on its market |
| Pauses.NoVoteUnderVotingPause | crates/application/src/cast_vote.rs:105-120 | In every run, when a vote may commit before the tally is hidden, voting on its market is not paused |
| Pauses.TradeUnderVotingPauseIff | crates/application/src/place_trade.rs:203-213 | In every run, when a trade may commit, voting on its market is paused if and only if the changes made since its reads leave it paused |
| Pauses.PauseOvertakesTrade | crates/application/src/place_trade.rs:203-213 | Any trade that has read its switches can be overtaken by a voting pause on its market and is then committed against it |
| Pauses.TradesAgainstFrozenTape | crates/application/src/place_trade.rs:203-213 | A run from the start whose last step commits a trade while voting on its market is paused |
| Pauses.FenceHoldersAreAtWork | crates/application/src/ops/config.rs:1484-1487 | Whoever holds a fence waits at most for another fence or the generation row, so a pause never waits for a queue on row locks |
| Pauses.FencedIsUntouched | crates/application/src/ops/config.rs:1449-1451 | While a trade or vote holds its fences, no writer is able to commit a change of a switch they protect |
| Pauses.ExclusiveFences | crates/application/src/ops/config.rs:1332-1352 | The loop over a patch's keys returns the global fence first and then the sorted fences of exactly the markets it names |
| Switches.LaterChangesDecide | crates/application/src/ops/config.rs:1354-1358 | Of a history of changes the last one of a switch counts |
| LockSession.Server.LockParticipants | crates/application/src/resolve_market.rs:183-222 | The loop over the lock table, with any other commands in between: when it goes on to its writes, every current participant is locked by that transaction and the scored users are exactly the voters; giving up leaves no lock behind |
| LockSession.BinarySearch | crates/application/src/resolve_market.rs:203-208 | Finds a user if and only if the sorted list has it |
| LockSession.AllFound | crates/application/src/resolve_market.rs:203-208 | Passes exactly when everyone present now was listed before |
| Moderation.EveryRunIsBounded | crates/application/src/moderation_escalate.rs:95-251 | In every interleaving each comment has at most one job, and attempts stay within the maximum |
| Moderation.JobIffCommittedInTime | crates/application/src/moderation_escalate.rs:95-122 | In every run a committed comment behind the cursor has its job if and only if the cursor had not passed its number when it was committed |
| Moderation.LateCommitIsSkipped | crates/adapters/src/pg/video_tx.rs:486-500 | Five steps reach a committed comment that the cursor has passed and that has no job |
| Moderation.SkippedForever | crates/adapters/src/pg/video_tx.rs:486-500 | Such a comment never gets a job, whatever runs afterwards |
| Moderation.StaleForever | crates/application/src/moderation_escalate.rs:228-244 | A token that has lost its job never regains it, and its late completion changes no job |
| Moderation.RunnerOnlyShadows | crates/application/src/moderation_escalate.rs:53-64 | Runner steps only ever move a comment from visible to shadow |
| Moderation.BackoffNeverShrinks | crates/application/src/moderation_escalate.rs:246-254 | Waiting grows with attempts and never exceeds 256 bases |
| ModerationJobs.BackoffDoubles | crates/application/src/moderation_escalate.rs:242-251 | The wait starts at the base, doubles with each of the first eight attempts, then stays, and saturates |
| ModerationJobs.EscalatesIff | crates/application/src/moderation_escalate.rs:53-64 | Exactly a visible comment with a shadow verdict is escalated, to shadow |
| ModerationJobs.JobIsWorkedOff | crates/application/src/moderation_escalate.rs:124-223 | A due job worked without interruption is done; a shadow verdict shadows its comment, another leaves it visible, and nothing else changes |
| ModerationJobs.ClaimIsExact | crates/adapters/src/pg/video_tx.rs:555-585 | A claim takes exactly a queued, available row, under a token nobody has, for one more attempt |
| ModerationJobs.ReclaimIsExact | crates/adapters/src/pg/video_tx.rs:587-616 | A lease is taken back exactly when it has run out: failed after the last attempt, queued otherwise |
| ModerationJobs.CompleteIsExact | crates/adapters/src/pg/video_tx.rs:618-645 | A completion counts exactly while its token is current, and ends the job or queues it again after its wait |
| ModerationJobs.ScreenIsExact | crates/application/src/moderation_escalate.rs:158-211 | What a runner concludes from comment, status and verdict, and when a failure is the last |
| Moderation.StepKeepsInv | crates/adapters/src/pg/video_tx.rs:516-650 | Every claim, reclaim, completion, crash, commit and cursor move keeps the invariant |
| ModerationStore.Tables.MaterializeStage | crates/application/src/moderation_escalate.rs:95-122 | The in-place batch adds a job for each new comment among the committed rows it can read, and moves the cursor to the last of them |
| ModerationStore.FindFirst | crates/adapters/src/pg/video_tx.rs:555-616 | The first of a queue by its time, then by row, or that the queue is empty |
| ModerationStore.FirstDueIsEarliest | crates/adapters/src/pg/video_tx.rs:561-571 | First of the due jobs means available soonest, among those changed longest ago |
| ModerationStore.FirstExpiredIsOldest | crates/adapters/src/pg/video_tx.rs:595-607 | First of the expired leases means run out longest ago |
| ModerationStore.Tables.ReclaimExpired | crates/adapters/src/pg/video_tx.rs:587-616 | Requeues or fails expired jobs, earliest lease first, all of them unless the batch is full |
| ModerationStore.Tables.ClaimDue | crates/adapters/src/pg/video_tx.rs:555-585 | Claims due jobs under fresh tokens, earliest first, all of them unless the batch is full |
| ModerationStore.Tables.ApplyEscalation | crates/application/src/moderation_escalate.rs:211-226 | Moves a visible comment to shadow on a shadow verdict, and nothing else |
| ModerationStore.Tables.CompleteJob | crates/adapters/src/pg/video_tx.rs:618-650 | Completes the job exactly while the token is current |
| Reputation.UpdateRep | crates/domain/src/reputation.rs:44-52 | Succeeds exactly for operands in range, with a result in range |
| Reputation.WeightHalves | crates/domain/src/reputation.rs:7-24 | Each weight is one millionth part of 2^(-1/H), rounded half up: raised to the H-th power it brackets one half |
| Reputation.NeverOvershoots | crates/domain/src/reputation.rs:44-52 | A step moves only toward the score and never past it |
| Reputation.MovesIff | crates/domain/src/reputation.rs:44-52 | A step moves up or down exactly when the weighted gap reaches half a unit |
| Reputation.EndsAreOutOfReach | crates/domain/src/reputation.rs:33-52 | Whoever starts within the rounding margins stays there for every score history, and the margins are held |
| Reputation.OrderIsKept | crates/domain/src/reputation.rs:44-52 | Two users with the same scores keep their order over any history |
| Reputation.RoundingNeverDriftsFar | crates/domain/src/reputation.rs:33-52 | Over any history the rounded value stays within UNIT / (2 (UNIT - k)) of the exact recurrence |
| Reputation.TierIsLastReached | crates/domain/src/reputation.rs:54-61 | With rising thresholds the tier counts exactly those reached, lower bounds included |
| Relay.NoFrameAppliedTwice | web/lib/ws.ts:43-65 | In every run, whatever fails in the relay, in whatever order rows become visible and however many are in flight, the connected client applies no frame twice, and a row sent to it makes it apply exactly the delivered frames of its market that it has not applied before |
| Relay.AgreesWithUnlimited | web/lib/ws.ts:43-65 | In every run, for every committed row that is not yet marked published, the bounded set answers as an unlimited one would |
| Relay.OldestIsSafe | web/lib/ws.ts:58-63 | While a row is unpublished, at most 527 keys stand in the set from its frame on, so its frames are never evicted |
| Relay.EveryRunKeeps | crates/adapters/src/relay.rs:215-255 | Every run keeps the invariant behind this, for the clients of every market |
| Relay.FewOpen | crates/adapters/src/pg/trade_tx.rs:51-55 | Rows written under locks held to the end of the transaction: at most one per source is ever open |
| Relay.PublishedWasBroadcast | crates/adapters/src/relay.rs:215-255 | In every run only committed rows are broadcast, and a row is marked published only after it has been |
| Relay.ClaimIsFull | crates/adapters/src/relay.rs:217-231 | A waiting row is left out of a claim only if the claim holds a full batch of 128 |
| RelayDelivery.PumpDelivers | crates/adapters/src/relay.rs:215-255 | After any run, an undisturbed pump broadcasts the claimed rows in order, marks exactly those published, and the client has acted on every delivered frame of its own |
| RelayStore.Outbox.Claim | crates/adapters/src/relay.rs:217-231 | The first 128 visible unpublished rows in order |
| RelayStore.Outbox.Pump | crates/adapters/src/relay.rs:215-255 | One pump over table and client is exactly the run: open a batch, send its rows until it stops, then commit the marks of all of them or of none |
| RelayStore.Client.ShouldApply | web/lib/ws.ts:43-65 | Applies unseen keys and snapshots, and evicts the oldest key beyond the cap |
| RelayStore.Client.Reconnect | web/lib/ws.ts:146-153 | A new connection follows one market and has seen nothing |
| RelayStore.PassOn | crates/adapters/src/http/ws.rs:211-221 | The frames of a row reach the client exactly if the row concerns its market or is a global pause |

## Left out

- SQL, HTTP, WebSocket transport and configuration parsing: a transaction is an atomic step.
- Signing, hashing and fingerprints: opaque values, and hashes of lock keys taken as injective.
- Keys recorded before request fingerprints were stored replay without comparison; here every recorded key has its command.
- Receivable collection, credit lots, referral grants and compliance gates: other ledger traffic that leaves escrow and suspense alone, or a verdict passed in.
- MarketStore.Store.PlaceTrade: position caps, pauses (the subject of `Pauses`), staleness of the previewed configuration and compliance gates are one verdict that may refuse, and the fee rate is an argument.
- MarketStore.Store.CastVote: phone check, vote velocity, account age near the close, pauses and compliance gates are one verdict that may refuse.
- Emergency unwinding of a market (`crates/application/src/ops/unwind_market.rs`): only its state change appears, in `Cascade`; it is not among the steps of `MarketRuns`.
- Scores of single votes, LP results and outcome rows written at settlement: bookkeeping that moves no money.
- The `i128` accumulators of the ledger and of settlement are unbounded integers; their own overflow needs more than 2^63 legs.
- Locks on pool, position, reputation, account and configuration rows, which are taken under a market, user or generation lock, and the ledger's account order.
- Pauses.NoTradeUnderTradingPause: a pause switch is its key's value; timing rules, roles and validation of a patch can only refuse it, and other configuration keys take no fence. The reads at the fence are one step.
- MarketStore.Store.Resolve: the lock-and-recheck loop around it is modelled apart, in `LockSession.Server.LockParticipants`, and the listing of holdings is an argument.
- LockSession.Server.LockParticipants: an observation that ends while a lock is still awaited is a third outcome, about which only the table's invariant is promised.
- Locks.ResolutionHoldsEveryone: commands that write voters, holders or binds take the locks the source takes for them; writers outside those commands are not modelled.
- Cascade.Runner.Cascade: one market; the sweep over batches of due markets and its report counters are left out.
- RefundSent.BroadcastWasSent: lookups find only what was sent, and sends are acknowledged only if delivered; the theorems of `RefundRuns` do without that.
- RefundRuns.EveryRunKeepsInv: assumes at most one of the three endpoints lies, finalized receipts are true, and a transfer cannot land above its last valid height.
- Deposits.EveryRunKeepsInv: a refund's attempts are the subject of `RefundRuns`; here sending and settling are the two status edges and the release. The suspense account is open from the start.
- ModerationStore.Tables.ClaimDue: jobs with equal times are taken in row order, where the source compares their random ids.
- Relay.NoFrameAppliedTwice: one relay runs, a row has at most two frames, and a connection follows one market, as the web client does. Rows without frames for a market's clients are one source that needs no lock.
- Refund.ReplacesIff: a stored payment that does not match its deposit is refused by the source; approval writes it to match, and here it always does. That a signature belongs to another payment, which the store's index refuses (`migrations/0011_money.sql:209`), is a verdict passed in; failures of signing or storing are a commit that fails.
- Draft validation, ranking, integrity thresholds, display prices, notifications and audit rows: they would only add easy members.
