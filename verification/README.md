# Verified models of the four market mechanisms

This project models the money-moving core of a prediction-market back end and proves properties of
it with Dafny 4.11. Four mechanisms share one wallets table and one append-only ledger:

- **CLOB**: an order book for YES and NO contracts. Two opposite buys fund a new pair of contracts;
  a sell passes existing contracts on. This is the main part.
- **LMSR**: an automated market maker whose prices come from a cost function.
- **Parimutuel**: stakes go into two pools and the winning pool shares the money.
- **Fixed odds**: a house takes bets under a liability cap.

`dafny verify dfyconfig.toml` checks everything.

## How the model is laid out

Every service call is written twice. A *transition function* (`Clob.dfy`, `Lmsr.dfy`,
`Parimutuel.dfy`, `FixedOdds.dfy`) says what one call does to the tables; it returns `None` where the
service raises, and `Next` turns that into the rollback of the transaction. A *class*
(`ClobMarket.dfy`, `LmsrMarket.dfy`, `ParimutuelMarket.dfy`, `FixedOddsMarket.dfy`, with the shared
`Accounts.dfy`) carries the call out step by step, with the loops, early returns and in-place updates
of the Ruby code. Its public methods are proved to reach exactly the state `Next` gives, to keep
`Valid()`, the invariant of all reachable states, and to do what the theorems below say. The properties
are lemmas about the transition functions, first for one step, then for whole runs (`Run`) of any length.

The CLOB proofs go in this order: `Orders.dfy` (rows, sums, the sorted resting lists),
`ClobMatching.dfy` (the matching loop as a waterfall), `ClobPlacement.dfy` (time in force),
`ClobPriority.dfy` (priority, crossed prices), `ClobInvariant.dfy` and `ClobSteps.dfy` (what every step
keeps), `ClobFunding.dfy` (when a placement succeeds), `ClobClosing.dfy` (settlement), `ClobUndo.dfy`
(market cancellation), `ClobRuns.dfy` (whole-run theorems), `ClobEscrow.dfy` (what escrow holds),
`ClobReserves.dfy` (reservations, exact undo), `ClobBids.dfy` (crossed bids) and `ClobExample.dfy`
(concrete runs). `FixedOddsExample.dfy` holds the concrete runs of fixed-odds markets.

Users are positions in the wallets table, an order's id is its position in the orders table, and
that position also stands for `created_at`. All CLOB markets share their users' wallets, so a market
opens on wallets whose reserves may hold any amount, and a run of it may contain the work of other
markets (`Elsewhere`), which moves both columns of a wallet. The hypothesis `Alone`, that no other
market has anything in reserve, appears only in the theorems that need it. Self-trades are included:
wallets are re-read before every update, as `lock!` does. Money is in integers; fees, takeouts and
pro-rata shares are exact ceilings and floors, and LMSR costs are exact reals rounded half away from
zero.

## Main results

- **Every run of an order book** is solvent whichever side wins, never oversold, never crossed, and
  explained row by row by its ledger: `AlwaysSolvent`, `NeverOversold`, `NeverCrossed`,
  `MoneyIsConserved`, `LedgerReplays`, `FeesFollowRate`.
- **Matching** gives each resting order exactly its share, in price-time priority and within everybody's
  limit, and agrees with the fill-or-kill count: `MatchIsWaterfall`, `PriceTimePriority`,
  `OnlyCrossingOrdersTrade`, `FillOrKill`.
- **Escrow** holds exactly 100 for every pair of contracts and what buyers overpaid (`EscrowExplained`);
  settlement pays out all of it if and only if nobody overpaid (`SettlementExhaustsEscrow`).
- **A placement succeeds** if and only if sums over the rows of the book, taken before the call, are
  covered by the wallets: `PlacementGoesThrough`.
- **A reserve holds**, at any time of any run, what other markets put there plus what live buys claim
  less what resting sells were sold for: `ReservesExplained`. Hence exactly when a market settles
  (`SettlesIffCovered`) and exactly what cancelling restores (`CancelIsExactUndo`).
- **LMSR** loses at most its subsidy and half a unit per trade (`BoundedLoss`), and a contract costs more
  than nothing and less than it can pay (`ContractPrice`); **parimutuel** dust is
  less than the number of winning entries (`SettlementIsBounded`) and refunds are a round trip
  (`RefundsRestoreEverybody`); the **fixed-odds** forecast is what settlement realises
  (`SettlementOfARun`), within the cap and within the fees (`LiabilityIsCapped`, `LiabilityWithinFees`).

## What the proofs found

- **A buy that trades with a resting sell strands the seller's reserve.** An incoming buy always goes
  to `execute_fill!`, which takes the maker's stake out of the maker's reserve; a sell never funded one.
  A market alone on its users' wallets can be settled if and only if no buy of its history ever traded
  with a resting sell (`SettlesIffNeverShort`); one such trade and no later call can settle it
  (`BuyFromRestingSellBlocksSettlement`). `ASellerCanBeLeftShort` gives four ordinary orders that do it.
- **Where other markets hold reserves, such a sale is paid out of their money.** The market then settles
  as long as that money lasts (`SettlesIffCovered`). Cancelling still returns every user's total, but
  what was taken stays on the available side: the wallets are restored column by column if and only if
  nobody with money reserved elsewhere was drawn on (`CancelIsExactUndo`). `ForeignMoneyCanBeTaken` is
  a run in which somebody is.
- **Sending those trades to the sell fill would not be enough.** `ReroutedFill`: the buyer's reserve
  would keep the difference between bid and ask.
- **Cancelling a market can fail.** A clawback of zero is an invalid ledger row, so cancellation raises
  exactly when some user has taken more out of the market than put in and owns nothing any more beyond
  what other markets hold in reserve (`CancelWithOutsideMoney`). `CancellingCanFail` is such a run: buy
  at 50, sell at 60, spend everything elsewhere. While no other market is at work it cannot happen
  (`CancelIsExactUndo`).
- **An overpriced sell hides cross-side bids.** The resting list of a buy is sells followed by
  opposite bids, and the loop stops at the first row that does not cross. `BidsApartUnlessBlocked`
  says exactly when a placement leaves crossed bids, `BidsStayApart` that nothing else ever does, and
  `CrossedBidsCanStand` is a run with an offer at 90 behind which bids of 50 and 60 stand.
- **What two bids pay beyond 100 is never paid out.** Each side of a cross-side fill pays its own price, so
  bids of 60 and 60 put 120 into escrow for a pair that pays 100. `SettlementExhaustsEscrow`: what
  settlement leaves behind is exactly the sum of those premiums, and of what buyers and sellers both paid
  in the trades of the first finding.
- **The direction column is not the sign.** `ORDER_FILL_CREDIT` is recorded as a credit although it is
  stake leaving a reserve; a replay by direction is off by twice those rows (`LedgerReplays`), already
  after two bids that meet (`DirectionColumnCanMislead`).
- **LMSR payouts are not bounded by the subsidy**, although a comment at
  app/services/settlement/lmsr_settlement_handler.rb:58-60 says so: `PayoutCanExceedSubsidy` exceeds any
  subsidy with one trade, and `PayoutWithinSubsidyIff` says exactly when the bound holds. What is bounded
  is payouts less collected costs (`BoundedLoss`). The code is modelled, not the comment.
- **A small bet can make a market impossible to settle.** A winning bet whose payout rounds down to zero
  needs a ledger row of zero, so settling on its leg raises: exactly when an open bet on the leg has
  nothing to be paid (`SettlementOfARun`). `SmallBetBlocksSettlement`: a stake of one at the default odds
  of 5000 basis points is enough.
- **Cashing out is not undone, and its fee is on the ledger twice.** A cashout credits and records the
  payout net of the fee and then records the fee as a further debit, so a replay by the direction column
  is short by every such fee (`FixedOdds.LedgerReplays`). The bet is voided for less than its stake, and
  cancelling the market afterwards does not make that good: it restores the starting wallets if and only
  if no cashout has cost anything (`CancelRestoresEverybody`). `CashoutsAreNotUndone` is a run for both.
- **Fixed odds never put more at risk than the fees**, because odds of at most 10000 basis points never
  pay more than the stake (`LiabilityWithinFees`): the liability cap can only refuse a bet once the open
  fees, that bet's included, exceed it (`CapRefusesOnlyBeyondFees`).

## Model

| member | source | states |
|---|---|---|
| Orders.QueueInPriority | app/services/clob/order_matching_service.rb:121-141 | a resting list holds exactly the open and partial orders of its side and direction, the highest bid or lowest ask first and, at equal prices, the older order first |
| ClobMatching.MatchIsWaterfall | app/services/clob/order_matching_service.rb:101-116 | the matching loop gives each resting order exactly what is left of the demand after everything ahead of it, up to the first order that does not cross, and touches nothing else |
| ClobPlacement.CountAgrees | app/services/clob/order_matching_service.rb:90-99 | the early-stopping count reaches the quantity exactly when the crossing prefix offers it, and else is that prefix's sum |
| ClobPlacement.FillOrKill | app/services/clob/order_matching_service.rb:24-34 | a fill-or-kill order that succeeds is filled whole, or wallets, ledger and every other order are as before; the crossing prefix alone decides which |
| ClobPlacement.RestsOnlyIfGtc | app/services/clob/order_matching_service.rb:248-271 | the new row, column by column: the terms of the call, how much it fills, what is cancelled, its final status (an immediate-or-cancel order with fills ends filled), and that only an unfilled good-till-cancelled order rests |
| ClobPriority.PriceTimePriority | app/services/clob/order_matching_service.rb:101-141 | once a resting order has traded, an older one at the same price, a higher bid or a lower ask has nothing left unfilled, and neither has a sell if the one that traded is a cross-side bid |
| ClobPriority.OnlyCrossingOrdersTrade | app/services/clob/order_matching_service.rb:143-158 | a resting row that changed was eligible and only gained fills within what it offered; an incoming sell never goes below its ask, an incoming buy never above its bid, and two bids add up to at least 100 |
| ClobPriority.AtMostOnePartial | app/services/clob/order_matching_service.rb:101-116 | at most one resting order touched by a placement is left partly filled |
| ClobPriority.PlaceKeepsUncrossed | app/services/clob/order_matching_service.rb:101-158 | no placement leaves a live sell priced at or below a live buy of the same side |
| ClobPriority.BidsApartUnlessBlocked | app/services/clob/order_matching_service.rb:127-140 | a buy leaves opposite bids crossed if and only if it rests, an overpriced sell of its side is live and a bid it could trade with is live |
| ClobPriority.BlockedBidUntouched | app/services/clob/order_matching_service.rb:103-105 | a live sell asking more than the incoming buy shields every cross-side bid |
| ClobInvariant.FillPositions | app/services/clob/order_matching_service.rb:161-246 | either fill keeps every user's offers within their holdings and mints pairs only from two buys |
| ClobInvariant.BuyFillBooks | app/services/clob/order_matching_service.rb:161-204 | both stakes leave the reserves into escrow, and the ledger still explains every balance |
| ClobInvariant.SellFillBooks | app/services/clob/order_matching_service.rb:211-246 | the buyer's reserve pays, escrow is unchanged, and the ledger still explains every balance |
| ClobInvariant.FillBacked | app/services/clob/order_matching_service.rb:143-158 | a contract only comes into being fully paid: escrow stays at 100 per pair |
| ClobSteps.PlaceKeeps | app/services/clob/order_matching_service.rb:12-44 | a successful placement keeps backing, parity, no overselling and replay |
| ClobSteps.PlacementDeficit | app/services/clob/order_matching_service.rb:161-177 | a placement takes out of each reserve, beyond what stops being claimed, exactly the sum of price times contracts sold over the user's resting sells |
| ClobSteps.SalesIffBought | app/services/clob/order_matching_service.rb:109-113 | that sum is positive for somebody if and only if the placement is a buy that reaches an affordable resting sell |
| ClobSteps.CancelOrderKeeps | app/services/clob/order_cancellation_service.rb:14-49 | withdrawing an order calls off that row and no other, and moves exactly its price times what is unfilled back from reserve to balance; the ledger and every deficit stay |
| ClobSteps.AdmitKeeps | app/services/clob/order_matching_service.rb:67-88 | reserving funds or checking the position keeps the invariant and opens no gap between claims and reserve |
| ClobFunding.MatchSucceeds | app/services/clob/order_matching_service.rb:101-116 | for any book, fee and wallets the matching loop goes through if and only if every reserve covers what it draws and the taker's balance covers the fees |
| ClobFunding.AdmittedIffAdmissible | app/services/clob/order_matching_service.rb:48-88 | an order is admitted if and only if the market is open, its price is from 1 to 99, its quantity positive and its owner has the money or the free contracts |
| ClobFunding.PlacementGoesThrough | app/services/clob/order_matching_service.rb:12-44 | a placement succeeds if and only if it is admissible and the wallets cover it, all of it read off the tables before the call |
| ClobFunding.PlacementDraws | app/services/clob/order_matching_service.rb:161-271 | and then both columns of every wallet have moved by exactly the amounts so computed |
| ClobClosing.SettlementPays | app/services/settlement/clob_settlement_handler.rb:9-59 | settlement calls off every live order, returns its reservation, pays 100 per net winning contract, and pays out in all 100 per pair, which escrow covers |
| ClobClosing.SettlesIffFunded | app/services/settlement/clob_settlement_handler.rb:11-26 | a market settles if and only if it is open or closed and every reserve covers what live buys claim of it |
| ClobClosing.ReleaseFrees | app/services/settlement/clob_settlement_handler.rb:11-26 | releasing row by row returns to each user all that is claimed, or, in market cancellation, as much of it as the reserve holds |
| ClobUndo.OutlaysAreOutlays | app/services/market_cancellation_service.rb:88-98 | the hash built in three passes holds every user's stakes and fees less sale proceeds |
| ClobUndo.CancelsUnlessDrained | app/services/market_cancellation_service.rb:18-45 | cancelling succeeds exactly for a long enough reason, a market in play, and no user who owes and owns nothing beyond other markets' reserves |
| ClobUndo.CancelUndoes | app/services/market_cancellation_service.rb:77-135 | every user ends with opening balance and outside money, the available part floored at zero and the rest being recorded shortfall; every live order is called off, nothing of this market stays reserved, and the reported totals are the sums of the refund rows, clawback rows and shortfalls the call has written |
| ClobRuns.RunKeeps | app/services/clob/order_matching_service.rb:12-44 | every reachable state satisfies the whole invariant, whatever the wallets held and other markets do |
| ClobRuns.AlwaysSolvent | app/services/settlement/clob_settlement_handler.rb:28-44 | in every reachable state YES and NO holdings are equal, settling either side pays the same, and escrow covers it |
| ClobRuns.NeverOversold | app/services/clob/order_matching_service.rb:78-88 | no user ever offers more contracts than they hold, on any run |
| ClobRuns.NeverCrossed | app/services/clob/order_matching_service.rb:101-158 | no reachable book has a live sell at or below a live buy of its side |
| ClobRuns.FeesFollowRate | app/services/clob/order_matching_service.rb:193-201 | over any run, ended or not, fees are the rate on takers' stakes, rounded up at most once per buy fill |
| ClobRuns.MoneyIsConserved | app/services/clob/order_matching_service.rb:179-241 | over any run, through settlement and cancellation, wallets, escrow and fees hold the opening money, what came from outside and what the market's end paid less what it took back |
| ClobRuns.LedgerReplays | app/services/clob/order_matching_service.rb:180-189 | each balance is the opening balance plus the signed rows; the direction column is right exactly for users without ORDER_FILL_CREDIT |
| ClobRuns.CancelWithOutsideMoney | app/services/market_cancellation_service.rb:100-135 | whatever other markets do to the wallets, when cancelling fails and what everybody ends with otherwise |
| ClobRuns.EndedIsFinal | app/services/settlement_service.rb:4-5 | after settlement or cancellation no order is live and no service call changes anything |
| ClobRuns.OrdersAlwaysSound | app/models/order.rb:9-32 | an order is open or partial exactly while something is unfilled, and fills and cancellations stay within the quantity |
| ClobEscrow.EscrowExplained | app/services/clob/order_matching_service.rb:143-246 | in every reachable state escrow is exactly 100 for each pair plus what the buys of the run, with the rows they traded with, have paid beyond that |
| ClobEscrow.SettlementExhaustsEscrow | app/services/settlement/clob_settlement_handler.rb:28-44 | settlement pays out all that escrow holds if and only if every buy of the run traded only with opposite bids at prices adding up to exactly 100; otherwise the rest is what was overpaid |
| ClobReserves.ReservesExplained | app/services/clob/order_matching_service.rb:161-177 | over any run, a reserve is what other markets put there plus what live buys claim less what resting sells were sold for |
| ClobReserves.DrawnIffShort | app/services/clob/order_matching_service.rb:109-113 | nothing has been taken for a resting sell exactly when no placement the wallets covered bought from one |
| ClobReserves.SettlesIffCovered | app/services/settlement/clob_settlement_handler.rb:9-26 | a market in play settles if and only if other markets keep as much in every reserve as resting sells have drawn from it |
| ClobReserves.SettlementOfARun | app/services/settlement/clob_settlement_handler.rb:9-46 | the wallets after settlement of any run, 100 per net winning contract, and the total paid |
| ClobReserves.ExactIffNeverShort | app/services/clob/order_matching_service.rb:161-177 | over runs of a market alone on its wallets, reserves equal the needs of live buys if and only if no buy ever traded with a resting sell |
| ClobReserves.SettlesIffNeverShort | app/services/settlement/clob_settlement_handler.rb:9-26 | such a market can be settled if and only if no buy of the run traded with a resting sell |
| ClobReserves.BuyFromRestingSellBlocksSettlement | app/services/clob/order_matching_service.rb:109-113 | one buy from a resting sell and no later sequence of calls settles such a market |
| ClobReserves.ShortNeverSettles | app/services/settlement/clob_settlement_handler.rb:11-26 | from any state with a reserve short of its claims the market never settles unless another market fills the reserve up |
| ClobReserves.CancelIsExactUndo | app/services/market_cancellation_service.rb:77-135 | while this market alone is at work, cancelling at any point succeeds, writes nothing off and returns every user's total; the wallets are restored column by column if and only if no reserve held elsewhere was drawn on |
| ClobReserves.FundedOrdersWithdraw | app/services/clob/order_cancellation_service.rb:18-31 | while reserves cover their claims every live order can be withdrawn |
| ClobReserves.FundedCanFill | app/services/clob/order_matching_service.rb:48-88 | funded reserves cover every sell, and every fee-free buy that reaches no resting sell |
| ClobReserves.FundedPlacementsNeedOnlyTheirOwner | app/services/clob/order_matching_service.rb:48-88 | while reserves cover their claims, a sell, or a fee-free buy that reaches no resting sell, succeeds exactly when its owner has the contracts or the money |
| ClobReserves.ReroutedFill | app/services/clob/order_matching_service.rb:206-246 | with the seller as maker of a sell fill, reservations would stay exact only at equal prices |
| ClobBids.StepBids | app/services/clob/order_matching_service.rb:127-140 | a book without crossed bids gets some exactly from a buy that rests blocked beside a bid it crosses |
| ClobBids.BidsStayApart | app/services/clob/order_matching_service.rb:101-158 | on any run without such a buy no two live opposite bids cross, and the first such buy leaves them crossed |
| ClobBids.BuysNeverCross | app/services/clob/order_matching_service.rb:121-158 | in markets where only buys are placed no two live opposite bids cross |
| ClobExample.ASellerCanBeLeftShort | app/services/clob/order_matching_service.rb:109-113 | a concrete run after which exact reservation fails in a market alone on its wallets |
| ClobExample.ForeignMoneyCanBeTaken | app/services/clob/order_matching_service.rb:173-177 | a concrete run after which cancelling does not put another market's reserve back |
| ClobExample.CancellingCanFail | app/services/market_cancellation_service.rb:118-135 | a concrete run after which the market cannot be cancelled |
| ClobExample.CrossedBidsCanStand | app/services/clob/order_matching_service.rb:103-105 | a concrete run after which two live opposite bids cross |
| ClobExample.DirectionColumnCanMislead | app/services/clob/order_matching_service.rb:185-189 | a concrete run after which a replay by the direction column is wrong |
| ClobMarkets.ClobMarket.PlaceOrder | app/services/clob/order_matching_service.rb:12-44 | the placement service succeeds exactly when the wallets cover it, reaches the state of the transition with the new row on the terms of the call, keeps price-time priority and everybody's limit over the whole table, or leaves everything as it was |
| ClobMarkets.ClobMarket.CountMatchable | app/services/clob/order_matching_service.rb:90-99 | the counting loop computes the count |
| ClobMarkets.ClobMarket.Match | app/services/clob/order_matching_service.rb:101-116 | the matching loop carries out the matching transition |
| ClobMarkets.ClobMarket.ExecuteFill | app/services/clob/order_matching_service.rb:161-204 | the buy fill, update by update: both stakes leave the reserves for escrow and the ledger still explains every balance |
| ClobMarkets.ClobMarket.ExecuteSellFill | app/services/clob/order_matching_service.rb:211-246 | the sell fill, update by update: the buyer's reserve pays, escrow is unchanged and the ledger still explains every balance |
| ClobMarkets.ClobMarket.CancelRemainder | app/services/clob/order_matching_service.rb:255-271 | afterwards nothing of the order is unfilled, and neither the ledger nor anybody's total has changed |
| ClobMarkets.ClobMarket.CancelOrder | app/services/clob/order_cancellation_service.rb:14-49 | the cancellation service succeeds exactly for a live order whose reservation the reserve still holds, calls off that order alone, moves what it reports as released from its owner's reserve to the balance, or changes nothing |
| ClobMarkets.ClobMarket.Settle | app/services/settlement/clob_settlement_handler.rb:9-59 | both passes and the status: succeeds exactly when every reserve covers its claims, calls off every live order, pays 100 per net winning contract, or changes nothing |
| ClobMarkets.ClobMarket.CancelMarket | app/services/market_cancellation_service.rb:18-45 | succeeds exactly when nobody is drained, undoes as CancelUndoes says, or changes nothing; the three reported totals are the growth of the refund rows, the clawback rows and the recorded shortfalls |
| ClobMarkets.ClobMarket.TallyOutlays | app/services/market_cancellation_service.rb:88-98 | the hash the three ledger passes build holds every user's stakes and fees less sale proceeds |
| Ledgers.MoneyConserved | app/models/wallet.rb:9-11 | wallets hold the opening money plus everything the ledger recorded |
| Ledgers.DirectionColumnIsOff | app/services/clob/order_matching_service.rb:185-189 | replay by direction overstates a user by twice their ORDER_FILL_CREDIT rows and understates them by their BET_CASHOUT_FEE rows |
| LmsrPricing.ContractPrice | app/services/lmsr/lmsr_pricing_service.rb:10-16 | buying contracts of either side costs more than nothing and less than the 100 minor units each can pay |
| Lmsr.BuyKeeps | app/services/lmsr/lmsr_trade_service.rb:14-102 | a trade keeps position table, audit events, quantities, costs and ledger in agreement |
| Lmsr.BuyTrades | app/services/lmsr/lmsr_trade_service.rb:14-102 | a trade column by column: the caller's side and quantity at the cost function's climb to the nearest unit, cost and fee out of the caller's wallet and on the ledger, the contracts theirs and nobody else's |
| Lmsr.BoundedLoss | app/services/lmsr/lmsr_trade_service.rb:24-36 | after n trades, payout on either side less collected costs is at most the subsidy plus n/2 |
| Lmsr.PayoutWithinSubsidyIff | app/services/settlement/lmsr_settlement_handler.rb:38-63 | the payout is at most the subsidy if and only if 100 times the winning side's contracts are |
| Lmsr.PayoutCanExceedSubsidy | app/services/settlement/lmsr_settlement_handler.rb:58-60 | for any subsidy and cost function, a market in which one trade leads to a payout above the subsidy |
| Lmsr.PositionsAreReplayed | app/services/settlement/lmsr_settlement_handler.rb:26-34 | positions equal the replay of audit events, add up to the market's quantities, and the subsidy guard is never drawn on |
| Lmsr.TradeGoesThrough | app/services/lmsr/lmsr_trade_service.rb:38-58 | exactly when a trade succeeds |
| Lmsr.FeesFollowRate | app/services/lmsr/lmsr_trade_service.rb:35-36 | every fee is the spread rate on the cost, rounded up |
| Lmsr.ContractsCostWithinPayout | app/services/lmsr/lmsr_trade_service.rb:30-33 | on any run no trade is free and none costs more than 100 per contract |
| Lmsr.SettlementPays | app/services/settlement/lmsr_settlement_handler.rb:38-63 | settlement pays every holder 100 per winning contract bought |
| Lmsr.CancelReturnsAllButFees | app/services/market_cancellation_service.rb:65-75 | cancelling gives every trader the starting wallet less their fees |
| Lmsr.EndedIsFinal | app/services/settlement_service.rb:4-5 | a market that has ended has paid one side's contracts once, or was cancelled and has paid no winners, and no later call changes anything |
| LmsrMarkets.LmsrMarket.PlaceTrade | app/services/lmsr/lmsr_trade_service.rb:14-92 | the trade service succeeds exactly when the trade is affordable, records the caller's side, quantity, cost and fee and charges exactly those, or leaves everything as it was |
| LmsrMarkets.LmsrMarket.UpsertPosition | app/services/lmsr/lmsr_trade_service.rb:96-101 | find-or-create keeps one row per user and side and raises exactly that user's contracts on that side |
| LmsrMarkets.LmsrMarket.Settle | app/services/settlement/lmsr_settlement_handler.rb:9-24 | settlement of a market in play always succeeds and pays every holder 100 per winning contract bought |
| LmsrMarkets.LmsrMarket.PositionsFromLedger | app/services/settlement/lmsr_settlement_handler.rb:28-34 | the fold over audit events yields every user's bought contracts per side |
| LmsrMarkets.LmsrMarket.CancelMarket | app/services/market_cancellation_service.rb:65-75 | cancelling a market in play always succeeds, returns every trader's costs, empties every position and reports the sum of the refund rows it has written |
| Parimutuel.StakeKeeps | app/services/parimutuel/parimutuel_pool_service.rb:10-25 | a stake goes from the user's wallet into the pool of the side asked for and no other, with one ledger row saying so, and pools and ledger stay in agreement |
| Parimutuel.PoolsAreStakes | app/services/parimutuel/parimutuel_pool_service.rb:11-25 | in every reachable state each pool is the sum of that side's stake rows |
| Parimutuel.DustIsBounded | app/services/parimutuel/parimutuel_settlement_service.rb:25-44 | floored shares never exceed what is shared, and the dust is less than the number of winning entries |
| Parimutuel.SettlementIsBounded | app/services/parimutuel/parimutuel_settlement_service.rb:13-63 | settlement of any run: payouts, takeout and dust make up the pool, the takeout is the rate rounded up, the dust is bounded |
| Parimutuel.SettlementPays | app/services/parimutuel/parimutuel_settlement_service.rb:29-44 | settlement succeeds and credits each user the shares of their entries, each its amount times the pool after takeout over the winning pool, rounded down |
| Parimutuel.RefundsRestoreEverybody | app/services/parimutuel/parimutuel_settlement_service.rb:70-89 | settling a side nobody backed, or cancelling, pays back the total pool and restores every wallet |
| Parimutuel.EndedIsFinal | app/services/settlement_service.rb:4-5 | a market that has ended has paid out at most what was staked, or after cancellation exactly that, and no later call changes anything |
| ParimutuelMarkets.ParimutuelMarket.PlaceStake | app/services/parimutuel/parimutuel_pool_service.rb:5-42 | the stake service succeeds exactly for a positive stake the user has, while open; then the pool of that side rises by it, the other pool stays, the wallet falls by it and the ledger gains exactly that stake row |
| ParimutuelMarkets.ParimutuelMarket.Settle | app/services/parimutuel/parimutuel_settlement_service.rb:13-66 | settlement of a market in play always succeeds, by floored shares after takeout or by returning every stake |
| ParimutuelMarkets.ParimutuelMarket.CancelMarket | app/services/market_cancellation_service.rb:56-63 | cancelling a market in play always succeeds, returns every stake, empties both pools and reports the total pool, which is the sum of the refund rows it has written |
| FixedOdds.WorstCaseCovers | app/services/house_risk_service.rb:18-21 | the worst case is the least amount covering the loss on every leg |
| FixedOdds.ForecastIsRealised | app/services/house_risk_service.rb:2-16 | settling on a leg succeeds exactly when every winner has a payout; it grades every open bet as won or lost, credits every winner and realises the forecast result of that leg |
| FixedOdds.SettlementOfARun | app/services/settlement_service.rb:50-98 | the same for every market any run leads to |
| FixedOdds.WinnersArePaid | app/services/settlement_service.rb:55-69 | each user is credited exactly the payouts of their open bets on the winning leg |
| FixedOdds.LiabilityIsCapped | app/services/bet_placement_service.rb:22-28 | over any run the worst case is at most the cap plus the net stakes of voided and cashed-out bets |
| FixedOdds.PlacementsStayWithinCap | app/services/bet_placement_service.rb:22-28 | in runs of placements no leg's result is worse than the cap |
| FixedOdds.PlacementGoesThrough | app/services/bet_placement_service.rb:5-38 | a placement succeeds exactly when every guard lets it |
| FixedOdds.PlaceKeeps | app/services/bet_placement_service.rb:12-55 | a placement keeps every earlier bet and adds one of the call's user, leg and stake, at that leg's odds, with the worst case within the cap; the stake leaves the wallet and is on the ledger |
| FixedOdds.LiabilityWithinFees | app/models/market_leg.rb:6 | over any run the worst case is at most the fees of the open bets |
| FixedOdds.CapRefusesOnlyBeyondFees | app/services/bet_placement_service.rb:22-28 | the cap refuses a bet only if, with it, the open fees would exceed the cap |
| FixedOdds.VoidDrift | app/services/bet_void_service.rb:7-14 | a void raises the worst case by at most the bet's net stake |
| FixedOdds.VoidKeeps | app/services/bet_void_service.rb:7-23 | a void gives the stake of that bet back to its owner, records it and voids that bet alone |
| FixedOdds.BetsArePriced | app/services/bet_placement_service.rb:12-16 | fee and payout of every bet are the rates rounded down, and fee and net stake make up the stake |
| FixedOdds.CashoutAmounts | app/services/cashout_quote_service.rb:8-14 | a cashout is worth the bet's potential payout, never more than the stake, less the fee rate on it rounded up |
| FixedOdds.CashoutGoesThrough | app/services/cashout_execution_service.rb:4-40 | a cashout succeeds exactly for an open bet in an open market whose value less the fee is positive |
| FixedOdds.OnlyCashoutsCost | app/services/cashout_execution_service.rb:12-24 | over any run in play a wallet and its open stakes add up to the starting wallet less what cashouts have cost, which is never negative |
| FixedOdds.LedgerReplays | app/services/cashout_execution_service.rb:18-36 | in every reachable state balances are the opening balances plus the signed rows, and a replay by direction is short by exactly the cashout fees |
| FixedOdds.CancelRestoresEverybody | app/services/market_cancellation_service.rb:49-54 | cancelling gives everybody the starting wallet less what cashouts have cost them, so exactly the starting wallets if and only if no cashout has cost anything |
| FixedOdds.EndedIsFinal | app/services/settlement_service.rb:4-5 | once ended no bet is open and no call pays, refunds or voids again |
| FixedOddsExample.SmallBetBlocksSettlement | app/services/settlement_service.rb:60-69 | a concrete run after which a market cannot be settled on a leg |
| FixedOddsExample.CashoutsAreNotUndone | app/services/cashout_execution_service.rb:18-36 | a concrete run after which cancelling does not restore the wallets and the direction column is wrong |
| FixedOddsMarkets.FixedOddsMarket.PlaceBet | app/services/bet_placement_service.rb:5-67 | the placement service succeeds exactly when every guard lets it; then all earlier bets are kept and one is added on the leg, for the user and the stake of the call, with the worst case within the cap; or everything is as it was |
| FixedOddsMarkets.FixedOddsMarket.VoidBet | app/services/bet_void_service.rb:4-52 | the void service succeeds exactly for an open bet and a reason, returns and records that bet's stake, raising the worst case by at most the net stake, or leaves everything as it was |
| FixedOddsMarkets.FixedOddsMarket.CashOutBet | app/services/cashout_execution_service.rb:4-50 | the cashout service credits the potential payout less the fee rounded up, writes one row for each, and voids that bet alone, or leaves everything as it was |
| FixedOddsMarkets.FixedOddsMarket.Settle | app/services/settlement_service.rb:50-97 | succeeds exactly when every open bet on the named leg has a payout, grades every open bet, credits every winner and realises the forecast of that leg, or changes nothing |
| FixedOddsMarkets.FixedOddsMarket.CancelMarket | app/services/market_cancellation_service.rb:49-54 | cancelling a market in play always succeeds, voids every open bet and no other, returns every open stake and reports their sum, which is that of the refund rows it has written |

## Left out

- Controllers, views, authentication, permissions, templates, seeds, leaderboards: no money rule of their own.
- Hot storage, server-sent events, audit events other than `lmsr_trade.place`, `last_fill_price_cents` and timestamps: they are written beside the tables modelled here and never read by them. A failure to write them would also roll a call back; that is not modelled.
- Concurrency: each service call is one atomic step, so row locks and `SKIP LOCKED` have no effect; `created_at` ties are broken by id.
- The clock: `close_at` is read through a flag passed to each placement.
- Opening a market, and editing its status directly: runs start from an open market and only the services and the closing job change the status.
- Markets traded through another mechanism's services: each market is traded through its own, with legs YES and NO for the first three.
- Admin edits of a market's `taker_fee_bps`, `fee_bps`, `takeout_bps`, `liquidity_subsidy_minor` or `liability_cap_minor`, or of a leg's odds, while it is open: runs take them as constant.
- Malformed sides, directions or legs: they cannot be expressed in the model's types; the services reject them before touching a table.
- Floating point: fees, takeouts, shares and LMSR costs are exact; the double precision of the original can differ by one minor unit at rounding boundaries.
- The logarithm and exponential behind the LMSR cost: replaced by five stated facts about ln(e^x + e^y) (at least either argument, strictly rising in each, rising by c when both do, positive at zero), which `LmsrPricing.SomeLogSumExp` shows can hold together.
- Order cashout (`ClobCashoutService`), operator buyback, bet slips, the expiry of cashout quotes, price snapshots: thin callers of the services modelled here, or nothing that moves money.
- Work of other markets during LMSR, parimutuel and fixed-odds runs: only CLOB runs contain it, because only CLOB services touch reserves and take money back.
- The rows other markets write: one call of another market moves a wallet once and writes at most one row with the difference.
- Clawback metadata beyond the requested amount, and refund metadata: not read by any service.
