# kalshi-mm: a verified model of the trading core

This project models the trading core of the kalshi-mm market-making bot in
Dafny and proves what its bookkeeping, its quote planner and its control loops
are meant to guarantee, over every input and every run.

Money and prices are exact (`real`; book levels are integer millidollars). The
decimal rounding of the bot is kept: half-to-even in `round_dp`, half-away in
`round4`, `round6` and penny cents, and rounding fees up to the next cent.
Clocks, exchange answers, model actions, spot prices and the iteration order of
hash maps are arbitrary inputs.

| file | what it models |
|---|---|
| `Numbers`, `Sums` | rounding modes and their laws; order-independent sums |
| `Books`, `BookLaws` | order book levels, snapshots, deltas, touch clamp, fee and edge arithmetic; the book in dollars |
| `Ledger`, `Processing` | account state, fill and settlement booking, dedupe; the event loop's use of them as one run |
| `Conservation`, `FeeLaws`, `RoundTrip`, `DedupeLaws`, `KillSwitch`, `Restart`, `MirrorLaws` | laws of whole ledger runs |
| `Quotes`, `QuoteLaws`, `PlanLaws`, `QuotePath` | quote planning and its guarantees; every check between a book update and a quote |
| `Executor`, `Inventory`, `LiveOrders` | execution, the inventory cap, the orders resting on the exchange |
| `Exits`, `ExitLaws` | exit decisions, the pacing of exit orders, and that due exits do go out |
| `Spot`, `SpotLaws`, `Ladder`, `LadderLaws`, `TailGates`, `SpotLean` | spot window, EMA, trend gate; strike ladders, tail losses and their gate, fair-value shift |
| `Sync`, `Traders` | position sync; the trader's maps updated in place |
| `Windows`, `WindowLaws` | trade-print window and mid history |

State that the bot updates in place is a class (`Ledger.TraderState`,
`Books.Book`, `Spot.SpotState`, `Ladder.Ladders`, `Traders.Trader`) whose
methods are proved to move its view exactly as a specification function says;
the laws are then proved about those functions. A market's record is owned by
value in the account's map, as in the source, so it is a datatype and nothing
can alias it.

## What the proofs found

Some promises hold only under a condition. Each is stated with its exact
condition, proved in both directions:

- The tail losses of a ladder are its worst case exactly when no interior
  level is deep: below both ends and below what the positions cost, which can
  be read off positions and marks. A short strike below a long one escapes
  them: the tails report no risk where a dollar can be lost
  (`Ladder.TailsBoundLossIffNoDeepLevel`, `Ladder.SpreadEscapesTheTails`).
- The tail gate bounds a ladder by the cap plus one fill as long as every open
  leg has a live book or a cost. A leg with neither is marked at one half, and
  the next fill reprices all of it (`TailGates.GateKeepsTailsNearCap`,
  `TailGates.FillsHurtLittleIffKnown`, `TailGates.UncostedLegEscapesTheGate`).
- The kill switch checks the streak a losing fill feeds exactly when the
  market's record carries the category derived for the fill and the position
  is not inherited. Records created by position sync for markets outside the
  universe carry an empty category for good; a run is given in which such a
  market loses and a limit of one loss halts nothing
  (`KillSwitch.LossIsCheckedIffCategoriesAgree`,
  `KillSwitch.MismatchedMarketIsUnseen`,
  `KillSwitch.LossAfterSyncGoesUnchecked`).
- A restart keeps the cost basis exactly when every open market is quoted and
  its history was read (`Restart.RestartKeepsBasisIff`).
- After a restart the first poll re-reads fills from before the boot, and the
  new process has forgotten which it booked; such a fill makes the two
  processes diverge, and the new one holds it twice
  (`Restart.NextFillAgreesIffNew`, `Restart.RereadDoublesThePosition`).
- The planner does not see an exit in flight. A plan keeps the inventory cap
  exactly when each side it places has room for the unbooked exit as well.
  That is so while the exit closes no more than the booked position. Once a
  resting order has filled first it need not be, and a run is given that starts
  from a new market and ends beyond the cap (`Inventory.PlanKeepsCapIff`,
  `Inventory.CoveredExitLeavesRoom`, `Inventory.StaleExitRunBreaksTheCap`).
- A fill releases its order's slot even when it fills only part of the order.
  The rest stays on the exchange where nothing cancels it: the record names all
  live orders exactly while no partial fill has orphaned one
  (`LiveOrders.RecordIsCompleteIff`, `LiveOrders.HalfFilledOrderIsForgotten`).
- The bounded dedupe is exact for precisely the streams whose repeats recur
  before the cap's worth of fresh ids (`DedupeLaws.ExactIffRepeatsComeSoon`).
- The scoreboard pays a void nothing and the ledger books it at cost; over any
  run the two differ by exactly the cost of the voided positions. One void
  agrees with the cash returned exactly when it is refunded at entry
  (`Conservation.RunRefinesScoreboard`, `Conservation.VoidNeedsRefundAtCost`).
- On a penny market a plan keeps YES/NO symmetry exactly when the pair the
  model wants does not reach past a half-cent price one tick inside the touch;
  a book where it does is given
  (`QuoteLaws.PlanMirrorsIff`, `QuoteLaws.HalfCentPlanBreaksTheMirror`).

Where comments and code disagree the model follows the code: the comment on
`apply_settlement` (src/state.rs:443-444) says streaks update as for fills, but
settlements never touch the streak (src/state.rs:466-470); the comment on
`tail_losses` (src/ladder.rs:22-28) calls two scenarios the worst case; and the
close-time check exists only in the exit pass (src/main.rs:1226-1228), so spot
ticks (src/main.rs:786-823) can send an exit after the close, exactly when
`Exits.ClosedMarketSendsIff` says; `Exits.SpotExitAfterTheClose` is one.

## Model

| member | source | states |
|---|---|---|
| Ledger.TraderState.ApplyFill | src/state.rs:355-431 | one fill moves the whole account exactly as specified: fee, counters, record, close, with realized PnL at the pre-fill entry |
| Ledger.TraderState.ClosePnl | src/state.rs:405-413 | realized PnL is taken only on the part of a fill that reduces inventory |
| Ledger.TraderState.ApplySettlement | src/state.rs:449-472 | a settlement clears the position in all cases and books PnL only when binary and costed |
| Ledger.TraderState.BookRealizedClose | src/state.rs:497-514 | scratches are no-ops; exempt closes leave the streak alone both ways |
| Ledger.TraderState.SeenFill | src/state.rs:286-298 | reports a repeat, records a new id, evicts the oldest beyond 20,000 |
| Ledger.TraderState.ResetDaily | src/state.rs:523-530 | daily counters, halts and streaks are cleared, everything else kept |
| Ledger.ReplayEntryPrice | src/state.rs:150-159 | the loop computes the position and entry of a market's history |
| Ledger.ReplayIsCosted | src/state.rs:122-159 | a replayed history has an entry exactly while it has a position |
| Conservation.FillMovesEquityByCash | src/state.rs:355-414 | any fill (open, extend, reduce, flatten, flip) moves realized PnL less position at entry by exactly its cash |
| Conservation.SettlementMovesEquityByPayout | src/state.rs:449-465 | a binary settlement moves it by position times payout |
| Conservation.VoidNeedsRefundAtCost | src/state.rs:459-461 | a void matches the cash returned if and only if the position is refunded at its entry, or not at all when its cost is unknown |
| Conservation.RunRefinesScoreboard | scripts/daily_pnl.py:71-108 | over every run, voids included, position is the scoreboard's net, and equity moves by the scoreboard's cash plus what the voided positions had cost |
| Conservation.RealizedIsCashPlusPosition | scripts/daily_pnl.py:71-108 | from a fresh account, realized PnL is cash plus open and voided positions at cost |
| Conservation.AccountRefinesScoreboard | scripts/daily_pnl.py:71-108 | net cumulative PnL is all markets' cash plus open and voided positions at cost, less the fee of every booked fill |
| Conservation.RunBalances | src/state.rs:355-514 | cumulative PnL plus fees always equals the sum of the markets' realized PnL, voids and resets included |
| Conservation.FeesArePaidPerBookedFill | src/main.rs:948-954 | fees paid are the sum of the fees of the fills that passed the dedupe |
| FeeLaws.FillIsChargedItsRate | src/main.rs:948-954 | every accepted fill costs a whole number of cents, at least taker or maker rate times size times price times its complement, and under a cent more; PnL moves by what was realized less that |
| FeeLaws.FeesFollowTheSchedule | src/book.rs:45-49 | over a run, fees are that schedule of every booked fill, rounded up by less than a cent a fill |
| FeeLaws.TakersPayTheTakerRate | src/main.rs:948-949 | ten contracts at 50 cents cost a taker 18 cents and a maker five |
| FeeLaws.CountersCountTheFills | src/state.rs:359-364 | taker and maker counters are the booked fills of each kind |
| FeeLaws.LotCountersCountTheLots | src/state.rs:373-380 | a market's lot counters are the booked lots bought and sold |
| FeeLaws.DayCountersSinceTheRoll | src/state.rs:416-427 | without a roll the day's fill counter only adds the booked fills |
| FeeLaws.RollStartsTheDay | src/state.rs:523-530 | a roll zeroes the day, dates it, and keeps the lifetime counters |
| Conservation.DailyIsCumulativeSinceRoll | src/state.rs:523-530 | daily PnL is cumulative PnL since the last roll |
| Conservation.SettledPnlIgnoresFillOrder | scripts/daily_pnl.py:94-108 | two orders of the same fills end with the same position and, once settled, the same realized PnL |
| RoundTrip.RoundTripBeatsItsFees | src/engine.rs:156-160 | buying and selling n lots at any plan's pair, in any partial fills and interleaving, raises cumulative PnL by more than n times the minimum edge |
| RoundTrip.LegsAccumulate | src/book.rs:47-49 | partial fills at the pair never cost more than the one-lot fee per contract |
| QuoteLaws.EdgeGateIsSound | src/book.rs:237-243 | despite its own rounding, a pair on the grid that passes the gate really beats fees plus edge |
| QuoteLaws.FeeAtMostPerLot | src/book.rs:47-49 | the fee of n contracts is at most n one-contract fees |
| DedupeLaws.DedupeHoldsTheLastRecorded | src/state.rs:286-298 | the set is the queue, duplicate-free, within the cap, and holds exactly the last recorded ids |
| DedupeLaws.ExactIffRepeatsComeSoon | src/state.rs:286-298 | the bounded dedupe accepts exactly first occurrences if and only if repeats recur before cap-many fresh ids |
| DedupeLaws.RereadsChangeNothing | src/main.rs:621-650 | overlap re-reads leave the whole account as if never sent |
| KillSwitch.SwitchEqualsItsHistory | src/main.rs:968-977 | streak is the trailing run of losing non-exempt closes; halted exactly when some fill since the last roll left it at the limit |
| KillSwitch.SettlementNeverHalts | src/main.rs:1114-1122 | after any run whose records agree, a settlement and the check it triggers leave the halted set as it was |
| KillSwitch.LossIsCheckedIffCategoriesAgree | src/main.rs:938-964 | a losing close feeds the streak its fill checks if and only if the record carries the derived category and the position is not inherited |
| KillSwitch.MismatchedMarketIsUnseen | src/main.rs:938-964 | through any run, no close of a market whose record carries another category moves the streak its fills check |
| KillSwitch.LossAfterSyncGoesUnchecked | src/main.rs:1000-1034 | a concrete run: sync creates such a record, its inherited lot is sold, a new lot loses, and a limit of one loss halts nothing |
| KillSwitch.TalliesCountTheCloses | src/state.rs:497-514 | wins and losses count every close, exempt or not, and no scratch |
| KillSwitch.CarriedUntilTheEraEnds | src/state.rs:383-391 | inherited inventory stays streak-exempt exactly until its position first reaches or crosses zero |
| Processing.FillsFileNewRecords | src/main.rs:938-951 | the record a fill opens carries the market's quoted category, or its series |
| Processing.SeriesIsBeforeTheFirstDash | src/main.rs:942 | the series is what stands before the first dash |
| Restart.LedgerIsReplayOfHistory | src/state.rs:122-159 | each market's position and entry are the replay of its own accepted fills, through any interleaving |
| Restart.RestartRecoversBasis | src/main.rs:1132-1172 | after the boot-time sync on any record of fetched details, a market has a cost basis exactly when its history was read and lands on its position, and then that history's |
| Restart.RestartKeepsBasisIff | src/main.rs:1039-1060 | after any run, the rebooted account holds the old positions and entries if and only if every open market is quoted and its history was read |
| Restart.RestartIsInvisible | src/state.rs:355-414 | from then on both processes keep the same positions, entries and realized amounts |
| Restart.NextFillAgreesIffNew | src/main.rs:611-650 | the next fill keeps them agreed if and only if the old process had not booked it |
| Restart.RereadDoublesThePosition | src/main.rs:611-650 | any fill booked just before a restart and read again by the first poll is held twice by the new process |
| MirrorLaws.RunMirrors | src/state.rs:355-472 | a run described from the NO side books identical PnL, fees, tallies, streaks and halts, with reflected entries |
| MirrorLaws.PositionValueMirrors | src/state.rs:333-349 | a short locks exactly what the same position locks as a long of the other side |
| MirrorLaws.LockedIsTheWorstSettlement | src/state.rs:345-347 | a position locks the most its settlement can lose, an unknown cost counting as one half |
| MirrorLaws.PositionValueAddsTheWorst | src/state.rs:333-349 | the risk budget is the sum of those over the markets asked for |
| Quotes.PlanQuotes | src/engine.rs:82-196 | the gates in order compute the specified plan, and every call past the throttle burns the slot |
| QuoteLaws.EveryPlanIsLegalAndPassive | src/engine.rs:107-195 | after all rounding 1 <= bid < ask <= 99 cents, sent bid below the best ask, sent ask above the best bid |
| QuoteLaws.CentsAreTheQuotedPrice | src/engine.rs:174-178 | on the market's own grid the cents sent are the quoted dollars |
| QuoteLaws.KeepsExactlyUnmovedQuotes | src/engine.rs:162-172 | on the grid, orders are kept if and only if the same pair would be re-sent |
| QuoteLaws.ScaledActionInRange | src/engine.rs:27-38 | half spread in [0.01, 0.50] and skew in [-0.05, 0.05] for every action, after rounding |
| QuoteLaws.PlansFollowTheShift | src/engine.rs:125-178 | of two plans from one state, the larger shift quotes at least as high on both sides, in dollars and cents |
| QuoteLaws.PlansAreASecondApart | src/engine.rs:98-101 | plans for one market are at least a second apart over any run of calls |
| QuoteLaws.PlanMirrorsIff | src/engine.rs:82-196 | the mirrored market, position, skew and shift give a plan exactly when the original does, and exactly the mirrored one unless the wanted pair of a penny market reaches past a half-cent price one tick inside the touch |
| QuoteLaws.PlanMirrors | src/engine.rs:82-196 | so on whole-cent and subpenny markets the plan always mirrors |
| QuoteLaws.PennyCentsReflectUnlessHalf | src/engine.rs:174-178 | penny cents reflect if and only if the price is not a half cent between zero and a dollar |
| QuoteLaws.HalfCentPlanBreaksTheMirror | src/engine.rs:174-178 | a concrete tie: a bid clamped to 49.5 cents is sent as 50, its mirror image as 51 |
| QuoteLaws.WideBookPair | src/engine.rs:455-466 | the worked example: quotes at 27 and 53 cents |
| PlanLaws.PlansFollowTheAction | src/engine.rs:27-149 | every plan quotes, to half a tick and a tenth of a cent, mid plus shift, less or plus the asked half spread, plus the asked lean, held one tick inside the touch |
| PlanLaws.PlansFollowTheSkew | src/engine.rs:33-37 | of two plans from one state, the larger skew control quotes at least as high on both sides |
| PlanLaws.PlansFollowTheSpread | src/engine.rs:33-37 | and the larger spread control no tighter on either side |
| PlanLaws.LeanedWideBookPair | src/engine.rs:121-149 | the worked example with a full lean up: 32 and 58 cents |
| PlanLaws.PlanIff | src/engine.rs:96-172 | there is a plan exactly when throttle, backoff, budget, book and band allow, the wanted pair is still one inside the touch, beats its fees and the edge, and is not at rest already |
| PlanLaws.EdgeGateIff | src/book.rs:237-243 | on the grid the rounded fee gate passes exactly the pairs that beat both fees and the edge |
| PlanLaws.PlanSizes | src/engine.rs:152-195 | extreme prices take the extreme size, and a side is placed exactly when its fill stays within the cap |
| PlanLaws.SentPlansAreKept | src/engine.rs:162-172 | a plan accepted on both sides is kept while the book stands, however often the planner is asked |
| PlanLaws.RefusalSilencesEveryone | src/executor.rs:118-123 | a refusal for lack of balance silences the planner for every market for exactly the backoff |
| QuotePath.TrippedCategoryIsSilent | src/main.rs:827-912 | over any run, a category whose streak reached the limit since the last roll is not quoted |
| QuotePath.NothingIsHaltedAfterTheRoll | src/state.rs:523-530 | and the roll lets every category go |
| QuotePath.LimitsSilenceEveryone | src/engine.rs:417-432 | a daily loss, a total loss or collateral at its limit silences every market |
| QuotePath.BoundMarketsQuoteInCalmOnly | src/main.rs:670-686 | a spot-bound market is quoted only while spot is fresh and within the gate's level of its price a minute ago |
| QuotePath.BoundMarketsQuoteAroundTheShift | src/main.rs:691-708 | and its quote is the plan around the clamped worth of spot's distance from its average |
| QuotePath.NoSideIsPlacedIntoAFullTail | src/main.rs:714-732 | a side whose ladder tail is at the cap is never placed |
| QuotePath.PlansGoOutOtherwise | src/main.rs:827-912 | with nothing of that in the way the plan goes out as planned |
| Executor.ApplyQuotePlan | src/executor.rs:59-134 | which ids rest, attempts counted, backoff set on refusal, for any exchange answers |
| PlanLaws.SendingTouchesOneRecord | src/executor.rs:90-134 | sending touches one record, counts its attempts, and moves the backoff on a refusal only |
| LiveOrders.RecordNamesTheLiveOrders | src/executor.rs:59-134 | over any run of plans, pulls and fills, the orders resting are those the record names and those orphaned by a partial fill |
| LiveOrders.RecordIsCompleteIff | src/state.rs:393-402 | so the record is complete if and only if nothing is orphaned |
| LiveOrders.HalfFilledOrderIsForgotten | src/state.rs:393-402 | a half filled order rests on and no pull or plan cancels it |
| Inventory.InventoryStaysCapped | src/engine.rs:152-195 | every reachable state keeps position, position plus resting bid and position minus resting ask within the cap, with exits filling in parts and plans made past an unbooked exit that closes no more than the position |
| Inventory.PlanKeepsCapIff | src/engine.rs:184-195 | a plan keeps the cap, whatever the exchange answers, if and only if each side it places has room for the unbooked exit as well |
| Inventory.CoveredExitLeavesRoom | src/engine.rs:184-195 | an unbooked exit that closes no more than the position always leaves that room |
| Inventory.StaleExitRunBreaksTheCap | src/main.rs:1175-1272 | a concrete run from a new market under a cap of one (quotes, a fill, an expiry exit, a stale ask, a plan) that ends two contracts short |
| Exits.ExpiryIsNeverVetoed | src/engine.rs:207-255 | near the close a held position gets a plan exactly when its exit side has liquidity, and otherwise says so |
| Exits.StopLossIsAMarkedLoss | src/engine.rs:354-370 | the stop fires exactly when marking at the mid loses, per contract, at least five cents and twice the spread, on either side |
| Exits.UnwindsOnlyAgainstInventory | src/engine.rs:378-410 | a spot unwind fires exactly when the shift is against the position by more than the threshold |
| Exits.EveryHeldPositionIsExplained | src/engine.rs:288-302 | a block reason exists exactly when there is no plan; no-liquidity exactly when a trigger fired into an empty side |
| Exits.ExitsClosePositions | src/engine.rs:378-410 | every exit closes exactly the open position at a real level of the book |
| Exits.ExitsNameTheirTrigger | src/engine.rs:228-252 | every exit names its trigger, a stop before the clock |
| ExitLaws.PassSendsIff | src/main.rs:1188-1247 | a pass sends exactly when an exit is due in an open market with someone to trade with, no hold-off runs, and no retry bound for this very position runs |
| ExitLaws.DueExitGoesOut | src/main.rs:1175-1272 | over any run, a due exit of an unmoved position goes out with the first pass and with the first pass after each delay, exactly unless a spot order went out within ten seconds |
| ExitLaws.ExpiryExitGoesOut | src/engine.rs:651-672 | fifty seconds before the close a long of one is sold |
| ExitLaws.FlatMarketsStartOver | src/main.rs:1184-1187 | a flat market's retry state is forgotten |
| ExitLaws.AdverseTickGoesOut | src/main.rs:786-823 | over any run, an adverse tick sends exactly when the last look was a second ago and the last unwind ten |
| Exits.ExitOrdersArePaced | src/main.rs:1230-1251 | while a position does not move, the gap after the k-th order of the exit passes is at least the k-th delay, whatever spot ticks and unwinds come between |
| Exits.AtMostFourExitsInTwoMinutes | src/engine.rs:305-323 | five orders of exit passes for an unmoved position span at least 130 s, whatever spot unwinds come between |
| Exits.DelayLadder | src/engine.rs:317-323 | delays are 10, 20, 40, then 60 s, never decreasing |
| Exits.HoldOffProtectsUnwinds | src/main.rs:786-823 | after a spot-adverse order no exit of either kind follows within ten seconds |
| Exits.PassOrdersPrecedeClose | src/main.rs:1223-1228 | in any run of passes and spot ticks, every order of a pass precedes its market's close |
| Exits.ClosedMarketSendsIff | src/main.rs:786-823 | for a closed market an order is sent exactly by a fresh, unthrottled spot tick with fair value against the position by more than the threshold |
| Exits.SpotExitAfterTheClose | src/main.rs:786-823 | such an order, a second after the close |
| Spot.SpotState.OnTick | src/spot.rs:45-67 | outlier guard, EMA step and pruning loop do what the specification says, and stored prices stay positive |
| Spot.SpotState.Ret | src/spot.rs:79-84 | the backward scan finds the newest tick old enough |
| Spot.WindowIsTheRecentHistory | src/spot.rs:45-67 | retained ticks are exactly the kept ones within 120 s of the latest |
| Spot.CachedReturnIsSound | src/spot.rs:79-84 | a windowed return is the full-history answer or none, and none exactly when history has no base or it is too old |
| Spot.EmaStaysInRange | src/spot.rs:55-64 | the EMA lies between the least and greatest kept price |
| Spot.TrendGateCannotFlap | src/spot.rs:98-106 | flips after the first each cost a full crossing of the hysteresis band in total variation |
| SpotLaws.KeptIff | src/spot.rs:46-54 | a message is kept exactly when positive and not both within ten seconds of and more than two percent off the last kept tick |
| SpotLaws.TwoMinutesAreRetained | src/spot.rs:62-65 | the retained ticks are the kept ones of the last 120 s |
| SpotLaws.AverageForgetsGeometrically | src/spot.rs:55-61 | while prices stand still the average's distance from them shrinks by exactly what each weight leaves |
| SpotLaws.ReturnIsTheMove | src/spot.rs:79-84 | a return is the relative move from the newest tick old enough, and there is none exactly when no tick is |
| SpotLaws.GateHasTwoLevels | src/spot.rs:103-106 | the gate trips above one level, releases at or below the other, and holds between them |
| SpotLaws.OpenIffFreshAndCalm | src/main.rs:670-686 | the spot gate is open exactly while the price is fresh and within the level of the newest price a minute old |
| Ladder.ComputeTailLosses | src/ladder.rs:29-36 | the loop computes the losses of the two extreme settlement levels |
| Ladder.LevelIsPrefixLessCost | src/ladder.rs:22-36 | PnL at a level is the strike-ordered prefix sum of positions less the marks' cost |
| Ladder.TailIsWorstCase | src/ladder.rs:22-36 | with no worse interior level, the tails bound every level and a positive bound is attained |
| Ladder.TailsBoundLossIffNoDeepLevel | src/ladder.rs:22-36 | for every ladder, the tails bound every level if and only if no level's prefix of positions is below both ends and below the positions' cost |
| Ladder.SpreadEscapesTheTails | src/ladder.rs:22-36 | a concrete spread with a deep level, which loses a dollar while both tails report zero |
| Ladder.OneSidedLaddersAreBounded | src/ladder.rs:22-36 | all longs or all shorts: the tails are the worst case |
| Ladder.SettledLadderBooksTheScenario | src/state.rs:449-472 | settling every leg through the ledger moves cumulative PnL by the level's scenario PnL |
| Ladder.SettledLadderLosesAtMostItsTail | src/state.rs:449-472 | so it never falls by more than the tail bound |
| TailGates.GateKeepsTailsNearCap | src/main.rs:714-732 | over any run of the account, ladder fills each of a side a fresh gate allows keep both tails below the cap plus the largest fill, whatever happens in other markets |
| TailGates.GateAllowsIff | src/main.rs:714-732 | a side is let through exactly unless its extreme settlement already loses the cap; always without a cap and off the ladders |
| TailGates.MarkPrefersTheMid | src/main.rs:727-728 | a leg is marked at its live mid, else its cost, else one half |
| TailGates.PrefixIsBeforeTheLastDash | src/ladder.rs:42-45 | a threshold ticker's ladder is what stands before its last dash |
| TailGates.FillsHurtLittleIffKnown | src/main.rs:724-728 | a fill hurts no scenario by more than a dollar per contract, and never the one it bets on, if and only if the position has a live book or a cost |
| TailGates.UncostedLegEscapesTheGate | src/main.rs:724-728 | a concrete leg without either: one admitted contract at 99 cents takes its tail from 50 dollars to 99.99 under a cap of 60 |
| Ladder.Ladders.Build | src/ladder.rs:56-69 | every group ends as its legs sorted by strike |
| Ladder.LadderIgnoresDiscoveryOrder | src/ladder.rs:56-69 | the sorted ladder is the same for any discovery order of distinct strikes |
| Ladder.DeltaInRange | src/ladder.rs:74-102 | a defined delta lies in [0, delta_max] |
| Ladder.ShiftFollowsSpot | src/main.rs:691-708 | the shift has the sign of spot minus its average and respects its clamp |
| LadderLaws.DeltaIsTheLocalSlope | src/ladder.rs:74-103 | a market's delta is the slope of mids between its nearest strikes in its own ladder, or none without mids, with crossed ones, or alone |
| LadderLaws.IndexHoldsTheLegs | src/ladder.rs:56-69 | the index holds every leg under its ticker and nothing else |
| LadderLaws.ShiftIsDeltaTimesDistance | src/main.rs:701-704 | the shift is delta times spot's distance from its average, clamped |
| LadderLaws.OrphansQuoteOnlyInCalm | src/main.rs:705-707 | without a delta the shift is nothing while it could not reach a cent, else there is no quote |
| LadderLaws.StraightLadderShifts | src/main.rs:691-708 | on a straight ladder the shift is exactly the fair value a strike gains from spot's distance |
| SpotLean.QuotesLeanWithSpot | src/main.rs:691-708 | against the unshifted plan, quotes are no lower when spot is above its average and no higher below it |
| Sync.SyncReconciles | src/main.rs:980-1037 | after a sync whose calls succeed every market matches, was filled under 10 s ago, or is vanished with one to three checks |
| Sync.SyncDecides | src/main.rs:999-1034 | whatever the API answers: unless it vanished, a market takes the exchange's position exactly when its last fill is ten seconds old; a vanished one is settled, counted or zeroed |
| Sync.FreshFillSurvivesSync | src/main.rs:1015-1021 | a market filled under ten seconds before the sync keeps the position its fills gave it |
| Sync.SyncRestoresEntries | src/main.rs:1039-1060 | every quoted open market without a cost asks its history, and keeps the answer exactly when it lands on the position |
| Sync.SyncedRecordsAreFiled | src/main.rs:1002-1003 | a record a sync creates carries its quoted category, or none |
| Sync.SyncKeepsChecksBounded | src/main.rs:1096-1107 | retry counters stay between 1 and 3 whatever the API answers |
| Sync.SyncBooksOnlySettlements | src/main.rs:1072-1124 | whatever the API answers, a sync books only found binary settlements of vanished costed positions, each leaving the market flat so it is booked once |
| Sync.SyncMovesAccountBySettlements | src/main.rs:980-1124 | account PnL moves through a sync by exactly the sum of those settlements over all markets |
| Sync.SyncBalances | src/main.rs:980-1172 | sync keeps account and markets in balance and charges no fee |
| Sync.VanishedIsFlatWithinFourSyncs | src/main.rs:1072-1124 | a position that stays vanished is flat by the fourth successful sync, whatever failed syncs and other events come between |
| Sync.BootSyncAt | src/main.rs:980-1060 | the first sync gives every market the exchange's position, the carried flag, and the entry its history replays to when that lands |
| Traders.Trader.ProcessFill | src/main.rs:933-964 | dedupe, record, fee, booking and kill switch, composed as specified |
| Traders.Trader.SyncPositions | src/main.rs:980-1060 | walking what the exchange lists and what is held, then backfilling what lacks a cost, in any order, computes the specified sync for any API answers |
| Traders.Trader.ResolvePosition | src/main.rs:1089-1123 | one vanished position: settle, count, or zero after four misses |
| Traders.Trader.CheckExits | src/main.rs:1175-1272 | every held market takes exactly its specified exit step; flat markets lose their retry state |
| Traders.Trader.CheckSpotUnwind | src/main.rs:786-823 | every open position of a spot-bound category takes exactly its specified spot step, and a plan sent is the specified unwind |
| Traders.Trader.UpdateSpotGate | src/main.rs:750-782 | the latch follows the gate; only its rising edge pulls the spot-bound quotes, and exactly their ids are canceled |
| Traders.PulledIdsAreTheResting | src/main.rs:767-782 | the ids pulled are exactly those resting in a spot-bound category |
| Traders.Trader.RefreshMarkets | src/main.rs:463-515 | the universe gains what opened, loses what expired flat, and survives an empty discovery |
| Traders.RefreshNeverDropsHeldMarkets | src/main.rs:455-490 | a held market is never dropped, a flat expired one always is, what stays keeps its category and what is added takes the discovered one |
| Books.Book.ApplyDelta | src/book.rs:116-125 | one level moves by the delta and disappears at or below zero |
| Books.Book.LoadSnapshot | src/book.rs:98-112 | only the sides present are replaced |
| BookLaws.DollarsReadBack | src/book.rs:27-34 | prices on the grid come back exactly, others within half a millidollar, and what the keys cannot hold saturates |
| BookLaws.DeltaMovesItsPrice | src/book.rs:116-125 | a delta at a price moves what rests there, never below nothing, and leaves every other price alone |
| BookLaws.SnapshotReadsBack | src/book.rs:76-142 | after a snapshot the best bid is its largest YES price and the best ask a dollar less its largest NO price |
| BookLaws.ValidIffUnderADollar | src/book.rs:145-150 | a loaded book is valid exactly when its best YES and NO prices together stay under a dollar |
| BookLaws.RowsSetTheirPrice | src/book.rs:76-94 | a row gives its price its quantity unless a later row prices it again |
| Books.DeltasReflectAtZero | src/book.rs:116-125 | a level after a delta run is its arithmetic sum plus exactly what clipping at zero discarded |
| Books.LevelIsTheSumOfItsDeltas | src/book.rs:116-125 | a level equals the sum of its deltas if and only if that sum was never negative |
| Books.DeltasCommute | src/book.rs:116-125 | two orders of a delta run that never oversell leave the same side, the levels with positive net quantity |
| Books.SnapshotIgnoresRowOrder | src/book.rs:76-94 | the same side for any order of rows with distinct price keys |
| Books.ValidBookIsOrdered | src/book.rs:128-168 | a valid book has 0 <= bid < mid < ask <= 1 and no price above $1, whatever was fed |
| Windows.PruneTrades | src/book.rs:272-276 | the loop drops exactly the stale prefix |
| Windows.IncrementalWindowIsRecomputed | src/main.rs:915-930 | push-then-prune equals filtering the whole print record |
| Windows.FeaturesAreBounded | src/book.rs:284-294 | volume in [0, 1] and flow in [-1, 1] |
| Windows.SampleMid | src/book.rs:250-264 | a new entry per 60 s window, the open one refreshed, the oldest dropped |
| Windows.BoundedHistoryIsTheTail | src/book.rs:250-264 | a bounded history is exactly the tail of the unbounded one |
| WindowLaws.HistoryIsWindowFinals | src/book.rs:250-264 | the unbounded history is the last mid of every window, each opening a minute or more after the one before |
| WindowLaws.TwentyFinalsAreKept | src/book.rs:250-264 | the bot keeps the last twenty of those |
| WindowLaws.PrintsLastAMinute | src/book.rs:272-276 | the maintained list is exactly the prints of the last 60 s |
| WindowLaws.FeaturesMeasureTheWindow | src/book.rs:284-294 | volume is prints per fifty, at most one; flow is what makers bought net over what traded gross |

## Left out

- IEEE double rounding and NaN guards (the non-finite checks of `plan_quotes`, `spot_unwind_decision` and `on_tick`): arithmetic is exact.
- The exponential in the EMA weight: any weight in [0, 1] is allowed.
- JSON shapes, `normalize_fill`, `normalize_settlement`, `parse_strike` and `parse_positions`: their results are the inputs.
- HTTP, signing, WebSocket, spot feed tasks, reconnect loops, logging and the trade log ring.
- Model inference and observation building: an action is an arbitrary pair.
- `open_order_count`, fill and win rates, hourly report: single expressions over state that is modelled.
- `fetch_market_details` and snapshot fetching inside `refresh_markets`: I/O whose results enter as books, ticks and close times.
- Inventory.InventoryStaysCapped: assumes effective cancels, resting quotes that fill whole and are booked before the next plan, one exit in flight, and plans made only while that exit closes no more than the position; the last is shown to be needed.
- KillSwitch.SwitchEqualsItsHistory and KillSwitch.SettlementNeverHalts: speak of accounts whose records carry the derived categories; what happens to the others is proved apart.
- Restart.RestartKeepsBasisIff: assumes that the exchange reports the positions the old process held and that a history, where read, is complete; open markets were never settled before.
- TailGates.GateKeepsTailsNearCap: books hold still over the run, because a moving mid moves the tails without any fill; settlements happen in other ladders only. Which tickers parse as threshold legs is an input.
- The reaction to a loss limit beyond silence (`halt_all_trading` cancels and stops) and the date comparison that triggers the daily roll: a roll is an event that may come at any time.
- Position sync overwriting a nonzero position keeps its old entry, which re-bases the ledger; conservation is stated for runs of fills, settlements and resets.
