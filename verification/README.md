# Simple-Trader verification model

A Dafny 4.11 model of the Go trading backend's decision and bookkeeping core, with proofs.
`dafny verify dfyconfig.toml` checks the whole project.

A model decision becomes a signal with levels, leverage and margin; the signal becomes a position in
an in-memory ledger; the position is closed by levels, age, session edges or news. The project follows
that path, and adds the protocols and small engines around it. `float64` is modelled by `real`, so
every law is about exact arithmetic; `math.Round(x*k)/k` is modelled as the code rounds, half away
from zero. Times are integers (seconds, or nanoseconds in the early-exit loop).

| files | what they model |
|---|---|
| `Friction`, `FuturesMath`, `EntryGate` | execution friction, isolated-margin arithmetic, the veto chain |
| `Ledger`, `LedgerLaws`, `FeeLaws`, `Engine` | the paper ledger as a step function, its laws over runs, what every open and close pays, and the engine class that takes those steps in place |
| `SignalAssembly`, `SignalLaws`, `SignalExact`, `SignalLimits` | from decision to levels, leverage and margin; what every built signal satisfies; its stop, targets, leverage and margin in plain arithmetic; where the guarantees stop |
| `Session`, `Decay` | the weekend gap and time decay |
| `Lifecycle`, `LifecycleLaws` | a symbol's signals, one after another, next to its engine position under every event that moves either; when the two stand together, over whole runs |
| `EarlyExit`, `EarlyExitLaws` | news-driven exits and their guarantees over whole runs |
| `NewsQueue`, `SlotGuard`, `ExitRace` | three concurrent protocols as interleaved atomic steps |
| `InvestorLedger` | the unitised pool |
| `Text`, `EnvFile`, `EnvLaws`, `Markdown`, `Headlines`, `Clusterer` | the `.env` writer and reader, MarkdownV2 escaping, headline clustering |
| `Aggregator`, `Indicators`, `Drawdown`, `Allocator` | candle folding, rolling windows, drawdown and breaker, tier targets and capital |
| `Common` | rounding, small real arithmetic, sums over maps |

Imperative code is a class or a loop proved against a function; the laws are about that function. The
specification of the signal assembly is direction-free (gains beyond entry), and the methods that work
on prices branch by branch are proved to agree with it.

## What the code does not keep

Where a documented or expected property is false of the code, the model keeps the code, shows a run
that fails, and proves the exact condition where there is one.

- `ExecuteOrder` on a held symbol drops the old position's margin from the books: `LedgerLaws.Conservation` gives the exact term, `LedgerLaws.ConservationIff` the guard under which the plain law holds.
- An order pays its entry fee from cash (engine.go:107-131) and again at its close, because `Trade.CalculatePnL` subtracts the whole `ExecutionFee`, entry included (engine.go:228, models.go:121): `FeeLaws.CashWhenAllClosed` has every entry fee twice, `FeeLaws.EntryFeeChargedTwice` is the input, and the books charge every fee once exactly when no order of any size is taken (`ChargedOnceIff`). Positions opened from signals pay no entry fee.
- "A signal can never exist without its position" (signal_handlers.go:180-182): a news exit closes the position and leaves the signal ACTIVE, because it reports `pos.SignalID` (early_exit.go:767), which nothing but tests ever assigns (models.go:86). The daemon that main.go:271 wires to the same engine closes positions on their levels without the signal (daemon.go:127), and a restart starts from an empty book, reopening at most 50 ACTIVE signals (main.go:238-251; `Restart`, then `Ensure`). `LifecycleLaws.StayTogetherIff` and `EndTogetherIff` say exactly when signal and position stand together. The next evaluation of the symbol reopens the position at the signal's old entry, whatever the price (`LifecycleLaws.NewsExitUndone`).
- The decay path moves a signal's stop but not the position's: a tick between the two closes the signal and orphans the position. The orphan blocks its symbol, and for a commodity its whole exposure group, from new signals (signal_handlers.go:610-617), until a news exit, the daemon or a restart releases it (`LifecycleLaws.OrphanReleasedIff`, `OrphanBlocksUntilReleased`).
- A signal can ship with leverage 0 (`SignalLimits.LeverageCanBeZero`), by one route only: an answer of the direct model path whose own JSON carries a `parameter_values` record (a byte field, so base64) with a fraction below 1 and no volatility measured. Records of the parameter registry always give at least 1 (`SignalLimits.RegistryLeverageSound`). Such a signal cannot be closed by any priced event (`LifecycleLaws.UnsettleableNeverCloses`), and with a stop beyond 99.5 percent it is the one built signal whose position can be liquidated (`SignalLaws.BuiltSignalLiquidatesIff`).
- "The hard horizon always closes" (futures_math.go:363-364): not for a protected signal, which `applyDecayState` skips because its risk distance is no longer positive (signal_handlers.go:1260). The reconciler's separate age limit still applies (`Lifecycle.OnPass`).
- The weekend gap is ridden by a weekend-flat signal exactly where the breakeven checkpoint can protect it before the age limit and the horizon (`LifecycleLaws.NoneRidesTheGapIff`): at the default age limit of an hour, commodity signals on timeframes below four hours (`CommodityRidesIff`); `CommodityRidesTheGap` is one that does.
- A timeframe overrides horizon and checkpoints of a validated profile (signal_handlers.go:1221-1251) and nothing validates the result: the default crypto profile is invalid on every timeframe above 15 minutes, the default commodity profile on a day (`Lifecycle.OverriddenValidIff`). The decay and gap laws hold all the same, for they need the checkpoints in order only (`Lifecycle.OverriddenOrdered`).
- A tick and the reconciler can close one signal at the same time, each on its own copy: the update in the store has no status guard (signal_store.go:341-350), so the slower one overwrites the recorded exit and may close the position of the next signal. Both hold exactly when handlers never overlap (`ExitRace.FaithfulIff`), and for any number of them if each writes only to a row still active (`ExitRace.FreshWritesAreFaithful`) - for which a handler whose write touches no row would also have to leave the position alone.
- A missing ATR gives the widest stop of the profile; the comment at futures_math.go:181-182 promises the minimum.
- The managed `sl_atr_mult` is dead: the stop is computed at signals.go:371, before it is applied at 430.
- Malformed target bounds make `clampTakeProfits` return a nil map that signals.go:668 writes to when a bound moved the stop (`SignalLimits.PanicsIff`).
- With a target bound of 100 percent or more a short can ship with its take-profit at zero (`SignalLimits.ShortTargetsPositiveIff`).
- A news exit passes price 0 (early_exit.go:692), so it settles at the entry price and can only lose.
- `CountEarlyExitsToday` reads the local date as a UTC date: the daily budget breaks exactly for clocks east of UTC (`EarlyExitLaws.BudgetKeptIff`, `CloseBudgetKeptIff`).
- Early exits close by symbol, so a position reopened during a cycle can be closed on the old one's verdict: the minimum hold is kept exactly when the id open under the symbol is the id judged (`EarlyExitLaws.NextCloseKeepsHoldIff`).
- "How long a symbol rests after an evaluation" (news_events.go:15-17) holds between news evaluations, and after a scan unless the scan slips in between the debounce check and the mark (`NewsQueue.RestKeptIff`).
- The slot guard lists at most 100 active signals, releases its mutex before the insert, and passes when the listing fails. "Two OPEN signals for one symbol" (signal_handlers.go:74-76) are excluded exactly when no evaluator skips the symbol lock or there is only one (`SlotGuard.OneActiveIff`).
- A deposit to an investor that is not ACTIVE issues units the NAV never counts, so it moves the NAV of the others unless it is worth next to nothing per unit (`InvestorLedger.DepositKeepsNAVIff`). A withdrawal is paid whatever the status (investor.go:275-343 never tests it): from an investor that is not ACTIVE it lowers the NAV of the others by the whole amount (`InvestorLedger.WithdrawalNAV`).
- An `.env` line ending in a carriage return before its line end loses one on every upsert.
- `Clusterer.Ingest` merges into the last covering cluster, not the first, and `Clusters` keeps insertion order where its comment promises freshest first: `Clusterer.OldestComesFirst` fails it, `FreshestFirstIff` says when it holds.
- The drawdown against the running peak is the worst pairwise drawdown while equity is non-negative; one negative level can make it too small (`Drawdown.NegativeEquityUndercounts`, `DrawdownExactIff`).

## Model

| member | source | states |
|---|---|---|
| `Engine.ExecutionEngine.ExecuteOrder` | internal/trader/engine.go:73-135 | opening an order takes exactly the ledger step: margin and entry fee debited, the trade filed under its symbol (replacing a held one), the counter advanced even when cash refuses it |
| `Engine.ExecutionEngine.OpenPositionFromSignal` | internal/trader/engine.go:388-446 | opening from a signal takes exactly the ledger step; a held symbol returns the held trade and changes nothing |
| `Engine.ExecutionEngine.CheckExit` | internal/trader/engine.go:138-180 | closes exactly when a level triggers, target before stop before liquidation, and then by the ledger step |
| `Engine.ExecutionEngine.ForceClosePosition` | internal/trader/engine.go:186-203 | closes any open position; a missing price means the entry price, an empty reason a manual exit |
| `Engine.ExecutionEngine.ClosePositionLocked` | internal/trader/engine.go:207-251 | the in-place settlement of the trade object, cash and both collections equals the ledger close; no trade object is ever filed twice |
| `Engine.ExecutionEngine.GetTotalEquity` | internal/trader/engine.go:290-314 | the loop over the position map returns cash plus every mark, whatever order the map is visited in |
| `Engine.ExecutionEngine.constructor` | internal/trader/engine.go:48-56 | a fresh engine is the empty ledger with the default friction |
| `Engine.ExecutionEngine.SetFrictionModel` | internal/trader/engine.go:66-70 | replaces the friction and nothing else |
| `Engine.ExecutionEngine.PriceOrder` | internal/trader/engine.go:80-129 | the priced row of an order and its cost: margin plus entry fee |
| `LedgerLaws.Conservation` | internal/trader/engine.go:73-135 | over every run on any inputs, cash + locked margin + entry fees + margin of overwritten open positions = initial capital + closed results (losses capped at margin) |
| `LedgerLaws.ConservationIff` | internal/trader/engine.go:107-132 | for every run of sane inputs, cash + locked margin + entry fees = initial capital + closed results iff no order that the cash covers finds its symbol held by a position of some size |
| `LedgerLaws.ConservationOnFreeSymbols` | internal/trader/engine.go:131-132 | the plain law for every run that orders only symbols without an open position |
| `LedgerLaws.OverwriteLosesMargin` | internal/trader/engine.go:132 | a concrete two-order run on which the plain law fails |
| `LedgerLaws.CashNeverNegative` | internal/trader/engine.go:107-131 | cash stays non-negative over every run, on any inputs at all |
| `LedgerLaws.RunWellKept` | internal/trader/engine.go:249-250 | over every run positions stay filed under their own symbol, trade ids stay unique across open and closed, closed trades are never rewritten |
| `LedgerLaws.OpenKeepsEquity` | internal/trader/engine.go:421-443 | opening from a signal leaves marked equity, valued at entry, unchanged at any prices of the others |
| `LedgerLaws.CloseRaisesEquityIffUnderwater` | internal/trader/engine.go:237-250 | a close raises marked equity iff the position was worth less than nothing there, and then by exactly the debt written off |
| `LedgerLaws.ExitsNeverLiftEquity` | internal/trader/engine.go:207-251 | the same after any sane run, for level exits and forced closes |
| `LedgerLaws.PricelessCloseNeverGains` | internal/trader/engine.go:194-201 | a forced close without a price (as every news exit makes, early_exit.go:692) can only realize a loss |
| `LedgerLaws.SignalMargin` | internal/trader/engine.go:416-422 | the margin recovered from position size and leverage is exactly the capital the signal allocated |
| `LedgerLaws.SettlesBelowMark` | internal/db/models.go:110-129 | margin plus realized PnL never exceeds the mark at the trigger price, on either side |
| `LedgerLaws.RunKeepsSane` | internal/trader/engine.go:73-135 | sane inputs keep every open position at a positive entry, non-negative size and fee, over any run |
| `LedgerLaws.StepBooks` | internal/trader/engine.go:73-251 | one step of any kind moves the books by exactly its entry fee and the margin it overwrites |
| `Friction.ExecutionIsAdverse` | internal/trader/friction.go:57-123 | a buy fills above and a sell below mid, within half spread plus the cap, and a sell never at zero |
| `Friction.ImpactIsQuadratic` | internal/trader/friction.go:74-86 | below the cap, scaling the order by k scales slippage by k squared |
| `Friction.RoundTripLoses` | internal/trader/friction.go:103-111 | buying and selling back loses both fees and the whole distance between the fills |
| `Friction.NewFrictionModel` | internal/trader/friction.go:16-35 | whatever is asked, the rates in force are non-negative, taker fee and cap positive |
| `FuturesMath.LiquidationIsAStop` | internal/trader/futures_math.go:32-58 | for leverage 1 to 125 the liquidation price is the stop at 100/leverage - 0.5 percent, on either side |
| `FuturesMath.BufferMeaning` | internal/trader/futures_math.go:293-304 | the price-based buffer test holds iff leverage is in range and that distance is the required multiple of the stop |
| `FuturesMath.SizingRespectsBudget` | internal/trader/futures_math.go:135-173 | any successful sizing has positive margin within the available capital, and margin x leverage moved over the risk distance stays within the risk amount |
| `FuturesMath.SlippageSizingRespectsBudget` | internal/trader/futures_math.go:311-345 | the same over the stop distance widened by ten basis points of entry |
| `FuturesMath.MissingATRGivesWidestStop` | internal/trader/futures_math.go:184-225 | without a measurement the stop is 100 percent, clamped: the widest of the profile up to that; it is the minimum the comment promises iff the clamp leaves no other |
| `FuturesMath.LiquidationDistanceMonotone` | internal/trader/futures_math.go:32-58 | lower leverage never brings liquidation closer |
| `FuturesMath.CalculateVolTargetLeverage` | internal/trader/futures_math.go:272-288 | at least 1, and above 1 never more than the ceiling |
| `FuturesMath.NormalRisk` | internal/trader/futures_math.go:146-148 | the risk fraction in force lies in (0, 10%] |
| `EntryGate.AllowedKeepsBuffer` | internal/trader/entry_gate.go:63-160 | whatever passes the gate at an accepted leverage keeps its liquidation buffer |
| `EntryGate.GateIs` | internal/trader/entry_gate.go:63-160 | the gate passes exactly what no rule refuses and names the first that does: trend, volume, chase, trap, buffer |
| `SignalAssembly.EvaluateMarketSignal` | internal/trader/signals.go:349-705 | the variable-by-variable assembly on prices agrees with the direction-free specification, for every input and outcome |
| `SignalAssembly.ChooseStop` | internal/trader/signals.go:371-503 | ATR stop, AI widening and configured bounds, with whether a bound moved it |
| `SignalAssembly.ChooseLeverage` | internal/trader/signals.go:508-549 | the loop returns the specified safe leverage of the clamped request |
| `SignalAssembly.SafeLeverage` | internal/trader/signals.go:532-538 | no leverage above the result up to the request keeps the buffer; above 1 the result does |
| `SignalAssembly.ClampTakeProfits` | internal/trader/futures_math.go:398-471 | both targets clamped, the runner re-staged beyond the first or omitted, nothing enforced on malformed bounds |
| `SignalAssembly.StageTargets` | internal/trader/signals.go:444-473 | staged targets, stretched to the minimum reward on the ATR stop when no ATR was measured |
| `SignalAssembly.FloorTarget` | internal/trader/signals.go:648-657 | the first target meets the minimum ratio or is moved there |
| `SignalAssembly.FinishTargets` | internal/trader/signals.go:648-687 | final targets and the ratio recorded with them |
| `SignalAssembly.FinishSignal` | internal/trader/signals.go:583-705 | margin caps, bounds, ratio floor and entry gate in order |
| `SignalAssembly.ClampWithin` | internal/trader/futures_math.go:406-471 | the clamp on plain bounds, either direction, read as gains |
| `SignalLaws.StopInBands` | internal/trader/signals.go:478-503 | the final stop distance is positive, inside consistent configured bounds, and inside the profile clamp when no bound moved it |
| `SignalLaws.BuiltSignalIsSound` | internal/trader/signals.go:371-705 | every built signal: stop, entry, targets in order at positive prices, targets inside the configured percentages, recorded ratio the true one and at least the effective minimum - 1e-9 |
| `SignalLaws.TargetRefusedIff` | internal/trader/signals.go:684-704 | a sized candidate is refused for its target iff the largest allowed target cannot pay the minimum ratio on its stop |
| `SignalLaws.LeverageAtLeastOneIff` | internal/trader/signals.go:508-527 | exactly when the shipped leverage is at least 1 |
| `SignalLaws.LeverageIsLargestSafe` | internal/trader/signals.go:529-549 | the result is the largest safe leverage up to the request, and is safe iff required buffer x stop is at most 99.5 percent |
| `SignalLaws.LiquidationReachableIff` | internal/trader/engine.go:150-172 | some price liquidates an ordered signal before its stop iff the liquidation distance is shorter than the stop |
| `SignalLaws.BuiltSignalNeverLiquidates` | internal/trader/engine.go:150-172 | for every built signal with leverage of at least 1, or a stop within 99.5 percent, at no price does CheckExit report a liquidation of its position |
| `SignalLaws.BuiltSignalLiquidatesIff` | internal/trader/engine.go:150-172 | under usable target bounds some price liquidates the position of a built signal iff its leverage is below 1 and its stop beyond 99.5 percent |
| `SignalLaws.BuiltTargetPositive` | internal/trader/signals.go:648-687 | under any target bounds the first target of a built long lies beyond entry |
| `SignalLaws.BuiltMargin` | internal/trader/signals.go:583-597 | the margin is positive, within tier capital and margin cap, and within the risk budget over the widened stop |
| `SignalLaws.StopLossWithinRiskBudget` | internal/trader/signals.go:551-597 | end to end for every built signal, opened, held and exited by the ledger: the margin stays within tier capital and margin cap, and the loss before fees within riskPct x equity when the exit fills within 10 bps beyond the stop |
| `SignalLaws.TriggerWithinRiskBudget` | internal/trader/friction.go:57-123 | the same loss bound read before the exit: from the trigger price, the size of the position and the impact factor |
| `SignalLaws.ExitIsNoLiquidation` | internal/trader/engine.go:150-172 | with leverage of at least 1, or a stop within 99.5 percent, no such exit is a liquidation |
| `SignalLimits.LiquidationHappens` | internal/trader/signals.go:508-527 | the input: a built signal of leverage 0 with its stop at 99.7 percent is liquidated at a price its stop does not reach |
| `SignalLimits.PlainSignalIsBuilt` | internal/trader/signals.go:371-705 | a concrete candidate builds a signal on either side with the levels computed by hand, so the laws above speak of something |
| `SignalLimits.ShortNeedsBoundBelow100` | internal/trader/futures_math.go:402-409 | for every target bound of 100 percent or more, a short that ships with its take-profit at zero |
| `SignalLimits.ShortTargetsPositiveIff` | internal/trader/futures_math.go:402-409 | well-formed bounds with a given upper bound never ship a short with a take-profit at or below zero iff that bound is below 100 |
| `SignalLimits.LeverageCanBeZero` | internal/trader/signals.go:378-394 | a record carried in the model's own answer with leverage 0.5, AI leverage 1 and no volatility measured ships a signal with leverage 0 |
| `SignalLimits.RegistryLeverageSound` | internal/trader/param_registry.go:299-352 | every record the parameter registry emits ships a leverage of at least 1, whatever the decision and the measurements |
| `SignalLimits.PanicNeedsMalformedBounds` | internal/trader/signals.go:665-669 | the nil-map write happens only with malformed target bounds and a moved stop, for any candidate |
| `SignalLimits.PanicsIff` | internal/trader/signals.go:665-669 | a sized candidate reaches the nil-map write iff the target bounds are malformed and a bound moved its stop |
| `SignalLimits.MalformedBoundsCanPanic` | internal/trader/signals.go:665-669 | for every malformed pair of bounds some setting reaches it |
| `SignalLimits.ManagedStopMultipleIsDead` | internal/trader/signals.go:371-442 | the managed sl_atr_mult never changes any outcome: the stop is computed before it is applied |
| `SignalLimits.MeasuredSignalIsBuilt` | internal/trader/futures_math.go:184-249 | natr of one percent on entry 100: stop 98.25 and target 104.375, mirrored for a short |
| `Lifecycle.FuturesSignal.CheckSignalResolution` | internal/trader/signals.go:838-874 | closes on a crossed level and only when the exit can be priced |
| `Lifecycle.FuturesSignal.CloseSignalNow` | internal/trader/signals.go:882-893 | closes unconditionally, is idempotent, and refuses an unpriceable exit unchanged |
| `Lifecycle.FuturesSignal.SettleAndClose` | internal/trader/signals.go:897-918 | all fields of the closed row, or no change |
| `Lifecycle.CheckSignalExitForTick` | internal/server/signal_handlers.go:1361-1386 | signal object and engine together take the specified tick step |
| `Lifecycle.ReconcileSignal` | internal/server/signal_handlers.go:1117-1167 | signal object and engine together take the specified reconciler pass: age, levels, decay |
| `Lifecycle.CloseFuturesSignal` | internal/server/signal_handlers.go:968-1046 | signal object and engine together take the manual close: the signal first, its position by force after it |
| `Lifecycle.EnsureSignalPosition` | internal/server/signal_handlers.go:183-202 | opens the position of an ACTIVE signal, unless the symbol holds one, and touches nothing else |
| `Lifecycle.CorrelatedPositionOpen` | internal/server/signal_handlers.go:610-617 | the loop over the open trades finds one of the same symbol or commodity group iff there is one |
| `Lifecycle.PlaceNextSignal` | internal/server/signal_handlers.go:610-714 | when the evaluation decides on a signal, a closed signal's symbol gets it iff no open position is correlated, and its position if the cash covers it; otherwise nothing changes (the other reasons to hold are inputs: the event then does not occur) |
| `Lifecycle.OverriddenOrdered` | internal/config/risk_profiles.go:20-29 | a valid profile overridden by any timeframe keeps its checkpoints in order |
| `Lifecycle.OverriddenValidIff` | internal/server/signal_handlers.go:1221-1251 | but it stays valid iff the timeframe's horizon and flat checkpoint still fit the longest horizon, which the reconciler does not check |
| `Lifecycle.ApplyDecayState` | internal/server/signal_handlers.go:1216-1323 | the decay pass on both objects |
| `Lifecycle.SettlesIff` | internal/trader/futures_math.go:65-89 | a signal can be closed iff entry, capital and leverage are positive; its profit is the position's, its return on the capital allocated |
| `Lifecycle.DecayedAgrees` | internal/server/signal_handlers.go:1216-1323 | the decay pass with its closes is the one the decay laws speak of |
| `Lifecycle.CorrelationIs` | internal/market/assets.go:1336-1353 | correlation is an equivalence: commodities by group, any other symbol by itself |
| `Lifecycle.GroupsAre` | internal/market/assets.go:1304-1334 | the group of every listed commodity, with or without the slash |
| `LifecycleLaws.LevelExitOrphansIff` | internal/server/signal_handlers.go:1361-1386 | a level exit closes signal and position together, same reason, unless the price lies between the position's stop and the signal's moved one |
| `LifecycleLaws.NextTogetherIff` | internal/server/signal_handlers.go:968-1172 | every event (tick, reconciler pass, manual close, news exit, guardian, reopening, the next signal of the symbol, restart, anything elsewhere) keeps the invariant, and signal and position stand together after it iff a guard read before it says so |
| `LifecycleLaws.RunSound` | internal/server/signal_handlers.go:1117-1172 | over every run of all these events, through one signal of the symbol after another, any position beside an active signal is its own; a closed one has no position, or one orphaned by a moved stop |
| `LifecycleLaws.StayTogetherIff` | internal/server/signal_handlers.go:180-202 | active and open stay equivalent through a whole run iff no event meets its parting guard: a price between the two stops, a news exit, a guardian trigger or a restart while active, or a next signal the cash does not cover |
| `LifecycleLaws.EndTogetherIff` | internal/server/signal_handlers.go:180-202 | active and open are equivalent at the end of a run iff the last guard that fired was not a parting one |
| `LifecycleLaws.EndTogetherUnprotected` | internal/server/signal_handlers.go:1117-1172 | closed only through the signal (no news exit, guardian or restart), never protected and every next signal paid for, signals are active iff their position is open, throughout any run |
| `LifecycleLaws.BuiltIsFit` | internal/trader/signals.go:371-705 | the order of every built signal, whatever bounds and leverage it came from, has what these laws ask of an order |
| `LifecycleLaws.OpenedIsSound` | internal/server/signal_handlers.go:183-202 | every built signal whose position opened starts in that invariant, together with its position |
| `LifecycleLaws.NewsExitStrands` | internal/trader/early_exit.go:692 | the failing run: from every built signal a news exit leaves the signal ACTIVE, unchanged, without a position (its trade never carries the signal id that early_exit.go:767 passes on) |
| `LifecycleLaws.NewsExitUndone` | internal/server/signal_handlers.go:183-202 | reopening then restores the position at the old entry, size and target on the signal's own stop, if the cash still covers it, and cash never gained |
| `LifecycleLaws.ProtectionCanOrphan` | internal/server/signal_handlers.go:1285-1305 | protection and then a tick between the two stops orphans the position |
| `LifecycleLaws.OrphanHappens` | internal/server/signal_handlers.go:1285-1305 | it happens: a concrete built signal, protected after thirty minutes, is orphaned by the next tick |
| `LifecycleLaws.OrphanReleasedIff` | internal/trader/daemon.go:126-137 | an orphan leaves its symbol iff a news exit, a restart, or the guardian on the position's own levels takes it; otherwise it is unchanged |
| `LifecycleLaws.OrphanBlocksUntilReleased` | internal/server/signal_handlers.go:610-617 | until one of those comes the orphan stays, through any run, and no signal of its symbol or commodity group is evaluated; the event that releases it unblocks the symbol unless another position does |
| `LifecycleLaws.ReleasedThenSucceeded` | internal/server/signal_handlers.go:610-714 | right after an event the next signal of the symbol is taken and opened if that event released the orphan, and refused if not |
| `LifecycleLaws.VacantStays` | internal/server/signal_handlers.go:583-617 | a symbol without active signal and position stays so until its next signal opens, so what an evaluation checked of its own symbol at its start still holds at its insert |
| `LifecycleLaws.FlatPassLeavesIff` | internal/server/signal_handlers.go:1117-1167 | under any profile a timeframe override leaves: where a position must be flat, a pass with a price leaves its signal active iff it cannot be settled, or is under age, between its levels and protected or due for protection |
| `LifecycleLaws.GapPassLeavesProtected` | internal/trader/commodity_session.go:114-123 | after any run, under any profile a timeframe override leaves, a pass with a price inside the gap leaves a weekend-flat signal active only with its stop past entry, or if it cannot be settled |
| `LifecycleLaws.NoneRidesTheGapIff` | internal/trader/commodity_session.go:99-123 | over every run, through signals under any mix of overridden profiles, no weekend-flat signal that can be settled stays active after a pass with a price inside the gap iff the breakeven checkpoint of every weekend-flat profile comes no earlier than the age limit or the horizon |
| `LifecycleLaws.CommodityRidesIff` | internal/config/risk_profiles.go:20-29 | at the default age limit none of the commodity profile does, over every run, iff its timeframe is four hours or more |
| `LifecycleLaws.CommodityRidesTheGap` | internal/config/risk_profiles.go:21-28 | a built commodity signal, hourly timeframe and default age limit, that is protected at the 16:30 edge and still active after the gap has opened |
| `LifecycleLaws.UnsettleableNeverCloses` | internal/trader/signals.go:897-903 | a signal with leverage below 1 is never closed by any run of priced events, whatever happens to its position |
| `LifecycleLaws.RealizedAtMostReported` | internal/trader/signals.go:897-918 | what the engine realizes is never more than the profit the signal reports |
| `LifecycleLaws.TriggersCompared` | internal/trader/engine.go:150-172 | signal and position triggers at one price agree, except between the two stops |
| `LifecycleLaws.ManualIs` | internal/server/signal_handlers.go:968-1046 | a manual close settles exactly what can be settled at a price, row and position, under the reason given |
| `LifecycleLaws.PassIs` | internal/server/signal_handlers.go:1117-1167 | the outcome of every reconciler pass on row and position, at any time and price |
| `LifecycleLaws.TickIs` | internal/server/signal_handlers.go:1361-1386 | a tick closes an active signal iff its price reaches a level and the signal can be settled, with exit, reason, profit and return |
| `Decay.StopMovesOnceForward` | internal/server/signal_handlers.go:1285-1305 | over any run the stop moves forward at most once, to break-even plus fees |
| `Decay.ProtectedIsLeftAlone` | internal/server/signal_handlers.go:1254-1262 | a protected signal is never touched by the decay path again, although the horizon is documented to close every trade |
| `Decay.FlattenedIff` | internal/trader/futures_math.go:367-390 | where a position must be flat, the pass closes it iff its stop is still behind entry and protection is not due |
| `Decay.RidesTheGapIff` | internal/server/signal_handlers.go:1276-1283 | from the first pass within fifteen minutes of a gap instant on, through whatever passes follow, a weekend-flat signal stays open on this path iff it was protected before or protection is due at that pass |
| `Decay.PassIs` | internal/trader/futures_math.go:367-390 | every pass over a driven signal, checkpoints in order: past horizon, gap edge, or flat checkpoint without profit it ends; past breakeven under half a risk it is protected; else nothing |
| `Session.NextGapIsFirst` | internal/trader/commodity_session.go:79-93 | the first gap instant not before the argument; outside the gap the coming Friday start lies strictly ahead, so the +7-day branch is never taken |
| `Session.GapByWeekSecond` | internal/trader/commodity_session.go:38-54 | the weekday cases are one interval of every week |
| `Session.MustFlattenMonotone` | internal/trader/commodity_session.go:114-123 | once flat is demanded it stays demanded |
| `Session.NeverRidesTheGap` | internal/trader/commodity_session.go:99-123 | demanded at every in-gap instant and fifteen minutes before |
| `Session.FlattenExactly` | internal/trader/commodity_session.go:99-123 | before the horizon, demanded iff a gap instant of the position's life is within fifteen minutes |
| `NewsQueue.RunOwnedOnce` | internal/server/news_events.go:60-86 | under every interleaving each pending symbol has exactly one owner: an enqueuer, a queue slot or the consumer |
| `NewsQueue.QueueDistinct` | internal/server/news_events.go:72-84 | no symbol is queued twice nor about to be sent while queued |
| `NewsQueue.DropReachableIff` | internal/server/news_events.go:78-84 | the queue-full drop is reachable iff the universe is larger than the queue |
| `NewsQueue.RunLockedOnce` | internal/server/news_events.go:36-41 | at most one guarded evaluation per symbol under every interleaving of news and scans |
| `NewsQueue.NewsEvaluationsSpaced` | internal/server/news_events.go:15-17 | two news evaluations of a symbol are at least the debounce apart, though the check precedes the lock |
| `NewsQueue.RestKeptIff` | internal/server/news_events.go:123-152 | over every interleaving a news evaluation has rested the debounce since every earlier evaluation of its symbol, news or scan, or a scan evaluated at or after its check; started within the debounce of its check, it rested iff none did |
| `NewsQueue.ScanInsideDebounce` | internal/server/signal_handlers.go:1553-1562 | a scan does slip in: a news evaluation of the same symbol is marked in the same instant as a scan's |
| `NewsQueue.NoDropsWhenUniverseFits` | internal/server/news_events.go:78-84 | no run over a universe that fits the queue ever drops |
| `NewsQueue.ClearedIff` | internal/server/news_events.go:48-55 | in every reachable state the debounce passes a symbol iff each evaluation of it is a minute old |
| `NewsQueue.LockedIff` | internal/server/news_events.go:36-41 | in every reachable state the symbol lock is taken iff nobody holds it |
| `SlotGuard.ActiveWithinCap` | internal/server/signal_handlers.go:68-94 | active + in flight <= cap + evaluators - 1 + failed listings in every reachable state |
| `SlotGuard.BoundIsReached` | internal/trader/signals.go:815-831 | that bound is attained for every cap up to 100 and every number of evaluators |
| `SlotGuard.CapAboveListLimitNeverBinds` | internal/server/signal_handlers.go:86-90 | a cap above the listing limit of 100 never stops anything |
| `SlotGuard.OneActivePerSymbol` | internal/server/signal_handlers.go:1555-1563 | with every evaluator holding its symbol lock, or only one evaluator, never a second ACTIVE signal of a symbol |
| `SlotGuard.OneActiveIff` | internal/server/signal_handlers.go:71-94 | over every interleaving, at any cap, no symbol ever has two ACTIVE signals iff there is at most one evaluator or none skips the lock |
| `SlotGuard.UnlockedEvaluatorDuplicates` | internal/server/signal_handlers.go:755 | the failing run: one evaluator that skips the lock, as the request handlers do, beside any other |
| `SlotGuard.GuardIs` | internal/server/signal_handlers.go:68-94 | an evaluator passes iff its symbol has no active signal and the listing failed or shows fewer than the cap, or the cap is beyond the hundred listed |
| `ExitRace.ClosedAtMostOnce` | internal/trader/engine.go:207-251 | however many handlers race to close one symbol, no position is closed twice |
| `ExitRace.FreshWritesAreFaithful` | internal/db/signal_store.go:336-357 | however many race: if each writes only to a row still active, every position is closed by its own signal's handler at the exit its row records |
| `ExitRace.FaithfulIff` | internal/server/signal_handlers.go:1361-1391 | over every interleaving each of these two holds iff at most one handler runs |
| `ExitRace.RaceHappens` | internal/db/signal_store.go:341-350 | the failing run: the slower handler overwrites the recorded exit and closes the position of the next signal |
| `EarlyExit.ResolveEarlyExitGuards` | internal/trader/early_exit.go:346-482 | managed guards are the nearest value within the hard bounds, the rest as configured; fails iff a managed guard is unanswered |
| `EarlyExit.EarlyExitManager.ProcessEarlyExitVerdict` | internal/trader/early_exit.go:566-791 | guards, close, one alert and row, in that order, as the specified step; nothing changes without a close |
| `EarlyExit.EarlyExitManager.BeginCycle` | internal/trader/early_exit.go:849-855 | the clock and the open trades of a cycle, read once before its verdicts |
| `EarlyExit.ApplyCount` | internal/trader/early_exit.go:368-375 | rounding then overriding by the raw answer is the nearest value within bounds |
| `EarlyExitLaws.CooldownKept` | internal/trader/early_exit.go:520-522 | over any run two news closes of a symbol are at least the cooldown then in force apart |
| `EarlyExitLaws.ClosesSpaced` | internal/trader/early_exit.go:764-788 | the same of the closes themselves when no row write fails |
| `EarlyExitLaws.BudgetKeptIff` | internal/db/early_exit_store.go:179-194 | the daily budget holds of the rows on every UTC day for every run iff the process clock is not east of UTC |
| `EarlyExitLaws.CloseBudgetKeptIff` | internal/db/early_exit_store.go:179-194 | the same of the closes themselves, for runs in which every row write succeeds |
| `EarlyExitLaws.BudgetBrokenEast` | internal/db/early_exit_store.go:183 | the run that breaks it, for every zone east of UTC |
| `EarlyExitLaws.MinHoldKept` | internal/trader/early_exit.go:517-519 | on any clock, every close had switch and confidence, and the minimum hold when the position closed is the one judged |
| `EarlyExitLaws.MinHoldKeptIff` | internal/trader/early_exit.go:849-858 | over every run, a close within the hold of its cycle's snapshot keeps the minimum hold iff the position closed is the one judged |
| `EarlyExitLaws.NextCloseKeepsHoldIff` | internal/trader/early_exit.go:692 | the same read before the close: the position the engine holds under the symbol has its hold iff its id is the id judged |
| `EarlyExitLaws.ReopenedPositionIsClosedYoung` | internal/trader/early_exit.go:692 | a position reopened during the cycle is closed at age zero on the old one's verdict |
| `EarlyExitLaws.RunTallied` | internal/trader/early_exit.go:717-788 | alerts = closes over any run, rows = closes less failed writes |
| `EarlyExitLaws.BudgetKept` | internal/db/early_exit_store.go:179-194 | the budget in force on every UTC day, for clocks at or west of UTC |
| `EarlyExitLaws.VerdictClosesIff` | internal/trader/early_exit.go:499-530 | a judged verdict closes iff the symbol is open, the switch on, both confidences at the floor, the hold over, no row of the symbol younger than the cooldown, and fewer rows than the budget since the store's midnight; otherwise nothing changes |
| `EarlyExitLaws.RestedSymbolCloses` | internal/trader/early_exit.go:520-522 | last exited two hours ago under a cooldown of thirty minutes: the verdict closes |
| `InvestorLedger.Store.CreateInvestor` | internal/db/investor.go:29-92 | the transaction as one step on both tables |
| `InvestorLedger.Store.RecordDeposit` | internal/db/investor.go:212-272 | the transaction as one step on both tables |
| `InvestorLedger.Store.RecordWithdrawal` | internal/db/investor.go:275-343 | the transaction as one step on both tables, with its refusals in order |
| `InvestorLedger.UnitsMatchTransactions` | internal/db/investor.go:308-333 | over any run units equal the signed sum of the transactions and stay non-negative, so the clamp never bites |
| `InvestorLedger.DepositKeepsNAV` | internal/db/investor.go:241-262 | a deposit moves the exact NAV to between the old exact and the rounded one, by at most 5e-7 |
| `InvestorLedger.WithdrawalNAV` | internal/db/investor.go:275-343 | a successful withdrawal that leaves units shifts the exact NAV by (a/n)(E/U - n)/(U - a/n) iff the investor is ACTIVE; any other is paid too and the NAV of the others falls by a/U |
| `InvestorLedger.FrozenDepositJumpsNAV` | internal/db/investor.go:236-262 | a deposit to an investor that is not active raises the NAV of the others |
| `InvestorLedger.CreateKeepsNAV` | internal/db/investor.go:45-78 | the first deposit of a new investor moves the exact NAV to between the old exact and the rounded one, by at most 5e-7 |
| `InvestorLedger.DepositKeepsNAVIff` | internal/db/investor.go:212-272 | a deposit moves the exact NAV by at most 5e-7 iff the investor is ACTIVE or the deposit per unit is itself at most 5e-7 |
| `InvestorLedger.Store.SumActiveUnits` | internal/db/investor.go:40-45 | the sum over ACTIVE investors, in any order |
| `InvestorLedger.RoundedNAV` | internal/db/investor.go:24-25 | the rounded NAV is within 5e-7 of the exact one |
| `InvestorLedger.CreateIff` | internal/db/investor.go:29-92 | a new investor starts ACTIVE with units worth the deposit at the NAV of the others and one transaction, or with none of either |
| `InvestorLedger.NAVIs` | internal/db/investor.go:24-25 | a NAV is a whole number of millionths, one for a pool without units or worth |
| `InvestorLedger.WithdrawalIff` | internal/db/investor.go:275-343 | a withdrawal goes through iff the amount is positive, the cash covers it, and the units at this NAV do; then units and totals move by exactly it, one transaction recorded, no other investor touched; else nothing changes and each refusal has its cause |
| `InvestorLedger.DepositIff` | internal/db/investor.go:212-272 | a deposit goes through iff the amount is positive, the investor known and the NAV not zero; units bought x NAV = amount, one transaction recorded, no other investor touched |
| `EnvFile.UpsertEnv` | internal/config/envfile.go:36-91 | old lines in place, rewritten where they assign a given key, then exactly the missing keys, sorted |
| `EnvFile.SortStrings` | internal/config/envfile.go:82 | sorted permutation |
| `EnvFile.ApplyEnvFile` | internal/config/envfile.go:146-179 | the scanner loop as a fold of line meanings over the environment |
| `EnvFile.RewriteLines` | internal/config/envfile.go:42-67 | the scanner loop: every line rewritten or kept in place, and the keys seen |
| `EnvFile.MissingAssignments` | internal/config/envfile.go:76-83 | exactly one assignment per missing key, sorted |
| `EnvLaws.UpsertThenApply` | internal/config/envfile.go:31-179 | reading after writing gives every given key its new value and every other its old, process environment first |
| `EnvLaws.ApplyIsLookup` | internal/config/envfile.go:157-178 | the reader is: environment, else first assignment in the file |
| `EnvLaws.OtherLinesKeepTheirPlace` | internal/config/envfile.go:48-66 | comments, blanks and other keys keep text and line number |
| `EnvLaws.SecondUpsertIffNoCR` | internal/config/envfile.go:42-91 | a second upsert changes nothing iff no kept line ends in a carriage return |
| `EnvLaws.ValueSurvivesIff` | internal/config/envfile.go:173-176 | a value is read back as written iff it is trimmed, newline-free and not quote-wrapped |
| `EnvLaws.KeyOfEntry` | internal/config/envfile.go:54-60 | writer and reader agree on the key of every line, bar the empty key |
| `EnvLaws.LookupUpserted` | internal/config/envfile.go:36-91 | what each key means in the upserted lines |
| `Markdown.EscapeMarkdownV2` | internal/telegram/formatter.go:48-55 | the nineteen sequential passes equal one simultaneous per-character escape |
| `Markdown.StripMarkdownV2` | internal/telegram/formatter.go:223-234 | the unescape passes, then the four styling characters deleted at once |
| `Markdown.UnescapePass` | internal/telegram/formatter.go:226-228 | one unescape pass removes exactly its own escapes, even among runs of backslashes |
| `Markdown.UnescapeAll` | internal/telegram/formatter.go:226-228 | the passes undo the escape of any duplicate-free list that has the backslash first |
| `Markdown.RoundTrip` | internal/telegram/formatter.go:48-55 | strip after escape deletes * _ ` ~ and nothing else; the text survives whole iff it has none |
| `Markdown.EscapedReadsAsText` | internal/telegram/formatter.go:46-55 | an independent MarkdownV2 reader reads every escaped text as the original, never as markup |
| `Markdown.EscapePass` | internal/telegram/formatter.go:51-53 | one pass adds one character to those escaped, provided the backslash came first |
| `Headlines.NormalizeHeadline` | internal/market/news_cluster.go:28-45 | the rune loop and trim compute the words of the text joined by single spaces |
| `Headlines.NormalizeIdempotent` | internal/market/news_cluster.go:27-45 | normalising twice is normalising once |
| `Headlines.JaccardMeaning` | internal/market/news_cluster.go:65-82 | symmetric, in [0, 1], 1 iff the trigram sets are equal |
| `Headlines.SimilarityOfNormalForms` | internal/market/news_cluster.go:65-82 | normalising either side first changes nothing |
| `Headlines.JaccardIs` | internal/market/news_cluster.go:65-82 | similarity x all trigrams = shared trigrams |
| `Headlines.TrigramsAre` | internal/market/news_cluster.go:47-63 | exactly every three neighbouring tokens, or with fewer than three the tokens themselves |
| `Headlines.ThresholdIs` | internal/market/news_cluster.go:209-220 | two texts reach the threshold iff 100 x shared >= 82 x all trigrams of their words |
| `Headlines.WordsKeep` | internal/market/news_cluster.go:28-45 | the words spell the letters and digits of the text in lower case, in order, and nothing else |
| `Headlines.WordsSplit` | internal/market/news_cluster.go:28-45 | letters and digits in a row are one word, and anything else ends it |
| `Clusterer.ClusterSet.Ingest` | internal/market/news_cluster.go:200-260 | one headline: ignored, a new cluster, or one member added to the last covering cluster, books kept sound |
| `Clusterer.ClusterSet.Clusters` | internal/market/news_cluster.go:264-280 | the in-place prune over one backing array keeps exactly the live clusters, in order (the comment says freshest first), each with its decay weight and none at weight zero by the discard; the books of no cluster change |
| `Clusterer.ClusterSet.Visit` | internal/market/news_cluster.go:269-274 | one iteration: the survivors so far stay at the front of the array and everything unread stays as it was |
| `Clusterer.ClusterSet.Append` | internal/market/news_cluster.go:240 | the slice grows by one, in place or in a larger copy |
| `Clusterer.NewsCluster.Merge` | internal/market/news_cluster.go:244-259 | the in-place merge of one story |
| `Clusterer.NewsCluster.EffectivePolarization` | internal/market/news_cluster.go:157-168 | the counting loop recomputes polarization from all members |
| `Clusterer.EveryClusterIsAMean` | internal/market/news_cluster.go:244-252 | in every cluster of every run the incremental sentiment is the tier-weighted mean, between its members' extremes, story count matching, each later story linked to an earlier one |
| `Clusterer.RunPartitionsHeadlines` | internal/market/news_cluster.go:200-260 | without pruning the clusters of a run hold exactly the headlines ingested, each once |
| `Clusterer.SourceTierWeight` | internal/market/news_cluster.go:88-97 | never zero or negative |
| `Clusterer.NewsCluster.Matches` | internal/market/news_cluster.go:210-219 | inside the window and like one of the members |
| `Clusterer.ClusterSet.FindTarget` | internal/market/news_cluster.go:209-220 | the last covering cluster, or none |
| `Clusterer.FusedIsWeightedMean` | internal/market/news_cluster.go:248-250 | sound books make the running sentiment the weighted mean within any bounds the members share |
| `Clusterer.IngestAddsExactlyOne` | internal/market/news_cluster.go:200-260 | a headline with a word in it enters exactly one cluster and disturbs no other member |
| `Clusterer.PrunedKeeps` | internal/market/news_cluster.go:268-275 | pruning keeps a cluster iff it is live |
| `Clusterer.TargetIsLast` | internal/market/news_cluster.go:209-220 | no cluster after the target covers the headline |
| `Clusterer.IngestKeepsOrderIff` | internal/market/news_cluster.go:200-260 | a headline no older than any story leaves the clusters freshest first iff the untouched ones are and every one before its place was last seen at that instant |
| `Clusterer.FreshestFirstIff` | internal/market/news_cluster.go:262-263 | over every run in time order, pruning included, the clusters are freshest first throughout iff no headline lands behind a cluster last seen before it |
| `Clusterer.OldestComesFirst` | internal/market/news_cluster.go:262-280 | the failing run: two stories fifty minutes apart, neither pruned, are listed oldest first |
| `Clusterer.CoversIs` | internal/market/news_cluster.go:209-220 | a cluster takes a headline iff it was seen within 45 minutes and some member shares 82 percent of all trigrams with it |
| `Clusterer.IngestIs` | internal/market/news_cluster.go:200-260 | a headline joins the last such cluster as its newest member, or starts its own at the end; no other changes |
| `Clusterer.PolarizationIs` | internal/market/news_cluster.go:121-168 | polarization x both camps = twice the smaller one, camps being the members beyond 0.05 either way |
| `Clusterer.TierIs` | internal/market/news_cluster.go:88-97 | the sources of weight 1 and of weight 0.6, in any case; every other weighs 0.2 |
| `Clusterer.PruneIs` | internal/market/news_cluster.go:264-280 | what was last seen at most two half-lives before is kept, nothing else |
| `Clusterer.SurvivalAtHalfLives` | internal/market/news_cluster.go:99-115 | the exponent of a story's weight falls by ln 2 with every half-life |
| `Aggregator.CandleAggregator.IngestTick` | internal/market/aggregator.go:67-145 | bars and history stay those of all ticks offered; returns the completed bar exactly when a later slot begins |
| `Aggregator.CandleAggregator.GetHistory` | internal/market/aggregator.go:148-159 | the last MaxHistoryBars completed runs of the symbol's ticks |
| `Aggregator.BarsAreRuns` | internal/market/aggregator.go:102-144 | the streaming fold equals open/max/min/last/sum over the runs of ticks, at every point |
| `Aggregator.BarsPartitionTicks` | internal/market/aggregator.go:133-142 | no accepted tick is lost, doubled or reordered between bars |
| `Aggregator.StartsIncrease` | internal/market/aggregator.go:103 | bar starts strictly increase |
| `Aggregator.NoTickAheadOfItsBar` | internal/market/aggregator.go:133-142 | late ticks join the bar in progress, never the reverse |
| `Aggregator.CurrentBarIsLatest` | internal/market/aggregator.go:103 | the bar in progress starts at the latest slot seen |
| `Aggregator.OwnSlotOnlyIff` | internal/market/aggregator.go:103-142 | every bar holds only its own slot iff no tick arrives after one of a later slot |
| `Aggregator.ExtremesAttained` | internal/market/aggregator.go:134-139 | high and low bound all prices of the bar and are attained |
| `Aggregator.SlotHoldsTickIff` | internal/market/aggregator.go:77 | the slot contains its tick iff the tick is not before the epoch, or on a boundary |
| `Indicators.CalculateGarmanKlass` | internal/indicators/institutional.go:13-53 | every index is the root of the mean over its window, the root never applied to a negative |
| `Indicators.CalculateParkinson` | internal/indicators/institutional.go:57-90 | the same for the high-low estimator |
| `Indicators.RollingRoot` | internal/indicators/institutional.go:39-50 | the running sum equals the direct sum over the last min(i+1, period) values |
| `Indicators.CalculateKaufmanER` | internal/indicators/institutional.go:95-145 | every index is the uncapped ratio: neither cap ever fires |
| `Indicators.EfficiencyMeaning` | internal/indicators/institutional.go:93-94 | in [0, 1] by the triangle inequality, 1 iff the closes of the window only rise or only fall |
| `Indicators.CalculateCMF` | internal/indicators/institutional.go:150-195 | every index is the clamped ratio of the two direct window sums, for any candles |
| `Indicators.MoneyFlowInUnit` | internal/indicators/institutional.go:181-187 | for bars whose close is in range and volume non-negative the clamp never fires |
| `Indicators.ClampFiresOnUnsoundBar` | internal/indicators/institutional.go:183-187 | for a close above its bar it does |
| `Indicators.SumSlides` | internal/indicators/institutional.go:41-44 | add the newest, drop the one leaving: the window sum slides |
| `Indicators.PathBoundsMove` | internal/indicators/institutional.go:93 | the triangle inequality along closes, with its equality cases |
| `Indicators.EfficiencyIs` | internal/indicators/institutional.go:95-145 | efficiency x path = net move |
| `Indicators.FlowIs` | internal/indicators/institutional.go:150-180 | the flow of a bar x its range = (2 close - high - low) x volume |
| `Indicators.MoneyFlowIs` | internal/indicators/institutional.go:150-195 | money flow x the volume of the window = the flow of its bars |
| `Indicators.GKIs` | internal/indicators/institutional.go:13-53 | half the squared range less (2 ln 2 - 1) of the squared move, cut at zero |
| `Indicators.ParkinsonIs` | internal/indicators/institutional.go:57-90 | the squared range is 4 ln 2 variances |
| `Drawdown.CircuitBreaker.UpdateEquity` | internal/trader/circuit_breaker.go:28-44 | peak, level and latch as functions of the samples since the last reset |
| `Drawdown.CircuitBreaker.IsHalted` | internal/trader/circuit_breaker.go:47-51 | for a limit up to the whole equity, halted iff some pair of samples since the reset reached it |
| `Drawdown.CircuitBreaker.CurrentDrawdownPct` | internal/trader/circuit_breaker.go:54-66 | the fall from the peak in percent; the negative clamp never fires |
| `Drawdown.CircuitBreaker.Reset` | internal/trader/circuit_breaker.go:69-75 | starts over from the current level |
| `Drawdown.BreakerExactIff` | internal/trader/circuit_breaker.go:37-43 | comparing with the peak alone is exact for all runs iff the limit is at most 1 |
| `Drawdown.TrackCapital` | internal/backtest/engine.go:231-245 | ending capital = initial + all trade results; the reported drawdown is that of the reported curve |
| `Drawdown.DrawdownReached` | internal/backtest/engine.go:241-244 | the streaming drawdown is reached by a pair of points |
| `Drawdown.DrawdownBoundsFalls` | internal/backtest/engine.go:238-244 | while equity is non-negative it bounds the fall of every pair |
| `Drawdown.NegativeEquityUndercounts` | internal/backtest/engine.go:241 | for every negative level a curve on which it does not |
| `Drawdown.DrawdownExactIff` | internal/backtest/engine.go:238-244 | the streaming drawdown bounds every fall of every curve that stays above a level iff that level is not negative |
| `Drawdown.SimulatePath` | internal/backtest/engine.go:410-435 | one bootstrap path: its drawdown, and ruin iff some step ends at half or below |
| `Drawdown.PathStaysNonNegative` | internal/backtest/engine.go:422 | with no return below -1 a path never goes negative |
| `Drawdown.PeakBreachedIffBreached` | internal/trader/circuit_breaker.go:37-43 | up to a limit of 1, the peak comparison finds a breach iff any pair is one |
| `Drawdown.TrackLevel` | internal/backtest/engine.go:238-244 | one update of peak and drawdown |
| `Drawdown.CurveIsSum` | internal/backtest/engine.go:231-245 | every level of the curve is the initial capital plus the results closed by then |
| `Allocator.TargetsExact` | internal/trader/macro_regime.go:73-157 | rounded tier targets sum to exactly 1 and lie in the documented range of their regime |
| `Allocator.StressShiftsToSafety` | internal/trader/macro_regime.go:85-145 | more stress never lowers the cash or core target and never raises alpha, through rounding and residual |
| `Allocator.Allocator.ApplyMacroRegime` | internal/trader/allocator.go:84-94 | targets and state replaced, capital and cash kept |
| `Allocator.Allocator.DebitTier1Cash` | internal/trader/allocator.go:142-156 | the withdrawal step with its two refusals |
| `Allocator.RunBalances` | internal/trader/allocator.go:142-179 | over any run cash stays within [0, capital] and capital = initial + deposits + profits - withdrawals |
| `Allocator.BalancesIff` | internal/trader/allocator.go:48-76 | for a new allocator that holds over all runs iff its cash target is at most 1 |
| `Allocator.NewBookCoveredIff` | internal/trader/allocator.go:48-76 | cash starts within [0, capital] iff capital is non-negative and the cash target at most 1 |
| `Allocator.CorrectedExact` | internal/trader/macro_regime.go:134-145 | whatever the residual, alpha ends as one minus the other two rounded targets |
| `Allocator.Allocator.constructor` | internal/trader/allocator.go:48-76 | defaults from the baseline regime when all targets are missing, else one by one |
| `Allocator.Allocator.SweepProfitToTier1` | internal/trader/allocator.go:159-167 | the sweep step; losses change nothing |
| `Allocator.Allocator.AddCapital` | internal/trader/allocator.go:170-179 | the deposit step, its target share going to cash |
| `Allocator.StressIs` | internal/trader/macro_regime.go:48-93 | forty parts geopolitics, thirty-five inflation, twenty-five rates, each cut to [0, 1] |
| `Allocator.TargetsAre` | internal/trader/macro_regime.go:99-132 | the targets of every regime before rounding, as distances from the thresholds |
| `Allocator.RegimeIsNear` | internal/trader/macro_regime.go:134-157 | rounding keeps the regime and moves each target by at most half a ten-thousandth |
| `Allocator.StepIs` | internal/trader/allocator.go:142-179 | every operation on the book in money, and when it does nothing |
| `FeeLaws.ClosePaysFees` | internal/db/models.go:110-129 | after any close, on a level or forced: realized PnL = price move x size - entry fee - taker fee on the exit fill, return = that over the margin, and cash gains margin and result but never less than nothing |
| `FeeLaws.ExitFill` | internal/trader/friction.go:57-123 | the exit fill in plain numbers: one basis point and capped quadratic impact against the trade, never at zero |
| `FeeLaws.CashOfRun` | internal/trader/engine.go:73-251 | over every run of sane orders and priced exits: cash + locked and lost margin + twice the entry fees + exit fees = capital + price moves x sizes + losses written off + entry fees still open or lost |
| `FeeLaws.CashWhenAllClosed` | internal/trader/engine.go:73-251 | with an empty book, nothing replaced and no loss written off, cash = capital + all price moves x sizes - exit fees - twice the entry fees |
| `FeeLaws.ChargedOnceIff` | internal/trader/engine.go:73-251 | then cash = capital + price moves - exit fees - entry fees once iff no order of any size was taken |
| `FeeLaws.EntryFeeChargedTwice` | internal/trader/engine.go:109-224 | the input: one order opened and closed, its entry fee taken from cash and again out of its result |
| `FeeLaws.PlainClose` | internal/trader/engine.go:207-251 | a signal of 100 USD long from 100 closed at 110 realizes 9.933455775 |
| `FeeLaws.QuoteIs` | internal/trader/friction.go:57-123 | every quote in closed form: half the spread and capped quadratic impact in the depth, against the taker of it, and the fee on the fill |
| `FeeLaws.OrderIs` | internal/trader/engine.go:73-135 | an order opens exactly when the cash covers stake and fee at its fill, and then pays both; fill, fee and every field of its trade |
| `FeeLaws.SignalOpenIs` | internal/trader/engine.go:388-446 | a signal opens exactly when its symbol is free and the cash covers its capital, which buys capital x leverage at entry |
| `FeeLaws.TriggerIs` | internal/trader/engine.go:150-172 | which level a price triggers, read off the side of the holder: target, then stop, then liquidation; a level of zero is none |
| `FeeLaws.CloseRecords` | internal/trader/engine.go:207-251 | a close changes exit price, reason, fee, slippage, result and return of the trade and nothing else of it; slippage is the impact of the exit |
| `FeeLaws.LiquidationOf` | internal/trader/futures_math.go:32-58 | the liquidation price of a position is 100 over the leverage less half a percent away, and missing past 125 |
| `FeeLaws.OrderRecords` | internal/trader/engine.go:109-129 | the liquidation price and the slippage an order is opened with |
| `SignalExact.MeasuredStop` | internal/trader/futures_math.go:184-225 | a measured ATR puts the stop at its multiple of ATRs, or on the end of the profile band it falls beyond |
| `SignalExact.BuiltStopIs` | internal/trader/signals.go:371-503 | the stop of every built signal with a measured ATR, both directions: the ATR distance in the band, the wider AI stop, then the configured bounds |
| `SignalExact.BuiltStopInATRs` | internal/trader/futures_math.go:184-225 | where none of those moved it: the distance from entry to stop = (slAtrMult + slSwingOffset) x the ATR recorded at entry |
| `SignalExact.BuiltTargetsAre` | internal/trader/signals.go:444-687 | both targets of every built signal: the tuned ATR multiples, stretched or floored to the minimum ratio, bounded, the runner restaged or omitted |
| `SignalExact.BuiltMarginIs` | internal/trader/signals.go:551-597 | the margin of every built signal: the risk amount over the slipped stop move, capped by trade cap and tier capital |
| `SignalExact.LeverageIs` | internal/trader/signals.go:508-549 | the leverage of every sized candidate is at least k iff k is asked for, allowed by volatility or default, and safe for the stop |
| `SignalExact.VolTargetIs` | internal/trader/futures_math.go:272-288 | the volatility target admits k iff k is 1, or within the cap and k x natr within the hourly target |
| `SignalExact.SizedIff` | internal/trader/signals.go:197-549 | a candidate is sized iff it has price, equity, capital, a valid profile, confluence and a stop short of the whole price |
| `SignalExact.BuiltIff` | internal/trader/signals.go:371-705 | under usable bounds it becomes a signal iff it is sized, has a catalyst, its largest allowed target pays the minimum ratio, and the gate allows it |

## Left out

- Floating-point rounding, NaN, infinities and signed zero: every amount is an exact `real`. A division the code makes by zero margin is `None` in `Ledger.TradeRow.CalculatePnL`.
- `SetTotalEquity`, the shadow-exit hook, live price-provider fetches and bucket equities of the engine.
- `OpenPositionFromSignal` on a nil signal; unknown direction strings (directions are `Long` or `Short`).
- How the decision is reached: the AI client, the decision core, catalyst judgement, confluence computation. Their results are arbitrary inputs of the assembly.
- JSON, telemetry, reasoning and sentiment fields of a signal; `NewSignalService`'s merge with sample settings (the laws hold for every configuration).
- SQL and pgx: each transaction is one atomic step. Only the failures named in the steps are modelled; store writes of the signal lifecycle succeed, and the second, redundant close in the store is not repeated.
- `ListFuturesSignals(ctx, "ACTIVE", 50)` in the reconciler: one signal is followed, as if always listed.
- `Lifecycle.Next`: one event is atomic; ticks and passes that overlap on one signal are interleaved in `ExitRace`, which leaves out prices and decay.
- `Lifecycle.Elsewhere`: a second order on the followed symbol, because `ExecuteOrder` has no caller outside tests, and a second ACTIVE signal of a symbol, which is the subject of `SlotGuard`. The evaluation of the next signal is one event (`LifecycleLaws.VacantStays`), which occurs or not as its other guards decide: correlated ACTIVE signals, the cap, reserved capital, the decision.
- `Lifecycle.Row`: a signal keeps the profile and timeframe it started with; a configuration changed by a restart, white space around a timeframe, and a base profile that fails validation (whose signals the decay pass skips) are not modelled.
- `Lifecycle.ExposureGroup`: the group of a symbol outside the commodity list is its base coin; the asset table, which names no other commodity, is not searched.
- `NUMERIC` column rounding of the investor tables.
- Daylight-saving transitions: New York is at the fixed offset the code falls back to.
- Event blackout windows (`InBlackoutWindow`): one interval test.
- `EarlyExit.Next`: does not model the per-cluster deduplication of verdicts, skip and error rows or a missing store, because none of them can close a position; failed reads of the last exit and the day count are not modelled.
- `NewsQueue.Next`: goroutine scheduling below the named atomic steps, context cancellation and log lines; which headlines concern which symbol is arbitrary.
- `SlotGuard.Next`: a failed read of the existing signal, which the guard treats as none.
- `Headlines.Lower`: case folding beyond ASCII letters and the two letters that fold into ASCII, since every other letter is dropped either way.
- `Text.Trim`: full Unicode white space beyond the code points listed there.
- Cluster ids and fingerprints (SHA-256); `math.Exp` in `FreshnessWeight` is an arbitrary function.
- `EnvFile.UpsertEnv`: file modes, the temporary file and atomic rename, the scanner's token-length error; contents in, contents out.
- `Aggregator.CandleAggregator.IngestTick`: bars are values, since no reference to a bar in progress ever leaves the aggregator; the constant timeframe label is dropped.
- `math.Log` and `math.Sqrt`: arbitrary functions, the root defined on non-negative arguments only.
- `CalculateNATR`, RSI, MACD and SuperTrend: not window sums.
- The backtest's entry and exit signals: the net result of each closed trade is an input of `Drawdown.TrackCapital`; Sharpe, Sortino, percentiles and the random resampling order are not modelled.
- Allocator sizing methods (`CalculatePositionSize`, Kelly) and regime descriptions: expressions without state.
- HTTP handlers, SSE, Telegram delivery, Redis, exchange and feed clients, the web front end.
