# Verified model of the tick-database control plane

A control plane runs a sharded tick database: it heals its processes, sends commands to agents in
customer environments, trades on a simple momentum signal, routes queries to shards and checks licence
keys. This project models the parts of it that hold state, protocols or accounting, and proves what they
keep over all inputs, all runs and all interleavings.

| file | what it models |
|---|---|
| `common.dfy`, `text.dfy` | options, order facts and string operations the others share |
| `oms.dfy`, `risk_check.dfy` | folding fills into positions; the pre-trade portfolio gate |
| `forecast.dfy`, `backtest.dfy`, `signal_engine.dfy`, `replay_live.dfy` | minute bars and drift; the walk-forward replay; the live bot; both side by side |
| `topology.dfy` | letter ranges, shard ownership, service names and the healing order |
| `flap.dfy`, `watchdog.dfy`, `watchdog_visit.dfy`, `watchdog_loop.dfy` | the restart counter, one healing visit as a function, what each visit does, and the program's loop proved against it |
| `watchdog_runs.dfy`, `watchdog_escalation.dfy`, `watchdog_dependency.dfy`, `watchdog_bound.dfy` | what every run of healing passes keeps, and when |
| `fleet.dfy`, `fleet_protocol.dfy`, `fleet_tick.dfy` | server and agent of the command protocol; the protocol as a step relation; the agent's loop inside it |
| `universe.dfy` | a feed's symbols and how padding spreads them over the shards |
| `sharded_query.dfy`, `query_rows.dfy` | publishing and narrowing; row caps and federation |
| `query_text.dfy`, `query_targets.dfy` | symbols read out of query text; the tier and the processes asked |
| `brackets.dfy` | the bracket check against its grammar |
| `base32.dfy`, `licensing.dfy` | licence keys |

Code that works by changing things is modelled as classes and loops and proved equal to a function of the
old state; code made of expressions is modelled as functions. The theorems are about those functions.
Clock readings, container states, market data, order acceptance, message loss and the keyed hash are
parameters or chosen freely, so each theorem holds whatever they turn out to be. Money and prices are
exact reals. Every lemma carries `{:induction false}`: inductions are written out.

## Where the code and its descriptions differ

The model follows the code. Each point below is a theorem with its exact condition, and where a promise
fails also a concrete input.

- The restart limit needs `threshold` poll intervals and the cooldown (or one more interval, if that is
  longer) together to outlast the window (`WatchdogBound.BoundIff`); nothing checks it. The
  defaults, 3 times 5 seconds and 300 against 120, satisfy it.
- The portfolio gate calls every order against the position reducing, so an order that flips through zero
  is never checked and can leave a symbol over its limit (`RiskCheck.FlipEscapesLimit`,
  `RiskCheck.ReducingShareIff`). The documentation promises only that reducing orders are never blocked.
- The daily loss baseline is taken when the first growing order of a day is checked, so losses realized
  before that check are not counted (`RiskCheck.DailyLossIff`, `RiskCheck.LossBeforeFirstCheckEscapes`);
  from then on the limit is exact (`RiskCheck.GrowthStoppedIff`).
- The router promises to narrow only when it can read every symbol. A list that mixes a literal with a
  computed symbol is narrowed by the literal alone and loses rows (`ShardedQuery.NarrowingSafeIff`,
  `ShardedQuery.MixedListLosesRows`). In text, a clause ends at a comma and at the word `by`, also inside a
  symbol, so the ticker `BY` is lost next to a symbol of another shard (`QueryText.NeverLostIff`,
  `QueryText.ByIsLost`); and a computed list is narrowed by any literal inside it, as the assistant's own
  example of a list from an inner query is by a status (`QueryText.ComputedFallsBackIff`,
  `QueryText.NestedIsMisread`).
- Narrowing returns the same rows, but sorts shards as text: from eleven shards on `s10` comes before
  `s2`, so the row order changes (`ShardedQuery.OrderKeptIff`, `ShardedQuery.SwappedRows`).
- Federation cuts with the request's own limit, which is not clamped: below zero or above the maximum the
  result is not the first rows of the full answer (`QueryRows.ExactIff`). The reported row count of a
  capped query is at most one beyond its limit (`QueryRows.CapKeepsAnswer`).
- The replay describes its stop as the live one; the live bot raises stops below a tenth of a percent and
  the replay does not (`ReplayLive.StopsAgreeIff`, `ReplayLive.LowStopActsDifferently`).
- The replay says it sees only prints strictly before a decision point. Its window includes prints at the
  point itself, so that is true of a moment exactly when it is no decision point
  (`Backtest.SeesOnlyBeforeIff`, `Backtest.PrintAtTheCursorIsSeen`); nothing after a moment is ever seen
  (`Backtest.NoLookahead`).
- `shard_of` says symbols without a leading letter go to the first shard. The code looks for the first
  letter anywhere, so `1ZM` goes where `Z` goes (`Topology.NoLeadingLetterIff`,
  `Topology.LeadingDigitElsewhere`).
- A signed key with an edition number nobody mints is accepted, as edition "unknown"
  (`Licensing.ValidIsMintedIff`, `Licensing.UnmintedEditionIsAccepted`).

## Model

| member | source | states |
|---|---|---|
| Oms.IncreaseAddsCost | control-api/app/oms.py:221-225 | opening or adding in the same direction grows quantity × average by exactly the fill's signed notional |
| Oms.ReduceBooksProfit | control-api/app/oms.py:228-236 | a reduction, close or flip books the price difference on the closed part, with the sign of the position |
| Oms.FillConserves | control-api/app/oms.py:208-236 | one fill of any kind, from any position: realized + old cost + cash spent = new cost |
| Oms.FillsConserve | control-api/app/oms.py:208-236 | conservation over any sequence of fills: realized P&L = change of quantity × average − cash spent, through adds, closes and flips |
| Oms.ProfitIsCashFlow | control-api/app/routers/trading.py:226-237 | from flat, at every mark realized + unrealized = cash flow + holding at the mark; a book that ends flat has realized its net cash flow |
| Oms.SplitFill | control-api/app/oms.py:208-236 | a fill of a + b at one price folds to the same quantity, average and total realized as a then b, wherever the split falls relative to zero |
| Oms.ZeroFill | control-api/app/oms.py:221-225 | a fill of nothing keeps quantity, average and realized, except that a flat position's average is reset |
| RiskCheck.RiskGate.CheckPortfolioLimits | control-api/app/risk_check.py:202-260 | the whole verdict and the whole new baseline table; a reducing trade is always approved; an approved growing trade leaves its symbol within the share; too concentrated exactly when no loss is breached and the share after the fill is broken |
| RiskCheck.FoldTradeHolding | control-api/app/routers/trading.py:226-237 | folding a trade changes exactly its own symbol's row |
| RiskCheck.HoldingIsRow | control-api/app/risk_check.py:213-220 | the position the gate reads is the symbol's own row; without a row it is flat (RiskCheck.NoRowIsFlat) |
| RiskCheck.TotalSplits | control-api/app/risk_check.py:247-250 | portfolio notional is the symbol's plus everyone else's, with one row per symbol |
| RiskCheck.TotalsAdd | control-api/app/risk_check.py:227-250 | realized profit and notional of two books in a row add up, row by row |
| RiskCheck.RowCounts | control-api/app/risk_check.py:227-250 | one row counts its realized profit, and its quantity times average without the sign |
| RiskCheck.GrowingNotional | control-api/app/risk_check.py:249 | the gate's estimate of the new notional bounds the folded one, and equals it for prices that are not negative |
| RiskCheck.ConcentrationExact | control-api/app/risk_check.py:246-258 | the test on the estimate is the test on the real fold: for prices that are not negative it is broken exactly when the symbol's share after the fill is over the limit |
| RiskCheck.ReducingShareIff | control-api/app/risk_check.py:221-225 | when a reducing trade cannot raise its symbol's share: exactly when it does not flip, or flips into no more notional than was held |
| RiskCheck.FlipEscapesLimit | control-api/app/risk_check.py:221-225 | a concrete flip through zero that is let through and breaks the limit |
| RiskCheck.DailyLossIff | control-api/app/risk_check.py:227-244 | every growing order of every book is stopped for a loss since the start of the day exactly when a baseline exists and is not below the opening total, whatever the concentration limit |
| RiskCheck.BaselineWrittenOnce | control-api/app/risk_check.py:228-236 | over any day of checks and fills the baseline is written once, with the realized total at the first growing check, and no other day is touched |
| RiskCheck.GrowthStoppedIff | control-api/app/risk_check.py:227-244 | after any checks and fills of a day a growing order is stopped for its loss exactly when the realized total is more than the limit below what it was at the first growing check |
| RiskCheck.LossBeforeFirstCheckEscapes | control-api/app/risk_check.py:232-238 | a day that opens with a loss beyond the limit and whose next growing order is approved |
| Forecast.SortIsStable | control-api/app/signal_forecast.py:64 | the cleaned prints are the readable ones as a multiset, in time order, equal times in arrival order |
| Forecast.BuildBars | control-api/app/signal_forecast.py:74-84 | the one-pass loop terminates and computes the fold over prints |
| Forecast.BarsDescribe | control-api/app/signal_forecast.py:74-84 | bars are strictly increasing minutes, one for every minute with a print and no other, each closing at its minute's last print; the last bar closes at the last print |
| Forecast.ReturnsTelescope | control-api/app/signal_forecast.py:98 | with positive closes there is one return per step and they sum to log last − log first |
| Forecast.DriftTelescopes | control-api/app/signal_forecast.py:98-103 | drift = (log last close − log first close) / (bars − 1), and the trend is decided by that difference alone |
| Forecast.ForecastSamples | control-api/app/signal_forecast.py:66-103 | the forecast counts the minutes with a print; under three prints it counts none, under three minutes it has no drift and a flat trend |
| Forecast.ForecastIsEndToEnd | control-api/app/signal_forecast.py:66-103 | with positive prices the reported drift is (log of the last price − log of the first minute's closing price) / (minutes − 1), and the trend is up or down exactly when that gain exceeds 0.0002 per step |
| Forecast.LastIsLatestPrint | control-api/app/signal_forecast.py:66-88 | `last` is the latest readable print's price on every branch, and is missing only when nothing can be read |
| Backtest.RunBacktest | control-api/app/backtest.py:205-248 | the replay loop terminates for a positive step, equals the walk over decision points plus the closing trade, and its trades are the story the prints tell; every one is honest and at positive prices |
| Backtest.RunIsStory | control-api/app/backtest.py:205-248 | every trade enters at the first decision point since the last exit whose window says up and leaves at the first later one at or below the stop or down; only the last trade may be the closing one, there is one exactly when the loop ends holding, and it closes at the time and price of the last print |
| Backtest.WindowHolds | control-api/app/backtest.py:213-216 | a window holds exactly the prints from its first to its last moment, both included, as often as they occur |
| Backtest.StopIsBelow | control-api/app/backtest.py:223 | the stop is the configured percentage below the entry price |
| Backtest.NoLookahead | control-api/app/backtest.py:211-238 | series that agree up to T give the same position and decision count at T and the same trades closed by T, wherever each replay ends |
| Backtest.DecidesAtIff | control-api/app/backtest.py:206-211 | the decision points are the start and every whole number of steps after it |
| Backtest.SeesOnlyBeforeIff | control-api/app/backtest.py:19-21 | agreement strictly before T fixes the state at T, for all series, exactly when T is no decision point |
| Backtest.PrintAtTheCursorIsSeen | control-api/app/backtest.py:215-216 | a print at the first decision point changes the state there |
| Backtest.ClosedByWalk | control-api/app/backtest.py:211-238 | the trades closed by T are all and only those the loop had made at T |
| Backtest.TradesDisjoint | control-api/app/backtest.py:217-238 | loop trades lie inside the window with entry < exit < next entry |
| Backtest.TotalReturnPct | control-api/app/backtest.py:139-146 | the compounding loop returns final equity minus one, in percent |
| Backtest.GrowthIsPriceRatio | control-api/app/backtest.py:231-236 | each trade multiplies equity by exit price / entry price |
| Backtest.EquityPositive | control-api/app/backtest.py:143-145 | compounding trades at positive prices never loses all equity |
| Backtest.MaxDrawdownPct | control-api/app/backtest.py:149-159 | the one-pass loop returns the deepest fall from any equity level to any later one, attained, in percent; None without trades |
| SignalEngine.Session.EvaluateTenant | control-api/app/signal_engine.py:181-297 | a failed screen, a failed tape or an empty list end the pass with every position as it was; otherwise the pass on values over the chosen symbols; in auto mode every held symbol is looked at, and one at or below its stop whose order is accepted is gone |
| SignalEngine.Session.VisitSymbols | control-api/app/signal_engine.py:215-297 | the loop over a working copy equals the pass on values; stored positions and working copy never differ |
| SignalEngine.SizeFits | control-api/app/signal_engine.py:246-247 | a sized position risks no more than the remaining budget |
| SignalEngine.SizeIsLargest | control-api/app/signal_engine.py:246-247 | and one share more would not |
| SignalEngine.OpenedIff | control-api/app/signal_engine.py:240-272 | a symbol not held is opened exactly when the trend is up, it can be traded, its order is accepted and one share fits the budget; then with the most shares that fit, at the last price, with the configured stop |
| SignalEngine.DecideWithinBudget | control-api/app/signal_engine.py:224-295 | after one symbol the book is sound and its risk at most the larger of cap and risk before |
| SignalEngine.PassWithinBudget | control-api/app/signal_engine.py:209-295 | the same after every symbol of a pass, for every market |
| SignalEngine.RunOneMore | control-api/app/signal_engine.py:209-297 | a run is its steps in turn, each pass over the positions left before it |
| SignalEngine.RunWithinCap | control-api/app/signal_engine.py:209-297 | over every run of passes with a fixed configuration, a book within the cap stays within it |
| SignalEngine.CapIsOnePercent | control-api/app/signal_engine.py:37-37 | whatever is configured, the cap is at most one percent of the paper capital |
| SignalEngine.CapIsTheShare | control-api/app/signal_engine.py:37-37 | the cap is the configured share of the capital, cut at one percent |
| SignalEngine.StopLossPct | control-api/app/signal_engine.py:210 | the stop in use is the configured one or a tenth of a percent, whichever is larger |
| SignalEngine.FlatRunWithinCap | control-api/app/signal_engine.py:209-297 | a bot that starts flat never risks more than one percent of its capital |
| SignalEngine.SymbolsDistinct | control-api/app/signal_engine.py:198-204 | a pass visits every symbol at most once |
| SignalEngine.AutoSymbols | control-api/app/signal_engine.py:177-198 | in auto mode the held symbols come first, in their order, then the first symbols ranked up and not held, as many as there are free slots or such symbols |
| SignalEngine.HeldAreVisited | control-api/app/signal_engine.py:198-198 | every held symbol is visited, for any ranking |
| SignalEngine.HeldAreWatched | control-api/app/signal_engine.py:224-238 | after an auto pass a held symbol at or below its stop, or trending down, with an accepted order is no longer held; otherwise it stays as it was |
| SignalEngine.ManualSymbols | control-api/app/signal_engine.py:202-204 | in manual mode a pass visits at most six symbols, each the upper case of a configured one that is not empty, and all of those when at most six differ |
| SignalEngine.ManualOrder | control-api/app/signal_engine.py:202-204 | in manual mode the symbols come in the order of their first mention |
| SignalEngine.ClosedStaysClosed | control-api/app/signal_engine.py:274-297 | a symbol closed in a pass is not held at its end |
| SignalEngine.AutoPositionsBounded | control-api/app/signal_engine.py:194-198 | in auto mode the number of open positions never exceeds the larger of held before and the maximum, at any point of the pass |
| ReplayLive.SameActionIff | control-api/app/signal_engine.py:224-295 | from matching positions replay and live bot act alike exactly when the rules ask for nothing or the live side can act |
| ReplayLive.SameActionKeepsMatch | control-api/app/backtest.py:217-237 | acting alike keeps entry and stop matched |
| ReplayLive.PassSplits | control-api/app/signal_engine.py:224-295 | a pass is the symbols before, the decision for one symbol, and the symbols after, and its log entry is that decision's |
| ReplayLive.PassMirrors | control-api/app/signal_engine.py:224-295 | one pass over any symbols against one decision point keeps the positions matched and the ledger of the symbol's log equal to the replay's trades |
| ReplayLive.ReplaySimulatesLive | control-api/app/backtest.py:173-182 | the whole replay against a whole run of passes: the round trips in the bot's log of the symbol are the replay's loop trades, same points, prices and reasons, and the open positions match |
| ReplayLive.StopsAgreeIff | control-api/app/signal_engine.py:210 | the two stops agree exactly when the configured stop loss is at least 0.1 |
| ReplayLive.LowStopActsDifferently | control-api/app/signal_engine.py:210 | at a configured stop of 0.05 the replay leaves where the live bot holds |
| ReplayLive.SignalHasLast | control-api/app/backtest.py:217-221 | the forecast of a non-empty window always has a last price, that of a print at its latest moment |
| Topology.LetterRanges | control-api/app/topology.py:105-118 | the loop accepts exactly 1 ≤ n ≤ alphabet size and computes the ranges |
| Topology.RangesPartition | control-api/app/topology.py:105-118 | every letter lies in exactly one range, for any increasing alphabet |
| Topology.RangesEvenAndContiguous | control-api/app/topology.py:105-118 | sizes differ by at most one, larger first; neighbouring ranges leave no gap; the ends are the alphabet's ends |
| Topology.TwoShardsAreAMandNZ | control-api/app/topology.py:106-109 | two shards of A-Z are A-M and N-Z |
| Topology.ShardOfIffRange | control-api/app/topology.py:128-140 | a symbol belongs to shard i exactly when its first letter lies in range i; the fallback at the end is never taken |
| Topology.FirstLetterIs | control-api/app/topology.py:131-136 | the first letter is the one before which the symbol has none, in either case; there is one unless the symbol has no letter |
| Text.UpperLetters | control-api/app/topology.py:134-134 | small letters become their capitals, every other character stays |
| Topology.NoLeadingLetterIff | control-api/app/topology.py:131-136 | a symbol that starts with no letter belongs to the first shard exactly when it has no letter or its first letter lies in the first range |
| Topology.LeadingDigitElsewhere | control-api/app/topology.py:131-136 | such a symbol on another shard |
| Topology.EveryShardOwnsSomething | control-api/app/topology.py:128-140 | every shard owns some symbol |
| Topology.ServiceInjective | control-api/app/topology.py:87-90 | tier and shard are determined by the service name |
| Topology.ServiceExamples | control-api/app/topology.py:87-90 | the five names of shard 0, and a name with two digits |
| Topology.HealedServices | watchdog/topology.py:168-185 | shard counts outside 1 to 26 are rejected; otherwise the loops produce the per-shard services in order, then the gateway |
| Topology.HealedOrder | watchdog/topology.py:181-185 | no service is listed twice, and each tickerplant comes before its shard's dependents |
| Topology.DependencyIsOwnTickerplant | watchdog/runbooks.py:61-66 | a shard's wdb, rdb and idb depend on that shard's tickerplant; nothing else depends on anything |
| Topology.DependencyByPrefix | watchdog/runbooks.py:61-66 | for any name: wdb-, rdb- or idb- followed by anything depends on tp- followed by the same, and no other name depends on anything |
| Flap.PruneIsSuffix | watchdog/flap.py:29-32 | pruning keeps a suffix: everything dropped has left the window and the oldest kept is inside it |
| Flap.FlapTracker.PruneAt | watchdog/flap.py:29-32 | the pop loop computes the pruned history and touches nothing else |
| Flap.FlapTracker.RecordRestart | watchdog/flap.py:34-37 | the whole new tracker: the time appended, then pruned |
| Flap.FlapTracker.CountRestarts | watchdog/flap.py:39-42 | the count is of the pruned history, which is stored |
| Flap.FlapTracker.CheckFlapping | watchdog/flap.py:44-45 | flapping is a pruned count at or above the threshold |
| Flap.FlapTracker.StartCooldown | watchdog/flap.py:47-55 | the cooldown ends a duration after the clock reading; histories are kept |
| Flap.FlapTracker.CheckCooldown | watchdog/flap.py:57-67 | an expired cooldown is deleted together with the service's history; an active one changes nothing |
| WatchdogRuns.VisitEffect | watchdog/watchdog.py:81-126 | one visit does exactly one of nothing, one recorded restart, one escalation, and only to its own service |
| WatchdogVisit.VisitOutcome | watchdog/watchdog.py:81-126 | for every visit, from statuses, history and answers alone: which do nothing, wait for the tickerplant, escalate and for how long, or restart; the events of each, the status map after it, and when an exception ends the pass |
| WatchdogVisit.TryAttempts | watchdog/runbooks.py:106-115 | starts go on until one is read running, a call raises, or three have failed, after which the status is read once more |
| WatchdogVisit.VisitsInTurn | watchdog/watchdog.py:81-126 | a pass visits its services in turn, each in the state the one before left, up to the first that raises, or all of them |
| WatchdogRuns.EffectTracker | watchdog/watchdog.py:81-126 | what each of the three leaves in the service's history and cooldown |
| WatchdogRuns.VisitIsLocal | watchdog/watchdog.py:81-126 | a visit leaves every other service's history and cooldown alone |
| WatchdogRuns.VisitKeepsInv | watchdog/watchdog.py:81-126 | the inductive invariant: what the tracker no longer holds has left the window for good, pruned or wiped, an open cooldown outlasts every window with a restart, and any threshold + 1 restarts span more than a window |
| WatchdogRuns.RunKeepsInv | watchdog/watchdog.py:68-126 | the invariant over every run of passes |
| WatchdogRuns.CountIsExact | watchdog/flap.py:29-42 | under the invariant the pruned deque counts exactly the recorded restarts of the last window |
| WatchdogRuns.FlappingIsExact | watchdog/flap.py:39-45 | after every run, at any later moment, the count is that of the whole run's restarts in the last window, so flapping means exactly threshold or more of them |
| WatchdogRuns.RestartsBounded | watchdog/watchdog.py:68-126 | with cooldown > window no closed interval of length window holds more than threshold restarts of a service, in any run, across wipes |
| WatchdogRuns.StartsBounded | watchdog/runbooks.py:101-115 | hence at most three times threshold start calls from the restarts of one window |
| WatchdogLoop.PollsAreRun | watchdog/watchdog.py:136-148 | any sequence of polls of one list, complete or cut short, is a timed run |
| WatchdogBound.VisitKeepsPollInv | watchdog/watchdog.py:81-126 | the invariant with time between polls: restarts are a poll interval apart, and those before a wipe also a rest (the cooldown, at least one interval) |
| WatchdogBound.PollsStayBounded | watchdog/watchdog.py:136-148 | polls of any list without repeats keep the limit when threshold intervals and a rest outlast the window |
| WatchdogBound.ShortRestBreaks | watchdog/flap.py:63-67 | polls of the watchdog's own list, one interval apart, that break the limit whenever they do not |
| WatchdogBound.BoundIff | watchdog/flap.py:18-27 | the limit holds over all sequences of polls of the watchdog's own list, at least an interval apart, exactly when threshold intervals and a rest outlast the window |
| WatchdogBound.PollWithin | watchdog/watchdog.py:136-148 | under that condition the polling loop keeps the restart and start limits for every service and window |
| WatchdogEscalation.PersistentFailureEscalates | watchdog/runbooks.py:95-97 | a service failing on threshold + 1 visits inside one window has an escalation in the trace of those visits, whatever happens to others |
| WatchdogEscalation.CoolingIsSilent | watchdog/watchdog.py:84-85 | a cooling service is neither restarted, started nor escalated, and its history and cooldown stay |
| WatchdogEscalation.EscalationDuration | watchdog/runbooks.py:130-156 | the cooldown is six times longer exactly for an out-of-memory loop |
| WatchdogEscalation.EscalationSilences | watchdog/runbooks.py:130-164 | until the cooldown ends the trace gains only readings of the service, then the count is zero |
| WatchdogDependency.VisitRefreshes | watchdog/watchdog.py:124-126 | a visit that acts ends by reading the service back into the status map |
| WatchdogDependency.StartsNeedDependency | watchdog/runbooks.py:92-94 | no restart and no start while the tickerplant does not read running |
| WatchdogDependency.VisitKeepsOrder | watchdog/watchdog.py:81-126 | a visit keeps the dependency order, and the status map equal to the latest readings |
| WatchdogDependency.PassesKeepOrder | watchdog/watchdog.py:68-126 | over every run of passes each start of a dependent happens while its tickerplant's latest reading is running |
| WatchdogDependency.DownVisitRestarts | watchdog/watchdog.py:100-120 | a down service with its tickerplant up, no cooldown and room under the limit is restarted |
| WatchdogDependency.DependentRecoversInPass | watchdog/watchdog.py:68-77 | a dependent seen down is restarted in the same pass once its tickerplant reads running, unless cooling or flapping |
| WatchdogDependency.HealedListServesDependents | watchdog/topology.py:181-185 | the watchdog's own list puts every dependent after its tickerplant |
| WatchdogLoop.WatchdogProcess.TryToStart | watchdog/runbooks.py:106-115 | the retry loop does what the attempts function says: at most three starts, stopping at the first running status |
| WatchdogLoop.WatchdogProcess.RestartService | watchdog/runbooks.py:101-115 | record, then retry: the tracker, the calls made and whether one raised |
| WatchdogLoop.WatchdogProcess.EscalateService | watchdog/runbooks.py:130-156 | cooldown set, history counted, no start |
| WatchdogLoop.WatchdogProcess.RunRunbook | watchdog/runbooks.py:167-173 | the runbook for a signature does what the dispatch function says |
| WatchdogLoop.WatchdogProcess.ClassifyNow | watchdog/runbooks.py:69-97 | when each of the six signatures is given, signature by signature, and which branches read the tracker |
| WatchdogLoop.WatchdogProcess.CheckAndHeal | watchdog/watchdog.py:68-133 | one pass of the imperative loop equals the pass function on the observations it made, exceptions included |
| WatchdogLoop.PassIsRun | watchdog/watchdog.py:68-133 | a pass, complete or cut short, is a timed run of steps |
| WatchdogLoop.Poll | watchdog/watchdog.py:136-148 | any number of polls with sleeps: what happened is a sequence of polls at least an interval apart, dependency order holds, and with cooldown > window the restart limits hold for every service and window |
| Fleet.ControlPlane.CreateAgent | control-api/app/routers/fleet.py:45-65 | a new pending agent of the tenant, nothing else |
| Fleet.ControlPlane.EnqueueCommand | control-api/app/routers/fleet.py:68-85 | 400 for another action, 404 for another tenant's agent, else one queued command |
| Fleet.ControlPlane.Provision | control-api/app/routers/fleet.py:125-150 | 400 outside 1 to 26 shards or replicas below 1, 404 for another tenant's agent, else one queued command |
| Fleet.ControlPlane.Deprovision | control-api/app/routers/fleet.py:153-168 | 404 or one queued command |
| Fleet.ControlPlane.Enroll | control-api/app/routers/fleet.py:195-211 | a token enrolls its agent once; 404 and 409 otherwise, changing nothing |
| Fleet.ControlPlane.Heartbeat | control-api/app/routers/fleet.py:229-255 | let in exactly with the secret the agent enrolled with and while it is not revoked; 403 exactly for an enrolled revoked agent, 401 otherwise; then a duplicate-free choice of at most ten commands queued for that agent, fewer only when none is left, exactly those marked dispatched |
| Fleet.ControlPlane.ReportResult | control-api/app/routers/fleet.py:263-276 | the same door; then 404 for a command that is not the agent's, or an unconditional write of success or failure to that command and no other |
| Fleet.FleetAgent.Tick | fleet_agent/agent.py:64-81 | every command of the response is run and reported once, in order, with the outcome of its own action and result, whatever fails |
| Fleet.FleetAgent.Run | fleet_agent/agent.py:83-93 | every cycle is made, also after one whose heartbeat failed and which ran nothing; everything run over all cycles is reported once, in order |
| FleetTick.QueueIsRun | fleet_agent/agent.py:73-80 | running a process's queue is a run of the protocol that executes each command once, in order, and reports it |
| FleetTick.TickIsRun | fleet_agent/agent.py:64-81 | a cycle of the agent is the delivery of its response followed by one execution per command, with the outcomes the cycle computes |
| FleetProtocol.ServeHeartbeatInFlight | control-api/app/routers/fleet.py:240-255 | a heartbeat hands out only commands that are nowhere else |
| FleetProtocol.HandOutHistories | control-api/app/routers/fleet.py:243-251 | a command handed out had never been handed out or run before |
| FleetProtocol.StepKeepsInv | control-api/app/routers/fleet.py:195-276 | the inductive invariant over server, messages in flight and agents, for every step including losses and crashes |
| FleetProtocol.RunKeepsInv | control-api/app/routers/fleet.py:195-276 | the invariant on every interleaving |
| FleetProtocol.ForgeryIsRefused | control-api/app/routers/fleet.py:214-222 | a request under any secret but the agent's own, from anyone, leaves the whole system as it was |
| FleetProtocol.ForgeriesChangeNothing | control-api/app/routers/fleet.py:214-276 | a run with forged requests anywhere in it ends as the same run without them |
| FleetProtocol.RevokedStaysOut | control-api/app/routers/fleet.py:218-219 | from its revocation on an agent stays revoked and is handed no command, in any run |
| FleetProtocol.AtMostOnce | fleet_agent/agent.py:64-81 | each command is in at most one response and run at most once, by the agent it was queued for, in its tenant |
| FleetProtocol.FinalStatusIsTheOutcome | control-api/app/routers/fleet.py:272-276 | a final status is the outcome of the command's one execution |
| FleetProtocol.StepForward | control-api/app/routers/fleet.py:248-276 | each step moves a status one stage or not at all and changes nothing else of a command |
| FleetProtocol.StatusForward | control-api/app/routers/fleet.py:272-276 | from any reachable state statuses only move forward and final ones never change, though the endpoint writes unconditionally |
| FleetProtocol.LostStaysDispatched | control-api/app/routers/fleet.py:240-242 | a command lost on the way stays dispatched and is never sent or run again |
| ShardedQuery.GroupByShard | data-plane/feeds/feed_common.py:170-172 | the grouping loop: each stamp's rows in order, keys in first-seen order |
| ShardedQuery.ShardedPublisher.PublishRows | data-plane/feeds/feed_common.py:168-178 | each connection is sent exactly the rows stamped for it, in order; other stamps are dropped |
| ShardedQuery.PublishTwice | data-plane/feeds/feed_common.py:168-178 | publishing two batches is publishing their concatenation |
| ShardedQuery.StreamsReplayTheRows | data-plane/feeds/feed_common.py:168-178 | the shards' streams, drawn in stamp order, give the published rows back: none lost, duplicated or reordered within a shard |
| Universe.BuildUniverse | data-plane/feeds/feed_common.py:185-226 | file before argument before built-in list; an explicit group is never padded, the built-in list is cut or padded; the result holds those symbols and no other, each once, and is the very list when that repeats none |
| Universe.ParseJoin | data-plane/feeds/feed_common.py:198-204 | symbols in either case with white space around them are read back trimmed and in capitals: separated by commas in an argument or a file, or one on each line of a file |
| Universe.BlanksAreDropped | data-plane/feeds/feed_common.py:198-204 | parts of white space alone are not read |
| Universe.FirstOnlyDistinct | data-plane/feeds/feed_common.py:225-226 | no symbol is listed twice |
| Universe.SyntheticInjective | data-plane/feeds/feed_common.py:222-223 | no synthetic ticker is generated twice |
| Universe.SyntheticExamples | data-plane/feeds/feed_common.py:222-223 | the first ticker, and the first of the second round of the alphabet |
| Universe.FullSizeIff | data-plane/feeds/feed_common.py:221-226 | padding reaches the asked-for size exactly when the built-in list repeats nothing and holds none of the padding tickers |
| Universe.SpreadIsEven | data-plane/feeds/feed_common.py:211-222 | of any 26 padding tickers in a row every shard gets exactly as many as its range has letters |
| QueryText.ExtractSyms | control-api/app/query_router.py:42-51 | the loop over the clauses finds every token and cast the expressions match, or None |
| QueryText.WordCharacters | control-api/app/query_router.py:38-38 | the characters of a word and of a bare token, by their codes |
| QueryText.ReadIsReadable | control-api/app/query_router.py:35-39 | whatever the text, every symbol read is free of commas and of the word by, where clauses end |
| QueryText.TapeReadIff | web-ui/src/lib/tradingCore.js:25-38 | exactly the symbols of a list the platform writes are read back, exactly when none of them holds a comma or the word by |
| QueryText.TicksReadIff | control-api/app/query_router.py:35-51 | of a list of bare tokens, after = or in and after any text without such a clause, exactly its names are read, unless one of them holds the word by |
| QueryText.TapeAnswered | control-api/app/query_router.py:42-61 | rows published by owner, a list of such symbols written as text, and the shards read out of the text asked: the published rows of those symbols come back |
| QueryText.NeverLostIff | control-api/app/query_router.py:20-21 | from two shards on, a symbol's shard is asked in every pair it is the second of exactly when it holds no comma and no word by |
| QueryText.ByIsLost | control-api/app/query_router.py:35-37 | the ticker BY next to ZM: only the shard of ZM is asked |
| QueryText.ComputedFallsBackIff | control-api/app/query_router.py:43-46 | for a computed symbol list no symbol is read, so every shard is asked, exactly when no token and no cast stands anywhere in the expression |
| QueryText.NestedIsMisread | control-api/app/nl2q.py:82-82 | a query whose symbols come from an inner query: the status breach is read as the one symbol, and one shard of two is asked |
| QueryTargets.TodayHasNoDate | control-api/app/query_router.py:75-76 | the test for a date literal never decides: what is exactly today holds none |
| QueryTargets.DatedTier | control-api/app/query_router.py:72-113 | a query with one date clause goes to the tier of today exactly when the operator is = and the date, trimmed, is .z.d or .z.D; for every operator and spacing |
| QueryTargets.UndatedIsToday | control-api/app/query_router.py:107-108 | a query in which no date clause starts goes to the tier of today |
| QueryTargets.TwoDatesAreHistory | control-api/app/query_router.py:109-113 | a query whose first two date clauses these are goes to the history, whatever they say, even for today twice |
| QueryTargets.ShardTargets | control-api/app/routers/query.py:178-184 | the loop over tier and shards: no target is dropped for not being listed; an undated query asks the rdb processes |
| QueryTargets.TargetAskedIff | control-api/app/routers/query.py:178-184 | a process is asked exactly when it is of the query's tier and no symbol was read or its shard owns one that was |
| ShardedQuery.ConfidentMissesNothing | control-api/app/query_router.py:10-16 | if some symbol clause is spelled out, every selected row lies on an asked shard |
| ShardedQuery.SelectAppend | control-api/app/query_router.py:10-16 | a query keeps or leaves out each row by itself and keeps their order |
| ShardedQuery.NarrowingSafeIff | control-api/app/query_router.py:18-21 | for queries on symbols, no row can be missed exactly when some clause is spelled out, there is no literal, or the literals reach every shard |
| ShardedQuery.MixedListLosesRows | control-api/app/query_router.py:47-51 | a list of a literal and a computed symbol that loses a row |
| ShardedQuery.NarrowingKeepsAnswer | control-api/app/query_router.py:54-61 | the narrowed fan-out returns the full fan-out's rows as a multiset |
| ShardedQuery.PublishedThenQueried | control-api/app/query_router.py:10-16 | rows published by owner and asked through the router give exactly the published rows the query selects |
| ShardedQuery.PublishThenAsk | data-plane/feeds/feed_common.py:168-178 | the two programs in a row: a batch published after any others, then the picked shards asked; the answer is all published rows the query selects |
| ShardedQuery.OrderKeptIff | control-api/app/query_router.py:61-61 | the row order is that of the full fan-out, on all data, exactly up to ten shards |
| ShardedQuery.SwappedRows | control-api/app/query_router.py:61-61 | from eleven shards on, a query whose two rows come back swapped |
| QueryRows.ClampTwice | control-api/app/query_service.py:95-104 | clamping lands in 1..max, keeps limits already there, moves others to the nearer end, takes 1000 or the maximum for what is no number, and clamping again changes nothing |
| QueryRows.CapKeepsAnswer | control-api/app/query_service.py:192-201 | pushing limit + 1 into the query keeps rows, columns and truncated flag; the row count is cut at limit + 1 |
| QueryRows.RunQueryIsShape | control-api/app/query_service.py:250-267 | capped or not, the grid shows the first rows cell by cell, empty where a column is too short, and flags truncation exactly when more exist; the row count is the true one, cut at one beyond the limit for a capped query |
| QueryRows.CombineResults | control-api/app/query_service.py:270-310 | the nested loops with the early inner break: columns, rows, count and flag of the result; and where each row of each grid ends up, cell by cell under the column names |
| QueryRows.TotalRowsAdd | control-api/app/query_service.py:293-297 | the row count is the sum of the grids' counts |
| QueryRows.UnionColumnsIs | control-api/app/query_service.py:286-291 | the union repeats no column and holds exactly the grids' columns |
| QueryRows.UnionColumnsFlat | control-api/app/query_service.py:286-291 | taken grid by grid it is the union of all column lists at once |
| QueryRows.FirstSeenOrder | control-api/app/query_service.py:286-291 | columns are in first-seen order |
| QueryRows.AlignedProjectsBack | control-api/app/query_service.py:299-304 | an aligned row carries its target, projects back to its cells, and is empty in foreign columns |
| QueryRows.FederatedRowReadsBack | control-api/app/query_service.py:299-304 | so every federated row reads back, cell by cell, as the table row it came from |
| QueryRows.EarlyBreakKeepsRows | control-api/app/query_service.py:302-308 | for every limit not below zero the early break gives the first limit rows of the full aligned concatenation |
| QueryRows.FederatedIsSimple | control-api/app/query_service.py:250-310 | caps, federation and cut together give the rows and the flag of fetching everything, for limits from 0 to the maximum |
| QueryRows.ExactIff | control-api/app/routers/query.py:200-200 | that equality holds on all data exactly for 0 ≤ limit ≤ maximum |
| Brackets.IsBalanced | control-api/app/q_codegen.py:186-200 | the stack loop answers yes exactly for texts made of plain characters and of the pairs {}, [] and (), each around such a text |
| Brackets.BalancedIffDerivable | control-api/app/q_codegen.py:186-200 | soundness and completeness of the stack machine against the grammar |
| Brackets.DerivableIffBalanced | control-api/app/q_codegen.py:186-200 | the grammar of brackets alone and that of whole texts agree |
| Brackets.DerivationUnique | control-api/app/q_codegen.py:182-183 | a bracket text has at most one derivation |
| Brackets.CutIsSeenIff | control-api/app/q_codegen.py:187-191 | a balanced text cut short passes exactly when what is missing is itself balanced |
| Base32.GroupRoundTrip | control-api/app/licensing.py:83-83 | five bytes survive encoding to eight characters (section 6 of RFC 4648) |
| Base32.DecodeEncode | control-api/app/licensing.py:83-100 | decoding undoes encoding |
| Base32.DecodesWholeIff | control-api/app/licensing.py:97-104 | a text decodes to full length exactly when it is the one unpadded text that encodes those bytes |
| Base32.EncodesNumbers | control-api/app/licensing.py:83-83 | five bytes and their eight characters are the same number, most significant digit first in both, in the alphabet of RFC 4648; groups follow one another |
| Licensing.UnpackPack | control-api/app/licensing.py:80-81 | the packed payload unpacks to its fields |
| Licensing.MintedLayout | control-api/app/licensing.py:73-83 | byte by byte, what a minted key decodes to: version 1, edition number, issue and expiry day and flags high byte first, then the signature of those eight bytes |
| Licensing.MintsIff | control-api/app/licensing.py:73-83 | minting succeeds exactly for known editions and 16-bit days and flags |
| Licensing.WrittenNormalises | control-api/app/licensing.py:96-96 | a key written with dashes, spaces and either case is read as that key |
| Licensing.WritingIsIrrelevant | control-api/app/licensing.py:91-122 | so the verdict does not depend on how the key is written |
| Licensing.MintThenValidate | control-api/app/licensing.py:73-122 | a minted key, however written, is valid exactly up to its expiry day and reports edition, dates and exact days remaining |
| Licensing.TrialLastsThirtyDays | control-api/app/licensing.py:86-88 | a trial can be minted on any day up to 65505 and is valid through the thirtieth day after issue |
| Licensing.ValidIff | control-api/app/licensing.py:91-122 | the valid keys are exactly the signed texts of version-1 payloads not yet expired |
| Licensing.Reasons | control-api/app/licensing.py:91-122 | for every text and day, exactly when each reason is given, with nothing else reported before the dates are read |
| Licensing.ValidIsMintedIff | control-api/app/licensing.py:111-114 | a valid key could have been minted exactly when the edition byte of its payload is 0, 1 or 2 |
| Licensing.UnmintedEditionIsAccepted | control-api/app/licensing.py:114-122 | a key with edition number 7 that nothing mints and that validates, for every keyed hash |

## Left out

- Floating-point rounding, the values of `log`, `exp` and `sqrt`, volatility, horizons and confidence bands: arithmetic is exact and `log` is any function with the quotient law.
- HTTP routing, sessions, database transactions and isolation: two heartbeats of one agent are served one after the other, each in one transaction.
- Message duplication: a report or response is delivered once, late or never; the clients shown do not resend.
- The wording of logs, audit events, result details and payloads; a service's last reported status and timestamps.
- Fleet.FleetAgent.Run: the number of cycles is a parameter, because a loop without end has no postcondition; sleeping between its cycles is not modelled.
- WatchdogLoop.Poll: the number of polls is a parameter; with one thread the set of services in progress is always empty when it is tested, and visits of several threads are not modelled. The delay after a start is part of a visit and may be any length, since a start that raises has none.
- The HTTP health probe and the container and cluster orchestrators: each answers anything or raises.
- Broker routers, the volatility and feed checks before a trade, and order placement: an order is refused or fills at the reference price.
- Oms.SplitFill: split sizes are not negative, as a fill's are; negative quantities are not orders the platform accepts.
- QueryRows.CombineResults: where each row stands is said for limits that are not below zero; below zero the rows are those of the loop, cut from the end.
- WatchdogVisit.VisitOutcome: restart times are kept in order and none lies in the future, as every run keeps them (`WatchdogRuns.RunKeepsInv`).
- Forecast.ForecastIsEndToEnd: prices are positive, as for the drift of given bars.
- Forecast.DriftTelescopes: closes are positive; a close that is not positive is skipped or makes the original raise.
- Backtest.TradesDisjoint: the final trade at the end of the window is not ordered, because its exit time is the last print's and can precede its entry; the unread index of the replay loop is not modelled.
- ReplayLive.ReplaySimulatesLive: the bot passes over the symbol once at every decision point and reads the forecast of the same window; its own schedule and tape are not modelled. It must be able to act when the rules ask it to (tradable symbol, accepted order, budget for one share); `ReplayLive.SameActionIff` says this is exactly what is needed.
- Positions of a bot outside a manual basket after a change of mode are not claimed to be monitored.
- Symbols with letters outside A-Z and Unicode case rules; licence keys with characters outside ASCII.
- What query text means beyond its symbol and date clauses (`or`, `not`, grouping, aggregation): a query is a conjunction of symbol lists and arbitrary row tests, and a symbol list may hold computed terms. The regular expressions are modelled on ASCII text.
- QueryText.TapeReadIff: symbols are not empty and hold no quote or backtick, which no q literal of this form can.
- The test that a query reads a market table, the read-only deny list, query cost limits and targets that fail (their grids are simply not federated).
- Result shapes other than tables: vectors, dictionaries, keyed tables and scalars.
- Universe.BuildUniverse: the file's text is given; opening it, and letters outside ASCII, are not modelled.
- The tape and screening helpers, catalogs, rendering of compose and chart files, cost tables and profile defaults: they would add only easy members.
- Licensing.MintThenValidate: the keyed hash is any function to twelve bytes, so nothing is claimed about forging it; dates are day counts and environment policy is not modelled.
- Fences, labels and trailing prose around generated code; brackets inside string literals count, as they do in the original.
