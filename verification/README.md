# fx-strategy-lab: a verified model of its decision code

This project models, in Dafny, the parts of fx-strategy-lab whose answers people act on, and proves
what their documentation promises:

- **The exit-rule backtest.** Four simulators walk M1 bars and turn signals into trades: the reference
  simulator with optional stop and target, the common_R grid, the production replay and the bare
  30-minute exit A0. `ExitEngine` gives one first-touch specification of a walk and one greedy selection
  of trades; `Simulators` has the loops, each proved to produce exactly that; `InPrices` reads every attempt
  off the prices themselves; `PathLaws`, `SimulatorLaws`, `GridLaws` and `TimeoutLaws` relate the simulators
  to each other, `Causality` says what more data does to their lists, `HourlyAtr`, `Signals` and `Backtest`
  connect them to a frame of bars.
- **Its statistics.** `FalseDiscovery` (Benjamini-Hochberg), `PairedBootstrap` (stationary bootstrap and
  the two together), `Costs` (netting and durability), `Drawdown`, and `Rounding`.
- **The window-robustness verdict.** `Robustness`, over `Sorting`; `Summaries`, which says what a run's medians
  and counts are of; and `TradeStats`, which builds windows from trade lists.
- **The frozen-artifact chain.** `Json` (the canonical encoder, proved injective) and `JsonTexts` (what it
  writes), `Labels`, `Evidence`, `Profile`, `Manifest` and `Bundle`, with a complete instance in `BundleExample`.
- **Operation 60** (`Operation60`): a one-shot marker/result/halt protocol, with any number of
  processes and a death possible between any two steps.
- **The reviewed-files digest** (`ReviewedDigest`, over `Framing`), which some of its own inputs contain.

Prices and statistics are exact reals; minutes are integers. A NaN is `None`. A price path is normalised
to gains over the entry price, in which a BUY and a SELL read alike, so that mirror symmetry, the cost of
a spread and the effect of wider barriers all become statements about one kind of path.

The laws of the manifest, the profile and the bundle hold for every field table of the right kind, and
`SchemaIsTable` and `TablesQualify` show that the real tables are of that kind.

A hash is a parameter. No theorem assumes it injective, which no function with 64 hexadecimal digits of
output can be: each says that equal digests mean equal payloads *unless* the hash collides on the two
texts in question.

Six things the proofs found, each stated as a lemma:

- More data can take a reported trade out of a list (`TradesCanVanish`): an attempt the data leaves open is
  dropped, a later signal is traded in its place, and once the first one closes it blocks the other.
  `ListIsFinalIff` says exactly which lists are safe; A0, which keeps the cut-off trade, loses none.
- A draft manifest can be valid and yet impossible to complete, because rules across fields are skipped
  while a member is pending. `FreezableIffRoom` gives the exact condition, `SomeDraftsAreStuck` an instance.
- The manifest takes every string beginning with "PENDING" to be pending (but for "PENDING_ENTRY"), the profile
  only those beginning with "PENDING_". So a profile can be frozen that no manifest can name
  (`FrozenButNeverBundled`); `BundlableIff` says exactly which profiles can be bundled.
- An UNKNOWN result file does not by itself guarantee the halt: the writer can die between the two writes
  (`UnknownCanGoUnhalted`). Unless it still stands there, that is how it happened (`UnhaltedUnknownIsInterrupted`).
- A window without losses has no profit factor, which reads as 0; winning every trade can therefore cost a
  run its verdict (`WinningEveryTradeCanWorsen`), and `ImprovementWorsensIff` says exactly when. A baseline
  verdict can come with no reason at all (`BaselineCanGoUnexplained`), exactly when too few windows have an
  edge and nothing else is amiss -- on an odd number of windows, such as fifteen, it cannot where profit
  factors above 1 go with positive expectancies (`OddRunsAreExplained`).
- The digest framing is ambiguous wherever two raw files are neighbours and may hold NULs (`NulBreaksFraming`);
  NUL-free files are safe (`StreamDeterminesContents`), and `RawStreamPinsIff` gives the exact condition.

Every lemma has automatic induction switched off, so each inductive step is the one written in its body.
`dafny verify dfyconfig.toml` checks the whole project.

## Model

| member | source | states |
|---|---|---|
| Rounding.RoundHalfEven | backend/scripts/h11_exit_rule_backtest_re1.py:284-285 | the result is a nearest integer, and on a tie the even one |
| Rounding.RoundUnique | backend/scripts/h11_exit_rule_backtest_re1.py:284-285 | nearest with ties to even leaves exactly one possible result |
| Rounding.QuantizeLaws | backend/scripts/h11_exit_rule_backtest_re1.py:284-285 | quantising is monotone, odd, moves a price by at most 0.0005, onto whole thousandths, and keeps those |
| Rounding.DecimalLaws | backend/scripts/robustness_windows.py:126-127 | rounding to 4, 3 or 2 decimals moves by at most half a unit of the last place, onto whole units, and keeps whole units |
| ExitEngine.FirstExitIsFirstTouch | backend/scripts/h11_exit_rule_backtest_re1.py:323-342 | a walk has an exit iff it is the one of the earliest ending bar, and none iff no bar ends it; the stop wins ties and a passed deadline closes one bar earlier |
| ExitEngine.FirstExitWithinDeadline | backend/scripts/h11_exit_rule_backtest_re1.py:320-330 | the exit row lies in the data, at or after the entry, and not past the deadline |
| ExitEngine.GreedyIsDisjoint | backend/scripts/h11_exit_rule_backtest_re1.py:308-312 | selected trades are attempts, and each enters after every earlier one has exited |
| ExitEngine.GreedyIsMaximal | backend/scripts/h11_exit_rule_backtest_re1.py:308-312 | an attempt left out starts while a selected trade is open |
| Simulators.WalkRule | backend/scripts/h11_exit_rule_backtest.py:186-208 | the reference simulator's bar loop finds the first-touch exit, with or without barriers |
| Simulators.WalkBars | backend/scripts/h11_exit_rule_backtest_re1.py:321-342 | the grid's and the replay's bar loop finds the first-touch exit on the faces of its side |
| Simulators.TryRule | backend/scripts/h11_exit_rule_backtest.py:178-215 | one signal of the reference simulator yields its specified attempt |
| Simulators.TryA1 | backend/scripts/h11_exit_rule_backtest_re1.py:313-355 | one signal of the grid yields its specified attempt, with quantised barriers and clamp flags |
| Simulators.TryReplay | backend/scripts/h11_exit_rule_backtest_re1.py:377-418 | one signal of the replay yields its specified attempt, on the price faces of its side |
| Simulators.TryA0 | backend/scripts/h11_exit_rule_backtest_re1.py:434-456 | one signal of A0 yields its specified attempt, kept when the data runs out and dropped at zero rows |
| Simulators.Simulate | backend/scripts/h11_exit_rule_backtest.py:161-217 | the reported list is the greedy selection of the rule's attempts, each less 0.5 pip |
| Simulators.SimulateA1 | backend/scripts/h11_exit_rule_backtest_re1.py:298-357 | the trades are the greedy selection of the grid candidate's attempts |
| Simulators.SimulateProdReplay | backend/scripts/h11_exit_rule_backtest_re1.py:360-420 | a non-positive timeout is refused; otherwise the trades are the greedy selection of the replay's attempts |
| Simulators.SimulateA0 | backend/scripts/h11_exit_rule_backtest_re1.py:423-458 | the trades are the greedy selection of the bare 30-minute attempts, truncated ones kept and zero-row ones dropped |
| InPrices.ReferenceInPrices | backend/scripts/h11_exit_rule_backtest.py:176-215 | in prices, for a BUY and a SELL apart: the first bar past the deadline, at m ATR against or m*r ATR in favour of the entry closes the signal, in that order, for the pips written out |
| InPrices.RuleBarriersInPrices | backend/scripts/h11_exit_rule_backtest.py:178-184 | whatever the multiples, the levels of a rule lie m ATR against and m*r ATR in favour of the entry |
| InPrices.GridInPrices | backend/scripts/h11_exit_rule_backtest_re1.py:298-357 | the same for the grid: levels on the tick grid at multiples of an ATR held between 3.75 and 20/1.2 pips, thirty minutes, the clamp flags, and the ASK face each side transacts on |
| InPrices.ReplayInPrices | backend/scripts/h11_exit_rule_backtest_re1.py:360-420 | the same for the replay: 1.5 ATR against, 2.25 in favour |
| InPrices.TimedRuleInPrices | backend/scripts/h11_exit_rule_backtest.py:186-200 | a rule without a stop closes on the last bar in time, and only once a later bar is late |
| InPrices.A0InPrices | backend/scripts/h11_exit_rule_backtest_re1.py:430-456 | A0 closes on the last bar of thirty minutes, the last bar of the data included, and takes nothing that ends on its entry row |
| InPrices.OutcomeIsUnique | backend/scripts/h11_exit_rule_backtest_re1.py:320-356 | at most one outcome fits, so these are all there is to an attempt |
| InPrices.SpreadShiftsPath | backend/scripts/h11_exit_rule_backtest_re1.py:136-175 | on BID/ASK prices a SELL path is the LEGACY one less each bar's closing spread, at close, best and worst; a BUY path less its entry spread |
| InPrices.ReportsAreAttempts | backend/scripts/h11_exit_rule_backtest.py:209-215 | each report is of a selected attempt, half a pip taken off |
| SimulatorLaws.SelectionIsOneAtATime | backend/scripts/h11_exit_rule_backtest_re1.py:308-356 | selection holds one position at a time and passes over a closing attempt only for an open position |
| SimulatorLaws.ReferenceHoldsOneAtATime | backend/scripts/h11_exit_rule_backtest.py:161-217 | on increasing rows and minutes the reference trades are disjoint, maximal, and held no longer than the timeout |
| SimulatorLaws.GridHoldsOneAtATime | backend/scripts/h11_exit_rule_backtest_re1.py:298-357 | the same for the grid, within 30 minutes |
| SimulatorLaws.ReplayHoldsOneAtATime | backend/scripts/h11_exit_rule_backtest_re1.py:360-420 | the same for the replay, within its timeout |
| SimulatorLaws.A0HoldsOneAtATime | backend/scripts/h11_exit_rule_backtest_re1.py:423-458 | the same for A0, within 30 minutes |
| SimulatorLaws.AttemptsAreFirstTouches | backend/scripts/h11_exit_rule_backtest_re1.py:298-420 | reference, grid and replay attempts all close at the declarative first touch of their own barriers |
| SimulatorLaws.ReplayIsReferenceRule | backend/scripts/h11_exit_rule_backtest_re1.py:360-420 | in LEGACY mode the replay with timeout T takes the trades of the reference rule (1.5, 1.5, T) |
| SimulatorLaws.GreedyCommutes | backend/scripts/h11_exit_rule_backtest_re1.py:308-356 | selection commutes with any change of trades that keeps their rows |
| SimulatorLaws.ReferenceMirrors | backend/scripts/h11_exit_rule_backtest.py:161-217 | negated prices and flipped sides leave the whole reference report unchanged |
| SimulatorLaws.GridMirrors | backend/scripts/h11_exit_rule_backtest_re1.py:298-357 | in LEGACY mode they leave the grid's trades unchanged but for the side, quantisation included |
| SimulatorLaws.SpreadNeverHelps | backend/scripts/h11_exit_rule_backtest_re1.py:136-175 | at one signal, BID/ASK replay pips are at most LEGACY pips where both close; BID/ASK alone stays open only where LEGACY reached its target |
| SimulatorLaws.A0PaysOneSpread | backend/scripts/h11_exit_rule_backtest_re1.py:423-458 | both modes of A0 take the same rows and differ by one spread per trade, at entry for BUY and at exit for SELL |
| Causality.TradesAreReturned | backend/scripts/h11_exit_rule_backtest_re1.py:298-420 | for reference, grid and replay alike, the list spoken of here is the one the simulator's loop returns |
| Causality.AttemptIsFinal | backend/scripts/h11_exit_rule_backtest_re1.py:321-342 | an attempt closed on the first rows of a frame is closed the same way on all of it |
| Causality.SettledTradesStay | backend/scripts/h11_exit_rule_backtest_re1.py:308-356 | whatever comes later, the trades before the first signal free to trade and still open begin both lists |
| Causality.ListSurvivesIff | backend/scripts/h11_exit_rule_backtest_re1.py:308-356 | a list begins the list of a given continuation iff it holds nothing after the first open signal that the continuation closes |
| Causality.ListIsFinalIff | backend/scripts/h11_exit_rule_backtest_re1.py:308-356 | a list begins the list of every continuation iff it holds nothing after the first signal free to trade and still open |
| Causality.TradesCanVanish | backend/scripts/h11_exit_rule_backtest.py:178-215 | otherwise a trade can go: on three bars the reference list is one SELL, on four it is the BUY that was open, and not the SELL |
| Causality.BareListIsFinalButLast | backend/scripts/h11_exit_rule_backtest_re1.py:423-458 | A0, which reports a trade cut off by the data, loses none: all but a last trade ending on the last row begins every continued list |
| PathLaws.GainWithinBarriers | backend/scripts/h11_exit_rule_backtest_re1.py:323-342 | unless the deadline passes at once, a walk on bars that bracket their close ends between stop and target |
| PathLaws.HarderNeverEndsBetter | backend/scripts/h11_exit_rule_backtest_re1.py:386-405 | a path stopped wherever another is, and reaching its target only where that one does, ends better by at most the slack of its barriers |
| PathLaws.DominatedNeverEndsBetter | backend/scripts/h11_exit_rule_backtest_re1.py:386-405 | between the same barriers, a path nowhere better never ends better, and fails to end only where the other hit its target |
| PathLaws.WiderNeverEndsEarlier | backend/scripts/h11_exit_rule_backtest_re1.py:323-342 | wider barriers never end a walk earlier, and if they end it so do the narrower |
| PathLaws.StopFirstIsConservative | backend/scripts/h11_exit_rule_backtest.py:15-16 | stop-first and target-first exit on the same row, stop-first never pays more, and pays less exactly on a deciding double touch |
| PathLaws.ExitsAreFinal | backend/scripts/h11_exit_rule_backtest_re1.py:323-342 | more bars never change an exit already found |
| GridLaws.CommonRWithinClamp | backend/scripts/h11_exit_rule_backtest_re1.py:288-295 | common_R lies in its clamp, at most one flag is raised, and none exactly when the raw ATR already fits |
| GridLaws.CommonRIsNearest | backend/scripts/h11_exit_rule_backtest_re1.py:288-295 | common_R is the point of [3.75, 20/1.2] pips nearest to the ATR, floor-clamped iff the ATR is under 3.75 pips and cap-clamped iff it is over 20/1.2 |
| GridLaws.CommonRGrows | backend/scripts/h11_exit_rule_backtest_re1.py:288-295 | a larger ATR never gives a smaller common_R |
| GridLaws.RegisteredDistances | backend/scripts/h11_exit_rule_backtest_re1.py:74-81 | every registered stop is 3 to 20 pips away whatever the ATR, and the target ignores the stop multiple |
| GridLaws.RegisteredBarriers | backend/scripts/h11_exit_rule_backtest_re1.py:315-319 | quantised barriers stay on their sides of the entry, within half a tick of the plain distances |
| GridLaws.GridTradeIsBounded | backend/scripts/h11_exit_rule_backtest_re1.py:298-357 | every grid trade earns between its quantised stop and target, so -20.05 to 33.39 pips; a zero-row holding pays exactly the spread |
| GridLaws.WideningNeverExitsEarlier | backend/scripts/h11_exit_rule_backtest_re1.py:298-357 | a candidate with wider multiples never exits a signal earlier, and closes it only if the narrower does |
| GridLaws.GridStopFirstIsConservative | backend/scripts/h11_exit_rule_backtest_re1.py:305 | for every registered candidate, stop-first against target-first, with the exact case of a difference |
| GridLaws.GridSpreadHelpsAtMostATick | backend/scripts/h11_exit_rule_backtest_re1.py:136-175 | on the grid, BID/ASK pips exceed LEGACY pips by at most one tick of rounding, never for a SELL and never where rounding moves no barrier in favour |
| TimeoutLaws.A0IsTheThirtyMinuteRule | backend/scripts/h11_exit_rule_backtest_re1.py:423-458 | A0 takes the reference 30-minute trades without zero holds, 0.5 pip put back, then at most one trade ending on the last bar |
| TimeoutLaws.SelectionsMatch | backend/scripts/h11_exit_rule_backtest.py:161-217 | the induction behind it, over every pair of attempt lists that match signal by signal |
| HourlyAtr.HourlyIsGrouped | backend/scripts/h11_exit_rule_backtest_re1.py:236-243 | one group per hour with bars, in order, each with that hour's highest high, lowest low, last close and count |
| HourlyAtr.CompleteHoursAreHours | backend/scripts/h11_exit_rule_backtest_re1.py:240-243 | the complete hours are, in order, the hours with at least 55 bars |
| HourlyAtr.SummaryBounds | backend/scripts/h11_exit_rule_backtest_re1.py:240-242 | a group's high and low bound its bars and are attained |
| HourlyAtr.TrueRangeIsSpan | backend/scripts/h11_exit_rule_backtest_re1.py:244-252 | the true range is the span of the hour's range and the previous complete close, of the range alone in the first hour |
| HourlyAtr.AtrBetweenRanges | backend/scripts/h11_exit_rule_backtest_re1.py:253 | an ATR lies between any bounds on its 24 true ranges |
| HourlyAtr.WindowSlides | backend/scripts/h11_exit_rule_backtest_re1.py:253 | from one complete hour to the next, 24 times the ATR moves by the true range gained less the one lost |
| HourlyAtr.AtrSlides | backend/scripts/h11_exit_rule_backtest_re1.py:253-258 | the same of the ATR column the bars of two successive hours get |
| HourlyAtr.AtrFromEarlierBars | backend/scripts/h11_exit_rule_backtest_re1.py:254-258 | the value an hour's bars get is that computed from the bars before the hour alone |
| HourlyAtr.NoLookAhead | backend/scripts/h11_exit_rule_backtest_re1.py:236-258 | frames that agree before an hour give every bar of that hour the same ATR |
| HourlyAtr.AtrExistsIff | backend/scripts/h11_exit_rule_backtest_re1.py:243-258 | a value exists iff the hour before has at least 55 bars and there are at least 24 complete hours up to it |
| HourlyAtr.AtrIsNonNegative | backend/scripts/h11_exit_rule_backtest_re1.py:244-253 | bars with low at most high give a non-negative ATR |
| Signals.SignalRows | backend/scripts/h11_exit_rule_backtest_re1.py:261-281 | exactly the rows on a full or half hour from 09:00 to 04:59, Monday to Friday in Japan, with an ATR and a probability of at least 0.58 for BUY or at most 0.42 for SELL, in increasing order |
| Signals.JstClock | backend/scripts/h11_exit_rule_backtest_re1.py:264-266 | the shifted UTC hour is the hour of the Japanese clock that decides the weekday |
| Backtest.AtrIsCausal | backend/scripts/h11_exit_rule_backtest_re1.py:236-258 | the ATR column of a frame's first rows is the start of the frame's ATR column |
| Backtest.BacktestIsCausal | backend/scripts/h11_exit_rule_backtest_re1.py:236-420 | on a frame, ATR included: the first n bars' trades before their first open signal begin the whole history's list, and their whole list does iff it holds nothing after an open signal the history closes |
| Backtest.SpreadNeverHelpsOnFrame | backend/scripts/h11_exit_rule_backtest_re1.py:589-613 | on any well-formed frame with ASK at or above BID the replay never gains from the spread |
| Drawdown.DrawdownIsWorstFall | backend/scripts/h11_exit_rule_backtest.py:225-226 | the drawdown is the least, over the stretches of trades after some trade, of what the stretch earned in yen, and some stretch attains it |
| Sorting.SortSorts | backend/scripts/h11_exit_rule_backtest_re1.py:523 | sorting by a key orders the items and keeps them all |
| Sorting.RankedAtMost | backend/scripts/h11_exit_rule_backtest_re1.py:523 | the j-th smallest key is at most t iff at least j keys are |
| Sorting.CountOfPermutation | backend/scripts/h11_exit_rule_backtest_re1.py:523 | counting keys under a threshold sees only the multiset |
| FalseDiscovery.BenjaminiHochberg | backend/scripts/h11_exit_rule_backtest_re1.py:522-532 | a name survives iff for some rank r its p-value and at least r p-values in all satisfy p * m <= r * q |
| FalseDiscovery.EqualsAreJudgedByTheRate | backend/scripts/h11_exit_rule_backtest_re1.py:522-532 | m equal p-values survive iff they are at most q |
| FalseDiscovery.LoneValueIsJudgedAtRankOne | backend/scripts/h11_exit_rule_backtest_re1.py:522-532 | one p-value among others above q survives iff m times it is at most q |
| FalseDiscovery.LargestRank | backend/scripts/h11_exit_rule_backtest_re1.py:526-529 | the rank found admits that many names, and no larger one does |
| FalseDiscovery.SurvivorsNumberK | backend/scripts/h11_exit_rule_backtest_re1.py:526-531 | exactly k p-values lie within the threshold of the surviving rank k |
| FalseDiscovery.RankSurvivesIff | backend/scripts/h11_exit_rule_backtest_re1.py:530-531 | a sorted rank is at most k iff its p-value survives, so equal p-values are never split |
| FalseDiscovery.OrderDoesNotMatter | backend/scripts/h11_exit_rule_backtest_re1.py:522-532 | permuting the dictionary changes no outcome |
| FalseDiscovery.LoweringKeepsSurvivors | backend/scripts/h11_exit_rule_backtest_re1.py:522-532 | lowering p-values removes no survivor |
| PairedBootstrap.StationaryBootstrapIndices | backend/scripts/h11_exit_rule_backtest_re1.py:479-492 | the filled array and the generator's new position are the specified resample |
| PairedBootstrap.Resample | backend/scripts/h11_exit_rule_backtest_re1.py:485-491 | a resample has the asked length and stays within the days |
| PairedBootstrap.BlocksAreCircularRuns | backend/scripts/h11_exit_rule_backtest_re1.py:487-491 | between jumps, a resample is a run of consecutive days around the circle |
| PairedBootstrap.FirstDayIsDrawn | backend/scripts/h11_exit_rule_backtest_re1.py:486 | the first day is the first integer drawn |
| PairedBootstrap.JumpLandsOnDraw | backend/scripts/h11_exit_rule_backtest_re1.py:487-491 | each day draws one uniform; below 1/L the day is the integer drawn right after it, otherwise the next day around the circle, and nothing more is drawn |
| PairedBootstrap.EveryListIsAResample | backend/scripts/h11_exit_rule_backtest_re1.py:485-492 | every list of n days is the resample of some draws |
| PairedBootstrap.ResamplesFollowOn | backend/scripts/h11_exit_rule_backtest_re1.py:508-511 | each mean is that of a resample of its own, begun where the one before stopped drawing |
| PairedBootstrap.MeanOfOneRaised | backend/scripts/h11_exit_rule_backtest_re1.py:511 | raising one day by x raises n times the mean by x for each time that day was drawn |
| PairedBootstrap.OneSidedPValue | backend/scripts/h11_exit_rule_backtest_re1.py:495-519 | the loop over resamples computes the specified p-value |
| PairedBootstrap.PValueIsShareNonPositive | backend/scripts/h11_exit_rule_backtest_re1.py:500-512 | it lies in [0, 1], is 1 iff no mean is positive, 0 iff all are, and 1 on no days |
| PairedBootstrap.PValueCounts | backend/scripts/h11_exit_rule_backtest_re1.py:512 | it is the number of means at or below zero over the number of resamples |
| PairedBootstrap.ConstantAdvantage | backend/scripts/h11_exit_rule_backtest_re1.py:508-512 | a constant daily advantage has p-value 0, a constant non-advantage 1 |
| PairedBootstrap.RaisingNeverRaisesPValue | backend/scripts/h11_exit_rule_backtest_re1.py:495-519 | raising daily deltas on the same days and seed never raises the p-value |
| PairedBootstrap.RaisingKeepsSurvivors | backend/scripts/h11_exit_rule_backtest_re1.py:774-794 | raising any candidates' deltas removes no candidate from the FDR survivors |
| Costs.NetPipsByDay | backend/scripts/h11_exit_rule_backtest_re1.py:468-476 | each day holds the net of its own trades, and the days add up to the net of all trades |
| Costs.NetOfOne | backend/scripts/h11_exit_rule_backtest_re1.py:461-475 | one trade nets its pips less the fixed cost, or under C5 less 1.5 pips at the stress hours and 1 otherwise, on its entry day alone |
| Costs.NetsAdd | backend/scripts/h11_exit_rule_backtest_re1.py:468-476 | the nets of a list put together add up |
| Costs.StressNetIsBetween | backend/scripts/h11_exit_rule_backtest_re1.py:86-104 | net(C2) <= net(C5) <= net(C1b), and C5 costs exactly half a pip per stress-hour exit |
| Costs.DurabilityIsBreakEven | backend/scripts/h11_exit_rule_backtest_re1.py:535-548 | Robust iff break-even exceeds the high cost, Reject iff it is at most the low cost or there are no trades |
| Robustness.ClassifyStrategy | backend/scripts/fx_eval_common.py:180-234 | keep iff all eight criteria hold, retire iff a core one fails whatever the others say; the reasons are the failed criteria, each once, and empty iff only the edge criterion fails |
| Robustness.VerdictByCriteria | backend/scripts/fx_eval_common.py:203-234 | the verdict depends on the criteria alone: all eight for keeping, the three core ones for retiring |
| Robustness.CriteriaInFigures | backend/scripts/fx_eval_common.py:198-230 | the criteria and the reasons in the summary's own figures |
| Robustness.UnexplainedIffOnlyEdgeFails | backend/scripts/fx_eval_common.py:203-234 | a verdict has no reason iff only the edge-window criterion fails, and is then the baseline |
| Robustness.OddRunsAreExplained | backend/scripts/rsi_final_15window.py:201-248 | on an odd number of windows, where a profit factor above 1 goes with a positive expectancy, every verdict has a reason |
| Summaries.CountsAreCardinalities | backend/scripts/robustness_windows.py:128-132 | the windows counted are those with a positive expectancy, and those that also have a profit factor above 1 |
| Summaries.ExpectancyIsMidway | backend/scripts/robustness_windows.py:126 | the median expectancy is the rounded midpoint of the least value at least half the windows do not exceed and the least more than half do not |
| Summaries.FactorIsMidway | backend/scripts/robustness_windows.py:127 | the same of profit factors, a missing one read as zero |
| Summaries.PeriodIsMidway | backend/scripts/rsi_final_15window.py:205-217 | the same of each period, by its own windows alone, and zero where it has none |
| Summaries.TotalIsRounded | backend/scripts/rsi_final_15window.py:231-233 | the total is that of all windows, to within half a hundredth |
| Robustness.OrderStatisticGrows | backend/scripts/robustness_windows.py:126-127 | every order statistic of pointwise higher values is higher |
| Robustness.RoundedMedianGrows | backend/scripts/robustness_windows.py:126-127 | so is the rounded median, 0 on no windows |
| Robustness.ImprovementNeverWorsens | backend/scripts/rsi_final_15window.py:201-248 | improving every window, concentration fixed, never worsens the verdict |
| Robustness.PositiveMedianMeansMajority | backend/scripts/robustness_windows.py:126-128 | a positive rounded median puts half the windows above zero, more than half when their number is odd |
| Robustness.KeepingNeedsBothPeriods | backend/scripts/fx_eval_common.py:192-214 | a kept strategy has windows of both periods and an edge in most |
| Robustness.ImprovementWorsensIff | backend/scripts/robustness_windows.py:122 | with a missing profit factor counted as the best one, improving every window worsens the verdict iff a kept strategy is left with a median factor of at most 1 or no edge majority, and only where some window lost its factor |
| TradeStats.ExpectancyIsMean | backend/app/services/performance_service.py:57-76 | win rate times average win less loss rate times average loss is the mean profit per trade |
| TradeStats.NoFactorIffNoLoss | backend/app/services/performance_service.py:58-78 | a window has no profit factor iff none of its trades lost |
| TradeStats.FactorIsRatio | backend/app/services/performance_service.py:76-78 | with a loss, the profit factor is gross profit over gross loss to three decimals |
| TradeStats.FactorMeansProfit | backend/app/services/performance_service.py:76-78 | a profit factor above 1 goes with a profit, and with a positive expectancy unless rounding loses it |
| TradeStats.WinningEveryTradeCanWorsen | backend/app/services/performance_service.py:26-87 | from trade lists: turning every loss into a win takes a kept run to the baseline |
| TradeStats.BaselineCanGoUnexplained | backend/app/services/performance_service.py:26-87 | from trade lists: a run of two windows with a baseline verdict and no reason |
| Robustness.MaxConsecutiveLosses | backend/scripts/robustness_windows.py:94-100 | the result is the most losses in any stretch without a win, and some stretch attains it |
| Robustness.LossesIsNumber | backend/scripts/robustness_windows.py:94-100 | the losses of a stretch are its trades below zero, counted one by one |
| Json.EncodingIsInjective | backend/scripts/h11_auto_generation_manifest.py:415-425 | the canonical text determines the value |
| Json.EncodingsParse | backend/scripts/h11_auto_generation_manifest.py:418-424 | a delimited encoding determines its value and the rest of the text |
| Json.EscapesParse | backend/scripts/h11_auto_generation_manifest.py:418-424 | no escape is a prefix of another, with or without ASCII-only output |
| JsonTexts.StringText | backend/scripts/h11_auto_generation_manifest.py:418-424 | a string is the escapes of its characters between quotes |
| JsonTexts.SurrogatePairs | backend/h11_v4_reviewed_digest.py:278 | in ASCII text a character beyond the basic plane is the surrogate pair that decodes to it |
| JsonTexts.ArrayText | backend/scripts/h11_auto_generation_manifest.py:418-424 | an array is its items' texts between brackets, commas between them, no blanks |
| JsonTexts.ObjectText | backend/scripts/h11_auto_generation_manifest.py:418-424 | an object is key, colon, value between braces, keys strictly ascending, commas between them, no blanks |
| JsonTexts.DigitsRead | backend/scripts/h11_auto_generation_manifest.py:418-424 | a number is written in decimal, without leading zeros |
| Json.Sorted | backend/scripts/h11_auto_generation_manifest.py:422 | the keys of an object, each once, in ascending code-point order |
| Labels.DigestPins | backend/scripts/h11_auto_profile_freeze.py:100-108 | equal digests mean equal payloads, or a collision on their two texts |
| Evidence.Classify | backend/scripts/h11_auto_profile_acceptance.py:176-226 | verdict as specified, blocking codes exactly the rejecting and open ones, and none iff ACCEPT |
| Evidence.VerdictInAnswers | backend/scripts/h11_auto_profile_acceptance.py:176-226 | which answers make ACCEPT and which make REJECT, question by question |
| Evidence.RecordSays | backend/scripts/h11_auto_profile_acceptance.py:138-174 | a record evaluated at all has its schema, a label, and at most 32 distinct references, without which nothing is accepted |
| Evidence.VerdictIsExact | backend/scripts/h11_auto_profile_acceptance.py:138-233 | REJECT iff no settling of open answers is accepted; every settling keeps ACCEPT; a follow-up has an accepting one |
| Profile.ProfilePinsEvidence | backend/scripts/h11_auto_profile_freeze.py:196-203 | records that bind the same frozen profile are equal, or collide |
| Profile.BoundProfileSays | backend/scripts/h11_auto_profile_freeze.py:111-193 | a bound profile, draft or frozen, names the record's label and has labels that are labels and no safety flag set |
| Profile.FrozenProfileSays | backend/scripts/h11_auto_profile_freeze.py:196-227 | a frozen one also claims every capability, names the evidence by digest and references, and holds nothing pending |
| Manifest.FrozenIffDraftAndSettled | backend/scripts/h11_auto_generation_manifest.py:266-412 | frozen-valid iff the draft twin is valid and no field is pending |
| Manifest.KindsAccept | backend/scripts/h11_auto_generation_manifest.py:195-253 | what a field accepts, kind by kind; a pending value is for drafts alone |
| Manifest.FractionIsDecimal | backend/scripts/h11_auto_generation_manifest.py:234-247 | the digits after the point are worth the number they spell over the power of ten of their length |
| Manifest.BlankingLeavesDraft | backend/scripts/h11_auto_generation_manifest.py:195-253 | making any fields of a frozen manifest pending leaves a valid draft |
| Manifest.FreezableIffRoom | backend/scripts/h11_auto_generation_manifest.py:295-381 | a valid draft can be completed iff its settled thresholds, limits and maximum age leave room |
| Manifest.SomeDraftsAreStuck | backend/scripts/h11_auto_generation_manifest.py:327-332 | 2 per trade and 1 per month with the day pending is a valid draft with no completion |
| Manifest.FrozenForProfile | backend/scripts/h11_auto_generation_manifest.py:334-340 | some frozen manifest names any given settled label, digest and entry style |
| Manifest.SchemaIsTable | backend/scripts/h11_auto_generation_manifest.py:53-178 | the real field table is one the laws apply to: identity names apart, cross-rule fields typed, one account mode, arming flags false |
| Bundle.ManifestPinsBundle | backend/scripts/h11_auto_artifact_bundle_verify.py:76-131 | bundles that verify against one manifest have the same profile and evidence, absent a collision |
| Bundle.BundleDigestPinsArtifacts | backend/scripts/h11_auto_artifact_bundle_verify.py:115-131 | equal bundle digests mean the same three artifacts, absent a collision |
| Bundle.VerificationReports | backend/scripts/h11_auto_artifact_bundle_verify.py:115-131 | a verification reports the labels, style and digests of its own artifacts |
| Bundle.VerifiedBundleIsBacked | backend/scripts/h11_auto_artifact_bundle_verify.py:94-113 | a verified bundle's entry style is confirmed by the evidence, its account dedicated, its evidence accepted, nothing in its profile pending, and no arming flag of its manifest set |
| Bundle.BundlableIff | backend/scripts/h11_auto_artifact_bundle_verify.py:76-113 | a profile and its evidence fit some verified bundle iff they bind, the profile claims a dedicated account, and its label is not one the manifest takes to be pending |
| BundleExample.SomeBundleVerifies | backend/scripts/h11_auto_artifact_bundle_verify.py:76-131 | under any hash that answers in hexadecimal, some three artifacts verify against the real tables |
| BundleExample.FrozenButNeverBundled | backend/scripts/h11_auto_profile_freeze.py:83-91 | a profile labelled PENDINGS freezes, bound to accepted evidence and on a dedicated account, and no manifest verifies with it |
| BundleExample.RecordIsAccepted | backend/scripts/h11_auto_profile_acceptance.py:138-233 | a complete record with favourable answers is accepted |
| Bundle.TablesQualify | backend/scripts/h11_auto_generation_manifest.py:53-178 | the real tables are among those the bundle laws cover |
| Operation60.StepKeepsInv | backend/scripts/h11_auto_v4_g075_operation_60_no_post.py:34-97 | every step of every process, every death and every outside halt keeps the protocol invariant |
| Operation60.RunKeepsInv | backend/scripts/h11_auto_v4_g075_operation_60_no_post.py:34-97 | so it holds throughout every run |
| Operation60.InstallerRunsAtMostOnce | backend/scripts/h11_auto_v4_g075_operation_60_no_post.py:46-51 | over any runs the installer is called at most once, a result implies a marker, the result refusal is unreachable, and one process at most is past the start |
| Operation60.PassedIsEarned | backend/scripts/h11_auto_v4_g075_operation_60_no_post.py:50-57 | PASSED was preceded by a successful readiness check after an installer within its limit |
| Operation60.UnknownHalts | backend/scripts/h11_auto_v4_g075_operation_60_no_post.py:75-78 | a process that returns UNKNOWN has engaged the halt, and returns what the result file says |
| Operation60.UnhaltedUnknownIsInterrupted | backend/scripts/h11_auto_v4_g075_operation_60_no_post.py:75-77 | an UNKNOWN result without a halt means its writer reached the moment between the two writes and has stood there, or been dead, ever since |
| Operation60.UnknownCanGoUnhalted | backend/scripts/h11_auto_v4_g075_operation_60_no_post.py:75-77 | that death is reachable |
| Operation60.ExclusiveStart | backend/scripts/h11_auto_v4_g075_operation_60_no_post.py:81-97 | refused iff the marker exists, touching nothing; otherwise the marker is written |
| Operation60.AwaitReadiness | backend/scripts/h11_auto_v4_g075_operation_60_no_post.py:53-58 | the polling loop ends whenever each sleep advances the clock, within a bounded number of checks; PASSED iff some check is confirmed, every earlier one asks again, and each clock reading before them is within the limit |
| Operation60.InstallAndAwait | backend/scripts/h11_auto_v4_g075_operation_60_no_post.py:49-60 | the installer is called once; PASSED iff it returns in time without raising and some readiness check in time confirms, UNKNOWN otherwise |
| Operation60.Publish | backend/scripts/h11_auto_v4_g075_operation_60_no_post.py:61-78 | an existing result is refused; otherwise the outcome is written and UNKNOWN halts |
| Operation60.RunOperation60Candidate | backend/scripts/h11_auto_v4_g075_operation_60_no_post.py:34-78 | one run takes only steps of the protocol, with the files, outcome and call counts stated; it passes iff nothing stood in its way, the installer returned in time and a check in time confirmed |
| ReviewedDigest.NormalizePayload | backend/h11_v4_reviewed_digest.py:275-277 | the loop blanks exactly the binding fields that are present |
| ReviewedDigest.ReadContent | backend/h11_v4_reviewed_digest.py:269-280 | the content tells a file exactly up to its binding fields, an artifact's is free of NULs, and the only error is an artifact that is no object |
| ReviewedDigest.ComputeReviewedFilesDigest | backend/h11_v4_reviewed_digest.py:260-283 | the loop hashes the framed stream of all files, or reports the first bad file |
| ReviewedDigest.FirstBadFileIsTheError | backend/h11_v4_reviewed_digest.py:263-273 | the digest fails iff some file is missing, irregular or an artifact that is no object, with the error of the first |
| ReviewedDigest.StreamIgnoresBinding | backend/h11_v4_reviewed_digest.py:270-278 | new values in present binding fields leave the stream unchanged |
| ReviewedDigest.WritingBackIsAFixpoint | backend/h11_v4_reviewed_digest.py:260-283 | writing the digest into a binding field leaves the digest fixed |
| ReviewedDigest.StreamDeterminesContents | backend/h11_v4_reviewed_digest.py:263-282 | if one repository's raw contents are NUL-free, any repository with its stream has its files up to normalisation |
| ReviewedDigest.UniqueFramesPin | backend/h11_v4_reviewed_digest.py:263-282 | so it does, NULs or not, where each path's frame stands out between the contents around it |
| ReviewedDigest.RawStreamPinsIff | backend/h11_v4_reviewed_digest.py:263-282 | for raw files exactly then: NUL, path, NUL occurs in the content before it only at the end and in the content after it only at the start |
| Framing.PinnedIffUnique | backend/h11_v4_reviewed_digest.py:263-282 | the law behind it, for any frames and contents |
| ReviewedDigest.NulBreaksFraming | backend/h11_v4_reviewed_digest.py:267-282 | in any list with two neighbouring raw files, whatever the others hold, the two can be filled in two ways that give one stream |

## Left out

- Floating-point rounding, pandas and numpy mechanics: values are exact reals, frames are sequences.
- Simulators: a NaN ATR at a signal row is outside the model, since `_signal_rows` never emits one.
- SimulatorLaws.SpreadNeverHelps: holds for the replay; the grid's version, with a tick of rounding, is GridLaws.GridSpreadHelpsAtMostATick.
- SimulatorLaws.A0HoldsOneAtATime: a holding cut off by the end of data counts as a trade here, as in the code.
- HourlyAtr: loading, de-duplicating and sorting the CSV frames; a frame is given sorted.
- Signals.SignalRows: the probabilities are inputs; the signal model's code is not part of this model.
- PairedBootstrap.OneSidedPValue: the generator is a fixed stream of draws, one position per call; the mean, median and percentile columns of the report are not modelled.
- PairedBootstrap.Generator: how many raw bits a draw consumes, and the distribution of draws.
- Robustness: drawdown, worst loss, stop-loss ratios, halves and per-symbol tables of the summary; concentration is an input. The Japanese reason texts are an enumeration.
- Robustness.OddRunsAreExplained: asks that a profit factor above 1 go with a positive expectancy; TradeStats.FactorMeansProfit shows that only a mean profit of at most 0.00005, lost in rounding, breaks that.
- TradeStats.WindowOf: the win rates, averages, extremes and drawdown of a window's statistics.
- Json.EncodingIsInjective: floats, lone surrogates and the UTF-8 step are not modelled; the validators accept no float anywhere, so the non-finite check decides nothing they would not.
- Manifest: which message a rejected manifest raises; a validator here accepts or rejects. The same holds for Evidence, Profile and Bundle.
- Evidence.Classify: blocking codes are a set, the source's sorted tuple without duplicates.
- Labels.DigestPins: SHA-256 itself; the hash is any function, and its collisions are named in the statements.
- Operation60: what the installer and the readiness check do, file permissions and the symlink test on the result path; the halt is a flag that is never cleared.
- ReviewedDigest.RawStreamPinsIff: for lists that mix raw files with artifacts, UniqueFramesPin gives the sufficient half and NulBreaksFraming a failing family; the exact condition is stated for raw files.
- ReviewedDigest: the list of 223 reviewed paths, all different, is a parameter, JSON parsing is a parameter, bytes are characters, and a decoding error inside an artifact is not told apart from a parse error.
- Reading files, argument parsing, printing, report writing, the launchers and schedulers, fetchers and web entrypoints.
