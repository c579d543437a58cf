# Verified model of the live path from tick to order

The system takes market ticks from several publishers, lets a set of agents vote on each
tick, passes the combined vote through guards, places an order with a broker, and keeps a
small in-memory ledger. Beside that path a news cache feeds the agents, a persistence worker
writes the ticks to a database, and a supervisor keeps one publisher alive. This project
models that logic in Dafny and proves what it promises, and exactly where it does not.

`dafny verify dfyconfig.toml` checks everything, with Dafny's own defaults.

## How the model is built

* One module per component. Objects the program updates in place are classes with the same
  fields; each method is proved equal to a specification function, and the laws are proved
  about those functions.
* Concurrent components are also state machines. A call is cut at its awaits; each piece runs
  without interruption, as on the event loop; any piece of any open call may come next; what
  agents, broker, database, upstream and clock answer is arbitrary. `Run` folds a list of
  such events, an event that is not enabled changes nothing, and the main theorems quantify
  over every event list. Machine and class share their specification functions, and
  `WholeCallIsOnTick`, `StepsAreMethods` and `SessionIsRun` tie the machines' steps to the
  methods. A broker takes an order some time before it answers, and its book is kept in the
  order of taking; the portfolio records in the order of the answers. The supervisor's class
  keeps the invariant that its runs are proved to keep.
* Floats are idealised as `real`. No square root is needed: a standard deviation is any
  non-negative sigma whose square is the population variance. `tanh` and `pstdev` are
  parameters, tanh also as made from an exponential. Times are real seconds on one clock;
  clock readings, and the midnight that anchors a time of day, are parameters.
* Python's integer, decimal and whitespace conversions are parameters in the frame parser,
  so the frame theorems hold whatever those conversions accept. `strip().lower()` is a
  parameter of the headline merge.

| files | component |
|---|---|
| Models, Statistics | shared entities; means, variances and inequalities over `real` |
| TradingPipeline, Portfolio, TickContext, Guardrails, GuardLaws, Coordinator, Executor, Sizer | the path of one tick |
| PipelineRuns, PipelineCalls, PipelineLedger, PipelineBook, PipelineBounds, PipelineMaximum, PipelineWitness, PipelineDivergence, PipelineCooldown, PipelineContext, PipelineGuards, PipelineCounters | interleaved calls of it |
| QuantAgent, Anomaly, BreakerMemory | RSI votes, anomaly scores, and how many prices the breaker needs |
| NewsCache, NewsRuns, NewsLaws, NewsFreshness, NewsMerge | the headline cache under concurrent callers, and the merge behind it |
| PersistenceWorker, PersistenceRuns | tick buffering, flushing, crashes, shutdown |
| UsPublisher | round-robin polling and volume deltas |
| PublisherSupervisor, SupervisorRuns | bring-up, failover, shutdown |
| TextSplit, KisFrames, JsonBlock | frame parsing and JSON block extraction |

## What the code does differently from what it says

Each point below is proved, with a concrete run or input, and with the exact condition where
one exists.

* The position limit is judged on a snapshot that may be stale. With k calls open the recorded
  position overshoots the limit M up to M-1+k*Q, and runs reach that (`CapIsReached`,
  `ClimbReachesCap`); for orders of one size Q the exact maximum of the recorded position is
  (floor((M-1)/Q)+k)*Q (`FixedSizeBound`, `MostOrdersAreReached`).
* The cooldown spaces recorded fills only while at most one call is open (`CooldownHoldsIffSerial`,
  `TwoLanesDefeatCooldown`), and what the broker executes only if besides no order is lost
  (`TradesAreSpacedIffSerial`, `LossDefeatsCooldown`).
* An order that the broker takes before its call is cancelled, or before `place_order` raises on a
  timeout or an unreadable answer, never reaches the portfolio (`CancelledOrderIsLost`,
  `TimedOutOrderIsLost`). Once no call is open the portfolio has recorded what the broker took
  exactly if neither happened (`LedgerAgreement`). No guard sees what is lost: without any
  interleaving the broker can come to hold any number of shares while the portfolio shows none
  (`BrokerIsUnbounded`); each lost order adds at most Q to the bound above (`BrokerBound`).
* Answers may overtake each other, and the long-only clamp does not commute: with two calls open
  a SELL answered before the BUY it followed leaves shares in the portfolio that the broker has
  sold, though nothing was lost (`OvertakenAnswerDiverges`). Positions agree in every lossless run
  exactly if at most one call is open (`PositionsAgreeIffSerial`), and in any lossless run in
  which neither order of the fills oversells (`SamePositionUnlessOversold`).
* "One malformed record must not break the batch" fails exactly for a price that is NaN or
  +Infinity in an otherwise usable record: the comparison, or the tick model, raises outside
  the guarded block and the whole frame is lost (`FrameYield`, `NaNLosesFrame`).
* The brace scan does not know about strings: a `}` inside a JSON string cuts the block short
  (`BraceInStringCutsBlock`); extraction is right exactly for blocks that are minimal by brace
  counting (`ProseIsIgnored`).
* The sizer rounds half to even, so its documented size 51 for confidence 0.5 is 50
  (`DocumentedHalfwaySizeIsOff`).
* With a decision threshold of 0 a perfectly balanced vote is a BUY, and swapping every vote
  leaves it a BUY (`SwapNegates`, `TiedVoteIsBuy`).
* `recent_ticks(symbol, 0)` returns the whole window (`RecentOfNonPositive`).
* A quote without a volume counts as a day total of 0, so the next one publishes the whole day
  again (`MissingVolumeRecounts`).
* The merge of news providers stops looking once its list is full, so a provider that fails
  behind that point is not counted (`FailuresAreCountedIff`, `UnseenFailure`).
* A tick whose publishing to Redis fails ends the poll after its day total has been remembered,
  so its volume is never published, then or later (`UnsentVolumeIsLost`, `UnsentNeverReturns`).
* `stop()` of the supervisor re-raises the exception of a crashed task it still holds, and then
  leaves the rest of its work undone. It does so exactly if a KIS task has crashed while the
  watchdog sleeps or closes the dead client, or the mock has crashed
  (`StopRaisesExactlyOnRetainedCrash`). A crashed refresh task leaves the stream live
  (`CrashedRefreshLeaksStream`); an ordinary crash of the stream, and a `stop()` while the failover
  closes its client, leave client and socket open (`CrashedStreamLeaksClient`).

## Model

| member | source | states |
|---|---|---|
| PipelineBounds.PositionBound | src/domain/trading/pipeline.py:114-148 | Over every interleaved run with at most k open calls, limit M in force and orders of at most Q: every recorded position stays in [0, M-1+k*Q], and at 0 if M is 0, whatever agents, broker, clock, failures and cancellations do |
| PipelineBounds.BoundKept | src/domain/trading/pipeline.py:121-148 | The inductive form: position plus Q for each open call whose snapshot was below M never exceeds the cap, through every step |
| PipelineBounds.FixedSizeBound | src/domain/trading/guardrails.py:151-160 | If every BUY or SELL the coordinator can decide on is an order of Q shares or none, whatever else is registered, the recorded position never exceeds (floor((M-1)/Q)+k)*Q, in every run |
| PipelineMaximum.MostOrdersAreReached | src/domain/trading/guardrails.py:151-160 | That bound is attained for every M, Q and k >= 1, with any list of position limits (M the tightest), cooldowns and breakers registered |
| PipelineMaximum.CapIsReached | src/domain/trading/guardrails.py:151-160 | The cap M-1+k*Q is attained for every M, Q and k >= 1, with any such list, by any sizer that gives one share to one BUY and Q to another |
| PipelineMaximum.ClimbReachesCap | src/domain/trading/guardrails.py:151-160 | And by any sizer that lets a sale follow on a purchase of one share more |
| PipelineMaximum.LinearSizerBound | src/domain/trading/sizer.py:118-127 | With the program's confidence sizer, for every threshold, confidence floor and pair of quantities, and any guards holding the limit M: no position exceeds M-1+k*Qmax if orders of different sizes can come out, and as many orders of Qmax as fit otherwise |
| PipelineMaximum.LinearSizerReachesHighest | src/domain/trading/sizer.py:118-127 | For all of these settings, with any list of the three guards, some run attains exactly that position |
| PipelineMaximum.SteadyCall | src/domain/trading/pipeline.py:121-130 | In any run on one repeated tick every open call sees a price that does not move, so that no breaker objects |
| PipelineBounds.SerialOvershoot | src/domain/trading/guardrails.py:151-160 | With a single lane the position stays below M+Q |
| PipelineCooldown.SerialRunsAreSpaced | src/domain/trading/guardrails.py:186-198 | In every serial run any two recorded fills of one symbol are at least the cooldown apart, in order |
| PipelineCooldown.SerialThrottle | src/domain/trading/guardrails.py:186-198 | In serial runs any interval of length T holds at most 1+floor(T/C) recorded fills of a symbol and at most Q times as many shares |
| PipelineCooldown.SerialTradesAreSpaced | src/domain/trading/guardrails.py:186-198 | In serial runs that lose no order the same spacing holds for what the broker takes, an order still waiting for its answer included |
| PipelineCooldown.SerialTradeThrottle | src/domain/trading/guardrails.py:186-198 | And the same throttle |
| PipelineCooldown.TwoLanesDefeatCooldown | src/domain/trading/pipeline.py:121-147 | With two lanes and any list of the three guards there is a lossless run in which two fills of one symbol happen, and are recorded, at the same instant |
| PipelineCooldown.CooldownHoldsIffSerial | src/domain/trading/pipeline.py:121-147 | For any list of the three guards that holds the cooldown, and any sizer that ever gives shares to a BUY, recorded fills are spaced by the cooldown in all runs if and only if at most one call can be open |
| PipelineCooldown.TradesAreSpacedIffSerial | src/domain/trading/pipeline.py:121-147 | Likewise for what the broker takes, in all runs that lose no order |
| PipelineLedger.SwitchOffMeansNoOrders | src/domain/trading/executor.py:198-219 | With live orders off no run places an order, fills anything or holds a share |
| PipelineLedger.EveryOrderWasAllowed | src/domain/trading/pipeline.py:132-135 | Every order that reaches the broker in any run is a BUY or SELL at least as confident as the threshold, of exactly the sizer's positive quantity, that all guards allowed in its own call's context |
| PipelineLedger.LedgerAgreement | src/domain/trading/pipeline.py:137-148 | After any run each position is the recorded net amount minus its lowest prefix, and recorded fills were all taken by the broker; once no call is open the portfolio has recorded exactly the fills the broker took, as often, if and only if no call was cancelled, and no `place_order` raised, after the broker took its order |
| PipelineBook.BooksBalance | src/domain/trading/pipeline.py:135-148 | Double entry: under any weighting, in every reachable state, what the broker took is what was recorded, lost, or waits for its answer |
| PipelineBook.LossesIff | src/domain/trading/executor.py:231-251 | No order is lost if and only if no step of the run is such a cancellation or such an exception |
| PipelineBook.SameFillsIff | src/domain/trading/pipeline.py:141-148 | Once no call is open the two books hold the same fills if and only if no step lost an order |
| PipelineBook.BrokerBound | src/domain/trading/guardrails.py:151-160 | In every run the net amount the broker took is at most M-1+k*Q, and Q more for each lost order |
| PipelineBook.SamePositionUnlessOversold | src/domain/trading/portfolio.py:66-72 | In a lossless run without open calls the position is that of the broker's book, whatever answers overtook each other, if neither book ever oversells the symbol |
| PipelineBook.SerialBooksAreEqual | src/domain/trading/pipeline.py:135-148 | In a lossless serial run without open calls the two books are the same list in the same order |
| PipelineDivergence.CancelledOrderIsLost | src/domain/trading/pipeline.py:135-148 | A run in which a cancelled call leaves the broker with an order the portfolio knows nothing of |
| PipelineDivergence.TimedOutOrderIsLost | src/domain/trading/executor.py:231-251 | A run in which a `place_order` that raises does the same, without any cancellation |
| PipelineDivergence.LostOrdersPileUp | src/domain/trading/executor.py:231-251 | For every n a serial run, under any limit and cooldown, in which the broker took n orders at one instant and the portfolio recorded none |
| PipelineDivergence.BrokerIsUnbounded | src/domain/trading/executor.py:231-251 | So what the broker holds has no bound, while the portfolio shows 0 |
| PipelineDivergence.LossDefeatsCooldown | src/domain/trading/executor.py:231-251 | A serial run in which the broker executes two orders of one symbol at the same instant |
| PipelineDivergence.OvertakenAnswerDiverges | src/domain/trading/portfolio.py:69-71 | A lossless run with two lanes in which a SELL is answered before the BUY it followed: both books hold the same fills, and the portfolio keeps shares that the broker's book does not |
| PipelineDivergence.PositionsAgreeIffSerial | src/domain/trading/portfolio.py:66-72 | For any list of the three guards and a sizer that gives shares to a BUY and to a SELL, the broker's book replayed gives every position, in all lossless runs without open calls, if and only if at most one call can be open |
| PipelineLedger.RecordingNeverRaises | src/domain/trading/pipeline.py:141-148 | `record_fill` never raises in any run: without other failures the error counter stays 0, and the executed counter is the number of recorded fills |
| PipelineCounters.CountersCount | src/domain/trading/pipeline.py:97-166 | In every run the tick counter is the number of calls that were opened, the error counter that of exceptions, the audit failure counter that of refused results, and the executed counter that of recorded fills |
| PipelineContext.BreakerSeesWholeHistory | src/domain/trading/pipeline.py:121-130 | In every reachable state the breaker's verdict on an open call equals its verdict on the symbol's whole history up to the call's tick, however symbols interleave, if max_window >= volatility_window >= max(window_size, 4) |
| PipelineContext.QuantSeesWholeHistory | src/domain/trading/quant_agent.py:69-79 | In every reachable state the RSI vote on the bounded window equals the vote on the whole history, if the window holds period+1 ticks |
| PipelineContext.RunSees | src/domain/trading/context.py:54-76 | In every reachable state the windows are those of the full arrival history, and each open call's prices were cut when its own tick was newest |
| PipelineGuards.LimitRefusesIff | src/domain/trading/guardrails.py:151-160 | In every run the position limit refuses a new call exactly if the signal is a BUY and the recorded fills, net and measured from their lowest point, reach the limit |
| PipelineGuards.CoolDownRefusesIff | src/domain/trading/guardrails.py:186-198 | In every run the cooldown refuses a new call exactly if the newest recorded fill of the symbol is dated less than the cooldown before; at the full cooldown it allows again |
| PipelineRuns.RunOk | src/domain/trading/pipeline.py:114-148 | The joint invariant of all runs: lanes respected, every pending order guard-allowed and sized, portfolio the replay of the recorded fills, each of them a placed and accepted order |
| PipelineRuns.QuietStep | src/domain/trading/pipeline.py:116-148 | Every step other than an arrival or a broker's answer leaves windows, holdings and fills alone and opens no call |
| TradingPipeline.TradingPipeline.Begin | src/domain/trading/pipeline.py:116-130 | Up to the first await: the tick is counted and recorded, and the snapshot is the ledger and price view of that moment |
| TradingPipeline.TradingPipeline.RecordResult | src/domain/trading/pipeline.py:141-148 | Exactly a confirmed BUY or SELL updates holdings and executed counter; a refused fill counts as an error and changes nothing else |
| TradingPipeline.TradingPipeline.Process | src/domain/trading/pipeline.py:114-166 | An uninterrupted `_process` produces the result and the desk of the composed specification: note, vote, guard, execute, book, audit |
| TradingPipeline.TradingPipeline.OnTick | src/domain/trading/pipeline.py:97-112 | If an exception escapes agents, guards or sizer only the tick and the error are counted; otherwise the call is its `_process` |
| PipelineCalls.WholeCallIsOnTick | src/domain/trading/pipeline.py:114-166 | From any reachable state with a free lane, the machine's steps of one whole call lead to exactly the desk that an uninterrupted call leaves, and leave every other open call as it was |
| PipelineCalls.FailedCallIsOnTick | src/domain/trading/pipeline.py:102-105 | Likewise for a call from which an exception escapes |
| Ledger.Portfolio.RecordFill | src/domain/trading/portfolio.py:53-72 | A HOLD or a non-positive quantity is refused and changes nothing; otherwise holdings become those after the fill, clamped at 0 |
| Ledger.PositionClosedForm | src/domain/trading/portfolio.py:66-72 | After any fills the clamped position is the net amount minus the least net amount of any prefix |
| Ledger.LowestIsLowest | src/domain/trading/portfolio.py:66-72 | Such a least prefix amount always exists and is the one computed, so the closed form applies to every fill list |
| Ledger.PositionVersusNet | src/domain/trading/portfolio.py:66-72 | Positions are at least max(0, net), and equal to net exactly if no prefix oversold |
| Ledger.LastTradeIsNewestFill | src/domain/trading/portfolio.py:72 | The cooldown clock holds the timestamp of the newest recorded fill of the symbol, and nothing if there was none |
| TickWindows.TickContext.Record | src/domain/trading/context.py:54-60 | One tick goes to the end of its own symbol's window, which drops its oldest when full |
| TickWindows.TickContext.RecordMany | src/domain/trading/context.py:62-64 | Recording many ticks is recording them one by one, in order |
| TickWindows.WindowIsHistoryTail | src/domain/trading/context.py:54-60 | However symbols interleave, each window is the tail of that symbol's own history |
| TickWindows.RecentRefinesHistory | src/domain/trading/context.py:66-76 | A request for n > 0 ticks, or without n, sees what unbounded memory would show, up to the window size |
| TickWindows.RecentOfNonPositive | src/domain/trading/context.py:66-73 | For n = 0 the whole window is returned, and a negative n drops that many of the oldest |
| Guardrails.GuardrailPipeline.Evaluate | src/domain/trading/guardrails.py:305-316 | A HOLD passes unguarded; otherwise the first guard in registration order that objects blocks and is named, and without one the signal is allowed |
| Guardrails.GuardrailPipeline.Register | src/domain/trading/guardrails.py:298-303 | A new guard comes last |
| Guardrails.FirstObjection | src/domain/trading/guardrails.py:311-314 | The index is that of an objecting guard before which all allow, or the number of guards if none objects |
| Guardrails.EffectiveMeansAllAllow | src/domain/trading/guardrails.py:118-123 | The executor sees a BUY or SELL exactly when all guards allow it, otherwise HOLD with everything but the action preserved |
| Guardrails.VerdictIgnoresOrder | src/domain/trading/guardrails.py:305-316 | The effective signal depends only on which guards are registered, not on order or repetition |
| Guardrails.CvTestIsExact | src/domain/trading/guardrails.py:255-265 | The squared test of the model decides sigma/mean > max_cv exactly |
| Guardrails.LooseCvNeverTrips | src/domain/trading/guardrails.py:255-265 | For non-negative prices CV squared is at most n-1, so a threshold at or above sqrt(n-1) never trips |
| Guardrails.LooseDropNeverTrips | src/domain/trading/guardrails.py:244-253 | For non-negative prices a drop threshold of 100% or more never trips |
| Guardrails.CalmLooksBackOnly | src/domain/trading/guardrails.py:237-267 | The breaker's verdict depends only on the newest max(window_size, 4) prices |
| Guardrails.ShortViewBlindsBreaker | src/domain/trading/guardrails.py:239-240 | A view of fewer than four prices can hide a crash that trips every breaker with a drop threshold below 100% |
| Guardrails.ConstantIsCalm | src/domain/trading/guardrails.py:237-267 | No breaker trips on a price that does not move |
| GuardLaws.BreakerRefusesIff | src/domain/trading/guardrails.py:237-267 | The breaker refuses if and only if it is shown at least four prices and the newest is below (1 - max_drop) times the positive one before, or the standard deviation of the newest window_size prices exceeds max_cv times their positive mean |
| GuardLaws.BreakerDefers | src/domain/trading/guardrails.py:238-240 | Without prices of the symbol, or with fewer than four, it allows everything |
| GuardLaws.LowerIsNoBetter | src/domain/trading/guardrails.py:244-253 | A fall that is refused stays refused when the newest price is lower still |
| GuardLaws.BlockerIsNamed | src/domain/trading/guardrails.py:305-316 | A refusal names a registered guard that objects and before which all allow; an approval, of a HOLD or because all allow, names none |
| BreakerMemory.BreakerMemoryIff | src/domain/trading/guardrails.py:237-267 | On every history of non-negative prices the newest `keep` of them give the verdict of the whole if and only if keep >= max(window_size, 4), or the squared CV threshold is at least window_size-1 and besides keep >= 4 or the drop threshold is at least 100% |
| BreakerMemory.SpikeIsMissed | src/domain/trading/guardrails.py:255-265 | For every CV threshold below that there is a spike that trips the breaker on the whole history and not on the shorter view |
| Coordinator.TradingCoordinator.Evaluate | src/domain/trading/coordinator.py:103-152 | For any replies the decision is the aggregate of exactly the survivors (answered, for this symbol), in order with their own weights; without agents a default HOLD |
| Coordinator.TradingCoordinator.Register | src/domain/trading/coordinator.py:87-101 | A negative weight is refused and changes nothing; otherwise the agent's weight is appended |
| Coordinator.TotalsOfReplies | src/domain/trading/coordinator.py:123-168 | Total weight and raw score are sums over all ballots: weight, and weight times confidence with the sign of the action, of those that answered for this symbol |
| Coordinator.ContributorsAreTheAnswers | src/domain/trading/coordinator.py:123-152 | The contributors are, in registration order, exactly the signals answered for this symbol: each is for the symbol, and none is missing |
| Coordinator.ScoreIsWeightedMean | src/domain/trading/coordinator.py:154-181 | Score times total weight is the sum of the votes; BUY exactly from the threshold up, SELL exactly below it and from minus the threshold down, HOLD otherwise; the confidence is the magnitude; without weight a HOLD of score 0 |
| Coordinator.DecisionIgnoresOrderAndFailures | src/domain/trading/coordinator.py:123-181 | Action, score and confidence are invariant under any permutation of (agent, weight) pairs and under adding agents that fail or answer for another symbol |
| Coordinator.ScoreBound | src/domain/trading/coordinator.py:160-168 | The score never exceeds the strongest surviving confidence in magnitude, so the clamp never bites |
| Coordinator.SwapNegates | src/domain/trading/coordinator.py:164-181 | Swapping BUY and SELL in all votes negates the score and keeps the confidence; it swaps the decision if and only if not (threshold 0, score 0 and positive weight) |
| Coordinator.TiedVoteIsBuy | src/domain/trading/coordinator.py:170-172 | At threshold 0 one BUY against one equally confident SELL is a BUY, and so is the swapped vote |
| Executor.BrokerContactedIff | src/domain/trading/executor.py:148-234 | The broker is contacted if and only if the switch is on, the action is not HOLD, all guards allow and the sizer is positive; the order then carries exactly that |
| Executor.ExecutedIff | src/domain/trading/executor.py:148-283 | A result is executed if and only if the broker was contacted and accepted; it then names the real trade, and mode live appears only with the switch on |
| Executor.EveryResult | src/domain/trading/executor.py:148-283 | Each result in full: noop HOLD without shares for a HOLD or blocked signal, noop without shares where the sizer gives none, a shadow of exactly the trade with the switch off, and else live, executed if the broker accepted |
| Sizer.LinearSizeContract | src/domain/trading/sizer.py:118-127 | More confidence never gives fewer shares, and both ends of the line are reached |
| Sizer.LinearSizeIsRoundedLine | src/domain/trading/sizer.py:118-127 | 0 exactly below the confidence floor; otherwise between the two quantities and within half a share of min + (max - min) * confidence, confidence cut to [0, 1], with ties on even numbers |
| Sizer.InterpolationInRange | src/domain/trading/sizer.py:125-127 | The rounded interpolation already lies between the two quantities |
| Sizer.RoundingError | src/domain/trading/sizer.py:126 | Rounding lands within one half, and a tie on an even number |
| Sizer.DocumentedHalfwaySizeIsOff | src/domain/trading/sizer.py:72-76 | On 1..100 confidence 0.5 gives 50, not the documented 51; 0.3 and 0.85 give the documented 31 and 85 |
| QuantAgent.ComputeRsi | src/domain/trading/quant_agent.py:121-152 | The loop with its averages, special cases and Wilder quotient computes 100*G/(G+L) over the newest period+1 prices, 50 if flat |
| QuantAgent.NetMove | src/domain/trading/quant_agent.py:130-139 | Gains minus losses is last minus first price of the window |
| QuantAgent.GainsAndLosses | src/domain/trading/quant_agent.py:130-139 | Gains and losses together are the whole movement, the sum of all absolute price changes |
| QuantAgent.RsiRange | src/domain/trading/quant_agent.py:144-152 | RSI lies in [0, 100] |
| QuantAgent.RsiAffineInvariant | src/domain/trading/quant_agent.py:121-152 | RSI is unchanged by p -> a*p+b with a > 0 |
| QuantAgent.RsiMirror | src/domain/trading/quant_agent.py:121-152 | Mirrored prices have RSI 100 minus the original |
| QuantAgent.ClipIsIdle | src/domain/trading/quant_agent.py:81-96 | `_clip` never changes the confidence, which is in [0, 1] |
| QuantAgent.VoteMeans | src/domain/trading/quant_agent.py:69-96 | With rsi * (G + L) = 100 * G, or 50 without movement: BUY exactly at or below the oversold level and SELL exactly at or above the overbought one, else HOLD; confidence * oversold = oversold - rsi for a BUY, and likewise for a SELL; without period+1 prices a HOLD of confidence 0 |
| QuantAgent.VoteFollowsGains | src/domain/trading/quant_agent.py:69-96 | In terms of gains G and losses L of the newest period+1 prices: with movement BUY exactly if 100*G <= oversold*(G+L), SELL exactly if 100*G >= overbought*(G+L) |
| QuantAgent.FallingIsBought | src/domain/trading/quant_agent.py:81-86 | Prices that only fall over the window give a BUY of confidence 1 |
| QuantAgent.RisingIsSold | src/domain/trading/quant_agent.py:87-94 | Prices that only rise give a SELL of confidence 1 |
| QuantAgent.VoteMirrors | src/domain/trading/quant_agent.py:69-96 | If oversold + overbought = 100, mirrored prices swap BUY and SELL with equal confidence |
| QuantAgent.VoteAffineInvariant | src/domain/trading/quant_agent.py:69-96 | The whole vote is unchanged by p -> a*p+b with a > 0 |
| QuantAgent.VoteNeedsFullWindow | src/domain/trading/quant_agent.py:70-77 | A memory of `keep` prices gives the vote of the whole history for every history if and only if keep >= period+1 |
| Anomaly.ZScoreBound | src/domain/analysis/anomaly.py:31-35 | For n prices the squared z-score of the newest is at most n-1, flat windows included (Samuelson) |
| Anomaly.ScoreMeans | src/domain/analysis/anomaly.py:28-38 | 0 with fewer than eight ticks; otherwise, for any z with z*sigma = abs(last - mean) over the newest 64 prices, and z = 0 if sigma is 0, the score is the squashed z/3 |
| Anomaly.AnomalyIff | src/domain/analysis/anomaly.py:28-38 | The score is positive if and only if there are eight ticks and the newest price is not the mean of the newest 64 |
| Anomaly.ScoreCeiling | src/domain/analysis/anomaly.py:28-38 | z stays below 8 (squared, below the window size), so the score never exceeds tanh(8/3) |
| Anomaly.ScoreBelowOne | src/domain/analysis/anomaly.py:37-38 | With tanh made from any positive, non-decreasing exponential the score is in [0, 1), strictly below 1 |
| Anomaly.ZScoreAffine | src/domain/analysis/anomaly.py:31-35 | The z-score is unchanged by p -> a*p+b with a not 0 |
| Anomaly.AnomalyAffineInvariant | src/domain/analysis/anomaly.py:28-38 | The score is unchanged when all tick prices are re-quoted by such a map |
| Anomaly.AnomalyForgetsOldTicks | src/domain/analysis/anomaly.py:31-32 | Ticks older than the 64-tick window have no influence |
| Statistics.LastWithinSpread | src/domain/analysis/anomaly.py:33-35 | The squared deviation of the last of n values is at most (n-1) times their population variance |
| Statistics.VarianceBelowMean | src/domain/trading/guardrails.py:256-260 | For n non-negative values the variance is at most (n-1) times the squared mean |
| Statistics.VarianceAffine | src/domain/analysis/anomaly.py:33-34 | Population variance scales by a squared under p -> a*p+b |
| NewsCache.CachingNewsProvider.Peek | src/infrastructure/news_provider.py:277-280 | The lock-free path returns the cached list and counts a hit exactly for a fresh entry; otherwise nothing changes |
| NewsCache.CachingNewsProvider.EnterLock | src/infrastructure/news_provider.py:284-292 | Under the lock: the double check returns a hit if another caller filled the entry, otherwise a miss is counted and the lock stays held |
| NewsCache.CachingNewsProvider.Complete | src/infrastructure/news_provider.py:293-323 | The entry read before the fetch and the answer yield the new entry: the answer, or the old headlines if the answer is empty and there are some; always freshly dated, the lock released |
| NewsRuns.StepsAreMethods | src/infrastructure/news_provider.py:275-323 | In every run each step does to the cache exactly what the method of that segment does, and a completing fetch holds its lock and the entry its caller read, which is still the cached one |
| NewsRuns.RunLocks | src/infrastructure/news_provider.py:284-294 | In every interleaving a lock is held exactly by the reader fetching that symbol, and the entry it read before the await is still the cached one |
| NewsRuns.OneFetchPerSymbol | src/infrastructure/news_provider.py:231-235 | However many callers miss together, at most one inner fetch per symbol is in flight |
| NewsLaws.CacheIsLastGoodRegister | src/infrastructure/news_provider.py:285-323 | Every list ever returned is the newest non-empty inner answer for its symbol at that moment, or empty if there never was one |
| NewsLaws.KnownNeverFalls | src/infrastructure/news_provider.py:285-323 | In the order in which lists are returned, each knows all inner answers that any earlier one knew |
| NewsLaws.NeverEmptyAgain | src/infrastructure/news_provider.py:237-241 | Once a caller was given headlines for a symbol, no later caller is given an empty list |
| NewsLaws.HitsAndMissesBalance | src/infrastructure/news_provider.py:278-292 | In every reachable state misses equal inner fetches, and hits plus misses equal returned calls plus fetches running or abandoned |
| NewsLaws.FetchesAreApart | src/infrastructure/news_provider.py:285-326 | Each fetch starts after every earlier one of its symbol ended, and at least the TTL after any that completed |
| NewsLaws.FetchRateBound | src/infrastructure/news_provider.py:285-326 | Any interval of length T sees at most 1+floor(T/ttl) fetch starts of a symbol, plus one per fetch abandoned by cancellation |
| NewsLaws.UncancelledFetchRate | src/infrastructure/news_provider.py:285-326 | Without cancellations the bound is 1+floor(T/ttl) |
| NewsFreshness.DeliveriesAreFresh | src/infrastructure/news_provider.py:275-326 | In every run each list returned at time t comes with an inner fetch of its symbol that completed at or before t and less than the TTL before |
| NewsFreshness.AskIsAnsweredIff | src/infrastructure/news_provider.py:275-284 | In every run a new call is answered at once exactly if some fetch of its symbol completed less than the TTL before; otherwise nothing is delivered and it waits for the lock |
| NewsFreshness.LockHolderFetchesIff | src/infrastructure/news_provider.py:284-294 | And a call that gets the lock asks upstream exactly if there still is no such fetch |
| NewsMerge.CompositeNewsProvider.Merge | src/infrastructure/news_provider.py:371-400 | The nested loops with their early return deliver the first max_total headlines that are first of their key, in provider order, and count the failures of providers reached before the list was full |
| NewsMerge.OneHeadlinePerKey | src/infrastructure/news_provider.py:392-400 | Every key offered is kept exactly once and nothing blank is |
| NewsMerge.AsManyAsFit | src/infrastructure/news_provider.py:392-400 | The merged list has as many headlines as there are keys, or as the limit allows |
| NewsMerge.EarlierProvidersWin | src/infrastructure/news_provider.py:341-342 | What the first k providers deliver is a prefix of what all deliver |
| NewsMerge.OnlyRepeatsAddNothing | src/infrastructure/news_provider.py:338-342 | Further headlines leave the distinct list unchanged if and only if each is blank or repeats a key |
| NewsMerge.FailuresAreCountedIff | src/infrastructure/news_provider.py:344-346 | The failure count is complete if and only if no provider fails behind a full list |
| NewsMerge.UnseenFailure | src/infrastructure/news_provider.py:392-400 | A failure of the second provider goes uncounted when the first fills the list |
| PersistenceWorker.PersistenceWorker.EnqueueTick | src/infrastructure/persistence_worker.py:251-273 | A parsed tick is appended, evicting and counting the oldest if the buffer is full; an unparsable payload changes nothing |
| PersistenceWorker.PersistenceWorker.FlushTicks | src/infrastructure/persistence_worker.py:275-285 | The whole buffer is handed over and emptied, and counted as inserted or as dropped as a whole |
| PersistenceWorker.PersistenceWorker.ConsumeSession | src/infrastructure/persistence_worker.py:222-243 | The session loop with its two flush points equals the fold of its one-pass specification over any pulls |
| PersistenceWorker.PersistenceWorker.Drain | src/infrastructure/persistence_worker.py:181-188 | Shutdown hands over what is left and counts it as a whole |
| PersistenceRuns.TicksAreConserved | src/infrastructure/persistence_worker.py:222-285 | Over every run of arrivals, failing inserts, crashes, stops and restarts: parsed = inserted + dropped + buffered + in flight + lost, lost at most one batch of the threshold per stop that cut an insert; rows handed over, then the buffer, are the arrivals in order; the buffer is below the threshold at every loop head |
| PersistenceRuns.NoEviction | src/infrastructure/persistence_worker.py:267-273 | Below the threshold appending never evicts |
| PersistenceRuns.EvictionIsCounted | src/infrastructure/persistence_worker.py:267-273 | A full buffer gives up its oldest tick and counts it as dropped; any other only grows |
| PersistenceRuns.HandsOverIff | src/infrastructure/persistence_worker.py:222-243 | At every loop head of every run the next message leads to an insert exactly if a tick makes the buffer as long as the threshold, or the interval is over and there is anything to write; and then of everything that waits |
| PersistenceRuns.GoodRepositoryKeepsAll | src/infrastructure/persistence_worker.py:275-285 | With a repository that takes every batch and no stop that cuts an insert, nothing is dropped: rows stored, then in flight, then buffered are the arrivals in order |
| PersistenceRuns.BadRepositoryKeepsNone | src/infrastructure/persistence_worker.py:280-285 | With one that takes none nothing is stored or counted as inserted |
| PersistenceRuns.ShutdownAccountsForAll | src/infrastructure/persistence_worker.py:170-188 | When stopped, every parsed tick was inserted or dropped, unless a stop cut an insert, and all arrivals were handed over in order |
| PersistenceRuns.TicksReachTheRepositoryInTime | src/infrastructure/persistence_worker.py:226-243 | With reads of at most I: ticks buffered at a loop head have waited less than I in their session, and every tick reaches the repository after less than 2*I |
| PersistenceRuns.FirstTickAfterIdleGoesAlone | src/infrastructure/persistence_worker.py:240-243 | As an idle interval does not advance last_flush, the first tick after it is handed over alone and at once |
| PersistenceRuns.SessionIsRun | src/infrastructure/persistence_worker.py:222-243 | Any well-timed execution of the session loop is a run of the state machine with the same store and last_flush, so the run theorems apply to the code's loop |
| UsPublisher.UsPublisher.PollOneBatch | src/infrastructure/us_publisher.py:349-408 | One poll sets out for min(batch, n) consecutive slots from the cursor, moves the cursor past them, and handles every outcome in order, failures included, up to a publish that raises |
| UsPublisher.UsPublisher.PublishBatch | src/infrastructure/us_publisher.py:366-399 | The loop over a batch is the fold of single outcomes: failed fetches count, unusable quotes change nothing, the others are published, and the first publish that raises ends the batch with its tick unsent |
| UsPublisher.UsPublisher.QuoteToTick | src/infrastructure/us_publisher.py:456-514 | A tick comes out exactly for a usable positive price; only then is the day total remembered, and the volume is the non-negative difference |
| UsPublisher.PriceIsGiven | src/infrastructure/us_publisher.py:465-478 | A quote has a price exactly if it is positive and given as the price or, where none is given, as the previous close under the first of its two names that is not missing or 0 |
| UsPublisher.FallIsSale | src/infrastructure/us_publisher.py:480-506 | It is a SELL exactly if the price is below a given previous close |
| UsPublisher.VolumeIsTruncated | src/infrastructure/us_publisher.py:491-494 | The day total is the given volume cut towards zero, and 0 where none is given |
| UsPublisher.ReachedIff | src/infrastructure/us_publisher.py:366-399 | A poll gets to a symbol exactly if no tick before it failed to be published; failed fetches and unusable quotes stop nothing |
| UsPublisher.FeedCounts | src/infrastructure/us_publisher.py:369-399 | Over any readings the published counter is the number of ticks published and the failure counter that of failed fetches |
| UsPublisher.PollsAreOneWalk | src/infrastructure/us_publisher.py:359-364 | Consecutive polls walk the ring of symbols without gap or overlap |
| UsPublisher.FetchesAreEven | src/infrastructure/us_publisher.py:359-364 | After any number of complete polls from any cursor fetch counts of two slots differ by at most 1 |
| UsPublisher.EveryPollRoundCovers | src/infrastructure/us_publisher.py:359-364 | As soon as the polls fetch n slots in all, every slot was fetched |
| UsPublisher.NPollsAreExact | src/infrastructure/us_publisher.py:359-364 | Any n consecutive polls fetch each slot exactly b times |
| UsPublisher.NoRepeatInBatch | src/infrastructure/us_publisher.py:360-363 | No poll fetches a slot twice |
| UsPublisher.VolumesAddUp | src/infrastructure/us_publisher.py:488-504 | For any interleaving, failures, unusable quotes and failing publishes: a symbol's volumes are non-negative and, published or unsent, sum to last minus first day total plus all backward drops, and to last minus first exactly when no total fell back |
| UsPublisher.PollsAreReadings | src/infrastructure/us_publisher.py:349-408 | Any polls one after the other, aborted ones included, feed and publish exactly the readings they got to, in order, so the volume laws hold for the publisher's own loop |
| UsPublisher.UnsentNeverReturns | src/infrastructure/us_publisher.py:398-504 | Whatever is read later, what is published stays short of the conserved sum by at least what could not be published before |
| UsPublisher.UnsentVolumeIsLost | src/infrastructure/us_publisher.py:398-399 | A concrete case: the rise between two day totals is remembered and not published |
| UsPublisher.MissingVolumeRecounts | src/infrastructure/us_publisher.py:491-504 | A quote without volume between two good ones makes the whole day's volume be published again |
| KisFrames.ParseFrame | src/infrastructure/kis_client.py:639-683 | The parser, with its envelope checks, truncation and record loop, equals the specification of a frame for every text |
| KisFrames.ParseRecords | src/infrastructure/kis_client.py:677-683 | The record loop equals the record-by-record specification, raising as soon as a record does |
| KisFrames.RecordSaysTick | src/infrastructure/kis_client.py:755-806 | A record becomes a given tick if and only if it has at least 22 fields and says that tick: symbol, time as hour, minute and second, positive price, volume, and side 5 for SELL |
| KisFrames.TimestampShowsText | src/infrastructure/kis_client.py:787-794 | Hour, minute and second of a tick's timestamp, by division, are what the text shows in its characters 1-2, 3-4 and 5-6 |
| KisFrames.LaterTextLaterTick | src/infrastructure/kis_client.py:787-794 | Of two records the one that shows the later time has the later timestamp |
| KisFrames.OtherFramesAreIgnored | src/infrastructure/kis_client.py:647-661 | A frame with another channel id, or with a count that is no number, yields nothing |
| KisFrames.ShortFramesAreIgnored | src/infrastructure/kis_client.py:647-661 | And so does one with fewer than three bars |
| KisFrames.RecordsAreIndependent | src/infrastructure/kis_client.py:677-683 | The result is the in-order concatenation of per-record results, and raises exactly if some record does |
| KisFrames.SkippedRecordRemovesOnlyItself | src/infrastructure/kis_client.py:642-646 | A malformed record removes only itself |
| KisFrames.FrameYield | src/infrastructure/kis_client.py:647-683 | The ticks of a frame are those of its first min(count, floor(fields/46)) records in order; it raises if and only if one of those holds a rogue price |
| KisFrames.OnlyRoguesEscape | src/infrastructure/kis_client.py:755-806 | A record raises if and only if it is otherwise usable and its price is NaN, or +Infinity with a valid time |
| KisFrames.RogueSpoilsFrame | src/infrastructure/kis_client.py:642-646 | A good record followed by one with a rogue price: the good tick is lost with the frame |
| KisFrames.NaNLosesFrame | src/infrastructure/kis_client.py:773 | A concrete such frame, of a tick at 09:15:30 and the same record with price NaN |
| KisFrames.TruncationKeepsPrefix | src/infrastructure/kis_client.py:663-683 | Cutting the payload off at any character only removes trailing records: what is left parses to a prefix of the ticks, or raises only if the whole does |
| TextSplit.SplitOfPrefix | src/infrastructure/kis_client.py:663 | Splitting a text that was cut off anywhere gives its first parts, the last possibly cut short |
| KisFrames.FrameRoundTrip | src/infrastructure/kis_client.py:639-683 | Parsing the frame rendered for any list of valid ticks returns that list |
| TextSplit.SplitJoin | src/infrastructure/kis_client.py:663 | Splitting undoes joining when no part holds the separator |
| TextSplit.SplitMaxHeaded | src/infrastructure/kis_client.py:648 | Bounded splitting takes clean heads off and leaves the tail whole |
| JsonBlock.ExtractJsonBlock | src/domain/trading/macro_agent.py:250-296 | The extractor with its two scans equals its specification, with one result per cause of ValueError |
| JsonBlock.FirstVisible | src/domain/trading/macro_agent.py:274-279 | The first scan finds the first character that is not white space |
| JsonBlock.ScanBraces | src/domain/trading/macro_agent.py:287-295 | The depth scan finds the shortest balanced non-empty prefix, or none |
| JsonBlock.DepthCountsBraces | src/domain/trading/macro_agent.py:287-295 | The depth is the number of opening less the number of closing braces |
| JsonBlock.ExtractionMeans | src/domain/trading/macro_agent.py:260-296 | A block is the shortest balanced prefix from the first brace, open before its end; it fails exactly for a leading bracket, no brace, or a scan that never closes, each with its own cause |
| JsonBlock.ProseIsIgnored | src/domain/trading/macro_agent.py:250-253 | Between harmless prose and any tail the block comes back if and only if it is minimal by brace counting |
| JsonBlock.FenceIsRemoved | src/domain/trading/macro_agent.py:261-270 | A minimal block in a fence with any tag comes back unchanged |
| JsonBlock.OpenFenceIsRemoved | src/domain/trading/macro_agent.py:261-270 | So does one in a fence that is never closed |
| JsonBlock.OneLineFenceIsRemoved | src/domain/trading/macro_agent.py:261-270 | And one in a fence on a single line |
| JsonBlock.ArrayIsRefused | src/domain/trading/macro_agent.py:272-279 | An answer that begins with a bracket after blanks, tabs and line ends is refused as an array, whatever follows |
| JsonBlock.BraceInStringCutsBlock | src/domain/trading/macro_agent.py:284-295 | A closing brace inside a JSON string ends the block there |
| SupervisorRuns.RunIsSound | src/infrastructure/publisher_supervisor.py:115-248 | The joint invariant over every run, tasks dying at any time and stop() arriving anywhere in a failover |
| SupervisorRuns.StartArms | src/infrastructure/publisher_supervisor.py:115-203 | start() ends with KIS streaming, refreshed and watched if its bring-up worked, with nothing at all if it raised, and otherwise with the mock exactly in development, without watchdog or client |
| SupervisorRuns.WatchdogFailsOverIff | src/infrastructure/publisher_supervisor.py:205-216 | In every reachable state one look of the watchdog begins the one failover if and only if the stream is dead, and changes nothing otherwise |
| SupervisorRuns.DeadStreamIsReplaced | src/infrastructure/publisher_supervisor.py:218-248 | In any continuation without a stop() in which, at some time and with anything happening in between, the watchdog looks, the refresh task is over and the socket is closed, a dead stream is replaced: the mock is active, client and socket are gone, there was one failover, and the mock runs unless it died itself |
| SupervisorRuns.AtMostOnePublisher | src/infrastructure/publisher_supervisor.py:205-248 | At most one publisher is live, never the mock beside KIS's stream or refresh; the client is held only for KIS or by a stop closing it; at most one failover |
| SupervisorRuns.CompletedStopLeavesNothing | src/infrastructure/publisher_supervisor.py:137-154 | Whenever stop() returns normally, even if it cancelled a failover, no task, client or socket is left |
| SupervisorRuns.StopRaisesOnlyAfterCrash | src/infrastructure/publisher_supervisor.py:145-147 | stop() raises only if some task ended with an exception |
| SupervisorRuns.RaisedStopHoldsCrash | src/infrastructure/publisher_supervisor.py:145-147 | In every run, failovers from crashed streams included, a stop() that has raised still holds the publisher whose task crashed |
| SupervisorRuns.StopCanEnd | src/infrastructure/publisher_supervisor.py:137-154 | From every reachable state in which stop() may be called it can end, with no further crash |
| SupervisorRuns.StopRaisesExactlyOnRetainedCrash | src/infrastructure/publisher_supervisor.py:137-154 | For a stop() called in any reachable state, and any continuation without further crashes in which it ends: it raises if and only if, in the state of the call, the watchdog sleeps or closes the dead client and the refresh or stream task has crashed, or the watchdog is over and the mock has crashed; a failover still waiting for the refresh task never makes it raise |
| SupervisorRuns.StopRaisesAtOnceIff | src/infrastructure/kis_publisher.py:272-283 | At the step in which stop() turns to the publisher, when called or when its cancellation of the watchdog lands, it raises if and only if the first dead task it joins had crashed |
| SupervisorRuns.CrashedRefreshLeaksStream | src/infrastructure/kis_publisher.py:275-279 | A crashed refresh beside a healthy stream: stop() raises and leaves the stream live with its socket open |
| SupervisorRuns.CrashedStreamLeaksClient | src/infrastructure/publisher_supervisor.py:229-245 | An ordinary crash of the stream and a stop() while the failover closes the client: stop() raises, and client and socket stay open |
| SupervisorRuns.SwallowedCancellationStillCleansUp | src/infrastructure/kis_publisher.py:119-123 | A stop that arrives while the failover waits for the refresh task is swallowed there, whether the stream had crashed and however the refresh task ends: the mock comes up, and the same stop still ends it and leaves nothing |
| SupervisorRuns.SwallowingHappens | src/infrastructure/publisher_supervisor.py:229-231 | A run that gets there: the stream crashes, the watchdog looks, stop() is called |

## Left out

- Rounding of floats, and the overflow of converting an infinite day volume: arithmetic is over `real`, and the wire rounding of prices to four digits is not modelled.
- Aliasing of the snapshot dictionaries: `positions` and `last_trade_at` return copies, which the value semantics of maps already gives.
- The first-in-first-out order of `asyncio.Lock`: any waiting reader may acquire a free lock, which allows more runs.
- Guards that suspend: the guards of the repository never await anything, and a custom guard is an arbitrary predicate of signal and context, so all guards of a call are judged in one step.
- Reason texts, rationales, order ids and timestamps of signals, audit envelopes and log records: no decision reads them.
- `build_prompt`, the language-model call and the parsing of its JSON in `MacroAgent`: agent votes are arbitrary inputs to the pipeline.
- After a failing publish the US publisher's task is over: the fairness theorems are about polls that complete.
- A broker that answers with a rejection is taken at its word; only a call that raises, or is cancelled, may hide a taken order. One that the broker takes only after that counts as taken just before.
- Order-book (H0STASP0) frames: single best-effort record, no property across records.
- `KisClient` connection states, OAuth and subscription: bring-up is an arbitrary success or failure; the socket is open or closed.
- The audit consumer of the persistence worker, and subscription and unsubscription errors: a session may crash at any read instead, which includes a payload whose price raises `InvalidOperation`.
- RSS parsing, locale lists and news URLs: library calls and string templates.
- A second `start()` of the supervisor: the machine covers one start and one stop.
- Anomaly reports, alarms, account and balance handling, `JwksCache`, the universe builders, and the HTTP layer: simpler or pure plumbing.
