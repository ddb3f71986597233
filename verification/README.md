# Verified model of the trading platform's core algorithms

This project models, in Dafny, the parts of the platform whose behaviour is an
algorithm or a protocol rather than plumbing, and proves what they are for:

- **The multi-factor z-score signal** (`Statistics`, `StatisticsCorrelation`,
  `ZscoreModel`, `ZscoreAttribution`, `ZscoreWeights`, `ZscoreAffine`). Factors are
  filtered, correlated with returns, z-scored, winsorized, ranked, weighted, gated
  and reported. The engine's loops are methods proved against sums, a stable ranking
  and a report; the theorems are Cauchy-Schwarz for the correlation loop and its
  equality case, what each weight mode reports, exact attribution, normalized
  weights, ranks, the bound on the signal, and invariance under a change of units of
  any factor. `ZscoreDashboard` and `ZscoreDashboardRows` model the dashboard's own
  implementation, which works on shared mutable row objects, and prove that it
  returns the engine's result. `SignalEngine` models the per-symbol queues that feed
  the model and proves that they never look ahead.
- **The Kafka consume, retry, dead-letter and commit protocol** (`KafkaConsumer`),
  as a state machine over records, asynchronous commits in flight, crashes and
  restarts, with the loop itself as a class that refines it.
- **The JSON configuration diff and its path edits** (`ConfigTree`, `ConfigDiff`,
  `ConfigReverse`, `ConfigListOrder`, `ConfigPath`): diff then patch reaches the
  target and its reverse undoes it, which edits disturb which others, and which
  paths survive being printed and parsed.
- **Paper order execution** (`OrderDedup`, `OrderStore`, `OrderRouter`,
  `OrderPrices`, `OrderStream`): duplicate filter, report builder, the transaction
  over orders, trades and positions, the rows and prices it writes, and the three
  together over a stream of received commands.
- **Rate limiters** (`TokenBucket`, `FixedWindow`), with bounds over every interval
  of every run.
- **Candle ingestion** (`CandlePipeline`): bounded duplicate filter and the batching
  sink to two logs, with faults in the middle of a flush.
- **Incremental indicators** (`Ema`, `Rsi`, `Macd`, `Vwap`, `SymbolFeatures`): one
  update a bar against definitions over the whole history, and the per-symbol state
  that holds two EMAs twice.
- **The hand-written wire formats** (`Wire`, `EnvelopeCodec`, `PredictionCodec`,
  `FeatureStateCodec`): round trips, injectivity, and which byte strings a decoder
  accepts without being the encoding of what it returns.

`f64` arithmetic is exact real arithmetic; NaN and the infinities are kept as values
where the code tests for them (`Numbers.F64`). `sqrt` is a parameter with its
defining equation. Clocks, failures, answers of brokers, handlers and databases, and
the reading of order ids as UUIDs are inputs.

## Where the code and its claims differ

- Module documentation of the consumer says an offset is committed only after the
  handler returned Ok; in every configuration a message that failed every attempt
  is committed past too (`KafkaConsumer.CommittedWithoutOk`). Nothing is lost exactly
  when a dead-letter queue is attached and its failures are fatal
  (`KafkaConsumer.NeverLosesExactly`). Commits are asynchronous, so an accepted
  commit does not rule out a second delivery (`KafkaConsumer.AcceptedCommitCanBeLost`
  gives a run): only the committed offset does (`KafkaConsumer.RedeliveryExactly`).
- A position moves even when its fill is skipped as a duplicate, and a side other
  than BUY and SELL is traded as BUY while the position goes down; positions and
  trades stay in agreement exactly otherwise (`OrderStore.AgreementKeptExactly`).
  An order handled twice has its quantity in the trades twice
  (`OrderRouter.HandledTwiceAgreesExactly`).
- The engine rejects a factor whose given current value is not finite; the dashboard
  silently falls back to the last value of the series. That is the only difference
  in preparing a factor (`ZscoreDashboard.PrepareAgreesExactly`). Of a given current
  volatility that is not finite the engine says that it is missing and closes the
  gate, while the dashboard again falls back to the last value
  (`ZscoreDashboard.VolatilityGatesAgreeExactly`). A weight that is not finite changes
  the dashboard's list of suppression reasons, and only that, exactly when it moves
  the total to the other side of EPSILON: without a negative decay, when the finite
  weights sum to at most EPSILON (`ZscoreDashboard.AssembliesAgreeExactly`,
  `ZscoreDashboard.TotalsWithoutNegativeDecay`). U+0085 around a regime is trimmed
  by the engine alone and U+FEFF by the dashboard alone
  (`ZscoreDashboard.RegimeGatesAgreeExactly`). Together these are all the
  differences between the two builders (`ZscoreDashboard.BuildersAgreeExactly`).
- The branch that rejects a factor for an insufficient finite overlap can never be
  taken (`ZscoreModel.AlignedTailsAreFinite`).
- Under a negative winsorizing bound, reversing the axis of a factor reverses its
  part of the signal (`ZscoreAffine.NegativeBoundReverses`). Preparation mirrors a
  reversed axis, changes that move a spread across EPSILON aside, exactly when no
  direction hint pins it and no negative bound is met
  (`ZscoreAffine.PrepareMirrorsExactly`).
- The row about a whole tree shows `(root)`, which parses to a key of that name:
  setting that path adds a field instead of replacing the tree
  (`ConfigPath.RootRowMisleads`). It is the only row about plain keys that does not
  parse back (`ConfigPath.PrintedRowsParseExactly`).
- The fixed-window limiter is introduced as a sliding-window one
  (`libs/rust/hft_redis/src/rate_limit.rs:45`); twice the limit, or
  one less, passes within one window's length (`FixedWindow.MostIsAdmitted`), and
  with a time to live of 0 it does not limit (`FixedWindow.LimitsExactly`). A token
  request above the capacity is never granted (`TokenBucket.SleepSufficesExactly`).
- MACD is documented to return values once fully warmed up; `ready()` turns true one
  bar before the first values (`SymbolFeatures.MacdAnnouncedEarlyExactly`).
- The VWAP session is documented to reset at midnight UTC; before 1970 the truncating
  division puts every time that is not a midnight in the session of the day after
  (`Vwap.DayIsCalendarDayExactly`).
- A prediction message cut off inside its version string decodes without an error
  (`PredictionCodec.CutOffVersionAccepted`).

## Model

| member | source | states |
|---|---|---|
| Statistics.PearsonCorrelation | services/strategy_engine/signal_engine/src/zscore_model.rs:656-688 | the correlation of the common tail of the two series, 0 below two values or at negligible variance |
| Statistics.AccumulateMoments | services/strategy_engine/signal_engine/src/zscore_model.rs:671-681 | the accumulator loop computes the three sums of products of deviations |
| Statistics.SanitizeAlignedPair | services/strategy_engine/signal_engine/src/zscore_model.rs:636-654 | exactly the pairs of the aligned tails in which both values are finite, in order |
| Statistics.SanitizeConcat | services/strategy_engine/signal_engine/src/zscore_model.rs:628-634 | sanitizing a concatenation is sanitizing its parts: values are kept or dropped one by one, in order |
| Statistics.CauchySchwarz | services/strategy_engine/signal_engine/src/zscore_model.rs:671-681 | the squared covariance never exceeds the product of the two variances the loop accumulates |
| Statistics.PearsonInUnitInterval | services/strategy_engine/signal_engine/src/zscore_model.rs:656-688 | the correlation lies in [-1, 1] for every pair of series |
| Statistics.PearsonAffine | services/strategy_engine/signal_engine/src/zscore_model.rs:656-688 | changing one series to a*x + b multiplies the correlation by the sign of a, if the variance stays on its side of the gate |
| StatisticsCorrelation.PearsonIsMeanProduct | services/strategy_engine/signal_engine/src/zscore_model.rs:656-688 | the correlation of any two series is the mean product of their common tails once these are normalized, and 0 below two common entries or when a tail hardly varies |
| StatisticsCorrelation.PerfectCorrelationExactly | services/strategy_engine/signal_engine/src/zscore_model.rs:656-688 | the correlation is 1 or -1 exactly when one series is an affine image of the other |
| Statistics.ZscoreAffine | services/strategy_engine/signal_engine/src/zscore_model.rs:156-164 | the z-score of a changed value against the changed series is the z-score times the sign of a |
| Statistics.NormalizedMoments | services/strategy_engine/signal_engine/src/zscore_model.rs:167-183 | a normalized series has mean 0 and mean square 1, or is all zeros when the deviation is at most EPSILON |
| Statistics.DetectedSignAffine | services/strategy_engine/signal_engine/src/zscore_model.rs:185-196 | changing the factor to a*x + b turns the detected sign with the sign of a, and a factor without a sign gets none |
| Statistics.TailPush | services/strategy_engine/signal_engine/src/main.rs:444-449 | a capped queue holds the last values ever pushed: capping after every push is capping once |
| ZscoreModel.AlignedTailsAreFinite | services/strategy_engine/signal_engine/src/zscore_model.rs:420-433 | pairing two sanitized tails drops nothing, so the rejection for insufficient finite overlap is dead code |
| ZscoreModel.RankRowsSpec | services/strategy_engine/signal_engine/src/zscore_model.rs:237-245 | ranking is a permutation in descending absolute correlation, ties in input order |
| ZscoreModel.RankingIsDetermined | services/strategy_engine/signal_engine/src/zscore_model.rs:240-245 | a stable descending sort has only one possible result, so any correct sort routine gives this ranking |
| ZscoreModel.PassedRowsSpec | services/strategy_engine/signal_engine/src/zscore_model.rs:237-238 | the filter keeps exactly the passed rows, in input order |
| ZscoreModel.AssignWeights | services/strategy_engine/signal_engine/src/zscore_model.rs:247-264 | the in-place loop gives every ranked row its mode's weight, zeroed when not finite, and its signed score |
| ZscoreModel.BuildLookups | services/strategy_engine/signal_engine/src/zscore_model.rs:315-320 | the two maps hold, for every ranked factor and no other, its one-based rank and its row |
| ZscoreModel.ReportContributions | services/strategy_engine/signal_engine/src/zscore_model.rs:322-358 | the report has one row a factor in input order: its ranked row's share, or the zero row with its reject reason |
| ZscoreModel.BuildZscoreSignal | services/strategy_engine/signal_engine/src/zscore_model.rs:198-373 | the imperative builder returns the specified result for every input, the one the lemmas about the signal are about |
| ZscoreAttribution.ContributionsSumToSignal | services/strategy_engine/signal_engine/src/zscore_model.rs:280-358 | contributions reported in input order sum to the signal computed in rank order; a suppressed signal is 0 |
| ZscoreAttribution.ScatterKeepsSum | services/strategy_engine/signal_engine/src/zscore_model.rs:322-358 | rearranging a ranked column by factor index keeps its sum |
| ZscoreAttribution.WeightsAreNormalized | services/strategy_engine/signal_engine/src/zscore_model.rs:266-286 | reported weights are non-negative, and sum to 1 exactly when the total weight exceeds EPSILON |
| ZscoreAttribution.RanksOrderFactors | services/strategy_engine/signal_engine/src/zscore_model.rs:237-358 | reported ranks number exactly the passed factors 1..used without gap or repeat, in non-increasing absolute correlation |
| ZscoreAttribution.SignalIsBounded | services/strategy_engine/signal_engine/src/zscore_model.rs:198-373 | with hints that are signs and non-negative decay and bound, the signal stays within the winsorizing bound |
| ZscoreWeights.EqualModeWeighs | services/strategy_engine/signal_engine/src/zscore_model.rs:247-264 | in equal mode every passed factor is reported with the normalized weight 1 / used |
| ZscoreWeights.EqualModeAverages | services/strategy_engine/signal_engine/src/zscore_model.rs:280-286 | in equal mode a signal that is not suppressed is the mean of sign times z-score over the passed factors |
| ZscoreWeights.ManualModeWeighs | services/strategy_engine/signal_engine/src/zscore_model.rs:247-264 | in manual mode a passed factor's raw weight is its own weight, 0 unless positive and finite |
| ZscoreWeights.CorrelationModeWeighs | services/strategy_engine/signal_engine/src/zscore_model.rs:247-264 | in correlation mode it is that times the size of the reported correlation |
| ZscoreWeights.RankedModeWeighs | services/strategy_engine/signal_engine/src/zscore_model.rs:247-264 | in ranked mode it is that times one decay for every reported rank behind the first |
| ZscoreWeights.WeightsInProportion | services/strategy_engine/signal_engine/src/zscore_model.rs:272-286 | normalized weights of passed factors are in proportion to their raw ones |
| ZscoreWeights.ReportsPreparation | services/strategy_engine/signal_engine/src/zscore_model.rs:322-358 | every factor is reported with its name and what preparation found, contributing its weight times sign times z-score |
| ZscoreWeights.PassedCorrelation | services/strategy_engine/signal_engine/src/zscore_model.rs:390-460 | a passed factor's correlation is that of the last values both series have within the window, reaches the gate, and gives the sign unless a hint does |
| ZscoreWeights.ScoreIsWinsorized | services/strategy_engine/signal_engine/src/zscore_model.rs:460-488 | its z-score is that of its given current value, or else its last one, against the last window, cut off at the winsorizing bound |
| ZscoreAffine.AffineInvariance | services/strategy_engine/signal_engine/src/zscore_model.rs:198-373 | changing each factor's series and current value by its own a*x + b, reversing only axes that preparation mirrors, leaves the whole result as it was, except that a reversed factor reports correlation, sign and z-score negated |
| ZscoreAffine.PrepareMirrorsExactly | services/strategy_engine/signal_engine/src/zscore_model.rs:375-488 | preparing a changed factor rejects it for the same reason or scores it with correlation, sign and z-score turned together, except exactly when its axis is reversed and it gets as far as its correlation although a direction hint other than 0 pins its sign, or it passes under a negative winsorizing bound |
| ZscoreAffine.AssembleMirrors | services/strategy_engine/signal_engine/src/zscore_model.rs:237-373 | ranking, weights, signal and report do not tell mirrored rows from the originals |
| ZscoreAffine.ClampIsOddExactly | services/strategy_engine/signal_engine/src/zscore_model.rs:471-475 | the winsorizing clamp treats a value and its negation alike exactly when its bound is not negative |
| ZscoreAffine.NegativeBoundReverses | services/strategy_engine/signal_engine/src/zscore_model.rs:375-488 | under a negative winsorizing bound, reversing the axis of a passed factor without a hint leaves its z-score at the bound and negates its signed score |
| ZscoreDashboard.BuildersAgreeExactly | apps/web_dashboard/src/lib/alpha/zscoreSignal.ts:298-604 | dashboard and engine return the same result up to the list of reasons exactly when every current value that is read is absent or finite and each gate gives the same verdict in both; and the same result altogether exactly when, besides, regime, current volatility and total weight are read alike |
| ZscoreDashboard.PrepareAgreesExactly | apps/web_dashboard/src/lib/alpha/zscoreSignal.ts:334-471 | the two prepare a factor alike except exactly when its current value is read and is given but not finite; then only the dashboard passes it |
| ZscoreDashboard.VolatilityGatesAgreeExactly | apps/web_dashboard/src/lib/alpha/zscoreSignal.ts:191-228 | the two volatility gates answer alike except exactly when the current volatility is read and is given but not finite; then the engine closes the gate |
| ZscoreDashboard.RegimeGatesAgreeExactly | apps/web_dashboard/src/lib/alpha/zscoreSignal.ts:165-189 | the two regime gates answer alike exactly when the two runtimes trim the current regime to the same text, or to two that are both allowed or both non-empty with nothing allowed; and give the same verdict exactly when both or neither of the two texts is allowed |
| ZscoreDashboard.MarkedRegimeDiffers | apps/web_dashboard/src/lib/alpha/zscoreSignal.ts:173 | an allowed regime behind a byte order mark, which passes the dashboard's gate and not the engine's |
| Text.TrimsAgreeExactly | services/strategy_engine/signal_engine/src/zscore_model.rs:535-538 | Rust and JavaScript trim a text alike exactly when, inside the white space both know, neither end is U+0085 or U+FEFF |
| ZscoreDashboard.WeightsAgree | apps/web_dashboard/src/lib/alpha/zscoreSignal.ts:478-513 | discarding non-finite weights late, and a NaN-propagating maximum, end in the engine's raw weight |
| ZscoreDashboard.AssembliesAgreeExactly | apps/web_dashboard/src/lib/alpha/zscoreSignal.ts:473-604 | from the same prepared rows the results differ in nothing but the reasons exactly when the gates give the same verdicts, and not even in those exactly when the gates answer alike and the dashboard total, which includes non-finite weights, falls on the same side of EPSILON |
| ZscoreDashboard.TotalsWithoutNegativeDecay | apps/web_dashboard/src/lib/alpha/zscoreSignal.ts:478-515 | without a negative decay that is exactly when some weight is not finite and the finite ones sum to at most EPSILON |
| ZscoreDashboard.NaNWeightHidesReason | apps/web_dashboard/src/lib/alpha/zscoreSignal.ts:503-513 | a factor with a NaN weight for which the engine reports a zero total and the dashboard does not |
| ZscoreDashboard.NaNValueDiffers | apps/web_dashboard/src/lib/alpha/zscoreSignal.ts:434-449 | a factor whose given current value is NaN, which the dashboard passes and the engine rejects |
| ZscoreDashboard.NaNVolatilityDiffers | apps/web_dashboard/src/lib/alpha/zscoreSignal.ts:207-213 | a filter whose given current volatility is NaN, where the dashboard's gate is open and the engine's closed |
| ZscoreDashboardRows.BuildZScoreSignal | apps/web_dashboard/src/lib/alpha/zscoreSignal.ts:298-604 | the version on shared mutable row objects returns the specified result |
| ZscoreDashboardRows.BuildFromRows | apps/web_dashboard/src/lib/alpha/zscoreSignal.ts:473-604 | everything after preparation, on row objects that are ranked, weighed and reported in place |
| ZscoreDashboardRows.RankAndWeigh | apps/web_dashboard/src/lib/alpha/zscoreSignal.ts:473-515 | after both passes the objects hold the final weights, while the reported total is the sum before non-finite weights were zeroed |
| ZscoreDashboardRows.AssignWeights | apps/web_dashboard/src/lib/alpha/zscoreSignal.ts:478-501 | the first pass sets each distinct row object's weight and contribution |
| ZscoreDashboardRows.ZeroNonFinite | apps/web_dashboard/src/lib/alpha/zscoreSignal.ts:511-513 | the second pass zeroes exactly the weights that are not finite |
| ZscoreDashboardRows.Report | apps/web_dashboard/src/lib/alpha/zscoreSignal.ts:549-589 | looking the shared objects up by factor index reports the same rows as the ranking order says |
| ZscoreDashboardRows.SortRowsSpec | apps/web_dashboard/src/lib/alpha/zscoreSignal.ts:473-475 | sorting the objects is the stable ranking of their columns and invents no object |
| SignalEngine.Engine.HandleFeature | services/strategy_engine/signal_engine/src/main.rs:163-205 | one feature changes its symbol's queues as specified and leaves every other symbol alone |
| SignalEngine.SnapshotMeasures | services/strategy_engine/signal_engine/src/main.rs:466-500 | each factor is in the snapshot exactly when what it is computed from is finite: the spread of the averages times the slow one is their difference, RSI and ADX are about 50 and 25, three are as they are, and nothing else is in it |
| SignalEngine.VolatilityValue | services/strategy_engine/signal_engine/src/main.rs:451-464 | the volatility times the price is the average range, or else the size of the volatility z-score |
| SignalEngine.SnapshotInAnyUnit | services/strategy_engine/signal_engine/src/main.rs:451-500 | changing the price unit changes only the MACD histogram |
| SignalEngine.ReturnGrowsPrice | services/strategy_engine/signal_engine/src/main.rs:187-188 | a return is what the price before grew by |
| SignalEngine.PushCapped | services/strategy_engine/signal_engine/src/main.rs:444-449 | the queue ends as the last `max_len` of its values and the new one |
| SignalEngine.PushPending | services/strategy_engine/signal_engine/src/main.rs:195-199 | every factor of the previous bar is pushed onto its own history and no other history changes |
| SignalEngine.SymbolsAreIndependent | services/strategy_engine/signal_engine/src/main.rs:163-205 | a symbol's state after any stream depends only on its own accepted bars |
| SignalEngine.HistoriesExactly | services/strategy_engine/signal_engine/src/main.rs:179-205 | after any bars the queues hold the last returns and, for each factor, its last values in bars before the current one |
| SignalEngine.NoLookAhead | services/strategy_engine/signal_engine/src/main.rs:184-205 | replacing the current bar's factors changes no history used for its own signal |
| SignalEngine.PairsWithNextReturnExactly | services/strategy_engine/signal_engine/src/main.rs:184-205 | counted from the end, beside the return from bar k to bar k+1 stands the value of bar k exactly when the factor was in every bar since, and otherwise the value of an earlier bar |
| SignalEngine.HistoriesSameLengthExactly | services/strategy_engine/signal_engine/src/main.rs:184-205 | a factor history is as long as the return history exactly when the factor was in every earlier bar or often enough to fill its queue |
| SignalEngine.InputsUsePastFactors | services/strategy_engine/signal_engine/src/main.rs:502-538 | the model's input takes the current value from the bar and both series only from bars before it |
| SignalEngine.InputsExactly | services/strategy_engine/signal_engine/src/main.rs:502-538 | the model is given exactly the known factors that have a current value and enough history, and none without enough returns |
| SignalEngine.InputWeights | services/strategy_engine/signal_engine/src/main.rs:540-550 | the weight each factor is given |
| KafkaConsumer.RunWithRetry | libs/rust/hft_mq/src/consumer.rs:256-286 | the handler is called until its first Ok or max_retries + 1 times, sleeping the backoffs in between, k of which that never meet the cap add up to initial * (2^k - 1); the code after the loop is unreachable |
| KafkaConsumer.BackoffDoubles | libs/rust/hft_mq/src/config.rs:25-29 | the first wait is the initial one, each of the next ten is twice the one before, none exceeds the cap, and later ones stay the same |
| KafkaConsumer.BackoffMonotone | libs/rust/hft_mq/src/config.rs:25-29 | later attempts never wait less than earlier ones |
| KafkaConsumer.SleepIsBounded | libs/rust/hft_mq/src/consumer.rs:263-282 | one delivery sleeps at most max_retries times the maximal backoff |
| KafkaConsumer.StepKeepsInv | libs/rust/hft_mq/src/consumer.rs:177-252 | every step, whatever handler, queue and commits answer, crashes included, keeps everything fetched, in flight or committed settled |
| KafkaConsumer.RunKeepsInv | libs/rust/hft_mq/src/consumer.rs:166-252 | the invariant holds after every run with crashes, restarts and commits applied late or never |
| KafkaConsumer.AtLeastOnce | libs/rust/hft_mq/src/consumer.rs:166-252 | every record below a committed offset was handled Ok or failed max_retries + 1 times in one delivery, and is then in a fatal dead-letter queue |
| KafkaConsumer.NeverLosesExactly | libs/rust/hft_mq/src/consumer.rs:231-248 | no run commits past an unhandled message outside the dead-letter queue exactly when a queue is attached and its failures are fatal |
| KafkaConsumer.NoRedeliveryWithoutRestart | libs/rust/hft_mq/src/consumer.rs:177-252 | without a restart, deliveries of a partition come in strictly increasing offsets |
| KafkaConsumer.RedeliveryExactly | libs/rust/hft_mq/src/commit.rs:25-41 | after any run, a message delivered before can be delivered again after a restart exactly when its offset is not below the committed one, whether or not its own commit was accepted |
| KafkaConsumer.CommittedWithoutOk | libs/rust/hft_mq/src/consumer.rs:222-249 | in every configuration some run commits past a message whose handler never returned Ok |
| KafkaConsumer.Consumer.ProcessMessage | libs/rust/hft_mq/src/consumer.rs:193-250 | one pass of the loop is one delivery step of the state machine |
| KafkaConsumer.Consumer.GiveUp | libs/rust/hft_mq/src/consumer.rs:222-249 | the error arm publishes to the queue, stops if that is fatal, and otherwise commits past the message |
| KafkaConsumer.Consumer.CommitOffset | libs/rust/hft_mq/src/commit.rs:25-41 | enqueues offset + 1, or ends the loop |
| KafkaConsumer.Consumer.Run | libs/rust/hft_mq/src/consumer.rs:166-252 | the loop refines the state machine over every input sequence and ends early only on a fatal error |
| ConfigTree.GetAfterSet | apps/web_dashboard/src/app/settings/page.tsx:147-166 | reading a path just set gives the value, for every tree and path |
| ConfigTree.SetAfterSet | apps/web_dashboard/src/app/settings/page.tsx:147-166 | the second of two sets of one path wins, key order included |
| ConfigTree.SetElsewhereExactly | apps/web_dashboard/src/app/settings/page.tsx:147-166 | setting a path leaves every diverging path as it was exactly when no node on the way is replaced by one of the other kind while it has a child |
| ConfigTree.RemoveUndoesAdd | apps/web_dashboard/src/app/settings/page.tsx:168-197 | removing a value added at a fresh place gives back the tree itself |
| ConfigDiff.DiffConfigs | apps/web_dashboard/src/app/settings/page.tsx:60-145 | the recursion that pushes rows in loops lists the specified rows under the path it is given |
| ConfigDiff.DiffItems | apps/web_dashboard/src/app/settings/page.tsx:65-98 | the loop over the longer array's indexes: added, removed or recursively compared items in order |
| ConfigDiff.DiffFields | apps/web_dashboard/src/app/settings/page.tsx:100-135 | the loop over the sorted union of keys: added, removed or recursively compared fields in order |
| ConfigDiff.SortedUnionSpec | apps/web_dashboard/src/app/settings/page.tsx:102-104 | the keys visited are the union of both objects' keys, each once, ascending |
| ConfigDiff.PatchReachesTarget | apps/web_dashboard/src/app/settings/page.tsx:60-197 | setting added and changed rows in order and removing removed rows in reverse turns `before` into `after` up to key order |
| ConfigDiff.DiffPrefixFree | apps/web_dashboard/src/app/settings/page.tsx:60-145 | the paths of a diff are pairwise prefix-free |
| ConfigDiff.EmptyDiffExactly | apps/web_dashboard/src/app/settings/page.tsx:60-145 | the diff is empty exactly when the trees are equal up to key order |
| ConfigReverse.DiffReverses | apps/web_dashboard/src/app/settings/page.tsx:60-145 | the diff the other way round has the same rows in the same order with before and after, and ADDED and REMOVED, exchanged |
| ConfigReverse.ReversedPatchUndoes | apps/web_dashboard/src/app/settings/page.tsx:60-197 | applying the rows of a diff reversed takes `after` back to `before` up to key order |
| ConfigListOrder.ListOrderReachesExactly | apps/web_dashboard/src/app/settings/page.tsx:60-197 | with removed rows taken in list order instead, the target is reached exactly when no two compared arrays lose more than one trailing item |
| ConfigPath.SurvivesExactly | apps/web_dashboard/src/app/settings/page.tsx:33-145 | what a row shows parses back to the row's path exactly when the row is not about the whole tree, every key is non-empty, not all digits and free of dots and of bracketed digits, and its ends have no white space to trim |
| ConfigPath.ParsedKeysArePlain | apps/web_dashboard/src/app/settings/page.tsx:33-40 | every key that parsing any text returns is such a key |
| ConfigPath.ShownAlikeExactly | apps/web_dashboard/src/app/settings/page.tsx:60-145 | two rows about such keys show the same exactly when their paths are the same, or one is about the whole tree and the other about a top-level field named `(root)` |
| ConfigPath.PrintedRowsParseExactly | apps/web_dashboard/src/app/settings/page.tsx:33-145 | every path a diff of trees with such keys shows parses to the place its row is about, exactly when the trees are equal, both arrays or both objects |
| ConfigPath.RootRowMisleads | apps/web_dashboard/src/app/settings/page.tsx:137-144 | a diff whose only row is about the whole tree, and the field that setting the value at the path it shows creates instead |
| OrderDedup.DedupCache.SeenRecentlyOrInsert | services/execution_router/src/oms/dedup.rs:20-32 | answers from, and updates, the swept entries |
| OrderDedup.DedupCache.CleanupIfNeeded | services/execution_router/src/oms/dedup.rs:34-39 | above the size threshold exactly the expired entries are dropped |
| OrderDedup.SweepingIsInvisible | services/execution_router/src/oms/dedup.rs:20-39 | at advancing times every call is answered as by a map that never forgets |
| OrderDedup.RejectedExactly | services/execution_router/src/oms/dedup.rs:20-39 | a call is rejected exactly when an earlier call for its id was accepted no more than the time to live before |
| OrderDedup.AcceptedCallsApart | services/execution_router/src/oms/dedup.rs:20-39 | two accepted calls for one id are more than the time to live apart |
| OrderStore.DbWriter.PersistExecution | services/execution_router/src/store/writer.rs:28-63 | one atomic transaction: all three tables change as specified, or nothing does |
| OrderStore.DbWriter.UpsertOrder | services/execution_router/src/store/writer.rs:65-121 | the order row is inserted, or its status and cumulative quantities are overwritten |
| OrderStore.DbWriter.InsertFillIdempotent | services/execution_router/src/store/writer.rs:164-207 | a trade row is added unless its key is taken |
| OrderStore.DbWriter.UpdatePosition | services/execution_router/src/store/writer.rs:209-241 | the signed quantity is added to the account's position |
| OrderStore.PersistedQty | services/execution_router/src/store/writer.rs:28-241 | how one committed report moves every position and every account's net traded quantity |
| OrderStore.AgreementKeptExactly | services/execution_router/src/store/writer.rs:164-241 | positions keep equal to the signed sums of trades exactly when the report fills nothing, or has side BUY or SELL and a new fill key |
| OrderRouter.ReportsConserveQty | services/execution_router/src/producers/execution_reports.rs:42-86 | every cumulative quantity is the sum of the fills so far, every fill is positive, and an accepted order ends FILLED for its quantity |
| OrderRouter.FillIdsDistinct | services/execution_router/src/producers/execution_reports.rs:42-86 | no two reports of an order share a fill id |
| OrderRouter.Router.HandleOrder | services/execution_router/src/main.rs:122-151 | exactly a prefix of the order's reports is committed, all of them when nothing fails |
| OrderRouter.Router.Receive | services/execution_router/src/main.rs:79-119 | unnamed and recently seen commands touch no table; any other is handled |
| OrderRouter.PositionsAlwaysAgree | services/execution_router/src/store/writer.rs:28-241 | at every committed step of any run with sides BUY or SELL in which no fill finds its key taken, each position is the signed sum of its trades |
| OrderRouter.KeysNeverMeetWhen | services/execution_router/src/producers/execution_reports.rs:42-86 | from empty tables no fill finds its key taken when orders have different texts, whatever the clock shows, and one text is handled again only at later clock readings |
| OrderRouter.TextsKeepKeysApart | services/execution_router/src/producers/execution_reports.rs:42-86 | fills of orders with different texts never share a key, at whatever clock readings |
| OrderRouter.OrderHandledOnceAgrees | services/execution_router/src/main.rs:101-151 | in any run in which an order is handled once, at whatever clock readings, its row's filled quantity is the sum of its trades at every committed step, and ends FILLED at the order's quantity |
| OrderRouter.HandledTwiceAgreesExactly | services/execution_router/src/main.rs:101-151 | for an order handled twice, with all fill keys different, row and trades agree exactly when the first time filled nothing |
| OrderPrices.CompletedTrades | services/execution_router/src/producers/execution_reports.rs:42-111 | the trade rows of an order handled to the end, field by field: two fills of max(0.4 * qty, 0.0001) and the rest, or one, at the order's price or at 62000 without one |
| OrderPrices.CompletedRow | services/execution_router/src/producers/execution_reports.rs:42-111 | its order row ends FILLED for its quantity with that price as average |
| OrderPrices.HalfwayRow | services/execution_router/src/producers/execution_reports.rs:42-86 | before that the row reads NEW for nothing, then PARTIALLY_FILLED for the first fill at that price |
| OrderPrices.CompletedPosition | services/execution_router/src/store/writer.rs:209-241 | its position moves by its quantity, up for BUY and down otherwise, with that price as entry price, and no other position changes |
| OrderPrices.NothingTraded | services/execution_router/src/producers/execution_reports.rs:88-99 | a cancel, and an order without a positive quantity, change no trade and no position and put CANCELED or REJECTED on the row |
| OrderPrices.TradesExplained | services/execution_router/src/main.rs:122-151 | after any run every trade was stored before or is a fill of a handled order, on its account and side and at its price |
| OrderPrices.HandledOnceValue | services/execution_router/src/main.rs:101-151 | in any run in which an order is handled once its trades cost the traded quantity at its price; handled to the end, the row's average price is the quantity-weighted price of its trades |
| OrderStream.StreamIsRun | services/execution_router/src/main.rs:79-119 | the tables after a stream of received commands are those after a run of exactly the commands the filter lets through |
| OrderStream.RememberedOrderAgrees | services/execution_router/src/main.rs:79-151 | row and trades of an order agree after every stream in which each repeated receipt of it has the same text and comes within the time to live of the first |
| TokenBucket.RateLimiter.Try | libs/rust/hft_exchange/src/rate_limit.rs:23-40 | one pass under both locks: refill up to the capacity, then take the amount or say how long to sleep, which has no answer without a positive refill rate |
| TokenBucket.RateLimiter.AcquireAlone | libs/rust/hft_exchange/src/rate_limit.rs:22-42 | a lone caller returns from its first pass if the amount is there, and otherwise from its second one if the amount is within the capacity and the bucket refills |
| TokenBucket.SleepSufficesExactly | libs/rust/hft_exchange/src/rate_limit.rs:29-40 | after the sleep asked for, and with nobody else taking tokens, the amount is granted exactly when it is within the capacity; a larger one is refused in every state |
| TokenBucket.TokensInRange | libs/rust/hft_exchange/src/rate_limit.rs:22-42 | in every interleaving the tokens stay between 0 and the capacity |
| TokenBucket.GrantedIsBounded | libs/rust/hft_exchange/src/rate_limit.rs:22-42 | over every interval of every interleaving the total granted is at most the capacity plus the interval's refill |
| TokenBucket.BoundIsReachedExactly | libs/rust/hft_exchange/src/rate_limit.rs:22-42 | over every interval some run is granted exactly that much, unless the capacity is 0 and the interval refills something |
| FixedWindow.RateLimiter.IncrWithTtl | libs/rust/hft_redis/src/rate_limit.rs:35-80 | the script counts a call and sets the expiry only on the first |
| FixedWindow.RateLimiter.IncrCheck | libs/rust/hft_redis/src/rate_limit.rs:104-112 | the call is exceeded exactly when its count is above the limit |
| FixedWindow.CountIsCallsSinceOpening | libs/rust/hft_redis/src/rate_limit.rs:35-41 | the count is the number of calls since the window opened, all of them inside it, the first of them its opener |
| FixedWindow.WindowBoundKept | libs/rust/hft_redis/src/rate_limit.rs:66-112 | the current window admits at most the limit, and the one before it at most the limit more, within any interval no longer than the window |
| FixedWindow.AtMostTwiceTheLimit | libs/rust/hft_redis/src/rate_limit.rs:66-112 | any interval no longer than the window admits at most twice the limit, one less on a store that keeps a key through its deadline |
| FixedWindow.MostIsAdmitted | libs/rust/hft_redis/src/rate_limit.rs:66-112 | for every positive time to live and limit a run reaches that bound |
| FixedWindow.LimitsExactly | libs/rust/hft_redis/src/rate_limit.rs:35-41 | some number bounds what every interval no longer than the window admits, exactly when the time to live is positive or the limit is 0 |
| FixedWindow.LeastBound | libs/rust/hft_redis/src/rate_limit.rs:66-112 | and then exactly the numbers from twice the limit, or one less on a store that keeps the deadline tick, do |
| CandlePipeline.DedupeCache.InsertIfNew | services/marketdata_ingestor/src/candle.rs:204-220 | a key is new exactly when it is not in the queue; queue and set stay equal and duplicate-free |
| CandlePipeline.CacheIsLastAccepted | services/marketdata_ingestor/src/candle.rs:195-220 | the cache holds exactly the last `capacity` accepted keys |
| CandlePipeline.AcceptedRepeatsFarApart | services/marketdata_ingestor/src/candle.rs:195-220 | two accepted candles with one key are more than `capacity` accepted candles apart |
| CandlePipeline.Sink.FlushBatch | services/marketdata_ingestor/src/candle.rs:625-677 | the insert is one step, the sends are one by one, and a fault leaves the batch in place |
| CandlePipeline.Sink.HandleEvent | services/marketdata_ingestor/src/candle.rs:585-623 | one turn of the select loop: item, tick or closed channel |
| CandlePipeline.SinkAlwaysInOrder | services/marketdata_ingestor/src/candle.rs:585-677 | in every run the Kafka log is a prefix of the ClickHouse log and that of what was received; while the loop lives, log plus batch is what was received and the batch is below its size |
| CandlePipeline.AtMostOneBatchBehind | services/marketdata_ingestor/src/candle.rs:585-677 | in every run, whatever fails, ClickHouse is at most one batch behind what was received and Kafka at most one behind ClickHouse |
| CandlePipeline.WholeBatchCanBeLeft | services/marketdata_ingestor/src/candle.rs:625-677 | for every batch size a failing insert, and a failing first send, leave a whole batch behind |
| CandlePipeline.CleanShutdownDeliversAll | services/marketdata_ingestor/src/candle.rs:585-623 | a loop that ends without a fault has delivered everything to both logs |
| CandlePipeline.TickDeliversAll | services/marketdata_ingestor/src/candle.rs:585-623 | a tick without a fault empties the batch, and both logs then hold everything received |
| CandlePipeline.LogsCarryAcceptedCandles | services/marketdata_ingestor/src/candle.rs:195-677 | however the channel interleaves the workers, each worker's filtered stream reaches both logs in order, rows of one candle more than `capacity` of its rows apart |
| Ema.EmaState.Update | services/feature_engine/src/indicators/ema.rs:32-40 | the new value is the weighted sum over all prices seen, handed out from the period-th price on |
| Ema.EmaState.UpdateRaw | services/feature_engine/src/indicators/ema.rs:44-47 | the same value regardless of warmup |
| Ema.AverageStep | services/feature_engine/src/indicators/ema.rs:32-40 | one step of the recurrence moves the whole weighted sum, weights alpha(1-alpha)^i and (1-alpha)^(n-1) on the first price, forward |
| Ema.WeightsSumToOne | services/feature_engine/src/indicators/ema.rs:32-40 | those weights sum to 1 |
| Ema.AverageInHull | services/feature_engine/src/indicators/ema.rs:32-40 | the average stays between the lowest and the highest price |
| Ema.AverageAffine | services/feature_engine/src/indicators/ema.rs:32-40 | the average commutes with every change of unit and origin |
| Ema.EmaRecurrence | services/feature_engine/src/indicators/ema.rs:21-40 | the first price is the EMA, and period + 1 times the next EMA is twice the price and period - 1 times the EMA before |
| Ema.MeanAge | services/feature_engine/src/indicators/ema.rs:21-40 | the mean age of the prices in an EMA of n bars is (period - 1)/2 times 1 - ((period - 1)/(period + 1))^(n - 1) |
| Rsi.RsiState.Update | services/feature_engine/src/indicators/rsi.rs:44-85 | the RSI of the whole close history from the bar after the period-th, nothing before |
| Rsi.RsiInRange | services/feature_engine/src/indicators/rsi.rs:44-94 | RSI lies in [0, 100] and is 100 exactly when no close in the history fell |
| Rsi.RsiIsShare | services/feature_engine/src/indicators/rsi.rs:44-94 | RSI times the sum of average gain and average loss is a hundred times the average gain; without any movement it is 100 |
| Rsi.RsiScaleInvariant | services/feature_engine/src/indicators/rsi.rs:44-94 | multiplying every close by a positive factor leaves RSI unchanged |
| Rsi.RsiReflectsExactly | services/feature_engine/src/indicators/rsi.rs:44-94 | RSI of the closes and of their negations sum to 100 exactly when some close differs from the one before |
| Macd.MacdState.Update | services/feature_engine/src/indicators/macd.rs:38-61 | values of the whole history, first at bar slow + signal + 1; ready exactly from bar slow + signal |
| Macd.MacdAffine | services/feature_engine/src/indicators/macd.rs:38-61 | the three values scale with the price unit and ignore the price origin; a flat series gives zeros |
| Vwap.VwapState.Update | services/feature_engine/src/indicators/vwap.rs:33-58 | traded value over volume of the current session's bars, 0 without volume |
| Vwap.SessionIsLongestRun | services/feature_engine/src/indicators/vwap.rs:33-41 | the session is the longest run of bars of one day that ends the history |
| Vwap.DayIsCalendarDayExactly | services/feature_engine/src/indicators/vwap.rs:35 | the session day is the calendar day exactly for times from 1970 on and for midnights |
| Vwap.VwapInSessionRange | services/feature_engine/src/indicators/vwap.rs:43-58 | with some volume, VWAP lies between the lowest and highest typical price of the session |
| Vwap.VwapBetweenLowsAndHighs | services/feature_engine/src/indicators/vwap.rs:43-58 | with closes between their lows and highs and some volume, VWAP lies between the lowest low and the highest high of the session |
| Vwap.VwapIsWeightedMean | services/feature_engine/src/indicators/vwap.rs:43-58 | three times VWAP times the session's volume is the sum of high, low and close times volume |
| SymbolFeatures.SymbolState.Update | services/feature_engine/src/state/symbol_state.rs:87-144 | the feature vector of the whole history, with defaults before warmup and the quality mask |
| SymbolFeatures.SymbolState.UpdateOnClose | services/feature_engine/src/state/symbol_state.rs:96-119 | the EMAs, RSI and MACD of all closes and their mask bits, the two EMA copies in step |
| SymbolFeatures.SymbolState.CopiesAgree | services/feature_engine/src/state/symbol_state.rs:66-76 | MACD's fast and slow EMA always hold the values of the symbol's own |
| SymbolFeatures.VectorReports | services/feature_engine/src/state/symbol_state.rs:87-144 | every indicator stands in its own field, with 50 for an RSI that has no value yet |
| SymbolFeatures.MacdIsEmaDifference | services/feature_engine/src/state/symbol_state.rs:113-119 | once MACD has values it is the difference of the vector's EMAs and its histogram is MACD less signal; before, all three are 0 |
| SymbolFeatures.QualityNeverLosesABit | services/feature_engine/src/state/symbol_state.rs:96-124 | a bit once set stays set at every later bar |
| SymbolFeatures.QualityCompleteExactly | services/feature_engine/src/state/symbol_state.rs:96-124 | the mask is complete exactly from bar max(fast, rsi + 1, slow + signal) |
| SymbolFeatures.MacdAnnouncedEarlyExactly | services/feature_engine/src/indicators/macd.rs:36-66 | the MACD bit stands beside placeholder zeros at bar slow + signal and at no other bar |
| Wire.UnsignedOfBigEndian | libs/python/hft_proto/hft_proto/common/types.py:45-49 | unpacking undoes packing for every number that fits |
| Wire.BigEndianOfUnsigned | libs/python/hft_proto/hft_proto/common/types.py:59-69 | packing undoes unpacking for every byte string |
| Wire.SignedOfPacked | libs/python/hft_proto/hft_proto/ai/types.py:51-65 | the two's-complement format returns every 64-bit signed number |
| Wire.StringAtOffset | libs/python/hft_proto/hft_proto/common/types.py:59-67 | reading a prefixed string at an offset, slices past the end included, is reading it off the front of what is left |
| EnvelopeCodec.EncodesExactly | libs/python/hft_proto/hft_proto/common/types.py:38-51 | encoding fails exactly on a string of 65536 bytes or more or a time out of range |
| EnvelopeCodec.RoundTrip | libs/python/hft_proto/hft_proto/common/types.py:38-77 | decoding undoes encoding for every encodable message |
| EnvelopeCodec.AcceptedIsCanonical | libs/python/hft_proto/hft_proto/common/types.py:53-77 | every byte string the decoder accepts is the encoding of what it returns |
| EnvelopeCodec.EncodingIsInjective | libs/python/hft_proto/hft_proto/common/types.py:38-51 | no two messages share an encoding |
| EnvelopeCodec.FromBytes | libs/python/hft_proto/hft_proto/common/types.py:53-77 | the decoder that advances an offset returns the specified message, which encodes back to the data |
| PredictionCodec.EncodesExactly | libs/python/hft_proto/hft_proto/ai/types.py:45-56 | encoding fails exactly on a string of 65536 bytes or more or a time out of range |
| PredictionCodec.RoundTrip | libs/python/hft_proto/hft_proto/ai/types.py:45-81 | decoding undoes encoding, whatever bytes follow |
| PredictionCodec.EncodingIsPrefixFree | libs/python/hft_proto/hft_proto/ai/types.py:45-56 | no encoding starts another, so no two messages share one |
| PredictionCodec.CutOffVersionAccepted | libs/python/hft_proto/hft_proto/ai/types.py:71-73 | a message that lost the end of its version string decodes to the shorter version |
| PredictionCodec.CanonicalExactly | libs/python/hft_proto/hft_proto/ai/types.py:58-81 | what was decoded encodes back to the data exactly when the announced version string ends it |
| PredictionCodec.FromBytes | libs/python/hft_proto/hft_proto/ai/types.py:58-81 | the decoder that advances an offset returns the specified message or error |
| FeatureStateCodec.EncodesExactly | libs/python/hft_proto/hft_proto/md/types.py:39-53 | encoding fails exactly on a symbol of 65536 bytes or more or a time out of range |
| FeatureStateCodec.RoundTrip | libs/python/hft_proto/hft_proto/md/types.py:39-77 | decoding undoes encoding, whatever bytes follow |
| FeatureStateCodec.EncodingsStartAlikeExactly | libs/python/hft_proto/hft_proto/md/types.py:39-53 | one encoding starts another exactly when the messages are the same |
| FeatureStateCodec.AcceptedStartsWithEncoding | libs/python/hft_proto/hft_proto/md/types.py:55-77 | accepted data starts with the encoding of what was decoded, and is it exactly when nothing follows |
| FeatureStateCodec.FromBytes | libs/python/hft_proto/hft_proto/md/types.py:55-77 | the decoder that advances an offset returns the specified message |

## Left out

- IEEE-754 rounding, overflow to infinity and signed zeros: arithmetic is over exact reals. The configuration floats of the signal model are taken to be finite; series, weights and current values are not.
- Fractional and negative window lengths that the dashboard's configuration could hold; windows are natural numbers in both implementations.
- The four-decimal text of the out-of-range volatility reason: the reason carries the z-score itself. Texts are sequences of Unicode characters in both runtimes: lone surrogates of JavaScript strings are not modelled.
- `build_signal_record`, persistence and logging of signals, and the exit, training and order events, commissions, quote quantities and decision metadata beside the three tables: they would add only record copying.
- NUMERIC(20,8) rounding in the tables, and how text reads as a UUID (a parameter).
- The real Binance path, consumer-group rebalances, the `latest` offset reset before a first commit, and re-delivery of orders by Kafka: the code shown has one branch each or the guarantee is not intended there.
- WebSocket parsing and reconnection. The sink's channel is any interleaving of what the workers send.
- Redis `reset`, the kill switch, and errors of the store; the two readings of the tick at which a key expires are both covered.
- Fairness among the callers of the token bucket and termination of a call that competes with others; an amount above the capacity loops forever, which is stated as never being granted.
- JSON numbers, escapes and text, integer-like keys that engines enumerate first, `__proto__`, and array holes as distinct from `undefined`; path indexes beyond 2^53.
- UTF-8 of the wire strings, which are bytes here, the JSON forms of the messages, and the meaning of the eight bytes of a double.
- The `u32` counters of the indicators are unbounded: wrap-around after 2^32 bars is not modelled. The day number of VWAP is cast to 32 bits as in the code.
- Threads: the consumer's runtime, health servers, metrics, environment configuration, React rendering and SWR hooks.
