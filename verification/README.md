# ForecastIQ: a verified model

ForecastIQ collects forecasts and observations, pairs them, scores providers and ranks them. This
project models the parts of it whose correctness depends on several functions or several processes
at once, and proves what those parts promise. `dafny verify dfyconfig.toml` checks everything.

## What is modelled

| file | part of the system |
|---|---|
| `Observations.dfy` | the observation table and the dedup/correction transaction of `Observe` |
| `Matching.dfy` | candidate selection, the chunked matching pass, re-pairing after corrections |
| `Lineage.dfy` | any interleaving of observation transactions and serialized match batches |
| `SlotTable.dfy`, `LeaseProtocol.dfy`, `Attempts.dfy`, `LeaseTightness.dfy` | the slot table, the lease protocol of several scheduler instances with their tickers and pools, what attempts count, and how short a lease may be |
| `Hours.dfy`, `SlotGeneration.dfy` | which slots a run of ticks generates |
| `RealFacts.dfy`, `Sums.dfy`, `WeightedSums.dfy` | arithmetic: order-free sums, weighted Cauchy-Schwarz, degrees of freedom |
| `Intervals.dfy`, `Evaluation.dfy`, `Categorical.dfy` | confidence intervals and the streaming accumulators |
| `Aggregation.dfy`, `RowFields.dfy`, `Publication.dfy` | the metric rows of a cell and period, and insert-then-supersede publication |
| `Ranking.dfy`, `RankMonotone.dfy`, `RankLaws.dfy`, `Cohort.dfy`, `CohortFields.dfy` | the composite ranking, how it responds to an improvement, the cohort it is built from |
| `RankOrder.dfy`, `DisplayRanks.dfy`, `DocumentedTies.dfy` | tie groups, display ranks, and when the documented tie rule holds |
| `ResponseCache.dfy`, `Circuit.dfy`, `Collection.dfy`, `CollectionLaws.dfy` | the response store, the circuit breaker, collection with dedup and replay |

Conventions. A database table is a sequence in insertion order, a set or a map; a transaction is one
atomic step; unique indexes and CHECK constraints of the migrations are part of the model. `float64`
is `real`; a square root is any function that is non-negative and squares back to its argument, passed
in as a parameter. Times are integers (seconds). Identifiers are natural numbers. What an adapter,
the network or the clock returns is a parameter. Code that updates variables or fields is a method or
a class method, proved against a specification function; what is promised is then proved of that
function.

## Where the code and its documentation disagree

The model follows the code; each case has a lemma with the exact condition or a counterexample.

- Re-running a match batch is documented as creating nothing (`internal/analysis/match.go`, line 53).
  It creates nothing if and only if the re-pairing work before the first batch fits the batch limit and
  no snapshot is more than one correction behind (`Matching.RerunCreatesNothingExactlyWhen`).
- Providers whose intervals overlap are documented as sharing a rank
  (`internal/analysis/domain/methodology.go`, line 117). Over a whole display this holds if and only if
  every ranked row, and every provisional row, overlaps the first row of its status after the last place
  no overlap reaches across, and no two rows of different status overlap
  (`DocumentedTies.RuleExactlyWhen`). It fails on three rows in a chain
  (`DocumentedTies.ChainBreaksRule`) and on a ranked row that overlaps a provisional one
  (`DocumentedTies.StatusBreaksRule`).
- A half-open breaker is commented as holding further attempts back
  (`internal/catalog/domain/circuit.go`, line 75); it admits every caller (`Circuit.HalfOpenAdmitsAll`,
  and the run of `Circuit.TwoProbesAdmitted`).
- Single execution of a slot needs a timing condition that no comment states. It holds if the lease
  covers a full pool and every round of a batch, and no weaker condition will do that leaves the tick
  interval out (`LeaseTightness.SafeAtEveryIntervalExactlyWhenLeaseCovers`). With ticks so far apart
  that each one finds the pool empty, it holds if and only if the lease outlasts a job
  (`LeaseTightness.SparseTicksExactly`). The defaults satisfy the first condition.
- One observation response that corrects the same hour twice aborts its own transaction
  (`Observations.AbortsExactlyWhenCorrectedTwice`, and the table of `Observations.SameHourTwiceAborts`).
- An improvement can raise another provider's score, in exactly one situation around the zero guard
  (`RankMonotone.OthersRiseExactlyWhen`, `RankMonotone.GuardCanRaiseAnother`).

## Model

| member | source | states |
|---|---|---|
| Observations.PlanIsOk | internal/collection/observe.go:96-124 | the rows and corrections planned from a read of the live rows have new ids, one per fetched hour, and correct only live rows of the same key |
| Observations.CommitKeepsChains | internal/collection/observe.go:92-137 | every commit, with whatever stale read its plan came from, keeps ids distinct, at most one live row per key, and pointers that lead to later rows of the same key |
| Observations.PlanSurvives | internal/collection/observe.go:92-137 | a plan stays good while other observation transactions commit between its read and its write |
| Observations.OneChainPerKey | adapters/persistence/observationpg/observationpg.go:85-139 | all rows of one source, location and hour lie on one supersession chain, in insertion order |
| Observations.ChainEnd | adapters/persistence/observationpg/observationpg.go:127-139 | following pointers from any row ends in a live row of the same key |
| Observations.AbortsExactlyWhenCorrectedTwice | internal/collection/observe.go:105-137 | the transaction aborts if and only if the response corrects one in-window live row twice |
| Observations.SameHourTwiceAborts | internal/collection/observe.go:105-137 | one stored hour and a response that gives it twice, 2 and 3 degrees off, abort |
| Observations.StaleCommitIsUpToDateExactlyWhen | internal/collection/observe.go:92-137 | however stale its read, a commit leaves the live row of a fetched hour within tolerance of what was fetched if and only if the read planned a correction of that hour or the live row met at the commit, if any, already agrees |
| Observations.CommitIsUpToDate | internal/collection/observe.go:92-137 | from a fresh read with distinct fetched hours the commit succeeds and the live row of every fetched in-window hour is within tolerance of what was fetched |
| Observations.ReobserveStoresNothing | internal/collection/observe.go:92-137 | observing the same data again leaves the table exactly as it was |
| Observations.DiffersExactly | internal/collection/domain/observation.go:113-144 | a correction is genuine exactly when some reading is known on one side only or is off by more than 0.1 degrees, 0.05 mm, 1 percent, 0.1 m/s, 1 degree of direction or 0.5 hPa |
| Observations.FetchedHourSettles | internal/collection/observe.go:92-137 | after a commit from a fresh read every fetched in-window hour has a live row with the same readings known and none off by more than its tolerance; a prior row that said so stays alone and unchanged, any other points to a live row flagged corrected that holds the fetched readings, and an hour without one gets the fetched row |
| Observations.OthersUntouched | internal/collection/observe.go:92-137 | rows of keys that were not fetched stay, and every new row is a fetched one |
| Observations.SelfAgrees | internal/collection/domain/observation.go:113-136 | equal readings are never a genuine correction |
| Observations.ObservationStore.Supersede | adapters/persistence/observationpg/observationpg.go:127-139 | the live row of that id and hour gets its pointer, nothing else of it and no other row changes, and false is returned exactly when there is no such row |
| Observations.ObservationStore.SupersedeEach | internal/collection/observe.go:125-129 | applies the corrections in order and stops at the first that touches no row |
| Observations.ObservationStore.InsertBatch | adapters/persistence/observationpg/observationpg.go:85-124 | inserts the rows whose key has no live row and counts them |
| Observations.IndexByHour | internal/collection/observe.go:100-103 | the index maps each hour to the live row the read returned for it |
| Observations.Classify | internal/collection/observe.go:105-124 | new hours and genuine corrections are planned, values within tolerance are not |
| Observations.ObservationStore.Observe | internal/collection/observe.go:66-144 | the whole transaction lands or the table is untouched, the chain invariant is kept either way, only fetched keys are touched, and with distinct hours it lands and settles every fetched hour of the window |
| Matching.CandidateLessIsStrictTotal | internal/analysis/domain/match.go:93-118 | the candidate order is a strict order, total on rows with different ids |
| Matching.SelectIsLeast | internal/analysis/domain/match.go:80-91 | the selection is the least candidate, and is missing only when there is none |
| Matching.SelectIsBest | internal/analysis/domain/match.go:29-118 | of any candidates the selection is one to which none is preferable: corrected rows first, then the source class by name, then the time nearer to the hour, then the smaller id |
| Matching.SelectIgnoresOrder | internal/analysis/domain/match.go:76-91 | the selection depends on which candidates there are, never on their order or repetition |
| Matching.SelectCandidate | internal/analysis/domain/match.go:80-91 | the loop returns that least candidate |
| Matching.CandidateFound | adapters/persistence/analysispg/analysispg.go:52-72 | the candidate query returns exactly the live, non-suspect rows of the location and hour |
| Matching.ChoiceFits | internal/analysis/match.go:60-100 | a snapshot's choice is a candidate of its own location and hour, and is missing only when it has none |
| Matching.ChoiceIsBest | internal/analysis/domain/match.go:29-118 | a snapshot's choice is a live, non-suspect row of its place and full hour; corrected rows come first, then stations, then interpolated or reanalysed data, then provider estimates, then the smaller id; there is none exactly when no row answers |
| Matching.UnmatchedExactly | adapters/persistence/analysispg/analysispg.go:27-49 | the unmatched scan returns exactly the in-window snapshots after the cursor that have no pair |
| Matching.ScanResumes | internal/analysis/match.go:60-100 | resuming the scan after any row sees exactly the remaining rows, although pairs were inserted meanwhile |
| Matching.NewPairsExactly | internal/analysis/match.go:60-100 | the pairs of a list are exactly its snapshots with their choices |
| Matching.MatchChunk | internal/analysis/match.go:72-84 | a chunk's matches are the pairs of its snapshots |
| Matching.MatchStore.MatchNextChunk | internal/analysis/match.go:60-100 | one chunk inserts the pairs of the next rows of the scan and leaves the rest of the scan unchanged |
| Matching.MatchStore.MatchUnmatched | internal/analysis/match.go:60-100 | a pass terminates, visits every in-window unmatched snapshot exactly once, and creates the same pairs for every chunk size |
| Matching.TakeFirst | adapters/persistence/analysispg/analysispg.go:113-144 | the limited, ordered query takes the first targets by snapshot |
| Matching.MatchStore.Rematch | internal/analysis/match.go:121-142 | re-pairing inserts the first targets up to the limit and nothing else |
| Matching.MatchStore.MatchBatch | internal/analysis/match.go:54-116 | one batch is the matching pass over its window followed by one bounded re-pairing that takes the first targets by snapshot |
| Matching.MatchesKeepChains | internal/analysis/match.go:60-100 | new matches keep all pairs of a snapshot on one supersession chain |
| Matching.RepairingsKeepChains | internal/analysis/match.go:121-142 | re-pairing keeps all pairs of a snapshot on one supersession chain |
| Matching.ChainsSurvive | internal/collection/observe.go:92-137 | later corrections never take a pair off its chain |
| Matching.RematchShrinksMissing | internal/analysis/match.go:121-142 | re-pairing removes exactly what it inserts from the chain links not yet paired |
| Matching.RematchProgress | internal/analysis/match.go:121-142 | every re-pairing that finds work leaves strictly fewer links missing, and one that finds none changes nothing |
| Matching.BatchKeepsChains | internal/analysis/match.go:54-116 | a whole batch keeps all pairs of a snapshot on one supersession chain |
| Matching.MatchingKeepsMissing | internal/analysis/match.go:60-100 | the matching pass leaves the set of chain links still to be paired as it was |
| Matching.BatchProgress | internal/analysis/match.go:54-142 | a whole batch closes at least one missing link as long as there is one |
| Matching.BatchesReachFixpoint | internal/analysis/match.go:54-142 | with observations fixed and windows moving, as many batches as links were missing leave nothing to re-pair, and every matched snapshot has exactly one pair to a live row |
| Matching.FixpointIsStable | internal/analysis/match.go:53-142 | at that fixpoint the same batch again changes nothing |
| Matching.FixpointIsLive | adapters/persistence/analysispg/analysispg.go:113-128 | at the fixpoint every matched snapshot is paired to a live, usable row |
| Matching.AtMostOneLivePair | adapters/persistence/analysispg/metricspg.go:48-60 | a snapshot has at most one pair to a live row |
| Matching.MatchingIsDone | internal/analysis/match.go:54-116 | after one batch no snapshot of the window is left that could have been matched |
| Matching.BatchMatchesBest | internal/analysis/match.go:54-116 | after a batch whatever an unmatched snapshot was paired with is its best answer, and a snapshot of the window is left unmatched only if no row answers it |
| Matching.RerunCreatesNothingExactlyWhen | internal/analysis/match.go:53-116 | a second batch creates nothing if and only if the first batch's re-pairing work fitted its limit and no snapshot was more than one link behind |
| Matching.TwoCorrectionsNeedTwoBatches | internal/analysis/match.go:53-142 | a concrete table on which the second batch still creates a pair |
| Lineage.StepKeepsInvariant | internal/analysis/match.go:54-142 | every step of observers and the matcher, with stale reads on both sides, keeps the joint invariant of chains and pairs |
| Lineage.RunKeepsInvariant | internal/collection/observe.go:92-137 | the joint invariant holds in every state of every interleaving |
| Lineage.NoSnapshotCountedTwice | adapters/persistence/analysispg/metricspg.go:48-60 | in every reachable state aggregation counts a snapshot at most once |
| Lineage.PairsLieOnOneChain | internal/analysis/match.go:121-142 | in every reachable state all pairs of a snapshot lie on one chain that ends in a live row |
| Lineage.QuietMeansCountedOnce | internal/analysis/match.go:121-142 | in every reachable state without re-pairing work each matched snapshot has exactly one counted pair |
| Lineage.NothingIsLost | internal/analysis/match.go:54-142 | over every interleaving collected snapshots and pairs stay for good |
| Lineage.CollectedIsThere | internal/collection/collect.go:181-217 | a collected snapshot is there in every later state |
| Lineage.ScanSkipsNothing | internal/analysis/match.go:60-100 | when a scan's matches are inserted, every snapshot of its chunk was looked up while it ran, and either had no answer then or is now paired with what was then its best one |
| SlotTable.ClaimableExactlyFrom | adapters/persistence/schedulerpg/schedulerpg.go:57-85 | every non-terminal slot becomes claimable at one definite instant and stays so; terminal slots never do |
| SlotTable.FailKeepsSlotOk | internal/scheduler/scheduler.go:356-394 | a recorded failure leaves at most four attempts on a due slot and five exactly on a failed one |
| SlotTable.TakeEarliest | adapters/persistence/schedulerpg/schedulerpg.go:57-85 | takes as many of the claimable rows as the limit allows, earliest first |
| SlotTable.SlotRepository.Generate | adapters/persistence/schedulerpg/schedulerpg.go:42-53 | a key gets a row at most once, untried and claimable from its slot time on; existing rows are left alone |
| SlotTable.SlotRepository.ClaimDue | adapters/persistence/schedulerpg/schedulerpg.go:57-85 | claims the earliest claimable slots up to the limit; each is held by the instance and claimable again only after the lease, with its key and attempts kept; nothing else changes |
| SlotTable.SlotRepository.CountClaimable | adapters/persistence/schedulerpg/schedulerpg.go:116-126 | the count query, written on its own, agrees with the claim query: it is the size of what every claim with a large enough limit takes |
| SlotTable.SlotRepository.Complete | adapters/persistence/schedulerpg/schedulerpg.go:88-96 | whoever holds it, the row of that id completes and is never claimable again, with its key and attempts kept; no other row changes |
| SlotTable.SlotRepository.Fail | adapters/persistence/schedulerpg/schedulerpg.go:100-112 | whoever holds it, the row of that id is released; with a retry time it is claimable exactly from then on, without one it is failed and never claimable again; no other row changes |
| LeaseProtocol.WithDefaults | internal/scheduler/scheduler.go:75-107 | positive settings are kept, the others become batch 10, pool 8, timeout 60, lease 300 and interval 15, which satisfy the lease condition |
| LeaseProtocol.StepKeepsRows | internal/scheduler/scheduler.go:146-178 | every step of any instance, including stale workers, crashes and unrecorded endings, keeps the row invariant |
| LeaseProtocol.RunKeepsRows | adapters/persistence/schedulerpg/schedulerpg.go:57-126 | in every run, without any timing assumption, due and claimed slots have at most four attempts, failed ones exactly five, and claimed ones carry a lease |
| LeaseProtocol.StartBoundClosed | internal/scheduler/scheduler.go:146-178 | a slot's place in its batch bounds its start by a whole number of job timeouts |
| LeaseProtocol.AdvanceKeepsPace | internal/scheduler/scheduler.go:146-178 | while time passes, a slot waiting in a batch starts within its bound, because the permit it needs is held by an early enough job |
| LeaseProtocol.AdvanceKeepsPunctual | internal/scheduler/scheduler.go:111-178 | with sparse ticks no time passes over a waiting slot |
| LeaseProtocol.StepKeepsSafe | internal/scheduler/scheduler.go:339-383 | if the lease covers the batch, or ticks are sparse and the lease outlasts a job, every timely step keeps jobs on pace, covered by their leases and alone on their slots |
| LeaseProtocol.TimedRunIsSafe | internal/scheduler/scheduler.go:146-178 | that safety holds in every state of every timed run of several instances |
| LeaseProtocol.JobsEndWithinTheirLease | internal/scheduler/scheduler.go:339-383 | every running job ends, by its timeout, before the lease of its slot expires |
| LeaseProtocol.OneExecutorPerSlot | adapters/persistence/schedulerpg/schedulerpg.go:57-112 | at most one executor runs a slot |
| LeaseProtocol.TerminalIsFinal | adapters/persistence/schedulerpg/schedulerpg.go:88-112 | a completed or failed slot never changes again |
| Attempts.AttemptsCountFailures | internal/scheduler/scheduler.go:356-394 | in every timed run under the lease condition a slot's attempts are the failures recorded for it so far, it is failed exactly at the fifth and completed exactly when a success was recorded |
| Attempts.FailedExactlyWhen | internal/scheduler/scheduler.go:356-394 | failed means five recorded failures and no success |
| Attempts.RetryIsDelayed | internal/scheduler/scheduler.go:385-394 | the k-th recorded failure, k below five, makes the slot claimable again exactly 2^(k-1) seconds later, or at its slot time if that is later |
| Attempts.NoEarlierClaim | internal/scheduler/scheduler.go:361-369 | no later claim of any instance takes the slot before that |
| Attempts.ClaimOfTicket | internal/scheduler/scheduler.go:146-178 | in any run, whatever a ticket holds it got from one claim, with the attempts the row then had, and has held ever since |
| Attempts.FailureCountsFromClaim | internal/scheduler/scheduler.go:361-369 | in any run, timed or not, a recorded failure writes one attempt more than the row had when the recording executor claimed it, and the slot is failed at five and due again below |
| LeaseTightness.ShortLeaseIsUnsafe | internal/scheduler/scheduler.go:75-178 | if the lease is shorter than a job, or shorter than a full pool and all rounds of a batch less the time the ticks take to fill that pool, a timed run of prompt ticks and full claims puts two executors on one slot |
| LeaseTightness.SparseTicksExactly | internal/scheduler/scheduler.go:111-178 | if the pool takes a batch and the interval outlasts a job, single execution over all timed runs holds if and only if the lease outlasts a job |
| LeaseTightness.WideIntervalNeedsLess | internal/scheduler/scheduler.go:75-178 | batch 10, pool 16, timeout 30, lease 45, interval 60: the lease does not cover the batch, and still no slot runs twice |
| LeaseTightness.SafeAtEveryIntervalExactlyWhenLeaseCovers | internal/scheduler/scheduler.go:75-178 | single execution over all timed runs at every tick interval, in every finer unit of time, holds if and only if (ceil(batch/pool)+1) job timeouts fit in the lease |
| LeaseTightness.ShortLeaseUndoesCompletion | adapters/persistence/schedulerpg/schedulerpg.go:88-112 | with such a short lease a completed slot can go back to due |
| SlotGeneration.SlotTimes | internal/catalog/domain/configuration.go:45-60 | in order, exactly the instants at the minute offset inside the window |
| SlotGeneration.HourTimes | internal/scheduler/scheduler.go:286-300 | exactly the configured offsets of one hour that lie inside the window |
| SlotGeneration.AnalysisSlotTimes | internal/scheduler/scheduler.go:286-300 | exactly the analysis instants of the window, for whatever offsets are configured |
| SlotGeneration.KeysFor | internal/scheduler/scheduler.go:206-282 | every instant with every location, once named and no other key |
| SlotGeneration.ForecastKeys | internal/scheduler/scheduler.go:206-282 | exactly the forecast slots of the valid configurations and active locations |
| SlotGeneration.TickKeys | internal/scheduler/scheduler.go:206-282 | exactly the keys due in the window of one tick |
| SlotGeneration.GenerateSlots | internal/scheduler/scheduler.go:206-282 | one tick adds a row for exactly the due keys that have none and leaves other rows untouched |
| SlotGeneration.DueMeansScheduled | internal/scheduler/scheduler.go:206-300 | on hour-aligned windows due means scheduled and inside the window, for every stream with its instants inside their hour |
| SlotGeneration.CloseTicksCover | internal/scheduler/scheduler.go:206-282 | ticks at most two hour marks apart generate every scheduled instant of their span |
| SlotGeneration.GapMisses | internal/scheduler/scheduler.go:206-282 | a larger gap misses an instant |
| SlotGeneration.CoverageExactlyWhenTicksClose | internal/scheduler/scheduler.go:206-282 | in every world a run misses no instant of an hourly stream in its span if and only if consecutive ticks are at most two hour marks apart or there is no such stream |
| SlotGeneration.AnalysisTickExactly | internal/scheduler/scheduler.go:206-300 | what one tick generates for analysis whatever the offsets: offsets of 60 to 119 minutes only from the earlier hour mark, negative ones down to -60 only from the later, others beyond never |
| SlotGeneration.DefaultAnalysisInstants | internal/scheduler/scheduler.go:286-300 | without configured offsets analysis is scheduled exactly ten and forty minutes past every hour |
| SlotGeneration.RunTicks | internal/scheduler/scheduler.go:146-178 | over any run the table holds one row for each key some tick generated and no other |
| Sums.SumIgnoresOrder | internal/analysis/eval/continuous.go:13-14 | a sum depends only on which elements occur how often |
| WeightedSums.NumeratorIsSpread | internal/analysis/eval/ci.go:50-64 | the streaming variance numerator is the weighted spread about the weighted mean |
| WeightedSums.CauchySchwarz | internal/analysis/eval/ci.go:50-64 | that numerator is never negative for non-negative weights |
| WeightedSums.FreedomNonNegative | internal/analysis/eval/ci.go:50-64 | the squared total weight is at least the sum of squared weights, and exceeds it exactly when two weights are positive |
| Intervals.UnclampedExactly | internal/analysis/eval/ci.go:14-42 | the unclamped Wilson bounds hold exactly the rates x with n(p-x)^2 <= z^2 x(1-x), the score test that defines the interval |
| Intervals.ClampsAreNoOps | internal/analysis/eval/ci.go:14-42 | for every p in [0,1] and n > 0 the unclamped bounds already satisfy 0 <= lower <= p <= upper <= 1, so all four clamps change nothing |
| Intervals.Wilson | internal/analysis/eval/ci.go:14-42 | (0, 0) without a sample, otherwise exactly the rates the score test accepts, inside [0,1] and around p |
| Intervals.FreedomSign | internal/analysis/eval/ci.go:50-64 | the degrees-of-freedom test is the comparison of the squared total with the sum of squares |
| Intervals.CiFromMoments | internal/analysis/eval/ci.go:50-64 | present exactly with two pairs, weight and a degree of freedom; then centred on the mean with half-width h such that h^2 n = z^2 variance |
| Evaluation.FreedomExactly | internal/analysis/eval/ci.go:50-64 | degrees of freedom are never negative and positive exactly when two pairs have positive weight |
| Evaluation.MomentsHaveFreedom | internal/analysis/eval/ci.go:50-64 | over real pairs the interval exists exactly when two weights are positive, so the test on the pair count never decides |
| Evaluation.MomentsGiveVariance | internal/analysis/eval/ci.go:50-64 | the streaming variance equals the unbiased weighted variance about the mean and is never negative, so its guard is never needed |
| Evaluation.UnitFreedom | internal/analysis/eval/ci.go:44-49 | at unit weights the degrees of freedom are n - 1 |
| Evaluation.MetricsInOrder | internal/analysis/eval/continuous.go:45-67 | the size of the bias is at most the mean absolute error, which is at most the root mean square error |
| Evaluation.Continuous.Add | internal/analysis/eval/continuous.go:26-34 | the six fields stay the direct weighted sums over all pairs added |
| Evaluation.Continuous.MAE | internal/analysis/eval/continuous.go:45-50 | the weighted mean of the absolute errors, missing exactly without weight |
| Evaluation.Continuous.RMSE | internal/analysis/eval/continuous.go:53-58 | the root of the weighted mean square error, missing exactly without weight |
| Evaluation.Continuous.Bias | internal/analysis/eval/continuous.go:62-67 | the weighted mean signed error, missing exactly without weight |
| Evaluation.Continuous.MAECI | internal/analysis/eval/ci.go:67-73 | the interval about the mean absolute error on the variance of the absolute errors, present exactly when two pairs weigh |
| Evaluation.Continuous.RMSECI | internal/analysis/eval/ci.go:77-83 | the interval about the root mean square error on the variance of the absolute errors |
| Evaluation.Continuous.BiasCI | internal/analysis/eval/ci.go:87-93 | the interval about the bias on the variance of the signed errors |
| Evaluation.ContinuousIgnoresOrder | internal/analysis/eval/continuous.go:13-34 | accumulators given the same pairs in any order are equal in every field |
| Evaluation.Brier.Add | internal/analysis/eval/brier.go:20-32 | the fields stay the direct weighted sums of squared and fourth-power distances |
| Evaluation.Brier.Score | internal/analysis/eval/brier.go:35-40 | the weighted mean squared distance, missing exactly without weight |
| Evaluation.Brier.ScoreCI | internal/analysis/eval/ci.go:97-103 | the interval about the score on the variance of the squared distances |
| Evaluation.BrierTermInUnit | internal/analysis/eval/brier.go:8 | a probability in [0,1] contributes a squared distance in [0,1] |
| Evaluation.MeanInUnit | internal/analysis/eval/brier.go:8 | contributions in [0,1] give a score in [0,1] |
| Categorical.CellsPartition | internal/analysis/eval/categorical.go:17-30 | the four cells add up to the weight observed, forecast, dry, in either, agreed and in total |
| Categorical.Confusion.Add | internal/analysis/eval/categorical.go:17-28 | each cell stays the weight of its own outcomes |
| Categorical.Confusion.N | internal/analysis/eval/categorical.go:31 | the weight of all outcomes |
| Categorical.Confusion.Recall | internal/analysis/eval/categorical.go:34-40 | of the weight with observed rain, the share that was forecast |
| Categorical.Confusion.Precision | internal/analysis/eval/categorical.go:43-49 | of the weight with forecast rain, the share that was observed |
| Categorical.Confusion.F1 | internal/analysis/eval/categorical.go:53-59 | twice the hits over the weight forecast plus the weight observed |
| Categorical.Confusion.FalseAlarmRate | internal/analysis/eval/categorical.go:62-68 | of the dry weight, the share with forecast rain |
| Categorical.Confusion.ThreatScore | internal/analysis/eval/categorical.go:71-77 | of the weight with rain forecast or observed, the share with both |
| Categorical.Confusion.OccurrenceAgreement | internal/analysis/eval/categorical.go:81-87 | the share of all weight on which forecast and observation agree |
| Categorical.ConfusionIgnoresOrder | internal/analysis/eval/categorical.go:6 | the matrix does not depend on the order of the pairs |
| Categorical.ShareInUnit | internal/analysis/eval/categorical.go:34-87 | every ratio of non-negative weights lies in [0,1] and has a positive denominator |
| Categorical.F1MissingExactly | internal/analysis/eval/categorical.go:51-52 | F1 is missing exactly when precision and recall both are |
| Categorical.F1IsHarmonicMean | internal/analysis/domain/methodology.go:95 | F1 is the harmonic mean of precision and recall wherever both are present |
| Aggregation.ProvenanceWeight | internal/analysis/eval/eval.go:41-54 | a weight in [0,1], zero exactly for an unknown provenance |
| Aggregation.Rate | internal/analysis/aggregate.go:213-222 | a share of the scheduled slots in [0,1], one exactly when nothing is missing, absent exactly when nothing was scheduled |
| Aggregation.MakeMetric | internal/analysis/aggregate.go:226-244 | a row with a value keeps its sample and interval, one without has neither, and exactly when the row satisfies the table's constraints |
| Aggregation.RatioRow | internal/analysis/aggregate.go:203-209 | for a proportion of a positive weight, the row with the score interval on that denominator |
| Aggregation.RatelessRow | internal/analysis/aggregate.go:213-222 | the share row, without interval, over the scheduled slots |
| Aggregation.ContinuousRows | internal/analysis/aggregate.go:190-200 | three rows with the metric values and intervals of the accumulated pairs, satisfying the table's constraints |
| Aggregation.AccumulateErrors | internal/analysis/aggregate.go:120-139 | the accumulator of a channel holds exactly its eligible pairs, weighted by provenance |
| Aggregation.AccumulateOutcomes | internal/analysis/aggregate.go:140-144 | the matrix holds exactly the pairs with a known observed state, and their number is counted |
| Aggregation.AccumulateProbabilities | internal/analysis/aggregate.go:145-147 | the Brier accumulator holds exactly those pairs that also have a probability |
| Aggregation.RatioOf | internal/analysis/aggregate.go:164-171 | each ratio comes with its own denominator |
| Aggregation.OccurrenceRow | internal/analysis/aggregate.go:163-171 | each occurrence row reports its share of weight and the score interval on that share's denominator |
| Aggregation.BrierRow | internal/analysis/aggregate.go:174-175 | the Brier row reports the score over the pairs with a probability |
| Aggregation.RateRows | internal/analysis/aggregate.go:178-185 | coverage per variable and reliability, each over the scheduled slots |
| Aggregation.BatchKeysDistinct | internal/analysis/aggregate.go:151-186 | a batch has 27 rows with pairwise distinct variable and metric |
| Aggregation.ComputeRows | internal/analysis/aggregate.go:112-187 | for every pair list, one row per key; each reports what its key means of the pairs alone, has a value exactly when it has a sample, and an interval that brackets it |
| RowFields.RowsInFields | internal/analysis/aggregate.go:106-244 | every row's value and sample, written with the fields of the pairs: provenance-weighted means of the absolute, squared and signed difference of the variable's own forecast and observed field where both are known and the observation is not suspect, rain ratios and Brier score from the rain fields, rates from the counts |
| RowFields.RightMeansZero | internal/analysis/aggregate.go:120-135 | an error is zero when forecast equals observed wherever both are known |
| RowFields.RowsDependOnOwnFields | internal/analysis/aggregate.go:106-244 | two pair lists that agree on provenance, quality and a row's own fields give the same row, interval and sample included |
| Aggregation.AggregateCellPeriod | internal/analysis/aggregate.go:72-108 | afterwards each key of the cell and period has exactly one live row, it reports the pairs just read, and no other cell's rows changed |
| Publication.YieldsToFirst | adapters/persistence/analysispg/metricspg.go:158-170 | a live row stays live exactly when the batch holds no other row of its key; otherwise the first such row supersedes it |
| Publication.OneLiveExactlyWhen | internal/analysis/aggregate.go:94-104 | publishing leaves exactly one live row of a written key if and only if the batch writes it once; otherwise it leaves none |
| Publication.PublishKeepsInv | internal/analysis/aggregate.go:94-104 | every batch with distinct keys keeps distinct ids, one live row per key and pointers to later rows of the same key |
| Publication.ChainEnds | adapters/persistence/analysispg/metricspg.go:158-170 | every supersession chain ends in the one live row of its key |
| Publication.RunKeepsInv | internal/analysis/aggregate.go:72-108 | that invariant holds after every run of batches |
| Publication.RowsExactlyWhenWritten | internal/analysis/aggregate.go:72-108 | a key has rows exactly when some batch wrote it |
| Publication.RunPublishesLatest | internal/analysis/aggregate.go:72-108 | after every run the one live row of a key is the row of the latest batch that wrote it, as written |
| Publication.Store.SupersedePrevious | adapters/persistence/analysispg/metricspg.go:158-170 | updates exactly the other live rows of the key |
| Publication.Store.PublishBatch | internal/analysis/rank.go:73-83 | insert then supersede, as one transition that keeps the invariant |
| Ranking.MinOf | internal/analysis/domain/ranking.go:271-279 | the least value |
| Ranking.MaxOf | internal/analysis/domain/ranking.go:281-289 | the greatest value |
| Ranking.AllPresent | internal/analysis/domain/ranking.go:115-123 | whether every provider of a non-empty cohort has the component |
| Ranking.ActiveComponents | internal/analysis/domain/ranking.go:110-127 | exactly the active components, and their total weight |
| Ranking.BestValues | internal/analysis/domain/ranking.go:129-151 | the best value of each active ratio component, shifted exactly when the least value is zero |
| Ranking.WeightsAddToOne | internal/analysis/domain/ranking.go:169 | the redistributed weights add up to one whenever any component is active |
| Ranking.FullShares | internal/analysis/domain/ranking.go:53-62 | with every component present the documented weights apply unscaled |
| Ranking.CompositeUnrolled | internal/analysis/domain/ranking.go:161-180 | every component contributes to the composite exactly once |
| Ranking.BestScoresOne | internal/analysis/domain/ranking.go:204-218 | the least temperature, rain or wind error, the least bias and the highest F1 score one; if the highest F1 is zero all score zero |
| Ranking.NormInUnit | internal/analysis/domain/ranking.go:205-217 | every normalised score lies in [0,1] |
| Ranking.CompositeInUnit | internal/analysis/domain/ranking.go:161-180 | every composite lies in [0,1] |
| Ranking.StatusOf | internal/analysis/domain/ranking.go:220-233 | ranked and unranked exactly at the documented thresholds |
| Ranking.PenaltyInUnit | internal/analysis/domain/ranking.go:187-192 | the coverage penalty lies in [0,1] and is positive for every row that keeps a score |
| Ranking.RowFits | internal/analysis/domain/ranking.go:182-199 | a score exactly when not unranked; the penalised composite is in [0,1] before clamping; the interval brackets it inside [0,1] |
| Ranking.ScoreProvider | internal/analysis/domain/ranking.go:161-180 | the loop computes the composite, the propagated half-width and the breakdown |
| Ranking.AssembleRow | internal/analysis/domain/ranking.go:155-199 | the row with status, penalty, clamps and interval |
| Ranking.RankCohort | internal/analysis/domain/ranking.go:109-202 | every provider gets the row that the cohort as a whole assigns it, in cohort order |
| Ranking.RankIgnoresOrder | internal/analysis/domain/ranking.go:104-108 | a provider's row depends on which providers are in the cohort, not on their order |
| RankMonotone.OwnScoreNeverFalls | internal/analysis/domain/ranking.go:109-202 | a lower temperature, rain or wind error or temperature bias, or a higher precipitation F1, never lowers the provider's own published score |
| RankMonotone.OthersRiseExactlyWhen | internal/analysis/domain/ranking.go:129-217 | another provider's published score rises if and only if a lower-better column's least value drops to zero from below the guard and the other value is large enough; otherwise it stays or falls |
| RankMonotone.GuardCanRaiseAnother | internal/analysis/domain/ranking.go:140-147 | a concrete cohort in which that happens |
| RankLaws.NormByName | internal/analysis/domain/ranking.go:204-218 | each component's score by name: least over value for errors, value over greatest for F1, shares as they are, and the billionth that guards a zero |
| RankLaws.ScoreIsDocumentedFormula | internal/analysis/domain/ranking.go:53-63 | with every component known and positive the score is 0.30, 0.25, 0.15, 0.15, 0.05, 0.05 and 0.05 times the component scores, times coverage over 0.8 when coverage is below 0.8 |
| RankLaws.SharesKeepProportion | internal/analysis/domain/ranking.go:106-128 | the components left when others are missing keep their documented proportions |
| RankLaws.UnitsDoNotMatter | internal/analysis/domain/ranking.go:109-202 | multiplying every value and half-width of one ratio component by the same positive factor changes no provider's score, interval or status, as long as its least error is positive |
| RankLaws.IntervalAddsUp | internal/analysis/domain/ranking.go:159-200 | the published score and interval follow from the published breakdown: scores add up, and so do the relative half-widths times the scores |
| RankLaws.HalfWidthIsRelative | internal/analysis/domain/ranking.go:174-178 | with one active ratio component the published half-width is to the score as the component's half-width is to its value, at every end that is not cut off |
| Cohort.GatherRows | internal/analysis/rank.go:126-183 | gathers, per provider with a row, what its rows amount to |
| Cohort.BuildCohort | internal/analysis/rank.go:126-211 | one input per provider with a row, with the lowest known coverage |
| Cohort.AccCaptures | internal/analysis/rank.go:153-183 | with one row per metric, each entry is that row's value, said without reference to order |
| Cohort.InputIgnoresOrder | internal/analysis/rank.go:126-211 | a provider's input is the same for every order in which rows are read |
| Cohort.CohortIgnoresOrder | internal/analysis/rank.go:126-211 | two orders give cohorts of the same providers with the same inputs |
| Cohort.RankingIgnoresRowOrder | internal/analysis/rank.go:48-93 | two orders rank every provider with the same row |
| Cohort.ReportedRowInRange | internal/analysis/aggregate.go:112-187 | every row that aggregation reports is in the range ranking expects |
| Cohort.CohortWellFormed | internal/analysis/rank.go:126-211 | a cohort built from such rows meets everything ranking asks of its inputs |
| CohortFields.ErrorsReadByName | internal/analysis/rank.go:126-211 | temperature, wind and rain errors and the precipitation F1 come from their own rows with half the width of their interval, and from no other; the sample counts are those of the temperature error and the F1 |
| CohortFields.BiasReadBySize | internal/analysis/rank.go:126-211 | the temperature bias enters by its size |
| CohortFields.ReliabilityRead | internal/analysis/rank.go:126-211 | reliability is the value of its row |
| CohortFields.CoverageIsLowest | internal/analysis/rank.go:126-211 | coverage is the lowest known coverage of any variable |
| Cohort.RankCell | internal/analysis/rank.go:55-87 | every provider with a metric row then has exactly one live ranking row, the one its input gets in this cohort |
| RankOrder.OverlapMeansCommonScore | internal/analysis/domain/ranking.go:264-269 | intervals overlap exactly when some score lies in both, end points included |
| RankOrder.SortByScore | internal/analysis/domain/ranking.go:240-248 | all scored rows, by descending score, earlier rows first among equals |
| RankOrder.RankOrder | internal/analysis/domain/ranking.go:239-262 | groups partition the scored rows in display order, every member overlaps its leader, and consecutive leaders do not overlap |
| RankOrder.GroupingDetermined | internal/analysis/domain/ranking.go:249-261 | those properties leave exactly one grouping of a list of rows |
| RankOrder.GroupsIgnoreOrder | internal/analysis/domain/ranking.go:239-262 | with distinct scores the groups do not depend on the input order |
| RankOrder.TieRuleExactlyWhen | internal/analysis/domain/ranking.go:249-261 | within one list, rows share a group exactly when they overlap if and only if, in display order, two rows overlap exactly when both overlap every row between them |
| RankOrder.ChainBreaksTieRule | internal/analysis/domain/ranking.go:252-257 | rows that overlap in a chain but not all together always break that two-way rule |
| RankOrder.TieRuleCanFail | internal/analysis/domain/ranking.go:249-261 | three concrete rows on which it fails |
| RankOrder.RankGroups | internal/analysis/read.go:143-166 | the groups under consecutive ranks from the base, and the next free rank |
| RankOrder.OrderRankings | internal/analysis/read.go:120-139 | ranked groups, then provisional groups continuing the numbering, then unranked rows |
| DisplayRanks.BlocksInOrder | internal/analysis/read.go:116-139 | ranks are dense from 1 through ranked and then provisional rows, scores fall within a status, unranked rows follow under rank 0, and the tie mark is set exactly on shared ranks |
| DisplayRanks.PermutationExactlyWhen | internal/analysis/read.go:120-139 | the display is a permutation of its input if and only if every row that is not unranked has a score |
| DisplayRanks.RankedRowsFit | internal/analysis/domain/ranking.go:182-233 | every row of a well-formed cohort has a score exactly when not unranked, is unranked when its coverage is unknown or below one half, and has its score inside its interval |
| DisplayRanks.LowCoverageNeverLeads | internal/analysis/domain/methodology.go:110 | on rows as ranking writes them it is a permutation, and coverage below one half never appears before a scored row |
| DocumentedTies.SharesExactlyWhenAnchored | internal/analysis/domain/ranking.go:249-261 | within one list, overlapping rows share a group if and only if every row overlaps the first row after the last cut, a cut being a place no overlap reaches across |
| DocumentedTies.CutByBounds | internal/analysis/domain/ranking.go:249-261 | on rows as ranking writes them a cut is a place where every lower bound before exceeds every upper bound after |
| DocumentedTies.RuleExactlyWhen | internal/analysis/domain/methodology.go:117 | over the whole display, overlapping rows share a rank if and only if that holds of the ranked and of the provisional rows and no two rows of different status overlap |
| DocumentedTies.WideLeaderObeysRule | internal/analysis/domain/methodology.go:117 | three rows under a wide leader obey the documented rule though two of them share a rank without overlapping |
| DocumentedTies.ChainBreaksRule | internal/analysis/domain/methodology.go:117 | three concrete rows in a chain on which it fails |
| DocumentedTies.StatusBreaksRule | internal/analysis/read.go:120-139 | a ranked and a provisional row that overlap are displayed under ranks 1 and 2 |
| ResponseCache.StepKeeps | internal/api/cache.go:60-96 | every operation keeps keys distinct and at most cap entries |
| ResponseCache.RunKeeps | internal/api/cache.go:60-96 | that holds in every state reachable from an empty store |
| ResponseCache.StoredIsLatest | internal/api/cache.go:60-96 | in every reachable state each entry is the latest stored under its key |
| ResponseCache.HitIsLatest | internal/api/cache.go:60-75 | a hit after any run is the latest entry stored under that key and has not expired |
| ResponseCache.RecentAlwaysHits | internal/api/cache.go:77-96 | after its own hit or store, an unexpired entry survives any operations that name fewer than cap other keys |
| ResponseCache.TouchLeads | internal/api/cache.go:60-96 | a hit or a store puts its entry at the front |
| ResponseCache.Store.constructor | internal/api/cache.go:46-56 | a non-positive capacity becomes 256 |
| ResponseCache.Store.Get | internal/api/cache.go:60-75 | list and index stay in agreement and follow the transition; the answer is the unexpired entry |
| ResponseCache.Store.Put | internal/api/cache.go:79-90 | list and index stay in agreement and follow the transition |
| ResponseCache.Store.Evict | internal/api/cache.go:88-95 | drops the least recently used entries until the list fits |
| Circuit.ProviderCircuit.Evaluate | internal/catalog/domain/circuit.go:66-80 | refuses only while open and before the probe time, and turns an open breaker half-open when it admits |
| Circuit.ProviderCircuit.ApplySuccess | internal/catalog/domain/circuit.go:84-92 | closes the breaker and clears its counter and times |
| Circuit.ProviderCircuit.ApplyFailure | internal/catalog/domain/circuit.go:96-108 | counts the failure and opens at the threshold with a probe a minute later |
| Circuit.CircuitService.Evaluate | internal/catalog/circuit_service.go:29-44 | persists the probe transition of this provider and no other |
| Circuit.CircuitService.RecordSuccess | internal/catalog/circuit_service.go:47-63 | closes this provider's breaker and reports the transition |
| Circuit.CircuitService.RecordFailure | internal/catalog/circuit_service.go:66-82 | advances this provider's breaker and reports its states before and after |
| Circuit.RunFits | internal/catalog/domain/circuit.go:66-108 | over every run the counter is the failures since the last success, closed exactly below five with no probe time, otherwise opened at the last failure with the probe 60 seconds after, and the last failure ever is remembered |
| Circuit.RefusedExactlyWhen | internal/catalog/domain/circuit.go:66-80 | on a clock that never runs backwards an attempt is refused if and only if the streak has reached five and less than 60 seconds have passed since its last failure |
| Circuit.NoAdmissionForAMinute | internal/catalog/domain/circuit.go:94-108 | once opened, no attempt is admitted for 60 seconds unless a success is recorded |
| Circuit.HalfOpenAdmitsAll | internal/catalog/domain/circuit.go:74-76 | a half-open breaker admits every caller |
| Circuit.TwoProbesAdmitted | internal/catalog/domain/circuit.go:66-108 | five failures and a minute's wait: two callers in a row are admitted as probes |
| Collection.Decompose | adapters/forecastproviders/openmeteo/decompose.go:18-66 | every received row is either a snapshot or invalid, and the outcome is decided exactly by the invalid share |
| Collection.Classify | internal/collection/collect.go:336-365 | a status is usable exactly for success and partial outcomes |
| Collection.StoreAllHas | adapters/persistence/collectionpg/snapshot.go:60-98 | a batch keeps every stored row, stores every key it names and no other |
| Collection.CollectionStore.InsertBatch | adapters/persistence/collectionpg/snapshot.go:60-98 | skips known keys and returns how many rows it stored |
| Collection.CollectionStore.Commit | internal/collection/collect.go:181-217 | all of the transaction or none of it, refused exactly when a usable row already has the dedup key |
| Collection.CollectionStore.StoreDeduplicated | internal/collection/collect.go:257-288 | adds one row that balances, stores nothing and changes no dedup lookup; the other rows and the snapshots stay |
| Collection.CollectionStore.Collect | internal/collection/collect.go:68-229 | which of open circuit, known duplicate, lost race and stored an attempt comes to, under the issue time of its clock hour, what each does to the tables and to the breaker, whatever other transactions did between lookup and commit |
| Collection.StepKeepsInv | internal/collection/domain/collection.go:62-66 | every transaction keeps received = stored + deduplicated + invalid on every row, one usable row per dedup key, and as many snapshots as the rows say they stored |
| Collection.RunKeepsInv | migrations/20260801000003_create_collection.up.sql:29-40 | those hold in every interleaving of collections, duplicates and replays |
| Collection.FindDedupExactly | adapters/persistence/collectionpg/collection.go:114-126 | finds a usable collection of the dedup key, and none only if there is none |
| Collection.ReplayStatus | internal/collection/replay.go:85-94 | a replay is never recorded as usable |
| Collection.ReplayIsInvisible | internal/collection/replay.go:80-147 | a replay adds a row but changes no dedup or latest-usable lookup and no stored snapshot |
| Collection.ReplayTwiceStoresNothing | internal/collection/replay.go:20-24 | replaying again with the same decoding stores nothing, whatever was written in between |
| CollectionLaws.CollectedInColumns | internal/collection/collect.go:121-217 | a collection is refused exactly when it succeeded at least in part and a usable one of the same provider, location and model run, or issue time where there is none, is stored; otherwise it adds one balancing row and, if usable, exactly the snapshots it names under its own id |
| CollectionLaws.ReplayedInColumns | internal/collection/replay.go:80-147 | a replay adds one row that is never usable, and snapshots only under the original's provider, location and issue time |
| CollectionLaws.NeverCollectedTwice | migrations/20260801000003_create_collection.up.sql:36-40 | over every run no two usable rows stand for the same forecast |
| CollectionLaws.ReplayOfStoredAddsNothing | internal/collection/replay.go:20-24 | replaying a collection with target times it had stored stores nothing, whatever was written in between |
| CollectionLaws.BreakerCounts | internal/collection/collect.go:206-215 | a stored failure or timeout counts against the provider, a stored success or partial success clears the count, nothing else moves it |
| Collection.CollectionStore.Replay | internal/collection/replay.go:25-147 | without the original or a decodable payload nothing changes; otherwise one replay transaction |

## Left out

- Rounding: `float64` rounding and display rounding; over the reals the guards against it are proved to be no-ops.
- Aggregation.AccumulateErrors: one loop per accumulator instead of one loop over the pairs for all eight; the accumulators do not interact.
- RankOrder.SortByScore: an insertion sort stands for the library's stable sort, whose contract it satisfies.
- LeaseTightness.ShortLeaseIsUnsafe: for a given interval, leases between the two bounds (shorter than the batch needs by less than the time its ticks take to fill the pool) are left open; ticks, claims and writes take no time.
- Ranking.RankCohort: cohorts with a negative component value, on which the code can divide by zero; every component is an error measure, and cohorts read from published rows are proved to have none (`Cohort.CohortWellFormed`).
- Collection.Decompose: whether a row can be built and is in range is a verdict given as input; JSON parsing and the range checks themselves are not modelled.
- Collection.CollectionStore.Collect: inactive providers, locations and configurations, payload storage, error codes and messages, events, metrics and audit records are not modelled.
- Collection.CollectionStore.Replay: why a payload cannot be decoded (missing, checksum mismatch, no replay support) is one missing input; quarantine is not modelled.
- Concurrency of aggregation, ranking and matching batches with themselves: these batches are modelled as serialized.
- Responses served from the store: cache keys are opaque; key derivation, ETags and HTTP handling are not modelled.
- Calendar windows and time zones: periods, trend buckets and the day count of a period are inputs.
- Locations: proximity checks and coordinates.
- Identity, tokens, audit, exports, configuration, HTTP handlers, metrics, logging and the web client.
- Daily budgets, pagination and rate limiting.
