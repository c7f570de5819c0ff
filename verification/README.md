# Verified models of the LLMOps service cores

The service is a FastAPI application around a handful of small algorithms and protocols. This project models those
cores in Dafny and proves what they guarantee, over every input, every run and every interleaving:

- the **A/B allocator**, where one digest decides both traffic gating and variant choice, and the **experiment
  lifecycle** with its ranking and winner;
- the **sliding-window rate limiter** over a Redis sorted set shared by replicas with skewed clocks;
- the **scoring pipeline**: nested, rounded weighted averages that survive failing scorers, with rule, judge and
  cosine leaves;
- the **scoring worker queue**: retries, back-off, dead letters, graceful shutdown and hard kills, for any number of
  workers;
- **prompt versioning** under racing callers, and promotion between environments;
- **grid generation** from a parameter space, and **usage aggregation** over paged observations.

Where the code updates state step by step, a class with the same fields or a method with the same loop does so here
(`RateLimit.Redis`, `RateLimit.RateLimiter`, `Scoring.ScoringPipeline`, `WorkerProcess.ScoringWorker`,
`Prompts.PromptManager`, `Experiment.ExperimentRunner`, the tokenizer, range-expansion, grid, grouping, paging and
aggregation loops). Each is proved against a specification function or a state machine, and the laws are proved about
that specification: `*Laws.dfy` next to the file they are about, and for the worker also `WorkerFairness.dfy` and
`WorkerRows.dfy`.

Floats are exact real numbers; Python's `round` is rounding to the nearest multiple with ties to even. Digests,
clock readings, page contents, fresh identifiers and the outcomes of foreign calls are parameters.

## Findings

- Variant choice reuses the digest of the traffic gate. Over a period of digests the split is exactly even if and only
  if `gcd(10000, n)` divides the number of open buckets (`AbTest.EvenExactly`), as it does at full traffic; otherwise
  variants differ by one digest. A variant whose residue modulo `gcd(10000, n)` is not below the number of open
  buckets gets nothing at all (`AbTest.StarvedVariants`); with two variants and 0.01 percent of the traffic that is
  the second one (`AbTest.SecondVariantStarves`).
- The rate limiter calls itself a token bucket; it is a sliding window. With replicas whose clocks differ by up to `d`
  seconds and distinct timestamps, a limit of two or more is kept in windows of exactly `60 - d` seconds and no
  longer (in none at all from `d = 60` on), and a limit of one in windows of exactly 60 seconds whatever the skew
  (`RateLimit.WindowIsExact`). Its count is that of a naive log exactly for skews below 60 seconds
  (`RateLimit.NaiveExactly`). Requests
  with equal timestamps overwrite one another: without distinctness a limit of two or more is kept in no window at
  all, while a limit of one loses nothing (`RateLimit.DistinctnessIsNeeded`). The key's expiry never changes a
  decision if and only if clocks stay within 30 seconds of Redis's (`RateLimit.ExpiryIsExact`).
- Scorer weights are not validated. For given weights the returned aggregate stays in [0, 1], whatever strategies with
  scores in [0, 1] carry them, exactly when the negative normalised weights add up to no less than -0.00005, which
  rounding hides (`ScoringLaws.AggregateInUnitExactly`); weights 2 and -1 can return 2 (`ScoringLaws.AggregateOfTwo`).
  Before rounding, no negative normalised weight at all is tolerated (`ScoringLaws.InUnitExactlyWhenFair`).
- The repository's README speaks of three attempts per scoring job; the code makes one attempt and three retries, so
  a dead-lettered job has had four attempts and fourteen seconds of back-off (`WorkerLaws.AttemptsAndRows`).
- Because the row is committed before the observability calls, every attempt that fails or is killed after its commit
  leaves a row of its own (`WorkerRows.RowsExactly`). A job keeps to one row exactly when that has never happened, or
  has happened once without any later commit (`WorkerRows.AtMostOneRow`); a dead-lettered job can have left four
  (`WorkerRows.FourRows`).
- Promoting an older version does not roll an environment back while a newer version is still labelled with it
  (`PromptLaws.PromotionTakesEffect`, with a reachable case in `PromptLaws.RollbackWithoutEffect`).
- A continuous range with equal ends and no step never finishes expanding, nor does any non-empty range with a
  negative step (`ParameterSpace.TerminatesExactly`, `ParameterSpace.DefaultStep`). Rounding to six decimals keeps the
  values of every range with a given step different exactly when the step exceeds one millionth
  (`GridLaws.RangesSeparateExactly`); a range that repeats a value makes grid variants coincide
  (`GridLaws.GridDiffersExactly`).
- An empty service name is no filter (`UsageLaws.EmptyFilter`).

## Model

| member | source | states |
|---|---|---|
| AbTest.AllocateExactly | src/llmops/core/tuning/ab_test.py:18-36 | a digest is allocated exactly when its whole bucket of a hundredth of a percent lies within the traffic percentage, and then to the variant at digest mod n |
| AbTest.SplitOverOnePeriod | src/llmops/core/tuning/ab_test.py:27-36 | over any lcm(10000, n) consecutive digests variant i is selected by exactly as many as there are open buckets congruent to i modulo gcd(10000, n), for every n, threshold and start |
| AbTest.AllocationsOverOnePeriod | src/llmops/core/tuning/ab_test.py:27-36 | the same count for the variants themselves: among distinct variants, the digests of a period that are given the i-th one |
| AbTest.ResiduesSize | src/llmops/core/tuning/ab_test.py:28-35 | the closed form of that count: t / g, plus one for residues below t mod g |
| AbTest.SplitIsBalanced | src/llmops/core/tuning/ab_test.py:34-36 | any two variants differ by at most one digest per period |
| AbTest.FullTrafficIsEven | src/llmops/core/tuning/ab_test.py:30-36 | at 100 percent traffic or more every variant gets exactly 10000 / gcd digests per period |
| AbTest.EvenExactly | src/llmops/core/tuning/ab_test.py:27-36 | all variants get equally many digests in every period if and only if gcd(10000, n) divides the number of open buckets |
| AbTest.StarvedVariants | src/llmops/core/tuning/ab_test.py:30-36 | a variant gets no digest if and only if its residue is at or above the number of open buckets |
| AbTest.SecondVariantStarves | src/llmops/core/tuning/ab_test.py:30-36 | with two variants and 0.01 percent of the traffic the second variant gets nothing and the first does not |
| AbTest.TrafficShare | src/llmops/core/tuning/ab_test.py:30-32 | the experiment as a whole receives exactly T in 10000 digests of a period |
| AbTest.AllocationIsPeriodic | src/llmops/core/tuning/ab_test.py:18-36 | digests a whole period apart are treated alike, so one period describes all of them |
| NumberTheory.Solve | src/llmops/core/tuning/ab_test.py:28-35 | the remainder theorem behind the split: agreeing residues are met together exactly in every window of lcm numbers |
| NumberTheory.GcdIsGreatest | src/llmops/core/tuning/ab_test.py:28-35 | the divisor in the split is a common divisor of 10000 and n, and every common divisor divides it |
| RateLimit.RateLimiter.Check | src/llmops/api/middleware/rate_limit.py:21-50 | the pipeline appends one request to its key's history, leaves all other keys alone, and admits exactly when the replay of that history counts fewer than the limit; a non-positive limit admits without touching Redis |
| RateLimit.CountIsNaive | src/llmops/api/middleware/rate_limit.py:34-45 | with clocks less than 60 seconds apart the sorted set's count is the set of distinct earlier timestamps, admitted or rejected, later than 60 seconds before the largest seen |
| RateLimit.AdmittedNaively | src/llmops/api/middleware/rate_limit.py:43-50 | with such clocks a request is admitted if and only if fewer than `rpm` of these timestamps exist |
| RateLimit.NegativeStampsStay | src/llmops/api/middleware/rate_limit.py:34 | the prune starts at score zero, so a negative timestamp stays until the key expires |
| RateLimit.NaiveExactly | src/llmops/api/middleware/rate_limit.py:34-45 | the count is naive in every run of skew d if and only if d is below 60 seconds; at 60 a constructed run counts a timestamp that has left the window |
| RateLimit.AdmittedBounded | src/llmops/api/middleware/rate_limit.py:29-50 | with distinct timestamps and skew d, every half-open window of 60 - d seconds contains at most `rpm` admitted requests, over every run and arrival order |
| RateLimit.AdmittedStampsBounded | src/llmops/api/middleware/rate_limit.py:29-50 | without distinctness, the same bound on the distinct timestamps admitted |
| RateLimit.LimitOfOne | src/llmops/api/middleware/rate_limit.py:29-50 | a limit of one is kept in every window of 60 seconds, with any skew and with equal timestamps |
| RateLimit.WindowIsExact | src/llmops/api/middleware/rate_limit.py:29-50 | for every limit and every skew d the bound holds on windows of a given length if and only if the length is at most 60 for a limit of one, and otherwise at most 60 - d, or not positive when d is 60 or more: every longer window is exceeded by a constructed run |
| RateLimit.EqualStampsEscape | src/llmops/api/middleware/rate_limit.py:38 | any number of requests with one timestamp is admitted under every limit of two or more |
| RateLimit.DistinctnessIsNeeded | src/llmops/api/middleware/rate_limit.py:38 | over all runs of any skew, equal timestamps included, the bound holds on windows of a given length if and only if the length is at most 60 for a limit of one, and not positive for higher limits |
| RateLimit.AgreeingClocks | src/llmops/api/middleware/rate_limit.py:29-40 | clocks within e of Redis's are within 2e of each other, and the key never expires inside the window |
| RateLimit.ExpiryNeverMatters | src/llmops/api/middleware/rate_limit.py:40 | with clocks at most 30 seconds from Redis's every decision is the one a server without expiry would make |
| RateLimit.ExpiryIsExact | src/llmops/api/middleware/rate_limit.py:40 | the expiry leaves every decision of every such run alone if and only if clocks are within 30 seconds of Redis's; beyond that a constructed run is decided differently |
| Cosine.StripIsTrim | src/llmops/core/scoring/strategies/embedding.py:14 | stripping removes a prefix and a suffix of punctuation and leaves no punctuation at either end |
| Cosine.SimpleTokenize | src/llmops/core/scoring/strategies/embedding.py:9-17 | the dictionary holds every non-empty stripped word with its number of occurrences, and no other key |
| Cosine.WordsAreTrimmed | src/llmops/core/scoring/strategies/embedding.py:13-14 | each word is counted without the listed punctuation at its ends and with everything in between, in lower case |
| Cosine.CauchySchwarz | src/llmops/core/scoring/strategies/embedding.py:26-33 | the squared dot product is at most the product of the squared norms, with equality only for proportional vectors |
| Cosine.SimilarityInUnitRange | src/llmops/core/scoring/strategies/embedding.py:20-33 | the cosine of any two sparse count vectors lies in [0, 1] |
| Cosine.SimilaritySymmetric | src/llmops/core/scoring/strategies/embedding.py:20-33 | swapping the texts does not change it |
| Cosine.SimilarityOne | src/llmops/core/scoring/strategies/embedding.py:20-33 | it is 1 if and only if both vectors are non-empty and proportional |
| Cosine.SimilarityZero | src/llmops/core/scoring/strategies/embedding.py:20-33 | it is 0 if and only if the texts share no word |
| Cosine.LawOfCosines | src/llmops/core/scoring/strategies/embedding.py:20-33 | the squared distance between the vectors, each stretched by the other's norm, is twice the squared product of the norms times one minus the similarity |
| Scoring.ScoreRules | src/llmops/core/scoring/strategies/rule_based.py:38-64 | the loop yields the rounded share of passed rules, with exactly the failing ones collected; it raises when a rule raises, and passes when there are none |
| Scoring.ScoringPipeline.Build | src/llmops/core/scoring/pipeline.py:17-25 | construction succeeds exactly when all strategies are registered, and stores the strategies in order with their normalised weights |
| Scoring.ScoringPipeline.Run | src/llmops/core/scoring/pipeline.py:36-61 | the run returns the surviving scores in order and the rounded weighted aggregate of the recursive evaluation |
| Scoring.ScoringPipeline.Combine | src/llmops/core/scoring/pipeline.py:49-56 | the loop skips exceptions, keeping weights and results paired |
| ScoringLaws.JudgeScales | src/llmops/core/scoring/strategies/llm_judge.py:96-114 | a bare number up to 1 counts as it is, up to 10 as tenths, up to 100 as hundredths, and above as 1; a JSON score is clamped to [0, 1]; neither raises |
| ScoringLaws.JudgeFallback | src/llmops/core/scoring/strategies/llm_judge.py:76-116 | a reply without a number scores one half, and a failing call raises |
| ScoringLaws.RuleScoreIsShare | src/llmops/core/scoring/strategies/rule_based.py:38-64 | the rule score is the share of rules that pass, to the nearest fourth decimal with ties to even, 1 without rules, and raises exactly when a rule does |
| ScoringLaws.EmbeddingScoreIsCosine | src/llmops/core/scoring/strategies/embedding.py:60-80 | the embedding score is the cosine to the nearest fourth decimal, and 0 without a reference |
| ScoringLaws.CompositeEdges | src/llmops/core/scoring/strategies/composite.py:31-50 | an empty composite scores 0, and a composite raises exactly when one of its own strategies is unregistered |
| ScoringLaws.SuccessesInOrder | src/llmops/core/scoring/pipeline.py:52-55 | the individual scores are exactly the successful ones, each at its place in their order |
| Scoring.Score | src/llmops/core/scoring/strategies/composite.py:28-65 | each strategy, nested composites included, returns what the recursive specification says |
| Rounding.RoundedToUnit | src/llmops/core/scoring/pipeline.py:60 | the roundings to 4, 6 and 8 decimals give the nearest multiple of the unit, and of two equally near ones the even one |
| ScoringLaws.ScoreInUnit | src/llmops/core/scoring/strategies/composite.py:50-60 | in trees of any shape whose negative normalised weights add up to at least -0.00005 at every level, every score that does not raise lies in [0, 1], after rounding |
| ScoringLaws.FairIsMild | src/llmops/core/scoring/pipeline.py:21-25 | non-negative weights at every level meet that condition |
| ScoringLaws.PipelineInUnit | src/llmops/core/scoring/pipeline.py:49-61 | so do the individual scores and the aggregate at every depth; with non-negative weights the unrounded aggregate is at most the surviving normalised weight |
| ScoringLaws.RuleScoreInUnit | src/llmops/core/scoring/strategies/rule_based.py:45-60 | the rounded rule score lies in [0, 1] |
| ScoringLaws.SharesAddUp | src/llmops/core/scoring/pipeline.py:21-25 | normalised weights add up to one, or are all zero |
| ScoringLaws.InUnitExactlyWhenFair | src/llmops/core/scoring/pipeline.py:21-56 | before rounding, the weighted sum of scores in [0, 1] always stays there if and only if no weight is negative or the total is not positive |
| ScoringLaws.AggregateInUnitExactly | src/llmops/core/scoring/pipeline.py:21-61 | every constructible pipeline with given weights whose scorers keep to [0, 1] returns a rounded aggregate in [0, 1] if and only if the negative normalised weights add up to at least -0.00005; otherwise a pipeline of judges leaves the range |
| ScoringLaws.AggregateOfTwo | src/llmops/core/scoring/pipeline.py:21-61 | a passing rule scorer of weight 2 and a silent judge of weight -1 aggregate to 2 |
| ScoringLaws.FailureCountsAsZero | src/llmops/core/scoring/pipeline.py:52-56 | a failed scorer counts as exactly zero at its full weight: nothing is renormalised |
| ScoringLaws.ExactIsFlat | src/llmops/core/scoring/pipeline.py:21-25 | without inner rounding a tree evaluates to the sum over its leaves of path weight times value, whatever the weights |
| ScoringLaws.EvalIsNearlyFlat | src/llmops/core/scoring/strategies/composite.py:41-60 | with rounding at every level the value is within height times 0.00005 of that flat sum |
| ScoringLaws.AggregateIsNearlyFlat | src/llmops/core/scoring/pipeline.py:47-61 | the same for a whole pipeline's aggregate |
| WorkerLaws.StepKeepsPlaces | src/llmops/workers/scoring_worker.py:107-164 | no step of any process duplicates or drops a job; an enqueue issues the one new id |
| WorkerLaws.RunConserves | src/llmops/workers/scoring_worker.py:107-167 | in every interleaving each issued job is in exactly one of queue, hands, succeeded, dead letters and lost, and the lost ones number at most the hard kills |
| WorkerLaws.GracefulShutdownLosesNothing | src/llmops/workers/scoring_worker.py:158-173 | without hard kills nothing is ever lost, and once all workers have stopped every job is queued, succeeded or dead-lettered |
| WorkerLaws.OneMoreJobAtMost | src/llmops/workers/scoring_worker.py:158-173 | after its signal a worker takes at most one more job, and only if it was already waiting |
| WorkerLaws.EnvironmentIsFree | src/llmops/workers/scoring_worker.py:107-173 | signals and kills may hit a live process wherever it stands, a kill loses just the job in hand, and attempts may fail before or after the commit |
| WorkerLaws.RunKeepsLedger | src/llmops/workers/scoring_worker.py:109-140 | over every interleaving each job's attempts, rows and back-off fit its retry count and the place it is in |
| WorkerLaws.AttemptsAndRows | src/llmops/workers/scoring_worker.py:75-140 | at most 4 attempts, at most as many rows, at most 14 seconds of back-off; queued jobs with retry count 0, 1, 2, 3 have slept 0, 2, 6, 14 seconds; succeeded jobs have 1 to 4 rows; dead letters have retry count 3, 4 attempts and exactly 14 seconds |
| WorkerRows.RowsExactly | src/llmops/workers/scoring_worker.py:75-98 | over every run a job's rows are exactly its attempts that failed or were killed after their commit, plus one while an attempt is past its commit or once one has succeeded |
| WorkerRows.AtMostOneRow | src/llmops/workers/scoring_worker.py:75-98 | a job has at most one row if and only if no attempt failed after its commit, or one did and nothing has been committed since |
| WorkerRows.FourRows | src/llmops/workers/scoring_worker.py:75-140 | the worker's own loop, failing late four times, dead-letters a job that has left four rows |
| WorkerLaws.MovesBounded | src/llmops/workers/scoring_worker.py:120-140 | the work left drops with every handled step, so moves are bounded by the work and 16 per enqueue |
| WorkerLaws.FinitelyManyMoves | src/llmops/workers/scoring_worker.py:109-140 | n enqueues allow at most 16 n moves in any interleaving; the work left is never negative and zero only with empty queue and hands |
| WorkerLaws.WorkIsNeverStuck | src/llmops/workers/scoring_worker.py:158-164 | a live worker that holds a job, or has no signal while one is queued, always has a step that carries a job on, or leads to a pop |
| WorkerLaws.OneWorkerCanDrain | src/llmops/workers/scoring_worker.py:109-164 | from every state that satisfies the invariants one live worker without a signal can empty the queue and its hands on its own |
| WorkerFairness.WorkerComesToRest | src/llmops/workers/scoring_worker.py:109-164 | whatever the other processes do, a live worker that is neither signalled nor killed reaches a state with an empty queue and empty hands before it has taken more than 2 * work + 1 steps of its own, unless jobs are enqueued |
| WorkerFairness.EveryFairRunDrains | src/llmops/workers/scoring_worker.py:109-164 | in every run in which one live worker and all job holders keep being scheduled, as many rounds as there is work left empty the queue and everybody's hands, with any kills and signals elsewhere |
| WorkerFairness.EveryJobIsSettled | src/llmops/workers/scoring_worker.py:109-164 | from every reachable state, 16 fair rounds per enqueue leave each job in exactly one of succeeded, dead letters and lost |
| WorkerFairness.FairRoundExists | src/llmops/workers/scoring_worker.py:158-164 | such a round can always follow, so the theorems are not empty |
| WorkerFairness.LoopDrains | src/llmops/workers/scoring_worker.py:158-164 | however its attempts end, the main loop of an unsignalled process empties the queue in one turn per unit of work |
| WorkerLaws.RunKeepsFifo | src/llmops/workers/scoring_worker.py:54-164 | over every interleaving pops come in the order of pushes |
| WorkerLaws.RepushedJobWaitsItsTurn | src/llmops/workers/scoring_worker.py:131-132 | a re-pushed job is popped only after every job queued at that moment, by whichever workers, and in their order |
| WorkerProcess.ScoringWorker.EnqueueScoringJob | src/llmops/workers/scoring_worker.py:32-54 | a fresh job with retry count zero goes to the left end of the queue, as the machine's step |
| WorkerProcess.ScoringWorker.ProcessJob | src/llmops/workers/scoring_worker.py:57-98 | the row is stored exactly when the attempt gets past the commit, even if it raises later |
| WorkerProcess.ScoringWorker.HandleJobWithRetry | src/llmops/workers/scoring_worker.py:107-140 | one handled attempt takes exactly the machine's steps: after 2, 4 or 8 seconds a re-push with retry count 1, 2 or 3, or the dead-letter list at the limit |
| WorkerProcess.ScoringWorker.AwaitJob | src/llmops/workers/scoring_worker.py:158-161 | the flag is read, then the right end of the queue is taken or nothing; a signal meanwhile does not undo the pop |
| WorkerProcess.ScoringWorker.RunWorker | src/llmops/workers/scoring_worker.py:146-167 | the main loop takes exactly the machine steps of its turns: each turn without the flag pops and handles the job at the right end if there is one, and the loop stops when the flag is found up |
| PromptLaws.StepIsSound | src/llmops/core/prompts/manager.py:97-181 | every atomic database step of any caller keeps version numbers contiguous, unique and owned by a prompt |
| PromptLaws.ReachableIsSound | src/llmops/core/prompts/manager.py:133-153 | for any number of callers and any interleaving of their reads and inserts each prompt's versions are exactly 1..k, each once |
| PromptLaws.FirstCommitterWins | src/llmops/db/models/prompt.py:38 | a caller's insert succeeds if and only if nobody has taken the number since its read; it then appends just its own draft, and otherwise changes nothing |
| PromptLaws.UndisturbedCreate | src/llmops/core/prompts/manager.py:124-153 | an undisturbed call appends the next version with the given template, as a draft |
| PromptLaws.TemplatesNeverChange | src/llmops/core/prompts/manager.py:124-181 | rows are never removed, renumbered or rewritten; only environments change |
| PromptLaws.LatestIsHighest | src/llmops/core/prompts/manager.py:66-90 | the sorted, limited query picks a matching row with the highest version, and fails only without a matching row |
| PromptLaws.GetReturnsLatest | src/llmops/core/prompts/manager.py:81-95 | in every reachable state asking without version or environment returns version k |
| PromptLaws.GetByVersion | src/llmops/core/prompts/manager.py:57-67 | by number the stored row with that number is returned, and the call raises exactly for numbers outside 1..k or an unknown prompt |
| PromptLaws.GetByEnvironment | src/llmops/core/prompts/manager.py:69-84 | by environment the highest row labelled with it is returned, and the call raises exactly without such a row, for an unknown label or an unknown prompt |
| PromptLaws.UnknownPromptRaises | src/llmops/core/prompts/manager.py:207-212 | every lookup and the listing of an unknown prompt raise |
| PromptLaws.PromotionIsLocal | src/llmops/core/prompts/manager.py:157-181 | promotion changes the environment of the one row with this name and version, and nothing else |
| PromptLaws.OtherPromptsUnaffected | src/llmops/core/prompts/manager.py:167-177 | every lookup and the listing of every other prompt answer as before |
| PromptLaws.PromotionTakesEffect | src/llmops/core/prompts/manager.py:157-181 | after a promotion the environment serves the promoted version if and only if no higher version of the prompt is labelled with it |
| PromptLaws.RollbackWithoutEffect | src/llmops/core/prompts/manager.py:157-181 | a reachable promotion of version 1 over version 2 after which production still serves version 2 |
| PromptLaws.ListIsCountdown | src/llmops/core/prompts/manager.py:196-205 | the listing consists of stored rows and counts down from k to 1 |
| Prompts.PromptManager.CreatePrompt | src/llmops/core/prompts/manager.py:97-122 | creation adds the prompt with version 1 as a draft, or raises on a taken name and changes nothing |
| Prompts.PromptManager.ReadHighest | src/llmops/core/prompts/manager.py:133-141 | the first half of version creation finds the highest version, or 0, or raises without the prompt |
| Prompts.PromptManager.InsertNext | src/llmops/core/prompts/manager.py:143-153 | the second half appends exactly the next version, or raises exactly when the number is taken and changes nothing |
| Prompts.PromptManager.PromoteVersion | src/llmops/core/prompts/manager.py:157-181 | promotion relabels exactly the one version, or raises on an unknown prompt, label or version and changes nothing |
| Experiment.ExperimentRunner.GroupByVariant | src/llmops/core/tuning/experiment.py:136-143 | the grouping loop's dictionaries hold, per variant in order of first appearance, all its scores in row order and its first parameters |
| Experiment.ExperimentRunner.GetResults | src/llmops/core/tuning/experiment.py:124-166 | the results are the ranking of this experiment's scored trials, with their number |
| Experiment.ExperimentRunner.ConcludeExperiment | src/llmops/core/tuning/experiment.py:168-188 | concluding completes a running experiment at the given time, with the choice as winner, or the first-ranked variant when the choice is missing or empty, and raises otherwise |
| Experiment.ExperimentRunner.CreateExperiment | src/llmops/core/tuning/experiment.py:44-68 | a fresh id gets a draft with its variants and traffic, without winner or conclusion |
| Experiment.ExperimentRunner.RecordTrial | src/llmops/core/tuning/experiment.py:91-122 | a trial is appended, and joins the scored trials of exactly its own experiment when it has a score |
| Experiment.ExperimentRunner.StartExperiment | src/llmops/core/tuning/experiment.py:70-79 | only a draft starts |
| Experiment.ExperimentRunner.AllocateVariant | src/llmops/core/tuning/experiment.py:81-89 | a running experiment with variants allocates exactly the digests within its stored traffic, to its stored variant at digest mod n; in any other status nobody gets a variant |
| Experiment.ExperimentRunner.CancelExperiment | src/llmops/core/tuning/experiment.py:190-196 | cancelling works in every status and touches nothing but the status |
| ExperimentLaws.RankingPartitions | src/llmops/core/tuning/experiment.py:136-166 | the groups partition the scored trials: counts add up to their number, and the groups' scores together are a permutation of theirs |
| ExperimentLaws.ResultIsSummary | src/llmops/core/tuning/experiment.py:146-157 | each result summarises a non-empty group: its count, rounded mean, least and greatest score, the mean within half a unit of lying between them, and the group's parameters |
| ExperimentLaws.ParametersOfFirst | src/llmops/core/tuning/experiment.py:139-142 | a group's parameters are those of its first trial |
| Experiment.MeanCombines | src/llmops/core/tuning/experiment.py:152 | the mean of one score is that score, and means combine in proportion to the numbers of scores |
| Experiment.MeanBetween | src/llmops/core/tuning/experiment.py:152 | the mean lies between any bounds of the scores |
| ExperimentLaws.WinnerIsNearlyBest | src/llmops/core/tuning/experiment.py:159-180 | rounded means descend, and the first one's true mean is within 0.0001 of every other |
| ExperimentLaws.TiesGoToFirstSeen | src/llmops/core/tuning/experiment.py:159-160 | among equal rounded means the variant seen first is ranked first |
| ExperimentLaws.AutomaticWinner | src/llmops/core/tuning/experiment.py:176-183 | without a choice the winner is the first-ranked variant, and the choice itself only without scored trials |
| ExperimentLaws.RunAdvances | src/llmops/core/tuning/experiment.py:70-196 | over every run of calls the status never goes back, and winner and time of a conclusion survive everything, cancelling included |
| ExperimentLaws.RunStaysConsistent | src/llmops/core/tuning/experiment.py:168-196 | in every reachable state an experiment without a conclusion has no winner and is not completed |
| ExperimentLaws.ConcludedExactlyOnce | src/llmops/core/tuning/experiment.py:168-188 | the conclusion time is set if and only if exactly one call concluded the experiment |
| ExperimentLaws.AllocationIsSticky | src/llmops/core/tuning/experiment.py:81-89 | over every run all variants given to one key in one experiment are equal |
| ExperimentLaws.ConcludedAllocatesNothing | src/llmops/core/tuning/experiment.py:84-85 | a concluded experiment never allocates again |
| Sorting.SortIsStable | src/llmops/core/tuning/experiment.py:160 | the sort is descending and keeps the order of equal keys |
| ParameterSpace.ExpandContinuous | src/llmops/core/tuning/parameter_space.py:20-26 | the loop yields the rounded values min + j step for exactly the j that fit, and none when min > max |
| ParameterSpace.TerminatesExactly | src/llmops/core/tuning/parameter_space.py:23-25 | the loop comes to an end if and only if the effective step is positive or min > max |
| ParameterSpace.DefaultStep | src/llmops/core/tuning/parameter_space.py:20 | without a step a proper range yields exactly six values, and a single point never terminates |
| ParameterSpace.FiniteExactly | src/llmops/core/tuning/parameter_space.py:19-26 | a continuous range comes to an end if and only if its step, or a fifth of the range for a missing or zero step, is positive or min > max |
| ParameterSpace.ExpansionOfSteps | src/llmops/core/tuning/parameter_space.py:19-26 | the k-th value is there exactly when min plus k steps does not exceed max, and is that sum to the nearest sixth decimal |
| ParameterSpace.ExpansionOfListed | src/llmops/core/tuning/parameter_space.py:13-28 | listed values are taken as they are, and ranges without what they need give none |
| ParameterSpace.ExpandRange | src/llmops/core/tuning/parameter_space.py:11-28 | each kind of range expands as specified, to nothing when its fields are missing |
| ParameterSpace.GenerateGrid | src/llmops/core/tuning/parameter_space.py:31-45 | one variant per combination of the expanded ranges, in order, zipped with the names |
| GridLaws.KthCombination | src/llmops/core/tuning/parameter_space.py:37 | the k-th combination is the mixed-radix decoding of k, and the number of combinations is the product of the sizes |
| GridLaws.EncodeDigits | src/llmops/core/tuning/parameter_space.py:37 | encoding the digits of a position gives the position back |
| GridLaws.DigitsEncode | src/llmops/core/tuning/parameter_space.py:37 | and decoding an encoded choice gives the choice back |
| GridLaws.EveryChoiceOnce | src/llmops/core/tuning/parameter_space.py:31-45 | every choice of one value per range occurs at exactly one position |
| GridLaws.GridIsLexicographic | src/llmops/core/tuning/parameter_space.py:37 | combinations come in lexicographic order of positions |
| GridLaws.VariantValues | src/llmops/core/tuning/parameter_space.py:31-45 | in the k-th variant each parameter's name carries the value that the k-th combination picks for it, the last parameter of a name prevailing, and there are no other names |
| GridLaws.GridVariantsDiffer | src/llmops/core/tuning/parameter_space.py:38 | with different names and different values per range all dictionaries differ |
| GridLaws.GridDiffersExactly | src/llmops/core/tuning/parameter_space.py:37-38 | with different names all dictionaries differ if and only if no list repeats a value or some list is empty |
| GridLaws.SpaceVariantsDiffer | src/llmops/core/tuning/parameter_space.py:31-45 | the same for a whole space whose steps exceed the rounding unit |
| GridLaws.ExpandedValuesDiffer | src/llmops/core/tuning/parameter_space.py:24 | steps above one millionth stay different, and in order, when rounded to six decimals |
| GridLaws.FineStepsCollide | src/llmops/core/tuning/parameter_space.py:19-26 | for every positive step of at most one millionth, an actual range that expands to the same value twice |
| GridLaws.RangesSeparateExactly | src/llmops/core/tuning/parameter_space.py:19-26 | for a positive step, every continuous range with that step expands to different values if and only if the step exceeds one millionth |
| GridLaws.SeparatesExactly | src/llmops/core/tuning/parameter_space.py:24 | the same iff for the rounded values min + j step themselves, for every min and every pair |
| Usage.Aggregate | src/llmops/core/gateway/langfuse_cost_tracker.py:85-164 | the loop's accounts hold, for exactly the wanted services seen, the plain sums over their observations and over each of their models |
| Usage.AddTo | src/llmops/core/gateway/langfuse_cost_tracker.py:117-133 | one loop turn keeps the accounts equal to the plain sums |
| Usage.QueryLangfuse | src/llmops/core/gateway/langfuse_cost_tracker.py:59-83 | following cursors aggregates the whole listing, page after page, until a missing or empty cursor |
| UsageLaws.FilterCommutes | src/llmops/core/gateway/langfuse_cost_tracker.py:114-152 | for a non-empty name the filtered summary is that service's entry of the unfiltered one, or zeros when it is absent |
| UsageLaws.EmptyFilter | src/llmops/core/gateway/langfuse_cost_tracker.py:114-135 | an empty name gives the unfiltered summary |
| UsageLaws.ListingIsFlat | src/llmops/core/gateway/langfuse_cost_tracker.py:65-81 | following the cursors of a server that hands out pages one after another ends exactly after the last page and collects their observations in order |
| UsageLaws.LastPage | src/llmops/core/gateway/langfuse_cost_tracker.py:79-81 | the listing ends with a page whose cursor is missing or empty, and only there |
| UsageLaws.PagesAreServed | src/llmops/core/gateway/langfuse_cost_tracker.py:65-81 | every division into pages is handed out by some server, from each of its cursors |
| UsageLaws.TakeOut | src/llmops/core/gateway/langfuse_cost_tracker.py:108-133 | any observation, not only the last, can be taken out of the sums of its service and model |
| UsageLaws.OrderIsIrrelevant | src/llmops/core/gateway/langfuse_cost_tracker.py:108-133 | the accounts depend on which observations come how often, and not on their order |
| UsageLaws.PagingIsIrrelevant | src/llmops/core/gateway/langfuse_cost_tracker.py:65-83 | servers that hand out the same observations give the same summary, however these are divided into pages and in whatever order observations and pages come |
| UsageLaws.ServiceIsSumOfModels | src/llmops/core/gateway/langfuse_cost_tracker.py:123-133 | each service's tokens, requests and unrounded cost are the sums over its models |
| UsageLaws.ServicesConserveTotal | src/llmops/core/gateway/langfuse_cost_tracker.py:108-133 | without a filter the services together account for every observation's own cost, tokens and request exactly once |
| UsageLaws.OneMoreObservation | src/llmops/core/gateway/langfuse_cost_tracker.py:109-133 | one more observation adds its own cost, tokens and one request to the service of its metadata and to its model there, or to "unknown", and to nothing else |
| UsageLaws.ReplyShowsAccounts | src/llmops/core/gateway/langfuse_cost_tracker.py:135-164 | the reply shows each account unchanged except for the total cost, rounded to eight decimals, and a filtered reply shows the one asked for |

## Left out

- Binary floating point: scores, weights, percentages, steps, costs and timestamps are exact reals, so drift in `v += step`, in `int(p * 100)`, in `str(now)`, from the order of a summation, and NaN scores are not modelled.
- SHA-256: an arbitrary function from keys to digests; nothing is claimed about its randomness, the split is a count over consecutive digest values.
- Cosine.SimpleTokenize: `str.lower` is a parameter applied to the stripped words, and splitting at white space is done by the caller.
- Cosine.SimilarityInUnitRange: square roots are given as non-negative numbers with the right square, not computed.
- Scoring.Score: what regular expressions, JSON parsing, rule matching and the judge model return appears as the outcome of the call; names, comments and metadata of results are dropped; scorers run one after the other, since gathering awaits all of them and they share no state.
- RateLimit.RateLimiter.Check: a Redis failure, after which the dependency admits the request (rate_limit.py:74-85), the choice of the key from header or address, the global limiter instance and connection handling.
- RateLimit.AdmittedBounded: assumes, like the other window results, non-negative clocks, and that a key Redis drops belongs to an idle window, which agreeing clocks guarantee (RateLimit.AgreeingClocks).
- WorkerProcess.ScoringWorker: one process between whose own steps nobody else acts; all interleavings are covered by the state machine whose steps its methods take. A Redis error inside a worker ends the process and is a hard kill. Job payloads other than the retry count are dropped, and so are metrics and logging.
- WorkerProcess.ScoringWorker.RunWorker: takes a finite list of turns as the environment's behaviour; an endless run is covered by its finite prefixes.
- ParameterSpace.ExpandRange: requires a range whose loop ends; ParameterSpace.TerminatesExactly shows that this excludes nothing else.
- ParameterSpace.GenerateGrid: `itertools.product` is a recursive function and fresh identifiers are supplied; random variant generation is left out.
- Usage.QueryLangfuse: requires a server whose cursors come to an end, and takes the API's pages as a function of the cursor; the time filter and the fallback on an exception are left out, as are service names that are not strings.
- Usage.AddTo: the nested dictionaries are map values that are reassigned, so aliasing between them is not modelled.
- Experiment.ExperimentRunner.GetResults: rows come in insertion order, as the query names no order; the in-place sort is a stable insertion sort on values.
- Experiment.ExperimentRunner.StartExperiment: each runner call is one transaction; the code takes no row lock, and interleaved start, conclude and cancel calls on one experiment are not covered.
- Experiment creation: the unique name, the description, and generating variants when none are given.
- PromptLaws.ReachableIsSound: deleting prompts, with its cascade, is not among the steps; ids, variables, notes, timestamps and the active flag of `list_prompts` are dropped.
- Provider adapters, routing, the HTTP layer, authentication, the Redis cost tracker, the tuning worker, migrations and deployment files.
