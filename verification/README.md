# Nous in Dafny

Nous tracks commitments: it extracts them from text, scores the risk that they are missed, raises
interventions and records every decision. This project models the parts of it whose promises span
unbounded inputs or runs, and proves those promises. It is checked with
`dafny verify dfyconfig.toml`.

Time is an `int` in nanoseconds (clocks do not run backwards), `float64` is `real`, a string is a
sequence of runes, an identifier is a natural number with 0 for the nil UUID. Hashes, random
secrets, drawn identifiers, signals, repository failures and the outcome of a protected call are
inputs of the members that use them.

| file | what it models |
|---|---|
| `RateLimiter.dfy` | the per-key token-bucket limiter and its clean-up |
| `Breaker.dfy` | the circuit breaker with calls that do not overlap |
| `BreakerInterleaving.dfy` | the same breaker with any number of calls in flight, lock section by lock section |
| `Domain.dfy`, `Text.dfy`, `Sorting.dfy`, `Selecting.dfy` | records and their rules, trimming, sorted selections, selections by position |
| `SqlQueries.dfy` | the filter-to-SQL builders, three-valued logic, ORDER BY and LIMIT |
| `Stores.dfy` | the in-memory repositories and the SQL writes they are compared with |
| `Engines.dfy` | the risk and intervention engines |
| `Pipeline.dfy`, `Extraction.dfy`, `PipelineRuns.dfy` | evaluation passes, extractions, and whole runs of both |
| `PromptFitting.dfy`, `AbRouting.dfy` | fitting a prompt into a context window, A/B routing of prompts |
| `ArrayExtraction.dfy` | pulling the JSON array out of a model's reply |
| `KeyRotation.dfy` | token issue and verification while signing keys rotate |

## What was found

- The half-open trap is real. Under overlap a late success wipes the failure count of an open
  breaker; probes that then fail below the limit leave it half-open with its budget spent, and no
  call ever runs again. `TrapReachableIff` gives the exact condition, `MaxRequests` smaller than
  `MaxFailures`, which the default configuration (1 and 5) meets.
- internal/circuit/breaker.go:30 says that `MaxRequests` 0 means 1. The code does not do that, and a
  breaker built that way (internal/adapters/praxis/grpc.go:89) never recovers once open:
  `CallRunsIffHistoryAllows` covers it.
- `Cleanup` is unnoticeable exactly when the youngest bucket it can delete has had time to refill:
  `CleanupInvisibleIffSafe`. `Cleanup(0)` is not safe in general.
- internal/llm/ab_prompt.go:82-83 promises the same routing for every order of the variants. That
  holds for labels, and for the prompt used exactly when no two weighted variants share a label with
  different builders: `BuilderIgnoresOrderIff`.
- internal/auth/rotator.go:13-14 says the previous key is kept for the overlap. The code keeps it
  until the next rotation and never looks at the overlap again; live tokens are safe exactly up to a
  lifetime of one period: `NeverDroppedIff`.
- internal/domain/intervention.go:57-58 says a pending intervention may go to any status. The code does
  not let it go straight to executed: `ResolutionsProgress`.
- A model reply fenced on a single line and not closed loses its array, because the opening fence is
  taken for the closing one (internal/llm/parse.go:79-81): `OneLineUnclosedFence`.
- The array scanner ignores quotes. `BracketInStringEndsScan` is a reply it cuts short, and
  `ReturnedIffClosed` says exactly which texts it recovers.

## Model

| member | source | states |
|---|---|---|
| `RateLimiter.Limiter.constructor` | internal/transport/http/ratelimit.go:26-32 | a new limiter has the given rate and capacity and no buckets |
| `RateLimiter.Limiter.Allow` | internal/transport/http/ratelimit.go:35-55 | the answer and the whole new table of one call: lazy creation, refill capped at capacity, one token charged when at least one is there |
| `RateLimiter.Limiter.Cleanup` | internal/transport/http/ratelimit.go:58-68 | exactly the buckets untouched for longer than the age are gone, the others unchanged |
| `RateLimiter.TokensStayInRange` | internal/transport/http/ratelimit.go:45-52 | over every run, clean-ups included, every bucket holds between 0 and capacity tokens |
| `RateLimiter.RunProjectsToBucket` | internal/transport/http/ratelimit.go:39-55 | a key's answers in a run are those of its own bucket on its own arrivals, whatever other keys do |
| `RateLimiter.EnvelopeBound` | internal/transport/http/ratelimit.go:35-55 | in every window of any Cleanup-free stretch of any run a key is admitted at most capacity + rate per second * elapsed times, with time in nanoseconds |
| `RateLimiter.GreedyIsOptimal` | internal/transport/http/ratelimit.go:35-55 | the admitted calls respect the envelope, and no other choice of arrivals that does has admitted more after any prefix |
| `RateLimiter.DrainedKeyWaits` | internal/transport/http/ratelimit.go:39-54 | a new key gets its whole burst; after that, whatever other keys do, it is refused while the nanoseconds since then times the rate are below 1,000,000,000 and served by its first call from there on |
| `RateLimiter.CleanupInvisible` | internal/transport/http/ratelimit.go:39-68 | a run with safe clean-ups anywhere gives the same answers as the run without them |
| `RateLimiter.UnsafeAgeNoticed` | internal/transport/http/ratelimit.go:58-68 | for every unsafe age, draining, waiting and draining again gets different answers with and without the clean-up |
| `RateLimiter.CleanupInvisibleIffSafe` | internal/transport/http/ratelimit.go:58-68 | an age is unnoticeable in all runs if and only if capacity is not positive or the rate per second times the nanoseconds the youngest deletable bucket has waited makes capacity tokens |
| `CircuitBreaker.Breaker.constructor` | internal/circuit/breaker.go:55-66 | zero limits take the defaults 5 and 30 s, `MaxRequests` is left alone, the breaker starts closed |
| `CircuitBreaker.Breaker.TryHalfOpen` | internal/circuit/breaker.go:79-84 | the state after the section that turns an open breaker half-open and resets its probe count |
| `CircuitBreaker.Breaker.Gate` | internal/circuit/breaker.go:87-95 | refused exactly when half-open with the budget spent, otherwise counted as a probe when half-open |
| `CircuitBreaker.Breaker.Succeeded` | internal/circuit/breaker.go:124-129 | failures are zeroed; only a half-open breaker closes |
| `CircuitBreaker.Breaker.Failed` | internal/circuit/breaker.go:131-137 | failures are counted; at the limit the breaker opens until now + timeout |
| `CircuitBreaker.Breaker.Call` | internal/circuit/breaker.go:70-108 | result and new state of one undisturbed call |
| `CircuitBreaker.HistoryTold` | internal/circuit/breaker.go:70-137 | state, failure count and next try are determined by the history of executed calls |
| `CircuitBreaker.CallRunsIffHistoryAllows` | internal/circuit/breaker.go:70-137 | a call runs if and only if the trailing failures are below the limit, or probes are allowed and the timeout since the last failure has passed; with probes allowed callers never find it half-open |
| `CircuitBreaker.FailingDependencyBound` | internal/circuit/breaker.go:75-85 | in any stretch where every executed call fails, executed calls * timeout is at most limit * timeout + elapsed time |
| `BreakerInterleaving.InvHolds` | internal/circuit/breaker.go:70-137 | what every step of every interleaving keeps: failures, probe count and running probes stay in the stated relation |
| `BreakerInterleaving.EveryInterleavingIsSafe` | internal/circuit/breaker.go:70-137 | closed implies below the limit, no step from open to closed, probes of an episode equal `halfOpenRequests` and never exceed the budget |
| `BreakerInterleaving.CallNeverStuck` | internal/circuit/breaker.go:70-108 | a call in flight can always take its next step, whatever other calls did to the breaker |
| `BreakerInterleaving.CallComesToAnEnd` | internal/circuit/breaker.go:70-108 | each step of a call brings it closer to its end, at most four away, and no step moves another call |
| `BreakerInterleaving.NextTryFollowsLastTrip` | internal/circuit/breaker.go:131-137 | under every interleaving the next try is a timeout after the last failure at the limit, a straggler's included, and the breaker is never open without one |
| `BreakerInterleaving.TrapIsForever` | internal/circuit/breaker.go:87-108 | half-open with the budget spent and nothing running is preserved by every continuation |
| `BreakerInterleaving.TrapSprung` | internal/circuit/breaker.go:124-137 | a legal run, for every such configuration, that ends in the trap |
| `BreakerInterleaving.TrapReachableIff` | internal/circuit/breaker.go:87-137 | the trap can be reached if and only if the probe budget is smaller than the failure limit |
| `BreakerInterleaving.UndisturbedCallIsInterleaving` | internal/circuit/breaker.go:70-108 | taking the steps of one call without interference is legal and has exactly the effect of the sequential model |
| `Sorting.AnswersAgree` | internal/store/memory/commitment_repo.go:66-86 | two sorted, cut selections of the same rows tie at every position, differ only in rows tying with the last, and omit nothing that precedes what they keep |
| `Sorting.UntiedAnswersEqual` | internal/store/memory/commitment_repo.go:47-54 | when no two rows tie there is exactly one answer |
| `Sorting.SortSlice` | internal/store/memory/commitment_repo.go:47-50 | some sorted rearrangement of the rows, each once |
| `SqlQueries.BuildSqliteCommitmentList` | internal/store/sqlite/commitment_repo.go:88-118 | statement and arguments built clause by clause with `?` |
| `SqlQueries.BuildPostgresCommitmentList` | internal/store/postgres/commitment_repo.go:88-118 | statement and arguments built clause by clause with `$n` |
| `SqlQueries.BuildSqliteInterventionList` | internal/store/sqlite/intervention_repo.go:84-117 | likewise for interventions with `?` |
| `SqlQueries.BuildPostgresInterventionList` | internal/store/postgres/intervention_repo.go:78-110 | likewise for interventions with `$n` |
| `SqlQueries.CommitmentNumbering` | internal/store/postgres/commitment_repo.go:93-117 | numbering the `?` of the SQLite statement from left to right gives the Postgres statement, with the same arguments, all of them used |
| `SqlQueries.InterventionNumbering` | internal/store/postgres/intervention_repo.go:83-110 | the same for interventions |
| `SqlQueries.CommitmentWhereMeansFilter` | internal/store/sqlite/commitment_repo.go:93-111 | in three-valued logic the WHERE is true of exactly the rows the in-memory filter accepts |
| `SqlQueries.InterventionWhereMeansFilter` | internal/store/sqlite/intervention_repo.go:89-113 | the same for interventions, NULL anchors included |
| `SqlQueries.CommitmentListsAgree` | internal/store/memory/commitment_repo.go:37-55 | for every filter and table, SQLite, Postgres and memory allow exactly the same results |
| `SqlQueries.InterventionListsAgree` | internal/store/memory/intervention_repo.go:36-53 | the same for interventions, newest first |
| `SqlQueries.ActiveOrdersAreUrgency` | internal/store/sqlite/commitment_repo.go:121-128 | ORDER BY with CASE, ORDER BY with NULLS LAST and the Go comparator are the same order |
| `SqlQueries.MemoryOrdersAreWeak` | internal/store/memory/commitment_repo.go:66-82 | the comparators are strict weak orders |
| `SqlQueries.FindActiveAgrees` | internal/store/postgres/commitment_repo.go:121-132 | all three versions of FindActive allow exactly the same sorted selections of the active rows |
| `SqlQueries.ResultsDifferOnlyInTies` | internal/store/memory/commitment_repo.go:57-87 | any two results of the same question agree position by position on the sort key, and no omitted active row is more urgent than a returned one |
| `SqlQueries.ResultsInOrder` | internal/store/memory/commitment_repo.go:47-82 | lists come oldest first, interventions newest first, active commitments by falling risk, then due time with none last, then age; no row twice |
| `Stores.CommitmentMatches` | internal/store/memory/commitment_repo.go:105-127 | the flag loop decides the filter |
| `Stores.InterventionMatches` | internal/store/memory/intervention_repo.go:55-82 | the flag loop decides the filter |
| `Stores.MemoryStore.ListCommitments` | internal/store/memory/commitment_repo.go:37-55 | returns a sorted, cut selection of exactly the matching rows |
| `Stores.MemoryStore.FindActive` | internal/store/memory/commitment_repo.go:57-87 | returns a sorted, cut selection of exactly the active rows |
| `Stores.MemoryStore.ListInterventions` | internal/store/memory/intervention_repo.go:36-53 | returns a sorted, cut selection of exactly the matching rows |
| `Stores.MemoryStore.SaveCommitment` | internal/store/memory/commitment_repo.go:17-25 | an invalid row is refused, a valid one replaces what was stored, nothing else changes |
| `Stores.MemoryStore.UpdateRisk` | internal/store/memory/commitment_repo.go:89-103 | score, evaluation and update time of a stored row are set without any validation; an unknown one is an error |
| `Stores.MemoryStore.SaveIntervention` | internal/store/memory/intervention_repo.go:16-24 | an invalid row is refused, a valid one replaces what was stored |
| `Stores.MemoryStore.SaveDecision` | internal/store/memory/decision_repo.go:15-23 | an invalid row is refused, a valid one replaces what was stored |
| `Stores.WriteAgreesIffCompatible` | internal/store/sqlite/commitment_repo.go:20-36 | a write has the same effect and error in memory and in SQL if and only if it keeps the columns the upsert keeps, meets the foreign keys and repeats no decision differently |
| `Stores.BackendsInStepIffCompatible` | internal/store/sqlite/intervention_repo.go:20-30 | over every run from empty stores the backends hold equal rows and report equal errors after every write if and only if every write was compatible |
| `Stores.ServiceCannotTellBackendsApart` | internal/store/sqlite/decision_repo.go:42-46 | if new rows have new identifiers and interventions point at stored rows, and changed rows come from Get and Transition or Resolve, the backends never differ |
| `Stores.CommitmentsOnlyAdvance` | internal/domain/commitment.go:51-70 | between any two points of any disciplined run a commitment stays stored, keeps what it is about, and its status only goes forward |
| `Domain.TransitionsGoForward` | internal/domain/commitment.go:145-152 | a status changes exactly to one further along; nothing but status and update time changes |
| `Domain.ResolutionsProgress` | internal/domain/intervention.go:59-73 | what resolving can reach is exactly: anything from pending, executed from accepted, nothing else; executed is never reached in one step |
| `Engines.EvaluateCommitment` | internal/risk/engine.go:101-165 | the accumulated score is the clamped sum of the weights of the reported factors |
| `Engines.FactorsReportedIff` | internal/risk/engine.go:110-151 | each factor is reported if and only if its condition on due time, confidence or signals holds |
| `Engines.ScoreIsFormula` | internal/risk/engine.go:107-165 | the score is the sum of the weights of the warranted factors, each written out in the terms of the policy, cut off at 0 and 1 |
| `Engines.FactorsExplained` | internal/risk/engine.go:110-151 | each kind of factor is reported at most once, in order, with its own weight and its own reason text |
| `Engines.WeightsAreSnapshot` | internal/risk/engine.go:86-94 | the stored weights are exactly the five coefficients, the window in seconds |
| `Engines.AssessmentReplays` | internal/risk/engine.go:86-165 | the score is in [0, 1] and recomputable from the policy snapshot, the confidence and the factor types |
| `Engines.MaybeIntervene` | internal/intervention/engine.go:60-89 | fires if and only if the score reaches the nudge threshold; the draft is valid, anchored at the commitment and of the kind the thresholds say |
| `Engines.FindTopReason` | internal/intervention/engine.go:94-105 | the loop returns the reason of the top factor |
| `Engines.TopFactorIsFirstHeaviest` | internal/intervention/engine.go:98-104 | the factor blamed weighs the most and is the first that does |
| `Engines.DraftTold` | internal/intervention/engine.go:83-88 | above the threshold there is a draft: pending, about this commitment alone, dated now |
| `Engines.MessageTold` | internal/intervention/engine.go:76-80 | the message quotes the description and ends with the reason of the first of the heaviest factors |
| `Pipeline.Evaluate` | internal/pipeline/evaluate.go:136-202 | the pass over what FindActive found, up to cancellation, with all writes and counts |
| `Pipeline.EvaluateOne` | internal/pipeline/evaluate.go:153-199 | one round of the loop under any combination of repository failures |
| `Pipeline.RecordDecision` | internal/pipeline/evaluate.go:272-302 | the decision stored, or nothing when its repository fails |
| `Pipeline.PassAccounts` | internal/pipeline/evaluate.go:150-187 | under any failures decisions and interventions are at most updates, updates at most evaluations |
| `Pipeline.PassRatesVisited` | internal/pipeline/evaluate.go:153-172 | a pass rescores exactly the commitments whose update succeeded and touches no other |
| `Pipeline.InterventionsFollowUpdates` | internal/pipeline/evaluate.go:167-187 | every intervention a pass leaves was there before or concerns a commitment whose stored risk was just set at or above the threshold |
| `Pipeline.PassRaisesExactly` | internal/pipeline/evaluate.go:167-185 | for every visited commitment, its intervention is stored and reported if and only if neither the update nor the save fails and the risk just stored reaches the threshold; the row is anchored there, pending, dated now and of the kind the thresholds say |
| `Pipeline.PassDecidesExactly` | internal/pipeline/evaluate.go:173-176 | every commitment whose risk was stored gets, unless the save fails, exactly one new decision, which documents it and holds the risk stored |
| `Pipeline.DecisionDocuments` | internal/pipeline/evaluate.go:279-297 | a decision names the commitment, its sources, signal count, time, policy snapshot, the risk by the formula and exactly the warranted factors with weights and reasons |
| `Pipeline.StoredRisk` | internal/pipeline/evaluate.go:162-171 | a visited row gets the risk of the formula and the time of the pass, nothing else; one whose update failed is as it was |
| `Pipeline.PassCountsUpdates` | internal/pipeline/evaluate.go:167-172 | the count is exactly the number of updates that succeeded |
| `Pipeline.PassReportsDecisions` | internal/pipeline/evaluate.go:173-176 | the reported decisions are exactly those owed, in the order of the visit |
| `Pipeline.PassReportsInterventions` | internal/pipeline/evaluate.go:178-185 | the reported interventions are exactly those owed, in the order of the visit |
| `Pipeline.SecondPassChangesNothing` | internal/pipeline/evaluate.go:136-202 | a second pass at the same clock, signals and policy changes no commitment, even if other writes fail in either pass |
| `Extraction.Extract` | internal/pipeline/extract.go:79-143 | the store and the counts after one extraction; considered is saved plus dropped |
| `Extraction.DraftsAccounted` | internal/pipeline/extract.go:87-107 | what is saved is stored, valid, pending and confident enough; every draft that qualifies is saved; other rows are untouched |
| `Extraction.DraftStoredAsSaid` | internal/domain/commitment.go:93-178 | a draft is dropped exactly when its confidence is below the minimum or outside [0, 1], its owner or description is all white space, its identifier is nil or the save fails; otherwise the row holds its owner and description from first to last visible character, its due time, entities, sources and confidence, pending, dated now |
| `Extraction.SavedAreTheFit` | internal/pipeline/extract.go:87-107 | the saved identifiers are those of the drafts not dropped, in their order; the count dropped is the rest |
| `Extraction.ExtractionRecorded` | internal/pipeline/extract.go:114-140 | the one decision holds who asked, the sources, what was considered, saved in order and dropped; without it decisions are unchanged |
| `Text.TrimSpaceIsVisiblePart` | internal/domain/commitment.go:102-103 | trimming gives the text between the first and the last visible character, and nothing exactly when there is none |
| `PipelineRuns.StoreIsAlwaysSound` | internal/pipeline/evaluate.go:136-202 | over every run of extractions, passes and resolutions from an empty store: commitments are valid, interventions point at stored commitments, recorded evaluations replay under their own weights |
| `PipelineRuns.RowsInBounds` | internal/domain/commitment.go:120-140 | over every run, row by row: identifiers set, texts present, confidence and risk within [0, 1], known statuses and kinds |
| `PipelineRuns.ResolutionTold` | internal/domain/intervention.go:160-168 | an allowed resolution sets status and time of that one row; any other changes nothing |
| `PipelineRuns.HistoryIsNeverRewritten` | internal/domain/decision.go:11-14 | between any two points of a run no decision is altered or lost, and interventions keep what they are about and only move along legal status edges |
| `PipelineRuns.DecisionHasItsVisit` | internal/pipeline/evaluate.go:272-297 | over every run, a recorded evaluation was made by one pass for a commitment as stored at that point, and documents that commitment, time, signals, policy, factors with reasons, and risk |
| `PromptFitting.FitsWhatIsLeft` | internal/llm/context_window.go:53-82 | the fitted text never has more than four characters for each token left |
| `PromptFitting.FitTextIdempotent` | internal/llm/context_window.go:53-82 | fitting twice is fitting once |
| `PromptFitting.FitTextWithoutEliding` | internal/llm/context_window.go:53-70 | a text of at most four characters per token left is returned as it is; nothing is returned when no token, or no more than the marker, is left |
| `PromptFitting.SecondPassThroughUnreachable` | internal/llm/context_window.go:76-78 | the second return of the unchanged input can never be taken |
| `PromptFitting.ElisionKeepsLongestEnds` | internal/llm/context_window.go:62-88 | an elided text is a prefix, the marker and a disjoint suffix; with `left` the window less headroom less overhead, the shares are a third of 4 * (left - 2) characters and the rest of them, and each piece is the longest within its share cut at a delimiter |
| `PromptFitting.Build` | internal/llm/llm_extractor.go:87-103 | the prompt the loop writes: instructions, examples, input and closing line |
| `PromptFitting.PromptFitsIffOverheadFits` | internal/llm/llm_extractor.go:175-181 | for every text the final prompt has at most four characters per available token if and only if the empty prompt has |
| `PromptFitting.SentWholeIff` | internal/llm/llm_extractor.go:175-181 | the text is sent whole exactly when there is no budget, no text, or room for all of it |
| `PromptFitting.PromptEnds` | internal/llm/llm_extractor.go:87-103 | the prompt begins with the instructions and ends with the text and the closing line |
| `PromptFitting.PromptShowsExample` | internal/llm/llm_extractor.go:91-98 | every example is there, numbered from one, each ending where the next begins |
| `PromptFitting.DigitsReadBack` | internal/llm/llm_extractor.go:91-98 | the numbers are plain decimal and read back |
| `AbRouting.Router.SetVariants` | internal/llm/ab_prompt.go:65-92 | errors leave the router alone; otherwise the positive variants, stably sorted by label, and their total weight are installed |
| `AbRouting.Router.Pick` | internal/llm/ab_prompt.go:133-149 | the walk over the buckets lands on a variant; the fall-through is unreachable |
| `AbRouting.LabelIgnoresOrder` | internal/llm/ab_prompt.go:82-84 | every permutation of the variants is accepted alike and sends every hash to the same label |
| `AbRouting.LabelGetsItsWeight` | internal/llm/ab_prompt.go:140-148 | each label receives exactly the sum of its positive weights, as given, out of the sum of all positive weights |
| `AbRouting.AcceptedIff` | internal/llm/ab_prompt.go:65-81 | variants are accepted exactly when some weight is positive; an empty list has its own error |
| `AbRouting.BuilderIgnoresOrderIff` | internal/llm/ab_prompt.go:82-84 | the prompt used is independent of the order if and only if labels determine builders |
| `ArrayExtraction.ScanFirstArray` | internal/llm/parse.go:92-110 | the scanning loop computes the first-array function |
| `ArrayExtraction.TrimReturnsFirstBalance` | internal/llm/parse.go:84-110 | nothing without a '[', else the shortest balanced piece from the first '[' on, or all that is left |
| `ArrayExtraction.PrintedArrayIsExtracted` | internal/llm/parse.go:92-110 | any printed JSON array whose strings hold no square brackets is recovered exactly, whatever surrounds it |
| `ArrayExtraction.ReturnedIffClosed` | internal/llm/parse.go:92-110 | a text is recovered from every surrounding if and only if its brackets first balance at its end |
| `ArrayExtraction.BracketInStringEndsScan` | internal/llm/parse.go:98-107 | a printed array with a bracket in a string that comes out cut short |
| `ArrayExtraction.BareReply` | internal/llm/parse.go:33-34 | a reply without fences gives the array |
| `ArrayExtraction.FencedReply` | internal/llm/parse.go:71-83 | a fenced reply, with or without a language tag, gives the same array |
| `ArrayExtraction.UnclosedFence` | internal/llm/parse.go:75-82 | a fence opened on its own line and never closed still gives the array |
| `ArrayExtraction.OneLineFence` | internal/llm/parse.go:75-82 | a closed fence on a single line gives the array |
| `ArrayExtraction.OneLineUnclosedFence` | internal/llm/parse.go:75-82 | an unclosed fence on a single line gives nothing |
| `KeyRotation.AcceptedIff` | internal/auth/jwt.go:125-176 | exactly which tokens a key set accepts and when, retry with the previous key included |
| `KeyRotation.RefusedBecause` | internal/auth/jwt.go:125-176 | for a token with a key identifier, exactly when each reason for refusing it is given |
| `KeyRotation.TokenWindow` | internal/auth/jwt.go:58-86 | a token needs a subject and a key; under its own keys it verifies from the second it was issued in until the second its lifetime ends in, the lifetime being the one asked for, else the preset, else an hour |
| `KeyRotation.NewRotator` | internal/auth/rotator.go:40-60 | no rotator for a bad configuration or a failed random source, otherwise one seeded with the initial key |
| `KeyRotation.Rotator.RotateNow` | internal/auth/rotator.go:86-100 | the active key is demoted, a fresh one installed; a failed draw changes nothing |
| `KeyRotation.LiveTokensVerify` | internal/auth/rotator.go:28-35 | in every run with rotations at least a period apart a token with a lifetime of at most the overlap verifies until it expires, even if key names coincide |
| `KeyRotation.DeadTokensRefused` | internal/auth/jwt.go:65-79 | in every episode of every run a token is refused once its lifetime is over |
| `KeyRotation.HonouredIffAlive` | internal/auth/rotator.go:86-100 | with a lifetime of at most a period a token is accepted exactly until the second its lifetime ends in |
| `KeyRotation.NeverDroppedIff` | internal/auth/rotator.go:86-100 | no live token is ever dropped if and only if its lifetime is at most the period |
| `KeyRotation.RefusedAfterTwoRotations` | internal/auth/jwt.go:132-167 | after two rotations with different secrets a token is refused whatever its expiry |

## Left out

- HTTP and gRPC handlers, MCP proxy, configuration, worker ticker, metrics, tracing: wiring.
- LLM providers, Mnemos, Chronos and Praxis clients, including the dry run and the mirrored events of a pass: network clients.
- JSON decoding, time layouts, `parseDrafts` after cleaning, SQL drivers, statement text and migrations: values are assumed to survive the round trip to the database.
- Goals, tasks, plans, assignments and `ListBySubject`: repeats of shapes that are modelled.
- Floating-point rounding and integer overflow: `real` and `int` are exact.
- Concurrent requests on one store: requests do not overlap; only the breaker is modelled under overlap.
- Torn reads of `nextTry`: the unlocked read is one atomic step.
- JWT encoding, claim parsing and scopes: a token is its key identifier, signing key, issuer and times.
- Tokens under hand-made key sets with an empty but present previous secret: an empty secret stands for an absent one.
- Drafts after the provider call (default owner, appended references): easy.
- Engines.MaybeIntervene: the message leaves out the formatted risk and confidence numbers and the escaping of quoted characters, because formatting is not modelled.
- Extraction.Extract: the reason of the recorded decision leaves out its formatted counts, for the same reason; the counts themselves are recorded.
- Sorting.SortSlice: stands for a library sort, so only that its result is some sorted rearrangement is stated.
