# Proofs about the gateway repository's core algorithms

This Dafny 4.11 project models six parts of the repository and proves what they promise.
`dafny verify dfyconfig.toml` verifies all of it.

- **Dependency container** (`packages/bootstrap/container.py`). A mutable registry with a memoising,
  recursive `resolve`, a three-colour cycle search, a path-set cycle search and a Kahn sort with a sorted
  queue. `DependencyGraph.dfy` defines one relation, `Cyclic` (a name lies on a cycle or depends on one);
  all three algorithms are proved against it. `Evaluation.dfy` defines evaluation without a cache, by
  recursion on the shrinking set of registered descendants. `TopologicalOrder.dfy` says which order the
  sort promises, without mentioning the algorithm. `KahnSort.dfy` and `Container.dfy` hold the code's own
  loops and dictionaries, `ContainerCases.dfy` the concrete runs in which a promise fails.
- **Autonomous loop** (`packages/autonomous/engine.py`, `state.py`, `stopping.py`). Adapters and policies are
  arbitrary functions of the state. A failed iteration does not advance the counter, so the loop ends by a
  lexicographic measure: iterations still allowed, then failures still tolerated.
- **Transcripts against their closed form** (`scripts/bench_c1_latency.py`). `Shares.dfy` splits totals,
  `Transcript.dfy` pads a message list in place, `TranscriptShape.dfy` and `TranscriptBuilder.dfy` build a
  native transcript and compare every figure with what `claimed_shape` computes by arithmetic.
  `TranscriptBatches.dfy` reads a built transcript message by message: which calls are announced where, and which
  reply answers which call.
- **Session analysis** (`scripts/analyze_sessions.py`). `Pearson.dfy` proves the coefficient's range from the
  Cauchy-Schwarz inequality over lists of any length; `PromotionSummary.dfy` proves what the changed-file
  summary counts and what it is insensitive to, and `PromotionReading.dfy` reads every figure off the records
  themselves.
- **Flip weights** (`scripts/quality_harness.py`, `packages/context/ranking.py`). `FlipWeight.dfy` proves that a
  closed form read off one ranking equals the least weight found by re-ranking for every module and weight;
  `SweepReport.dfy` is the sweep over the queries, with what its rows say by positions in the rankings.
  `IndexSymbols.dfy` lists an index's symbols, `Scoring.dfy` scores them, `EngineRanking.dfy` sorts, cuts off and
  merges, and `PromotionGuard.dfy` is the guard at the end of a ranking with a bonus. `IndexSweep.dfy` puts them
  together and says, for every index, which weight the whole engine needs and when the sweep reports it;
  `SweepCases.dfy` is an index for which it does not.
- **A/B experiments** (`scripts/ab_launcher.py`). `ExperimentFile.dfy` is the writer and the reader,
  `ExperimentArms.dfy` the arm environments and the configuration checks, `SettingGrammar.dfy` the checks of single
  values and of the model registry, `ExperimentCases.dfy` concrete experiments. Beside the checks stand their
  criteria, written without them: `ExperimentReading.dfy` and `ExperimentFaults.dfy` say which files are accepted as
  which experiment and what is reported of the others, `ExperimentCriterion.dfy` and `ExperimentReport.dfy` which
  experiments have no problem and which problems the others have, and `SettingCriterion.dfy` which values of settings
  pass.

`Names.dfy` and `Options.dfy` are shared helpers.

## Where the code and its documentation or intent part

Each of these is a theorem below, stated as the exact condition under which the promise holds, and for each a
lemma or method gives a concrete input that breaks it.

- `validate` promises a list of problems that includes cycles. `_get_reachable` has no visited set, so for a
  registry with a cycle no list is ever returned (`Container.DependencyContainer.Validate`); and the
  self-reference check can never report anything, because `register` rejects such names. Two forward references
  are enough (`ContainerCases.MutualDependency`).
- `all` silently leaves out names that reach a cycle: for two names that depend on each other it succeeds with
  nothing (`ContainerCases.MutualDependency`). It succeeds exactly when every name that reaches no cycle has a value
  (`Container.AllSucceedsIff`); with factories that never raise it returns the whole registry exactly when no name
  reaches a cycle or an unregistered name (`Container.AllSucceedsIffComplete`).
- `unregister` leaves dependents cached. The cache stays right exactly when no cached name depended on the
  removed one (`Container.ForgettingDependency`); `ContainerCases.StaleDependent` is a run in which one did.
- `allocate_chars` sums to its total exactly when there is room for the shortest bodies beside the largest. It keeps
  the minimum exactly when the total pays for that many minimums or is so small that every length is the minimum.
  Its middle entry is the largest exactly in that second case, or when `count` times that entry covers the total: for
  a maximum of at least 32 when `maximum * count` does and the total pays for the minimums, for a smaller one, the
  default of 0 included, when the minimums cover the total. None of the three always
  holds (`Shares.AllocationExceptions`).
- `shape_report` pairs an empty native cell's opening message with a claim of nothing, and a cell with negative
  fillers, or with no requested target but file calls, with a wrong claim (`TranscriptBuilder.ClaimsAreExactIff`).
  The claimed characters are exact only from 63 per result on (`TranscriptBuilder.FileCharsAreExactIff`).
  `TranscriptBuilder.ClaimExceptions` has one cell of each kind.
- A promotion count below zero puts a proof in none of the three ways a proof is reported
  (`PromotionSummary.ReorderOnlyIff`, `PromotionSummary.NegativeProofIsUnexplained`).
- The comparison of two arm environments uses a marker string for a setting one arm lacks. A setting that holds
  that string hides a difference (`ExperimentArms.ComparableDifferExactlyIff`, `ExperimentArms.MarkerGoesUnnoticed`);
  `ExperimentCases.HiddenDifferenceExists` is one whole experiment.
- `changed_file_sweep` calls its weight the smallest bonus that puts another module ahead of the leader. The guard at
  the end of `rank` gives a displaced leader the second place back, so behind an unrelated first candidate the other
  module has to pass that one as well. The weight is right exactly when the list opens with a relevant candidate, or
  the second one's module path does not match, or passing the first takes no more
  (`IndexSweep.SweepPredictsTheEngineIff`); a leader above 15 is enough (`IndexSweep.HighLeaderPredicts`). For the
  query `do/run` and the three functions of `SweepCases.GuardOutlastsTheSweep`, two of them in test files, the sweep
  reports 1 and the engine needs 10.

## Modelling decisions

- Factories, adapters, policies and rankings are deterministic functions given as parameters; factories do not
  touch the container. The container's registration dictionary is a map with a separate insertion order.
- `Resolve` and `All` ask only that cached names are registered. The other parts of `Valid()` are about fields
  outside their frame, so callers keep them.
- Python strings are sequences of characters compared code point by code point. Platform text operations (white
  space, case folding, `%g`, absolute and normalised paths, integer parsing) are parameters, so every theorem
  holds whatever they do.
- Messages of errors and problems are tags.
- A JSON object is its fields with the order of its keys, some of which need not be text, so problems come in the
  order of the file. Settings the writer puts out are in alphabetical order.
- A competitor in the sweep has survived the minimum score, as every candidate in a ranked list has
  (`FlipWeight.AllSurvive`); the bonus is given only to candidates that reach it.
- Floating-point numbers are reals.

## Model

| member | source | states |
|---|---|---|
| DependencyGraph.CyclicStep | packages/bootstrap/container.py:411-447 | A name reaches a cycle if and only if it is registered and one of its dependencies does: the one relation behind all three algorithms. |
| DependencyGraph.DescendantsShrink | packages/bootstrap/container.py:240-266 | Below a name that reaches no cycle the set of registered descendants strictly shrinks, which is why the recursion behind the cycle check ends. |
| DependencyGraph.StuckIsCyclic | packages/bootstrap/container.py:506-541 | A registered set in which everyone depends on a member reaches a cycle throughout, so whatever a stuck Kahn loop leaves over is cyclic. |
| DependencyGraph.CompleteStep | packages/bootstrap/container.py:240-252 | Everything below a registered name is registered if and only if that holds for each of its dependencies. |
| Evaluation.ArgumentsAreValues | packages/bootstrap/container.py:247-254 | A complete argument mapping has exactly the declared dependencies as keys, each with its own uncached value. |
| Evaluation.EvaluationCallsTheFactory | packages/bootstrap/container.py:247-266 | For any name that reaches no cycle and any arguments that map exactly its declared dependencies to their values, its value is the instance its factory makes of these arguments; a TypeError and any other exception each become their own error. |
| Evaluation.EvaluationFailsFirst | packages/bootstrap/container.py:225-266 | An unregistered name and a name that reaches a cycle fail as such; any other fails as its first dependency without a value does, or because that one is not registered. |
| Evaluation.ValuesOrFirstFailure | packages/bootstrap/container.py:247-254 | Either all dependencies have values, and then there are such arguments, or some first one has none. |
| Evaluation.EvaluationSucceedsExactlyWhenSound | packages/bootstrap/container.py:225-266 | Evaluation of a name fails with a container error exactly when something below it is unregistered or it reaches a cycle. |
| Evaluation.ResolvableIff | packages/bootstrap/container.py:225-266 | With factories that never raise, a name has a value if and only if everything reachable from it is registered and nothing there is on a cycle. |
| Evaluation.EvaluationIsStable | packages/bootstrap/container.py:179-184 | A value once computable is unchanged by any further registrations, forward references included, and the name still reaches no cycle. |
| TopologicalOrder.DependencyOrderIsTopological | packages/bootstrap/container.py:506-541 | The order holds no name twice and lists every name after all of its registered dependencies. |
| TopologicalOrder.OmitsExactlyTheCyclic | packages/bootstrap/container.py:506-541 | A registered name is missing from the order if and only if it reaches a cycle. |
| TopologicalOrder.ShorterIffSomeCycle | packages/bootstrap/container.py:506-541 | The order is shorter than the registry if and only if some registered name reaches a cycle. |
| TopologicalOrder.GreedyIsLeast | packages/bootstrap/container.py:525-541 | The order is the lexicographically least of all dependency orders that cannot be extended. |
| TopologicalOrder.OpenCountClose | packages/bootstrap/container.py:519-539 | Listing a name lowers a dependent's in-degree by the number of times its dependency tuple repeats that name. |
| KahnSort.BuildEdges | packages/bootstrap/container.py:515-523 | In-degrees count the registered entries of each tuple with repeats, and the adjacency lists hold a dependent once per entry. |
| KahnSort.Release | packages/bootstrap/container.py:531-539 | One step keeps the invariant that in-degrees count the unlisted dependencies and the sorted queue holds exactly the ready names. |
| KahnSort.Sort | packages/bootstrap/container.py:506-541 | The loop terminates with an order in which every position holds the alphabetically first ready name, and none is ready at the end. |
| Container.DependencyContainer.Register | packages/bootstrap/container.py:127-184 | The four rejections in the code's order, otherwise the exact new registry; a right cache stays right. |
| Container.DependencyContainer.Unregister | packages/bootstrap/container.py:186-203 | Exactly that name and its instance go; the cache stays right if and only if no remaining cached name depended on it. |
| Container.DependencyContainer.Clear | packages/bootstrap/container.py:365-379 | The container is as new. |
| Container.DependencyContainer.HasCycle | packages/bootstrap/container.py:411-447 | The three-colour search answers true if and only if the name reaches a cycle, and marks only names that reach none. |
| Container.DependencyContainer.DetectCycles | packages/bootstrap/container.py:449-482 | The path-set search reports something if and only if the name reaches a cycle, and each report is an edge into a name on one. |
| Container.DependencyContainer.GetReachable | packages/bootstrap/container.py:484-504 | Exactly the registered descendants, given enough nested calls; never an answer from a name that reaches a cycle. |
| Container.DependencyContainer.MissingDependencies | packages/bootstrap/container.py:339-346 | Exactly the declared dependencies that are unregistered are reported. |
| Container.DependencyContainer.Validate | packages/bootstrap/container.py:316-363 | A list, when there is one, names exactly the unregistered dependencies; a registry with a cycle never gets one. |
| Container.DependencyContainer.Resolve | packages/bootstrap/container.py:205-266 | In a right cache the answer is the uncached value or error; in any cache, right or not, nothing is built twice or lost, even when resolution fails part-way, only the name and what it reaches is built, and every instance built is what its factory makes of the cached instances of exactly its dependencies. |
| Container.DependencyContainer.ResolveDependencies | packages/bootstrap/container.py:247-254 | The argument loop collects the dependencies' uncached values or stops at the first failure, keeping what was built. |
| Container.DependencyContainer.TopologicalSort | packages/bootstrap/container.py:506-541 | The sort of the registry in its insertion order gives the greedy, exhausted order. |
| Container.DependencyContainer.All | packages/bootstrap/container.py:287-314 | On success exactly the names that reach no cycle, each factory called once, in that order, and only for names not cached before; on failure the error of the first name in the order without a value, every earlier one cached; in a right cache it succeeds if and only if each name that reaches no cycle has a value. |
| Container.CollectNext | packages/bootstrap/container.py:249-254 | One resolved dependency extends the collected arguments, or its failure is the whole resolution's failure. |
| Container.CallCompletes | packages/bootstrap/container.py:257-266 | Calling the factory on the cached instances of exactly the dependencies yields the name's uncached value when the cache is right, once, and caches it only if it did not raise. |
| Container.NewFromCacheCompose | packages/bootstrap/container.py:205-266 | Over successive resolutions every newly built instance stays what its factory makes of the cached instances of its dependencies. |
| Container.ResolvedNext | packages/bootstrap/container.py:307-314 | When `all` reaches a name, its registered dependencies are all cached; resolving it then extends the result by that name, its own factory the only one called, or ends `all` with its error. |
| Container.AllSucceedsIff | packages/bootstrap/container.py:287-314 | In a right cache `all` succeeds if and only if every registered name that reaches no cycle has a value. |
| Container.AllSucceedsIffComplete | packages/bootstrap/container.py:287-314 | With factories that never raise, `all` succeeds if and only if every name that reaches no cycle is complete, and returns the whole registry if and only if every name is complete and reaches no cycle. |
| Container.CoherentRegister | packages/bootstrap/container.py:179-184 | Registering a name leaves every cached instance equal to its uncached value. |
| Container.UnaffectedByRemoval | packages/bootstrap/container.py:186-203 | A name that does not depend on the removed one keeps its value. |
| Container.ForgettingDependency | packages/bootstrap/container.py:202-203 | After removal the remaining cache is right if and only if no cached name reached the removed one. |
| Container.AnyRun | packages/bootstrap/container.py:122-314 | After any sequence of register, resolve and all, every cached instance is its uncached value and was built by exactly one factory call. |
| ContainerCases.MutualDependency | packages/bootstrap/container.py:316-363 | Two names registered with references to each other: `validate` returns no list for any recursion limit, and `all` succeeds with nothing. |
| ContainerCases.StaleDependent | packages/bootstrap/container.py:186-203 | A run in which a removed name's dependent stays cached although it has no value any more. |
| AutonomousState.GetStatistics | packages/autonomous/state.py:201-248 | Successful plus failed equals total, and the average times the total is the exact sum of scores. |
| AutonomousState.EveryRecordIsCounted | packages/autonomous/state.py:215-230 | The two statuses partition every record list. |
| AutonomousLoop.RepeatedFailureIffThreeTrailing | packages/autonomous/stopping.py:158-196 | The repeated-failure condition holds if and only if at least three failures end the record list. |
| AutonomousLoop.RecordingMakesProgress | packages/autonomous/engine.py:276-291 | Each pass that records something lowers the remaining iterations, or keeps them and adds a trailing failure while fewer than three are tolerated. |
| AutonomousLoop.AutonomousEngine.EvaluatePolicy | packages/autonomous/engine.py:615-636 | A pre-computed policy result is used up first, otherwise the policy is asked. |
| AutonomousLoop.AutonomousEngine.CheckPolicies | packages/autonomous/engine.py:251-267 | The run is stopped if and only if some policy answers STOP and every earlier one CONTINUE, an answer being the pre-computed result in its place while there is one; one result is used up for each policy asked. |
| AutonomousLoop.ScanStopsIff | packages/autonomous/engine.py:251-270 | For all policies and results the scan stops the run if and only if some answer is STOP and every earlier one CONTINUE, and leaves the results of the policies not asked. |
| AutonomousLoop.ShouldStopIff | packages/autonomous/stopping.py:228-265 | Each of the five reasons is given exactly under its own condition, and a state asks to stop exactly when it gives one. |
| AutonomousLoop.AutonomousEngine.Loop | packages/autonomous/engine.py:237-291 | The loop ends for every behaviour of adapters and policies, in the state that repeated passes lead to. |
| AutonomousLoop.AutonomousEngine.Execute | packages/autonomous/engine.py:196-325 | The report holds the records of a run that is explained record by record, its status and statistics that add up. |
| AutonomousLoop.RunIsExplained | packages/autonomous/engine.py:237-291 | In every run no record follows a state that asks to stop or whose policies stop the run, the answers used up carry over from record to record, each record says what its adapters did, and the run ends in the first state that asks to stop, is stopped by a policy or has nothing planned. |
| AutonomousLoop.RecordsSomethingIff | packages/autonomous/engine.py:237-291 | A run records something if and only if an iteration is allowed, a workflow is planned and the policies do not stop it at once. |
| AutonomousLoop.RunKeepsReachable | packages/autonomous/engine.py:276-291 | In every run the counter is the number of completed records, the workflow list names the records, and record k ran the workflow and number its completed predecessors call for, when nothing asked to stop. |
| AutonomousLoop.FinalIsReachable | packages/autonomous/state.py:91-115 | Every finished run from a new state satisfies that invariant. |
| AutonomousLoop.AtMostThreePerCompletion | packages/autonomous/state.py:171-198 | Among any first k records there are at most three per completed one, beyond the trailing failures. |
| AutonomousLoop.RunIsBounded | packages/autonomous/stopping.py:138-196 | A run records at most three times max(0, max_iterations) iterations, although failures do not advance the counter. |
| AutonomousLoop.BoundIsTight | packages/autonomous/stopping.py:138-196 | For every limit some adapters make a run record exactly that many. |
| AutonomousLoop.OnlyTheLastRecordStops | packages/autonomous/stopping.py:83-196 | Every record but the last scored below 0.8 without a success status, and three failures in a row occur only at the end. |
| AutonomousLoop.FailureIsRetried | packages/autonomous/engine.py:276-291 | A failed workflow is the next one tried, under the same number; after a completed one the number grows by one. |
| AutonomousLoop.StatusReadsTheLastRecord | packages/autonomous/engine.py:750-776 | The report status is COMPLETED if and only if the last record reached 0.8, PARTIAL if and only if it did not but some record completed, EMPTY if and only if nothing ran, and never a failure after more than three records. |
| AutonomousLoop.RunEndsForAReason | packages/autonomous/stopping.py:228-265 | With something planned and no policy stopping it, a run ends only in a state with a stopping reason. |
| Shares.DistributeIsFair | scripts/bench_c1_latency.py:371-376 | The shares sum to the total, differ by at most one and never grow along the list. |
| Shares.AllocationIsExactIff | scripts/bench_c1_latency.py:334-359 | The lengths have the requested count, and sum to the total if and only if it leaves room for the shortest bodies beside the largest. |
| Shares.AllocationKeepsMinimumIff | scripts/bench_c1_latency.py:334-359 | No length is below the minimum if and only if there is at most one, the total pays for that many minimums, or it does not pay for more than all but one of them. |
| Shares.MiddleIsLargestIff | scripts/bench_c1_latency.py:334-359 | The middle entry is the requested maximum or the room for it, or the minimum, and is the largest if and only if that many of it cover the total or every length is the minimum. |
| Shares.AllocationExceptions | scripts/bench_c1_latency.py:334-359 | Concrete arguments for which the sum, the minimum and the largest middle entry fail. |
| Transcript.AllAnchorsIncrease | scripts/bench_c1_latency.py:456-470 | Anchors start at the opening message and strictly increase, for every message list, so the strict zip never fails. |
| Transcript.PaddingIsTransparent | scripts/bench_c1_latency.py:427-475 | Exactly the requested number of messages is added, erasing them gives back the list, and no batch is parted from its replies. |
| Transcript.PaddingIsFair | scripts/bench_c1_latency.py:467-475 | The padded list is the list with a share of fillers after each anchor, and the shares sum to the requested number, differ by at most one and never grow. |
| Transcript.MessageList.FindAnchors | scripts/bench_c1_latency.py:456-466 | The scan finds the last reply that directly follows each assistant turn. |
| Transcript.MessageList.WeaveAll | scripts/bench_c1_latency.py:467-475 | The list becomes its slices up to each anchor, each followed by its share of fillers. |
| Transcript.MessageList.Pad | scripts/bench_c1_latency.py:427-475 | The list is rewritten in place into the padded list that the lemmas are about. |
| TranscriptShape.NativeTurns | scripts/bench_c1_latency.py:553-568 | The unpadded transcript has one assistant turn per batch, at computable positions. |
| TranscriptShape.NativeAnchors | scripts/bench_c1_latency.py:456-466 | The anchors of an unpadded transcript are the ends of its turns. |
| TranscriptShape.WovenTurns | scripts/bench_c1_latency.py:467-475 | After weaving k+1 slices there are k turns, the last of them shifted by the fillers of all earlier slices. |
| TranscriptShape.NewestTurn | scripts/bench_c1_latency.py:891-903 | The newest turn of the padded transcript starts after all earlier turns and exactly the shares before it. |
| TranscriptShape.BuiltCounts | scripts/bench_c1_latency.py:873-903 | Message count, turn count and newest turn of what is built equal the closed forms, partial last batch and uneven shares included. |
| TranscriptShape.MakeCalls | scripts/bench_c1_latency.py:783-816 | The two call lists are interleaved round by round until both run out: file call i, of which every fourth writes, has target i mod d and stands behind min(i, others) of the others, and other call i behind min(i + 1, files) file calls. |
| TranscriptShape.MadeInPlace | scripts/bench_c1_latency.py:783-816 | Every call of a shape, by its place in the list that is made. |
| TranscriptShape.InterleavedKeepsFiles | scripts/bench_c1_latency.py:809-816 | Interleaving loses and reorders no file call. |
| TranscriptShape.DistinctTargetCount | scripts/bench_c1_latency.py:763-810 | File calls over index mod d mod pool name exactly min(d, calls, pool) distinct targets. |
| TranscriptBuilder.BuildTurns | scripts/bench_c1_latency.py:555-566 | The loop over start indices builds exactly the rounded-up number of batches, with the last one partial; read message by message the list announces and answers as `BuiltSays` says. |
| TranscriptBuilder.BuildMessages | scripts/bench_c1_latency.py:528-570 | The built list, padding included, and the turn indices returned with it; read message by message it announces and answers as `BuiltSays` says. |
| TranscriptBatches.BuiltSays | scripts/bench_c1_latency.py:528-570 | In every built transcript, padded or not, the calls announced turn by turn are together 0, 1, ..., n - 1, each turn but the last announces exactly as many as a turn holds, call k of a turn is answered k + 1 messages behind it by the reply of that call with the length asked for, and there is no other reply. |
| TranscriptBuilder.BuildSeeds | scripts/bench_c1_latency.py:573-585 | The seed is the prefix before the newest turn, or all but the last message when there is no turn; the chain is the prefixes before the earlier turns. |
| TranscriptBuilder.MadeCallCounts | scripts/bench_c1_latency.py:783-816 | The calls made are as many of each kind as asked for, over as many targets as there can be. |
| TranscriptBuilder.ClaimsAreExactIff | scripts/bench_c1_latency.py:851-1003 | All eight figures built equal the figures claimed if and only if the cell makes a call, asks for no negative padding, and asks for a target if it names files. |
| TranscriptBuilder.ClaimExceptions | scripts/bench_c1_latency.py:851-1003 | An empty cell, a negative padding, file calls without a target and a result too short for its wrapper each break the claim. |
| TranscriptBuilder.BuiltChars | scripts/bench_c1_latency.py:528-570 | The replies of a built transcript, padding and partial batch included, hold together exactly the characters allocated, wrapper included. |
| TranscriptBuilder.FileCharsAreExactIff | scripts/bench_c1_latency.py:362-403 | The characters of the replies in the transcript built for a generated cell equal the claim if and only if each result has room for its JSON wrapper and the shortest body. |
| TranscriptBuilder.DoublingShortens | scripts/bench_c1_latency.py:1055-1060 | Doubling the batch size never lengthens the transcript. |
| TranscriptBuilder.FittingStep | scripts/bench_c1_latency.py:1050-1062 | Each attempt either hits the wanted count, keeps doubling a transcript that was too long every time, or has nothing to fit. |
| TranscriptBuilder.FitShape | scripts/bench_c1_latency.py:1034-1063 | The result has the wanted length if and only if five doublings make the unpadded transcript short enough, the sixth hits it by chance, or there is nothing to fit and one message is wanted. |
| TranscriptBuilder.CalibratedFit | scripts/bench_c1_latency.py:1034-1063 | From 24 calls a turn, every count of at least 1 + n + ceil(n / 768) is reached. |
| Pearson.SpreadIsZeroIffConstant | scripts/analyze_sessions.py:126-133 | Each factor under the root is non-negative, and zero if and only if all its values are equal. |
| Pearson.CombinedSpread | scripts/analyze_sessions.py:126-133 | The spread of a weighted sum of two lists is a quadratic form in the weights with the numerator as mixed term. |
| Pearson.CauchySchwarz | scripts/analyze_sessions.py:131-134 | The squared numerator is at most the product under the root, for all lists of equal length. |
| Pearson.RootIsDefined | scripts/analyze_sessions.py:132-136 | The root is always defined, and the denominator vanishes if and only if a list is constant; the numerator vanishes with it. |
| Pearson.CoefficientInRange | scripts/analyze_sessions.py:112-137 | The coefficient lies in [-1, 1], and is zero if and only if there are fewer than two pairs or the numerator is zero. |
| Pearson.LinearIsPerfect | scripts/analyze_sessions.py:112-137 | A scaled and shifted copy of a non-constant list correlates with it at exactly 1 or -1, by the sign of the scale. |
| PromotionSummary.Collect | scripts/analyze_sessions.py:867-888 | The pass over the records fills the fielded list and both tallies with the number of records in each bucket. |
| PromotionSummary.Summarize | scripts/analyze_sessions.py:867-963 | Every reported count equals the count over all records of those that state the signal and qualify. |
| PromotionReading.SummaryReads | scripts/analyze_sessions.py:867-963 | Every figure of the summary of any log, as the number of positions whose record meets a condition written out on the fields, both tallies entry by entry, the sums and the exact rates. |
| PromotionReading.NumberReads | scripts/analyze_sessions.py:890-896 | What a field counts for: a number as it is or cut off towards zero, true as one, a text as what it parses to, and anything else as zero. |
| PromotionSummary.TalliesSum | scripts/analyze_sessions.py:869-894 | Signal and baseline tallies each add up to the fielded count, and fielded plus before-fields to the records. |
| PromotionSummary.VerdictsAreDisjoint | scripts/analyze_sessions.py:911-938 | No record is both proved and inert, and both kinds are measured. |
| PromotionSummary.CoverageIff | scripts/analyze_sessions.py:908-917 | Measured, unmeasured and nothing-to-compare records cover the fielded ones if and only if no comparison was made under a signal other than ok. |
| PromotionSummary.ReorderOnlyIff | scripts/analyze_sessions.py:919-933 | Reorder-only equals proved minus (primary or membership) if and only if no such proof states a negative count. |
| PromotionSummary.NegativeProofIsUnexplained | scripts/analyze_sessions.py:919-933 | A record that states a negative count is proved and breaks the identity. |
| PromotionSummary.PlaceholdersDoNotMatter | scripts/analyze_sessions.py:909-963 | Rewriting the counterfactual values of any unmeasured records leaves the whole summary unchanged. |
| PromotionSummary.OldRecordsAreOnlyTallied | scripts/analyze_sessions.py:874-878 | A record from before the fields, anywhere in the log, changes the record and before-fields totals by one and nothing else. |
| PromotionSummary.RatesAreProportions | scripts/analyze_sessions.py:958-962 | Both rates lie in [0, 1]. |
| FlipWeight.FlipIff | scripts/quality_harness.py:1759-1764 | A competitor bumped by a weight sorts before the leader if and only if the weight reaches the closed form. |
| FlipWeight.RankedIff | packages/context/ranking.py:364-392 | A list is ranked if and only if every two of its candidates are in the order of the sort key: score downwards, name, classes before functions before methods before the rest, module. |
| FlipWeight.TakesFirstPlaceIff | packages/context/ranking.py:364-392 | In every sorted arrangement of the list with the bonus on one module other than the leader's, that module holds the first relevant place if and only if the weight reaches the closed form of one of its relevant candidates that passes the minimum score. |
| FlipWeight.FlipIsMonotone | scripts/quality_harness.py:1759-1764 | Going down a ranking the closed form never shrinks. |
| FlipWeight.RowReadsTheFirstCompetitor | scripts/quality_harness.py:1818-1841 | The row's weight is that of the best-ranked competitor, and its gap belongs to a candidate of the reported name that needs exactly that weight. |
| SweepReport.ChangedFileSweep | scripts/quality_harness.py:1767-1842 | One row, in query order, for exactly the queries whose ranking has a relevant candidate outside the module of its first relevant one; each row names that first one, its module and score, counts the relevant candidates and the ties outside the module, and reports the least weight, the alphabetically first candidate that needs it, and the gap of the first candidate of that name. |
| SweepReport.RowsReport | scripts/quality_harness.py:1767-1842 | The same for all queries and rankings, by cardinalities of sets of positions in the rankings. |
| FlipWeight.SweepFindsTheLeastWeight | scripts/quality_harness.py:1775-1781 | In a ranked list of survivors some other module takes the first place under a weight if and only if the query has a row and the weight reaches the row's. |
| EngineRanking.MergedFlipsIff | packages/context/ranking.py:364-425 | For every pool, after bonus, sort, minimum score and merging of duplicates, a module other than the leader's comes first if and only if the weight reaches the closed form of one of its relevant survivors, kept or merged away. |
| EngineRanking.DeduplicatedIs | packages/context/ranking.py:399-425 | Merging keeps one candidate a name, in the order in which names first come up: the first of the name, with the reasons of every candidate of the name. |
| PromotionGuard.ProtectPromotionAnchor | packages/context/ranking.py:489-573 | The scan finds the first displaced candidate and the move takes it to the second place, the ones in between down by one; without one, or when the second place is not a promoted candidate's, nothing changes. |
| PromotionGuard.HeldAContentSlot | packages/context/ranking.py:575-621 | The loop answers true if and only if fewer than two other places hold a candidate that, without the bonus, is listed and sorts before the anchor. |
| PromotionGuard.GuardIs | packages/context/ranking.py:489-573 | For every list and weight, place by place, what the guard leaves, moves up and moves down. |
| PromotionGuard.GuardKeepsFirst | packages/context/ranking.py:489-573 | The guard only rearranges, never moves the first candidate, and never changes the first relevant one of a list that opens with a relevant one. |
| IndexSymbols.ListSymbols | packages/repository/index/models.py:117-128 | The loop over all symbols keeps the last of each name and orders them by name. |
| IndexSymbols.ListsExactlyTheLast | packages/repository/index/models.py:117-128 | A symbol is listed if and only if no later symbol has its name. |
| IndexSymbols.NamesAreDistinct | packages/repository/index/models.py:117-128 | The names of the listed symbols strictly increase. |
| Scoring.IntrinsicScoreIsSmall | packages/context/scoring.py:527-809 | A symbol of an index that nothing ties to the query scores at most 15, whatever its name, type and path. |
| Scoring.ScoreIsItsRules | packages/context/scoring.py:591-809 | The score is the sum of the documented rules that apply, of the four about the name only the best. |
| Scoring.RelevantIff | packages/context/scoring.py:145-236 | A symbol is tied to the query if and only if it has one of the seven reasons that an index symbol can have for it, and its module matched if and only if it has one of two. |
| IndexSweep.IndexPools | scripts/quality_harness.py:1797-1810 | The pool of any index and query has one candidate a name, none promoted, and a match of the module path is a tie to the query. |
| IndexSweep.EngineFlipsIff | packages/context/ranking.py:364-445 | For every pool: when the merged list with the bonus opens with a relevant candidate, a module other than the leader's comes first after the guard if and only if the weight reaches the closed form of one of its relevant survivors. |
| IndexSweep.IndexFlipsIff | packages/context/ranking.py:364-445 | For every index pool, guard included: a module other than the leader's comes first if and only if the weight lets one of its relevant survivors pass the leader or, when the guard keeps the leader next to an unrelated first candidate, that candidate. |
| IndexSweep.EngineNeeds | scripts/quality_harness.py:1775-1781 | The engine puts some other module first if and only if there is a competitor and the weight reaches what the best-ranked one needs to pass that candidate. |
| IndexSweep.SweepPredictsTheEngineIff | scripts/quality_harness.py:1767-1842 | For every index, the sweep's weight is the least one under which the engine puts another module first if and only if the list does not open with an unrelated candidate before a module match, or its best competitor needs no more to pass the first candidate than to pass the leader. |
| IndexSweep.HighLeaderPredicts | scripts/quality_harness.py:1775-1781 | For every index whose leader scores above 15 the sweep's weight is the engine's. |
| SweepCases.GuardOutlastsTheSweep | packages/context/ranking.py:489-573 | An index of three symbols for which the sweep reports 1 and the engine needs a weight of 10. |
| ExperimentFile.EnvFromDict | scripts/ab_launcher.py:2144-2174 | Reading settings one by one, in the order of the file, gives the coerced mapping and one problem per name that is not text and per value of another type. |
| ExperimentFile.RoundTripIff | scripts/ab_launcher.py:1931-2007 | An experiment survives being written and read back if and only if its names, worktree and log paths are not empty, it has an arm, and no probe is empty. |
| ExperimentFile.ReadingSettles | scripts/ab_launcher.py:1965-2007 | For anything the reader accepts, write-then-read is the identity on what it read, whatever was coerced or dropped. |
| ExperimentReading.ReadsIff | scripts/ab_launcher.py:1965-2174 | A file is accepted as an experiment if and only if it says that experiment, field by field, arm by arm and setting by setting. |
| ExperimentFaults.FaultsIff | scripts/ab_launcher.py:1965-2174 | A refused file is reported with exactly the problems it has: for every problem the condition on the field, arm or setting it names, any number of arms. |
| ExperimentReading.StripIs | scripts/ab_launcher.py:1330-1340 | Stripping takes off exactly the white space at both ends. |
| ExperimentArms.EnvironmentHas | scripts/ab_launcher.py:748-770 | A key is filled in if and only if it is the launcher's, shared or the arm's and no credential; the launcher's own values take precedence over the arm's, and those over the shared ones. |
| ExperimentArms.ArmEnvDiff | scripts/ab_launcher.py:773-790 | Exactly the keys whose values disagree, each with its value per arm. |
| ExperimentArms.CollectArmProblems | scripts/ab_launcher.py:986-1011 | The loop with its three tables of ids, ports and logs already taken reports what the per-arm checks find against all earlier arms (`ExperimentReport.ReportsIff` says what that is). |
| ExperimentArms.EndingIsNotSecret | scripts/ab_launcher.py:551-563 | A key that does not end like a credential name is kept, whatever its upper-casing does elsewhere. |
| ExperimentCriterion.SecretIff | scripts/ab_launcher.py:551-563 | A setting is a credential if and only if its name in capitals ends in _API_KEY, _TOKEN or _SECRET: the listed names and the longer ending are covered by these. |
| ExperimentArms.TwoArmsArePaired | scripts/ab_launcher.py:1055-1120 | Two arms without problems have different names, ports in range and apart, different normalised logs, and settings of their own only. |
| ExperimentArms.SoundIsComparable | scripts/ab_launcher.py:798-820 | An experiment without configuration problems has two paired arms that differ in the flag, ordered timeouts with the margin, a comparison setting that reads as true, and environments that agree elsewhere. |
| ExperimentCriterion.NoProblemsIff | scripts/ab_launcher.py:798-820 | For every experiment: no configuration problem is found if and only if an explicit condition holds, part by part for the shape, the shared settings, the timeouts, the two arms, the comparison, the environments and the harness. |
| ExperimentReport.ReportsIff | scripts/ab_launcher.py:798-820 | For every experiment, with any number of arms, and every problem: it is reported if and only if the experiment gives rise to it, in the arm, key or place it names; of a port or log used twice the first arm that has it is the owner. |
| SettingGrammar.SoundModelIsServed | scripts/ab_launcher.py:1432-1515 | In an experiment without configuration problems every entry of the model registry names a model, and one of them is the model the harness asks for. |
| SettingCriterion.GrammarIff | scripts/ab_launcher.py:1331-1487 | A value passes the check of its key if and only if it fits an explicit grammar: a JSON object, a positive or non-negative integer, budgets of an intent and a positive number each, or a registry whose entries all name, place and serve a model. |
| SettingCriterion.SelectionIff | scripts/ab_launcher.py:1491-1515 | The selected model passes if and only if the registry or the selection says nothing, or an entry has its name. |
| SettingCriterion.SplitIs | scripts/ab_launcher.py:1331-1487 | Splitting a value gives pieces without the separator that joined by it give back the value. |
| ExperimentArms.ComparableEnvironments | scripts/ab_launcher.py:748-770 | Both environments then hold the same REQUEST_TIMEOUT and a true comparison setting, and differ in both allowed keys. |
| ExperimentArms.ComparableDifferExactlyIff | scripts/ab_launcher.py:773-790 | They differ in exactly the two allowed keys if and only if no setting of one arm alone holds the marker of a missing one. |
| ExperimentArms.MarkerGoesUnnoticed | scripts/ab_launcher.py:1123-1135 | Adding such a setting to any experiment without problems leaves it without problems although a third key differs. |
| ExperimentCases.HiddenDifferenceExists | scripts/ab_launcher.py:773-790 | One whole experiment that meets every check although its arms differ in a third key. |
| ExperimentCases.SoundExperimentsExist | scripts/ab_launcher.py:798-820 | All the configuration checks, those of integers, JSON, the model registry and the selected model included, can be met at once by an experiment with every required setting and two arms; `ExperimentCriterion.NoProblemsIff` says by which experiments they are. |
| ExperimentArms.SoundExperimentRoundTrips | scripts/ab_launcher.py:798-820 | An experiment without configuration problems is read back from its own file unchanged. |

## Left out

- Container.DependencyContainer.Validate: counts only nested `_get_reachable` calls against the interpreter's recursion limit, not those of the searches, because only that recursion can be endless.
- Container.DependencyContainer.Resolve: takes factories as deterministic functions that do not call back into the container; their side effects are not modelled.
- AutonomousLoop.AutonomousEngine.Execute: takes adapters as outcomes; time stamps, summaries and a policy that raises are not modelled.
- AutonomousState.GetStatistics: scores are reals, so NaN and rounding of the mean are not modelled.
- TranscriptBuilder.ClaimsAreExactIff: native cells with a positive batch size and a duplicate-free file listing; text-form, hand-built, out-of-root and calibrated rows, and the bytes of the JSON text, are not modelled.
- TranscriptBuilder.FileCharsAreExactIff: reply bodies are lengths; the text inside them is not modelled.
- Pearson.CoefficientInRange: exact arithmetic with the square root as an argument; floating-point error is not modelled.
- PromotionSummary.Summarize: a `context` that is neither a mapping nor empty, and an infinite number, both of which raise in the code, are not modelled.
- FlipWeight.TakesFirstPlaceIff: takes a ranked list and says nothing about how scores come about; the bonus is any positive whole number.
- IndexSweep.IndexFlipsIff: an engine without a primary symbol, as in the sweep; with one, relationship signals and the expansion after the merge come in, and they need the symbol graph.
- IndexSweep.IndexPools: what text comparisons find is given for each symbol; tokenising a query and the comparisons themselves are not modelled.
- ExperimentArms.SoundIsComparable: holds whatever the checks of single values and of the model say; `SettingGrammar.dfy` has the launcher's own, with the parsing of JSON and integers as parameters.
- `file_activity_summary` and `_classify_file_activity`: counts and medians of separate fields that would only add easy members.
- Worktree, Git and `.env` inspection, command rendering and path identity in `scripts/ab_launcher.py`.
- HTTP probes and table printing in `scripts/quality_harness.py`.
- Timing, statistics of latencies and subprocess sweeps in `scripts/bench_c1_latency.py`.
- `contains`, `count`, `registered_names` and `snapshot`: accessors and copies.
- `apps/gateway`, `packages/benchmark`, `packages/capabilities` and `packages/architecture`: wiring, short algebra or symmetric graphs without a directed-cycle claim.
