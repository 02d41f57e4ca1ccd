# SwarmX control logic, modelled and proved in Dafny

This project models the control logic of SwarmX that decides what runs, when, how often and
with which settings: the DAG task executor, tool dispatch with its rate limiter and circuit
breaker, the orchestrator's plan, step and tool-call loops, the configuration merge with its
locked-field gate, prompt compression, and the compacting memory file. What a model, a tool,
the clock, the critique pipeline or the network does is never assumed: it enters as a stream,
a verdict or a time, and the results hold for all of them.

`dafny verify dfyconfig.toml` checks the whole project.

## How it is organised

| file | what it holds |
|---|---|
| Dependencies.dfy | chains, cycles, heights and topological orders of a dependency relation, without any algorithm |
| Kahn.dfy, Levels.dfy | Kahn's algorithm on a mutable in-degree table with duplicate edges; what its levels mean |
| Execution.dfy | what a run returns, defined by the results alone; uniqueness, statuses, the summary |
| TaskGraphs.dfy | the classes: construction with its refusals, and level-by-level execution with interleaved calls |
| RateLimits.dfy, Breakers.dfy, Intervals.dfy | the limiter and the breaker of one tool, and counting in time intervals |
| Dispatching.dfy, Circuits.dfy | dispatch as a step system with any number of calls in flight; laws of whole runs |
| Outages.dfy | how often a tool that always fails is invoked, and runs that reach the bound |
| ToolDispatch.dfy | the tables updated in place, each operation tied to one step of that system |
| JsonTrees.dfy, ConfigMerge.dfy | deep merge: what it leaves at every path, its algebra, and the three loops that compute it |
| LockedFields.dfy | the recursive key walk, the gate, and whole batches of proposals |
| Conversations.dfy, StepExecution.dfy | the tool-call loop with message pruning, and the retry loop around it |
| StepLaws.dfy | what each kind of reply does to a step, kind by kind |
| Plans.dfy | inputs from the outputs of dependencies; the plan's task graph |
| Courses.dfy, TaskRuns.dfy | the parallel root phase and the sequential phase, as values and as updates in place |
| WholeRuns.dfy | a whole run: how it ends as a function of the reply streams, and what it costs |
| Compression.dfy, BrainMemory.dfy | prompt compression and the compacting record store |

Modelling decisions:

* Concurrency is cooperative, so code between two awaits is one atomic step. `RunBatch` lets
  any waiting call of a level start and any running call finish at every moment. Dispatch runs
  are arbitrary sequences of `Begin` and `Finish` steps with a clock that never goes back.
* Parallel root steps are interleaved at their chat calls: `RunTogether` resumes any step that
  is not over, in any order, and `Resume` runs it from the reply to its pending call to its next
  call. Between two calls a step touches only its own record and appends to the escalations.
* What a step receives, the replies and the results of its tools, is a stream of its own
  (`StepRecord.replies`), and the memory summary it finds is arbitrary at every attempt. Steps do
  influence each other, through the rate windows and breakers of shared tools and through the
  stored summary; that influence is in those streams, which are arbitrary. So the budgets and
  invariants hold for everything interleaving can change, and for given streams no order of the
  slices makes a difference.
* Times are real numbers. Strings are sequences of characters. A dictionary whose order
  matters carries the list of its keys; elsewhere its items are taken in any order.
* `asked`, `attempts`, `prompts` and `received` of a `StepRecord` record what the environment sees;
  SwarmX has no such fields, and only the trace's common list of escalations. `TaskRun.Valid` says
  that this list holds exactly what the steps have received, so a test for a BLOCK in it is a
  question about the steps, whatever the interleaving was. A `Course` stands for the suspended frame of a step's coroutine.

## Where the code does not do what its documentation says

The model follows the code. Each point below is a theorem.

* The cycle error says "Nodes in cycle" but also lists every node that merely depends on a
  cycle, and the algorithm is Kahn's, not the depth-first search of the header comment
  (brain/graph.py:23, 149-156): `Kahn.KahnLevels`, `Dependencies.StuckIsCone`. In
  `Kahn.ReportNamesInnocent` it does; it lists only cycle nodes exactly when every node that
  directly depends on a cycle is on one: `Kahn.ReportIsCyclesIff`.
* A half-open circuit is said to allow one probe (orchestration/tools.py:153). From the reset on
  it refuses nobody until a call of the tool finishes (`Circuits.HalfOpenRefusesNobody`), so two
  probes can be in flight at once (`Circuits.TwoProbesAtOnce`). It refuses again exactly when the
  failures in a row since the reset have reached the threshold (`Circuits.ReopensIff`,
  `Circuits.ShutsAgainIff`); one probe shuts it exactly if the threshold is one and the caller
  lets that probe fail before dispatching again (`Circuits.OneProbeThenShutIff`).
* "Open exactly when the failure run has reached the threshold" survives a change of the
  threshold exactly if the change does not jump over the current count:
  `Circuits.OpenIffThresholdReached`, `Circuits.StraddlingBreaksIt`, `Circuits.RaisedThresholdLeavesOpen`.
  What holds in every run is that some failure of the current run reached the threshold in force
  when it was recorded: `Circuits.OpenIffTripped`.
* The call log misses a finished call whose arguments are no dictionary: the breaker has counted
  it when listing the keys raises (orchestration/tools.py:288). The log is the last 500 finished
  calls exactly when each of those carried a dictionary: `Circuits.HoldsLastFinishedIff`, and
  `Circuits.FinishedButNotLogged` for a run where it is not.
* Pruning is said to keep the delegation (orchestration/orchestrator.py:1158-1167). After a
  memory summary the first message is the summary, and the delegation is lost as soon as
  anything is pruned: `Conversations.DelegationIsPruned`.
* Pruning on every turn equals pruning once exactly for a keep setting of at least 1 and for
  -1: `Conversations.IncrementalIff`.
* The tool-call cap M allows M + 1 turns. An attempt exceeds M exactly if its first M + 1 replies
  all call tools (`StepExecution.StepRecord.ExceedsCapIff`), and for all settings there is a
  stream that reaches every bound on a step: `StepExecution.CapsAreReached`.
* FAILED, BLOCKED and ABORTED never survive a run that reaches the final synthesis
  (orchestration/orchestrator.py:1679). `WholeRuns.FailedRunEndsFinished`,
  `WholeRuns.BlockedRunEndsFinished` and `WholeRuns.AbortedRunEndsFinished` are runs that stop in
  each of them and end finished; `WholeRuns.RunInVain` says which it is for every plan whose steps
  never succeed. `WholeRuns.RunTask` gives what the status hides, for every plan and all streams: in
  which status the sequential phase stopped, and after how many steps. It stops at the first step
  that raises, or that fails without a fallback or after any step so far has received a BLOCK
  (`TaskRuns.StatusIff`). Without a fallback the first step that fails or raises decides
  (`TaskRuns.TroubleDecides`).
* The chat budget of a run is exact. Some streams use it up for every plan with a fallback, and for
  an aborting plan exactly if it can reach at most one step, makes no attempts, or has turns in them
  to succeed with: `WholeRuns.SpendWholeBudget`, `WholeRuns.BudgetOutOfReach`.
* A patch that touches no locked field can still remove one, by replacing an enclosing object
  (`LockedFields.UngatedPatchRemovesLockedField`); exactly then: `LockedFields.LockedFieldsSurvive`.
* The key walk is said to detect fields at any depth (src/swarmx/evolver.py:87-89), but it never
  enters a list (`LockedFields.LockedFieldInListPasses`). A key that is in the patch escapes it
  exactly when all its occurrences are under lists: `LockedFields.EscapesIffUnderArrays`.
* Compression is said to stay under its limit (src/swarmx/llm.py:622). `Compression.WithinLimitIff`
  says exactly when it does; a section cut with fewer than 50 characters left always exceeds it,
  and in `Compression.CompressedIsLonger` even the prompt was shorter.
* Compression is also said to preserve TASK and PLAN and to trim CONTEXT and MEMORY from the middle
  (src/swarmx/llm.py:620-621). A section is whole if it fits together with those before it
  (`Compression.WholeIfFits`); the first that does not fit, TASK and PLAN too, is cut at its end, and
  all after it are dropped (`Compression.CutKeepsHead`, `Compression.EmittedInPriority`).
* A memory cap of zero keeps everything (`BrainMemory.ZeroCapNeverCompacts`), and below zero the
  file exceeds the cap as well: it keeps within its cap exactly for a cap of at least one
  (`BrainMemory.CapHoldsIff`). A load limit below one still returns a record, and a line of JSON
  that is no object empties a load with a time limit and makes a search raise
  (`BrainMemory.Store.LoadAll`, `BrainMemory.Store.Search`).
* A dependency on step 0 is dropped from the plan's graph (brain/graph.py:310) but not from the
  sequential loop (`TaskRuns.TaskRun.BuildInput`). So a plan is accepted exactly when its other
  references are known and every cycle runs through step 0 (`Plans.AcceptedIffAcceptable`),
  and a plan whose steps wait for each other is accepted in `Plans.ZeroCycleAccepted`.

## Model

| member | source | states |
|---|---|---|
| Dependencies.LayerIsHeight | brain/graph.py:119-121 | a node is cleared in round k exactly when its longest chain of dependencies has k links |
| Dependencies.StuckIsCone | brain/graph.py:149-156 | once a round clears nothing, the nodes left are exactly those on a cycle or transitively depending on one |
| Dependencies.LongChainMeetsCycle | brain/graph.py:149-156 | a dependency chain with more nodes than the graph yields an actual cycle it runs into |
| Dependencies.AcyclicSettles | brain/graph.py:136-147 | in an acyclic graph every node is cleared eventually |
| Dependencies.HeightBoundsSchedules | brain/graph.py:119-121 | no schedule in rounds has fewer rounds than the longest chain has nodes |
| Kahn.CountDependencies | brain/graph.py:123-129 | in-degrees count every dependency entry, and the child lists invert the relation with the same multiplicity |
| Kahn.FreeNodes | brain/graph.py:132-134 | the first queue holds, once each, the nodes with nothing to wait for |
| Kahn.ReleaseChildren | brain/graph.py:142-145 | one scheduled node lowers each in-degree by its multiplicity and queues exactly the nodes that become free, once |
| Kahn.DrainLevel | brain/graph.py:137-147 | draining one level schedules exactly that level and queues exactly the next |
| Kahn.PeelLevels | brain/graph.py:136-147 | the outer loop stops exactly when a further round would clear nothing; level k is the set of nodes of height k |
| Kahn.StillWaiting | brain/graph.py:151-153 | the reported nodes are, in dictionary order, those with a positive in-degree |
| Kahn.SelectFilters | brain/graph.py:151-153 | selecting nodes keeps the order of the dictionary |
| Dependencies.ConeIsCyclesIff | brain/graph.py:149-156 | the nodes that cannot be scheduled are all on cycles exactly when no node outside a cycle directly depends on one |
| Kahn.ReportIsCyclesIff | brain/graph.py:151-156 | the error lists only nodes on a cycle exactly when every node that directly depends on a cycle is on one |
| Kahn.ReportNamesInnocent | brain/graph.py:151-156 | a graph whose error lists a node that is on no cycle |
| Kahn.KahnLevels | brain/graph.py:114-158 | succeeds if and only if the graph is acyclic; a refusal lists exactly the cycle cone and is not empty |
| Levels.LayersAreLayered | brain/graph.py:114-158 | the levels hold every node, each at the length of its longest chain |
| Levels.EachNodeOnce | brain/graph.py:114-158 | all levels together hold each node exactly once |
| Levels.FewestRounds | brain/graph.py:119-121 | no level-by-level schedule has fewer levels |
| Levels.LevelsAreSchedule | brain/graph.py:120-121 | assigning each node its height is such a schedule, so the bound is met |
| Levels.FlattenIsTopological | brain/graph.py:119-121 | the levels read in order are a topological order |
| Levels.EdgelessHasOneLevel | orchestration/orchestrator.py:1606-1614 | a graph without edges, such as that of the root steps, has at most one level |
| Execution.ResultsAreUnique | brain/graph.py:180-240 | on an acyclic graph the dispatcher outcomes alone determine the whole result map, whatever the order |
| Execution.SequentialIsTheResult | brain/graph.py:180-240 | that map is the one obtained by running nodes one at a time in any topological order |
| Execution.StatusTheorem | brain/graph.py:187-230 | skipped iff something upstream raises, failed iff only its own dispatcher does, complete with its value iff neither; dependency errors exactly on skips, with the text of each |
| Execution.ErrorsMeanFailure | brain/graph.py:188-194 | there is a dependency error exactly when some listed dependency did not complete |
| Execution.OneMessageEach | brain/graph.py:188-194 | one message for each listed dependency that failed or was skipped, in listed order, naming it and carrying its error |
| Execution.SummaryAddsUp | brain/graph.py:274-287 | completed, failed and skipped add up to the total, and success means all completed |
| Execution.SummaryCounts | brain/graph.py:274-287 | each count is the number of nodes expected to end that way by their transitive dependencies; the error map holds exactly the failed nodes with their errors |
| Execution.SuccessMeansNothingRaised | brain/graph.py:284-284 | success is reported exactly when no dispatcher raises, with or without skipping |
| TaskGraphs.TaskGraph.constructor | brain/graph.py:100-101 | the dictionary keeps ids in order of first appearance and the last node of each id |
| TaskGraphs.FirstSeenOrder | brain/graph.py:100-101 | of two ids the one that the list mentions first comes first in the dictionary |
| TaskGraphs.TaskGraph.ValidateIds | brain/graph.py:105-112 | accepts iff every reference is known, else names the first unknown one |
| TaskGraphs.TaskGraph.Build | brain/graph.py:100-103 | construction succeeds iff references are known and the graph is acyclic, with the exact error otherwise |
| TaskGraphs.TaskGraph.TopologicalLevels | brain/graph.py:114-158 | returns levels by height, or refuses with the cycle cone |
| TaskGraphs.TaskGraph.CollectErrors | brain/graph.py:188-194 | one message per failed dependency entry, in listed order |
| TaskGraphs.TaskGraph.AdmitLevel | brain/graph.py:184-206 | skips exactly the nodes with failed dependencies and gathers the others once |
| TaskGraphs.TaskGraph.RunBatch | brain/graph.py:211-235 | for every interleaving each gathered call starts and finishes once, and the results come back in batch order |
| TaskGraphs.TaskGraph.ExecuteLevel | brain/graph.py:180-238 | one level keeps the results so far self-explaining, stored on the nodes, and logged in dependency order |
| TaskGraphs.TaskGraph.Execute | brain/graph.py:160-240 | for every dispatcher and interleaving: the result map equals every sequential run, each node stores its result, each unskipped node is called once and only after its dependencies finished |
| RateLimits.WindowDecidesLikeHistory | orchestration/tools.py:224-234 | the evicting window admits exactly when fewer than the limit were admitted in the last 60 seconds of the full history |
| RateLimits.IntervalBound | orchestration/tools.py:229-232 | admissions each preceded by fewer than the limit in 60 seconds never exceed the limit in any closed 60-second interval |
| Dispatching.WindowsTrack | orchestration/tools.py:228-234 | in every run each window is the recent suffix of the tool's admissions |
| Dispatching.LimiterRefinesHistory | orchestration/tools.py:246-258 | in every run, with changing limits, dispatch past the breaker admits exactly as the full-history limiter |
| Dispatching.LimitTakesEffect | orchestration/tools.py:124-129 | a limit set for a tool is in force from then on, at least one, and changes nothing else |
| Dispatching.ThresholdsTakeEffect | orchestration/tools.py:131-149 | so are threshold and reset time, floored at one failure and one second; what is not given stays |
| Dispatching.RateBound | orchestration/tools.py:224-234 | however the limit changes, if it was never above m, no closed 60-second interval of any run holds more than m admissions |
| Dispatching.FixedRateBound | orchestration/tools.py:224-234 | with a fixed limit, no more than that |
| Circuits.CountIsFailureRun | orchestration/tools.py:182-190 | under every interleaving the failure count is the length of the failure run since the last success or reset |
| Circuits.ErrorResultsNeverTrip | orchestration/tools.py:265-280 | a tool whose calls all return, with any status, also error, is never refused by its breaker, in any run |
| Circuits.CountIsFailuresSince | orchestration/tools.py:176-190 | the count is the number of calls that timed out or raised since the tool's last result or half-open reset |
| Circuits.ReturnCloses | orchestration/tools.py:176-182 | any result ends a run of failures and closes the circuit, also one with status error |
| Circuits.RefusedIff | orchestration/tools.py:150-173 | a dispatch is refused by the breaker exactly if the tool is known, some failure of the current run met its threshold, and the reset time since the failure that opened the circuit has not passed |
| Circuits.LoggedByKind | orchestration/tools.py:82-93 | a result is logged with its own status, a truncated one as partial, a timeout or exception as error |
| Circuits.OpenIffTripped | orchestration/tools.py:158-193 | in every run, whatever settings change, the circuit is open iff some failure of the current run reached the threshold in force when it was recorded |
| Circuits.OpenIffThresholdReached | orchestration/tools.py:158-193 | the circuit is open iff that run has reached the threshold, while no threshold change straddles the count |
| Circuits.StraddlingBreaksIt | orchestration/tools.py:146-147 | the first threshold change that straddles the count breaks the equivalence |
| Circuits.RaisedThresholdLeavesOpen | orchestration/tools.py:131-149 | a concrete run that leaves a circuit open below its new threshold |
| Circuits.OpenEventsAreFlips | orchestration/tools.py:191-207 | one open event per change from closed to open, and openings minus closings is 1 or 0 as the circuit is open or closed |
| Circuits.HalfOpenRefusesNobody | orchestration/tools.py:150-173 | after a half-open reset the breaker refuses no dispatch, whatever steps follow, until a call of the tool finishes |
| Circuits.TwoProbesAtOnce | orchestration/tools.py:169-173 | a run in which one reset lets two calls through that are in flight together |
| Circuits.ReopensIff | orchestration/tools.py:169-190 | with thresholds left alone, the circuit is open again exactly when the failure run since the reset has reached the threshold |
| Circuits.ShutsAgainIff | orchestration/tools.py:150-190 | so the next dispatch is refused by the breaker exactly then, until the reset time has passed |
| Circuits.OneProbeThenShutIff | orchestration/tools.py:150-190 | after a lone probe the next dispatch is refused exactly if the threshold is one and the probe has failed |
| Circuits.Conservation | orchestration/tools.py:237-280 | admitted calls are in flight or finished, and each finished call is recorded by the breaker once |
| Circuits.LogIsLastKeyed | orchestration/tools.py:283-309 | in every run the call log is the last 500 finished calls with a dictionary of arguments, in finishing order |
| Circuits.HoldsLastFinishedIff | orchestration/tools.py:283-309 | these are the last 500 finished calls exactly when each of those carried a dictionary |
| Circuits.LogIsLastFinishes | orchestration/tools.py:108-309 | then the log is, entry by entry, the last min(500, finished) calls |
| Circuits.FinishedButNotLogged | orchestration/tools.py:278-309 | a run whose finished call the breaker counts and the log lacks |
| Circuits.RefusalLeavesNoTrace | orchestration/tools.py:246-258 | refused calls take no slot, add no log entry and leave other tools alone |
| Outages.OutagePaced | orchestration/tools.py:150-193 | during an outage with at most c calls in flight, admissions T + c - 1 apart in sequence are at least R apart in time |
| Outages.OutageBound | orchestration/tools.py:150-193 | a tool that always fails, with at most c calls in flight, is invoked at most (T + c - 1) * (floor(L/R) + 1) times in any closed interval of length L, in every run |
| Outages.LoneOutageBound | orchestration/tools.py:150-193 | at most T * (floor(L/R) + 1) times, if its calls never overlap |
| Outages.OutageBoundReached | orchestration/tools.py:150-193 | for every T, c, R and k a run of an outage makes (T + c - 1) * (k + 1) admissions in an interval of length k * R |
| ToolDispatch.ToolDispatcher.SetPerToolRateLimit | orchestration/tools.py:124-129 | updates the limit table as the step system does |
| ToolDispatch.ToolDispatcher.SetCircuitBreakerThresholds | orchestration/tools.py:131-149 | updates threshold and reset time as the step system does |
| ToolDispatch.ToolDispatcher.CheckBreaker | orchestration/tools.py:150-173 | refuses exactly while open and unexpired, and resets an expired circuit |
| ToolDispatch.ToolDispatcher.RecordOutcome | orchestration/tools.py:176-193 | moves the breaker on one outcome and reports exactly the closed-to-open change |
| ToolDispatch.ToolDispatcher.CheckRateLimit | orchestration/tools.py:224-234 | the popping loop takes the decision of, and leaves, the evicted window |
| ToolDispatch.ToolDispatcher.BeginDispatch | orchestration/tools.py:237-258 | the code before the await is one Begin step with that verdict |
| ToolDispatch.ToolDispatcher.FinishDispatch | orchestration/tools.py:265-309 | the code after the await is one Finish step, with its log entry, or without one if the arguments are no dictionary; any result clears the breaker, a timeout or exception counts one failure |
| JsonTrees.MergeLookup | orchestration/tools.py:1082-1093 | the value a merge leaves at every path at every depth, read off the operands |
| JsonTrees.BlocksIsPrefix | orchestration/tools.py:1092-1093 | a path is cut off exactly when some proper prefix leads to a non-object |
| JsonTrees.MergeIdempotent | src/swarmx/config.py:64-71 | merging a tree with itself changes nothing |
| JsonTrees.MergeAbsorbs | src/swarmx/evolver.py:626-633 | applying the same patch twice equals applying it once |
| JsonTrees.MergeIsRightIffCovers | src/swarmx/config.py:64-71 | a merge gives its right operand exactly when that operand covers the left one |
| JsonTrees.MergeAssociatesIff | src/swarmx/config.py:64-71 | the merge associates exactly when no harmful non-object in the middle separates two objects |
| ConfigMerge.MergeDicts | src/swarmx/evolver.py:626-633 | the dictionary loop computes the deep merge, for any order of the items |
| ConfigMerge.DeepMerge | orchestration/tools.py:1082-1093 | so does the loop of the merge tool, on any two values |
| ConfigMerge.BundleDefaults | src/swarmx/config.py:75-94 | the fold over the bundled files merges the usable ones left to right |
| ConfigMerge.DefaultsAreMerged | src/swarmx/config.py:75-94 | the defaults are all dictionaries among the parsed files merged from left to right, and nothing else contributes |
| ConfigMerge.SilentIff | src/swarmx/config.py:75-94 | a file is silent about a path exactly if it is no dictionary, or neither holds anything there nor cuts it off |
| ConfigMerge.LastSpeakerWins | src/swarmx/config.py:75-94 | the last file that says something about a path decides it: a value stands, a cut leaves nothing, an object is merged over the object left by the earlier files |
| ConfigMerge.NobodySpeaks | src/swarmx/config.py:75-94 | a setting about which no file says anything is absent |
| LockedFields.MentionsIffPath | src/swarmx/evolver.py:84-105 | the key walk finds a key exactly when some path through nested objects ends with it |
| LockedFields.SeenIffOutsideArrays | src/swarmx/evolver.py:84-105 | the walk sees a key exactly when some occurrence of it, anywhere in the tree, is not under a list |
| LockedFields.EscapesIffUnderArrays | src/swarmx/evolver.py:84-105 | a key that occurs escapes the walk exactly when all its occurrences are under lists |
| LockedFields.Walk | src/swarmx/evolver.py:96-105 | the recursive walk adds exactly the locked keys mentioned at any depth |
| LockedFields.UntouchedMerge | src/swarmx/evolver.py:636-640 | a patch that passes the gate leaves a locked path as it was, or removes it exactly when it puts a non-object above it |
| LockedFields.EvolutionStore.ApplyRuntimePatch | src/swarmx/evolver.py:636-640 | the stored configuration becomes its merge with the patch, starting empty if it is missing or no dictionary |
| LockedFields.EvolutionStore.ApplyProposals | src/swarmx/evolver.py:767-882 | one decision per proposal in order, the lock before the critique; the file becomes the old one with exactly the approved low-risk patches without a locked field merged over it, in order, or stays without auto-apply |
| LockedFields.DecisionIff | src/swarmx/evolver.py:781-860 | when a proposal is applied, blocked and for which fields, rejected or kept |
| LockedFields.BatchMergesApplicable | src/swarmx/evolver.py:767-882 | over any batch the file is the merge of exactly the applicable patches |
| LockedFields.OthersCanBeDropped | src/swarmx/evolver.py:767-882 | any proposal that is not approved, not of low risk or mentions a locked field can be dropped without changing the file |
| LockedFields.AllAreMerged | src/swarmx/evolver.py:854-860 | a batch of applicable proposals is merged from left to right |
| LockedFields.ChangeHasProposal | src/swarmx/evolver.py:767-882 | a setting changes only if an applicable patch holds something at its path or cuts it off |
| LockedFields.GuardrailsAreLocked | configs/guardrails.yaml:49-60 | a patch that mentions a field the guardrails name is blocked, for every such field |
| LockedFields.LockedFieldsSurvive | src/swarmx/evolver.py:767-882 | over any batch a locked field at any depth has its value from before or is gone, and it is gone exactly if absent or cut off |
| LockedFields.UngatedPatchRemovesLockedField | src/swarmx/evolver.py:84-105 | a configuration and a low-risk patch that passes the gate, is applied and removes a locked field |
| LockedFields.LockedFieldInListPasses | src/swarmx/evolver.py:84-105 | a low-risk patch with a locked field inside a list passes the gate and is applied |
| LockedFields.ManualBatchWritesNothing | src/swarmx/evolver.py:855-860 | without auto-apply the configuration is never written |
| Conversations.PruneThenAppend | orchestration/orchestrator.py:1163-1170 | pruning before and after an append equals pruning once |
| Conversations.IncrementalIff | orchestration/orchestrator.py:1161-1167 | the keep settings for which that law holds, exactly |
| Conversations.PruneBound | orchestration/orchestrator.py:1163-1167 | a prompt has at most keep + 1 messages: the first and the latest |
| Conversations.AlternatesIff | orchestration/orchestrator.py:1163-1296 | from one delegation, prompts alternate strictly exactly while unpruned or for an even keep |
| Conversations.DelegationIsPruned | orchestration/orchestrator.py:1130-1138 | with a summary in front, a pruned prompt is the summary and the latest messages, without the delegation |
| StepExecution.CourseAdvances | orchestration/orchestrator.py:1302-1379 | a whole execution makes at most R * (M + 2) chat calls, never ends pending, and succeeds iff it ends complete with an output |
| StepExecution.CapsAreReached | orchestration/orchestrator.py:1169-1335 | for all settings a stream makes a step use M + 1 tool calls in each of R attempts and R * (M + 2) chat calls |
| StepExecution.StepRecord.ExceedsCapIff | orchestration/orchestrator.py:1154-1300 | a pass of the loop makes more than M tool calls exactly if its first M + 1 replies all call tools |
| StepExecution.StepRecord.Settle | orchestration/orchestrator.py:1337-1377 | what the retry loop makes of each result: over with which outcome, or a retry |
| StepExecution.StepRecord.Resume | orchestration/orchestrator.py:1140-1379 | a slice of a step from one chat call to the next never changes how the step will end |
| StepExecution.StepRecord.React | orchestration/orchestrator.py:1179-1296 | each kind of reply, by its constructor, ends the loop with its result or lets it go on, with its effect on model, tool count, envelopes and status |
| StepExecution.StepRecord.ExecuteToolCallLoop | orchestration/orchestrator.py:1140-1300 | at most cap + 1 turns; every prompt is the full conversation pruned once, sent to the right model; the first ending reply decides |
| StepExecution.StepRecord.CompressMemory | orchestration/orchestrator.py:1109-1128 | one chat call, which can fail like any other |
| StepExecution.StepRecord.Attempt | orchestration/orchestrator.py:1322-1335 | compresses first if asked to, then runs the loop on a fresh conversation; the trace grows by the envelopes of the loop's replies and by nothing else |
| StepExecution.StepRecord.TryOnce | orchestration/orchestrator.py:1322-1377 | one pass of the retry loop: an attempt within its caps, and the step is over with which outcome or costs a retry |
| StepExecution.SucceedsOnLastCall | orchestration/orchestrator.py:1302-1379 | whenever an attempt has a turn, a stream makes a step spend its whole budget and succeed with its last call |
| StepExecution.StepEndsByLastReply | orchestration/orchestrator.py:1302-1379 | for every stream the last reply decides how a step ends: a result or DONE completes it with that text, an exception, non-object or failing tool call escapes, a step error that is not recoverable fails it at once, and otherwise it fails when its attempts are used up, each costing one retry |
| StepExecution.NothingEndsEarlier | orchestration/orchestrator.py:1302-1379 | no reply before the last could have ended the step |
| StepLaws.ResultCompletes | orchestration/orchestrator.py:1216-1283 | a result or a DONE envelope completes the step with the text of that reply |
| StepLaws.ExceptionEscapes | orchestration/orchestrator.py:1169-1268 | an exception, JSON that is no object and a tool call that raises escape the step |
| StepLaws.StepErrorFailsUnlessRecoverable | orchestration/orchestrator.py:1342-1353 | a step error fails the step at once exactly if it is not recoverable, and otherwise costs one attempt |
| StepLaws.TroubleCostsAnAttempt | orchestration/orchestrator.py:1197-1208 | a transport error, BLOCK and APPROVAL_REQUIRED each cost one attempt and lead to the next while any is left |
| StepLaws.ConversationGoesOn | orchestration/orchestrator.py:1182-1296 | tool results and hints are answered in the same conversation, with the same model, until the turns are used up |
| StepLaws.ReasonerTakesOver | orchestration/orchestrator.py:1241-1257 | ESCALATE and SCOPE_CREEP hand the conversation over to the reasoner |
| StepLaws.ReasonerIff | orchestration/orchestrator.py:1169-1257 | within an attempt the reasoner is asked exactly if some earlier reply was one of the two |
| StepLaws.AttemptBegins | orchestration/orchestrator.py:1321-1335 | a step starts an attempt with the compression call or the first turn, and fails when none is left |
| StepLaws.CompressionReply | orchestration/orchestrator.py:1109-1128 | a transport error costs the attempt, an exception or truthy non-object escapes, and after any other reply the loop begins |
| StepLaws.RoleModel | orchestration/orchestrator.py:1092-1093 | a role has its own model if one is configured and the worker's otherwise |
| StepLaws.FreshConversation | orchestration/orchestrator.py:1130-1138 | every attempt begins with the delegation alone, or with a non-empty summary before it |
| StepExecution.StepRecord.ExecuteStep | orchestration/orchestrator.py:1302-1379 | attempts = retries added + 1 on success, within the caps for attempts, tool calls and chat calls; success iff complete, with the output of the reply that ended the loop; all its fields end as the course of its streams says, decided by its last reply; the trace grows by exactly the envelopes the step receives |
| Plans.GatherIsComplete | orchestration/orchestrator.py:1648-1655 | in an ordered plan all dependency outputs are gathered, in listed order, none missing |
| Plans.GatherIsFound | orchestration/orchestrator.py:1649-1655 | whatever is missing, the outputs found are fed in listed order |
| Plans.OutputForIff | orchestration/orchestrator.py:1649-1649 | the output for an id is that of the last step with this id that has one |
| Plans.DepsAreOfLast | orchestration/orchestrator.py:1634-1646 | the dependencies of a step are those of the last plan step with its id |
| Plans.InputKinds | orchestration/orchestrator.py:1648-1655 | no input without dependencies, one output alone, otherwise the list of those found |
| Plans.DependencySafety | orchestration/orchestrator.py:1622-1673 | with the abort fallback each started step follows the completion of all earlier ones, was not complete, and is fed all its dependencies in order |
| TaskRuns.TaskRun.constructor | orchestration/orchestrator.py:1552-1560 | one pending step record per plan step |
| TaskRuns.TaskRun.MatchingSteps | orchestration/orchestrator.py:1587-1594 | a node id stands for the first record with that id, if it is still pending |
| TaskRuns.TaskRun.RootGraph | orchestration/orchestrator.py:1598-1610 | the root nodes form a graph that is accepted and has exactly one level, all of them |
| TaskRuns.TaskRun.RunTogether | orchestration/orchestrator.py:1587-1614 | for every order of the slices of steps awaited together, each ends in every field as if it had run alone, and the trace holds exactly the envelopes that the steps have received |
| TaskRuns.TaskRun.RunRoots | orchestration/orchestrator.py:1598-1614 | for every interleaving, each pending record matching a root ends as if run alone, no other record changes, and there are at most r * R * (M + 2) chat calls |
| TaskRuns.TaskRun.BuildInput | orchestration/orchestrator.py:1634-1655 | the input is nothing, a single output or the list of outputs found for the dependencies |
| TaskRuns.TaskRun.StartStep | orchestration/orchestrator.py:1648-1662 | feeds the input, upgrades a worker for a complex task, and runs the step alone, as its streams say |
| TaskRuns.TaskRun.RunSequential | orchestration/orchestrator.py:1618-1676 | the first steps run in order within the cap, each one not complete yet exactly as its streams say and no other; where it ends, in which status and whether it raises are a function of the steps' outcomes and of who has received a BLOCK by when |
| TaskRuns.StatusIff | orchestration/orchestrator.py:1618-1676 | with and without a fallback, the loop ends BLOCKED, FAILED or ABORTED exactly when: a step within the cap fails after a BLOCK, fails without one and without a fallback, or no step within the cap stops it and there are more |
| TaskRuns.TroubleDecides | orchestration/orchestrator.py:1618-1676 | without a fallback the first step that fails or raises decides how many steps run, whether the run raises, and whether the loop stops as BLOCKED or FAILED |
| TaskRuns.TaskRun.BlockSeen | orchestration/orchestrator.py:1664-1667 | the test for a BLOCK in the trace holds exactly if some step has received one |
| Courses.BlockedIff | orchestration/orchestrator.py:1618-1676 | by any point of the phase a BLOCK has been received exactly if a root had received one or a step run so far does |
| Courses.AllCompleteIff | orchestration/orchestrator.py:1618-1676 | after the phase all steps are complete exactly when those the cap lets it reach succeed and the others were complete before |
| Courses.PassedAsked | orchestration/orchestrator.py:1618-1676 | the phase makes at most one step budget of chat calls for each step it runs |
| Plans.TextRoundTrip | brain/graph.py:306-310 | an id can be read back from its text, so different ids are different nodes |
| Plans.AcceptedIffAcceptable | brain/graph.py:292-320 | the relation built from a plan is closed and acyclic exactly when the plan's references other than 0 are known and each of its cycles runs through step 0 |
| Plans.ZeroCycleAccepted | brain/graph.py:310-310 | two steps that wait for each other, one of them step 0, make an acceptable plan |
| Plans.BuildGraphFromPlan | brain/graph.py:292-320 | builds the graph of the plan, by the last step of each id, and accepts it exactly if the plan is acceptable, with the kind of error otherwise |
| WholeRuns.RunTask | orchestration/orchestrator.py:1458-1776 | at most 4 + (r + min(n,S)) * R * (M+2) chat calls for any replies, with r = 0 unless the roots are run together; dependency safety; the calls, the final state of every step, how many steps were run, the status in which the sequential phase stopped and whether the run raises, as functions of the streams, for every plan; when all steps are complete; the answer, as a function of the streams |
| WholeRuns.Synthesise | orchestration/orchestrator.py:1696-1755 | the first model is asked, another one only if that call raises and there is one; a final text is the answer, and without one the outputs of the completed steps by id |
| WholeRuns.WhoAnswers | orchestration/orchestrator.py:1703-1755 | the first call's text is the answer iff it is final and not empty; the other model's iff the first call raised, there is one, and its text is; in every other case it is the outputs |
| WholeRuns.FallbackUnasked | orchestration/orchestrator.py:1703-1728 | if the first call answers, what the other model would say changes neither the answer nor the calls |
| WholeRuns.RootsRunIff | orchestration/orchestrator.py:1604-1614 | steps run in the parallel phase exactly if it is allowed, and the plan is acceptable with more than one root id |
| WholeRuns.ModelOfStep | orchestration/orchestrator.py:1657-1660 | a complex task's worker steps go to the reasoner's model in the sequential phase, all others to their own |
| WholeRuns.RunInVain | orchestration/orchestrator.py:1618-1679 | for every plan and all settings, if every call gets the same reply and it never completes a step, the run ends finished, and its sequential phase stopped as BLOCKED, FAILED, ABORTED or not at all, exactly when |
| WholeRuns.FailedRunEndsFinished | orchestration/orchestrator.py:1670-1679 | for all settings a run without fallback whose only step fails stops as FAILED and ends finished |
| WholeRuns.BlockedRunEndsFinished | orchestration/orchestrator.py:1664-1679 | for all settings that let a step make a call, a run with a fallback stops as BLOCKED and ends finished |
| WholeRuns.AbortedRunEndsFinished | orchestration/orchestrator.py:1622-1679 | for all settings a run with one step more than the cap stops as ABORTED and ends finished |
| WholeRuns.QuietNeverBlocks | orchestration/orchestrator.py:1664-1667 | if no reply holds an envelope, no step is ever stopped by a BLOCK |
| WholeRuns.SpendWholeBudget | orchestration/orchestrator.py:1458-1776 | for all settings, with and without the parallel phase, some streams use up the whole chat budget of every plan that has a fallback or reaches at most one step, and of any plan if there are no attempts or they have turns |
| WholeRuns.BudgetOutOfReach | orchestration/orchestrator.py:1458-1776 | no streams use up the budget of any other plan |
| Compression.SectionsPartition | src/swarmx/llm.py:627-638 | every line is in exactly one section |
| Compression.Sort | src/swarmx/llm.py:627-638 | the dictionary holds the lines of each section in order |
| Compression.Boundaries | src/swarmx/llm.py:627-627 | the ten characters that end a line, by code point |
| Compression.JoinedLines | src/swarmx/llm.py:627-627 | splitting into lines never gains characters, and loses none exactly for a text without a final boundary or a two-character one |
| Compression.SectionsHoldAll | src/swarmx/llm.py:627-638 | together the six sections have as many lines and characters as the prompt |
| Compression.NothingCutIffJoined | src/swarmx/llm.py:645-656 | a prompt over the limit is emitted whole exactly when its joined lines are over by less than the number of sections that hold them |
| Compression.NothingCutIff | src/swarmx/llm.py:645-656 | for a plain prompt, exactly when it is itself over by less than that |
| Compression.CompressedIsLonger | src/swarmx/llm.py:615-658 | a prompt of 11 characters that a limit of 10 turns into one of 12 |
| Compression.CompressPrompt | src/swarmx/llm.py:615-658 | emits the non-empty sections of the prompt's own lines by priority: all whole, or a prefix whole and the first that does not fit cut; exactly when that is within the limit; nothing of a section while one before it is cut, and TASK first if it fits |
| Compression.TextsInOrder | src/swarmx/llm.py:641-648 | the texts stand in the order TASK, PLAN, DOMAIN CONSTRAINTS, PREAMBLE, CONTEXT, MEMORY |
| Compression.EmittedInPriority | src/swarmx/llm.py:641-656 | if anything of a section is emitted, every non-empty section before it in that order is emitted whole, and before it |
| Compression.TaskComesFirst | src/swarmx/llm.py:641-651 | a TASK section that fits is the head of the output, whatever else the prompt holds |
| Compression.WholeIfFits | src/swarmx/llm.py:641-651 | a section that fits together with those before it is emitted whole |
| Compression.CutKeepsHead | src/swarmx/llm.py:652-655 | a cut text is its own head and the marker, and how long that head is for every remaining budget |
| Compression.CurrentIff | src/swarmx/llm.py:629-638 | the current section is that of the last header so far, or the preamble before any |
| Compression.LinesOfAre | src/swarmx/llm.py:633-638 | a section holds, in order, the lines at and below its headers up to the next header |
| Compression.CutLength | src/swarmx/llm.py:652-656 | with at least 50 characters left the output is within the limit, and exactly how long; otherwise it always exceeds it |
| Compression.WithinLimitIff | src/swarmx/llm.py:615-658 | exactly when the output is within the limit; uncut it is at most 10 over |
| BrainMemory.FileIsLogTail | brain/memory.py:85-119 | after any stores the file is the last lines of the unbounded log |
| BrainMemory.ZeroCapNeverCompacts | brain/memory.py:114-116 | with a cap of zero nothing is ever dropped |
| BrainMemory.CapHoldsIff | brain/memory.py:107-119 | the file keeps within its cap, whatever is stored, exactly for a cap of at least one |
| BrainMemory.LoadAgreesIff | brain/memory.py:134-151 | loading from the file equals loading from the full log exactly when the file fills the limit, nothing wanted was dropped, or both raise or come back empty |
| BrainMemory.LoadRefinesLog | brain/memory.py:134-151 | up to the cap, loading never shows that anything was dropped |
| BrainMemory.SearchRefinesLog | brain/memory.py:164-180 | with a cap of at least 200, neither does searching, with or without a time limit on entries |
| BrainMemory.Store.Append | brain/memory.py:64-119 | one store appends one record and compacts; a compaction that keeps nothing leaves one blank line |
| BrainMemory.StoredFields | brain/memory.py:76-83 | each text goes into its own field, cut to its own length, and an empty improvement counts as none |
| BrainMemory.Store.LoadAll | brain/memory.py:124-151 | returns the newest wanted lines up to the limit, at least one if there is any, or nothing if a line that is no object is asked for its time |
| BrainMemory.NewestFirst | brain/memory.py:136-146 | a load looks at the lines from the newest on, and takes those not older than the time limit |
| BrainMemory.LoadedIs | brain/memory.py:146-148 | as many as asked for, but at least one, if there are so many |
| BrainMemory.Store.Search | brain/memory.py:156-180 | returns the newest relevant fresh records among the 200 scanned, or raises on a line that is no object |
| BrainMemory.MatchesFilter | brain/memory.py:171-176 | the matches are the relevant records not older than the cutoff, if there is one |
| BrainMemory.FoundIs | brain/memory.py:164-180 | a search looks at the newest 200 lines and takes as many matches as asked for, at least one |

## Left out

- TaskGraphs.TaskGraph.TopologicalLevels: states which nodes a level holds, not their order inside it; the results do not depend on it.
- TaskGraphs.TaskGraph.Execute: does not model durations or cancellation, and a node's dispatcher outcome is fixed before the run; the synchronous wrapper execute_sync only adds an event loop around it.
- ToolDispatch.ToolDispatcher.FinishDispatch: the log entry holds tool and status; duration, argument keys and timestamps, the log file and the event bus are left out.
- StepExecution.StepRecord.ExecuteStep: the step's error texts, token counts, latencies and back-off sleeps are not modelled.
- Plans.BuildGraphFromPlan: step ids and dependencies are integers and dependencies come as lists; text ids and a single value in place of a list are not modelled.
- TaskRuns.TaskRun.RunTogether: the order in which the escalations of different steps interleave is left open, and a chat call counts when its reply arrives.
- WholeRuns.RunTask: the plan is taken after normalisation; complexity and planner prompts, signals, persistence and the background critic are left out.
- Compression.CompressPrompt: recognising a header (strip, upper-case, trailing colon) is a parameter.
- BrainMemory.Store.Search: lower-casing and keyword matching are a parameter.
- BrainMemory.Store.Append: file errors, which brain/memory.py swallows, and the locks are left out.
- LockedFields.EvolutionStore.ApplyProposals: the critique pipeline is an arbitrary verdict per proposal; stored memories, telemetry and skill generation are left out.
- ConfigMerge.MergeDicts: key order inside a dictionary is not modelled; config.py and evolver.py hold the same function, modelled once.
- OllamaClient.chat with its retries, streaming and escalation: library behaviour; a chat call is one reply, a transport error or an exception.
- Parsing of model replies (extract_json, is_envelope): a reply arrives classified.
- Policy, pressure, tournament and scoring code, model and role tables, RAG, vector search, storage and the job queue, dashboards and the CLI: lookups, user interface or library wrappers.
