# CHUM: verified models of the scheduling core

CHUM plans work as a graph of tasks, dispatches agents on the tasks that are ready, limits and
retries those dispatches, and learns from their outcomes.  This project models the parts of it that
keep state or transform text, and proves what they keep, for every input, every run or every
interleaving.  `dafny verify dfyconfig.toml` checks all of it.

| file | what it models |
|---|---|
| `Tasks.dfy`, `DagState.dfy`, `Dag.dfy`, `Reachability.dfy` | the task and edge tables, the operations on them, cycle detection, the ready-transition guard, `AutoUnblockDependents` |
| `TableLaws.dfy` | what creating, updating, closing and unlinking tasks write into the tables, column by column, and what the ready query reads from them |
| `Drain.dfy` | the loop "take a ready task, close it, unblock its dependents" |
| `DepGraph.dfy`, `ReadySets.dfy`, `CrossGraph.dfy` | the in-memory dependency graph and filters, and how they relate to the SQL query |
| `Genome.dfy` | the genome of a species as a ledger of its outcomes, and the spreading of patterns to siblings |
| `RateLimit.dfy`, `Retry.dfy` | the sliding-window allocator, and the retry policy with tier escalation |
| `PlanningTrace.dfy`, `PlanningPrompt.dfy`, `PlanningApi.dfy`, `PlanningCli.dfy` | the planning prompt, inferred from an event trace by two independent programs |
| `PlanningPhases.dfy` | which prompt that is, said of the events themselves |
| `JsonExtract.dfy` | the scanner that finds a JSON object in free text |
| `TierLists.dfy`, `ConfigRewrite.dfy` | the line rewriter that removes Anthropic providers from a TOML file |
| `Mcts.dfy` | the rollout log and its aggregates |
| `Dispatcher.dfy` | the process table and the temporary files it owns |
| `Options.dfy`, `Text.dfy`, `Ordering.dfy` | an option type, Go's string functions, sorting |

Where the source updates tables, fields or slices in place, the model is a class or a method with
loops, proved equal to a function; what the source promises is then proved about that function and
about all its runs.  Clocks, random draws, operating-system choices and store failures are
parameters, so a theorem over runs covers every one of them.

## What the proofs found

- A task that is open while all its dependencies are already terminal is never promoted by any later
  completion.  `Drain.DrainsIffNoneStranded`: a project drains exactly when no task starts that way.
  A freshly created open task does (`Drain.StrandedReachable`).  What is left otherwise does not depend
  on the picks: it is the stranded tasks and those that wait for one (`Drain.Residue`).
- `UpdateTask` may rewrite a task's project.  `ReadySets.ProjectRewriteSplits`: a ready task whose
  dependency is moved stays in the answer of the SQL query and leaves that of the in-memory filter.
- The usage count is tested with the same `>=` before and after the insertion, so the last slot of a
  cap is never granted and a cap of one grants nothing (`RateLimit.GrantedIffTwoFree`).
- `planning_signal_timeout` ends a session for the API and is ignored by the command line, and the two
  read the title of a selected item differently.  `PlanningPrompt.BuildersAgree` gives the exact condition
  under which they return the same prompt, `PlanningPrompt.BuildersAgreeButForItem` the one for phase,
  signal, cycle and options; `PlanningPrompt.BuildersDisagree` and `PlanningPrompt.TitlesDisagree` are
  traces on which they differ.
- In a code fence without an info string the first line of the body is taken for one and lost.
  `JsonExtract.UntaggedFenceExact`: an object of which no second copy follows is found if and only if the
  first line break of the trimmed body comes before it or there is none; `JsonExtract.UntaggedFenceIff`
  is the case that no opening brace follows, and `JsonExtract.UntaggedFenceLosesObject` an object lost.
- Disabling Anthropic providers is idempotent if and only if two things hold (`ConfigRewrite.DisableTwice`,
  `ConfigRewrite.Steady`): no tier list keeps a blank entry beside another one, which the next pass misreads
  (`TierLists.BlankEntryChanges`), and no `[chief]` model is replaced by a fallback of which the part before
  its first quote looks like an Anthropic model again (`ConfigRewrite.QuotedFallbackChanges`).
- Collapsing blank runs does not raise the change flag, so a text can come out different with the flag
  down (`ConfigRewrite.FlagMissesCollapse`).  `ConfigRewrite.FlagExact`: an up flag is always right, and the
  flag is wrong exactly for content with three blank lines in a row in which nothing else changes, unless
  only the empty line behind the final newline is dropped and put back.
- The SQL spelling of "terminal" does not trim: `Tasks.TerminalTestsAgreeIff` says for which statuses the
  three spellings agree, and normalisation keeps every stored one among them.
- No code assigns `parent_species`, so `SpreadPhages` changes nothing in any store built by the
  modelled operations (`Genomes.SpreadInertFromEmpty`).  What it does to a store with parents is
  proved all the same.
- A pid handed out again while its old entry is still tracked would leave the old files without an
  owner (`Dispatching.ReusedPidLosesFiles`).
- The fallback listing at the end of the option formatters is dead code (`PlanningTrace.OffersSomething`).

The two prompt builders are modelled as two programs, each with its own loops and its own refinement
proof.  The leaf functions they do not loop in (`TitleFrom`, `RankFrom`, `MetaInt`, `MetaBool`, `OptionText`
and `CandidateLess` of `PlanningTrace`) each stand for two Go functions whose bodies are the same but for
names; on those the agreement rests on reading the two sources, not on a proof.

Where code and comments differ the model follows the code: `FilterUnblockedCrossProject` is documented
to return open tasks and returns ready ones (internal/graph/cross.go:87-104), and the comment on
`isClosedTask` names three of its six statuses (internal/graph/graph.go:174-181).

## Model

| member | source | states |
|---|---|---|
| `Tasks.NormalizeNormal` | internal/graph/dag.go:207-221 | normalising yields a non-empty, trimmed, lower-case string, and leaves such strings alone, as SQL's `lower` does |
| `Tasks.TerminalTestsAgree` | internal/graph/graph.go:178-181 | on stored statuses the SQL list, `isTerminalStatus` and `isClosedTask` are the same test |
| `Tasks.TerminalTestsAgreeIff` | internal/graph/dag.go:591-604 | on any status the SQL test and the Go tests agree if and only if there is no surrounding white space, or nothing terminal inside it |
| `Tasks.TerminalTestsDisagree` | internal/graph/dag.go:591-604 | a status on which they differ |
| `Reachability.NewEdgeClosesCycle` | internal/graph/dag.go:108-116 | an edge closes a cycle in an acyclic graph exactly when it is a loop or its target reaches its source |
| `Reachability.ReachSetExact` | internal/graph/dag.go:108-116 | the reach set of a task holds exactly what a walk from it can end in |
| `Reachability.SearchProgress` | internal/graph/dag.go:108-116 | each row the UNION ALL search expands makes the remaining work strictly smaller, because the graph is acyclic |
| `Reachability.SinkWithin` | internal/graph/dag.go:91-103 | from any member of a set an acyclic graph leads to a member with no successor in the set |
| `DagState.AddEdgeExact` | internal/graph/dag.go:498-531 | an otherwise valid edge is refused exactly when it would close a cycle, and accepted edges are inserted and keep the tables valid |
| `DagState.TaskIdTrimmed` | internal/graph/dag.go:187-198 | generated ids are not empty and not surrounded by white space |
| `DagState.CreateKeeps` | internal/graph/dag.go:223-275 | creation keeps the tables valid and changes no existing row and no edge |
| `DagState.UpdateIsStep` | internal/graph/dag.go:354-462 | a field map reaches the tables only through its parsed form |
| `DagState.ListedMeans` | internal/graph/dag.go:314-320 | on stored rows the status filter selects the tasks whose status is one of the normalised statuses, and no filter selects all |
| `DagState.UpdateStatus` | internal/graph/dag.go:437-492 | setting a status changes that one field, and is refused as blocked exactly when the new status is ready and a dependency is unresolved |
| `DagState.StepValid` | internal/graph/dag.go:223-531 | every operation keeps ids trimmed, statuses and types normalised, edges between existing tasks, and the graph acyclic |
| `DagState.RunKeepsValid` | internal/graph/dag.go:223-680 | so does every run of operations from any valid state |
| `DagState.EveryRunAcyclic` | internal/graph/dag.go:498-531 | every run from empty tables ends in an acyclic graph |
| `DagState.RunKeepsSameProject` | internal/graph/dag.go:514-524 | runs that do not assign the project column keep both ends of every edge in one project |
| `DagState.PromotionNeverRefused` | internal/graph/dag.go:478-492 | the ready-transition guard lets each promotable task through, also after others were promoted |
| `DagState.SameTerminals` | internal/graph/dag.go:641-680 | promotions neither resolve nor unresolve any dependency |
| `DagState.UnblockSettles` | internal/graph/dag.go:641-680 | exactly the promotable dependents change, to ready and in no other field; nothing is left to promote and a second call is a no-op |
| `TableLaws.UpdateSets` | internal/graph/dag.go:366-433 | after a successful update each column that a key names, in any case and with white space around it, holds the value given for it, status and type normalised |
| `TableLaws.UpdateKeeps` | internal/graph/dag.go:354-462 | whatever the update answers, the columns no key names, every other row and all edges are as before |
| `TableLaws.UpdateSucceedsIff` | internal/graph/dag.go:354-492 | an update succeeds if and only if there is an id and either no field, or a stored task, only updatable keys, values of their columns' types, and no missing or open dependency in the way of a ready status |
| `TableLaws.CreateExact` | internal/graph/dag.go:223-275 | the first draw that collides with no task gives the id, under which the row is stored with status and type normalised and the project trimmed; if all collide nothing changes |
| `TableLaws.HexMeans` | internal/graph/dag.go:187-198 | the random part of an id is six hexadecimal digits, and reading them gives back the number drawn |
| `TableLaws.CloseExact` | internal/graph/dag.go:494-496 | closing a stored task writes closed into its status, whatever depends on it, and changes nothing else |
| `TableLaws.RemoveEdgeExact` | internal/graph/dag.go:533-548 | exactly the named edge goes, and only if both ends are given |
| `TableLaws.ReadyMeans` | internal/graph/dag.go:91-103 | in a valid state the ready query answers exactly the tasks of the project that have status ready, are neither epic nor whale, and have no dependency outside the six terminal statuses |
| `TableLaws.NormalizeMeans` | internal/graph/dag.go:207-221 | a status or type is read without the white space around it and in lower case; a blank status is open, a blank type task |
| `Dag.DAG.CreateTask` | internal/graph/dag.go:223-275 | inserts the normalised row under a fresh id within ten draws, or changes nothing |
| `Dag.DAG.GetTask` | internal/graph/dag.go:277-302 | the stored row with its dependencies, or the exact error |
| `Dag.DAG.ListTasks` | internal/graph/dag.go:304-352 | the tasks of the project with one of the given statuses, or any if none is given, each once, with their dependencies |
| `Dag.DAG.NormalizeStatusFilters` | internal/graph/dag.go:796-812 | the normalised statuses, once each, in order |
| `Dag.DAG.ParseFields` | internal/graph/dag.go:366-433 | reading the field map in any order collects one value per column and whether some key is unknown, or reports a value of the wrong type |
| `Dag.DAG.UpdateTask` | internal/graph/dag.go:354-462 | refines the update function, keeps the tables valid, and touches neither edges nor the set of tasks |
| `Dag.DAG.CloseTask` | internal/graph/dag.go:494-496 | refines the closing function and keeps the tables valid |
| `Dag.DAG.ReachesTarget` | internal/graph/dag.go:108-116 | the search without a visited set terminates and answers exactly whether the target is reachable |
| `Dag.DAG.AddEdge` | internal/graph/dag.go:498-531 | refines the edge function with every error case, keeps the tables valid and all rows unchanged |
| `Dag.DAG.RemoveEdge` | internal/graph/dag.go:533-548 | removes at most the named edge and keeps the tables valid |
| `Dag.DAG.GetReadyNodes` | internal/graph/dag.go:550-588 | exactly the tasks the query's condition admits, each once, by priority and estimate |
| `Dag.DAG.GetDependents` | internal/graph/dag.go:608-635 | exactly the direct dependents, once each, in id order |
| `Dag.DAG.PromoteEach` | internal/graph/dag.go:647-678 | the promotion loop, in any order of the dependents, promotes exactly the promotable ones of the state before it |
| `Dag.DAG.AutoUnblockDependents` | internal/graph/dag.go:641-680 | promotes exactly the open direct dependents whose dependencies are all terminal, returns them in id order, changes nothing else |
| `Drain.CompleteEffect` | internal/graph/dag.go:494-496 | closing a task and unblocking its dependents closes that task, promotes exactly the dependents it was the last to block, and changes no other row |
| `Drain.StrandedBefore` | internal/graph/dag.go:641-680 | a task stranded after a completion was stranded before it |
| `Drain.StrandsNone` | internal/graph/dag.go:641-680 | no completion leaves an open task with nothing to wait for |
| `Drain.SomeTaskReady` | internal/graph/dag.go:550-588 | no deadlock: while a task is not terminal the ready query has an answer |
| `Drain.RunCounts` | internal/graph/dag.go:550-588 | whatever is picked, each step completes exactly one task that was not terminal |
| `Drain.RunStranding` | internal/graph/dag.go:641-680 | runs neither strand a task nor rescue a stranded one |
| `Drain.FullDrain` | internal/graph/dag.go:641-680 | with no stranded task a run stops exactly when it has as many steps as there were non-terminal tasks, and then all are terminal |
| `Drain.MaximalRun` | internal/graph/dag.go:550-588 | some run goes on until nothing is ready |
| `Drain.DrainsIffNoneStranded` | internal/graph/dag.go:641-680 | every maximal run completes everything if and only if no task is stranded at the start |
| `Drain.HeldStays` | internal/graph/dag.go:641-680 | a completion neither frees a task that waits for a stranded one nor makes another one wait |
| `Drain.Residue` | internal/graph/dag.go:550-588 | every maximal run, whatever it picks, leaves exactly the stranded tasks and those that reach one through tasks that are not terminal |
| `Drain.StrandedReachable` | internal/graph/dag.go:223-275 | one creation of an open task reaches a project that does not drain |
| `DepGraphs.CleanDepsExact` | internal/graph/graph.go:44-56 | cleaning keeps exactly the trimmed non-blank dependencies, once each, in order of first occurrence |
| `DepGraphs.AddDependencies` | internal/graph/graph.go:32-56 | one task's turn appends its cleaned dependencies to its forward entry and itself to the reverse entry of each of them |
| `DepGraphs.BuildDepGraph` | internal/graph/graph.go:18-60 | the nested loops compute the graph the tasks contribute |
| `DepGraphs.ForwardExact` | internal/graph/graph.go:31-57 | with distinct ids a forward entry is the task's cleaned dependency list |
| `DepGraphs.ReverseExact` | internal/graph/graph.go:31-57 | a reverse entry holds exactly the tasks that depend on the key, once each |
| `DepGraphs.InverseMaps` | internal/graph/graph.go:18-60 | the two maps are inverse to each other, hold every pair once, also for dependencies that are no nodes |
| `DepGraphs.ComputeAllDepsClosed` | internal/graph/graph.go:147-172 | with a graph: every effective dependency is a closed node; without one: there are no dependencies |
| `DepGraphs.FilterUnblockedOpen` | internal/graph/graph.go:113-145 | a sorted permutation of the ready, executable, unblocked tasks |
| `DepGraphs.DepsClosedMeans` | internal/graph/graph.go:147-172 | over the graph of its own list, a task is unblocked when each cleaned dependency names a closed task of the list |
| `DepGraphs.OutsiderMeans` | internal/graph/graph.go:147-172 | a task that is not in the list is judged by its own dependencies as they are written |
| `DepGraphs.AnswerOrder` | internal/graph/graph.go:125-142 | stage-labelled tasks come first, then lower priority numbers, shorter estimates, smaller ids, each deciding only between equals |
| `DepGraphs.AnswerUnique` | internal/graph/graph.go:125-142 | permuted inputs and agreeing tests have one and the same answer, whatever the sorting algorithm |
| `DepGraphs.FilterIgnoresOrder` | internal/graph/graph.go:105-145 | the filtered sequence does not depend on the order of the input and is strictly sorted |
| `DepGraphs.ResolvingOnlyUnblocks` | internal/graph/graph.go:147-181 | moving a task to a terminal status removes no other task from the answer |
| `ReadySets.SelectedInListing` | internal/graph/graph.go:113-172 | the filter selects a listed task exactly when the query does and its dependencies belong to the project |
| `ReadySets.FilterVersusQuery` | internal/graph/dag.go:91-103 | the filter's answer is the query's less the tasks with a dependency in another project, and the two agree if and only if there is none |
| `ReadySets.SameProjectAgree` | internal/graph/dag.go:550-588 | they agree in every valid state whose edges stay within projects |
| `ReadySets.ReadySetsAgree` | internal/graph/dag.go:550-604 | they agree in every state reached without assigning the project column, for every project and listing |
| `ReadySets.ProjectRewriteSplits` | internal/graph/dag.go:412-413 | moving a dependency of a ready task to another project makes the two disagree |
| `CrossGraph.CrossDepRoundTrip` | internal/graph/cross.go:14-20 | splitting undoes joining and joining undoes splitting |
| `CrossGraph.DepResolvedMeans` | internal/graph/cross.go:132-166 | a dependency with a colon is looked up in the project before its first colon and never locally, one without a colon locally and never elsewhere; it must exist there with a terminal status |
| `CrossGraph.ComputeAllDepsClosedCross` | internal/graph/cross.go:132-166 | every effective dependency is resolved, locally or in its project |
| `CrossGraph.FilterUnblockedCrossProject` | internal/graph/cross.go:99-127 | a sorted permutation of the ready, executable tasks with all dependencies resolved |
| `CrossGraph.LocalDepsSameAnswer` | internal/graph/cross.go:87-127 | without colons in dependency ids the cross-project filter returns the local filter's sequence, with or without a graph |
| `CrossGraph.CrossMonotone` | internal/graph/cross.go:59-72 | resolving tasks of other projects only adds to the answer |
| `Genomes.MergePatternCounts` | internal/store/genomes.go:211-224 | a success adds one to its own pattern and to nothing else, and patterns stay unique |
| `Genomes.MergeFailureCounts` | internal/store/genomes.go:225-244 | a failure moves its antibody around 0, 1, 2 and leaves the others alone |
| `Genomes.MergeFailureFossils` | internal/store/genomes.go:229-239 | the third failure leaves one more fossil of that pattern, with count three |
| `Genomes.EvolveLedger` | internal/store/genomes.go:171-244 | one evolution extends the history by its outcome, keeps every law of the ledger, and leaves species, parent and hibernation alone |
| `Genomes.HistoryLedger` | internal/store/genomes.go:68-281 | after any history: n failures of a pattern are n div 3 fossils of count 3 and an antibody of n mod 3; unique names; pattern counts sum to successes; generation is successes plus failures; provider records and costs are those of the history; each pattern is the entry of its first success, each antibody that of the failure that began the unfinished round of three, each fossil that of the failure that began a finished one, reason, alternative, files and agent included, dated by its place in the history and kept in that order; each provider gene dates from its first outcome |
| `Genomes.RecordProvider` | internal/store/genomes.go:182-209 | the provider loop finds and updates the gene of the provider, or appends one |
| `Genomes.RecordPattern` | internal/store/genomes.go:213-224 | the pattern loop refines the merge |
| `Genomes.RecordFailure` | internal/store/genomes.go:227-243 | the antibody loop refines the merge, with removal at the threshold |
| `Genomes.EvolveInPlace` | internal/store/genomes.go:177-244 | the whole update of a genome refines the evolution function |
| `Genomes.GenomeStore.EvolveGenomeWithCost` | internal/store/genomes.go:171-281 | replaces exactly the row of the species by its evolution |
| `Genomes.InfectPatterns` | internal/store/genomes.go:386-406 | a sibling keeps its patterns, gains one per missing proven pattern, and then holds all proven ones; each gained entry has count one, the next generation, the source's alternative, files and agent, and a reason naming source and generation |
| `Genomes.SpreadExact` | internal/store/genomes.go:356-410 | every other species with the same non-empty parent keeps its patterns and gains exactly the proven ones it lacked, generation and successes rising by their number; antibodies, fossils, the source and all other rows are untouched |
| `Genomes.SpreadTwice` | internal/store/genomes.go:356-410 | a repeated call is a no-op |
| `Genomes.StoreRunLawful` | internal/store/genomes.go:165-410 | every run of evolutions, spreadings and hibernations keeps every genome lawful for some history |
| `Genomes.SpreadInertFromEmpty` | internal/store/genomes.go:358-366 | from an empty store no operation gives a species a parent, so spreading changes nothing |
| `Genomes.GenomeStore.InfectSibling` | internal/store/genomes.go:381-407 | the inner loops evolve the sibling once per missing proven pattern |
| `Genomes.GenomeStore.SpreadPhages` | internal/store/genomes.go:356-410 | refines the spreading function, in any order of the siblings |
| `RateLimit.ReserveShape` | internal/dispatch/ratelimit.go:228-248 | whatever the store does, an attempt adds at most one row, and only one that both counts allowed |
| `RateLimit.InsertBounded` | internal/store/dispatches.go:600-617 | a count below the cap at or before the insertion keeps every window of that length within the cap |
| `RateLimit.RunBounded` | internal/dispatch/ratelimit.go:47-85 | every run from a bounded state stays bounded |
| `RateLimit.CapsHold` | internal/dispatch/ratelimit.go:47-197 | no 5-hour or 7-day window of any run of attempts, provider choices and releases holds more rows than its cap, through failing stores and failing rollbacks |
| `RateLimit.RowsAreOutstanding` | internal/dispatch/ratelimit.go:152-248 | while the store works, the rows are exactly the reservations granted by attempts and choices and not released |
| `RateLimit.ReserveExact` | internal/dispatch/ratelimit.go:228-248 | with a working store an attempt is refused when a window is full, granted with its row when both then have room for one more, the new row counting where it lies in the window, and otherwise rolled back |
| `RateLimit.GrantedIffTwoFree` | internal/dispatch/ratelimit.go:228-248 | an attempt is granted exactly when it passes the first test and both windows then have two free slots |
| `RateLimit.PickReservesOne` | internal/dispatch/ratelimit.go:152-197 | a call reserves at most one row, for the usable authenticated provider it returns, and otherwise leaves the table as it was |
| `RateLimit.PickExact` | internal/dispatch/ratelimit.go:152-197 | the first candidate that is not passed over decides the call: free if it needs no reservation, reserved if both windows have room for one more, over the limit otherwise; no provider when all are passed over, which means unknown, excluded, without room, or refused by the store |
| `RateLimit.FreeProviderFound` | internal/dispatch/ratelimit.go:165-184 | a usable provider that needs no reservation is returned whenever all candidates before it are passed over |
| `RateLimit.FailingStorePick` | internal/dispatch/ratelimit.go:176-195 | a row whose id is lost stays behind and the call moves on; a failing second count ends the call over the limit, rolled back unless that fails too |
| `RateLimit.PickBounded` | internal/dispatch/ratelimit.go:152-197 | choosing keeps the bounded state, row times included, whatever the store does, so that calls can follow each other |
| `RateLimit.RateLimiter.CanDispatch` | internal/dispatch/ratelimit.go:47-65 | allowed exactly when no count fails and both are below their caps |
| `RateLimit.RateLimiter.RecordAuthedDispatch` | internal/dispatch/ratelimit.go:228-248 | refines the reserve, recheck and roll back function |
| `RateLimit.RateLimiter.ReleaseAuthedDispatch` | internal/dispatch/ratelimit.go:77-85 | removes the named row; id 0 or a failing store change nothing |
| `RateLimit.RateLimiter.PickAndReserve` | internal/dispatch/ratelimit.go:152-197 | refines the choice function, of which `PickExact` says which candidate answers |
| `Retry.BackoffRange` | internal/dispatch/retry.go:68-89 | before jitter a delay lies between the base and the larger of base and cap, and does not shrink with the attempt |
| `Retry.BackoffGeometric` | internal/dispatch/retry.go:68-89 | the first delay is the base and each further one the factor times the one before, cut off at the cap |
| `Retry.BackoffClosedForm` | internal/dispatch/retry.go:68-89 | the delay before jitter is the base times the factor to the power of the attempt, cut off at the cap when there is one; the base when the cap lies below it |
| `Retry.NextRetryExact` | internal/dispatch/retry.go:32-93 | a retry happens exactly below MaxRetries; its delay is that closed form times 1 + draw/10, without its fraction, and 0 for an initial delay that is not positive |
| `Retry.DelayRange` | internal/dispatch/retry.go:32-93 | with positive bounds each delay lies within the initial delay and 1.1 times the larger bound |
| `Retry.OneAttempt` | internal/dispatch/retry.go:32-65 | one attempt climbs the rank by the run law and never lowers it |
| `Retry.OneRetry` | internal/dispatch/retry.go:32-65 | one retry moves any stored tier, on the ladder or off it, to the next one of the law |
| `Retry.TierOfRun` | internal/dispatch/retry.go:32-65 | feeding the tier back for attempts 0..a gives rank min(premium, start + a div EscalateAfter) |
| `Retry.UnknownTierStays` | internal/dispatch/retry.go:52-65 | tiers off the ladder are normalised and never change |
| `Retry.NormalizeTierMeans` | internal/dispatch/retry.go:52-54 | white space around a tier and its case do not matter |
| `Retry.RetryLoopLaw` | internal/store/dispatches.go:153-182 | asked any number of times from any stored tier, a fresh dispatch is retried at most MaxRetries times, the count rises by one each time, the tier is normalised and follows the run law, the first tier is remembered |
| `Retry.OriginalTierKept` | internal/store/dispatches.go:160-163 | a recorded original tier is never replaced |
| `Retry.DispatchTable.MarkDispatchPendingRetry` | internal/store/dispatches.go:153-182 | updates exactly the named row from its old values; an unknown id changes nothing |
| `PlanningTrace.CandidateOrderUnique` | internal/api/handlers_planning.go:759-781 | there is one sorted candidate list, so the map's iteration order cannot show |
| `PlanningTrace.OffersSomething` | internal/api/handlers_planning.go:811-819 | some option is always offered, so the fallback listing is never reached |
| `PlanningTrace.RankRoundTrip` | internal/api/handlers_planning.go:822-853 | reading a summary "#n title" gives back the rank and the title |
| `PlanningApi.MergeEvent` | internal/api/handlers_planning.go:729-755 | folding one event into a candidate field by field refines the merge |
| `PlanningApi.HasPlanningEventType` | internal/api/handlers_planning.go:589-603 | the backward loop finds whether the cycle has an event of the type |
| `PlanningApi.LatestSelectedItem` | internal/api/handlers_planning.go:605-622 | the id and the title of the last selection of the cycle, the title falling back to the task id |
| `PlanningApi.LatestPlanningQuestions` | internal/api/handlers_planning.go:624-647 | the questions of the last matching event with a payload; none when that payload is malformed |
| `PlanningApi.CountPlanningAnswers` | internal/api/handlers_planning.go:649-663 | the number of matching answers |
| `PlanningApi.HasSummaryForCycle` | internal/api/handlers_planning.go:665-683 | whether a matching summary exists |
| `PlanningApi.LatestSummaryPrompt` | internal/api/handlers_planning.go:685-703 | the last non-blank matching summary, or the default |
| `PlanningApi.LatestPlanningCandidates` | internal/api/handlers_planning.go:705-782 | the one sorted list of the merged candidates |
| `PlanningApi.FormatCandidateOptions` | internal/api/handlers_planning.go:784-820 | the shortlisted candidates, or all when none is |
| `PlanningApi.BuildPlanningPrompt` | internal/api/handlers_planning.go:500-587 | refines the API prompt: phase, signal, cycle, selected item with its title, options, and the question with its recommendation and context or the summary |
| `PlanningCli.HasCeremonyEventType` | cmd/chum/ceremony_mode.go:480-494 | the backward loop finds whether the cycle has an event of the type |
| `PlanningCli.LatestCeremonySelectedItem` | cmd/chum/ceremony_mode.go:496-513 | the id and the title of the last selection of the cycle, the title falling back to the item id |
| `PlanningCli.LatestCeremonyQuestions` | cmd/chum/ceremony_mode.go:515-536 | the questions of the last matching event with a payload |
| `PlanningCli.CountCeremonyAnswers` | cmd/chum/ceremony_mode.go:538-552 | the number of matching answers |
| `PlanningCli.HasCeremonySummary` | cmd/chum/ceremony_mode.go:554-570 | whether a matching summary exists |
| `PlanningCli.LatestCeremonySummaryPrompt` | cmd/chum/ceremony_mode.go:572-591 | the last non-blank matching summary, or the default |
| `PlanningCli.LatestCeremonyCandidates` | cmd/chum/ceremony_mode.go:593-667 | the one sorted list of the merged candidates |
| `PlanningCli.FormatCeremonyCandidateOptions` | cmd/chum/ceremony_mode.go:669-705 | the shortlisted candidates, or all when none is |
| `PlanningCli.InferCeremonyPrompt` | cmd/chum/ceremony_mode.go:397-478 | refines the command-line prompt, with the same parts |
| `PlanningPrompt.BuildersAgree` | cmd/chum/ceremony_mode.go:397-478 | up to fixed wording the two programs return the same prompt, selected item and title included, if and only if the latest cycle was agreed, or has no timeout event and is exhausted or has a selection both read the same |
| `PlanningPrompt.BuildersAgreeButForItem` | internal/api/handlers_planning.go:500-587 | on phase, signal, cycle, options and shown text they agree if and only if the latest cycle has no timeout event or was agreed |
| `PlanningPrompt.BuildersDisagree` | internal/api/handlers_planning.go:525-530 | on one timeout event the API reports a timeout and the command line does not |
| `PlanningPrompt.ItemsAgree` | cmd/chum/ceremony_mode.go:496-513 | both read the same item from a selection if and only if it has no id and no summary, or an id and either a summary or no option id of its own |
| `PlanningPrompt.TitlesDisagree` | internal/api/handlers_planning.go:605-622 | on a selection without a summary whose option is not its task the two prompts differ |
| `PlanningPrompt.ControlEventsInvisible` | internal/api/handlers_planning.go:468-587 | control events anywhere in a trace that has other events change nothing either program reports |
| `PlanningPrompt.OnlyControlEvents` | internal/api/handlers_planning.go:500-587 | a trace of control events only reads like the empty trace exactly while the workflow is running |
| `PlanningPrompt.AnswersAdvance` | internal/api/handlers_planning.go:543-555 | in either program question k is shown when k answers are recorded, the next answer moves to question k + 1, and the last one leaves the phase |
| `PlanningPhases.PhaseExact` | internal/api/handlers_planning.go:500-587 | the phase, signal, options and shown text of both programs for every non-empty trace, from the events themselves: agreed, timed out (API only), exhausted; question k when k of the questions are answered; greenlight when all are, there is a matching summary and no decision event; selecting when nothing is selected and some event proposes a candidate; otherwise processing or completed by the status |
| `PlanningPhases.AlwaysReads` | internal/api/handlers_planning.go:605-647 | every trace has a selection and questions in the sense of that theorem, so it covers all of them |
| `PlanningPhases.DecisionLeavesGreenlight` | cmd/chum/ceremony_mode.go:448-458 | recording a decision leaves the greenlight phase in both programs |
| `PlanningPhases.SelectionLeavesSelecting` | cmd/chum/ceremony_mode.go:459-469 | recording a selection with an id leaves the selecting phase in both programs |
| `PlanningPhases.ItemExact` | internal/api/handlers_planning.go:605-622 | the item of the last selection event as each program reports it, with its fallbacks |
| `PlanningPhases.CandidateIds` | internal/api/handlers_planning.go:705-728 | the candidates are the option ids, or else task ids, of the candidate events of the cycle |
| `PlanningPhases.CandidateFlags` | internal/api/handlers_planning.go:729-755 | a candidate is shortlisted, or recommended, exactly when some event of it says so or, for the former, ranks it |
| `PlanningPhases.CandidateTitle` | internal/api/handlers_planning.go:729-755 | its title is the last one an event of it gives |
| `PlanningPhases.CandidateRank` | internal/api/handlers_planning.go:729-755 | its rank is the last positive one given as metadata |
| `PlanningPhases.CandidateSummaryRank` | internal/api/handlers_planning.go:729-755 | without one it is the first positive one read from a summary, or else what the last summary reads as |
| `PlanningPhases.CandidateShown` | internal/api/handlers_planning.go:757-781 | the list holds exactly the candidates with the rank and flags of their events and their title, or the id where that is blank |
| `PlanningPhases.CandidateOrder` | internal/api/handlers_planning.go:759-781 | candidates are listed by rank, unranked ones last, equal ranks by the first character in which the ids differ |
| `PlanningPhases.OfferedOne` | internal/api/handlers_planning.go:784-820 | the text of one option: id, rank if positive, title, and the recommendation mark |
| `PlanningPhases.OfferedAppend` | internal/api/handlers_planning.go:784-820 | the options are made candidate by candidate, in the order of the list |
| `PlanningPhases.RankedTitle` | internal/api/handlers_planning.go:822-838 | a summary of the form title (rank n) reads as the title |
| `PlanningPhases.MetaIntMeans` | internal/api/handlers_planning.go:855-876 | a rank may be a number or its decimal digits, with or without a sign |
| `JsonExtract.StepScan` | internal/pokemon/identifier.go:322-346 | one character moves the string and depth state, and closes the block exactly at depth zero outside strings |
| `JsonExtract.ScanLoop` | internal/pokemon/identifier.go:308-349 | the scanning loop refines the scanner |
| `JsonExtract.ExtractJsonObject` | internal/pokemon/identifier.go:296-350 | trimming, fence removal and scanning refine the extractor |
| `JsonExtract.BlockShortest` | internal/pokemon/identifier.go:308-349 | the scanner stops at the end of the shortest string-aware balanced text from the first brace, if there is one |
| `JsonExtract.ExtractShortest` | internal/pokemon/identifier.go:296-350 | for every input the result is that block, and empty exactly when there is none |
| `JsonExtract.OpenFence` | internal/pokemon/identifier.go:296-306 | text that does not start with a fence, or has no fence behind its fourth character, is searched as it is, without the white space around it |
| `JsonExtract.ClosedFence` | internal/pokemon/identifier.go:298-306 | otherwise the trimmed text between the first and the last fence is searched, without its first line if it has more than one |
| `JsonExtract.ExtractUndoesPrinting` | internal/pokemon/identifier.go:296-350 | from unfenced brace-free text, any printed JSON object (sections 2 to 7 of RFC 8259) and any rest, exactly the object |
| `JsonExtract.ExtractFromFence` | internal/pokemon/identifier.go:298-306 | the same inside a fence with an info string, with any text behind it in which no later fence starts |
| `JsonExtract.UntaggedFence` | internal/pokemon/identifier.go:302-304 | without an info string the object is found when the first line break of the trimmed body comes before it or there is none; otherwise the scan starts behind that line break |
| `JsonExtract.UntaggedFenceExact` | internal/pokemon/identifier.go:298-306 | an object of which no second copy follows is found if and only if the first line break of the trimmed body comes before it or there is none |
| `JsonExtract.NoSecondCopy` | internal/pokemon/identifier.go:308-349 | between texts without opening braces an object has no second copy |
| `JsonExtract.UntaggedFenceIff` | internal/pokemon/identifier.go:298-306 | so the condition is exact whenever no opening brace follows the object |
| `JsonExtract.UntaggedFenceLosesObject` | internal/pokemon/identifier.go:302-304 | a two-line object in an untagged fence is lost |
| `TierLists.QuotedRender` | cmd/chum/config_quickcmd.go:237-254 | reading a rendered list of non-blank quote-free names returns the names |
| `TierLists.RenderInjective` | cmd/chum/config_quickcmd.go:254-254 | different lists render to different texts |
| `TierLists.TrimTierIdempotentIff` | cmd/chum/config_quickcmd.go:231-255 | trimming a list twice equals trimming it once exactly when no kept entry is blank beside another |
| `TierLists.BlankEntryChanges` | cmd/chum/config_quickcmd.go:237-254 | a list with a blank entry between two others is rewritten once more by the second pass |
| `TierLists.TrimTierValues` | cmd/chum/config_quickcmd.go:231-255 | the filtering loop refines the trimming of a list |
| `TierLists.NamesExact` | cmd/chum/config_quickcmd.go:242-252 | exactly the trimmed entries that do not look like Anthropic models are kept |
| `TierLists.TrimTierKeeps` | cmd/chum/config_quickcmd.go:231-255 | reading the trimmed list back gives the kept entries, in order |
| `TierLists.FixedIsClean` | cmd/chum/config_quickcmd.go:231-255 | a list that trimming leaves alone has no Anthropic entry |
| `TierLists.LooksAnthropicMeans` | cmd/chum/config_quickcmd.go:271-274 | a value looks like Anthropic exactly when claude or anthropic stands somewhere in it, in any case |
| `ConfigRewrite.MarkSkipped` | cmd/chum/config_quickcmd.go:121-154 | the block loops mark exactly the lines that stand in removable tables |
| `ConfigRewrite.ShouldRemoveTable` | cmd/chum/config_quickcmd.go:205-229 | true exactly for the Claude CLI table and for providers with an Anthropic name or model |
| `ConfigRewrite.RewriteInTable` | cmd/chum/config_quickcmd.go:168-181 | trims tier lists in [tiers], replaces Anthropic models in [chief], leaves every other line |
| `ConfigRewrite.ReplaceChiefModel` | cmd/chum/config_quickcmd.go:257-269 | writes the fallback, or the default for a blank one, between the quotes of an Anthropic model line and re-reads the line |
| `ConfigRewrite.ReplacedReads` | cmd/chum/config_quickcmd.go:257-269 | the re-read line has the text the source writes, split at the first quote of the replacement as the pattern splits it |
| `ConfigRewrite.RewriteLines` | cmd/chum/config_quickcmd.go:156-184 | the line loop with its skip flags and current table keeps and rewrites exactly the right lines, and reports a rewrite exactly when a kept line changed |
| `ConfigRewrite.CollapseBlankRuns` | cmd/chum/config_quickcmd.go:276-294 | the counting loop refines the collapse to at most two blank lines |
| `ConfigRewrite.DisableAnthropic` | cmd/chum/config_quickcmd.go:112-195 | refines the rewriting of the whole content, with its change flag; the text ends in a newline if it did, and blank content is returned as it is |
| `ConfigRewrite.CollapseTwice` | cmd/chum/config_quickcmd.go:276-294 | collapsing again changes nothing |
| `ConfigRewrite.CollapseKeepsOrder` | cmd/chum/config_quickcmd.go:276-294 | collapsing drops blank lines only and keeps the order |
| `ConfigRewrite.KeptIsByTable` | cmd/chum/config_quickcmd.go:112-184 | the line loop computes what rewriting whole tables one by one gives |
| `ConfigRewrite.TouchedIffDifferent` | cmd/chum/config_quickcmd.go:117-182 | the change flag is up exactly when the lines before collapsing differ from the input |
| `ConfigRewrite.FlagExact` | cmd/chum/config_quickcmd.go:112-195 | the change flag tells whether the text changed if and only if the content is blank, something was removed or rewritten, or collapsing alone leaves the text; an up flag is always right |
| `ConfigRewrite.TouchedChangesText` | cmd/chum/config_quickcmd.go:156-195 | whatever is removed or rewritten shows in the returned text |
| `ConfigRewrite.CollapseLeaves` | cmd/chum/config_quickcmd.go:186-192 | collapsing leaves the text alone if and only if there are no three blank lines in a row, or only the empty one behind the final newline is dropped and put back |
| `ConfigRewrite.FlagMissesCollapse` | cmd/chum/config_quickcmd.go:186-194 | three blank lines become two with the change flag down |
| `ConfigRewrite.NoRemovableTableSurvives` | cmd/chum/config_quickcmd.go:205-229 | no table of the result is removable, which `RemovableIsDoomed` spells out |
| `ConfigRewrite.RemovableIsDoomed` | cmd/chum/config_quickcmd.go:205-229 | a table goes exactly when its name is that of the Claude CLI, or it is a provider with claude or anthropic in the rest of its name or in the value of one of its model lines |
| `ConfigRewrite.ProvidersGone` | cmd/chum/config_quickcmd.go:112-229 | the returned text has no Claude CLI table, and under no provider header a name or model line that mentions claude or anthropic |
| `ConfigRewrite.OthersStay` | cmd/chum/config_quickcmd.go:112-187 | every non-blank line of every other table, and before the first one, is in the returned text, unchanged outside [tiers] and [chief] |
| `ConfigRewrite.RewriteExact` | cmd/chum/config_quickcmd.go:168-181 | a model line of [chief] that mentions claude or anthropic gets the fallback, or gpt-5.3-codex for a blank one, between its quotes; tier lists of [tiers] are trimmed; no other line changes |
| `ConfigRewrite.AnthropicGone` | cmd/chum/config_quickcmd.go:231-269 | no Anthropic entry is left in [tiers] with stable lists, and no Anthropic model in [chief] but what is read back of a fallback that is one |
| `ConfigRewrite.SecondPass` | cmd/chum/config_quickcmd.go:112-187 | a second pass removes no table and collapses nothing, and rewrites no line if and only if the content is steady |
| `ConfigRewrite.DisableTwice` | cmd/chum/config_quickcmd.go:112-195 | the whole operation, final newline included, is idempotent and then reports no change, if and only if the tier lists are stable and no [chief] model is replaced by a fallback that reads back as an Anthropic model |
| `ConfigRewrite.QuotedFallbackChanges` | cmd/chum/config_quickcmd.go:257-269 | with a fallback that starts with claude and a quote, the second pass replaces the model again |
| `ConfigRewrite.OutsideKept` | cmd/chum/config_quickcmd.go:156-187 | the lines outside removed, [tiers] and [chief] tables are kept as they are and in order, blank ones included, but for those beyond two in a row |
| `Mcts.MctsStore.EnsureGraph` | internal/store/mcts.go:381-407 | inserts the two nodes and the edge, keeping the kind of existing nodes |
| `Mcts.MctsStore.CountRow` | internal/store/mcts.go:343-357 | inserts or increments exactly the aggregate of the row's key |
| `Mcts.NormalizeRow` | internal/store/mcts.go:280-308 | the fields as stored: trimmed, with defaults for species, outcome and metadata, costs and durations not negative |
| `Mcts.MctsStore.InsertAndCount` | internal/store/mcts.go:315-364 | the transaction leaves the row and its count, or nothing, depending on whether all seven statements succeed |
| `Mcts.MctsStore.RecordRollout` | internal/store/mcts.go:279-367 | logs the normalised row and counts it, both or neither, at whichever statement the store fails; exact errors and row id |
| `Mcts.MctsStore.UpsertEdgeStat` | internal/store/mcts.go:148-216 | replaces the aggregate by the clamped values, or changes nothing; exact errors |
| `Mcts.RolloutExact` | internal/store/mcts.go:279-367 | a successful rollout is logged under its trimmed parent and action and its species, * for a blank one, with the defaults and lower bounds of the other fields, and leaves the aggregate of every other key alone |
| `Mcts.CountedExact` | internal/store/mcts.go:337-357 | the aggregate of exactly that edge and species gains one visit, one win for a positive reward or the outcome success or started in any case, the amounts, and the outcome; the graph gains the edge and its two nodes |
| `Mcts.UpsertExact` | internal/store/mcts.go:148-216 | a replacement writes visits not below 0, wins between 0 and visits, and the other values within their bounds, under its own key only, and logs nothing |
| `Mcts.FailureExact` | internal/store/mcts.go:148-364 | a call without parent or action, or of which a statement fails, changes nothing |
| `Mcts.AggregateFollowsLog` | internal/store/mcts.go:279-367 | through any interleaved and failing calls that do not replace it, an aggregate advances by exactly the rows logged under its key |
| `Mcts.AggregatesAgreeWithLog` | internal/store/mcts.go:279-367 | with rollouts only, visits, wins, reward, cost and duration are the count and sums of the key's rows, the outcome is the last one's, and there is no aggregate without rows |
| `Mcts.ReplacementRestartsFold` | internal/store/mcts.go:148-216 | after a replacement the aggregate is the clamped value plus the rows logged since |
| `Mcts.EveryRunSound` | internal/store/mcts.go:381-407 | in every run 0 <= wins <= visits, every row has its aggregate, every aggregate its nodes and edge, and there is no edge without an aggregate and no node without an edge |
| `Mcts.LogIsExact` | internal/store/mcts.go:327-335 | the log is the stored rows of the successful calls, in order |
| `Mcts.NothingRewritten` | internal/store/mcts.go:384-397 | a node keeps its first kind and no logged row is lost or altered |
| `Dispatching.Dispatcher.WriteToTempFile` | internal/dispatch/dispatch.go:58-71 | the file exists afterwards exactly when it was written |
| `Dispatching.Dispatcher.CommandArgs` | internal/dispatch/dispatch.go:75-99 | all three parameter files or none |
| `Dispatching.Dispatcher.CreateFiles` | internal/dispatch/dispatch.go:174-197 | all five files or none |
| `Dispatching.Dispatcher.Dispatch` | internal/dispatch/dispatch.go:167-241 | a tracked running process with its five files, or nothing left behind, on every failure path; from any system with a fresh pid this is where the steps of the call lead |
| `Dispatching.CallLeads` | internal/dispatch/dispatch.go:58-241 | every way a call can end is a possible run of its steps and leads to the same system as the call on its own |
| `Dispatching.Dispatcher.MonitorDone` | internal/dispatch/dispatch.go:254-291 | refines the step that records the exit and removes the prompt and parameter files |
| `Dispatching.Dispatcher.KillHandle` | internal/dispatch/dispatch.go:314-323 | refines the step that marks a running process as exited |
| `Dispatching.Dispatcher.CleanupProcess` | internal/dispatch/dispatch.go:370-390 | refines the step that removes an entry and all its files |
| `Dispatching.StepKeepsOwned` | internal/dispatch/dispatch.go:58-390 | every step of every call keeps each existing file owned exactly once and each owned file existing |
| `Dispatching.EveryRunOwned` | internal/dispatch/dispatch.go:167-390 | so does every interleaving from the start |
| `Dispatching.QuietFiles` | internal/dispatch/dispatch.go:167-390 | with no Dispatch under way the files are exactly those of tracked entries, and none once all are cleaned up |
| `Dispatching.SettledFiles` | internal/dispatch/dispatch.go:244-291 | when the monitors are done too, only the outputs are left and every process has exited |
| `Dispatching.NeverRevives` | internal/dispatch/dispatch.go:244-326 | while it stays tracked, an exited process never runs again |
| `Dispatching.ExitRecorded` | internal/dispatch/dispatch.go:254-323 | over any run, as long as it stays tracked, a process shows the exit code its monitor saw last; without one, -1 and exited if it was running and was killed, and otherwise what it showed before; other pids never touch it |
| `Dispatching.ReusedPidLosesFiles` | internal/dispatch/dispatch.go:224-235 | registering a process keeps ownership exactly when its pid is not tracked |

## Left out

- SQLite, JSON columns, schema and errors of the graph tables: tables are maps and sets, and the reads
  and writes of `internal/graph` succeed.  Store failures are modelled where a property is about them.
- Concurrent calls on the graph: `AddEdge` checks and inserts in two statements, so its calls run one
  at a time here.
- Timestamps, `updated_at`, free-text columns beyond their names, and the wording of errors.
- Case folding beyond ASCII letters in `ToLower` and `EqualFold`.
- `Dag.DAG.UpdateTask`: field maps whose keys name the same column twice, where Go's result depends on
  the iteration order of the map.  The same holds for the next three.
- `TableLaws.UpdateSets`: the same case.
- `TableLaws.UpdateKeeps`: the same case.
- `TableLaws.UpdateSucceedsIff`: the same case.
- `Genomes.GenomeStore.EvolveGenomeWithCost`: assumes that the row is read.  The source gives up when
  `last_evolved` does not parse in one fixed layout (internal/store/genomes.go:149-153), which depends on
  how the driver returns such columns.
- `Genomes.GenomeStore.SpreadPhages`: store failures in the middle of it; `FittestProvider`, the
  fitness formulas and `GetGenomeForPrompt` are not modelled.
- `RateLimit.RateLimiter.PickAndReserve`: the error texts of its refusals; `WeeklyUsagePct` and the
  headroom warning are not modelled.
- `Retry.DelayRange`: over reals, so without overflow to infinity or NaN and their replacement.
- `PlanningApi.BuildPlanningPrompt`: the fixed wording and recommendations of the phases other than
  questioning; the same for `PlanningCli.InferCeremonyPrompt`.
- `PlanningCli.InferCeremonyPrompt`: the 500-event limit on loading a trace, and a store error.
- `ConfigRewrite.DisableAnthropic`: works on lines already classified by the source's patterns.
- `ConfigRewrite.DisableTwice`: leaves out the one case that a fallback with a line break is written into a
  `[chief]` table, which would put lines of the caller's own into the file; so do the next five.
- `ConfigRewrite.SecondPass`: the same case.
- `ConfigRewrite.NoRemovableTableSurvives`: the same case.
- `ConfigRewrite.ProvidersGone`: the same case.
- `ConfigRewrite.AnthropicGone`: the same case.
- `ConfigRewrite.OutsideKept`: the same case.
- `setTickIntervalInConfigContent`: one assignment in one table, nothing to relate it to.
- `Dispatching.Dispatcher.Dispatch`: the contents of the files, the command line, and removals that fail.
- Signals and the five-second wait of `KillProcess`.
- `ListMCTSEdgeStats` and its limit: a plain sorted query.
- Temporal workflows, HTTP handlers, Matrix, Docker, git, pricing and vision clients, configuration loading.
