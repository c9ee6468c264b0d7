# Verified model of the StackLens analysis core

This project states and proves what the hard parts of StackLens promise: the durable analysis
protocol, budgeted repository acquisition, the rule pipeline with its report contract and scorer,
the static configuration evaluator, the script delegation graph, and the closures, pagination and
ordering that advisories and versions rely on. `dafny verify dfyconfig.toml` checks everything.

Each component is written twice. A specification (`...Model`, `...Values`, `ReportContract`,
`OsvPagination`) gives its meaning as functions on values. Beside it stands the program in the
source's own form: classes whose fields are updated in place, loops, recursion with shared sets; every
method is proved against the specification. The theorems (`...Safety`, `...Refinement`, `...Progress`,
`...Report`, `...Scores`) are about the specification, for all inputs, and the top-level methods carry
them back to the program. Where a theorem would otherwise speak through the specification's own
functions, an independent statement stands beside it (`...Provenance`, `...Coverage`, `...Selection`,
`...Delegation`, `...Reach`, `...Grammar`, `...Spelling`, `...Precision`, `...Parts`, `...Plugins`,
`...Views`, `...Meaning`): on the tree and the replies, on the words of a command, on the expression, on what the
rules answered, on the facts.

## The components

**Acquisition** (`AcquisitionModel`, `AcquisitionSafety`, `AcquisitionRefinement`,
`AcquisitionOrder`, `AcquisitionProvenance`, `AcquisitionCoverage`, `AcquisitionSelection`,
`GitHubAcquisition`, `RepositoryPaths`). Triage of the repository tree, the batching scheduler with
byte reservations, request budget, file cap, per-SHA cache and memo, and the selector that moves,
inserts or evicts candidates in mid-run. The provider is an arbitrary function of SHA and request
number, the selector an arbitrary function of the files acquired and of how far the run has come.

**Job protocol** (`JobProtocolModel`, `JobProtocolSafety`, `JobProtocolProgress`,
`AnalysisRepositories`, `JobProcesses`). Three tables, a keyed job queue and four kinds of process as
a step system; each SQL statement or transaction is one guarded step. The queue is Graphile Worker as
its callers rely on it: one job per key, the same id on retry, an attempts counter, removal on normal
return. One execution per job id is live at a time, as `apps/worker/src/recovery.ts` demands of the
operator; analysis ids are random and not reused; a worker dies only on an attempt that is not its
last. The programs run against a cluster in which everyone else may take any steps at every await.

**Script graph** (`ShellWords`, `ShellGrammar`, `ScriptGraphModel`, `ScriptGraphSafety`,
`ScriptDelegation`, `ScriptReach`, `ScriptTracer`). The shell tokenizer and the memoised,
cycle-detecting, bounded depth-first walk. Glob matching is an arbitrary predicate. What a command asks
for is stated on its words, and the trace is judged by that.

**Static evaluator** (`StaticValues`, `StaticEvaluatorModel`, `StaticEvaluatorSafety`,
`StaticInspection`, `StaticPrecision`, `StaticParts`, `StaticPlugins`, `StaticEvaluator`). An abstract
interpreter with unresolved slots, fields and open objects. A run is any consistent assignment of values to bindings and imports together with arbitrary
behaviour of everything the evaluator does not look into. What the evaluator takes for granted is
recorded as it goes: that it knows the two sides of a `mergeConfig` call, and that a resolved `__proto__`
of a literal is a field. Soundness asks of the run that these hold, and for each kind the exact
condition is proved.

**Report** (`ReportContract`, `RulePipelineModel`, `RulePipelineSafety`, `RulePipelineViews`,
`RulePipeline`, `StackHealthModel`, `StackHealthSafety`, `StackHealthReport`, `StackHealthScores`,
`StackHealthMeaning`, `StackHealthClash`, `StackHealthScorer`, `WorkspaceScoping`, `WorkspaceViews`).
Rules are arbitrary functions that may throw or emit anything. The main results are equivalences: the independent checker accepts the report exactly when
the reference kinds the pipeline does not check hold and no contribution names clash.

**Closures, paging, ordering** (`AdvisoryGroups`, `AliasGroup`, `OsvPagination`, `OsvAdapter`,
`SemanticVersions`, `SemanticSpelling`, `SemanticPrecedence`). `Text` holds string order, sorting and
list helpers.

## Where the code falls short of its intent

- The raw list of oversized paths can come in another order than one-by-one acquisition would give;
  reports sort it, so nobody sees the difference (`AcquisitionOrder.RawOrderCanDiffer`); exactly when is
  `AcquisitionOrder.OrderAgreesExactlyWithoutOvertaking`.
- Merging drops an array that the evaluator does not know when a scalar or object overrides it, and a
  known one when the override spreads something unknown (`StaticValues.UnresolvedArrayIsLost`,
  `StaticValues.KnownArrayIsLostUnderAnOpenOverride`); the exact condition is
  `StaticValues.MergeIsSoundExactlyWhenGuarded`.
- `__proto__: v` in a literal is described as a field; exactly when that is harmless is
  `StaticEvaluatorSafety.PrototypeFieldIsSoundExactly`.
- A `mergeConfig` call that spreads its first argument merges other values than the evaluator thinks
  (`StaticEvaluatorSafety.SpreadMergeIsUnsound`); when the spread gives one value it is judged like any
  other merge, and otherwise it is harmless in every run exactly under the condition of
  `StaticValues.ShiftedMergeIsSoundExactlyWhenBlank`.
- A readiness check whose fact id is `dependencies-band`, `security-band` or `overall-ceiling` makes the
  report unacceptable when that contribution is present (`StackHealthClash.ClashingReportIsRefused`); once
  the references hold, nothing else does (`StackHealthReport.ReportIsAcceptedExactlyWithoutClash`).
- A package's own directory, `.` inside, does not come back as `.` from outside
  (`WorkspaceScoping.PathOutThenInIsIdentityExactly`).

## Model

| member | source | states |
|---|---|---|
| `RepositoryPaths.SourcePathsCount` | packages/data-sources/src/github/selection.ts:44-112 | A canonical, non-ignored path with a supported source ending is an initially supported path, is not refused as unsupported, and counts as usage evidence: the predicates on which the coverage verdict rests fit together |
| `AcquisitionModel.RoundAdvances` | packages/data-sources/src/github/adapter.ts:721-812 | Every round consumes at least one candidate and never exceeds the file cap, whatever the selector returns; this is why the loop terminates |
| `AcquisitionSafety.FormBatchKeeps` | packages/data-sources/src/github/adapter.ts:723-752 | Forming a batch keeps the accounting invariant: budgets, one fate per consumed candidate, unique queued paths, and pending requests within the request budget |
| `AcquisitionSafety.RetainBatchKeeps` | packages/data-sources/src/github/adapter.ts:582-778 | Retaining a batch keeps the accounting invariant, for every mixture of cached blobs, memoised outcomes, replies and errors |
| `AcquisitionSafety.SelectKeeps` | packages/data-sources/src/github/adapter.ts:779-811 | Moving, inserting and evicting candidates keeps the invariant; evicted or refused paths are reported as over budget |
| `AcquisitionSafety.RunKeeps` | packages/data-sources/src/github/adapter.ts:720-812 | The invariant holds at the end of every run and every retained candidate has been consumed |
| `AcquisitionSafety.AcquisitionIsSafe` | packages/data-sources/src/github/adapter.ts:557-812 | For every provider and selector: total bytes are the sum over acquired files and within budget, requests and candidates within their caps, acquired paths distinct, every candidate meets exactly one fate |
| `AcquisitionSafety.RequestsAreRealAndRepliesPresent` | packages/data-sources/src/github/request.ts:101-112 | The client limit error never arises for blobs, and for every batch member the blob is cached, its outcome memoised or its reply present, so "Missing GitHub blob response" cannot be raised |
| `AcquisitionSafety.EveryRoundIsAnswerable` | packages/data-sources/src/github/adapter.ts:720-778 | The same for every round that an acquisition reaches, from its tree, for any selector, even one that answers differently each time |
| `AcquisitionSafety.CompleteMeansComplete` | packages/data-sources/src/github/adapter.ts:884-899 | When coverage is reported complete, every non-symlink blob of the tree with a supported source path is among the acquired files, although the selector may reorder, insert and evict |
| `AcquisitionRefinement.ReservationSuffices` | packages/data-sources/src/github/adapter.ts:582-718 | With room for its reservation a candidate meets the same fate from the memo, a shared reply or a request of its own, and the retention-time byte check never fires |
| `AcquisitionRefinement.OversizedEarlyOrLate` | packages/data-sources/src/github/adapter.ts:739-741 | A candidate refused for its declared size may be refused before or after others without changing the outcome lists, up to the order of the oversized paths |
| `AcquisitionRefinement.FormBatchRefines` | packages/data-sources/src/github/adapter.ts:726-752 | Retaining the formed batch after the rejections made while forming it equals settling the consumed candidates one by one; the order of the oversized paths is the subject of AcquisitionOrder.FormBatchInOrder |
| `AcquisitionRefinement.RetainBatchRefines` | packages/data-sources/src/github/adapter.ts:775-778 | Retaining a batch with shared replies gives exactly the ledger of settling its members one by one without a cache |
| `AcquisitionRefinement.BatchedRefinesOneByOne` | packages/data-sources/src/github/adapter.ts:720-812 | Batched, reserving, SHA-deduplicated acquisition gives the manifest, files, byte total and outcome lists of fetching one path at a time without a cache (no selector, steady answers, honest sizes, enough requests); when the oversized paths also come in the same order is AcquisitionOrder.OrderAgreesExactlyWithoutOvertaking |
| `AcquisitionRefinement.SampledOversizedAgree` | packages/data-sources/src/github/result.ts:84-89 | The oversized paths as reports sample them (sorted) are identical for the batched and the one-by-one form |
| `AcquisitionOrder.FormBatchInOrder` | packages/data-sources/src/github/adapter.ts:726-752 | While no candidate of too large a declared size is turned away after a late one (undeclared, too large by its answer) was accepted, forming and retaining a batch equals settling one by one, order included |
| `AcquisitionOrder.OrderAgreesExactlyWithoutOvertaking` | packages/data-sources/src/github/adapter.ts:720-812 | For distinct tree paths the two forms report exactly the same, order of the oversized paths included, if and only if the acquisition throws or no round accepts a late candidate before turning away one of too large a declared size |
| `AcquisitionOrder.DeclaredSizesKeepTheOrder` | packages/data-sources/src/github/adapter.ts:720-812 | In particular the reports are equal when every size is declared, or no undeclared blob is too large |
| `AcquisitionOrder.RawOrderCanDiffer` | packages/data-sources/src/github/adapter.ts:739-741 | A tree of two files, triaged from the start, on which the reports differ |
| `AcquisitionProvenance.AcquisitionIsGenuine` | packages/data-sources/src/github/adapter.ts:582-718 | Over tree and provider alone: each acquired file holds a blob of the tree exactly as a request numbered within the run delivered it, and each oversized, over-budget, binary, LFS and failed path has a reply, or a budget reached, that explains it; a selector explains a path over budget only once the file cap was reached |
| `AcquisitionCoverage.VerdictIsExact` | packages/data-sources/src/github/adapter.ts:884-899 | Coverage is complete if and only if the tree is not truncated, none of its entries is unsafe, a submodule, unsupported source, ignored or a link where usage evidence is looked for, the eligible ones fit under the file cap, and no path that counts as usage evidence is among the skipped ones |
| `AcquisitionSelection.SelectorIsObeyed` | packages/data-sources/src/github/adapter.ts:779-811 | After every round the first 128 paths of the selector's answer come next, in its order; an offered one that does not was dealt with before, or is reported as over budget with the file cap reached and no source candidate left to give way |
| `AcquisitionSelection.OffersTheSelectable` | packages/data-sources/src/github/adapter.ts:535-542 | The selector is offered exactly the regular blobs of the tree with a canonical, non-ignored path and a configuration ending |
| `AcquisitionSelection.CapKeepsThePreferred` | packages/data-sources/src/github/adapter.ts:532-533 | The kept candidates are as many as the cap allows, stand in order of preference (root manifest, manifests, lockfiles, configuration, source, then path), and none of those left out is preferred to one that is kept |
| `GitHubAcquisition.RequestClient.GetJson` | packages/data-sources/src/github/request.ts:101-112 | Refuses at the limit, otherwise counts the request and answers |
| `GitHubAcquisition.Triage` | packages/data-sources/src/github/adapter.ts:398-451 | The classification loop fills the candidate list and the five gap lists exactly as each entry is classified |
| `GitHubAcquisition.Acquisition.RetainEntry` | packages/data-sources/src/github/adapter.ts:582-718 | Updating lists, caches, memo and totals in place equals the effect of retaining one candidate, which AcquisitionProvenance.AcquisitionIsGenuine ties to the tree and the replies; a missing reply is the only throw |
| `GitHubAcquisition.Acquisition.FormBatch` | packages/data-sources/src/github/adapter.ts:726-752 | The reservation loop consumes and reserves exactly as specified |
| `GitHubAcquisition.Acquisition.FetchBlobs` | packages/data-sources/src/github/adapter.ts:755-773 | One counted request per distinct pending SHA, replies kept by SHA |
| `GitHubAcquisition.Acquisition.InsertSelected` | packages/data-sources/src/github/adapter.ts:784-810 | Moving, inserting and evicting on the live list equals the specified selection |
| `GitHubAcquisition.Acquisition.DoRound` | packages/data-sources/src/github/adapter.ts:721-812 | One round of the loop is one specified round |
| `GitHubAcquisition.Acquisition.Acquire` | packages/data-sources/src/github/adapter.ts:720-812 | The whole loop terminates and equals the specified run |
| `GitHubAcquisition.CoverageComplete` | packages/data-sources/src/github/adapter.ts:887-899 | The coverage verdict is the specified one |
| `GitHubAcquisition.Fetch` | packages/data-sources/src/github/adapter.ts:396-899 | Every returned file and the manifest is a blob of the tree under its own path and SHA, with the content and size that a counted request brought for that SHA, within the file limit and no LFS pointer; every skipped path is listed for its reason; the verdict is complete exactly when nothing that matters is missing, and then every source of the tree is there; budgets hold; no path twice; files come in path order |
| `JobProtocolSafety.StepKeeps` | packages/persistence/src/repository.ts:153-555 | Every enabled step of API processes, dispatchers, workers, crashes and sweeps keeps the invariant |
| `JobProtocolSafety.RunKeeps` | packages/persistence/src/repository.ts:153-555 | Every interleaving of steps keeps the invariant |
| `JobProtocolSafety.ReachableStoreIsConsistent` | packages/persistence/src/repository.ts:418-555 | In every reachable state: running exactly when a job is active, a report exactly when completed (with or without limitations), no report or delivery without its analysis |
| `JobProtocolSafety.StepIsFinal` | packages/persistence/src/repository.ts:153-173 | A finished analysis and its report are never changed by a step; only a sweep deletes, and only expired, unclaimed, finished rows |
| `JobProtocolSafety.RunIsFinal` | packages/persistence/src/repository.ts:478-555 | Over any run: terminal rows are absorbing until deletion, a report is written at most once, deletion removes everything of the analysis and ids do not come back |
| `JobProtocolSafety.StaleHoldersChangeNothing` | packages/persistence/src/repository.ts:346-555 | Statements by a job that is not the active one, or under a lease token not held, change nothing; a claim succeeds exactly on a claimable row |
| `JobProtocolSafety.RetakenLeaseIsLost` | packages/persistence/src/repository.ts:278-344 | When another claim takes a delivery over, the lease held before is lost |
| `JobProtocolSafety.LateDispatchersChangeNothing` | packages/repository-jobs/src/delivery.ts:68-94 | From then on, whatever steps follow under other tokens, the late success or failure of the old dispatcher changes nothing in the store |
| `JobProtocolSafety.DeliveriesWaitTheirTime` | packages/persistence/src/repository.ts:296-320 | A live lease is exclusive and a delivery given back is left alone until it is available: whatever steps follow, as long as claims come before that time and the holder does not answer, the delivery stays exactly as it is or goes with its row |
| `JobProtocolSafety.MismatchIsUnreachable` | apps/worker/src/task.ts:66-79 | In every reachable state a job carries the input of its row, so no attempt ever records an input mismatch |
| `JobProtocolSafety.NoSubmissionIsLost` | packages/persistence/src/repository.ts:278-344 | In every reachable state an unfinished analysis is queued and claimable by every delivery claim from some time on, or has one live job under its key whose id is the active one while running |
| `JobProtocolSafety.AttemptsEndCleanly` | apps/worker/src/task.ts:85-220 | An attempt that threw was not the last and left the row queued; one that returned left it terminal (or the row is gone) |
| `JobProtocolProgress.CanFinish` | apps/worker/src/task.ts:51-221 | From every state that satisfies the invariant an unfinished analysis can still reach a terminal status without a crash, lost dispatch or deletion |
| `JobProtocolProgress.NoReachableStateIsStuck` | apps/worker/src/task.ts:51-221 | The same for every reachable state: no interleaving strands a row |
| `JobProtocolProgress.ReaderNeverMissesAReport` | apps/api/src/repository-analysis.ts:106-139 | Whatever happens between the three reads, the answer is the row as it was read first, with its one report exactly when it is completed, only to its owner; nothing is answered only for a deleted or refused row |
| `AnalysisRepositories.TakeOldest` | packages/persistence/src/repository.ts:160-166 | ORDER BY time, id with LIMIT: the earliest members of the pool, as many as allowed |
| `AnalysisRepositories.AnalysisRepository.PurgeExpiredTerminalAnalyses` | packages/persistence/src/repository.ts:153-173 | Refuses limits outside 1 to 1000; otherwise deletes the oldest expired, unlocked, unclaimed terminal rows with their reports and deliveries |
| `AnalysisRepositories.AnalysisRepository.CreateQueuedRepositoryAnalysis` | packages/persistence/src/repository.ts:215-237 | Inserts if absent and fails when the id is bound to other input |
| `AnalysisRepositories.AnalysisRepository.CreateQueuedRepositoryAnalysisWithDelivery` | packages/persistence/src/repository.ts:239-276 | The same in one transaction with a pending delivery for a claimable row; a mismatch changes nothing |
| `AnalysisRepositories.AnalysisRepository.ClaimPendingRepositoryAnalysisDeliveries` | packages/persistence/src/repository.ts:278-344 | Backfills missing deliveries, leases the earliest due, unlocked candidates up to the limit and returns exactly them |
| `AnalysisRepositories.AnalysisRepository.MarkRepositoryAnalysisDeliveryDelivered` | packages/persistence/src/repository.ts:346-368 | Delivered only for the holder of the lease |
| `AnalysisRepositories.AnalysisRepository.RetryRepositoryAnalysisDelivery` | packages/persistence/src/repository.ts:370-391 | Pending again only for the holder of the lease |
| `AnalysisRepositories.AnalysisRepository.FindAnalysis` | packages/persistence/src/repository.ts:393-401 | The row, if there is one |
| `AnalysisRepositories.AnalysisRepository.FindReport` | packages/persistence/src/repository.ts:403-416 | The report, if there is one |
| `AnalysisRepositories.AnalysisRepository.ClaimForExecution` | packages/persistence/src/repository.ts:418-440 | Claims a queued row or one already running under the same job |
| `AnalysisRepositories.AnalysisRepository.UpdateProgress` | packages/persistence/src/repository.ts:442-457 | Updates the stage only while running under this job |
| `AnalysisRepositories.AnalysisRepository.MarkRetryPending` | packages/persistence/src/repository.ts:459-476 | Requeues only a non-terminal row held by this job |
| `AnalysisRepositories.AnalysisRepository.Complete` | packages/persistence/src/repository.ts:478-534 | Row and report in one transaction, only for the holder of a non-terminal row |
| `AnalysisRepositories.AnalysisRepository.Fail` | packages/persistence/src/repository.ts:536-555 | Fails a non-terminal row that is unclaimed or held by this job |
| `JobProcesses.ExecuteRepositoryAnalysisJob` | apps/worker/src/task.ts:51-198 | With arbitrary steps of everyone else at every await: an unfinished analysis ends with the report the analyzer answered and the status its limitations call for, or with the failure that the abort signal, the missing connection, the declined or raised error calls for, queued again exactly when that may help and an attempt is left; a finished one stays as it is |
| `JobProcesses.RunAttempt` | apps/worker/src/task.ts:56-98 | The branches after the read and the claim are exactly the protocol's |
| `JobProcesses.WorkAndSettle` | apps/worker/src/task.ts:85-198 | The try block, its catch and what follows leave the row as the run's answer and the abort signal call for |
| `JobProcesses.CatchError` | apps/worker/src/task.ts:128-176 | Lost connection fails at once with its own summary; interruptions and crashes requeue with theirs and throw, except on the last attempt |
| `JobProcesses.SettleAnswer` | apps/worker/src/task.ts:178-219 | An answered report is stored and the row completed, with limitations exactly when the report has some or partial failures; a declined run is queued again with its summary when retryable and an attempt is left, otherwise failed with it |
| `JobProcesses.CreateRepositoryAnalysisJob` | packages/repository-jobs/src/enqueue.ts:29-52 | Accepted exactly when the id is new or bound to the same input; an accepted submission is stored as given and can always finish; a refused one changes nothing |
| `JobProcesses.ReadRepositoryAnalysis` | apps/api/src/repository-analysis.ts:106-139 | With arbitrary steps between its reads: the answer is the row and its report, present exactly when completed, only to the owner; nothing is answered only for a missing, deleted or refused row |
| `JobProcesses.BackOffDoublesUpToAMinute` | packages/repository-jobs/src/delivery.ts:27-33 | The back-off starts at a second, doubles per attempt and stays at a minute from the seventh attempt |
| `JobProcesses.DispatchDelivery` | packages/repository-jobs/src/delivery.ts:68-94 | Exactly one queue call and one settlement among everybody else's steps: marked delivered after the queue confirmed, when the job exists or the analysis is finished; otherwise given back with the back-off |
| `JobProcesses.EnqueueDispatch` | packages/repository-jobs/src/enqueue.ts:66-80 | At most one job per key: an existing job is kept, otherwise one is added with a new number; a refusal changes nothing |
| `JobProcesses.ClaimBatch` | packages/repository-jobs/src/delivery.ts:46-58 | Leases the at most 25 earliest due deliveries for a minute, and returns exactly those, each held under the token |
| `JobProcesses.DeliveryPump.TimerFires` | packages/repository-jobs/src/delivery.ts:96-131 | A firing timer starts exactly one dispatch when none is in flight |
| `JobProcesses.DeliveryPump.DispatchSettles` | packages/repository-jobs/src/delivery.ts:96-131 | A settled dispatch re-arms the timer exactly when the pump was not stopped |
| `JobProcesses.DeliveryPump.Stop` | packages/repository-jobs/src/delivery.ts:124-130 | After stopping no timer is armed |
| `ShellWords.StaticCommands` | packages/rules-javascript/src/script-graph.ts:23-78 | The character loop equals the recursive reading of the line |
| `ShellWords.PrintThenParse` | packages/rules-javascript/src/script-graph.ts:23-78 | Commands printed with every character escaped, empty words as two quotes, joined by spaces and double ampersands, parse back exactly within the length limit |
| `ShellWords.AcceptedLinesHaveACanonicalForm` | packages/rules-javascript/src/script-graph.ts:23-78 | Every accepted list holds only non-empty commands and has a printed form that parses to it |
| `ShellWords.LexKeepsNonEmpty` | packages/rules-javascript/src/script-graph.ts:60-67 | No accepted list contains an empty command |
| `ShellGrammar.ParseIsTheGrammar` | packages/rules-javascript/src/script-graph.ts:23-78 | A line is accepted and read as some commands if and only if it is short enough and has a spelling that says them: plain and escaped characters, single and double quotes, blanks, semicolons and double ampersands; no dollar, backtick or other operator outside single quotes |
| `ScriptGraphSafety.DepthDoesNotMatter` | packages/rules-javascript/src/script-graph.ts:131-151 | A script expanded without doubt at some depth asks for the same delegations and runs at any smaller depth |
| `ScriptGraphSafety.InvokeIsGood` | packages/rules-javascript/src/script-graph.ts:131-151 | One memoised invocation keeps: finished scripts have finished successors, visited scripts are reachable, executions are exactly those of finished scripts |
| `ScriptGraphSafety.TraceIsExact` | packages/rules-javascript/src/script-graph.ts:318-327 | With no reason recorded: visited equals reachable, the reachable graph is acyclic, pass exactly when a reachable command is an accepted runner of the purpose |
| `ScriptGraphSafety.ExactIffKeysTellApart` | packages/rules-javascript/src/script-graph.ts:132-140 | At most 256 scripts are visited, never two under one key, and visited equals reachable if and only if keys tell reachable scripts apart |
| `ScriptGraphSafety.WorkspaceTracesAreExact` | packages/rules-javascript/src/script-graph.ts:111-330 | In a workspace (distinct paths without a colon) keys always tell scripts apart, so answers without doubt are exact |
| `ScriptGraphSafety.RunsAreAcceptedAndTargetsExist` | packages/rules-javascript/src/script-graph.ts:152-299 | Every run is a known runner declared by the package or an ancestor (or the Node test runner) that really runs; every delegation target exists, so a missing script can only be a root |
| `ScriptDelegation.CommandsMeanWhatTheySay` | packages/rules-javascript/src/script-graph.ts:152-299 | For any words of a command, against a relation stated on those words alone: the expansion finds exactly the scripts and tools the words ask for, where they lie, and has no doubt exactly when the line is within the supported grammar and depth |
| `ScriptReach.DoubtlessIsExact` | packages/rules-javascript/src/script-graph.ts:131-151 | The successors and runs of a script without doubt are exactly the scripts its lines lead to and the tools they run |
| `ScriptReach.TraceFollowsTheLines` | packages/rules-javascript/src/script-graph.ts:111-330 | With no reason recorded: the visited scripts are exactly those the command lines lead to from the wanted ones, they lead round no loop, the executions are exactly the tools those lines run, and the answer is pass exactly when one of them serves the purpose |
| `ScriptReach.FittingLinesLeaveNoDoubt` | packages/rules-javascript/src/script-graph.ts:131-162 | Fewer than 256 scripts in reach, each understood at a depth that grows along every line and stays within 16: then no reason is recorded |
| `ScriptReach.WorkspaceKeysTellApart` | packages/rules-javascript/src/script-graph.ts:131-133 | In a workspace (distinct paths without a colon) keys tell the scripts in reach apart |
| `ScriptTracer.Tracer.Invoke` | packages/rules-javascript/src/script-graph.ts:131-151 | Bounds, memo and cycle detection update the sets as the specified walk does |
| `ScriptTracer.Tracer.RunCommand` | packages/rules-javascript/src/script-graph.ts:152-299 | One command line performs exactly its specified events |
| `ScriptTracer.Tracer.ConsumePrefix` | packages/rules-javascript/src/script-graph.ts:166-207 | The option loop of package managers selects the specified targets |
| `ScriptTracer.Tracer.RunManager` | packages/rules-javascript/src/script-graph.ts:164-226 | Package-manager commands delegate, execute or object exactly as their expansion, which ScriptDelegation.CommandsMeanWhatTheySay ties to their words |
| `ScriptTracer.Tracer.RunTurbo` | packages/rules-javascript/src/script-graph.ts:227-266 | Turbo tasks delegate to the narrowed members or object as specified |
| `ScriptTracer.Tracer.RunTool` | packages/rules-javascript/src/script-graph.ts:267-298 | Runner commands execute, do nothing or object as specified |
| `ScriptTracer.TraceScripts` | packages/rules-javascript/src/script-graph.ts:111-330 | The trace terminates; it has no doubt when every script in reach fits the bounds; and a pass or fail is exactly what the command lines say: visited keys, executions, absence of loops and the verdict |
| `StaticValues.FlatIsSound` | packages/rules-javascript/src/static-configuration-parser.ts:415-419 | Flattening unknown runs covers flattening the elements of every run |
| `StaticValues.MergeIsSoundExactlyWhenGuarded` | packages/rules-javascript/src/static-configuration-parser.ts:56-101 | The abstract merge covers the run's merge if and only if no array of the run is overridden by a known scalar or object while the overridden field is not known |
| `StaticValues.UnresolvedArrayIsLost` | packages/rules-javascript/src/static-configuration-parser.ts:86-91 | A concrete input on which an unresolved array is dropped |
| `StaticValues.KnownArrayIsLostUnderAnOpenOverride` | packages/rules-javascript/src/static-configuration-parser.ts:64-91 | A concrete input on which even a resolved array is dropped, because the override spreads something unknown |
| `StaticEvaluatorSafety.EvaluationOverApproximates` | packages/rules-javascript/src/static-configuration-parser.ts:311-430 | For every behaviour of the unresolved parts the run's value lies in the meaning of the evaluator's answer, provided that the merges it carried out and the prototypes it took for fields meet their exact conditions in that run |
| `StaticEvaluatorSafety.EvalIsSound` | packages/rules-javascript/src/static-configuration-parser.ts:311-430 | The same at every depth, for any node budget already spent |
| `StaticEvaluatorSafety.CallIsSound` | packages/rules-javascript/src/static-configuration-parser.ts:399-420 | defineConfig and mergeConfig calls are covered, spread arguments included |
| `StaticEvaluatorSafety.PropertyIsSound` | packages/rules-javascript/src/static-configuration-parser.ts:368-396 | Every kind of object property keeps the object under construction an over-approximation, but for a field that stands for a prototype |
| `StaticEvaluatorSafety.LiteralIsSoundExactly` | packages/rules-javascript/src/static-configuration-parser.ts:368-396 | A literal whose parts are covered is covered if and only if it does not end with a resolved __proto__ that no field of the run matches |
| `StaticEvaluatorSafety.PrototypeFieldIsSoundExactly` | packages/rules-javascript/src/static-configuration-parser.ts:368-396 | A literal around its last __proto__: v is covered if and only if v is unresolved, a later property writes a field of that name or makes the evaluator forget the object, or an earlier one gave the run a field that v describes |
| `StaticValues.ShiftedMergeIsSoundExactlyWhenBlank` | packages/rules-javascript/src/static-configuration-parser.ts:56-101 | A merge whose sides were shifted by spread arguments covers every merge of two objects if and only if each entry of the right side is unresolved, null or a special field |
| `StaticEvaluatorSafety.SpreadMergeIsUnsound` | packages/rules-javascript/src/static-configuration-parser.ts:408-414 | A concrete mergeConfig call with a spread first argument that is described wrongly, its right side not being blank |
| `StaticInspection.CleanIsPart` | packages/rules-javascript/src/static-configuration-parser.ts:440-464 | What remains after cleaning is part of every run's value: scalars equal, list elements in order, fields present |
| `StaticInspection.CleanIsWhole` | packages/rules-javascript/src/static-configuration-parser.ts:440-464 | If cleaning leaves nothing unresolved, the cleaned value is the value of every run |
| `StaticInspection.InspectionIsSound` | packages/rules-javascript/src/static-configuration-parser.ts:437-480 | The inspection's value is part of every run's exported value, and equals it when no unresolved field is reported |
| `StaticPrecision.EvalIsPrecise` | packages/rules-javascript/src/static-configuration-parser.ts:311-430 | At every depth and within the budgets, an expression that is settled (literals, arrays, objects, spreads, fields that are there, unmutated names bound to settled expressions, fixed calls) is answered with the description of exactly its value, at a counted number of nodes |
| `StaticPrecision.SettledIsAnsweredExactly` | packages/rules-javascript/src/static-configuration-parser.ts:311-430 | The answer for a settled export means a value if and only if it is the value of the run |
| `StaticPrecision.SettledIsReportedWhole` | packages/rules-javascript/src/static-configuration-parser.ts:437-480 | A settled object or array within the cleaning budgets is reported as it is, with nothing unresolved |
| `StaticPrecision.MergeOfQuotes` | packages/rules-javascript/src/static-configuration-parser.ts:56-101 | Merging two resolved values gives exactly the merge of the run, unless a special field is overridden |
| `StaticParts.EvalShows` | packages/rules-javascript/src/static-configuration-parser.ts:366-397 | Of an export that is only partly settled the answer holds every settled part: each settled field and element of literals that are written out has exactly its value, whatever stands beside it |
| `StaticParts.SettledPartsAreReported` | packages/rules-javascript/src/static-configuration-parser.ts:437-480 | The inspection reports every such field under its name |
| `StaticParts.UnresolvedIsWhereItSays` | packages/rules-javascript/src/static-configuration-parser.ts:437-480 | Within the cleaning budgets the paths reported unresolved are exactly those at which the answer is unknown, or an object that may have more fields |
| `StaticPlugins.PluginsAreThoseCalled` | packages/rules-javascript/src/static-configuration-parser.ts:421-429 | Only plugins that the module imports and does not use as configuration helpers are recorded, and, within the node budget, every one whose call the evaluator comes by: in wrappers, accesses, bound names, elements, spreads, values of named fields and arguments of recognised calls |
| `StaticEvaluator.MergeValues` | packages/rules-javascript/src/static-configuration-parser.ts:56-101 | The loop over entries builds the specified merge |
| `StaticEvaluator.Evaluator.Evaluate` | packages/rules-javascript/src/static-configuration-parser.ts:311-430 | Counters, resolving set and plugin set are updated and the answer computed as by the specified evaluation, which covers every run and is exact on settled expressions |
| `StaticEvaluator.Evaluator.EvaluateElements` | packages/rules-javascript/src/static-configuration-parser.ts:357-365 | The array loop collects the specified slots |
| `StaticEvaluator.Evaluator.EvaluateProperties` | packages/rules-javascript/src/static-configuration-parser.ts:366-397 | The object loop builds the specified object |
| `StaticEvaluator.Evaluator.EvaluateCall` | packages/rules-javascript/src/static-configuration-parser.ts:399-429 | Recognised calls, plugin imports and all other calls as specified |
| `StaticEvaluator.EvaluateExport` | packages/rules-javascript/src/static-configuration-parser.ts:432-432 | The answer covers every run; of a settled export it describes the value of the run and no other; the plugins are those whose calls it came by |
| `StaticEvaluator.CloseMutations` | packages/rules-javascript/src/static-configuration-parser.ts:290-308 | The alias loop terminates with the least set that contains the direct mutations and is closed under aliases in both directions |
| `ReportContract.ValidateUniqueIds` | packages/contracts/src/analysis-report.ts:58-76 | No issue exactly when the ids are distinct |
| `ReportContract.TallyChecks` | packages/contracts/src/analysis-report.ts:331-369 | No issue exactly when references are distinct inspection checks of the category; the counters are the tally of their states |
| `ReportContract.ValidateScore` | packages/contracts/src/analysis-report.ts:331-406 | No issue exactly when a score entry is consistent with the facts, contributions and limitations |
| `ReportContract.ValidateFinding` | packages/contracts/src/analysis-report.ts:141-217 | No issue exactly when all references of a finding are known and confidence facts are its own |
| `ReportContract.ValidateRecommendation` | packages/contracts/src/analysis-report.ts:221-284 | No issue exactly when references are known and the basis fits the referenced findings |
| `ReportContract.ValidateReport` | packages/contracts/src/analysis-report.ts:89-447 | The checker adds no issue exactly when the report is unique, closed under references and its scores agree |
| `RulePipelineSafety.AllocatedIdentifiersAreFreshAndShort` | packages/analyzer-core/src/pipeline.ts:114-132 | Allocation always terminates with a fresh identifier of at most 200 characters, the preferred one if free and otherwise the least free suffix |
| `RulePipelineSafety.FailedIsSound` | packages/analyzer-core/src/pipeline.ts:134-189 | Recording a failed rule keeps the store unique and closed |
| `RulePipelineSafety.PipelineIsSound` | packages/analyzer-core/src/pipeline.ts:323-476 | For arbitrary rules and consistent inputs the result has no duplicate ids and no dangling references of the kinds it checks |
| `RulePipelineSafety.OnlyUncheckedReferencesCanFail` | packages/analyzer-core/src/pipeline.ts:205-476 | The report of the result passes the independent checker exactly when the three unchecked kinds of reference and the scores do |
| `RulePipelineSafety.CarefulRulesMakeAcceptedReports` | packages/contracts/src/analysis-report.ts:89-447 | If rules cite only known sources, evidence and visible limitations in those three places, the checker finds nothing outside the scores |
| `RulePipelineSafety.AllOrNothing` | packages/analyzer-core/src/pipeline.ts:348-469 | Facts, candidates, findings and recommendations of the result are the outputs of exactly the accepted rules and priorities, whole and in order, and every other rule or priority is one of the added partial failures |
| `RulePipelineSafety.StepsAddAllOrNothing` | packages/analyzer-core/src/pipeline.ts:348-469 | Each step adds all of the output, or nothing but one limitation naming the rule and one partial failure |
| `RulePipelineSafety.FailuresAreCounted` | packages/analyzer-core/src/pipeline.ts:348-469 | Added partial failures equal failed rules plus failed priorities, and each candidate became a finding or a failed priority |
| `RulePipelineSafety.RuleOrderDoesNotMatter` | packages/analyzer-core/src/pipeline.ts:46-58 | Permuting the rules of each stage changes nothing in the result |
| `RulePipelineViews.PipelineRunsInOrder` | packages/analyzer-core/src/pipeline.ts:323-476 | On the result alone: facts come from fact rules shown the incoming entries, findings from rules shown exactly the facts of the result, priorities from a view with those facts and all candidates, recommendations from one with the facts and findings of the result; each view has the limitations and failures of the stages before, and all rules run in the order of their ids |
| `RulePipeline.AllocateIdentifier` | packages/analyzer-core/src/pipeline.ts:114-132 | The allocation loop terminates with the specified identifier and marks it used |
| `RulePipeline.Run.Fail` | packages/analyzer-core/src/pipeline.ts:134-189 | Two allocated identifiers, one limitation, one partial failure, and the id sets stay the ids of the lists |
| `RulePipeline.Run.RunFactRule` | packages/analyzer-core/src/pipeline.ts:348-370 | Validation, duplicate and reference checks, then all pushes or one failure |
| `RulePipeline.Run.RunFindingRule` | packages/analyzer-core/src/rules.ts:124-152 | The same for findings, with limitations emitted beside them visible |
| `RulePipeline.Run.Prioritize` | packages/analyzer-core/src/pipeline.ts:411-433 | A candidate becomes a finding with a priority owned by the prioritizer, or one failure |
| `RulePipeline.Run.RunRecommendationRule` | packages/analyzer-core/src/pipeline.ts:442-467 | The same for recommendations over the findings that were prioritised |
| `RulePipeline.RunRulePipeline` | packages/analyzer-core/src/pipeline.ts:323-476 | The pipeline terminates, its result is what the four stages make of the rules' answers to the views stated above, and its report is accepted exactly as stated above |
| `AdvisoryGroups.GroupsAreUnique` | packages/scoring/src/stack-health-scorer.ts:142-153 | There is only one family of connected components of the shares-an-identifier relation |
| `AdvisoryGroups.AddKeepsGroups` | packages/scoring/src/stack-health-scorer.ts:145-152 | Absorbing every group that meets a new advisory keeps the family of components |
| `AdvisoryGroups.GroupedAreComponents` | packages/scoring/src/stack-health-scorer.ts:142-153 | The merged groups are pairwise disjoint and exactly the components |
| `AdvisoryGroups.AdvisoryCountIgnoresOrder` | packages/scoring/src/stack-health-scorer.ts:154-154 | The affected-advisory count is the number of components, for every order and repetition of the findings |
| `AdvisoryGroups.MergeAdvisory` | packages/scoring/src/stack-health-scorer.ts:147-152 | The backward loop with splicing performs the specified absorption |
| `StackHealthSafety.CategoryScoreIsOk` | packages/contracts/src/analysis-report.ts:331-406 | Every category score satisfies the report's cross-checks on check ids, counts and references |
| `StackHealthSafety.OverallScoreIsOk` | packages/contracts/src/analysis-report.ts:331-406 | So does the overall score |
| `StackHealthReport.ContributionsAreUniqueExactlyWithoutClash` | packages/scoring/src/stack-health-scorer.ts:187-206 | Contribution ids are unique if and only if no rated readiness fact bears the name of a band or ceiling contribution of the same report |
| `StackHealthClash.ClashingReportIsRefused` | packages/scoring/src/stack-health-scorer.ts:187-206 | A rule set with a rated readiness fact named overall-ceiling: inputs and references are in order, the scorer does not throw, and the checker refuses the report |
| `StackHealthReport.ReportIsAcceptedExactlyWithoutClash` | packages/contracts/src/analysis-report.ts:89-447 | Pipeline and scorer together: the checker accepts the whole report exactly when no contribution names clash |
| `StackHealthReport.ScorerThrowsExactlyWithoutExplanation` | packages/scoring/src/stack-health-scorer.ts:89-107 | The scorer throws for a category exactly when it has no check, no limitation and there is no partial failure |
| `StackHealthScores.DeductionsAccountForCategories` | packages/scoring/src/stack-health-scorer.ts:112-223 | Category values lie in 0 to 100 and the deductions of a category sum to 100 minus its value |
| `StackHealthScores.OverallIsCapped` | packages/scoring/src/stack-health-scorer.ts:254-314 | All scores lie in 0 to 100; the overall score is at most the mean and at most the dependency and security scores, one of which it equals; its deduction is the distance |
| `StackHealthScores.CategoryScoresNeverDrop` | packages/scoring/src/stack-health-scorer.ts:74-224 | Improving checks keeps a category rated and never lowers it |
| `StackHealthScores.ImprovingNeverLowersAScore` | packages/scoring/src/stack-health-scorer.ts:72-316 | Improving any checks (fail to pass, or milder severity) never lowers a category or the overall score |
| `StackHealthMeaning.ScoresInPlainWords` | packages/scoring/src/stack-health-scorer.ts:72-316 | On the facts and findings alone: a category is unknown, not applicable or rated as its numbers of checks in each state and the inspection limitations say; dependencies score 100 or 70, security by the worst severity, the others the share of passed checks; the overall score is the smallest of the average of the rated categories and the rated dependency and security scores; the advisory count is the number of groups of advisories that share identifiers |
| `StackHealthScorer.WorstBand` | packages/scoring/src/stack-health-scorer.ts:122-127 | The loop ends at the worst supported severity |
| `StackHealthScorer.CountAdvisories` | packages/scoring/src/stack-health-scorer.ts:142-154 | The loop counts the components of the advisory findings |
| `StackHealthScorer.RateCategory` | packages/scoring/src/stack-health-scorer.ts:74-224 | A category is rated, and its contributions pushed, as specified |
| `StackHealthScorer.ScoreStackHealth` | packages/scoring/src/stack-health-scorer.ts:72-316 | The scorer equals its specification, says what ScoresInPlainWords says, is capped, and its scores pass the cross-checks |
| `WorkspaceScoping.OutThenInIsIdentityExactly` | packages/rules-javascript/src/workspace-rules.ts:81-120 | Renaming a local id out and in is the identity if and only if it is not a global id carrying the package prefix |
| `WorkspaceScoping.InThenOutIsIdentityExactly` | packages/rules-javascript/src/workspace-rules.ts:81-120 | Renaming a shown id in and out is the identity if and only if stripping its prefix does not yield a global id |
| `WorkspaceScoping.PathOutThenInIsIdentityExactly` | packages/rules-javascript/src/workspace-rules.ts:82-126 | Paths come back as they were if and only if they are not the package directory itself |
| `WorkspaceScoping.ShownIdsLeadBack` | packages/rules-javascript/src/workspace-rules.ts:75-108 | Every id shown to a package leads back to an id of the workspace |
| `WorkspaceScoping.ScopedFactsKeepReferences` | packages/rules-javascript/src/workspace-rules.ts:129-159 | Facts that refer only to what the rule was shown refer, renamed, only to workspace evidence and to workspace or accompanying limitations |
| `WorkspaceScoping.ScopedFactRuleKeepsReferences` | packages/rules-javascript/src/workspace-rules.ts:129-159 | The same for the scoped rule over all packages |
| `WorkspaceScoping.ScopedFindingsKeepReferences` | packages/rules-javascript/src/workspace-rules.ts:160-207 | The same for the findings of one package; confidence facts stay among the finding's facts |
| `WorkspaceScoping.ScopedFindingRuleKeepsReferences` | packages/rules-javascript/src/workspace-rules.ts:160-207 | The same for the scoped finding rule over all packages, each shown only the facts the wrapper keeps |
| `WorkspaceScoping.ScopedRecommendationsKeepReferences` | packages/rules-javascript/src/workspace-rules.ts:208-232 | The same for the recommendations of one package |
| `WorkspaceScoping.ScopedRecommendationRuleKeepsReferences` | packages/rules-javascript/src/workspace-rules.ts:208-232 | The same for the scoped recommendation rule over all packages |
| `WorkspaceScoping.PackagesNeverCollide` | packages/rules-javascript/src/workspace-rules.ts:27-29 | Packages with different hashes never emit one id, and a package never maps two local ids to one, for ids that are not global |
| `WorkspaceScoping.ScopedFactIdsAreDistinct` | packages/rules-javascript/src/workspace-rules.ts:129-159 | Distinct local ids in each package and distinct hashes give distinct ids overall |
| `WorkspaceScoping.ScopeFactRule` | packages/rules-javascript/src/workspace-rules.ts:129-159 | The pushing loop over packages equals the specified concatenation; one throwing package throws |
| `WorkspaceViews.PackageSeesItsOwn` | packages/rules-javascript/src/workspace-rules.ts:75-108 | A package is shown exactly its own entities and the shared ones, in order, each under the name the package knows it by, references included; a finding rule is given exactly the facts the wrapper keeps |
| `WorkspaceViews.ScopedFactRuleGathers` | packages/rules-javascript/src/workspace-rules.ts:129-159 | A scoped fact rule reports exactly what its runs on the packages' views report, package by package and in order, under whole-report names; the first throw is the rule's |
| `WorkspaceViews.ScopedFindingRuleGathers` | packages/rules-javascript/src/workspace-rules.ts:160-207 | The same for a scoped finding rule |
| `WorkspaceViews.ScopedRecommendationRuleGathers` | packages/rules-javascript/src/workspace-rules.ts:208-232 | The same for a scoped recommendation rule |
| `AliasGroup.AdvisoryAliasGroup` | packages/rules-javascript/src/advisory-severity.ts:156-179 | The fixpoint loop terminates; the group is exactly the non-withdrawn advisories whose names lie in the least closed set around the id |
| `AliasGroup.EveryAliasFindsTheSameNames` | packages/rules-javascript/src/advisory-severity.ts:156-179 | Starting from any connected name leads to the same names, hence the same group |
| `AliasGroup.NamesAreAComponent` | packages/rules-javascript/src/advisory-severity.ts:156-179 | The names form one connected component |
| `OsvPagination.BatchIsAlone` | packages/data-sources/src/osv/adapter.ts:281-446 | Whichever requests fail, batched paging gives each query what paging it alone gives up to the round that fails, and is unavailable exactly when the first request fails |
| `OsvPagination.AloneIsComplete` | packages/data-sources/src/osv/adapter.ts:415-436 | A query is complete exactly when its chain of pages ends within the round limit and before the failing round; a token repeated at once never ends |
| `OsvPagination.AloneKeepsLatest` | packages/data-sources/src/osv/adapter.ts:404-413 | Each advisory keeps its latest match over the pages received, the first one on ties |
| `OsvPagination.PaginationIsExact` | packages/data-sources/src/osv/adapter.ts:257-448 | The whole batch, whichever requests fail: unavailable exactly when the first one does; otherwise each query has the latest matches of the pages it received and is complete if and only if its chain ended on one of them |
| `OsvPagination.EveryRoundIsAnswered` | packages/data-sources/src/osv/adapter.ts:281-300 | When no request fails the failing round is the round limit, so completeness depends on the chain and the limit alone |
| `OsvAdapter.BatchAcquisition.TakePage` | packages/data-sources/src/osv/adapter.ts:404-442 | One page updates its accumulator, failure list and next page as specified |
| `OsvAdapter.BatchAcquisition.AcquireBatchPages` | packages/data-sources/src/osv/adapter.ts:281-446 | The recursion ends within the round limit and equals the specification, including failed and malformed responses |
| `OsvAdapter.NormalizeQueries` | packages/data-sources/src/osv/adapter.ts:118-152 | Refuses empty, over-long and invalid requests, otherwise returns each query once, ordered by package name and then version |
| `OsvAdapter.FetchMatches` | packages/data-sources/src/osv/adapter.ts:257-452 | The adapter's batch part carries the exactness theorem, failures included |
| `SemanticVersions.ParseExactSemanticVersion` | packages/rules-javascript/src/semver.ts:34-75 | The loop over prerelease identifiers equals the specified parse |
| `SemanticVersions.RecognisersAgree` | packages/data-sources/src/npm-package.ts:36-45 | A string of at most 256 characters parses if and only if it is an exact npm version all of whose numbers are safe integers |
| `SemanticVersions.MatchingStringsAreClean` | packages/data-sources/src/npm-package.ts:14-24 | Matching strings need no trimming and hold no control characters |
| `SemanticSpelling.ParseIsTheInverseOfWriting` | packages/rules-javascript/src/semver.ts:34-75 | A string parses as a version if and only if it is how that version is written: the three safe numbers in their places without leading zeros, the prerelease identifiers after a dash, any build words after a plus |
| `SemanticPrecedence.CompareSemanticVersions` | packages/rules-javascript/src/semver.ts:93-137 | The index loop equals the comparison; negative exactly when the left precedes by section 11, zero exactly when they differ in build metadata at most |
| `SemanticPrecedence.CompareIsPrecedence` | packages/rules-javascript/src/semver.ts:77-137 | The comparison agrees with section 11 of Semantic Versioning 2.0.0, stated independently |
| `SemanticPrecedence.CompareIsATotalPreorder` | packages/rules-javascript/src/semver.ts:93-137 | Reflexive, total, transitive, and antisymmetric up to build metadata |
| `SemanticPrecedence.DifferenceNamesTheFirstRise` | packages/rules-javascript/src/semver.ts:139-160 | A difference is reported exactly for a strictly newer version and names the first component that rose |

## Left out

- Abort signals during acquisition, and the throws they cause: an aborted acquisition has no result to speak of.
- HTTP, retries inside one request, base64 and UTF-8 decoding: a provider reply is given already classified.
- Acquisition with fewer than the three metadata requests allowed: it ends before the part modelled here.
- Characters are Unicode scalar values and strings are compared character by character; JavaScript's UTF-16 code units differ beyond the basic plane in length and order.
- PostgreSQL isolation, row-level security, roles, connection pools and the legacy columns: each statement is atomic, and locked rows are simply skipped.
- Wall clocks: times are natural numbers chosen freely at each step, not even assumed to rise.
- Graphile Worker's internals, and recovery of a worker that died on its last attempt, which is the operator's.
- Submissions are assumed to satisfy the payload limits that the API checks before creating them.
- Analysis row fields not read by any guard (repository owner and name, commit, fingerprint, versions) are not modelled.
- `dispatchReady` sends its deliveries concurrently; here each dispatch is a program of its own among arbitrary steps of the others.
- Babel, minimatch, YAML and JSON parsing, MDX and CVSS: the evaluator starts from a syntax tree, tracing from a match predicate, scoring from a severity.
- Collecting bindings, imports, exports and direct mutations from a module body (`declaration`, `scan`), and cross-module resolution: imports come with a value that covers theirs; namespace imports are not modelled.
- StaticEvaluatorSafety.EvaluationOverApproximates: eslint's own flattening is taken to the same 64 levels as the evaluator's, its expansion of `extends` entries is not modelled (no entry of a run's configuration has one), negative zero is zero, and values are finite trees.
- StaticValues.MergeIsSoundExactlyWhenGuarded: the run's merge follows the code's own rules on resolved values; Vite's library may differ on null and on its special fields, which are left to the run.
- The order of object fields matters only for the cleaning budget and is a parameter there.
- Zod shape checks and trimming: entities are well shaped and trimmed, and version 1 reports are not modelled.
- Messages, rationales, titles and severities that no check or score reads; the affected-package count of a score.
- Scores are exact reals; floating-point rounding is not modelled.
- The project snapshot, metadata and evidence that every rule is given beside its view: they do not change during a run, so they are part of each rule's function.
- ScriptReach.FittingLinesLeaveNoDoubt: one direction only; a script that lies deeper than the bound along one line can still be met first along a shorter one, and then nothing is recorded.
- Package paths and dispositions that the scoped rules write on what they emit; no check or score reads them.
- WorkspaceScoping.PackagesNeverCollide: the hash is any function of fixed output length, distinctness of the packages' hashes is a hypothesis; FNV-1a itself is not modelled.
- Package evidence creation and the filtering of peer and internal dependencies in scoped finding rules: they only narrow what a rule is shown.
- OSV advisory details, evidence and source records built after paging; `AliasGroup.AdvisoryAliasGroup` takes the locale order as given.
- Fastify routes, the user interface, startup, logging, OAuth and encryption: plumbing without an invariant of this kind.
- The legacy scorer and the quick-manifest path: simpler copies of what is covered.
