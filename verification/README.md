# AI forge: verified models of planning, execution and policies

The forge plans a backlog of specified items, executes each item through a chain of roles whose
progress is read back from an append-only journal, and reacts to CI results, quotas, approvals and
version gates. This project models those parts and proves what they promise.

`dafny verify dfyconfig.toml` checks everything.

## What is modelled

- **Specifications and planning.** `SpecIndex` resolves documents; `ValidateSpecs` holds the recursive
  cycle search; `PlanningDag` builds the graph of items and version tags and diagnoses cycles; `Waves`
  layers items; `CriticalPath` closes over blocked items and runs the longest-path dynamic programme;
  `GraphUpdates` computes dependents and changes statuses; `Publish` cuts the plan into versions;
  `Planning` puts the whole pass together; `Milestones` and `MilestoneGate` parse, print and apply
  milestone constraints. `Graph` and `Ordering` hold walks, cycles, reachability and sorting.
- **Execution.** `StateStore` is the status map and journal with the item state machine; `Journal`
  reads progress back; `Steps`, `Epochs`, `EpochRuns` and `Execute` are the step machine with its correction
  epochs, iteration cap and merge gate; `Resume` is about crashes and later calls; `ApprovalQueue` holds the
  trust levels and the queue.
- **Bounded and reactive parts.** `Utf8` (as in section 3 of RFC 3629) and `Truncation` (the
  context budget), `CiWatcher`, `Quota` with `Recharge`, `Release`, `Stats`, `Buckets` and `Scoring`.

Everything outside is an input. `Steps.World` gives the reply of the roles, the gates, git and GitHub to each
step in each round of a call: whether it works, the verdict, and what can be read back. Only the other items'
workers are left open: while the executor waits they append events of their own and change their own
statuses. In `CiWatcher` polls and clock readings are arbitrary functions; in `Release` the answers of the
gates are. Library calls (`nx.topological_sort`, `nx.descendants`, `nx.find_cycle`) are implemented and proved
against walks in the graph.

## What the proofs found

- One run of the DEV role journals `DEV_COMPLETED` twice, once by the executor and once by the state
  machine, unless the item already stands at `IN_TEST` (`Resume.DevIsJournaledTwice`). Counted by the
  executor's own entries, every role completes exactly once in a merging epoch (`Execute.Execute`).
- The correction epoch lives only in the call that opened it. A later call reads the whole journal, and
  `Resume.ResumeForgetsEpoch` says exactly which steps it then takes for done; a call resumed after any
  NO-GO does not run DEV or the gates again (`Resume.ResumeSkipsCorrection`). Left alone it passes the test
  and the review of the work that was sent back and fails, and the call after it merges that work
  (`Resume.MergesUncorrected`).
- Even so no merge lacks a passed review that follows the last NO-GO, over any sequence of calls and
  crashes (`Resume.CallAgain`, `Journal.MergesFollowReviews`).
- `_handle_no_go` documents that it returns the identifier of the NO-GO entry; the code returns that of
  the `ISSUE_OPENED` entry just before it, and the model follows the code.
- `_truncate_utf8` drops a last character of several bytes that would have fitted exactly, and only then
  keeps less than it could (`Utf8.ClipIsLongestUnlessExact`, `Utf8.ExactFitWitness`).
- `1.0.0+b` is a valid version, and planning raises on it: a version has a key exactly when no plus stands
  before its first dash (`Publish.KeyedUnlessBuildFirst`, `Planning.PlanForge`,
  `Planning.BuildMetadataStopsPlanning`); `1.0.0-r+b` has one.
- Keys leave the pre-release out. Which of `1.0.0-r` and `1.0.0` gates the other depends on the order in
  which a set of strings is walked (`PlanningDag.SharedKeyGatesEitherWay`, `PlanningDag.PreReleasesShareKey`).
- Ranking providers reads the provider back from a `provider/role` key, which works exactly for providers
  without a slash (`Stats.SplitRecoversProvider`).
- A caller's reference time can only hasten a provider's recharge: the wall clock is consulted first
  (`Quota.ReferenceOnlyHastens`).
- A rejected version can pass the gate again untouched exactly when the rejecting gate blames none of its
  items (`Release.StillComplete`): never after an integration gate, after a feature or use-case gate
  exactly when no item of the version stands under it (`Release.HarmlessByKind`, `Release.RejectedUntouched`).
- A policy violation counts as a failure towards the quota heuristic and is reported as `ERROR`
  (`Quota.QuotaDetector.Evaluate`).

## Model

| member | source | states |
|---|---|---|
| SpecIndex.IndexById | src/core/specparser.py:226-236 | Succeeds only on unique identifiers and then finds exactly the documents; otherwise names a document that repeats an earlier one. |
| SpecIndex.CheckParents | src/core/specparser.py:239-255 | Finds the first document whose parent is missing or of the wrong kind, or shows there is none. |
| SpecIndex.CheckDependencies | src/core/specparser.py:258-271 | Finds the first item that depends on something other than a backlog item, or shows there is none. |
| SpecIndex.CollectChildren | src/core/specparser.py:274-280 | Lists every parent's children in discovery order. |
| SpecIndex.BuildIndex | src/core/specparser.py:204-219 | Succeeds exactly on consistent specification sets, said without the index; otherwise the first check that fails names its first offending document. |
| SpecIndex.ConsistentYieldsValidBacklog | src/core/specparser.py:258-271 | A consistent set yields a backlog with unique identifiers and known dependencies. |
| ValidateSpecs.CycleFinder.Visit | src/phases/validate_specs.py:141-156 | The recursive search finishes a node only when every walk from it meets a reported cycle or stays among finished nodes; what it reports are closed walks. |
| ValidateSpecs.EveryCycleCloses | src/phases/validate_specs.py:134-156 | When every node is finished, each cycle of the graph meets a reported one. |
| ValidateSpecs.Deduplicate | src/phases/validate_specs.py:157-173 | Keeps one report for each set of nodes, without losing any set. |
| ValidateSpecs.CheckCycles | src/phases/validate_specs.py:134-173 | Reports genuine cycles of known items, with distinct node sets, and at least one exactly when the dependencies are cyclic. |
| PlanningDag.VersionTagsByLibrary | src/planner/dag.py:255-265 | Lists each library's versions by numeric key, exactly when every version has one. |
| PlanningDag.PreviousVersionIsAdjacent | src/planner/dag.py:268-281 | Among the listed versions the gating one is the one just before; the first has no gate. |
| PlanningDag.PreviousVersionIsEarlier | src/planner/dag.py:268-281 | On the numbers: the gating version is no later than the item's own, and none of the library lies between; an item without a gate has no earlier version. |
| PlanningDag.EarlierVersionGatesLater | src/planner/dag.py:255-281 | Of two items at numeric versions a < b the tag of the earlier gates the later, and nothing gates the earlier. |
| PlanningDag.NineGatesTen | src/planner/dag.py:255-281 | 1.9.0 gates 1.10.0, and not the other way round. |
| PlanningDag.BuildPlanningDag | src/planner/dag.py:108-196 | The graph's edges are exactly the declared dependencies, the previous-version gates and the milestone gates; by the numbers, every item with an earlier version in its library is gated, and every version gate comes from the latest of them. |
| PlanningDag.EdgeShape | src/planner/dag.py:135-196 | Tags only start edges, and between items the edges are the dependencies. |
| PlanningDag.MilestoneEdgesAre | src/planner/dag.py:170-193 | For validated versions the milestone gates are exactly those from a required version's tag to the items of the dependent library at the dependent version. |
| PlanningDag.BuiltDagPlans | src/planner/dag.py:135-196 | Every built graph has the shape the scheduling passes rely on. |
| PlanningDag.CyclicIffDependenciesCyclic | src/planner/dag.py:135-252 | The planning graph is cyclic exactly when the declared dependencies are. |
| PlanningDag.FindCycle | src/planner/dag.py:199-219 | Returns a closed walk exactly when the graph has one. |
| PlanningDag.DetectCycle | src/planner/dag.py:199-252 | Diagnoses a closed walk, its edges in order and its items once each, exactly when there is a cycle. |
| PlanningDag.CyclesBlameDependenciesOnly | src/planner/dag.py:199-252 | Every edge blamed on a built graph is a declared dependency, never a gate. |
| PlanningDag.DiagnosticIsDependencyCycle | src/planner/dag.py:199-252 | What is diagnosed on a built graph is, read backwards, a cycle of the declared dependencies; it blames exactly these and names each item once. |
| PlanningDag.DetectorsAgree | src/phases/validate_specs.py:134-173 | On every valid backlog the validator and the planner each find a cycle exactly when the declared dependencies have one; the planner's is a cycle of the dependencies that shares an edge with a reported one. |
| PlanningDag.SharedKeyGatesEitherWay | src/planner/dag.py:255-281 | Of two versions with one key either may be listed first, and then gates the other. |
| PlanningDag.PreReleasesShareKey | src/planner/dag.py:287-296 | Versions of a library that differ in the pre-release alone have one key. |
| Versions.ListByKey | src/planner/dag.py:255-265 | Lists a set of versions once each, so that of any two the one listed first has the smaller or equal major, then minor, then patch number. |
| Versions.DottedHasItsKey | src/planner/dag.py:287-296 | `major.minor.patch`, written in decimal, is a valid version whose key is those three numbers, with or without a `v`. |
| Versions.SemVerHasKey | src/planner/dag.py:293-296 | A validated version has the key of its three numerals, unless build metadata follows them at once. |
| Versions.BuildAloneHasNoKey | src/core/models/identifiers.py:15-25 | `1.0.0+b` is a valid version and has no key. |
| Versions.BuildBehindPreHasKey | src/core/models/identifiers.py:15-25 | `1.0.0-r+b` has the key of its numerals. |
| Waves.ComputeWaves | src/planner/waves.py:54-81 | Terminates with the layers of items whose predecessors are satisfied, each listed in order. |
| Waves.WavesAreEarliestLayers | src/planner/waves.py:54-81 | Each placed item sits exactly one wave after its latest unfinished predecessor, and in no other wave. |
| Waves.WavesFollowDependencies | src/planner/waves.py:54-81 | A scheduled item is TODO or READY and comes after each declared dependency that is not DONE, one wave after the latest of them. |
| Waves.LeftOutIffObstructed | src/planner/waves.py:54-81 | On an acyclic graph an item is left out exactly when a chain of unfinished predecessors leads to one that can never start. |
| Waves.LeftOutIffStuck | src/planner/waves.py:54-81 | The same on the backlog: a TODO or READY item is left out exactly when a chain of declared, undone dependencies ends in an item that is neither TODO nor READY. |
| Waves.LayersAreDisjoint | src/planner/waves.py:54-81 | No item belongs to two layers. |
| CriticalPath.Discover | src/planner/graph_updates.py:51-61 | The worklist finds exactly the nodes one or more edges away, on any graph. |
| CriticalPath.BlockedClosure | src/planner/waves.py:154-161 | Exactly the blocked items and everything downstream of them. |
| CriticalPath.TopologicalSort | src/planner/waves.py:171-179 | Orders all nodes along the edges, exactly when the graph is acyclic. |
| CriticalPath.Relax | src/planner/waves.py:180-195 | Solves the longest-distance recurrence at every node. |
| CriticalPath.DistanceBoundsWalks | src/planner/waves.py:171-208 | No walk outweighs the distance of its end. |
| CriticalPath.WalkBack | src/planner/waves.py:196-208 | The path read back realises the distance of its end. |
| CriticalPath.LongestWeightedPath | src/planner/waves.py:171-208 | The heaviest walk among the active nodes, exactly when they are acyclic. |
| CriticalPath.CriticalPath | src/planner/waves.py:83-93 | An active chain that no other active chain outweighs; empty only when nothing active remains. |
| CriticalPath.ReadyBls | src/planner/waves.py:95-114 | Exactly the ready items, critical ones first, then heavier ones, then by name. |
| Domain.SizesDouble | src/planner/waves.py:17-38 | The weights of S, M and L are 1, 2 and 4. |
| GraphUpdates.BuildDependentIndex | src/planner/graph_updates.py:29-39 | The index inverts the dependencies exactly. |
| GraphUpdates.TransitiveDependents | src/planner/graph_updates.py:42-61 | The items one or more dependency edges downstream, sorted, even on cyclic backlogs. |
| GraphUpdates.RunnableIsFirstWave | src/planner/graph_updates.py:160-171 | The runnable listing is the first wave, as a sequence; both are empty together. |
| GraphUpdates.ReadyIffRunnableAndFree | src/planner/waves.py:95-107 | A ready item is a runnable one with nothing blocked upstream. |
| GraphUpdates.ReadyIffRunnableWhenDoneIsClosed | src/planner/waves.py:127-152 | Ready and runnable agree when every DONE item has only DONE dependencies. |
| GraphUpdates.SameDownstream | src/planner/waves.py:154-161 | The planning graph and the dependency index reach the same items. |
| GraphUpdates.ClosureIsItemAndDependents | src/planner/waves.py:154-161 | The blocked closure of one item is that item with its dependents; acyclically, without it, its dependents alone. |
| GraphUpdates.MoveAll | src/planner/graph_updates.py:131-157 | Moves exactly the listed items standing at the source status and journals each move twice. |
| GraphUpdates.ApplyBlockedSideEffects | src/planner/graph_updates.py:106-157 | Afterwards no dependent of the blocked item is READY and every other status is unchanged. |
| GraphUpdates.ApplyVersionNoGoSideEffects | src/planner/graph_updates.py:186-237 | Reopens exactly the faulty DONE items and lists what may run afterwards. |
| Publish.WavesForVersion | src/planner/publish.py:658-667 | The waves restricted to the version's items, without empty ones. |
| Publish.CriticalPathForVersion | src/planner/publish.py:670-680 | The path cut after its last item of the version. |
| Publish.OrderedVersions | src/planner/publish.py:638-651 | Every version of the backlog once, and of any two the one published first has the smaller or equal major, then minor, then patch number. |
| Publish.KeyedUnlessBuildFirst | src/planner/publish.py:643-651 | For every validated version the graph and the publication find the same key, and none exactly when a plus stands before the first dash. |
| Publish.BuildSnapshot | src/planner/publish.py:199-256 | Each version gets its waves, path, weight and entries, in numeric version order. |
| Publish.OneEntryPerItem | src/planner/publish.py:231-243 | Every backlog item has exactly one entry. |
| Publish.EntriesKeepItems | src/planner/publish.py:231-243 | The entry of an item carries its library, version, size and criticality. |
| Publish.PlainVersionIsVersion | src/planner/publish.py:638-640 | A validated version is published as it is written, a `v` before it dropped. |
| Publish.VersionWeightsSumToGlobal | src/planner/publish.py:213-229 | The versions' critical-path weights sum to the weight of the global path. |
| Publish.ActiveChainHasNoRepeats | src/planner/publish.py:207-217 | A critical path of an acyclic plan names no item twice. |
| Publish.VersionWavesKeepOrder | src/planner/publish.py:658-667 | Within a version items keep the global wave order. |
| Publish.ScheduledOncePerSnapshot | src/planner/publish.py:199-230 | Every scheduled item stands once in the waves of its own version and of no other. |
| Planning.PlanForge | src/planner/publish.py:515-592 | Publishes a sound snapshot, with every item's entry, exactly when the specifications are consistent, no version has a plus before its first dash, and the dependencies have no cycle; each failure is reported exactly when it is the reason, a cycle with its nodes, dependencies and items. |
| Planning.BuildMetadataStopsPlanning | src/planner/publish.py:515-592 | A consistent, validated set with an item at `1.0.0+b` is not planned. |
| Planning.PublishPlan | src/planner/publish.py:199-256 | On an acyclic plan publishes exactly when every version can be ordered. The snapshot is sound: its path is a chain that follows the declared dependencies and that no other active chain outweighs; it is the cut of that path and of the waves by version, in numeric order; one entry an item; weights that sum to the path's; each placed item in one version. |
| Planning.ChainFollowsDependencies | src/planner/waves.py:83-93 | Each item of an active chain is a declared dependency of the next. |
| Planning.PlacedIffInSnapshot | src/planner/publish.py:199-230 | An item is scheduled exactly when it stands once in the waves of one version. |
| Milestones.ParseMilestonesText | src/planner/milestones.py:181-214 | Reads the lines in order, ignoring blank and comment lines, and stops at the first invalid line with its number. |
| Milestones.AcceptedLineByLine | src/planner/milestones.py:181-214 | A text is accepted exactly when every line that is neither blank nor a comment matches. |
| Milestones.RejectedAtFirstBadLine | src/planner/milestones.py:193-198 | The error names the first line that does not match, with its number. |
| Milestones.LineIsRead | src/planner/milestones.py:192-213 | Every line that is neither blank nor a comment gives its constraint, with its number and its text. |
| Milestones.LineWithoutV | src/planner/milestones.py:13-19 | The `v` of a version may be left out; the constraint is the same. |
| Milestones.ParseAfterRender | src/planner/milestones.py:161-214 | Parsing the rendering of a well-formed plan returns its constraint pairs in order. |
| Milestones.RenderAfterParseIsStable | src/planner/milestones.py:161-214 | Rendering what was parsed is a fixed point, on every accepted text. |
| Milestones.ParsedIsWellFormed | src/planner/milestones.py:13-19 | Whatever parses is well formed. |
| MilestoneGate.MissingAre | src/planner/milestones.py:127-144 | The missing constraints are exactly those on the item's library and version whose tag does not exist. |
| MilestoneGate.TagNodeIsInjective | src/planner/dag.py:284-290 | A tag node names one library and one version. |
| MilestoneGate.UnlockedIffMilestoneEdgesTagged | src/planner/milestones.py:146-158 | The milestones unlock an item exactly when every milestone edge into it starts from a tag that exists. |
| MilestoneGate.MilestoneReadyBacklogItems | src/planner/milestones.py:236-262 | Exactly the ready items, in backlog order. |
| MilestoneGate.ReadyIsRunnableAndUnlocked | src/planner/milestones.py:236-262 | For an item with a recorded status, milestone-ready means runnable and unlocked. |
| StateStore.StateDatabase.Transition | src/state/machine.py:117-150 | A legal transition changes one status and journals one entry; an illegal one changes nothing. |
| StateStore.StateDatabase.Append | src/state/db.py:256-289 | Adds one entry at the end and returns its identifier. |
| StateStore.LegalMoves | src/state/machine.py:11-110 | Which moves are legal, by the status they lead to. |
| StateStore.JournalTellsTransitions | src/state/machine.py:81-170 | Which transitions journal which entry: NO-GO, ROLLED_BACK, MERGED, DEV_COMPLETED, TEST_GO, BL_BLOCKED and BL_ASSIGNED each by exactly the moves they name. |
| Journal.KindsMeanMembership | src/phases/execute.py:759-781 | The counted kinds answer the membership questions asked of the event types. |
| Journal.MergesFollowReviews | src/phases/execute.py:374-693 | In a vetted trace every merge comes after a passed review that no NO-GO follows, and that review after a passed test. |
| Resume.DevIsJournaledTwice | src/phases/execute.py:425-448 | One DEV run is one completion, journaled exactly once only from IN_TEST. |
| Steps.StepBranch | src/phases/execute.py:393-406 | One WORKTREE_CREATED exactly when git works, or an error that journals nothing. |
| Steps.StepDev | src/phases/execute.py:407-448 | What a DEV run journals, and the move to IN_TEST. |
| Steps.StepGates | src/phases/execute.py:449-486 | Goes on with a completion exactly when the gates run and, outside dry runs, say GO; otherwise raises and journals nothing. |
| Steps.StepTester | src/phases/execute.py:487-559 | Outside dry runs a NO GO never goes on and journals no completion: it restarts, blocks the item or raises. Off that, it goes on exactly when the role answers, with one completion and, from IN_TEST, the move to IN_REVIEW. |
| Steps.StepPush | src/phases/execute.py:560-567 | Journals nothing of its own. |
| Steps.StepPrOpen | src/phases/execute.py:568-589 | A known number skips the step; otherwise one PR_OPENED carries the number read, exactly when GitHub works. |
| Steps.FindOpenPr | src/phases/execute.py:965-972 | The number of the last PR_OPENED that carries one; none only when there is no such entry. |
| Steps.StepReviewer | src/phases/execute.py:590-652 | Outside dry runs a NO GO never goes on and journals no completion: it restarts, blocks the item or raises. A GO is journaled and leaves the item IN_REVIEW, or stays journaled when the move to it is illegal. |
| Steps.StepMerge | src/phases/execute.py:653-688 | Waits without a trace, or merges a released item, caught up to IN_REVIEW, and leaves it DONE. |
| Steps.EnsurePreMergeStatus | src/phases/execute.py:1023-1043 | The entries that bring the item up to IN_REVIEW, and nothing else. |
| Steps.HandleNoGo | src/phases/execute.py:836-912 | Below the cap a correction opens a new epoch at its marker; at the cap the item is blocked. It journals no completion, and raises only where the item, the issue or the index stops it. |
| Steps.BlockForIterationCap | src/phases/execute.py:914-963 | The item ends BLOCKED with its escalation journaled, and none of its dependents is READY. |
| Steps.DemoteDependents | src/phases/escalation.py:349-357 | No dependent of the blocked item is READY afterwards; the item's own status and journal stand. |
| Steps.OpenEpoch | src/phases/execute.py:879-912 | The marker is the journal position from which the item's trace is the correction alone. |
| Steps.PublishEscalation | src/phases/escalation.py:265-362 | Blocks the item, then journals the issue and the escalation. |
| Epochs.CompletedStays | src/phases/execute.py:374-391 | What was completed before an epoch answers for each of its steps as what the executor reads again after every step does. |
| EpochRuns.OrderlyStep | src/phases/execute.py:390-693 | Every step keeps the item's trace vetted, in its own epoch and in the next. |
| EpochRuns.RunEpoch | src/phases/execute.py:374-693 | One pass journals each due completion once, in order, ends in at most one verdict, and takes the item where its start and the replies decide: it completes only when every due step went through, restarts or blocks only on a judging role's NO GO, and journals a completion only for a step that went through. |
| Execute.Correct | src/phases/execute.py:374-747 | One epoch of a call ends it, or hands over to the next round with one more NO-GO under the cap, each round but the last having been refused by a judging role. |
| Execute.Execute | src/phases/execute.py:334-750 | Terminates; every restart answers a NO GO of its round, Blocked means that the last round was refused too, and Merged that everything due in the last round went through, tester and reviewer with GO; its completions are those of steps that went through. Restarts stay under the cap and DEV runs at most one more; a merging epoch completes every role once, in order; merges are released; branch and pull request are journaled once; a vetted trace stays vetted; fresh items fail only when something outside does; an item sent back whose epoch is forgotten is not merged; one that every role has passed is merged or waits. |
| Resume.CrashKeeps | src/phases/execute.py:752-781 | A crash at any point keeps branch and pull request journaled at most once, and the trace vetted. |
| Resume.CallAgain | src/phases/execute.py:334-781 | Any sequence of calls, each cut short anywhere, journals branch and pull request at most once, and merges only after a passed review that no NO-GO follows. |
| Resume.ResumeForgetsEpoch | src/phases/execute.py:752-781 | Which steps a later call takes for done that the current epoch would redo, exactly. |
| Resume.ResumeSkipsCorrection | src/phases/execute.py:369-379 | After any epoch that a NO-GO ended, the next one would redo DEV and the gates, and a resumed call takes both for done. |
| Resume.SentBackIsStale | src/phases/execute.py:369-379 | Whatever NO-GO a call was cut short after, the next call finds DEV and the gates journaled and no review. |
| Resume.SentBackIsLeft | src/phases/execute.py:393-559 | The journal of an item that its tester sends back in its first epoch is made of what the branch, DEV, the gates and the tester journal one after the other. |
| Resume.SentBackIsEpoch | src/phases/execute.py:374-693 | It is an epoch that a NO-GO ended, and a vetted trace. |
| Resume.MergesUncorrected | src/phases/execute.py:334-750 | From that state two calls in which nothing fails and both roles say GO merge the item, once released, without a run of DEV: the first fails after the review, the second merges. |
| Epochs.DevNotRedone | src/phases/execute.py:390-392 | An epoch that holds a DEV entry does not run DEV. |
| ApprovalQueue.ApprovalShrinksWithConfidence | src/policy/trust_level.py:58-120 | Which actions each trust level gates; more confidence or less safety never adds an approval; safe mode gates every destructive action. |
| ApprovalQueue.ActionIdIsPadded | src/policy/approval_queue.py:314-324 | Action numbers are padded to four digits. |
| ApprovalQueue.ParseUndoesFormat | src/policy/approval_queue.py:314-324 | Parsing undoes formatting for every row. |
| ApprovalQueue.Latest | src/policy/approval_queue.py:210-236 | The greatest matching row, if any. |
| ApprovalQueue.Queue.Gate | src/policy/approval_queue.py:92-128 | Queues the action exactly when it needs an approval. |
| ApprovalQueue.Queue.Enqueue | src/policy/approval_queue.py:130-189 | Adds one pending row and returns its identifier. |
| ApprovalQueue.Queue.Approve | src/policy/approval_queue.py:254-292 | Approves a known pending action; unknown and approved ones are refused without effect. |
| ApprovalQueue.Queue.GateMerge | src/phases/execute.py:974-1021 | Releases by manifest, existing action or trust level, and names the action that waits. |
| ApprovalQueue.RunsQueueOneMerge | src/phases/execute.py:998-1021 | Over any interleaving at most one merge is queued for each run and item. |
| ApprovalQueue.RunsAdvance | src/policy/approval_queue.py:254-292 | Rows never vanish or change, and approvals are never withdrawn. |
| ApprovalQueue.RowsAreApprovedByCalls | src/policy/approval_queue.py:254-292 | A row is approved exactly when some call named it after it was queued. |
| ApprovalQueue.GatedMergesWaitForApproval | src/phases/execute.py:998-1021 | A gated merge is released exactly when its own action was approved after it was queued. |
| Utf8.DecodeOne | src/context/truncation.py:150 | Accepts a value only where its own encoding stands. |
| Utf8.DecodeUndoesEncode | src/context/truncation.py:143-150 | Decoding undoes encoding on every text. |
| Utf8.StrippedCut | src/context/truncation.py:147-149 | Cutting and stripping leaves the clipped text's encoding and at most a lone first byte. |
| Utf8.TruncateUtf8 | src/context/truncation.py:143-150 | The text itself when it fits, its clip otherwise. |
| Utf8.ClipFits | src/context/truncation.py:143-150 | A clip fits its limit and gives away at most four bytes. |
| Utf8.LongerTakesLimit | src/context/truncation.py:143-150 | Every longer prefix takes at least the whole limit, and exactly the limit only when it adds one character of several bytes. |
| Utf8.ExactFitIsDropped | src/context/truncation.py:143-150 | A character of several bytes that ends exactly at the limit is dropped. |
| Utf8.ClipIsLongestUnlessExact | src/context/truncation.py:143-150 | What is kept of a text that does not fit is its longest fitting prefix exactly unless a prefix that takes the whole limit ends in a character of several bytes. |
| Utf8.ExactFitWitness | src/context/truncation.py:143-150 | At a limit of two bytes nothing is kept of a text that begins with a two-byte character. |
| Truncation.Sweep | src/context/truncation.py:89-136 | One pass shortens the fields in order until the rest fits. |
| Truncation.TruncateToBudget | src/context/truncation.py:80-140 | For any marker text, terminates within the budget with exactly the values and notices that the sizes decide; the budget is used up to the marker and four bytes, and a field is cut only when the dearer ones are gone. |
| Truncation.TruncateRoleContext | src/context/truncation.py:59-140 | Terminates on every budget with at most that many bytes, 150 000 for the tester and 120 000 for the others by default, used up to the marker and four bytes; a field is cut only when the dearer ones are gone, and what stays of it is a prefix. |
| Truncation.BudgetIsUsed | src/context/truncation.py:89-127 | When what is dearer than a field leaves room for it beside the marker, but not for all of it, at most four bytes of the budget stay unused; nothing is cut of what fits. |
| Truncation.SweptKeepsPriority | src/context/truncation.py:89-127 | The diff is touched only once the logs are gone, the specification only once both are, and each stays whole, goes, or keeps a prefix before the marker. |
| Truncation.TouchedInPriority | src/context/truncation.py:89-127 | A field is changed exactly when it and the dearer fields exceed the budget; the earlier fields are then empty. |
| Truncation.KeptIsPrefix | src/context/truncation.py:95-127 | What is kept is the whole, nothing, or a prefix before the marker. |
| Truncation.NoticesInOrder | src/context/truncation.py:99-135 | Notices come in truncation order, one a field at most. |
| Truncation.NoticeIffShortened | src/context/truncation.py:99-135 | A field has its notice exactly when it was shortened. |
| Truncation.NoticesAccountForLoss | src/context/truncation.py:99-136 | The bytes lost in the notices are the total reduction. |
| CiWatcher.ClassIsTheWorst | src/gates/ci_classification.py:106-130 | The class of several checks is the worst class of any of them. |
| CiWatcher.ClassByConclusions | src/gates/ci_classification.py:66-130 | The class by the conclusions: a failed or action-required check first, then a running one, then timed out, cancelled, and broken or unknown ones; PASSED otherwise. |
| CiWatcher.ClassifyConcat | src/gates/ci_classification.py:106-130 | Together, two sets of checks have the worse of their classes. |
| CiWatcher.PassedMeansAllPassing | src/gates/ci_classification.py:106-143 | PASSED means checks were there and all passed; a test failure always names checks. |
| CiWatcher.FailedAreNamed | src/gates/ci_classification.py:133-143 | The failed names are those of the completed checks that did not pass. |
| CiWatcher.Watch | src/gates/ci_watcher.py:118-195 | Ends at the first decisive round, whatever the clock reads, after announcing one rerun for each earlier infrastructure failure, with one verdict and nothing after. |
| CiWatcher.RetriesAreNumbered | src/gates/ci_watcher.py:170-188 | Reruns are numbered from 1 without a gap. |
| CiWatcher.WatchIsBounded | src/gates/ci_watcher.py:128-188 | Reruns never exceed the limit, and no round follows one that reads a time past the timeout, on any clock. |
| CiWatcher.TimeoutEndsWatch | src/gates/ci_watcher.py:128-188 | While the clock advances, every watch ends, after at most as many polls as the timeout has ticks. |
| CiWatcher.UnavailableEndsWatch | src/gates/ci_watcher.py:140-154 | An unavailable answer in time ends the watch exactly when as many as the retries came just before it. |
| CiWatcher.ChecksEndWatch | src/gates/ci_watcher.py:129-195 | A late round ends the watch; one in time ends it on passed, failed, cancelled or timed-out checks, and on broken ones once the reruns are spent. |
| CiWatcher.VerdictIsFounded | src/gates/ci_watcher.py:129-234 | PASSED only on passing checks, test failures only with logs, a pause exactly on an uncured infrastructure failure, a timeout flag exactly when the clock is past it, and the reruns made. |
| Recharge.WeeklyIsNextMonday | src/quota/detection.py:152-162 | A weekly recharge is the first Monday midnight after now, within seven days. |
| Recharge.RechargeIsLater | src/quota/detection.py:135-163 | Every recharge time lies in the future. |
| Recharge.RechargeDelays | src/quota/detection.py:147-163 | The short, the fixed and the hourly recharge are exactly their seconds or hours away. |
| Quota.UnavailableUntilRecharge | src/quota/states.py:92-119 | An exhausted provider is unavailable exactly until its recharge time. |
| Quota.ReferenceOnlyHastens | src/quota/states.py:38-119 | Which reference times make an exhausted provider available. |
| Quota.ClassifiedAs | src/providers/claude.py:176-195 | What an invocation counts as, by its status and the exhaustion patterns. |
| Quota.CounterCountsFailures | src/quota/detection.py:204-248 | However the threshold is edited, the counter is the number of failures since the last success or mark, timeouts aside. |
| Quota.CounterIsResidue | src/quota/detection.py:230-242 | With a fixed threshold the counter is the residue of the failures in a row. |
| Quota.HeuristicFiresAtMultiples | src/quota/detection.py:230-242 | The heuristic fires exactly when a failure brings their number to a multiple of the threshold. |
| Quota.QuotaDetector.Evaluate | src/quota/detection.py:179-249 | Adds one invocation to one history and marks the provider exhausted exactly when that history says so, until a later time; otherwise a failure is reported as ERROR and any other result as it is. |
| Quota.QuotaDetector.MarkExhausted | src/quota/detection.py:251-295 | Stores the row, journals the exhaustion, and chooses a later time. |
| Release.NoGoComesLast | src/phases/release.py:566-612 | At most one NO GO is reported, and it comes last. |
| Release.EvaluateSpecGates | src/phases/release.py:566-612 | The specification's criteria in order, up to its first NO GO. |
| Release.EvaluateStage | src/phases/release.py:252-292 | A stage's criteria in order, up to the first NO GO, which stops it. |
| Release.EvaluateVersionGate | src/phases/release.py:243-318 | Reports the criteria of all gates up to the first NO GO; GO exactly when every use case and feature of the version and the integration suite pass, said without the gates' list; motifs exactly on NO GO, and a criterion that is GO blames nobody. |
| Release.AllGreenMeansPasses | src/phases/release.py:243-318 | The gates are all green exactly when, for each use case of the library with no version or this one, each feature of the library at this version, and the integration suite, the automatic gate and every judgement say GO. |
| Release.GatesInOrder | src/phases/release.py:252-303 | Use cases are asked before features, and the integration suite last. |
| Release.GatesBlame | src/phases/release.py:192-223 | Whom a gate blames: a feature its items, a use case the items of its features, the integration gate the items of the version. |
| Release.NormalizeDropsV | src/phases/release.py:132-138 | A validated version is itself, with or without a leading `v`. |
| Release.AllGoMeansAllGreen | src/phases/release.py:243-318 | All criteria are GO exactly when every automatic gate and every recorded judgement is. |
| Release.LastIsBlamed | src/phases/release.py:615-620 | Only the items of the criterion that stopped the gate are blamed. |
| Release.RejectingGateIsReported | src/phases/release.py:243-318 | The report ends in the NO GO of the first gate that is not green, and blames that gate's items. |
| Release.StillComplete | src/phases/release.py:171-189 | A rejected version stays complete exactly when the rejecting gate blames none of its items. |
| Release.HarmlessByKind | src/phases/release.py:171-318 | The integration gate always blames an item of the version; a feature or a use case blames none exactly when no item of the version stands under it. |
| Release.RejectedUntouched | src/phases/release.py:243-408 | In a consistent set a version whose use case without features says NO GO is rejected with every item still DONE. |
| Release.ExecuteVersionRelease | src/phases/release.py:321-408 | Tags exactly a version whose items are all DONE, of which there is one, and for which every use case, feature and the integration suite pass, by the tag its items name; a rejection is by the first gate that does not pass and reopens exactly the DONE items that gate blames; nothing else changes. |
| Stats.GroupingConserves | src/obs/stats.py:230-237 | Grouping by any key conserves every sum. |
| Stats.Group | src/obs/stats.py:240-254 | A group's figures are the sums over its records, for every status. |
| Stats.GroupedBy | src/obs/stats.py:230-237 | One group a key, in key order, with the figures of that key's records. |
| Stats.Aggregate | src/obs/stats.py:170-183 | The total and the five groupings of the same records. |
| Stats.AggregateConserves | src/obs/stats.py:170-183 | Every grouping's invocations, durations, iterations and status counts sum to those of the total. |
| Stats.SplitRecoversProvider | src/obs/stats.py:128-130 | The key is read back right exactly for providers without a slash. |
| Stats.MostEffective | src/obs/stats.py:118-135 | A role's best group is one of that role, and every other of the role does worse or comes later in the order of preference. |
| Buckets.VerdictCountsFromEvents | src/obs/stats.py:286-302 | Every item's verdicts once each; the NO GO count is the one the executor holds against its cap. |
| Buckets.ProviderRoleSizeStats | src/obs/stats.py:305-364 | Every bucket holds exactly its invocations and the verdicts imputed to it; the lookup always hits. |
| Buckets.ImputedBucketExists | src/obs/stats.py:342-350 | The bucket verdicts are imputed to exists. |
| Buckets.VerdictsAreConserved | src/obs/stats.py:342-350 | The GO and NO GO counts of all buckets, listed in any order, sum to those of the items whose DEV role ran. |
| Buckets.BucketsScoreWithinBounds | src/obs/stats.py:351-364 | On non-negative input exhaustions never exceed samples and every score lies in [0, 1]. |
| Scoring.ScoreIsBounded | src/providers/scoring.py:82-104 | Every score lies in [0, 1]. |
| Scoring.ScoreRewards | src/providers/scoring.py:82-104 | More GO, fewer NO GO, fewer iterations, less time and fewer exhaustions never lower the score. |
| Scoring.ScoreOfVerdicts | src/providers/scoring.py:82-104 | Nothing but GO, at once, scores 1; nothing but NO GO one half; no history three quarters. |
| Scoring.ScoreOfEffort | src/providers/scoring.py:82-104 | An iteration for each invocation costs a tenth, a minute for each a twentieth. |

## Left out

- Execute.Execute: the bounds on restarts and DEV runs hold within one call; across calls the at-most-once entries and the order of reviews and merges do, because the epoch is forgotten between calls.
- Execute.Execute, the approval queue: while a call runs nobody else changes the queue; interleavings of whole gate and approval calls are covered in `ApprovalQueue`, each call taken as one step.
- Execute, commits, branches, pull request bodies, correction contexts and baselines: their contents are foreign, a missing baseline is one of the errors.
- SpecIndex: YAML and schema validation; the index starts from validated records.
- Versions: the digits of the pattern are ASCII ones, and numerals longer than the 4300 digits that `int` reads by default have a key.
- Milestones: the pattern and the space and digit classes are ASCII; other Unicode digits and spaces are not recognised.
- Publish: titles, milestone texts, trust levels, worker counts and the other notes carried over from an earlier `planning.json`.
- Publish.collect_not_ready and the definition-of-ready and scope-overlap findings: they would only add easy members.
- Truncation: texts with lone surrogates, on which encoding raises.
- CiWatcher: sleeping and the calls that rerun a workflow are not modelled; a watch that no round ever decides, which needs a clock that never passes the timeout, does not end in the source either.
- Quota: parsing of `providers.toml` and the matching of exhaustion patterns; dates past the calendar's end.
- Release: the contents of tags, issues and reports; identifiers of gate reports.
- Stats and Scoring: real numbers stand for floating point, so rounding is not modelled.
- Scheduler, pause controller, failover, locks, recovery, provider adapters, the command line and all rendering.
