# Puffer, modelled and verified

A Dafny 4.11 model of the parts of Puffer that keep state, rewrite text or choose an optimum, and proofs about them.
`dafny verify dfyconfig.toml` checks the whole project.

What is modelled, one module per component:

- **Automations** (`AutomationSpec`, `AutomationValidation`, `CanonicalJson`, `AutomationCompiler`, `AutomationRuntime`,
  `BindingStore`, `AutomationStore`, `AutomationProtocol`, `AutomationRecovery`, `AutomationDeployer`): a recursive flow
  tree is validated with one growing id set, printed to canonical JSON and hashed, compiled to workflow graphs and
  connector bindings, deployed with the ids the workflow runtime answers, and kept in a revisioned store. The editor
  (`save_spec`) and the deployer (`replace_runtime`) interleave on it freely, writes may fail, and the store may be
  reloaded. `AutomationPlan` and `AutomationEffects` tell what a plan and a store hold, field by field;
  `AutomationExamples` shows the exceptions at one concrete store.
- **Delimited text stores** (`ProjectMemory`, `UserMemory`, `UserMemoryStore`): entries joined by a delimiter line, and
  keyed blocks printed as `## key` sections, both down to single characters.
- **Optimisation and aggregation** (`MiniPlacement`, `UltraReview`, `SkillEvolution`): the summed-area-table window
  search, the merge of review findings, the Pareto loop that evolves skills.
- **Folds and small state machines** (`BenchmarkTrajectory`, `UnixPath`, `WorkspacePaths`, `ToolIds`, `PlanMode`): the
  trajectory built from a stream with retries, the two lexical path normalisers and what is built on them, the
  normalisation of tool ids, the plan-mode reminders.
- `Text` and `Wrappers` hold what these share: trimming, substring search, joining, stable sorting, `Option`, `Result`.

How to read it. Code that changes state in place is a class or a method with loops, proved against a function of the
old state (`Perform`, `Mutate`, `Compile`, `Trajectory`, `Normalized`, ...); the lemmas then prove what that function
guarantees over all inputs or all runs, and what it computes field by field or letter by letter, with a few literal texts.
A file is a string field (or, for the automation store, the list last written), and an operation under a lock is one
step. Scores and confidences are exact reals. Characters are Unicode scalar values, and white space is Rust's.

## Where the code and its documentation or intent part ways

The model follows the code; each point is proved, with the exact condition where there is one.

- `replace_runtime` stores the new runtime in memory before its last validation. When that validation fails, the call
  returns an error but memory has changed. A later successful call on another record then writes a file that `load`
  refuses (`AutomationProtocol.StepLoadableIff`, `AutomationProtocol.FailedReplacePoisonsFile`,
  `AutomationExamples.RejectedRuntimeReachesFile`). The next call repairs memory exactly when it gives that record a
  valid runtime, an error or a committed spec, deletes it, or reloads (`AutomationRecovery.RecoversIff`). The deployer
  records an error next, which always repairs it (`AutomationRecovery.DeployerLeavesLoadable`,
  `AutomationDeployer.CompileLeavesLoadable`).
- A connection trigger id may contain `_` or capitals, but its binding slug must be kebab-case. Such a valid automation
  can be synced as a draft, which has no bindings, but never be deployed live: the binding store refuses the slug, and so
  would the validator (`AutomationRuntime.CompiledRuntimeValidIff`, `AutomationRuntime.UnderscoreTriggerRejected`,
  `BindingStore.DeployReachesEndIff`). What can still fail the validator is a workflow id that is not URL-safe
  (`AutomationDeployer.ReplacementFailsIff`).
- Trigger ids and step ids are checked in separate sets. The compiled root graph has a cycle exactly when one is shared
  (`AutomationCompiler.RootGraphCyclicIff`), and an automation with one trigger and one step shows it
  (`AutomationCompiler.ValidRecordWithCycle`).
- A write that fails leaves the change in memory. A later reload undoes a committed save exactly when the save's own
  write was lost and no call up to the reload succeeded: any success, even on another record, writes the save with it
  (`AutomationProtocol.LostSaveIff`, and over any number of reloads `AutomationProtocol.DiskRevisionIff`). Two
  spec-changing saves with one expected revision can then both commit, and in no other case
  (`AutomationProtocol.BothCommitIff`); between reloads they never do (`AutomationProtocol.NoTwoCommits`), and after a
  save that succeeded never at all (`AutomationProtocol.NoCommitAfterSuccess`).
  `AutomationExamples.TwoSavesOneRevision` and `AutomationExamples.OtherRecordRescuesSave` show both cases.
- Deleting and recreating an automation starts its revision at 1 again. A save after that commits exactly when it expects
  one plus the number of changes committed since, so a stale editor of the old record can overwrite the new one
  (`AutomationProtocol.CommitsAfterCreateIff`, `AutomationExamples.StaleEditorOverwrites`).
- A live deployment installs its bindings before it asks the store to accept the new runtime, and does not take them back.
  A call that fails leaves bindings behind of an automation whose runtime lists none, under an exact condition
  (`AutomationDeployer.LeftoverIff`, `AutomationDeployer.FailureIsRecorded`); after a call that succeeds the two stores
  agree (`AutomationDeployer.DeployedStoresAgree`).
- Binding slugs are distinct within one automation. Across automations they can meet exactly when one automation id
  extends the other by a dash and more; the deployment of the second then removes a binding of the first
  (`AutomationCompiler.BindingSlugsMeetIff`, `BindingStore.DeployDropsIff`, `BindingStore.ExtendedIdsCollide`).
- A memory entry that merely ends in a newline and `§` is torn by the delimiter that follows it
  (`ProjectMemory.JointIsFirst`, `ProjectMemory.TornEntry`).
- A user-memory body with a line that starts with `## `, or with `\r\n` in it, does not survive a write
  (`UserMemory.PrintThenParse`, `UserMemoryStore.SetReadsBack`, `UserMemoryStore.HeaderLineLost`,
  `UserMemoryStore.CarriageReturnLost`).
- `normalize_planner_lanes` is documented to always include `logic`. It loses it exactly when five different other names
  come before it (`UltraReview.NormalizedLanes`, `UltraReview.LogicCanBeLost`). Its only caller never passes such a list,
  because it keeps known lanes only (`UltraReview.PlannerKeepsLogic`).
- The re-entry reminder of plan mode is marked as delivered before the prompt after it is rendered. If the plan becomes
  unreadable in between, the reminder is lost (`PlanMode.ReentryLostIff`); a plan that stays as it is loses nothing
  (`PlanMode.SteadyPlanLosesNothing`).
- The two path normalisers differ on relative paths that climb above their start or end at it
  (`WorkspacePaths.NormalizersAgreeIff`); a relative path never targets the active plan file
  (`WorkspacePaths.RelativeNeverTargetsPlan`).

## Model

| member | source | states |
|---|---|---|
| CanonicalJson.PrintCanonical | crates/puffer-automation/src/hash.rs:15-52 | the recursive printer, appending to a buffer in loops over items and sorted keys, computes the canonical text |
| CanonicalJson.SamePrintsSame | crates/puffer-automation/src/hash.rs:29-47 | values equal up to the order of object fields, at any depth, print to the same text |
| CanonicalJson.ReadBack | crates/puffer-automation/src/hash.rs:15-52 | whatever follows two printed values, equal texts mean equal values and equal remainders: the text can be read back unambiguously |
| CanonicalJson.CanonicalIffSame | crates/puffer-automation/src/hash.rs:15-52 | two well-formed JSON values have the same canonical text exactly when they are equal with unordered objects |
| CanonicalJson.ObjectText | crates/puffer-automation/src/hash.rs:31-50 | an object prints as its members between braces, joined by commas, each key once and every two keys in code point order |
| CanonicalJson.ArrayText | crates/puffer-automation/src/hash.rs:19-28 | an array prints as its items between brackets, joined by commas, in their order |
| CanonicalJson.SampleText | crates/puffer-automation/src/hash.rs:15-52 | one object with unsorted fields, nested values and every scalar, to the letter |
| CanonicalJson.EscapedText | crates/puffer-automation/src/hash.rs:17-19 | a text with a quote, a backslash, a line feed and a control character, to the letter |
| CanonicalJson.ShortEscapes | crates/puffer-automation/src/hash.rs:17-19 | the other short escapes, to the letter |
| Text.AtMostIff | crates/puffer-automation/src/hash.rs:32-33 | the order of every sort is that of code points: a prefix comes first, otherwise the smaller character at the first difference |
| Text.WhiteSpaceIs | crates/puffer-automation/src/validation.rs:27-29 | what trimming cuts are the 25 white space characters of Unicode, one by one |
| AutomationCompiler.SpecHashIffSame | crates/puffer-automation/src/hash.rs:8-13 | two specs have the same hash exactly when their encodings are equal as values or the digest maps their different canonical texts to one value |
| AutomationValidation.ValidateTriggers | crates/puffer-automation/src/validation.rs:177-215 | the loop over a growing id set accepts exactly the trigger lists whose triggers are each valid and whose ids are pairwise distinct |
| AutomationValidation.AllNewIff | crates/puffer-automation/src/validation.rs:177-182 | checking each id against those seen before decides pairwise distinctness and disjointness from the initial set |
| AutomationValidation.ValidateFlow | crates/puffer-automation/src/validation.rs:217-249 | the recursive walk with one shared set accepts exactly the non-empty flows of valid steps whose ids are distinct at all depths and new to the set, and leaves the set grown by exactly the ids of the flow |
| AutomationValidation.SpecIndex.FromSpec | crates/puffer-automation/src/validation.rs:113-134 | the index holds exactly the step ids at every depth, the loop ids among them, and the connection trigger ids |
| AutomationValidation.SpecIndex.AddFlow | crates/puffer-automation/src/validation.rs:136-149 | adds exactly the ids and the loop ids of a flow at every depth and keeps what was there |
| AutomationValidation.LoopIdsAmongIds | crates/puffer-automation/src/validation.rs:136-149 | every loop id of the index is one of its step ids |
| AutomationValidation.LoopIdsAreLoops | crates/puffer-automation/src/validation.rs:136-149 | an id is among the loop ids exactly when a loop step carries it, wherever it is nested |
| AutomationValidation.TopLevelLoopSuffices | crates/puffer-automation/src/validation.rs:251-255 | the check of top-level steps finds a loop exactly when there is one at any depth |
| AutomationValidation.CheckReferences | crates/puffer-automation/src/validation.rs:71-111 | accepts exactly the runtimes whose loop-body roles name loops, whose other roles name steps, and whose bindings name connection triggers |
| AutomationValidation.ValidateSpec | crates/puffer-automation/src/validation.rs:21-55 | the sequence of checks accepts exactly the valid specs, AgentEnv triggers being refused as soon as there is a loop |
| AutomationValidation.ValidateRecord | crates/puffer-automation/src/validation.rs:12-19 | accepts exactly the records with a slug id, a valid spec, a valid runtime and references that resolve |
| AutomationValidation.IdAlphabets | crates/puffer-automation/src/validation.rs:365-401 | slugs and local ids are the non-empty texts over their alphabets, written out |
| AutomationValidation.JsonPathIff | crates/puffer-automation/src/validation.rs:380-388 | a path joined from parts by dots is accepted exactly when every part has more than white space |
| AutomationValidation.StepsOkIff | crates/puffer-automation/src/validation.rs:217-249 | the walk accepts exactly the flows of which every step that occurs, at any depth, is in order by itself |
| AutomationValidation.LoopsMayRun | crates/puffer-automation/src/validation.rs:257-284 | a loop that may not run once is refused |
| AutomationValidation.HashIs | crates/puffer-automation/src/validation.rs:355-363 | a hash is `sha256:` and 64 hexadecimal digits |
| AutomationValidation.RefusedSpecs | crates/puffer-automation/src/validation.rs:21-55 | another version, a blank name, blank instructions, a blank prompt, no trigger, no step, a repeated id, an AgentEnv trigger beside a loop at any depth, or a step out of order is refused |
| AutomationExamples.LoopIsValid | crates/puffer-automation/src/validation.rs:21-55 | a concrete spec whose only step is a loop is accepted |
| AutomationCompiler.TriggerEntries | crates/puffer-automation/src/compiler.rs:89-108 | the trigger loop yields one node per trigger, in order, and their ids as the first entries |
| AutomationCompiler.CompileRoot | crates/puffer-automation/src/compiler.rs:89-144 | the loop growing nodes and edges fails with the error of the first step after a loop, and otherwise yields the root graph |
| AutomationCompiler.CompileLoopBody | crates/puffer-automation/src/compiler.rs:158-193 | fails on the first nested loop, naming it and its parent, and otherwise yields the body graph under its loop's role |
| AutomationCompiler.CompileAutomation | crates/puffer-automation/src/compiler.rs:50-87 | hash, root, loop bodies and bindings in this order, the first error stopping the rest |
| AutomationCompiler.CompilesIff | crates/puffer-automation/src/compiler.rs:89-193 | compilation succeeds exactly for node steps followed by at most one final loop with a flat body |
| AutomationCompiler.RootProblemNames | crates/puffer-automation/src/compiler.rs:110-138 | the error names the step right after the first loop, and that loop |
| AutomationCompiler.BodyProblemIff | crates/puffer-automation/src/compiler.rs:158-188 | a body fails exactly when it has a loop, and the error names the first one |
| AutomationCompiler.StepEdgesIff | crates/puffer-automation/src/compiler.rs:110-127 | the edges are exactly those from every entry to the first node step and from each node step to the next |
| AutomationCompiler.RootNodesInOrder | crates/puffer-automation/src/compiler.rs:89-138 | one node per trigger, then one per node step, in spec order and under the same ids |
| AutomationCompiler.EdgesGoForward | crates/puffer-automation/src/compiler.rs:89-144 | every edge goes from a node to a later one, whatever the ids |
| AutomationCompiler.RootWalksFollowFlow | crates/puffer-automation/src/compiler.rs:89-144 | for a valid spec, the walks from a trigger are exactly the prefixes of that trigger followed by the steps in spec order, if and only if no trigger shares its id with a step |
| AutomationCompiler.WalksFollowIff | crates/puffer-automation/src/compiler.rs:89-144 | in any graph with such edges, walks are unique and finite exactly when entries and steps share no id |
| AutomationCompiler.SharedIdCycles | crates/puffer-automation/src/compiler.rs:110-127 | an id shared by an entry and a step closes a cycle from that step through the first one back to itself |
| AutomationCompiler.CycleGoesOn | crates/puffer-automation/src/compiler.rs:110-127 | round a cycle there are walks of every length |
| AutomationCompiler.SharedIdEscapes | crates/puffer-automation/src/compiler.rs:110-127 | with a shared id some walk is not a prefix of the flow |
| AutomationCompiler.RootGraphCyclicIff | crates/puffer-automation/src/compiler.rs:89-144 | the root graph of a valid spec has a cycle exactly when a trigger and a step share an id |
| AutomationCompiler.ValidRecordWithCycle | crates/puffer-automation/src/validation.rs:41-50 | a concrete record with trigger and step both named s is valid, compiles, and its step follows itself |
| AutomationCompiler.BodyWalksFollowBody | crates/puffer-automation/src/compiler.rs:158-193 | the walks from the first body step are exactly the prefixes of the body |
| AutomationPlan.RootNodesCarry | crates/puffer-automation/src/compiler.rs:195-230 | for every record each trigger gives a node with its own fields, or else the untrusted Puffer webhook under its own path, POST only, without authentication; then each node step gives one with all its fields, in order |
| AutomationPlan.StepNodesCarry | crates/puffer-automation/src/compiler.rs:158-204 | the k-th node of a body or root graph carries id, type, name, config and trusted flag of the k-th node step |
| AutomationPlan.BindingsCarry | crates/puffer-automation/src/compiler.rs:58-76 | the k-th binding has the id, connection, connector and slug of the k-th connection trigger |
| AutomationPlan.PlanCarriesSpec | crates/puffer-automation/src/compiler.rs:50-87 | ids, revision, hashes, nodes and bindings of a whole compiled plan, told from the fields of the spec |
| AutomationExamples.LoopCompiles | crates/puffer-automation/src/compiler.rs:50-87 | a concrete automation with a loop compiles to a root and one loop body |
| AutomationRuntime.IdIn | crates/puffer-cli/src/daemon_automation_runtime.rs:1188-1200 | the id taken from a reply is trimmed and not empty, and there is none exactly when every field is absent or blank |
| AutomationRuntime.IdIsFirst | crates/puffer-cli/src/daemon_automation_runtime.rs:1188-1200 | it is the trimmed text of the first field that is not blank |
| AutomationRuntime.SyncWorkflows | crates/puffer-cli/src/daemon_automation_runtime.rs:539-554 | the loop over the compiled workflows fails exactly when some reply gives no id, and otherwise pairs each workflow with its id, its hash and whether it is live |
| AutomationRuntime.CompiledRuntimeValidIff | crates/puffer-cli/src/daemon_automation_runtime.rs:560-586 | the runtime built from a valid record passes the reference check, and passes the runtime validator exactly when every returned workflow id is URL-safe and, for a live deployment, connection trigger ids are in kebab case |
| AutomationRuntime.UnderscoreTriggerRejected | crates/puffer-automation/src/validation.rs:57-69 | a concrete valid record with connection trigger new_mail compiles; its draft runtime passes the validator and its live one does not |
| AutomationCompiler.BindingSlugsDistinct | crates/puffer-automation/src/compiler.rs:252-254 | no two bindings of one automation share a slug |
| AutomationCompiler.BindingSlugsMeetIff | crates/puffer-automation/src/compiler.rs:252-254 | bindings of two different automations can get one slug exactly when one automation id extends the other by a dash and more |
| AutomationCompiler.SlugsMeet | crates/puffer-automation/src/compiler.rs:252-254 | then two kebab-case trigger ids under which they do |
| BindingStore.Store.Upsert | crates/puffer-subscriptions/src/store.rs:101-112 | a valid binding replaces the one with its slug and the list stays sorted; an invalid one changes nothing |
| BindingStore.Store.DeployBindings | crates/puffer-cli/src/daemon_automation_runtime.rs:700-749 | the loop over connection triggers, its early end and the bindings installed before it included |
| BindingStore.DeployReachesEndIff | crates/puffer-cli/src/daemon_automation_runtime.rs:711-746 | for valid triggers the loop reaches its end exactly when connection trigger ids are in kebab case |
| BindingStore.DeployInstallsIff | crates/puffer-cli/src/daemon_automation_runtime.rs:711-746 | into a store without bindings of the automation the loop, finished or not, installs one exactly when the first connection trigger has an id in kebab case |
| BindingStore.DeployKeepsSlugs | crates/puffer-subscriptions/src/store.rs:101-112 | the loop, finished or not, keeps one binding per slug |
| BindingStore.DeployLeaves | crates/puffer-cli/src/daemon_automation_runtime.rs:711-746 | a finished deployment leaves exactly the automation's own bindings and the earlier ones under other slugs |
| BindingStore.DeployInstalls | crates/puffer-cli/src/daemon_automation_runtime.rs:711-746 | a finished deployment has installed for each connection trigger a binding with its own connection, filters and contacts that runs the automation and is enabled exactly when the automation is |
| BindingStore.DeployKeepsOrder | crates/puffer-subscriptions/src/store.rs:101-112 | the loop, finished or not, keeps the store in the order of slugs |
| BindingStore.DeployDropsIff | crates/puffer-subscriptions/src/store.rs:101-112 | deploying one automation removes a binding of another, deployed before, exactly when two of their slugs are equal |
| BindingStore.UnrelatedIdsKeepBindings | crates/puffer-subscriptions/src/store.rs:101-112 | valid automations whose ids do not extend one another never remove each other's bindings |
| BindingStore.ExtendedIdsCollide | crates/puffer-subscriptions/src/store.rs:101-112 | for any two ids of which one extends the other, two valid, compilable automations of which the second removes the first's binding |
| AutomationStore.CheckLoaded | crates/puffer-automation/src/store.rs:63-87 | loading accepts exactly the files whose records are all valid and whose ids are distinct |
| AutomationStore.Store.Persist | crates/puffer-automation/src/store.rs:305-314 | a write that goes through makes the file the records, one that fails leaves it |
| AutomationStore.Store.CreateRecord | crates/puffer-automation/src/store.rs:106-137 | validates, refuses a taken id, appends with revision 1, sorts by id, writes: memory, file and result in every case, failed write included |
| AutomationStore.Store.SaveSpecAt | crates/puffer-automation/src/store.rs:140-176 | validates a draft, checks existence then revision; a changed hash bumps the revision, replaces the spec and drops the artifacts; validates again and writes |
| AutomationStore.Store.SetRecordStatus | crates/puffer-automation/src/store.rs:179-193 | changes the status of the named record only, validates and writes |
| AutomationStore.Store.Archive | crates/puffer-automation/src/store.rs:196-198 | sets the status to archived |
| AutomationStore.Store.DeleteRecord | crates/puffer-automation/src/store.rs:201-209 | removes the record, reports one that is missing, writes |
| AutomationStore.Store.ReplaceRecordRuntime | crates/puffer-automation/src/store.rs:212-243 | checks revision, compiled revision and spec hash, assigns the runtime, and only then validates: the error path with changed memory included |
| AutomationStore.Store.RecordRuntimeError | crates/puffer-automation/src/store.rs:246-266 | checks the revision, then replaces the runtime by a failed one with the message |
| AutomationStore.StepKeepsFresh | crates/puffer-automation/src/store.rs:165-170 | every call, successful or not, keeps artifacts tied to the revision and hash they were compiled from, in memory and on disk |
| AutomationStore.ArtifactsMatchSpec | crates/puffer-automation/src/store.rs:292-303 | in every state reachable from an empty store, a record with artifacts or status deployed or draft-synced has its current revision as compiled revision and the hash of its current spec |
| AutomationEffects.CommittedSaveLeaves | crates/puffer-automation/src/store.rs:140-176 | a committed save, written or not, leaves the new spec, one revision more, the old status, no artifacts and no error, what was compiled still told, and a runtime that is stale exactly when there were artifacts, else not compiled |
| AutomationEffects.OtherSaveLeaves | crates/puffer-automation/src/store.rs:140-176 | a save that does not commit leaves every record as it was |
| AutomationEffects.OthersUntouched | crates/puffer-automation/src/store.rs:106-266 | a call other than a reload leaves every record under another id as it was |
| AutomationEffects.CreateLeaves | crates/puffer-automation/src/store.rs:106-137 | a new record has the given spec and status, revision 1 and nothing compiled; it is refused exactly when invalid or its id is taken |
| AutomationEffects.StatusLeaves | crates/puffer-automation/src/store.rs:179-193 | a status change changes the status and nothing else |
| AutomationEffects.ReplacementLeaves | crates/puffer-automation/src/store.rs:212-243 | a replacement puts the given runtime there, even if it then fails, exactly when revision, compiled revision and hash are the current ones |
| AutomationEffects.ErrorLeaves | crates/puffer-automation/src/store.rs:246-266 | a recorded error leaves a failed runtime with the message and nothing compiled |
| AutomationEffects.DeletionLeaves | crates/puffer-automation/src/store.rs:201-209 | a deletion takes the record away and reports one that is missing |
| AutomationEffects.ResultIsStored | crates/puffer-automation/src/store.rs:106-266 | the record a call returns is the one that is stored |
| AutomationEffects.SaveReports | crates/puffer-automation/src/store.rs:140-176 | which error a save reports, in this order: invalid, missing, wrong revision with both numbers, failed write |
| AutomationEffects.ReplacementReports | crates/puffer-automation/src/store.rs:212-243 | which error a replacement reports, in order |
| AutomationProtocol.StepRevision | crates/puffer-automation/src/store.rs:140-176 | a call that a record survives changes its spec and revision only by committing a new spec, and then by exactly one |
| AutomationProtocol.RunRevision | crates/puffer-automation/src/store.rs:165-170 | over every interleaving the revision grows by exactly the number of committed spec changes; without any the spec is unchanged |
| AutomationProtocol.RevisionCountsCommits | crates/puffer-automation/src/store.rs:106-137 | within one incarnation the revision is one plus the number of committed spec changes |
| AutomationProtocol.NoTwoCommits | crates/puffer-automation/src/store.rs:281-290 | of two spec-changing saves with the same expected revision the second does not commit and returns an error, whatever comes between |
| AutomationProtocol.RunKeepsReached | crates/puffer-automation/src/store.rs:140-176 | a revision reached both in memory and on disk is never lost by any run without a deletion, failed writes and reloads included |
| AutomationProtocol.NoCommitAfterSuccess | crates/puffer-automation/src/store.rs:281-290 | after a successful spec-changing save every save with the same expected revision returns an error, even across lost writes and reloads |
| AutomationProtocol.LostSaveIsForgotten | crates/puffer-automation/src/store.rs:173-175 | a save whose write was lost, reloaded at once, leaves the store as it was, and any save that could commit before it can commit again |
| AutomationProtocol.DiskRevisionIff | crates/puffer-automation/src/store.rs:165-176 | in any run without a deletion, lost writes and reloads included, the revision on disk moves on exactly when some call succeeds while memory is past it |
| AutomationProtocol.LostSaveIff | crates/puffer-automation/src/store.rs:140-176 | after a committed save, any calls and a reload, the old revision is back exactly when the save's own write was lost and none of the calls succeeded; the store is then what it was before |
| AutomationProtocol.BothCommitIff | crates/puffer-automation/src/store.rs:140-176 | of two saves with one expected revision, with any calls but a deletion and then a successful reload between them, both commit exactly when no call up to the reload wrote the first and the second could have gone first |
| AutomationProtocol.DeployAcceptedIff | crates/puffer-automation/src/store.rs:212-243 | a runtime built from a valid snapshot is accepted later exactly when no spec change committed since, every workflow id is URL-safe and, for a live deployment, connection trigger ids are in kebab case |
| AutomationProtocol.AcceptedMeansSameSpec | crates/puffer-automation/src/store.rs:228-235 | in any state, a runtime that is accepted was compiled at the current revision from a spec whose encoding equals the current one's, unless their digests collide |
| AutomationProtocol.CommitsAfterCreateIff | crates/puffer-automation/src/store.rs:117-128 | after a create and any calls the record lives through, a save commits exactly when it is a valid change and expects one plus the number of changes committed since the create |
| AutomationProtocol.StaleEditorAcrossIncarnations | crates/puffer-automation/src/store.rs:117-128 | after delete and create, a save that expects revision 1 overwrites the new record |
| AutomationProtocol.StepLoadableIff | crates/puffer-automation/src/store.rs:236-242 | every call keeps memory loadable, except exactly a runtime replacement that fails its final check |
| AutomationProtocol.SecondValidationNeverFails | crates/puffer-automation/src/store.rs:145-176 | in a loadable store an invalid-record error of a save comes from the first validation |
| AutomationProtocol.FileFollowsMemory | crates/puffer-automation/src/store.rs:62-86 | a successful call leaves file and memory equal; the file only ever holds itself or the memory of that moment |
| AutomationProtocol.StepSorted | crates/puffer-automation/src/store.rs:125-137 | every call keeps records and file sorted by id |
| AutomationProtocol.ReopensAfterRun | crates/puffer-automation/src/store.rs:62-86 | after any run from empty without a failed final check, memory and file both load, sorted and with unique ids |
| AutomationProtocol.FailedReplacePoisonsFile | crates/puffer-automation/src/store.rs:236-242 | after a failed final check, one successful call on another record writes a file that does not load |
| AutomationRecovery.RecoversIff | crates/puffer-automation/src/store.rs:236-242 | after a failed final check the next call makes memory loadable exactly when it gives the record a good runtime, an error or a committed spec, deletes it, or reloads a file that loads |
| AutomationRecovery.RepairsIff | crates/puffer-automation/src/store.rs:236-242 | the same from any state with one record whose runtime is broken |
| AutomationRecovery.DeployerLeavesLoadable | crates/puffer-cli/src/daemon_automation_runtime.rs:507-522 | the error recorded after a failed replacement leaves memory loadable, and the file if it is written, whatever calls come between the two |
| AutomationDeployer.CompileInner | crates/puffer-cli/src/daemon_automation_runtime.rs:525-586 | compile, ids, bindings, then the replacement; what each failure leaves in the two stores |
| AutomationDeployer.CompileWithStore | crates/puffer-cli/src/daemon_automation_runtime.rs:493-523 | lookup, revision check, compilation, and the recording of a failure: both stores and the result in every case |
| AutomationDeployer.DecisionMeans | crates/puffer-cli/src/daemon_automation_runtime.rs:525-560 | for a valid record the store is asked to replace the runtime exactly when the record compiles, every reply gives an id and, for a live deployment, connection trigger ids are in kebab case |
| AutomationDeployer.ReplacementFailsIff | crates/puffer-cli/src/daemon_automation_runtime.rs:525-586 | such a replacement fails its final check exactly when some returned workflow id is not URL-safe |
| AutomationDeployer.CompileLeavesLoadable | crates/puffer-cli/src/daemon_automation_runtime.rs:493-523 | whatever the workflow runtime answers and whichever writes are lost, a call leaves memory loadable when the other threads do |
| AutomationDeployer.CompileSucceedsIff | crates/puffer-cli/src/daemon_automation_runtime.rs:493-586 | the call succeeds exactly when the revision matches, the automation compiles, every workflow gets a URL-safe id, live trigger ids are in kebab case, no spec change was committed meanwhile and the write goes through |
| AutomationDeployer.DeployedStoresAgree | crates/puffer-cli/src/daemon_automation_runtime.rs:557-586 | after a live deployment that succeeds every slug the runtime lists has exactly one binding, the one generated from its trigger, and an unlisted binding of the automation remains exactly when there was one |
| AutomationDeployer.LeftoverIff | crates/puffer-cli/src/daemon_automation_runtime.rs:557-586 | for an automation without bindings, a failed call leaves some exactly when it was live, compiled and got its ids, its first connection trigger id is in kebab case, and a later one is not or the store does not accept the replacement |
| AutomationDeployer.FailureIsRecorded | crates/puffer-cli/src/daemon_automation_runtime.rs:511-521 | a failed call that met no concurrent commit leaves the runtime failed, with the error and no bindings |
| AutomationDeployer.SuccessTells | crates/puffer-cli/src/daemon_automation_runtime.rs:539-586 | what a call that succeeds stores, live or as a draft: hash, revision, status, per workflow its role, id, hash and liveness, and the bindings only when live |
| AutomationDeployer.CompileReports | crates/puffer-cli/src/daemon_automation_runtime.rs:493-586 | which failure a call reports, in order: no record, stale revision, compilation, no workflow id, refused binding, refused replacement |
| AutomationExamples.TwoSavesOneRevision | crates/puffer-automation/src/store.rs:173-175 | two valid records, the write of a save lost, a reload: a second save of the same revision commits and succeeds |
| AutomationExamples.OtherRecordRescuesSave | crates/puffer-automation/src/store.rs:179-193 | there, a status change of the other record before the reload makes the second save fail |
| AutomationExamples.RejectedRuntimeReachesFile | crates/puffer-automation/src/store.rs:236-242 | there, a runtime with workflow id a/b is refused, and the next status change of the other record writes a file that does not load |
| AutomationExamples.StaleEditorOverwrites | crates/puffer-automation/src/store.rs:117-128 | there, a record is deleted and created anew, and a save made for the deleted one overwrites it |
| ProjectMemory.ReadFile | crates/puffer-core/memory.rs:378-398 | the reading loop yields the trimmed, non-blank pieces, each once, in order |
| ProjectMemory.JointIsFirst | crates/puffer-core/memory.rs:387-388 | the joint after an entry is the leftmost delimiter exactly when the entry neither contains the delimiter nor ends in its first two characters |
| ProjectMemory.SplitUndoesJoin | crates/puffer-core/memory.rs:378-408 | splitting the joined entries gives them back exactly when no entry contains the delimiter and only the last ends in its first two characters |
| ProjectMemory.WriteThenRead | crates/puffer-core/memory.rs:378-408 | writing then reading returns the list exactly when it is distinct, trimmed, non-empty and joinable |
| ProjectMemory.RereadShrinks | crates/puffer-core/memory.rs:378-408 | reading and writing back never makes the file longer |
| ProjectMemory.UniqueMatch | crates/puffer-core/memory.rs:471-484 | yields an index exactly when that entry alone contains the text, and no-match exactly when none does |
| ProjectMemory.MemoryFile.AddEntry | crates/puffer-core/memory.rs:294-321 | file and result of an addition in every case: blank, unsafe, repeated, over the limit, added |
| ProjectMemory.MemoryFile.ReplaceEntry | crates/puffer-core/memory.rs:323-349 | file and result of a replacement in every case |
| ProjectMemory.MemoryFile.RemoveEntry | crates/puffer-core/memory.rs:351-365 | file and result of a removal in every case |
| ProjectMemory.CommandKeepsCapacity | crates/puffer-core/memory.rs:439-469 | a command leaves a file within the limit or no longer than before |
| ProjectMemory.CapacityOverRuns | crates/puffer-core/memory.rs:294-376 | a file within the limit stays within it under every run of commands, failed ones included |
| ProjectMemory.RunRefinesList | crates/puffer-core/memory.rs:367-408 | every run of commands whose written lists are joinable acts on the file as on a plain list |
| ProjectMemory.WholeContentsStayJoinable | crates/puffer-core/memory.rs:367-408 | contents that neither hold the delimiter nor end in a newline and the section sign always keep them joinable |
| ProjectMemory.AddedIsReadBack | crates/puffer-core/memory.rs:294-321 | an added entry is read back after the others exactly when the new list is joinable |
| ProjectMemory.RemoveUndoesAddIff | crates/puffer-core/memory.rs:351-365 | removing an added entry by its own text restores the list exactly when no other entry contains that text |
| ProjectMemory.TornEntry | crates/puffer-core/memory.rs:17-17 | an entry ending in the delimiter's first two characters is lost on reading |
| ProjectMemory.ReplaceChangesMatch | crates/puffer-core/memory.rs:323-349 | a replacement that succeeds puts the trimmed new content in place of the one entry that contains the old text and moves no other |
| ProjectMemory.RemoveDropsMatch | crates/puffer-core/memory.rs:351-365 | a removal takes out the one entry that contains the text and keeps the others in order |
| ProjectMemory.AddAppends | crates/puffer-core/memory.rs:294-321 | an addition puts a content that is not there at the end |
| ProjectMemory.RefusedIff | crates/puffer-core/memory.rs:294-376 | when each command is refused, exactly |
| ProjectMemory.ReplaceReadsBack | crates/puffer-core/memory.rs:323-349 | the next read finds the list with that one entry changed exactly when it is joinable and holds the new content once |
| ProjectMemory.RemoveReadsBack | crates/puffer-core/memory.rs:351-365 | after a removal the next read finds the remaining list exactly when it is joinable |
| ProjectMemory.ReportTells | crates/puffer-core/memory.rs:410-447 | size, number of entries and used percent of what a command wrote |
| ProjectMemory.UnsafeRefused | crates/puffer-core/memory.rs:486-503 | a content with one of the seven phrases, in any ASCII case and anywhere in it, is refused |
| ProjectMemory.InvisibleRefused | crates/puffer-core/memory.rs:504-515 | so is one with a zero-width character |
| ProjectMemory.AlphaBeta | crates/puffer-core/memory.rs:323-365 | a replacement and a removal on a file of two entries, to the letter |
| UserMemory.NormalizeKeyIdempotent | crates/puffer-core/user_memory.rs:44-52 | for every lower-casing and every set of letters that obey the laws of Unicode used, keys are lower-case words joined by dashes and normalising twice is normalising once |
| UserMemory.KeyKeepsLetters | crates/puffer-core/user_memory.rs:44-51 | the letters and digits of a key are those of the trimmed text in lower case, in order; a dash stands between two exactly when something else stood there, with none at the ends and none doubled |
| UserMemory.SameKeyIff | crates/puffer-core/user_memory.rs:42-51 | two keys address one block exactly when their letters and digits are the same, apart at the same places |
| UserMemory.HomeAddress | crates/puffer-core/user_memory.rs:42-51 | the three documented spellings of one key, and another key, to the letter |
| UserMemory.Parse | crates/puffer-core/user_memory.rs:55-83 | the line loop computes the blocks of a text |
| UserMemory.Serialize | crates/puffer-core/user_memory.rs:85-100 | the block loop computes the printed text |
| UserMemory.ParseSections | crates/puffer-core/user_memory.rs:55-100 | printed sections parse to their blocks with line ends unified, as long as no body line is a header |
| UserMemory.ParseInk | crates/puffer-core/user_memory.rs:55-83 | parsing never invents text: bodies hold at most the non-blank characters of the non-header lines |
| UserMemory.PrintThenParse | crates/puffer-core/user_memory.rs:55-100 | printing then parsing returns the blocks exactly when keys are normal, bodies trimmed and non-empty, no body line starts a block and no CR precedes LF |
| UserMemoryStore.Store.Get | crates/puffer-core/user_memory.rs:138-145 | finds a body exactly when some block has the normalised key |
| UserMemoryStore.Store.List | crates/puffer-core/user_memory.rs:128-135 | gives the blocks of the file |
| UserMemoryStore.Store.SetBlock | crates/puffer-core/user_memory.rs:148-171 | file and result of a set in every case: key, body, size, safety, full store, replaced, appended |
| UserMemoryStore.Store.AppendBlock | crates/puffer-core/user_memory.rs:174-208 | file and result of an append in every case, the merged size included |
| UserMemoryStore.Store.DeleteBlock | crates/puffer-core/user_memory.rs:211-218 | file and result of a deletion |
| UserMemoryStore.MutateRefines | crates/puffer-core/user_memory.rs:148-231 | one clean command keeps the file good and acts as the step of an ordered map; a failed one leaves the map alone |
| UserMemoryStore.RunIsOrderedMap | crates/puffer-core/user_memory.rs:128-231 | any run of clean commands from an empty file stands for the ordered map they build: keys in creation order, distinct, at most 200, no body over 4000 characters |
| UserMemoryStore.SetReadsBack | crates/puffer-core/user_memory.rs:148-171 | a stored body is what the next read finds exactly when it has no header line and no CR LF |
| UserMemoryStore.HeaderLineLost | crates/puffer-core/user_memory.rs:55-83 | a concrete body with a header line is accepted and not read back, under every key |
| UserMemoryStore.CarriageReturnLost | crates/puffer-core/user_memory.rs:55-83 | so is one with CR LF |
| UserMemoryStore.SetOnMap | crates/puffer-core/user_memory.rs:148-171 | a set puts the trimmed body under the key and leaves every other, or is refused: no key, no text, over 4000 characters, unsafe, or a new key beside 200 |
| UserMemoryStore.AppendOnMap | crates/puffer-core/user_memory.rs:174-208 | an append puts the old body, a line feed and the addition there, or is refused |
| UserMemoryStore.DeleteOnMap | crates/puffer-core/user_memory.rs:211-218 | a deletion takes the key out of its place and leaves every other body |
| UserMemoryStore.HomeAddressFile | crates/puffer-core/user_memory.rs:148-208 | the file after a set and an append under two spellings of one key, to the letter |
| MiniPlacement.FourCorners | scripts/mini-placement.py:73-75 | four prefix sums give the true sum of the window between them |
| MiniPlacement.BuildTable | scripts/mini-placement.py:70-71 | two running sums fill the table with the prefix sums of the grid |
| MiniPlacement.RectSum | scripts/mini-placement.py:73-75 | the table lookup is the sum of the window's cells, all indices in range |
| MiniPlacement.Rows | scripts/mini-placement.py:78-84 | the candidate range is never empty and stays in the grid, for every grid and window height |
| MiniPlacement.Columns | scripts/mini-placement.py:80-86 | the same for columns |
| MiniPlacement.Search | scripts/mini-placement.py:89-98 | the double loop finds the row-major first window of least score, by brute-force definition |
| MiniPlacement.ColdestRect | scripts/mini-placement.py:61-100 | window, clamped size and true sum of the row-major first minimiser over the candidate range |
| MiniPlacement.FirstMinimumUnique | scripts/mini-placement.py:89-98 | that window is unique |
| MiniPlacement.PixelsFit | scripts/mini-placement.py:102-109 | the pixel rectangle of a window inside the grid leaves the screen by at most one pixel |
| MiniPlacement.PixelsOverIff | scripts/mini-placement.py:102-109 | along each side it is one pixel over exactly when the window reaches the far edge of the grid and both its offset and its size scale to halves above odd integers |
| MiniPlacement.NeverOverSideways | scripts/mini-placement.py:77-100 | on the script's 192 columns a window found by the search never sticks out sideways, on a screen of any width |
| MiniPlacement.OnePixelOver | scripts/mini-placement.py:102-109 | downwards it does happen: 192 by 82 cells, a screen of 864 by 369 pixels, a candidate window of 79 rows at row 3 |
| MiniPlacement.PixelsAreNearest | scripts/mini-placement.py:102-109 | left edge and width are the nearest pixels, ties to even, to the share of the columns, top edge and height to that of the rows |
| MiniPlacement.HeightFollowsRatio | scripts/mini-placement.py:64-67 | the height is the width before it is cut to the grid, divided by the ratio and rounded, at least 2 and at most the grid |
| MiniPlacement.LowerIsWorth | scripts/mini-placement.py:92-95 | one row lower is worth 0.075 of activity |
| MiniPlacement.SidewardIsWorth | scripts/mini-placement.py:92-95 | one column nearer to the closer side is worth 0.15 |
| MiniPlacement.BlankGoesLowLeft | scripts/mini-placement.py:89-98 | on a blank screen the window goes to the lowest row of candidates, at its left end |
| MiniPlacement.CandidatesOnScreen | scripts/mini-placement.py:77-86 | the candidates of a window on a screen of 192 by 108 cells |
| UltraReview.MergeLanes | crates/puffer-core/ultrareview.rs:291-297 | appends the lanes that are missing, each once |
| UltraReview.Aggregate | crates/puffer-core/ultrareview.rs:284-313 | the map has exactly the locations with a finding of confidence 0.5 or more; each entry has the confidence and text of the first finding of greatest confidence there, and every reporting lane once |
| UltraReview.ArrivalOrderIrrelevant | crates/puffer-core/ultrareview.rs:284-313 | any two orders of arrival give the same locations, confidences and sets of lanes |
| UltraReview.NormalizePlannerLanes | crates/puffer-core/ultrareview.rs:592-608 | dedupe, insert logic, top up, truncate, in this order |
| UltraReview.NormalizedLanes | crates/puffer-core/ultrareview.rs:592-608 | two to five lanes, none twice, and logic lost exactly when five different other names come before its first place |
| UltraReview.LogicCanBeLost | crates/puffer-core/ultrareview.rs:592-608 | a list of six names that loses it |
| UltraReview.PlannerKeepsLogic | crates/puffer-core/ultrareview.rs:562-573 | after the caller's filter no answer of the planner loses logic or a known lane it names |
| UltraReview.KnownLanesKeepLogic | crates/puffer-core/ultrareview.rs:589-592 | with known lanes nothing is cut off and logic is always there |
| UltraReview.NoOpWhenCompliant | crates/puffer-core/ultrareview.rs:589-592 | nothing changes exactly when the lanes were distinct, two to five, with logic |
| UltraReview.FirstPlacesKeepOrder | crates/puffer-core/ultrareview.rs:592-598 | names keep the order in which they come for the first time |
| UltraReview.LogicComesFirst | crates/puffer-core/ultrareview.rs:599-601 | a missing logic is put before the others |
| UltraReview.SecurityIsSecond | crates/puffer-core/ultrareview.rs:602-606 | logic alone, or nothing, gets security as second lane |
| UltraReview.LaneSamples | crates/puffer-core/ultrareview.rs:592-608 | three lists to the letter |
| UltraReview.HalfIsEnough | crates/puffer-core/ultrareview.rs:284-288 | findings count from a confidence of one half |
| SkillEvolution.ParetoFrontier | crates/puffer-skill-evolution/pareto.rs:10-27 | the loop pushes exactly the scored, non-dominated indices, in order |
| SkillEvolution.SelectBest | crates/puffer-skill-evolution/lib.rs:195-217 | the first lexicographic maximum among the scored candidates of the frontier, nothing exactly when none is scored |
| SkillEvolution.BestIsOnFrontier | crates/puffer-skill-evolution/lib.rs:43-61 | the lexicographic best of the whole pool is never dominated |
| SkillEvolution.SelectionIsGlobal | crates/puffer-skill-evolution/lib.rs:195-217 | the first best on the frontier is the first best of the whole pool |
| SkillEvolution.FrontierNotEmpty | crates/puffer-skill-evolution/pareto.rs:10-27 | a scored non-empty pool has a non-empty frontier |
| SkillEvolution.JudgePool | crates/puffer-skill-evolution/lib.rs:160-166 | scores exactly the unscored candidates, and fails when a judge call does |
| SkillEvolution.MutateSurvivors | crates/puffer-skill-evolution/mutate.rs:67-93 | keeps, unscored and in order, the answers that parse and fit the size budget |
| SkillEvolution.RunGepa | crates/puffer-skill-evolution/lib.rs:142-193 | the result is the first lexicographic maximum of everything ever generated, for any answers of the agents |
| SkillEvolution.PoolWithinBudget | crates/puffer-skill-evolution/lib.rs:142-193 | from n candidates and k rounds the pool holds at most n times 2 to the k |
| SkillEvolution.PoolForgetsNothing | crates/puffer-skill-evolution/lib.rs:142-193 | every candidate ever in the pool is in the final one, at its index, with the scores it got |
| SkillEvolution.KeptIsUsable | crates/puffer-skill-evolution/mutate.rs:67-93 | the answers that parse and fit the budget are kept, in order, with text and size, and nothing else |
| SkillEvolution.JudgedAsAnswered | crates/puffer-skill-evolution/lib.rs:160-166 | judging changes no text and gives each unscored candidate the score the judge of that round gave at its index |
| SkillEvolution.RoundAdds | crates/puffer-skill-evolution/lib.rs:142-193 | a round keeps the pool and adds a judged mutant for each frontier survivor whose answer is usable, in order, and nothing else |
| SkillEvolution.EarlierPoolStays | crates/puffer-skill-evolution/lib.rs:142-193 | the pool of every round is a prefix of the final pool |
| SkillEvolution.DominanceTrades | crates/puffer-skill-evolution/lib.rs:43-61 | more of any one score dominates, more of one for less of another never does |
| SkillEvolution.PreferenceTrades | crates/puffer-skill-evolution/lib.rs:195-217 | a gain in reproducibility outweighs any loss elsewhere; between the other three only the sum counts |
| BenchmarkTrajectory.PendingStep.DiscardStreamAttempt | crates/puffer-cli/src/benchmark_trace.rs:114-121 | clears everything but the retry records |
| BenchmarkTrajectory.PendingStep.Finalize | crates/puffer-cli/src/benchmark_trace.rs:438-491 | moves what is pending into one new step with the next id, if there is anything, and empties it |
| BenchmarkTrajectory.Handle | crates/puffer-cli/src/benchmark_trace.rs:327-391 | one event on steps and pending step, case by case |
| BenchmarkTrajectory.BuildTrajectory | crates/puffer-cli/src/benchmark_trace.rs:313-407 | the event loop, the last step and the fallback step when nothing happened |
| BenchmarkTrajectory.Conservation | crates/puffer-cli/src/benchmark_trace.rs:313-407 | for every list of events steps are numbered 1 to n, calls and observations are those of all invocations in order, each observation beside its call, and each retry record appears once in order |
| BenchmarkTrajectory.StreamAccumulates | crates/puffer-cli/src/benchmark_trace.rs:329-338 | a stream only appends its text, thinking, requested calls and usage to what is pending, in order |
| BenchmarkTrajectory.KeptAttemptBecomesStep | crates/puffer-cli/src/benchmark_trace.rs:339-350 | an attempt that reaches its tool calls becomes one step holding exactly what it streamed |
| BenchmarkTrajectory.DiscardedAttemptLeavesNoTrace | crates/puffer-cli/src/benchmark_trace.rs:351-363 | whatever a discarded attempt streamed, the whole trajectory is the same |
| BenchmarkTrajectory.AnsweredAttemptBecomesStep | crates/puffer-cli/src/benchmark_trace.rs:376-381 | an attempt that ends in an answer becomes one step that says it, in the streamed words when they agree up to white space at the ends, with what was thought, requested and used; it leaves none exactly when nothing but text was there and the answer is empty |
| BenchmarkTrajectory.InvocationsAreTold | crates/puffer-cli/src/benchmark_trace.rs:500-515 | the k-th call and observation of the trajectory tell the k-th invocation, field by field |
| BenchmarkTrajectory.RequestsAreTold | crates/puffer-cli/src/benchmark_trace.rs:493-498 | the k-th requested call tells the k-th one asked for |
| BenchmarkTrajectory.FailureIsTold | crates/puffer-cli/src/benchmark_trace.rs:382-391 | a failure is the last step, after what was pending, and says what went wrong |
| BenchmarkTrajectory.PromptAndFallback | crates/puffer-cli/src/benchmark_trace.rs:319-407 | the first step is the prompt; without events the second is the error or the assistant text |
| UnixPath.SegmentsAcross | crates/puffer-core/workspace_paths.rs:349-349 | a slash separates the segments of its two sides, whatever they are |
| UnixPath.ReadsBack | crates/puffer-core/workspace_paths.rs:347-372 | a path written name by name reads back as its root and names |
| UnixPath.PopUndoesPush | crates/puffer-core/workspace_paths.rs:354-360 | on the characters of the buffer, popping undoes the last push and leaves a bare root or an empty path |
| WorkspacePaths.NormalizePath | crates/puffer-core/workspace_paths.rs:347-372 | the loop over components, pushing and popping a buffer, computes the normal form |
| WorkspacePaths.NormalizeFilesystemPath | crates/puffer-core/permissions.rs:735-747 | the simpler loop writes the names of the place the path denotes |
| WorkspacePaths.NormalizeKeepsMeaning | crates/puffer-core/workspace_paths.rs:347-372 | normalising keeps the place a path denotes in a tree without links: from the root for rooted paths, from every start for relative ones |
| WorkspacePaths.NormalizeIsIdempotent | crates/puffer-core/workspace_paths.rs:347-372 | normalising twice is normalising once, for every path |
| WorkspacePaths.RootedNormalizesToNames | crates/puffer-core/workspace_paths.rs:347-372 | a rooted path becomes the root and the names of its place, without `.` or `..` |
| WorkspacePaths.SamePlaceIff | crates/puffer-core/workspace_paths.rs:347-372 | rooted paths normalise alike exactly when they denote the same place |
| WorkspacePaths.JoinNormalizesEither | crates/puffer-core/workspace_paths.rs:306-313 | normalising the directory before joining changes nothing, for every directory and path |
| WorkspacePaths.NormalizersAgreeIff | crates/puffer-core/permissions.rs:735-747 | the two normalisers agree exactly on rooted paths and on relative ones that never climb above their start and end below it |
| WorkspacePaths.NormalizeUserPath | crates/puffer-core/workspace_paths.rs:306-324 | expansion of the home directory, joining and normalising |
| WorkspacePaths.UserPathIsRooted | crates/puffer-core/workspace_paths.rs:306-324 | from a rooted directory every typed path becomes rooted, and typing the result again changes nothing |
| WorkspacePaths.UserPathFromEither | crates/puffer-core/workspace_paths.rs:306-313 | the directory a path is typed in may be normalised first |
| WorkspacePaths.TypedPathDenotes | crates/puffer-core/workspace_paths.rs:306-324 | from a rooted directory `~` denotes the home, what follows `~/` or `~\` is read in the home, anything else in the directory |
| WorkspacePaths.PathSamples | crates/puffer-core/workspace_paths.rs:306-372 | a path below the home with a step up and a relative path that climbs, to the letter |
| WorkspacePaths.PushNormalizedRoot | crates/puffer-core/workspace_paths.rs:269-279 | appends the normal form unless it was seen, keeping list and set in step |
| WorkspacePaths.ExplicitWorkspaceRoots | crates/puffer-core/workspace_paths.rs:259-267 | the loop keeps the first occurrence of each root, the working directory first |
| WorkspacePaths.RootsAreThePlacesAskedFor | crates/puffer-core/workspace_paths.rs:259-279 | the roots are exactly the places asked for, each once, and asking for more moves or drops none |
| WorkspacePaths.RootsAreStable | crates/puffer-core/workspace_paths.rs:259-279 | asking for the roots again, from a rooted working directory, gives the same roots in the same order |
| WorkspacePaths.ContainmentIsOfPlaces | crates/puffer-core/workspace_paths.rs:336-338 | containment of normalised paths, which compares components, is containment of the places |
| WorkspacePaths.TargetsPlanIffSamePlace | crates/puffer-core/permissions.rs:712-734 | a rooted or home path targets the active plan exactly when the other normaliser maps both to the same path |
| WorkspacePaths.RelativeNeverTargetsPlan | crates/puffer-core/permissions.rs:712-734 | a relative path never targets a rooted plan |
| ToolIds.NormalizeToolId | crates/puffer-core/permissions.rs:506-532 | the character loop with its two flags, then the trimming, yields the lower-case words of the id joined by single underscores |
| ToolIds.WordsUndoJoin | crates/puffer-core/permissions.rs:506-532 | the words of an id are those it was joined from |
| ToolIds.ToolIdIdempotent | crates/puffer-core/permissions.rs:506-532 | normalising twice is normalising once |
| ToolIds.SameIdIff | crates/puffer-core/permissions.rs:539-554 | two spellings share an id exactly when they have the same words |
| ToolIds.IdIsSpelled | crates/puffer-core/permissions.rs:506-532 | an id is the letters and digits of the trimmed text in lower case, with one underscore before each that follows something else, or is a capital after a small letter or digit, but the first |
| ToolIds.IdSamples | crates/puffer-core/permissions.rs:506-532 | two spellings of one id, to the letter |
| PlanMode.State.Enter | crates/puffer-core/plan_mode.rs:11-22 | resets the cadence once, and sets the re-entry reminder only after an exit and with a written plan |
| PlanMode.State.Exit | crates/puffer-core/plan_mode.rs:25-32 | resets the cadence and schedules the exit reminder |
| PlanMode.State.Render | crates/puffer-core/plan_mode.rs:51-83 | sections and fields of the next reminder with up to two looks at the plan, what a failure after the first section leaves included; a preview changes nothing |
| PlanMode.State.RenderExit | crates/puffer-core/plan_mode.rs:85-116 | the exit reminder, delivered when the plan can be read |
| PlanMode.State.Take | crates/puffer-core/plan_mode.rs:44-49 | renders and consumes |
| PlanMode.State.Preview | crates/puffer-core/plan_mode.rs:35-41 | gives what taking would give and changes nothing |
| PlanMode.CadenceInEveryRun | crates/puffer-core/plan_mode.rs:122-125 | in every run from a new session the turn consumed after k others since entry carries the full prompt exactly when 30 divides k, the sparse one exactly at the other multiples of 6 |
| PlanMode.KthTurnAfterEntry | crates/puffer-core/plan_mode.rs:202-204 | the same closed form from any state outside plan mode, after entering and consuming k turns |
| PlanMode.RemindersAreOneShot | crates/puffer-core/plan_mode.rs:25-83 | over every run each exit's and each entry's reminder is delivered at most once |
| PlanMode.ExitReminderWaitsThenGoes | crates/puffer-core/plan_mode.rs:85-116 | previews and failures do not lose the exit reminder, the next take gives it, later takes give nothing |
| PlanMode.SteadyPlanLosesNothing | crates/puffer-core/plan_mode.rs:51-83 | a take that fails changes nothing when both looks find the same plan |
| PlanMode.ReentryLostIff | crates/puffer-core/plan_mode.rs:61-75 | a failed take loses the re-entry reminder exactly when the first look found the plan and the second, for the prompt that is due, did not; no later take of that stay gives it |
| PlanMode.ReentryDueIff | crates/puffer-core/plan_mode.rs:11-83 | after any run, on entering, and however long no plan is to be seen, the first take that sees it starts with the re-entry reminder exactly when plan mode was left before and the plan had content on entry; nothing later does |
| PlanMode.FirstMessageAfterReentry | crates/puffer-core/plan_mode.rs:51-83 | that message is the re-entry prompt, an empty line and the full prompt |

## Left out

- The file system, locks, temporary files and renames: a file is a field, a locked operation is one step, a failed write
  is a flag of the call. Timestamps, the `list` and `get` of the automation store and the texts of error messages.
- Library work: SHA-256 and the serde encoding of specs and graphs, regular expressions, the jq subset and contact ids
  are parameters. `AutomationCompiler.SpecHashIffSame` therefore names the collisions.
- Number printing: a JSON number is the token the serializer prints; two tokens for one number do not arise there.
- `AutomationDeployer`: the workflow runtime is a list of replies; the choice between creating and updating a workflow, an
  absent subscription manager, failing writes of the binding store, the refresh of connection consumers and
  `sync_preview_with_store`'s shortcut for what is already deployed are left out, and so are the clean-ups of bindings
  after a later save or deletion. The binding store's own checks of
  filters and contact ids are taken to be those of the automation validator, which they repeat.
- Machine integers: revisions, counters and character counts are unbounded.
- Unicode tables: lower case and the letters and digits of user-memory keys are a parameter of which only the stated laws
  are known (`UserMemory.Lawful`). The content guard and the tool ids fold ASCII, as the code does.
- The JSON arguments of the memory tools.
- The project-memory context block, status lines and the background review of memory.
- `MiniPlacement`: the rounded root that sets the window width is a parameter, so its results hold for every width; the
  mean of the grid, the screenshot and the vision branch are left out; sums are exact.
- `UltraReview`: the scheduling of lanes, the language-model filter after aggregation (it keeps a subset of the merged
  findings, all of them when it fails) and the markdown report. Confidences that are not numbers do not occur.
- `SkillEvolution`: prompts, parsing of answers and the execution trace; a candidate is its text, its size and its scores.
- `BenchmarkTrajectory`: the JSON shape around the steps, and the parsing of tool arguments as JSON (the raw text is kept).
- Windows path prefixes, `/tmp` and `TMPDIR` as extra roots, and canonical paths through links.
- The permission decision ladder, whose access lists, browser evaluator and profiles are not part of this model.
- `PlanMode`: the words of the prompts, which are a parameter, and the restoring of fields from a saved session.
- Language-model calls, providers, HTTP, the browser daemon, the desktop and web user interfaces, slash commands.
