/** Compiling an automation and storing what came of it, as the daemon does
    (crates/puffer-cli/src/daemon_automation_runtime.rs): the workflow runtime is asked for ids, a live deployment
    installs the bindings, the runtime state is saved, and a failure of any step is recorded. */
module AutomationDeployer {
  import opened Text
  import opened Wrappers
  import opened AutomationSpec
  import opened AutomationValidation
  import opened AutomationCompiler
  import opened AutomationRuntime
  import opened AutomationStore
  import opened AutomationProtocol
  import opened AutomationRecovery
  import BindingStore

  datatype Failure =
    | CompileFailed(error: CompileError)
    | NoWorkflowId
    | BindingRejected
    | NotStored(cause: Error)
    | NoRecord
    | StaleRevision

  // ---- One compilation --------------------------------------------------------------------------------

  /** What is decided before the store is called: the replacement to ask for, and the bindings by then. */
  datatype Decision = Decision(replace: Result<Op, Failure>, bindings: seq<BindingStore.BindingSpec>)

  function Decide(env: Env, record: Record, live: bool, replies: nat -> Reply,
                  bindings: seq<BindingStore.BindingSpec>): Decision {
    match Compile(env.hashing, record)
    case Err(e) => Decision(Err(CompileFailed(e)), bindings)
    case Ok(plan) =>
      match WorkflowIds(replies, live, |plan.workflows|)
      case None => Decision(Err(NoWorkflowId), bindings)
      case Some(ids) =>
        var deployed := if live then BindingStore.AfterDeploy(env.checks, record, bindings) else (bindings, true);
        Decision(if deployed.1 then Ok(ReplaceRuntime(record.id, record.revision, RuntimeOf(plan, live, ids)))
                 else Err(BindingRejected),
                 deployed.0)
  }

  /** `compile_inner`. */
  method CompileInner(store: AutomationStore.Store, bindings: BindingStore.Store, record: Record, live: bool,
                      replies: nat -> Reply, written: bool)
    returns (r: Result<Option<Record>, Failure>)
    requires bindings.checks == store.env.checks
    modifies store, bindings
    ensures var d := Decide(store.env, record, live, replies, old(bindings.bindings));
      && bindings.bindings == d.bindings
      && match d.replace
         case Err(e) => r == Err(e) && store.Now() == old(store.Now())
         case Ok(op) =>
           var outcome := Perform(store.env, old(store.Now()), Call(op, written));
           && store.Now() == outcome.state
           && r == (match outcome.result case Ok(x) => Ok(x) case Err(e) => Err(NotStored(e)))
  {
    hide Perform, Compile, WorkflowIds;
    var compiled := CompileAutomation(store.env.hashing, record);
    if compiled.Err? { return Err(CompileFailed(compiled.error)); }
    var plan := compiled.value;
    var workflows := SyncWorkflows(plan, replies, live);
    if workflows.None? { return Err(NoWorkflowId); }
    if live {
      var ok := bindings.DeployBindings(record);
      if !ok { return Err(BindingRejected); }
    }
    var runtime := Runtime(Some(plan.specHash), Some(record.revision), if live then Deployed else DraftSynced,
                           workflows.value, if live then CopiedBindings(plan.bindings) else [], None);
    PlanIsOf(store.env, record);
    var stored := store.ReplaceRecordRuntime(record.id, record.revision, runtime, written);
    r := match stored case Ok(x) => Ok(x) case Err(e) => Err(NotStored(e));
  }

  // ---- The whole call --------------------------------------------------------------------------------------

  /** What the call meets on its way: the answers of the workflow runtime, what other threads do to the store before it
      is asked to replace the runtime, whether the writes of the replacement and of a recorded error go through, and how
      a failure is put into words. */
  datatype World = World(replies: nat -> Reply, between: seq<Call>, written: bool, recorded: bool,
                         words: Failure -> string)

  /** The two stores and the result after the call. */
  datatype Aftermath = Aftermath(state: State, bindings: seq<BindingStore.BindingSpec>,
                                 result: Result<Option<Record>, Failure>)

  predicate Matches(expected: Option<nat>, revision: nat) {
    expected.Some? ==> expected.value == revision
  }

  /** `compile_with_store`. */
  function After(env: Env, s: State, bindings: seq<BindingStore.BindingSpec>, id: string, expected: Option<nat>,
                 live: bool, world: World): Aftermath
  {
    match Lookup(s.records, id)
    case None => Aftermath(s, bindings, Err(NoRecord))
    case Some(record) =>
      if !Matches(expected, record.revision) then Aftermath(s, bindings, Err(StaleRevision))
      else
        var d := Decide(env, record, live, world.replies, bindings);
        var stored := Stored(env, Run(env, s, world.between), d.replace, world.written);
        Aftermath(if stored.1.Ok? then stored.0
                  else Recorded(env, stored.0, id, record.revision, stored.1.error, world),
                  d.bindings, stored.1)
  }

  /** The replacement, when there is one to ask for. */
  function Stored(env: Env, s: State, replace: Result<Op, Failure>, written: bool)
    : (State, Result<Option<Record>, Failure>)
  {
    match replace
    case Err(e) => (s, Err(e))
    case Ok(op) =>
      var outcome := Perform(env, s, Call(op, written));
      (outcome.state, match outcome.result case Ok(x) => Ok(x) case Err(e) => Err(NotStored(e)))
  }

  function Recorded(env: Env, s: State, id: string, revision: nat, failure: Failure, world: World): State {
    Perform(env, s, Call(ReplaceRuntimeError(id, revision, world.words(failure)), world.recorded)).state
  }

  /** No other thread comes between the steps of the method. */
  method CompileWithStore(store: AutomationStore.Store, bindings: BindingStore.Store, id: string,
                          expected: Option<nat>, live: bool, world: World)
    returns (r: Result<Option<Record>, Failure>)
    requires bindings.checks == store.env.checks && world.between == []
    modifies store, bindings
    ensures Aftermath(store.Now(), bindings.bindings, r)
      == After(store.env, old(store.Now()), old(bindings.bindings), id, expected, live, world)
    ensures r.Ok? ==> store.file == store.records
  {
    hide Perform, Decide, Find;
    var i := Find(store.records, id);
    if i == |store.records| { return Err(NoRecord); }
    var record := store.records[i];
    if expected.Some? && record.revision != expected.value { return Err(StaleRevision); }
    ghost var before := store.Now();
    r := CompileInner(store, bindings, record, live, world.replies, world.written);
    if r.Err? {
      var recordedError := store.RecordRuntimeError(record.id, record.revision, world.words(r.error), world.recorded);
    } else {
      ghost var op := Decide(store.env, record, live, world.replies, old(bindings.bindings)).replace.value;
      FileFollowsMemory(store.env, before, Call(op, world.written));
    }
  }

  // ---- When it succeeds, and what it leaves --------------------------------------------------------------------

  lemma DecisionMeans(env: Env, record: Record, live: bool, replies: nat -> Reply,
                      bindings: seq<BindingStore.BindingSpec>)
    requires Sound(env.hashing) && RecordOk(env.checks, record)
    ensures var d := Decide(env, record, live, replies, bindings);
      && (d.replace.Ok? <==>
            && Compile(env.hashing, record).Ok?
            && WorkflowIds(replies, live, |Compile(env.hashing, record).value.workflows|).Some?
            && (live ==> KebabTriggers(record.spec)))
      && (d.replace.Ok? ==> d.replace.value.ReplaceRuntime? && Compilable(record.spec.flow))
  {
    hide SpecOk, Compile, WorkflowIds, RuntimeOf, Sound;
    CompilesIff(env.hashing, record);
    BindingsReachEnd(env.checks, record, bindings);
  }

  lemma BindingsReachEnd(o: Checks, record: Record, bindings: seq<BindingStore.BindingSpec>)
    requires RecordOk(o, record)
    ensures BindingStore.AfterDeploy(o, record, bindings).1 <==> KebabTriggers(record.spec)
  {
    BindingStore.DeployReachesEndIff(o, record, record.spec.triggers, bindings);
    assert forall t :: BindingStore.Connects(record.spec.triggers, t) <==>
      t in record.spec.triggers && t.ConnectionTrigger?;
  }

  lemma RepliesTrimmed(replies: nat -> Reply, live: bool, n: nat)
    requires WorkflowIds(replies, live, n).Some?
    ensures forall x | x in WorkflowIds(replies, live, n).value :: x != "" && IsTrimmed(x)
  {
    var ids := WorkflowIds(replies, live, n).value;
    forall x | x in ids ensures x != "" && IsTrimmed(x) {
      var k :| 0 <= k < |ids| && ids[k] == x;
      assert ReplyId(replies(k), live) == Some(x);
    }
  }

  /** In the store, a replacement the deployer asks for fails its final check exactly when some returned workflow id is
      not URL-safe: bad trigger ids have been stopped by the binding store before. */
  lemma ReplacementFailsIff(env: Env, s: State, id: string, live: bool, replies: nat -> Reply,
                            bindings: seq<BindingStore.BindingSpec>, written: bool)
    requires Sound(env.hashing) && Loadable(env.checks, s.records) && Lookup(s.records, id).Some?
    requires Decide(env, Lookup(s.records, id).value, live, replies, bindings).replace.Ok?
    ensures var record := Lookup(s.records, id).value;
      var op := Decide(env, record, live, replies, bindings).replace.value;
      var ids := WorkflowIds(replies, live, |Compile(env.hashing, record).value.workflows|).value;
      FailsFinalCheck(env, s, Call(op, written)) <==> exists x | x in ids :: !UrlSafe(x)
  {
    var record := Lookup(s.records, id).value;
    LookupHasId(s.records, id);
    assert record in s.records;
    hide SpecOk, Compile, WorkflowIds, RuntimeOf, RuntimeOk, ReferencesOk, Sound, UrlSafe, IsTrimmed, SpecHash;
    DecisionMeans(env, record, live, replies, bindings);
    var plan := Compile(env.hashing, record).value;
    var ids := WorkflowIds(replies, live, |plan.workflows|).value;
    RepliesTrimmed(replies, live, |plan.workflows|);
    CompiledRuntimeValidIff(env.hashing, env.checks, record, live, ids);
    RuntimeHashes(env, record, live, ids);
  }

  lemma RuntimeHashes(env: Env, record: Record, live: bool, ids: seq<string>)
    requires Compile(env.hashing, record).Ok? && |ids| == |Compile(env.hashing, record).value.workflows|
    ensures var runtime := RuntimeOf(Compile(env.hashing, record).value, live, ids);
      runtime.compiledRevision == Some(record.revision) && runtime.specHash == Some(SpecHash(env.hashing, record.spec))
  {
    PlanIsOf(env, record);
  }

  /** Whatever the workflow runtime answers, other threads do and whichever writes are lost: when the others leave
      memory loadable, so does the call. */
  lemma CompileLeavesLoadable(env: Env, s: State, bindings: seq<BindingStore.BindingSpec>, id: string,
                              expected: Option<nat>, live: bool, world: World)
    requires Sound(env.hashing) && Loadable(env.checks, s.records)
    requires Loadable(env.checks, Run(env, s, world.between).records)
    ensures Loadable(env.checks, After(env, s, bindings, id, expected, live, world).state.records)
  {
    hide Perform, Decide, Loadable, FailsFinalCheck, Sound, NoOtherFailure, Run;
    if Lookup(s.records, id).Some? && Matches(expected, Lookup(s.records, id).value.revision) {
      var record, now := Lookup(s.records, id).value, Run(env, s, world.between);
      LookupHasId(s.records, id);
      match Decide(env, record, live, world.replies, bindings).replace {
        case Err(e) => ErrorKeepsLoadable(env, now, id, record.revision, world.words(e), world.recorded);
        case Ok(op) =>
          DecidedOp(env, record, live, world.replies, bindings);
          var call := Call(op, world.written);
          var after := Perform(env, now, call);
          StepLoadableIff(env, now, call);
          FailedIsError(env, now, call);
          if after.result.Err? {
            var message := world.words(NotStored(after.result.error));
            if FailsFinalCheck(env, now, call) {
              NothingBetween(env, after.state, id, record.revision);
              DeployerLeavesLoadable(env, now, call, [], message, world.recorded);
            } else {
              ErrorKeepsLoadable(env, after.state, id, record.revision, message, world.recorded);
            }
          }
      }
    }
  }

  lemma DecidedOp(env: Env, record: Record, live: bool, replies: nat -> Reply, bindings: seq<BindingStore.BindingSpec>)
    ensures var d := Decide(env, record, live, replies, bindings);
      d.replace.Ok? ==>
        && d.replace.value.ReplaceRuntime? && d.replace.value.id == record.id
        && d.replace.value.expected == record.revision
  {
  }

  lemma FailedIsError(env: Env, s: State, call: Call)
    ensures FailsFinalCheck(env, s, call) ==> Perform(env, s, call).result.Err?
  {
    hide SpecHash, SpecOk;
  }

  lemma NothingBetween(env: Env, s: State, id: string, revision: nat)
    ensures NoOtherFailure(env, s, [], id, revision) && Run(env, s, []) == s
  {
  }

  lemma ErrorKeepsLoadable(env: Env, s: State, id: string, revision: nat, message: string, written: bool)
    requires Loadable(env.checks, s.records)
    ensures var call := Call(ReplaceRuntimeError(id, revision, message), written);
      Loadable(env.checks, Perform(env, s, call).state.records)
  {
    hide Perform, Loadable;
    StepLoadableIff(env, s, Call(ReplaceRuntimeError(id, revision, message), written));
  }

  // ---- The two stores together ---------------------------------------------------------------------------------

  /** The runtime lists a binding with this slug. */
  predicate Lists(runtime: Runtime, slug: string) {
    exists e :: e in runtime.bindings && e.bindingSlug == slug
  }

  lemma ListedAreOwnSlugs(plan: Plan, record: Record, ids: seq<string>, slug: string)
    requires |ids| == |plan.workflows| && plan.bindings == Bindings(record.id, record.spec.triggers)
    ensures Lists(RuntimeOf(plan, true, ids), slug) <==> BindingStore.IsSlugOf(record, record.spec.triggers, slug)
  {
    hide BindingSlug;
    var listed := CopiedBindings(plan.bindings);
    if Lists(RuntimeOf(plan, true, ids), slug) {
      var k :| 0 <= k < |listed| && listed[k].bindingSlug == slug;
      var t := BindingSource(record.id, record.spec.triggers, plan.bindings[k]);
      assert BindingStore.Connects(record.spec.triggers, t);
    }
    if BindingStore.IsSlugOf(record, record.spec.triggers, slug) {
      var t :| BindingStore.Connects(record.spec.triggers, t) && slug == BindingSlug(record.id, t.id);
      var plans := plan.bindings;
      var b := BindingOf(record.id, record.spec.triggers, t);
      var k :| 0 <= k < |plans| && plans[k] == b;
      assert listed[k] in listed;
    }
  }

  /** A live deployment that succeeds has stored the runtime built from its snapshot. */
  lemma SuccessStores(env: Env, s: State, bindings: seq<BindingStore.BindingSpec>, id: string, expected: Option<nat>,
                      world: World)
    requires Distinct(Ids(s.records)) && Distinct(Ids(Run(env, s, world.between).records))
    requires After(env, s, bindings, id, expected, true, world).result.Ok?
    ensures Lookup(s.records, id).Some? && Compile(env.hashing, Lookup(s.records, id).value).Ok?
    ensures var record, after := Lookup(s.records, id).value, After(env, s, bindings, id, expected, true, world);
      var plan := Compile(env.hashing, record).value;
      && record.id == id && Lookup(after.state.records, id).Some?
      && BindingStore.AfterDeploy(env.checks, record, bindings) == (after.bindings, true)
      && WorkflowIds(world.replies, true, |plan.workflows|).Some?
      && Lookup(after.state.records, id).value.runtime
         == RuntimeOf(plan, true, WorkflowIds(world.replies, true, |plan.workflows|).value)
  {
    hide Compile, WorkflowIds, BindingStore.AfterDeploy, RuntimeOf, Run, Perform;
    var record := Lookup(s.records, id).value;
    LookupHasId(s.records, id);
    var op := Decide(env, record, true, world.replies, bindings).replace.value;
    ReplacedIs(env, Run(env, s, world.between), op, world.written);
  }

  lemma ReplacedIs(env: Env, s: State, op: Op, written: bool)
    requires Distinct(Ids(s.records)) && op.ReplaceRuntime? && Perform(env, s, Call(op, written)).result.Ok?
    ensures var after := Lookup(Perform(env, s, Call(op, written)).state.records, op.id);
      after.Some? && after.value.runtime == op.runtime
  {
    hide RecordOk, SpecHash;
    var i := Find(s.records, op.id);
    LookupUpdate(s.records, i, s.records[i].(runtime := op.runtime), op.id);
  }

  /** The runtime tells what it was compiled from, one workflow per compiled one under the id of its reply, and the
      bindings of the plan only when live. */
  predicate TellsPlan(runtime: Runtime, plan: Plan, replies: nat -> Reply, live: bool) {
    && runtime.specHash == Some(plan.specHash) && runtime.compiledRevision == Some(plan.revision)
    && runtime.status == (if live then Deployed else DraftSynced) && runtime.lastError.None?
    && |runtime.workflows| == |plan.workflows|
    && (forall k | 0 <= k < |plan.workflows| ::
          && runtime.workflows[k].role == plan.workflows[k].role
          && runtime.workflows[k].workflowId == ReplyId(replies(k), live)
          && runtime.workflows[k].definitionHash == Some(plan.workflows[k].definitionHash)
          && runtime.workflows[k].deployed == live)
    && |runtime.bindings| == (if live then |plan.bindings| else 0)
    && forall k | 0 <= k < |runtime.bindings| ::
         && runtime.bindings[k].triggerId == plan.bindings[k].triggerId
         && runtime.bindings[k].bindingSlug == plan.bindings[k].bindingSlug
  }

  /** What a call that succeeds stores, live or as a draft. */
  lemma SuccessTells(env: Env, s: State, bindings: seq<BindingStore.BindingSpec>, id: string, expected: Option<nat>,
                     live: bool, world: World)
    requires Distinct(Ids(s.records)) && Distinct(Ids(Run(env, s, world.between).records))
    requires After(env, s, bindings, id, expected, live, world).result.Ok?
    ensures Lookup(s.records, id).Some? && Compile(env.hashing, Lookup(s.records, id).value).Ok?
    ensures Lookup(After(env, s, bindings, id, expected, live, world).state.records, id).Some?
    ensures var record := Lookup(s.records, id).value;
      var runtime := Lookup(After(env, s, bindings, id, expected, live, world).state.records, id).value.runtime;
      var plan := Compile(env.hashing, record).value;
      plan.revision == record.revision && TellsPlan(runtime, plan, world.replies, live)
  {
    hide Compile, WorkflowIds, BindingStore.AfterDeploy, RuntimeOf, Run, Perform;
    var record := Lookup(s.records, id).value;
    LookupHasId(s.records, id);
    var op := Decide(env, record, live, world.replies, bindings).replace.value;
    ReplacedIs(env, Run(env, s, world.between), op, world.written);
    PlanIsOf(env, record);
    RuntimeTells(Compile(env.hashing, record).value, world.replies, live);
  }

  lemma RuntimeTells(plan: Plan, replies: nat -> Reply, live: bool)
    requires WorkflowIds(replies, live, |plan.workflows|).Some?
    ensures var runtime := RuntimeOf(plan, live, WorkflowIds(replies, live, |plan.workflows|).value);
      TellsPlan(runtime, plan, replies, live)
  {
  }

  predicate Unlisted(bindings: seq<BindingStore.BindingSpec>, runtime: Runtime, id: string) {
    exists b :: b in bindings && b.automationId == id && !Lists(runtime, b.slug)
  }

  /** After a live deployment that succeeds, every listed slug has exactly one binding in the binding store, generated
      from the trigger; a binding of the automation that is not listed was there before. */
  lemma DeployedStoresAgree(env: Env, s: State, bindings: seq<BindingStore.BindingSpec>, id: string,
                            expected: Option<nat>, world: World)
    requires Distinct(Ids(s.records)) && Distinct(Ids(Run(env, s, world.between).records))
    requires Lookup(s.records, id).Some? && RecordOk(env.checks, Lookup(s.records, id).value)
    requires BindingStore.OneSlugEach(bindings)
    requires After(env, s, bindings, id, expected, true, world).result.Ok?
    ensures var after := After(env, s, bindings, id, expected, true, world);
      && Lookup(after.state.records, id).Some?
      && var record, runtime := Lookup(s.records, id).value, Lookup(after.state.records, id).value.runtime;
      && BindingStore.OneSlugEach(after.bindings)
      && (forall slug | Lists(runtime, slug) :: exists b :: b in after.bindings && b.slug == slug)
      && (forall b | b in after.bindings && Lists(runtime, b.slug) ::
            b.automationId == id && BindingStore.IsGenerated(record, record.spec.triggers, b))
      && (Unlisted(after.bindings, runtime, id) <==> Unlisted(bindings, runtime, id))
  {
    var record, after := Lookup(s.records, id).value, After(env, s, bindings, id, expected, true, world);
    SuccessStores(env, s, bindings, id, expected, world);
    LookupHasId(s.records, id);
    BindingStore.TriggersValid(env.checks, record);
    var plan := Compile(env.hashing, record).value;
    BindingsAreOwn(env, record);
    var ids := WorkflowIds(world.replies, true, |plan.workflows|).value;
    var runtime := Lookup(after.state.records, id).value.runtime;
    BindingStore.DeployKeepsSlugs(env.checks, record, record.spec.triggers, bindings);
    hide After, Compile, WorkflowIds, RuntimeOf, Run, RecordOk, Lists, Lookup, Distinct, BindingStore.IsSlugOf,
      BindingStore.IsGenerated, BindingStore.DeployedFrom;
    forall slug ensures Lists(runtime, slug) <==> BindingStore.IsSlugOf(record, record.spec.triggers, slug) {
      ListedAreOwnSlugs(plan, record, ids, slug);
    }
    forall b
      ensures b in after.bindings <==>
        BindingStore.IsGenerated(record, record.spec.triggers, b) || (b in bindings && !Lists(runtime, b.slug))
    {
      BindingStore.DeployLeaves(env.checks, record, record.spec.triggers, bindings, b);
    }
    forall slug | Lists(runtime, slug) ensures exists b :: b in after.bindings && b.slug == slug {
      var b := GeneratedWith(record, slug);
    }
    forall b | BindingStore.IsGenerated(record, record.spec.triggers, b)
      ensures b.automationId == id && BindingStore.IsSlugOf(record, record.spec.triggers, b.slug)
    {
      GeneratedHas(record, b);
    }
  }

  lemma GeneratedWith(record: Record, slug: string) returns (b: BindingStore.BindingSpec)
    requires BindingStore.IsSlugOf(record, record.spec.triggers, slug)
    ensures b.slug == slug && BindingStore.IsGenerated(record, record.spec.triggers, b)
  {
    hide BindingSlug;
    var t :| BindingStore.Connects(record.spec.triggers, t) && slug == BindingSlug(record.id, t.id);
    b := BindingStore.Generated(record, t);
  }

  lemma GeneratedHas(record: Record, b: BindingStore.BindingSpec)
    requires BindingStore.IsGenerated(record, record.spec.triggers, b)
    ensures b.automationId == record.id && BindingStore.IsSlugOf(record, record.spec.triggers, b.slug)
  {
    hide BindingSlug;
  }

  lemma BindingsAreOwn(env: Env, record: Record)
    requires Compile(env.hashing, record).Ok?
    ensures Compile(env.hashing, record).value.bindings == Bindings(record.id, record.spec.triggers)
  {
  }

  lemma WriteNeeded(env: Env, s: State, op: Op, written: bool)
    requires op.ReplaceRuntime?
    ensures Perform(env, s, Call(op, written)).result.Ok? <==> written && Perform(env, s, Call(op, true)).result.Ok?
  {
    hide RecordOk, SpecHash;
  }

  /** The call succeeds exactly when the revision is the expected one, the automation compiles, every workflow gets an
      id that is URL-safe, connection trigger ids of a live deployment are in kebab case, no spec change was committed
      in between, and the write goes through. */
  lemma CompileSucceedsIff(env: Env, s: State, bindings: seq<BindingStore.BindingSpec>, id: string,
                           expected: Option<nat>, live: bool, world: World)
    requires Sound(env.hashing) && Distinct(Ids(s.records)) && SameLife(world.between, id)
    requires Lookup(s.records, id).Some? && RecordOk(env.checks, Lookup(s.records, id).value)
    ensures var record := Lookup(s.records, id).value;
      After(env, s, bindings, id, expected, live, world).result.Ok? <==> (
        && Answered(env, record, expected, live, world)
        && (live ==> KebabTriggers(record.spec))
        && Accepted(env, s, id, record, live, world))
  {
    hide Compile, WorkflowIds, RuntimeOf, Run, Perform, RecordOk, Sound, SameLife, CommitCount, KebabTriggers,
      IsTrimmed, UrlSafe, Lookup;
    var record := Lookup(s.records, id).value;
    LookupHasId(s.records, id);
    DecisionMeans(env, record, live, world.replies, bindings);
    var d := Decide(env, record, live, world.replies, bindings);
    if d.replace.Ok? {
      var plan := Compile(env.hashing, record).value;
      RepliesTrimmed(world.replies, live, |plan.workflows|);
      PlanIsOf(env, record);
      WriteNeeded(env, Run(env, s, world.between), d.replace.value, world.written);
      DeployAcceptedIff(env, s, id, world.between, live, WorkflowIds(world.replies, live, |plan.workflows|).value);
    }
  }

  /** What a call on a valid record reports: the first of these that applies. */
  lemma CompileReports(env: Env, s: State, bindings: seq<BindingStore.BindingSpec>, id: string, expected: Option<nat>,
                       live: bool, world: World)
    requires Sound(env.hashing)
    requires Lookup(s.records, id).Some? ==> RecordOk(env.checks, Lookup(s.records, id).value)
    ensures var result := After(env, s, bindings, id, expected, live, world).result;
      if Lookup(s.records, id).None? then result == Err(NoRecord)
      else
        var record := Lookup(s.records, id).value;
        var compiled := Compile(env.hashing, record);
        if expected.Some? && expected.value != record.revision then result == Err(StaleRevision)
        else if compiled.Err? then result == Err(CompileFailed(compiled.error))
        else if exists k: nat :: k < |compiled.value.workflows| && ReplyId(world.replies(k), live).None? then
          result == Err(NoWorkflowId)
        else if live && !KebabTriggers(record.spec) then result == Err(BindingRejected)
        else result.Ok? || result.error.NotStored?
  {
    hide RecordOk, Compile, RuntimeOf, Run, Perform, KebabTriggers, Lookup, BindingStore.AfterDeploy, Sound;
    if Lookup(s.records, id).Some? {
      BindingsReachEnd(env.checks, Lookup(s.records, id).value, bindings);
    }
  }

  /** The snapshot is the expected one, it compiles, and the workflow runtime answers with an id for each workflow. */
  predicate Answered(env: Env, record: Record, expected: Option<nat>, live: bool, world: World) {
    && Matches(expected, record.revision) && Compile(env.hashing, record).Ok?
    && WorkflowIds(world.replies, live, |Compile(env.hashing, record).value.workflows|).Some?
  }

  predicate Accepted(env: Env, s: State, id: string, record: Record, live: bool, world: World)
    requires Compile(env.hashing, record).Ok?
    requires WorkflowIds(world.replies, live, |Compile(env.hashing, record).value.workflows|).Some?
  {
    && CommitCount(env, s, world.between, id) == 0 && world.written
    && forall x | x in WorkflowIds(world.replies, live, |Compile(env.hashing, record).value.workflows|).value ::
      UrlSafe(x)
  }

  /** For an automation without bindings before, a failed call leaves some behind exactly when it is live, gets its ids,
      its first connection trigger has an id in kebab case, and either a later one has not or the store does not accept
      the replacement: bindings are installed first and not taken back. */
  lemma LeftoverIff(env: Env, s: State, bindings: seq<BindingStore.BindingSpec>, id: string, expected: Option<nat>,
                    live: bool, world: World)
    requires Sound(env.hashing) && Distinct(Ids(s.records)) && SameLife(world.between, id)
    requires Lookup(s.records, id).Some? && RecordOk(env.checks, Lookup(s.records, id).value)
    requires !BindingStore.Owned(bindings, id)
    ensures var record, after := Lookup(s.records, id).value, After(env, s, bindings, id, expected, live, world);
      after.result.Err? && BindingStore.Owned(after.bindings, id) <==> (
        && live && Answered(env, record, expected, true, world) && BindingStore.FirstIsKebab(record.spec.triggers)
        && !(KebabTriggers(record.spec) && Accepted(env, s, id, record, true, world)))
  {
    var record := Lookup(s.records, id).value;
    LookupHasId(s.records, id);
    BindingStore.TriggersValid(env.checks, record);
    BindingStore.DeployInstallsIff(env.checks, record, record.spec.triggers, bindings);
    hide RecordOk, Sound, SameLife, BindingStore.Owned, BindingStore.DeployedFrom, BindingStore.FirstIsKebab, Accepted,
      KebabTriggers, Compile, WorkflowIds, RuntimeOf, Run, Perform, Lookup;
    CompileSucceedsIff(env, s, bindings, id, expected, live, world);
  }

  /** A failed call has recorded its error, and the runtime lists no binding, unless a spec change was committed. */
  lemma FailureIsRecorded(env: Env, s: State, bindings: seq<BindingStore.BindingSpec>, id: string,
                          expected: Option<nat>, live: bool, world: World)
    requires Distinct(Ids(s.records)) && SameLife(world.between, id) && Lookup(s.records, id).Some?
    requires Matches(expected, Lookup(s.records, id).value.revision) && CommitCount(env, s, world.between, id) == 0
    ensures var after := After(env, s, bindings, id, expected, live, world);
      after.result.Err? ==>
        && Lookup(after.state.records, id).Some?
        && Lookup(after.state.records, id).value.runtime == ErrorRuntime(world.words(after.result.error))
  {
    hide Decide, Perform, Lookup, Run, CommitCount, SameLife;
    var record := Lookup(s.records, id).value;
    var now, d := Run(env, s, world.between), Decide(env, record, live, world.replies, bindings);
    RunRevision(env, s, world.between, id);
    DecidedOp(env, record, live, world.replies, bindings);
    if d.replace.Ok? { StepRevision(env, now, Call(d.replace.value, world.written), id); }
    var stored := Stored(env, now, d.replace, world.written);
    if stored.1.Err? { ErrorAssigned(env, stored.0, id, record.revision, world.words(stored.1.error), world.recorded); }
  }

  lemma ErrorAssigned(env: Env, s: State, id: string, revision: nat, message: string, written: bool)
    requires Distinct(Ids(s.records)) && Lookup(s.records, id).Some? && Lookup(s.records, id).value.revision == revision
    ensures var after := Perform(env, s, Call(ReplaceRuntimeError(id, revision, message), written)).state;
      Lookup(after.records, id).Some? && Lookup(after.records, id).value.runtime == ErrorRuntime(message)
  {
    hide RecordOk, SpecHash;
    var i := Find(s.records, id);
    LookupUpdate(s.records, i, s.records[i].(runtime := ErrorRuntime(message)), id);
  }
}
