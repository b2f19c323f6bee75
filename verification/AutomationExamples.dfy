/** The exceptions of the protocol at a concrete store: what the general results leave open does happen, with valid
    records and sound hashes (crates/puffer-automation/src/store.rs). */
module AutomationExamples {
  import opened Text
  import opened Wrappers
  import CanonicalJson
  import opened AutomationSpec
  import opened AutomationValidation
  import opened AutomationCompiler
  import AutomationPlan
  import opened AutomationRuntime
  import opened AutomationStore
  import opened AutomationProtocol

  // ---- The store ----------------------------------------------------------------------------------

  const FIRST: Spec := OneStep(ManualTrigger("start", None), "draft")
  const SECOND: Spec := OneStep(ManualTrigger("start", None), "review")
  const THIRD: Spec := OneStep(ManualTrigger("start", None), "send")

  /** Enough of a hash to tell the first spec from the others. */
  const HASHING: Hashing := Hashing(
    spec => CanonicalJson.Bool(spec == FIRST), text => if text == "true" then ZEROS else ONES, (graph: Graph) => ZEROS)

  const ZEROS: string := seq(64, i => '0')
  const ONES: string := seq(64, i => '1')

  const ENV: Env := Env(HASHING, Checks(pattern => true, expression => true, contact => true))

  const X: Record := Record("x", Enabled, 1, FIRST, NO_RUNTIME)
  const Y: Record := Record("y", Enabled, 1, FIRST, NO_RUNTIME)
  const START: State := State([X, Y], [X, Y])

  lemma HashesAreSound()
    ensures Sound(HASHING) && EncodesWell(HASHING)
    ensures SpecHash(HASHING, FIRST) != SpecHash(HASHING, SECOND)
      && SpecHash(HASHING, FIRST) != SpecHash(HASHING, THIRD)
  {
    var first, other := SpecHash(HASHING, FIRST), SpecHash(HASHING, SECOND);
    assert FIRST.flow.steps[0].id[0] != SECOND.flow.steps[0].id[0];
    assert FIRST.flow.steps[0].id[0] != THIRD.flow.steps[0].id[0];
    assert first[|HASH_PREFIX|] == '0' && other[|HASH_PREFIX|] == '1';
  }

  lemma RecordIsValid(id: string, status: Status, stepId: string)
    requires id in {"x", "y"} && stepId in {"draft", "review", "send"}
    ensures RecordOk(ENV.checks, Record(id, status, 1, OneStep(ManualTrigger("start", None), stepId), NO_RUNTIME))
  {
    IdsAreValid(id);
    IdsAreValid(stepId);
    IdsAreValid("start");
    hide IsLocalId, SpecOk, IsSlug, RuntimeOk, ReferencesOk;
    OneStepIsValid(ENV.checks, ManualTrigger("start", None), stepId);
    NoRuntimeOk(OneStep(ManualTrigger("start", None), stepId));
  }

  lemma IdsAreValid(id: string)
    requires id in {"x", "y", "draft", "review", "send", "start"}
    ensures IsLocalId(id) && IsSlug(id)
  {
    LocalIdIf(id);
  }

  lemma StartIsLoadable()
    ensures Loadable(ENV.checks, START.records)
    ensures Find(START.records, "x") == 0 && Find(START.records, "y") == 1
    ensures Lookup(START.records, "x") == Some(X) && Lookup(START.records, "y") == Some(Y)
  {
    RecordIsValid("x", Enabled, "draft");
    RecordIsValid("y", Enabled, "draft");
    assert "x"[0] != "y"[0];
    TwoRecords(ENV.checks, X, Y);
  }

  lemma TwoRecords(o: Checks, a: Record, b: Record)
    requires RecordOk(o, a) && RecordOk(o, b) && a.id != b.id
    ensures Loadable(o, [a, b]) && Find([a, b], a.id) == 0 && Find([a, b], b.id) == 1
    ensures Lookup([a, b], a.id) == Some(a) && Lookup([a, b], b.id) == Some(b)
  {
    hide RecordOk;
    assert [a, b][0] == a && [a, b][1] == b;
  }

  // ---- A save whose write is lost -------------------------------------------------------------------

  const LOST_SAVE: Call := Call(SaveSpec("x", 1, SECOND), false)
  const LATER_SAVE: Call := Call(SaveSpec("x", 1, THIRD), true)

  lemma SavesCommit(save: Call)
    requires save == LOST_SAVE || save == LATER_SAVE
    ensures Commits(ENV, START, save, "x")
  {
    HashesAreSound();
    RecordIsValid("x", Paused, "review");
    RecordIsValid("x", Paused, "send");
    StartIsLoadable();
    hide RecordOk, SpecHash, Sound, EncodesWell, Lookup;
  }

  /** The write of a save is lost, the store is reloaded, and a second save with the same expected revision commits and
      succeeds: two spec-changing saves, one revision. */
  lemma TwoSavesOneRevision()
    ensures Commits(ENV, START, LOST_SAVE, "x") && Perform(ENV, START, LOST_SAVE).result.Err?
    ensures var reloaded := Run(ENV, START, [LOST_SAVE, Call(Reload, true)]);
      && LATER_SAVE.op.expected == LOST_SAVE.op.expected
      && Commits(ENV, reloaded, LATER_SAVE, "x") && Perform(ENV, reloaded, LATER_SAVE).result.Ok?
  {
    StartIsLoadable();
    SavesCommit(LOST_SAVE);
    SavesCommit(LATER_SAVE);
    LaterSaveSucceeds();
    hide RecordOk, SpecHash, Perform, Run, Loadable, Commits;
    LostSaveIsForgotten(ENV, START, LOST_SAVE, LATER_SAVE, "x");
  }

  lemma LaterSaveSucceeds()
    ensures Perform(ENV, START, LATER_SAVE).result.Ok?
  {
    StartIsLoadable();
    SavesCommit(LATER_SAVE);
    StartIsLoadable();
    hide RecordOk, SpecHash;
    EntryEditsOk(ENV, X, THIRD, Enabled, "", 1);
  }

  /** When a status change of the other record comes before the reload, it writes the lost save with its own change, and
      the second save does not commit. */
  lemma OtherRecordRescuesSave()
    ensures var after := Perform(ENV, START, LOST_SAVE).state;
      var rescued := Run(ENV, after, [Call(SetStatus("y", Paused), true)]);
      !Commits(ENV, Perform(ENV, rescued, Call(Reload, true)).state, LATER_SAVE, "x")
  {
    StartIsLoadable();
    SavesCommit(LOST_SAVE);
    PauseSucceeds();
    hide RecordOk, SpecHash, Perform, Run, Loadable, Commits, Lookup;
    AnySuccessRescues(ENV, START, LOST_SAVE, Call(SetStatus("y", Paused), true), LATER_SAVE, "x");
  }

  lemma AnySuccessRescues(env: Env, s: State, first: Call, other: Call, second: Call, id: string)
    requires s.file == s.records && Loadable(env.checks, s.file) && Commits(env, s, first, id) && Survives(other, id)
    requires Perform(env, Perform(env, s, first).state, other).result.Ok?
    requires second.op.SaveSpec? && second.op.expected == first.op.expected
    ensures var rescued := Run(env, Perform(env, s, first).state, [other]);
      !Commits(env, Perform(env, rescued, Call(Reload, true)).state, second, id)
  {
    hide RecordOk, SpecHash, Perform, Run, Loadable, Commits, Lookup;
    LostSaveIff(env, s, first, [other], id);
    var end := Perform(env, Run(env, Perform(env, s, first).state, [other]), Call(Reload, true)).state;
    if Commits(env, end, second, id) { CommitNeedsRevision(env, end, second, id); }
  }

  lemma PauseSucceeds()
    ensures Perform(ENV, Perform(ENV, START, LOST_SAVE).state, Call(SetStatus("y", Paused), true)).result.Ok?
  {
    StartIsLoadable();
    StepLoadableIff(ENV, START, LOST_SAVE);
    StepRevision(ENV, START, LOST_SAVE, "y");
    hide Perform;
    StatusChangeSucceeds(Perform(ENV, START, LOST_SAVE).state, "y", Paused);
  }

  lemma StatusChangeSucceeds(s: State, id: string, status: Status)
    requires Loadable(ENV.checks, s.records) && Lookup(s.records, id).Some?
    ensures Perform(ENV, s, Call(SetStatus(id, status), true)).result.Ok?
  {
    hide RecordOk, SpecHash;
    var entry := Lookup(s.records, id).value;
    assert entry in s.records;
    EntryEditsOk(ENV, entry, entry.spec, status, "", 1);
  }

  // ---- A runtime that is rejected ----------------------------------------------------------------------

  /** What the deployer builds from the first record when the workflow runtime answers with an id that is not
      URL-safe. */
  function Rejected(): Call
    requires Compile(HASHING, X).Ok? && |Compile(HASHING, X).value.workflows| == 1
  {
    Call(ReplaceRuntime("x", 1, RuntimeOf(Compile(HASHING, X).value, false, ["a/b"])), true)
  }

  /** The rejected runtime stays in memory, and a status change of the other record writes a file that does not load. */
  lemma RejectedRuntimeReachesFile()
    ensures Compile(HASHING, X).Ok? && |Compile(HASHING, X).value.workflows| == 1
    ensures var rejected := Perform(ENV, START, Rejected());
      var paused := Perform(ENV, rejected.state, Call(SetStatus("y", Paused), true));
      rejected.result.Err? && paused.result.Ok? && !Loadable(ENV.checks, paused.state.file)
  {
    OneBodyless(HASHING, X);
    RejectedFails();
    StartIsLoadable();
    hide RecordOk, SpecHash, Perform, Run, Loadable, FailsFinalCheck;
    FailedReplacePoisonsFile(ENV, START, Rejected(), "y", Paused);
  }

  lemma RejectedFails()
    requires Compile(HASHING, X).Ok? && |Compile(HASHING, X).value.workflows| == 1
    ensures FailsFinalCheck(ENV, START, Rejected())
  {
    HashesAreSound();
    StartIsLoadable();
    RecordIsValid("x", Enabled, "draft");
    UnsafeId();
    hide RecordOk, SpecHash, Sound, Compile, RuntimeOf, UrlSafe, IsTrimmed, Lookup, FailsFinalCheck;
    UnsafeIdFails(ENV, START, X, "a/b");
  }

  lemma UnsafeId()
    ensures IsTrimmed("a/b") && !UrlSafe("a/b")
  {
    assert "a/b"[1] == '/';
  }

  lemma UnsafeIdFails(env: Env, s: State, record: Record, id: string)
    requires Sound(env.hashing) && Lookup(s.records, record.id) == Some(record) && RecordOk(env.checks, record)
    requires Compile(env.hashing, record).Ok? && |Compile(env.hashing, record).value.workflows| == 1
    requires id != "" && IsTrimmed(id) && !UrlSafe(id)
    ensures var runtime := RuntimeOf(Compile(env.hashing, record).value, false, [id]);
      FailsFinalCheck(env, s, Call(ReplaceRuntime(record.id, record.revision, runtime), true))
  {
    PlanIsOf(env, record);
    CompiledFor(Compile(env.hashing, record).value, [id]);
    hide SpecHash, Sound, Compile, RuntimeOf, SpecOk, RuntimeOk, ReferencesOk, UrlSafe, IsSlug, IsTrimmed, Lookup;
    CompiledRuntimeValidIff(env.hashing, env.checks, record, false, [id]);
  }

  lemma CompiledFor(plan: Plan, ids: seq<string>)
    requires |ids| == |plan.workflows|
    ensures var runtime := RuntimeOf(plan, false, ids);
      runtime.compiledRevision == Some(plan.revision) && runtime.specHash == Some(plan.specHash)
  {
  }

  // ---- A stale editor ----------------------------------------------------------------------------------------

  /** The record is deleted and created again with another spec; an editor that read the deleted one overwrites it. */
  lemma StaleEditorOverwrites()
    ensures var create, save := Call(Create("x", SECOND, Enabled), true), Call(SaveSpec("x", 1, FIRST), true);
      var found := Lookup(Run(ENV, START, [Call(Delete("x"), true), create, save]).records, "x");
      found.Some? && found.value.spec == FIRST
  {
    HashesAreSound();
    StartIsLoadable();
    RecordIsValid("x", Enabled, "review");
    RecordIsValid("x", Paused, "draft");
    hide RecordOk, SpecHash, Sound, EncodesWell, Lookup;
    StaleEditorAcrossIncarnations(ENV, START, "x", Enabled, SECOND, FIRST);
  }

  // ---- A loop ---------------------------------------------------------------------------------------------------

  const BODY: Flow := Flow([NodeStep("draft", AGENT_NODE, None)])
  const AGAIN: Step :=
    LoopStep("again", Repeat(TriggerPayload, OutputEquals("done", CanonicalJson.Bool(true)), 3), BODY, None)
  const LOOPED: Spec := FIRST.(flow := Flow([AGAIN]))

  lemma LoopedSteps(o: Checks)
    ensures StepsOk(o, [AGAIN]) && FlowIds([AGAIN]) == ["again", "draft"] && Flat(BODY.steps)
  {
    LocalIdIf("again");
    IdsAreValid("draft");
    OneStepOk(o, ManualTrigger("start", None), "draft");
    OnePart();
    assert [AGAIN][1..] == [] && BODY.steps[1..] == [];
    assert FlowIds(BODY.steps) == ["draft"];
    hide IsLocalId, IsJsonPath;
  }

  lemma OnePart()
    ensures IsJsonPath("done")
  {
    assert !AllSpace("done") by { assert !IsSpace("done"[0]); }
    assert Join(["done"], ".") == "done";
    JsonPathIff(["done"]);
  }

  /** An automation whose only step is a loop is valid. */
  lemma LoopIsValid(o: Checks)
    ensures SpecOk(o, LOOPED)
  {
    LoopedSteps(o);
    IdsAreValid("start");
    assert "again"[0] != "draft"[0];
    NotBlank("One step");
    NotBlank("Run it.");
    hide StepsOk, IsLocalId;
  }

  /** It compiles to a root without step nodes and the body of the loop. */
  lemma LoopCompiles()
    ensures var compiled := Compile(HASHING, X.(spec := LOOPED));
      compiled.Ok? && |compiled.value.workflows| == 2 && compiled.value.workflows[1].role == LoopBody("again")
  {
    LoopedSteps(ENV.checks);
    assert [AGAIN][..0] == [] && LOOPED.flow.steps == [AGAIN];
    CompilesIff(HASHING, X.(spec := LOOPED));
    hide Compile, StepsOk, FlowIds;
    AutomationPlan.PlanCarriesSpec(HASHING, X.(spec := LOOPED));
  }
}
