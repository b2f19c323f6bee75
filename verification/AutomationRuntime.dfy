/** The runtime state the deployer builds from a compile plan and the workflow runtime's replies
    (crates/puffer-cli/src/daemon_automation_runtime.rs), and when the record validator accepts it. */
module AutomationRuntime {
  import opened Text
  import opened Wrappers
  import opened AutomationSpec
  import opened AutomationValidation
  import opened AutomationCompiler

  // ---- The ids the workflow runtime answers with ------------------------------------------------------

  /** The reply to one workflow: `fields` are the texts under the five id keys, in order; `deploys` tells whether the
      deploy call, made only for a live deployment, goes through. */
  datatype Reply = Refused | Answer(fields: seq<Option<string>>, deploys: bool)

  function IdIn(fields: seq<Option<string>>): (id: Option<string>)
    ensures id.Some? ==> id.value != "" && IsTrimmed(id.value)
    ensures id.None? <==> forall f | f in fields :: f.None? || Trim(f.value) == ""
  {
    if fields == [] then None
    else
      assert fields == [fields[0]] + fields[1..];
      if fields[0].Some? && Trim(fields[0].value) != "" then
        assert IsTrimmed(Trim(fields[0].value)) by { var pre, post := TrimCuts(fields[0].value); }
        Some(Trim(fields[0].value))
      else IdIn(fields[1..])
  }

  /** The id is the trimmed text of the first field that is not blank. */
  lemma {:induction false} IdIsFirst(fields: seq<Option<string>>) returns (k: nat)
    requires IdIn(fields).Some?
    ensures k < |fields| && fields[k].Some? && IdIn(fields).value == Trim(fields[k].value) != ""
    ensures forall j | 0 <= j < k :: fields[j].None? || Trim(fields[j].value) == ""
  {
    if fields[0].Some? && Trim(fields[0].value) != "" {
      k := 0;
    } else {
      var rest := IdIsFirst(fields[1..]);
      k := rest + 1;
      assert forall j | 1 <= j < k :: fields[j] == fields[1..][j - 1];
    }
  }

  function ReplyId(reply: Reply, live: bool): Option<string> {
    if reply.Refused? || (live && !reply.deploys) then None else IdIn(reply.fields)
  }

  /** The ids of the first `n` replies, unless one of them gives none. */
  function WorkflowIds(replies: nat -> Reply, live: bool, n: nat): (ids: Option<seq<string>>)
    ensures ids.Some? ==> |ids.value| == n && forall k | 0 <= k < n :: ReplyId(replies(k), live) == Some(ids.value[k])
    ensures ids.None? <==> exists k | 0 <= k < n :: ReplyId(replies(k), live).None?
  {
    if n == 0 then Some([])
    else
      var before, id := WorkflowIds(replies, live, n - 1), ReplyId(replies(n - 1), live);
      if before.None? || id.None? then None else Some(before.value + [id.value])
  }

  /** A trimmed id the validator takes: printable ASCII without `/`, `?` or `#`. */
  predicate UrlSafe(id: string) {
    forall i | 0 <= i < |id| :: '!' <= id[i] <= '~' && id[i] !in "/?#"
  }

  // ---- The runtime state ---------------------------------------------------------------------------------

  function SyncedWorkflows(ws: seq<CompiledWorkflow>, ids: seq<string>, live: bool): (r: seq<Workflow>)
    requires |ids| == |ws|
    ensures |r| == |ws|
    ensures forall i | 0 <= i < |r| :: r[i] == Workflow(ws[i].role, Some(ids[i]), Some(ws[i].definitionHash), live)
  {
    seq(|ws|, i requires 0 <= i < |ws| => Workflow(ws[i].role, Some(ids[i]), Some(ws[i].definitionHash), live))
  }

  function CopiedBindings(bs: seq<BindingPlan>): (r: seq<Binding>)
    ensures |r| == |bs| && forall i | 0 <= i < |r| :: r[i] == Binding(bs[i].triggerId, bs[i].bindingSlug)
  {
    seq(|bs|, i requires 0 <= i < |bs| => Binding(bs[i].triggerId, bs[i].bindingSlug))
  }

  /** A live deployment copies the bindings; a draft sync has none. */
  function RuntimeOf(plan: Plan, live: bool, ids: seq<string>): Runtime
    requires |ids| == |plan.workflows|
  {
    Runtime(Some(plan.specHash), Some(plan.revision), if live then Deployed else DraftSynced,
            SyncedWorkflows(plan.workflows, ids, live), if live then CopiedBindings(plan.bindings) else [], None)
  }

  lemma NoneSynced(ws: seq<CompiledWorkflow>, replies: nat -> Reply, live: bool)
    ensures WorkflowIds(replies, live, 0) == Some([]) && SyncedWorkflows(ws[..0], [], live) == []
  {
  }

  lemma OneMoreId(replies: nat -> Reply, live: bool, k: nat)
    requires WorkflowIds(replies, live, k).Some? && ReplyId(replies(k), live).Some?
    ensures WorkflowIds(replies, live, k + 1) ==
      Some(WorkflowIds(replies, live, k).value + [ReplyId(replies(k), live).value])
  {
  }

  lemma OneMoreWorkflow(ws: seq<CompiledWorkflow>, ids: seq<string>, id: string, live: bool)
    requires |ids| < |ws|
    ensures var k := |ids|;
      SyncedWorkflows(ws[..k + 1], ids + [id], live) ==
      SyncedWorkflows(ws[..k], ids, live) + [Workflow(ws[k].role, Some(id), Some(ws[k].definitionHash), live)]
  {
  }

  lemma OneMoreSynced(ws: seq<CompiledWorkflow>, replies: nat -> Reply, live: bool, k: nat)
    requires k < |ws| && WorkflowIds(replies, live, k).Some? && ReplyId(replies(k), live).Some?
    ensures WorkflowIds(replies, live, k + 1) ==
      Some(WorkflowIds(replies, live, k).value + [ReplyId(replies(k), live).value])
    ensures SyncedWorkflows(ws[..k + 1], WorkflowIds(replies, live, k + 1).value, live) ==
      SyncedWorkflows(ws[..k], WorkflowIds(replies, live, k).value, live)
      + [Workflow(ws[k].role, Some(ReplyId(replies(k), live).value), Some(ws[k].definitionHash), live)]
  {
    OneMoreId(replies, live, k);
    hide WorkflowIds, ReplyId, SyncedWorkflows;
    OneMoreWorkflow(ws, WorkflowIds(replies, live, k).value, ReplyId(replies(k), live).value, live);
  }

  /** The loop over the compiled workflows. */
  method SyncWorkflows(plan: Plan, replies: nat -> Reply, live: bool) returns (r: Option<seq<Workflow>>)
    ensures r.None? <==> WorkflowIds(replies, live, |plan.workflows|).None?
    ensures r.Some? ==>
      r.value == SyncedWorkflows(plan.workflows, WorkflowIds(replies, live, |plan.workflows|).value, live)
  {
    hide WorkflowIds, ReplyId, SyncedWorkflows;
    var workflows: seq<Workflow> := [];
    NoneSynced(plan.workflows, replies, live);
    for k := 0 to |plan.workflows|
      invariant WorkflowIds(replies, live, k).Some?
      invariant workflows == SyncedWorkflows(plan.workflows[..k], WorkflowIds(replies, live, k).value, live)
    {
      var w := plan.workflows[k];
      var id := ReplyId(replies(k), live);
      if id.None? { return None; }
      OneMoreSynced(plan.workflows, replies, live, k);
      workflows := workflows + [Workflow(w.role, Some(id.value), Some(w.definitionHash), live)];
    }
    assert plan.workflows[..|plan.workflows|] == plan.workflows;
    r := Some(workflows);
  }

  // ---- When the validator accepts it ------------------------------------------------------------------------

  /** The trigger ids that are copied into binding slugs are in kebab case. */
  predicate KebabTriggers(spec: Spec) {
    forall t | t in spec.triggers && t.ConnectionTrigger? :: IsKebab(t.id)
  }

  predicate IsKebab(id: string) {
    forall i | 0 <= i < |id| :: IsSlugChar(id[i])
  }

  lemma BindingSlugOk(automationId: string, triggerId: string)
    requires IsSlug(automationId)
    ensures IsSlug(BindingSlug(automationId, triggerId)) <==> IsKebab(triggerId)
  {
    var slug := BindingSlug(automationId, triggerId);
    var at := |slug| - |triggerId|;
    assert slug[at..] == triggerId;
    assert forall i | 0 <= i < |triggerId| :: triggerId[i] == slug[at + i];
    assert forall i | at <= i < |slug| :: slug[i] == triggerId[i - at];
    assert forall i | 0 <= i < at :: IsSlugChar(slug[i]);
    assert slug[0] == 'a';
    NotBlank(slug);
  }

  lemma {:induction false} BodiesHold(h: Hashing, steps: seq<Step>)
    requires Bodies(h, steps).Ok?
    ensures forall w | w in Bodies(h, steps).value ::
      w.role.LoopBody? && w.role.stepId in FlowLoopIds(steps) && w.definitionHash == GraphHash(h, w.definition)
  {
    if steps != [] { BodiesHold(h, steps[1..]); }
  }

  lemma {:induction false} AcceptedIdsAreLocal(o: Checks, steps: seq<Step>)
    requires StepsOk(o, steps)
    ensures forall id | id in FlowIds(steps) :: IsLocalId(id)
    decreases steps
  {
    if steps != [] {
      AcceptedIdsAreLocal(o, steps[1..]);
      if steps[0].LoopStep? { AcceptedIdsAreLocal(o, steps[0].body.steps); }
    }
  }

  lemma PlanWorkflowsOk(h: Hashing, o: Checks, record: Record, w: CompiledWorkflow, id: string, live: bool)
    requires Sound(h) && SpecOk(o, record.spec) && Compile(h, record).Ok? && w in Compile(h, record).value.workflows
    requires id != "" && IsTrimmed(id)
    ensures WorkflowOk(Workflow(w.role, Some(id), Some(w.definitionHash), live)) <==> UrlSafe(id)
    ensures RoleRefers(w.role, record.spec.flow.steps)
  {
    var steps := record.spec.flow.steps;
    BodiesHold(h, steps);
    AcceptedIdsAreLocal(o, steps);
    LoopIdsAmongIds(steps);
    assert IsHash(GraphHash(h, w.definition));
    TrimMargins("", id, "");
    assert "" + id + "" == id;
    if w.role.LoopBody? { assert w.role.stepId in IdSet(FlowLoopIds(steps)); }
  }

  predicate TriggersOkIds(spec: Spec) {
    forall t | t in spec.triggers :: IsLocalId(t.id)
  }

  lemma PlanBindingOk(record: Record, b: BindingPlan)
    requires IsSlug(record.id) && TriggersOkIds(record.spec) && b in Bindings(record.id, record.spec.triggers)
    ensures b.triggerId in ConnectionIds(record.spec) && IsLocalId(b.triggerId)
    ensures IsSlug(b.bindingSlug) <==> IsKebab(b.triggerId)
    ensures KebabTriggers(record.spec) ==> IsKebab(b.triggerId)
  {
    var t := BindingSource(record.id, record.spec.triggers, b);
    BindingSlugOk(record.id, b.triggerId);
  }

  lemma CopiedBindingsOk(record: Record, plans: seq<BindingPlan>)
    requires IsSlug(record.id) && TriggersOkIds(record.spec) && plans == Bindings(record.id, record.spec.triggers)
    ensures forall b | b in CopiedBindings(plans) :: b.triggerId in ConnectionIds(record.spec) && IsLocalId(b.triggerId)
    ensures (forall b | b in CopiedBindings(plans) :: IsSlug(b.bindingSlug)) <==> KebabTriggers(record.spec)
  {
    var bindings := CopiedBindings(plans);
    forall b | b in bindings
      ensures b.triggerId in ConnectionIds(record.spec) && IsLocalId(b.triggerId)
      ensures KebabTriggers(record.spec) ==> IsSlug(b.bindingSlug)
    {
      var i :| 0 <= i < |bindings| && bindings[i] == b;
      PlanBindingOk(record, plans[i]);
    }
    if forall b | b in bindings :: IsSlug(b.bindingSlug) {
      forall t | t in record.spec.triggers && t.ConnectionTrigger? ensures IsKebab(t.id) {
        var plan := BindingOf(record.id, record.spec.triggers, t);
        var i :| 0 <= i < |plans| && plans[i] == plan;
        assert bindings[i] in bindings;
        PlanBindingOk(record, plan);
      }
    }
  }

  lemma SyncedWorkflowsOk(h: Hashing, o: Checks, record: Record, live: bool, ids: seq<string>)
    requires Sound(h) && SpecOk(o, record.spec) && Compile(h, record).Ok?
    requires |ids| == |Compile(h, record).value.workflows| && forall id | id in ids :: id != "" && IsTrimmed(id)
    ensures var ws := SyncedWorkflows(Compile(h, record).value.workflows, ids, live);
      && (forall w | w in ws :: RoleRefers(w.role, record.spec.flow.steps))
      && ((forall w | w in ws :: WorkflowOk(w)) <==> forall id | id in ids :: UrlSafe(id))
  {
    hide SpecOk, Compile, WorkflowOk, RoleRefers, UrlSafe, Sound;
    var plan := Compile(h, record).value;
    var ws := SyncedWorkflows(plan.workflows, ids, live);
    forall i | 0 <= i < |ws|
      ensures RoleRefers(ws[i].role, record.spec.flow.steps) && (WorkflowOk(ws[i]) <==> UrlSafe(ids[i]))
    {
      assert plan.workflows[i] in plan.workflows && ids[i] in ids;
      PlanWorkflowsOk(h, o, record, plan.workflows[i], ids[i], live);
    }
    if forall w | w in ws :: WorkflowOk(w) {
      forall id | id in ids ensures UrlSafe(id) {
        var i :| 0 <= i < |ids| && ids[i] == id;
        assert ws[i] in ws;
      }
    }
  }

  /** The runtime built from a valid record always refers to its spec, and passes the runtime validator exactly when
      every returned workflow id is URL-safe and, for a live deployment, connection trigger ids are in kebab case. */
  lemma CompiledRuntimeValidIff(h: Hashing, o: Checks, record: Record, live: bool, ids: seq<string>)
    requires Sound(h) && IsSlug(record.id) && SpecOk(o, record.spec) && Compile(h, record).Ok?
    requires |ids| == |Compile(h, record).value.workflows| && forall id | id in ids :: id != "" && IsTrimmed(id)
    ensures ReferencesOk(record.spec, RuntimeOf(Compile(h, record).value, live, ids))
    ensures RuntimeOk(RuntimeOf(Compile(h, record).value, live, ids)) <==>
      ((forall id | id in ids :: UrlSafe(id)) && (live ==> KebabTriggers(record.spec)))
  {
    var plan := Compile(h, record).value;
    assert IsHash(SpecHash(h, record.spec));
    SyncedWorkflowsOk(h, o, record, live, ids);
    CopiedBindingsOk(record, plan.bindings);
  }

  // ---- A valid record whose live runtime is rejected ----------------------------------------------------------

  /** A connection trigger with the id `new_mail`. */
  const NEW_MAIL: Trigger := ConnectionTrigger("new_mail", "mail", None, None, [], [], None)

  lemma NewMailIsValid(o: Checks)
    ensures TriggerOk(o, NEW_MAIL) && !IsKebab(NEW_MAIL.id)
  {
    LocalIdIf("new_mail");
    LocalIdIf("mail");
    assert "new_mail"[3] == '_';
  }

  lemma OneBodyless(h: Hashing, record: Record)
    requires exists trigger: Trigger, stepId: string :: record.spec == OneStep(trigger, stepId)
    ensures Compile(h, record).Ok? && |Compile(h, record).value.workflows| == 1
  {
    CompilesIff(h, record);
    assert record.spec.flow.steps[1..] == [];
    assert Bodies(h, record.spec.flow.steps) == Ok([]);
  }

  /** A valid automation with an underscore in a connection trigger id compiles, its draft passes the validator, and its
      live runtime does not, whatever the workflow runtime answers. */
  lemma UnderscoreTriggerRejected(h: Hashing, o: Checks, id: string)
    requires Sound(h) && id != "" && IsTrimmed(id) && UrlSafe(id)
    ensures var record := Record("mail", Enabled, 1, OneStep(NEW_MAIL, "answer"), NO_RUNTIME);
      && RecordOk(o, record) && Compile(h, record).Ok? && |Compile(h, record).value.workflows| == 1
      && RuntimeOk(RuntimeOf(Compile(h, record).value, false, [id]))
      && !RuntimeOk(RuntimeOf(Compile(h, record).value, true, [id]))
  {
    hide SpecOk, RuntimeOf, Compile, RuntimeOk, ReferencesOk, TriggerOk, Sound, UrlSafe, IsKebab;
    var record := Record("mail", Enabled, 1, OneStep(NEW_MAIL, "answer"), NO_RUNTIME);
    NewMailIsValid(o);
    LocalIdIf("mail");
    LocalIdIf("answer");
    OneStepIsValid(o, NEW_MAIL, "answer");
    assert NEW_MAIL in record.spec.triggers;
    NoRuntimeOk(record.spec);
    OneBodyless(h, record);
    CompiledRuntimeValidIff(h, o, record, false, [id]);
    CompiledRuntimeValidIff(h, o, record, true, [id]);
  }

  lemma NoRuntimeOk(spec: Spec)
    ensures RuntimeOk(NO_RUNTIME) && ReferencesOk(spec, NO_RUNTIME)
  {
  }
}
