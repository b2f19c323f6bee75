/** Validation of automation records (crates/puffer-automation/src/validation.rs). */
module AutomationValidation {
  import opened Text
  import opened Wrappers
  import opened AutomationSpec

  /** The checks done by libraries: regular expressions, the jq subset, contact ids. */
  datatype Checks = Checks(regex: string -> bool, jq: string -> bool, contact: string -> bool)

  // ---- Names --------------------------------------------------------------------------

  predicate IsDigit(c: char) { '0' <= c <= '9' }

  predicate IsLocalIdChar(c: char) { IsSlugChar(c) || 'A' <= c <= 'Z' || c == '_' }

  predicate IsHexDigit(c: char) { IsDigit(c) || 'a' <= c <= 'f' || 'A' <= c <= 'F' }

  predicate IsSlug(s: string) {
    Trim(s) != "" && forall i | 0 <= i < |s| :: IsSlugChar(s[i])
  }

  predicate IsLocalId(s: string) {
    Trim(s) != "" && forall i | 0 <= i < |s| :: IsLocalIdChar(s[i])
  }

  const HASH_PREFIX: string := "sha256:"

  predicate IsHash(s: string) {
    HASH_PREFIX <= s && |s| == |HASH_PREFIX| + 64 && forall i | |HASH_PREFIX| <= i < |s| :: IsHexDigit(s[i])
  }

  predicate IsWorkflowId(s: string) {
    && Trim(s) != "" && Trim(s) == s
    && forall i | 0 <= i < |s| :: '!' <= s[i] <= '~' && s[i] !in "/?#"
  }

  predicate FilledIn(text: Option<string>) {
    text.Some? ==> Trim(text.value) != ""
  }

  function SplitDots(path: string, part: string): seq<string> {
    if path == "" then [part]
    else if path[0] == '.' then [part] + SplitDots(path[1..], "")
    else SplitDots(path[1..], part + [path[0]])
  }

  predicate IsJsonPath(path: string) {
    Trim(path) != "" && forall part | part in SplitDots(path, "") :: Trim(part) != ""
  }

  // ---- Parts of a spec ----------------------------------------------------------------------

  predicate IsControlOrSpace(c: char) {
    c <= ' ' || c == '\U{7F}'
  }

  predicate NodeOk(node: NodeRef) {
    && Trim(node.nodeType) != "" && Trim(node.nodeType) == node.nodeType
    && (forall i | 0 <= i < |node.nodeType| :: !IsControlOrSpace(node.nodeType[i]))
    && FilledIn(node.name)
  }

  predicate FilterOk(o: Checks, filter: Filter) {
    match filter
    case Regex(pattern, _) => o.regex(pattern)
    case Jq(expression) => Trim(expression) != "" && o.jq(expression)
    case Any(filters) => filters != [] && forall f | f in filters :: FilterOk(o, f)
    case Shape(shape) => shape.Object?
  }

  predicate TriggerOk(o: Checks, trigger: Trigger) {
    && IsLocalId(trigger.id)
    && match trigger
       case AgentEnvTrigger(_, node, _) => NodeOk(node)
       case ConnectionTrigger(_, connection, connector, filter, ignored, contacts, _) =>
         && IsSlug(connection)
         && (connector.Some? ==> IsSlug(connector.value))
         && (filter.Some? ==> FilterOk(o, filter.value))
         && (forall f | f in ignored :: FilterOk(o, f))
         && (forall c | c in contacts :: o.contact(c))
       case ManualTrigger(_, _) => true
  }

  predicate LoopInputOk(input: LoopInput) {
    input.StepOutput? ==> IsLocalId(input.stepId) && FilledIn(input.path)
  }

  predicate LoopStopOk(o: Checks, stop: LoopStop) {
    match stop
    case OutputEquals(path, _) => IsJsonPath(path)
    case OutputMatches(path, pattern) => IsJsonPath(path) && o.regex(pattern)
    case StopNode(node) => NodeOk(node)
  }

  predicate LoopSpecOk(o: Checks, spec: LoopSpec) {
    match spec
    case Repeat(input, stop, max) => LoopInputOk(input) && LoopStopOk(o, stop) && max != 0
    case ForEach(input, itemAlias, cap) => LoopInputOk(input) && IsLocalId(itemAlias) && cap != Some(0)
  }

  predicate SourceOk(source: Source) {
    match source
    case Blank => true
    case NaturalLanguage(prompt) => Trim(prompt) != ""
    case Template(id, version) => IsLocalId(id) && FilledIn(version)
  }

  // ---- Triggers: the loop and what it decides ------------------------------------------------

  predicate TriggersOk(o: Checks, triggers: seq<Trigger>) {
    (forall t | t in triggers :: TriggerOk(o, t)) && Distinct(TriggerIds(triggers))
  }

  /** From `from` on no id repeats or was seen before: what a loop over a growing id set checks. */
  predicate AllNew(ids: seq<string>, from: nat, seen: set<string>)
    requires from <= |ids|
    decreases |ids| - from
  {
    from == |ids| || (ids[from] !in seen && AllNew(ids, from + 1, seen + {ids[from]}))
  }

  lemma {:induction false} AllNewIff(ids: seq<string>, from: nat, seen: set<string>)
    requires from <= |ids|
    ensures AllNew(ids, from, seen) <==> Distinct(ids[from..]) && IdSet(ids[from..]) !! seen
    decreases |ids| - from
  {
    if from < |ids| {
      AllNewIff(ids, from + 1, seen + {ids[from]});
      assert ids[from..] == [ids[from]] + ids[from + 1..];
      DistinctAppend([ids[from]], ids[from + 1..]);
      assert IdSet([ids[from]]) == {ids[from]};
    }
  }

  lemma AllNewIsDistinct(ids: seq<string>)
    ensures AllNew(ids, 0, {}) <==> Distinct(ids)
  {
    AllNewIff(ids, 0, {});
    assert ids[0..] == ids;
  }

  method ValidateTriggers(o: Checks, triggers: seq<Trigger>) returns (ok: bool)
    ensures ok <==> TriggersOk(o, triggers)
  {
    hide TriggerOk;
    var ids: set<string> := {};
    ghost var all := TriggerIds(triggers);
    for k := 0 to |triggers|
      invariant forall j | 0 <= j < k :: TriggerOk(o, triggers[j])
      invariant AllNew(all, 0, {}) <==> AllNew(all, k, ids)
    {
      assert triggers[k] in triggers;
      if !TriggerOk(o, triggers[k]) { return false; }
      if triggers[k].id in ids {
        AllNewIsDistinct(all);
        return false;
      }
      ids := ids + {triggers[k].id};
    }
    AllNewIsDistinct(all);
    ok := true;
  }

  // ---- Flows: the loop over one growing id set, and what it decides ----------------------------

  function IdSet(ids: seq<string>): set<string> {
    set id | id in ids
  }

  /** Everything about a step but the uniqueness of its ids. */
  predicate StepOk(o: Checks, step: Step)
    decreases step
  {
    && IsLocalId(step.id)
    && match step
       case NodeStep(_, node, _) => NodeOk(node)
       case LoopStep(_, config, body, _) => LoopSpecOk(o, config) && body.steps != [] && StepsOk(o, body.steps)
  }

  predicate StepsOk(o: Checks, steps: seq<Step>)
    decreases steps
  {
    steps == [] || (StepOk(o, steps[0]) && StepsOk(o, steps[1..]))
  }

  /** Accepted after the ids `seen`: nothing repeats, at any depth. */
  predicate Accepts(o: Checks, steps: seq<Step>, seen: set<string>) {
    StepsOk(o, steps) && Distinct(FlowIds(steps)) && IdSet(FlowIds(steps)) !! seen
  }

  lemma DistinctAppend(xs: seq<string>, ys: seq<string>)
    ensures Distinct(xs + ys) <==> Distinct(xs) && Distinct(ys) && IdSet(xs) !! IdSet(ys)
    ensures IdSet(xs + ys) == IdSet(xs) + IdSet(ys)
  {
    var all := xs + ys;
    assert forall i | 0 <= i < |xs| :: all[i] == xs[i];
    assert forall i | 0 <= i < |ys| :: all[|xs| + i] == ys[i];
    if Distinct(all) {
      forall i, j | 0 <= i < j < |ys| ensures ys[i] != ys[j] { assert all[|xs| + i] != all[|xs| + j]; }
      forall x | x in IdSet(xs) ensures x !in IdSet(ys) {
        var i :| 0 <= i < |xs| && xs[i] == x;
        forall j | 0 <= j < |ys| ensures ys[j] != x { assert all[i] != all[|xs| + j]; }
      }
    }
    if Distinct(xs) && Distinct(ys) && IdSet(xs) !! IdSet(ys) {
      forall i, j | 0 <= i < j < |all| ensures all[i] != all[j] {
        if i < |xs| <= j { assert xs[i] in IdSet(xs) && ys[j - |xs|] in IdSet(ys); }
        if |xs| <= i { assert ys[i - |xs|] != ys[j - |xs|]; }
      }
    }
  }

  lemma AcceptsStep(o: Checks, steps: seq<Step>, seen: set<string>)
    requires steps != []
    ensures Accepts(o, steps, seen) <==> (
              && StepOk(o, steps[0]) && Distinct(StepIds(steps[0])) && IdSet(StepIds(steps[0])) !! seen
              && Accepts(o, steps[1..], seen + IdSet(StepIds(steps[0]))))
  {
    DistinctAppend(StepIds(steps[0]), FlowIds(steps[1..]));
  }

  lemma AcceptsLoop(o: Checks, step: Step, seen: set<string>)
    requires step.LoopStep?
    ensures StepOk(o, step) && Distinct(StepIds(step)) && IdSet(StepIds(step)) !! seen <==> (
              && IsLocalId(step.id) && step.id !in seen && LoopSpecOk(o, step.config)
              && step.body.steps != [] && Accepts(o, step.body.steps, seen + {step.id}))
    ensures IdSet(StepIds(step)) == {step.id} + IdSet(FlowIds(step.body.steps))
  {
    DistinctAppend([step.id], FlowIds(step.body.steps));
    assert IdSet([step.id]) == {step.id};
  }

  /** The recursive walk with its shared set: accepts exactly the flows of well-formed steps whose
      ids are all new, and leaves in the set every id of the flow. */
  method ValidateFlow(o: Checks, flow: Flow, stepIds: set<string>) returns (ok: bool, after: set<string>)
    ensures ok <==> flow.steps != [] && Accepts(o, flow.steps, stepIds)
    ensures ok ==> after == stepIds + IdSet(FlowIds(flow.steps))
    decreases flow
  {
    after := stepIds;
    var steps := flow.steps;
    if steps == [] { return false, after; }
    for k := 0 to |steps|
      invariant Accepts(o, steps, stepIds) <==> Accepts(o, steps[k..], after)
      invariant after + IdSet(FlowIds(steps[k..])) == stepIds + IdSet(FlowIds(steps))
    {
      var step := steps[k];
      assert steps[k..][0] == step && steps[k..][1..] == steps[k + 1..];
      AcceptsStep(o, steps[k..], after);
      DistinctAppend(StepIds(step), FlowIds(steps[k + 1..]));
      assert step.NodeStep? ==> IdSet(StepIds(step)) == {step.id} && step.id in IdSet(StepIds(step));
      if step.LoopStep? { AcceptsLoop(o, step, after); }
      if !IsLocalId(step.id) { return false, after; }
      if step.id in after { return false, after; }
      ghost var before := after;
      after := after + {step.id};
      match step {
        case NodeStep(_, node, _) =>
          if !NodeOk(node) { return false, after; }
        case LoopStep(_, config, body, _) =>
          if !LoopSpecOk(o, config) { return false, after; }
          var bodyOk, grown := ValidateFlow(o, body, after);
          if !bodyOk { return false, after; }
          after := grown;
      }
      assert after == before + IdSet(StepIds(step));
    }
    assert steps[|steps|..] == [];
    ok := true;
  }

  // ---- The index of a spec -----------------------------------------------------------------------

  /** The ids of some steps are those of the first and those of the rest. */
  lemma IdsSplit(steps: seq<Step>)
    requires steps != []
    ensures IdSet(FlowIds(steps)) == IdSet(StepIds(steps[0])) + IdSet(FlowIds(steps[1..]))
    ensures IdSet(FlowLoopIds(steps)) == IdSet(StepLoopIds(steps[0])) + IdSet(FlowLoopIds(steps[1..]))
  {
    DistinctAppend(StepIds(steps[0]), FlowIds(steps[1..]));
    DistinctAppend(StepLoopIds(steps[0]), FlowLoopIds(steps[1..]));
  }

  /** The ids of one step are its own and those of its body. */
  lemma StepIdsAre(step: Step)
    ensures step.NodeStep? ==> IdSet(StepIds(step)) == {step.id} && IdSet(StepLoopIds(step)) == {}
    ensures step.LoopStep? ==>
      && IdSet(StepIds(step)) == {step.id} + IdSet(FlowIds(step.body.steps))
      && IdSet(StepLoopIds(step)) == {step.id} + IdSet(FlowLoopIds(step.body.steps))
  {
    if step.LoopStep? {
      DistinctAppend([step.id], FlowIds(step.body.steps));
      DistinctAppend([step.id], FlowLoopIds(step.body.steps));
    }
  }

  lemma NoIds()
    ensures IdSet(FlowIds([])) == {} && IdSet(FlowLoopIds([])) == {}
  {
  }

  class SpecIndex {
    var stepIds: set<string>
    var loopStepIds: set<string>
    var connectionTriggerIds: set<string>

    constructor FromSpec(spec: Spec)
      ensures stepIds == IdSet(FlowIds(spec.flow.steps))
      ensures loopStepIds == IdSet(FlowLoopIds(spec.flow.steps))
      ensures connectionTriggerIds == ConnectionIds(spec)
    {
      stepIds, loopStepIds, connectionTriggerIds := {}, {}, {};
      new;
      for k := 0 to |spec.triggers|
        invariant connectionTriggerIds == set t | t in spec.triggers[..k] && t.ConnectionTrigger? :: t.id
        invariant stepIds == {} && loopStepIds == {}
      {
        assert spec.triggers[..k + 1] == spec.triggers[..k] + [spec.triggers[k]];
        if spec.triggers[k].ConnectionTrigger? {
          connectionTriggerIds := connectionTriggerIds + {spec.triggers[k].id};
        }
      }
      assert spec.triggers[..|spec.triggers|] == spec.triggers;
      AddFlow(spec.flow);
    }

    method AddFlow(flow: Flow)
      modifies this`stepIds, this`loopStepIds
      ensures stepIds == old(stepIds) + IdSet(FlowIds(flow.steps))
      ensures loopStepIds == old(loopStepIds) + IdSet(FlowLoopIds(flow.steps))
      decreases flow
    {
      hide IdSet, FlowIds, FlowLoopIds, StepIds, StepLoopIds;
      NoIds();
      var steps := flow.steps;
      for k := 0 to |steps|
        invariant stepIds + IdSet(FlowIds(steps[k..])) == old(stepIds) + IdSet(FlowIds(steps))
        invariant loopStepIds + IdSet(FlowLoopIds(steps[k..])) == old(loopStepIds) + IdSet(FlowLoopIds(steps))
      {
        var step := steps[k];
        assert steps[k..][0] == step && steps[k..][1..] == steps[k + 1..];
        IdsSplit(steps[k..]);
        StepIdsAre(step);
        match step {
          case NodeStep(id, _, _) =>
            stepIds := stepIds + {id};
          case LoopStep(id, _, body, _) =>
            stepIds := stepIds + {id};
            loopStepIds := loopStepIds + {id};
            AddFlow(body);
        }
      }
      assert steps[|steps|..] == [] && steps[0..] == steps;
    }
  }

  function ConnectionIds(spec: Spec): set<string> {
    set t | t in spec.triggers && t.ConnectionTrigger? :: t.id
  }

  // ---- Specs, runtimes and records ------------------------------------------------------------------

  predicate HasTopLevelLoop(flow: Flow) {
    exists i | 0 <= i < |flow.steps| :: flow.steps[i].LoopStep?
  }

  predicate SpecOk(o: Checks, spec: Spec) {
    && spec.specVersion == SPEC_VERSION
    && Trim(spec.name) != "" && Trim(spec.instructions) != ""
    && SourceOk(spec.source)
    && spec.triggers != [] && TriggersOk(o, spec.triggers)
    && spec.flow.steps != [] && Accepts(o, spec.flow.steps, {})
    && (HasTopLevelLoop(spec.flow) ==> forall t | t in spec.triggers :: !t.AgentEnvTrigger?)
  }

  predicate WorkflowOk(w: Workflow) {
    && (w.role.Root? || IsLocalId(w.role.stepId))
    && (w.workflowId.Some? ==> IsWorkflowId(w.workflowId.value))
    && (w.definitionHash.Some? ==> IsHash(w.definitionHash.value))
  }

  predicate RuntimeOk(runtime: Runtime) {
    && (runtime.specHash.Some? ==> IsHash(runtime.specHash.value))
    && (forall w | w in runtime.workflows :: WorkflowOk(w))
    && (forall b | b in runtime.bindings :: IsLocalId(b.triggerId) && IsSlug(b.bindingSlug))
  }

  predicate RoleRefers(role: Role, steps: seq<Step>) {
    match role
    case Root => true
    case LoopBody(id) => id in FlowLoopIds(steps)
    case Continuation(id) => id in FlowIds(steps)
    case Helper(id) => id in FlowIds(steps)
  }

  predicate ReferencesOk(spec: Spec, runtime: Runtime) {
    && (forall w | w in runtime.workflows :: RoleRefers(w.role, spec.flow.steps))
    && (forall b | b in runtime.bindings :: b.triggerId in ConnectionIds(spec))
  }

  predicate RecordOk(o: Checks, record: Record) {
    IsSlug(record.id) && SpecOk(o, record.spec) && RuntimeOk(record.runtime)
      && ReferencesOk(record.spec, record.runtime)
  }

  /** The reference check through the index decides `ReferencesOk`. */
  method CheckReferences(spec: Spec, runtime: Runtime) returns (ok: bool)
    ensures ok <==> ReferencesOk(spec, runtime)
  {
    var index := new SpecIndex.FromSpec(spec);
    for k := 0 to |runtime.workflows|
      invariant forall j | 0 <= j < k :: RoleRefers(runtime.workflows[j].role, spec.flow.steps)
    {
      assert runtime.workflows[k] in runtime.workflows;
      match runtime.workflows[k].role {
        case Root =>
        case LoopBody(id) => if id !in index.loopStepIds { return false; }
        case Continuation(id) => if id !in index.stepIds { return false; }
        case Helper(id) => if id !in index.stepIds { return false; }
      }
    }
    for k := 0 to |runtime.bindings|
      invariant forall j | 0 <= j < k :: runtime.bindings[j].triggerId in ConnectionIds(spec)
    {
      assert runtime.bindings[k] in runtime.bindings;
      if runtime.bindings[k].triggerId !in index.connectionTriggerIds { return false; }
    }
    ok := true;
  }

  method ValidateSpec(o: Checks, spec: Spec) returns (ok: bool)
    ensures ok <==> SpecOk(o, spec)
  {
    if spec.specVersion != SPEC_VERSION || Trim(spec.name) == "" || Trim(spec.instructions) == "" { return false; }
    if !SourceOk(spec.source) || spec.triggers == [] { return false; }
    var triggersOk := ValidateTriggers(o, spec.triggers);
    if !triggersOk || spec.flow.steps == [] { return false; }
    var flowOk, ids := ValidateFlow(o, spec.flow, {});
    if !flowOk { return false; }
    ok := !(HasTopLevelLoop(spec.flow) && exists t | t in spec.triggers :: t.AgentEnvTrigger?);
  }

  method ValidateRecord(o: Checks, record: Record) returns (ok: bool)
    ensures ok <==> RecordOk(o, record)
  {
    if !IsSlug(record.id) { return false; }
    var specOk := ValidateSpec(o, record.spec);
    if !specOk || !RuntimeOk(record.runtime) { return false; }
    ok := CheckReferences(record.spec, record.runtime);
  }

  // ---- What acceptance means ----------------------------------------------------------------------

  lemma {:induction false} LoopIdsAmongIds(steps: seq<Step>)
    ensures IdSet(FlowLoopIds(steps)) <= IdSet(FlowIds(steps))
    decreases steps
  {
    if steps != [] {
      LoopIdsAmongIds(steps[1..]);
      DistinctAppend(StepIds(steps[0]), FlowIds(steps[1..]));
      DistinctAppend(StepLoopIds(steps[0]), FlowLoopIds(steps[1..]));
      if steps[0].LoopStep? {
        LoopIdsAmongIds(steps[0].body.steps);
        DistinctAppend([steps[0].id], FlowIds(steps[0].body.steps));
        DistinctAppend([steps[0].id], FlowLoopIds(steps[0].body.steps));
      }
    }
  }

  /** The check of the top level finds a loop exactly when there is one at some depth. */
  lemma {:induction false} TopLevelLoopSuffices(steps: seq<Step>)
    ensures HasTopLevelLoop(Flow(steps)) <==> FlowLoopIds(steps) != []
    decreases |steps|
  {
    if steps != [] {
      TopLevelLoopSuffices(steps[1..]);
      var tail := Flow(steps[1..]);
      if HasTopLevelLoop(tail) {
        var i :| 0 <= i < |tail.steps| && tail.steps[i].LoopStep?;
        assert Flow(steps).steps[i + 1].LoopStep?;
      }
      if HasTopLevelLoop(Flow(steps)) && !steps[0].LoopStep? {
        var i :| 0 <= i < |steps| && steps[i].LoopStep?;
        assert tail.steps[i - 1].LoopStep?;
      }
    }
  }

  /** The step with an id, wherever it is nested. */
  predicate IsLoopId(steps: seq<Step>, id: string)
    decreases steps
  {
    steps != [] &&
    ((steps[0].LoopStep? && (steps[0].id == id || IsLoopId(steps[0].body.steps, id))) || IsLoopId(steps[1..], id))
  }

  lemma {:induction false} LoopIdsAreLoops(steps: seq<Step>, id: string)
    ensures id in FlowLoopIds(steps) <==> IsLoopId(steps, id)
    decreases steps
  {
    if steps != [] {
      LoopIdsAreLoops(steps[1..], id);
      if steps[0].LoopStep? { LoopIdsAreLoops(steps[0].body.steps, id); }
    }
  }

  // ---- What is refused ---------------------------------------------------------------------------------

  const SMALL: set<char> := {
    'a', 'b', 'c', 'd', 'e', 'f', 'g', 'h', 'i', 'j', 'k', 'l', 'm',
    'n', 'o', 'p', 'q', 'r', 's', 't', 'u', 'v', 'w', 'x', 'y', 'z'}
  const CAPITALS: set<char> := {
    'A', 'B', 'C', 'D', 'E', 'F', 'G', 'H', 'I', 'J', 'K', 'L', 'M',
    'N', 'O', 'P', 'Q', 'R', 'S', 'T', 'U', 'V', 'W', 'X', 'Y', 'Z'}
  const DIGITS: set<char> := {'0', '1', '2', '3', '4', '5', '6', '7', '8', '9'}
  const SLUG_ALPHABET: set<char> := SMALL + DIGITS + {'-'}
  const ID_ALPHABET: set<char> := SMALL + CAPITALS + DIGITS + {'-', '_'}

  lemma CharsOfIds(c: char)
    ensures IsSlugChar(c) <==> c in SLUG_ALPHABET
    ensures IsLocalIdChar(c) <==> c in ID_ALPHABET
  {
    SmallLetters(c);
    Capitals(c);
    Digits(c);
  }

  lemma SmallLetters(c: char)
    ensures c in SMALL <==> 'a' <= c <= 'z'
  {
  }

  lemma Capitals(c: char)
    ensures c in CAPITALS <==> 'A' <= c <= 'Z'
  {
  }

  lemma Digits(c: char)
    ensures c in DIGITS <==> '0' <= c <= '9'
  {
  }

  /** Slugs and local ids are the non-empty texts over their alphabets. */
  lemma IdAlphabets(s: string)
    ensures IsSlug(s) <==> s != "" && forall i | 0 <= i < |s| :: s[i] in SLUG_ALPHABET
    ensures IsLocalId(s) <==> s != "" && forall i | 0 <= i < |s| :: s[i] in ID_ALPHABET
  {
    forall i | 0 <= i < |s|
      ensures (IsSlugChar(s[i]) <==> s[i] in SLUG_ALPHABET) && (IsLocalIdChar(s[i]) <==> s[i] in ID_ALPHABET)
    {
      CharsOfIds(s[i]);
    }
    assert Trim("") == "";
    if s != "" && IsLocalIdChar(s[0]) { NotBlank(s); }
    hide Trim, IsLocalIdChar, IsSlugChar;
  }

  lemma {:induction false} DotlessPart(s: string, rest: string, part: string)
    requires '.' !in s && (rest == "" || rest[0] == '.')
    ensures SplitDots(s + rest, part) ==
      if rest == "" then [part + s] else [part + s] + SplitDots(rest[1..], "")
  {
    if s == "" {
      assert s + rest == rest && part + s == part;
    } else {
      assert (s + rest)[0] == s[0] && (s + rest)[1..] == s[1..] + rest && s[0] in s;
      DotlessPart(s[1..], rest, part + [s[0]]);
      assert part + [s[0]] + s[1..] == part + s;
    }
  }

  lemma {:induction false} SplitUndoesDots(parts: seq<string>)
    requires parts != [] && forall p | p in parts :: '.' !in p
    ensures SplitDots(Join(parts, "."), "") == parts
  {
    var p := parts[0];
    assert p in parts && parts == [p] + parts[1..] && "" + p == p;
    if |parts| == 1 {
      assert p + "" == p;
      DotlessPart(p, "", "");
    } else {
      var rest := "." + Join(parts[1..], ".");
      assert p + "." + Join(parts[1..], ".") == p + rest && rest[1..] == Join(parts[1..], ".");
      DotlessPart(p, rest, "");
      SplitUndoesDots(parts[1..]);
    }
  }

  lemma {:induction false} BlankParts(parts: seq<string>)
    requires parts != []
    ensures AllSpace(Join(parts, ".")) <==> |parts| == 1 && AllSpace(parts[0])
  {
    if |parts| > 1 {
      var joined := parts[0] + "." + Join(parts[1..], ".");
      assert joined[|parts[0]|] == '.';
    }
  }

  lemma TrimBlankIff(s: string)
    ensures Trim(s) == "" <==> AllSpace(s)
  {
    if AllSpace(s) { BlankTrims(s); }
    var pre, post := TrimCuts(s);
    assert Trim(s) == "" ==> s == pre + post;
  }

  /** A path of parts joined by dots is accepted exactly when every part has more than white space. */
  lemma JsonPathIff(parts: seq<string>)
    requires parts != [] && forall p | p in parts :: '.' !in p
    ensures IsJsonPath(Join(parts, ".")) <==> forall p | p in parts :: !AllSpace(p)
  {
    SplitUndoesDots(parts);
    BlankParts(parts);
    TrimBlankIff(Join(parts, "."));
    forall p | p in parts ensures Trim(p) == "" <==> AllSpace(p) { TrimBlankIff(p); }
    assert parts[0] in parts;
    hide Trim, AllSpace;
  }

  /** The step occurs in the flow, at some depth. */
  predicate Occurs(steps: seq<Step>, step: Step)
    decreases steps
  {
    steps != [] &&
    (steps[0] == step || (steps[0].LoopStep? && Occurs(steps[0].body.steps, step)) || Occurs(steps[1..], step))
  }

  predicate PlacedOk(o: Checks, step: Step) {
    && IsLocalId(step.id)
    && if step.NodeStep? then NodeOk(step.node) else LoopSpecOk(o, step.config) && step.body.steps != []
  }

  /** The walk accepts the steps exactly when each that occurs, at any depth, is in order by itself. */
  lemma {:induction false} StepsOkIff(o: Checks, steps: seq<Step>)
    ensures StepsOk(o, steps) <==> forall step | Occurs(steps, step) :: PlacedOk(o, step)
    decreases steps
  {
    hide IsLocalId, NodeOk, LoopSpecOk;
    if steps != [] {
      var first := steps[0];
      StepsOkIff(o, steps[1..]);
      assert Occurs(steps, first);
      if first.LoopStep? {
        StepsOkIff(o, first.body.steps);
        assert forall step | Occurs(first.body.steps, step) :: Occurs(steps, step);
      }
      assert forall step | Occurs(steps[1..], step) :: Occurs(steps, step);
    }
  }

  /** A loop that may not run is refused. */
  lemma LoopsMayRun(o: Checks, config: LoopSpec)
    ensures LoopSpecOk(o, config) ==>
      if config.Repeat? then config.maxIterations >= 1 else config.cap.None? || config.cap.value >= 1
  {
  }

  /** What no accepted spec is or has. */
  lemma RefusedSpecs(o: Checks, spec: Spec)
    requires spec.specVersion != 1 || AllSpace(spec.name) || AllSpace(spec.instructions) || spec.triggers == []
      || spec.flow.steps == [] || !Distinct(TriggerIds(spec.triggers)) || !Distinct(FlowIds(spec.flow.steps))
      || (spec.source.NaturalLanguage? && AllSpace(spec.source.prompt))
      || (FlowLoopIds(spec.flow.steps) != [] && exists t :: t in spec.triggers && t.AgentEnvTrigger?)
      || (exists step :: Occurs(spec.flow.steps, step) && !PlacedOk(o, step))
    ensures !SpecOk(o, spec)
  {
    TrimBlankIff(spec.name);
    TrimBlankIff(spec.instructions);
    if spec.source.NaturalLanguage? { TrimBlankIff(spec.source.prompt); }
    TopLevelLoopSuffices(spec.flow.steps);
    StepsOkIff(o, spec.flow.steps);
    hide Trim, AllSpace, PlacedOk, Occurs, StepsOk, TriggerOk, Distinct;
  }

  /** A hash is its prefix and 64 hexadecimal digits. */
  lemma HashIs(digest: string)
    ensures IsHash("sha256:" + digest) <==>
      |digest| == 64 && forall i | 0 <= i < |digest| :: digest[i] in "0123456789abcdefABCDEF"
  {
    var s := "sha256:" + digest;
    assert s[..7] == "sha256:" && forall i | 0 <= i < |digest| :: s[7 + i] == digest[i];
    forall i | 0 <= i < |digest| ensures IsHexDigit(digest[i]) <==> digest[i] in "0123456789abcdefABCDEF" {
      HexIs(digest[i]);
    }
    hide IsHexDigit;
    if IsHash(s) { forall i | 0 <= i < |digest| ensures IsHexDigit(digest[i]) { assert IsHexDigit(s[7 + i]); } }
  }

  lemma HexIs(c: char)
    ensures IsHexDigit(c) <==> c in "0123456789abcdefABCDEF"
  {
  }
}
