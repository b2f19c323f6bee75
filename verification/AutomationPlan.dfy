/** What a compiled plan contains, field by field of the spec it came from
    (crates/puffer-automation/src/compiler.rs). */
module AutomationPlan {
  import opened Wrappers
  import opened Text
  import CanonicalJson
  import opened AutomationSpec
  import opened AutomationCompiler

  // ---- Nodes ----------------------------------------------------------------------------------------

  /** The node carries every field of what the user placed. */
  predicate Carries(n: Node, id: string, placed: NodeRef) {
    && n.id == id && n.nodeType == placed.nodeType && n.name == placed.name
    && n.config == placed.config && n.trusted == placed.trusted
  }

  /** The untrusted webhook through which Puffer starts the workflow: its own path, POST only, no authentication. */
  predicate IsIngress(n: Node, automationId: string, triggerId: string) {
    && n.id == triggerId && n.nodeType == "webhook" && n.name == Some("Puffer trigger") && n.trusted == Some(false)
    && n.config.Keys == {"path", "methods", "authentication"}
    && n.config["path"] == CanonicalJson.Str("puffer-automation-" + automationId + "-" + triggerId)
    && n.config["methods"] == CanonicalJson.Array([CanonicalJson.Str("POST")])
    && n.config["authentication"] == CanonicalJson.Str("none")
  }

  predicate StandsFor(n: Node, automationId: string, t: Trigger) {
    if t.AgentEnvTrigger? then Carries(n, t.id, t.node) else IsIngress(n, automationId, t.id)
  }

  lemma {:induction false} TriggerNodesCarry(automationId: string, triggers: seq<Trigger>)
    ensures |TriggerNodes(automationId, triggers)| == |triggers|
    ensures forall k | 0 <= k < |triggers| ::
      StandsFor(TriggerNodes(automationId, triggers)[k], automationId, triggers[k])
  {
    if triggers != [] {
      IngressIs(automationId, triggers[0].id);
      hide IsIngress, IngressNode;
      TriggerNodesCarry(automationId, triggers[1..]);
    }
  }

  lemma IngressIs(automationId: string, triggerId: string)
    ensures IsIngress(IngressNode(automationId, triggerId), automationId, triggerId)
  {
    assert "path"[0] != "methods"[0] && "path"[0] != "authentication"[0] && "methods"[0] != "authentication"[0];
  }

  /** How many of the steps are not loops. */
  function NodeCount(steps: seq<Step>): nat {
    if steps == [] then 0 else NodeCount(steps[..|steps| - 1]) + if steps[|steps| - 1].NodeStep? then 1 else 0
  }

  lemma StepNodesHead(steps: seq<Step>)
    requires steps != []
    ensures StepNodes(steps) == StepNodes([steps[0]]) + StepNodes(steps[1..])
  {
    assert [steps[0]][1..] == [] && StepNodes([]) == [];
  }

  lemma StepNodesOne(step: Step)
    ensures StepNodes([step]) == if step.NodeStep? then [AgentEnvNode(step.id, step.node)] else []
  {
    assert [step][1..] == [] && StepNodes([]) == [];
  }

  lemma {:induction false} StepNodesAppend(init: seq<Step>, last: Step)
    ensures StepNodes(init + [last]) == StepNodes(init) + StepNodes([last])
  {
    if init == [] {
      assert init + [last] == [last] && [] + StepNodes([last]) == StepNodes([last]);
    } else {
      hide StepNodes;
      assert (init + [last])[0] == init[0] && (init + [last])[1..] == init[1..] + [last];
      StepNodesHead(init);
      StepNodesHead(init + [last]);
      StepNodesAppend(init[1..], last);
      Regroup(StepNodes([init[0]]), StepNodes(init[1..]), StepNodes([last]));
    }
  }

  lemma NodeCountAppend(init: seq<Step>, last: Step)
    ensures NodeCount(init + [last]) == NodeCount(init) + if last.NodeStep? then 1 else 0
  {
    assert (init + [last])[..|init + [last]| - 1] == init;
  }

  /** The k-th node is the k-th step that is not a loop, with all its fields. */
  predicate CarriesInOrder(nodes: seq<Node>, steps: seq<Step>) {
    && |nodes| == NodeCount(steps)
    && forall i | 0 <= i < |steps| && steps[i].NodeStep? ::
         NodeCount(steps[..i]) < |nodes| && Carries(nodes[NodeCount(steps[..i])], steps[i].id, steps[i].node)
  }

  lemma {:induction false} StepNodesCarry(steps: seq<Step>)
    ensures CarriesInOrder(StepNodes(steps), steps)
  {
    if steps != [] {
      var init, last := steps[..|steps| - 1], steps[|steps| - 1];
      assert steps == init + [last];
      StepNodesAppend(init, last);
      StepNodesOne(last);
      NodeCountAppend(init, last);
      StepNodesCarry(init);
      hide StepNodes, NodeCount;
      forall i | 0 <= i < |init| ensures steps[i] == init[i] && steps[..i] == init[..i] {}
    }
  }

  lemma RootNodesCarry(record: Record)
    ensures var nodes, triggers, steps := RootGraph(record).nodes, record.spec.triggers, record.spec.flow.steps;
      && |nodes| == |triggers| + NodeCount(steps)
      && (forall k | 0 <= k < |triggers| :: StandsFor(nodes[k], record.id, triggers[k]))
      && CarriesInOrder(nodes[|triggers|..], steps)
  {
    TriggerNodesCarry(record.id, record.spec.triggers);
    StepNodesCarry(record.spec.flow.steps);
    hide StandsFor, CarriesInOrder, StepNodes, TriggerNodes;
    assert RootGraph(record).nodes[|record.spec.triggers|..] == StepNodes(record.spec.flow.steps);
    assert CarriesInOrder(StepNodes(record.spec.flow.steps), record.spec.flow.steps);
    CarriedCount(StepNodes(record.spec.flow.steps), record.spec.flow.steps);
  }

  lemma CarriedCount(nodes: seq<Node>, steps: seq<Step>)
    requires CarriesInOrder(nodes, steps)
    ensures |nodes| == NodeCount(steps)
  {
  }

  // ---- Bindings -------------------------------------------------------------------------------------

  /** The plan of one binding, field by field of its trigger. */
  predicate Binds(b: BindingPlan, automationId: string, t: Trigger) {
    && t.ConnectionTrigger? && b.triggerId == t.id && b.bindingSlug == "automation-" + automationId + "-" + t.id
    && b.connectionSlug == t.connectionSlug && b.connectorSlug == t.connectorSlug
  }

  function ConnectionCount(triggers: seq<Trigger>): nat {
    if triggers == [] then 0
    else ConnectionCount(triggers[..|triggers| - 1]) + if triggers[|triggers| - 1].ConnectionTrigger? then 1 else 0
  }

  lemma BindingsHead(automationId: string, triggers: seq<Trigger>)
    requires triggers != []
    ensures Bindings(automationId, triggers) ==
      Bindings(automationId, [triggers[0]]) + Bindings(automationId, triggers[1..])
  {
    assert [triggers[0]][1..] == [] && Bindings(automationId, []) == [];
  }

  lemma {:induction false} BindingsAppend(automationId: string, init: seq<Trigger>, last: Trigger)
    ensures Bindings(automationId, init + [last]) == Bindings(automationId, init) + Bindings(automationId, [last])
  {
    if init == [] {
      assert init + [last] == [last] && [] + Bindings(automationId, [last]) == Bindings(automationId, [last]);
    } else {
      hide Bindings;
      assert (init + [last])[0] == init[0] && (init + [last])[1..] == init[1..] + [last];
      BindingsHead(automationId, init);
      BindingsHead(automationId, init + [last]);
      BindingsAppend(automationId, init[1..], last);
      Regroup(Bindings(automationId, [init[0]]), Bindings(automationId, init[1..]), Bindings(automationId, [last]));
    }
  }

  /** The k-th binding is that of the k-th connection trigger. */
  lemma {:induction false} BindingsCarry(automationId: string, triggers: seq<Trigger>)
    ensures BindsInOrder(Bindings(automationId, triggers), automationId, triggers)
  {
    if triggers != [] {
      var init, last := triggers[..|triggers| - 1], triggers[|triggers| - 1];
      assert triggers == init + [last] && [last][1..] == [];
      BindingsAppend(automationId, init, last);
      BindingsCarry(automationId, init);
      assert last.ConnectionTrigger? ==> Binds(Bindings(automationId, [last])[0], automationId, last);
      assert |Bindings(automationId, [last])| == if last.ConnectionTrigger? then 1 else 0;
      hide Bindings, ConnectionCount, Binds;
      assert forall i | 0 <= i < |init| :: triggers[i] == init[i] && triggers[..i] == init[..i];
    }
  }

  // ---- The whole plan ----------------------------------------------------------------------------------

  lemma {:induction false} FlatCount(steps: seq<Step>)
    requires Flat(steps)
    ensures NodeCount(steps) == |steps|
  {
    if steps != [] { FlatCount(steps[..|steps| - 1]); }
  }

  lemma FlatPrefixes(steps: seq<Step>, n: nat)
    requires n <= |steps| && Flat(steps[..n])
    ensures forall i | 0 <= i <= n :: NodeCount(steps[..i]) == i
  {
    forall i | 0 <= i <= n ensures NodeCount(steps[..i]) == i {
      assert forall j | 0 <= j < i :: steps[..i][j] == steps[..n][j];
      FlatCount(steps[..i]);
    }
  }

  /** The nodes of a flat list of steps, one for one. */
  predicate CarriesAll(nodes: seq<Node>, steps: seq<Step>) {
    && |nodes| == |steps|
    && forall i | 0 <= i < |steps| :: steps[i].NodeStep? && Carries(nodes[i], steps[i].id, steps[i].node)
  }

  lemma FlatNodesCarry(steps: seq<Step>)
    requires Flat(steps)
    ensures CarriesAll(StepNodes(steps), steps)
  {
    assert steps[..|steps|] == steps;
    FlatPrefixes(steps, |steps|);
    StepNodesCarry(steps);
    hide Carries;
    forall i | 0 <= i < |steps| ensures steps[i].NodeStep? && Carries(StepNodes(steps)[i], steps[i].id, steps[i].node) {
      assert NodeCount(steps[..i]) == i;
    }
  }

  /** The steps of the flow before its final loop, if it has one. */
  function Plain(steps: seq<Step>): seq<Step> {
    if steps != [] && steps[|steps| - 1].LoopStep? then steps[..|steps| - 1] else steps
  }

  lemma FlatPush(init: seq<Step>, last: Step)
    requires Flat(init) && last.NodeStep?
    ensures Flat(init + [last])
  {
  }

  lemma PlainNodes(steps: seq<Step>)
    requires steps != [] ==> Flat(steps[..|steps| - 1])
    ensures Flat(Plain(steps)) && StepNodes(steps) == StepNodes(Plain(steps))
  {
    if steps != [] {
      hide StepNodes, Flat;
      var init, last := steps[..|steps| - 1], steps[|steps| - 1];
      assert steps == init + [last];
      if last.NodeStep? {
        FlatPush(init, last);
      } else {
        StepNodesAppend(init, last);
        StepNodesOne(last);
        assert StepNodes(init) + [] == StepNodes(init);
      }
    }
  }

  lemma {:induction false} BodiesOf(h: Hashing, steps: seq<Step>)
    requires Bodies(h, steps).Ok? && (steps != [] ==> Flat(steps[..|steps| - 1]))
    ensures var bodies := Bodies(h, steps).value;
      if steps != [] && steps[|steps| - 1].LoopStep? then
        var loop := steps[|steps| - 1]; bodies == [CompiledBody(h, loop.id, loop.body)]
      else bodies == []
  {
    if |steps| > 1 {
      var rest := steps[1..];
      assert steps[..|steps| - 1][0].NodeStep?;
      forall i | 0 <= i < |rest| - 1 ensures rest[i].NodeStep? { assert steps[..|steps| - 1][i + 1].NodeStep?; }
      BodiesOf(h, rest);
    } else if |steps| == 1 {
      assert steps[1..] == [] && Bodies(h, []) == Ok([]);
    }
  }

  predicate EndsInLoop(steps: seq<Step>) {
    steps != [] && steps[|steps| - 1].LoopStep?
  }

  /** A node for each trigger, then one for each step before the final loop. */
  predicate IsRootOf(w: CompiledWorkflow, record: Record) {
    var nodes, triggers := w.definition.nodes, record.spec.triggers;
    && w.role == Root && |nodes| == |triggers| + |Plain(record.spec.flow.steps)|
    && (forall k | 0 <= k < |triggers| :: StandsFor(nodes[k], record.id, triggers[k]))
    && CarriesAll(nodes[|triggers|..], Plain(record.spec.flow.steps))
  }

  /** A node for each step of the loop's body. */
  predicate IsBodyOf(w: CompiledWorkflow, loop: Step)
    requires loop.LoopStep?
  {
    w.role == LoopBody(loop.id) && CarriesAll(w.definition.nodes, loop.body.steps)
  }

  predicate BindsInOrder(bindings: seq<BindingPlan>, automationId: string, triggers: seq<Trigger>) {
    && |bindings| == ConnectionCount(triggers)
    && forall i | 0 <= i < |triggers| && triggers[i].ConnectionTrigger? ::
         ConnectionCount(triggers[..i]) < |bindings|
         && Binds(bindings[ConnectionCount(triggers[..i])], automationId, triggers[i])
  }

  lemma RootIs(record: Record)
    requires Compilable(record.spec.flow)
    ensures forall hash :: IsRootOf(CompiledWorkflow(Root, RootGraph(record), hash), record)
  {
    var triggers, steps := record.spec.triggers, record.spec.flow.steps;
    PlainNodes(steps);
    FlatNodesCarry(Plain(steps));
    TriggerNodesCarry(record.id, triggers);
    hide StandsFor, CarriesAll, StepNodes, TriggerNodes, StepEdges, Plain;
    assert RootGraph(record).nodes[|triggers|..] == StepNodes(Plain(steps));
    SameLength(StepNodes(Plain(steps)), Plain(steps));
  }

  lemma SameLength(nodes: seq<Node>, steps: seq<Step>)
    requires CarriesAll(nodes, steps)
    ensures |nodes| == |steps|
  {
  }

  lemma BodyIs(h: Hashing, loop: Step)
    requires loop.LoopStep? && Flat(loop.body.steps)
    ensures IsBodyOf(CompiledBody(h, loop.id, loop.body), loop)
  {
    FlatNodesCarry(loop.body.steps);
  }

  /** What `Compile` puts into the plan of a flow that compiles. */
  lemma PlanShape(h: Hashing, record: Record)
    requires Compile(h, record).Ok?
    ensures Compilable(record.spec.flow)
    ensures var plan, steps := Compile(h, record).value, record.spec.flow.steps;
      && plan.automationId == record.id && plan.revision == record.revision
      && plan.specHash == SpecHash(h, record.spec) && plan.bindings == Bindings(record.id, record.spec.triggers)
      && plan.workflows == [CompiledWorkflow(Root, RootGraph(record), GraphHash(h, RootGraph(record)))]
         + if EndsInLoop(steps) then [CompiledBody(h, steps[|steps| - 1].id, steps[|steps| - 1].body)] else []
  {
    CompilesIff(h, record);
    BodiesOf(h, record.spec.flow.steps);
    hide Bodies, RootProblem, RootGraph, CompiledBody, Bindings, Flat;
  }

  /** A compiled plan, from the spec's own fields: ids, revision and hashes; a root workflow with a node for each
      trigger and each step before the final loop; a workflow for the final loop with a node for each step of its body;
      a binding for each connection trigger. */
  lemma PlanCarriesSpec(h: Hashing, record: Record)
    requires Compile(h, record).Ok?
    ensures var plan, spec := Compile(h, record).value, record.spec;
      && plan.automationId == record.id && plan.revision == record.revision
      && plan.specHash == "sha256:" + h.digest(CanonicalJson.Canonical(h.encode(spec)))
      && |plan.workflows| == (if EndsInLoop(spec.flow.steps) then 2 else 1)
      && (forall w | w in plan.workflows :: w.definitionHash == "sha256:" + h.graphDigest(w.definition))
      && IsRootOf(plan.workflows[0], record)
      && (EndsInLoop(spec.flow.steps) ==> IsBodyOf(plan.workflows[1], spec.flow.steps[|spec.flow.steps| - 1]))
      && BindsInOrder(plan.bindings, record.id, spec.triggers)
  {
    var steps := record.spec.flow.steps;
    PlanShape(h, record);
    RootIs(record);
    BindingsCarry(record.id, record.spec.triggers);
    if EndsInLoop(steps) { BodyIs(h, steps[|steps| - 1]); }
    hide Compile, IsRootOf, IsBodyOf, BindsInOrder, RootGraph, Bindings, StepNodes, StepEdges;
  }
}
