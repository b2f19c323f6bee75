/** Compilation of an automation into AgentEnv workflow graphs and connector bindings
    (crates/puffer-automation/src/compiler.rs). */
module AutomationCompiler {
  import opened Text
  import opened Wrappers
  import opened CanonicalJson
  import opened AutomationSpec
  import opened AutomationValidation

  datatype Node = Node(id: string, nodeType: string, name: Option<string>, config: map<string, Json>,
                       trusted: Option<bool>)

  datatype Edge = Edge(source: string, target: string)

  datatype Graph = Graph(nodes: seq<Node>, edges: seq<Edge>)

  datatype CompiledWorkflow = CompiledWorkflow(role: Role, definition: Graph, definitionHash: string)

  datatype BindingPlan = BindingPlan(triggerId: string, bindingSlug: string, connectionSlug: string,
                                     connectorSlug: Option<string>)

  datatype Plan = Plan(automationId: string, revision: nat, specHash: string, workflows: seq<CompiledWorkflow>,
                       bindings: seq<BindingPlan>)

  datatype CompileError =
    | StepAfterLoop(stepId: string, loopId: string)
    | SecondLoop
    | NestedLoop(innerId: string, loopId: string)

  // ---- Hashes ---------------------------------------------------------------------------

  /** What the libraries do: encode a spec as JSON, digest a text, digest an encoded graph. */
  datatype Hashing = Hashing(encode: Spec -> Json, digest: string -> string, graphDigest: Graph -> string)

  function SpecHash(h: Hashing, spec: Spec): string {
    HASH_PREFIX + h.digest(Canonical(h.encode(spec)))
  }

  function GraphHash(h: Hashing, graph: Graph): string {
    HASH_PREFIX + h.graphDigest(graph)
  }

  /** Digests are 64 hexadecimal digits. */
  ghost predicate Sound(h: Hashing) {
    (forall s: Spec :: IsHash(SpecHash(h, s))) && (forall g: Graph :: IsHash(GraphHash(h, g)))
  }

  /** Encodings are well-formed JSON. */
  ghost predicate EncodesWell(h: Hashing) {
    forall s: Spec :: WellFormed(h.encode(s))
  }

  /** The digest maps the canonical texts of two specs, which differ, to one value. */
  predicate Collide(h: Hashing, a: Spec, b: Spec) {
    && Canonical(h.encode(a)) != Canonical(h.encode(b))
    && h.digest(Canonical(h.encode(a))) == h.digest(Canonical(h.encode(b)))
  }

  /** Two specs have the same hash exactly when their encodings are equal as values or their
      canonical texts collide. */
  lemma SpecHashIffSame(h: Hashing, a: Spec, b: Spec)
    requires WellFormed(h.encode(a)) && WellFormed(h.encode(b))
    ensures SpecHash(h, a) == SpecHash(h, b) <==> Same(h.encode(a), h.encode(b)) || Collide(h, a, b)
  {
    var x, y := h.digest(Canonical(h.encode(a))), h.digest(Canonical(h.encode(b)));
    CanonicalIffSame(h.encode(a), h.encode(b));
    assert (HASH_PREFIX + x)[|HASH_PREFIX|..] == x && (HASH_PREFIX + y)[|HASH_PREFIX|..] == y;
  }

  // ---- Nodes and edges ----------------------------------------------------------------------

  function AgentEnvNode(id: string, node: NodeRef): Node {
    Node(id, node.nodeType, node.name, node.config, node.trusted)
  }

  function IngressNode(automationId: string, triggerId: string): Node {
    Node(triggerId, "webhook", Some("Puffer trigger"),
         map["path" := Str("puffer-automation-" + automationId + "-" + triggerId),
             "methods" := Array([Str("POST")]),
             "authentication" := Str("none")],
         Some(false))
  }

  function TriggerNode(automationId: string, trigger: Trigger): Node {
    if trigger.AgentEnvTrigger? then AgentEnvNode(trigger.id, trigger.node) else IngressNode(automationId, trigger.id)
  }

  function TriggerNodes(automationId: string, triggers: seq<Trigger>): seq<Node> {
    if triggers == [] then [] else [TriggerNode(automationId, triggers[0])] + TriggerNodes(automationId, triggers[1..])
  }

  /** The nodes of the steps that are not loops. */
  function StepNodes(steps: seq<Step>): seq<Node> {
    if steps == [] then []
    else (if steps[0].NodeStep? then [AgentEnvNode(steps[0].id, steps[0].node)] else []) + StepNodes(steps[1..])
  }

  /** The ids of the steps that are not loops. */
  function NodeIds(steps: seq<Step>): seq<string> {
    if steps == [] then []
    else (if steps[0].NodeStep? then [steps[0].id] else []) + NodeIds(steps[1..])
  }

  function EdgesInto(previous: seq<string>, target: string): seq<Edge> {
    if previous == [] then [] else [Edge(previous[0], target)] + EdgesInto(previous[1..], target)
  }

  function StepEdges(previous: seq<string>, steps: seq<Step>): seq<Edge>
    decreases |steps|
  {
    if steps == [] then []
    else if steps[0].NodeStep? then EdgesInto(previous, steps[0].id) + StepEdges([steps[0].id], steps[1..])
    else StepEdges(previous, steps[1..])
  }

  function RootGraph(record: Record): Graph {
    Graph(TriggerNodes(record.id, record.spec.triggers) + StepNodes(record.spec.flow.steps),
          StepEdges(TriggerIds(record.spec.triggers), record.spec.flow.steps))
  }

  function BodyGraph(body: Flow): Graph {
    Graph(StepNodes(body.steps), StepEdges([], body.steps))
  }

  /** What stops the walk over the top-level steps, given the loop already passed. */
  function RootProblem(steps: seq<Step>, seenLoop: Option<string>): Option<CompileError> {
    if steps == [] then None
    else if seenLoop.Some? then
      Some(if steps[0].NodeStep? then StepAfterLoop(steps[0].id, seenLoop.value) else SecondLoop)
    else RootProblem(steps[1..], if steps[0].LoopStep? then Some(steps[0].id) else None)
  }

  function BodyProblem(loopId: string, steps: seq<Step>): Option<CompileError> {
    if steps == [] then None
    else if steps[0].LoopStep? then Some(NestedLoop(steps[0].id, loopId))
    else BodyProblem(loopId, steps[1..])
  }

  // ---- The loops that grow the graphs -----------------------------------------------------------

  /** What one more node step adds, and what a loop does not. */
  lemma StepAdds(previous: seq<string>, steps: seq<Step>)
    requires steps != []
    ensures steps[0].NodeStep? ==>
      && StepNodes(steps) == [AgentEnvNode(steps[0].id, steps[0].node)] + StepNodes(steps[1..])
      && StepEdges(previous, steps) == EdgesInto(previous, steps[0].id) + StepEdges([steps[0].id], steps[1..])
    ensures steps[0].LoopStep? ==>
      StepNodes(steps) == StepNodes(steps[1..]) && StepEdges(previous, steps) == StepEdges(previous, steps[1..])
  {
    assert [] + StepNodes(steps[1..]) == StepNodes(steps[1..]);
  }

  lemma NoMoreSteps(previous: seq<string>)
    ensures StepNodes([]) == [] && StepEdges(previous, []) == []
  {
  }

  lemma Regroup<T>(a: seq<T>, b: seq<T>, c: seq<T>)
    ensures (a + b) + c == a + (b + c)
  {
  }

  lemma TriggerAdds(automationId: string, triggers: seq<Trigger>)
    requires triggers != []
    ensures TriggerNodes(automationId, triggers) ==
      [TriggerNode(automationId, triggers[0])] + TriggerNodes(automationId, triggers[1..])
  {
  }

  method TriggerEntries(record: Record) returns (nodes: seq<Node>, ids: seq<string>)
    ensures nodes == TriggerNodes(record.id, record.spec.triggers) && ids == TriggerIds(record.spec.triggers)
  {
    nodes, ids := [], [];
    var triggers := record.spec.triggers;
    assert TriggerNodes(record.id, []) == [];
    hide TriggerNodes, TriggerNode;
    for k := 0 to |triggers|
      invariant nodes + TriggerNodes(record.id, triggers[k..]) == TriggerNodes(record.id, triggers)
      invariant ids == TriggerIds(triggers)[..k]
    {
      assert triggers[k..][0] == triggers[k] && triggers[k..][1..] == triggers[k + 1..];
      var node := TriggerNode(record.id, triggers[k]);
      TriggerAdds(record.id, triggers[k..]);
      Regroup(nodes, [node], TriggerNodes(record.id, triggers[k + 1..]));
      nodes := nodes + [node];
      ids := ids + [triggers[k].id];
    }
    assert triggers[|triggers|..] == [] && nodes + [] == nodes;
  }

  method CompileRoot(h: Hashing, record: Record) returns (r: Result<CompiledWorkflow, CompileError>)
    ensures RootProblem(record.spec.flow.steps, None).Some? ==>
      r == Err(RootProblem(record.spec.flow.steps, None).value)
    ensures RootProblem(record.spec.flow.steps, None).None? ==>
      r == Ok(CompiledWorkflow(Root, RootGraph(record), GraphHash(h, RootGraph(record))))
  {
    hide StepNodes, StepEdges, EdgesInto, GraphHash;
    var nodes, previousIds := TriggerEntries(record);
    var edges: seq<Edge> := [];
    var steps := record.spec.flow.steps;
    ghost var all := RootGraph(record);
    var seenLoop: Option<string> := None;
    for k := 0 to |steps|
      invariant nodes + StepNodes(steps[k..]) == all.nodes
      invariant edges + StepEdges(previousIds, steps[k..]) == all.edges
      invariant RootProblem(steps[k..], seenLoop) == RootProblem(steps, None)
    {
      assert steps[k..][0] == steps[k] && steps[k..][1..] == steps[k + 1..];
      StepAdds(previousIds, steps[k..]);
      match steps[k] {
        case NodeStep(id, node, _) =>
          if seenLoop.Some? { return Err(StepAfterLoop(id, seenLoop.value)); }
          Regroup(nodes, [AgentEnvNode(id, node)], StepNodes(steps[k + 1..]));
          Regroup(edges, EdgesInto(previousIds, id), StepEdges([id], steps[k + 1..]));
          nodes := nodes + [AgentEnvNode(id, node)];
          edges := AppendEdges(edges, previousIds, id);
          previousIds := [id];
        case LoopStep(id, _, _, _) =>
          if seenLoop.Some? { return Err(SecondLoop); }
          seenLoop := Some(id);
      }
    }
    NoMoreSteps(previousIds);
    assert steps[|steps|..] == [] && nodes + [] == nodes && edges + [] == edges;
    r := Ok(CompiledWorkflow(Root, Graph(nodes, edges), GraphHash(h, Graph(nodes, edges))));
  }

  method AppendEdges(edges: seq<Edge>, previousIds: seq<string>, id: string) returns (r: seq<Edge>)
    ensures r == edges + EdgesInto(previousIds, id)
  {
    r := edges;
    for k := 0 to |previousIds|
      invariant r + EdgesInto(previousIds[k..], id) == edges + EdgesInto(previousIds, id)
    {
      assert previousIds[k..][0] == previousIds[k] && previousIds[k..][1..] == previousIds[k + 1..];
      r := r + [Edge(previousIds[k], id)];
    }
  }

  method CompileLoopBody(h: Hashing, loopId: string, body: Flow) returns (r: Result<CompiledWorkflow, CompileError>)
    ensures BodyProblem(loopId, body.steps).Some? ==> r == Err(BodyProblem(loopId, body.steps).value)
    ensures BodyProblem(loopId, body.steps).None? ==> r == Ok(CompiledBody(h, loopId, body))
  {
    hide StepNodes, StepEdges, GraphHash;
    var nodes: seq<Node> := [];
    var edges: seq<Edge> := [];
    var previousId: Option<string> := None;
    var steps := body.steps;
    for k := 0 to |steps|
      invariant nodes + StepNodes(steps[k..]) == StepNodes(steps)
      invariant edges + StepEdges(if previousId.Some? then [previousId.value] else [], steps[k..]) ==
        StepEdges([], steps)
      invariant BodyProblem(loopId, steps[k..]) == BodyProblem(loopId, steps)
    {
      assert steps[k..][0] == steps[k] && steps[k..][1..] == steps[k + 1..];
      StepAdds(if previousId.Some? then [previousId.value] else [], steps[k..]);
      match steps[k] {
        case NodeStep(id, node, _) =>
          Regroup(nodes, [AgentEnvNode(id, node)], StepNodes(steps[k + 1..]));
          nodes := nodes + [AgentEnvNode(id, node)];
          assert [] + StepEdges([id], steps[k + 1..]) == StepEdges([id], steps[k + 1..]);
          if previousId.Some? {
            assert EdgesInto([previousId.value], id) == [Edge(previousId.value, id)] + [];
            Regroup(edges, [Edge(previousId.value, id)], StepEdges([id], steps[k + 1..]));
            edges := edges + [Edge(previousId.value, id)];
          }
          previousId := Some(id);
        case LoopStep(id, _, _, _) =>
          return Err(NestedLoop(id, loopId));
      }
    }
    NoMoreSteps(if previousId.Some? then [previousId.value] else []);
    assert steps[|steps|..] == [] && nodes + [] == nodes && edges + [] == edges;
    r := Ok(CompiledWorkflow(LoopBody(loopId), Graph(nodes, edges), GraphHash(h, Graph(nodes, edges))));
  }

  function CompiledBody(h: Hashing, loopId: string, body: Flow): CompiledWorkflow {
    CompiledWorkflow(LoopBody(loopId), BodyGraph(body), GraphHash(h, BodyGraph(body)))
  }

  // ---- The whole compilation ------------------------------------------------------------------------

  /** The loop-body workflows, or the first nested loop. */
  function Bodies(h: Hashing, steps: seq<Step>): Result<seq<CompiledWorkflow>, CompileError> {
    if steps == [] then Ok([])
    else if steps[0].NodeStep? then Bodies(h, steps[1..])
    else match BodyProblem(steps[0].id, steps[0].body.steps)
      case Some(e) => Err(e)
      case None =>
        match Bodies(h, steps[1..])
        case Err(e) => Err(e)
        case Ok(rest) => Ok([CompiledBody(h, steps[0].id, steps[0].body)] + rest)
  }

  function BindingSlug(automationId: string, triggerId: string): string {
    "automation-" + automationId + "-" + triggerId
  }

  function Bindings(automationId: string, triggers: seq<Trigger>): seq<BindingPlan> {
    if triggers == [] then []
    else
      var t := triggers[0];
      (if t.ConnectionTrigger?
       then [BindingPlan(t.id, BindingSlug(automationId, t.id), t.connectionSlug, t.connectorSlug)]
       else []) + Bindings(automationId, triggers[1..])
  }

  function Compile(h: Hashing, record: Record): Result<Plan, CompileError> {
    var steps := record.spec.flow.steps;
    match RootProblem(steps, None)
    case Some(e) => Err(e)
    case None =>
      match Bodies(h, steps)
      case Err(e) => Err(e)
      case Ok(bodies) =>
        var root := CompiledWorkflow(Root, RootGraph(record), GraphHash(h, RootGraph(record)));
        Ok(Plan(record.id, record.revision, SpecHash(h, record.spec), [root] + bodies,
                Bindings(record.id, record.spec.triggers)))
  }

  method CompileAutomation(h: Hashing, record: Record) returns (r: Result<Plan, CompileError>)
    ensures r == Compile(h, record)
  {
    var specHash := SpecHash(h, record.spec);
    var root := CompileRoot(h, record);
    if root.Err? { return Err(root.error); }
    var workflows := [root.value];
    var steps := record.spec.flow.steps;
    for k := 0 to |steps|
      invariant Bodies(h, steps).Err? <==> Bodies(h, steps[k..]).Err?
      invariant Bodies(h, steps).Err? ==> Bodies(h, steps).error == Bodies(h, steps[k..]).error
      invariant Bodies(h, steps).Ok? ==>
        workflows + Bodies(h, steps[k..]).value == [root.value] + Bodies(h, steps).value
    {
      assert steps[k..][0] == steps[k] && steps[k..][1..] == steps[k + 1..];
      if steps[k].LoopStep? {
        var body := CompileLoopBody(h, steps[k].id, steps[k].body);
        if body.Err? { return Err(body.error); }
        workflows := workflows + [body.value];
      }
    }
    assert workflows + [] == workflows;
    r := Ok(Plan(record.id, record.revision, specHash, workflows, Bindings(record.id, record.spec.triggers)));
  }

  // ---- When compilation succeeds ------------------------------------------------------------------------

  predicate Flat(steps: seq<Step>) {
    forall i | 0 <= i < |steps| :: steps[i].NodeStep?
  }

  /** Node steps, then at most one final loop with a flat body. */
  predicate Compilable(flow: Flow) {
    var steps := flow.steps;
    steps != [] ==>
      Flat(steps[..|steps| - 1]) && (steps[|steps| - 1].LoopStep? ==> Flat(steps[|steps| - 1].body.steps))
  }

  lemma {:induction false} BodyProblemIff(loopId: string, steps: seq<Step>)
    ensures BodyProblem(loopId, steps).None? <==> Flat(steps)
    ensures forall e :: BodyProblem(loopId, steps) == Some(e) <==>
      exists i | 0 <= i < |steps| :: Flat(steps[..i]) && steps[i].LoopStep? && e == NestedLoop(steps[i].id, loopId)
  {
    if steps != [] {
      var rest := steps[1..];
      BodyProblemIff(loopId, rest);
      if steps[0].LoopStep? {
        assert Flat(steps[..0]);
        forall i | 0 < i < |steps| ensures !Flat(steps[..i]) { assert steps[..i][0] == steps[0]; }
      } else {
        assert forall i | 0 <= i < |rest| :: steps[i + 1] == rest[i];
        forall i | 0 <= i < |rest| ensures Flat(rest[..i]) <==> Flat(steps[..i + 1]) { FlatStep(steps, i); }
        forall e ensures BodyProblem(loopId, steps) == Some(e) <==>
          exists i | 0 <= i < |steps| :: Flat(steps[..i]) && steps[i].LoopStep? && e == NestedLoop(steps[i].id, loopId)
        {
          if exists i | 0 <= i < |steps| ::
            Flat(steps[..i]) && steps[i].LoopStep? && e == NestedLoop(steps[i].id, loopId) {
            var i :| 0 <= i < |steps| && Flat(steps[..i]) && steps[i].LoopStep? && e == NestedLoop(steps[i].id, loopId);
            assert rest[i - 1].LoopStep? && Flat(rest[..i - 1]);
          }
          if exists i | 0 <= i < |rest| :: Flat(rest[..i]) && rest[i].LoopStep? && e == NestedLoop(rest[i].id, loopId) {
            var i :| 0 <= i < |rest| && Flat(rest[..i]) && rest[i].LoopStep? && e == NestedLoop(rest[i].id, loopId);
            assert steps[i + 1].LoopStep? && Flat(steps[..i + 1]);
          }
        }
      }
    }
  }

  lemma FlatStep(steps: seq<Step>, i: nat)
    requires steps != [] && steps[0].NodeStep? && i < |steps|
    ensures Flat(steps[1..][..i]) <==> Flat(steps[..i + 1])
  {
    var a, b := steps[1..][..i], steps[..i + 1];
    assert forall j | 0 <= j < i :: a[j] == b[j + 1];
    assert forall j | 1 <= j < i + 1 :: b[j] == a[j - 1];
  }

  lemma {:induction false} RootProblemIff(steps: seq<Step>)
    ensures RootProblem(steps, None).None? <==> steps != [] ==> Flat(steps[..|steps| - 1])
  {
    if |steps| > 1 {
      RootProblemIff(steps[1..]);
      var init := steps[..|steps| - 1];
      assert init[0] == steps[0];
      if steps[0].NodeStep? {
        assert steps[1..][..|steps| - 2] == init[1..];
        FlatStep(steps, |steps| - 2);
        assert init == steps[..|steps| - 2 + 1];
      }
    }
  }

  /** The error names the first step after the first loop. */
  lemma {:induction false} RootProblemNames(steps: seq<Step>, i: nat)
    requires i + 1 < |steps| && Flat(steps[..i]) && steps[i].LoopStep?
    ensures RootProblem(steps, None) == Some(
      if steps[i + 1].NodeStep? then StepAfterLoop(steps[i + 1].id, steps[i].id) else SecondLoop)
  {
    if i > 0 {
      assert steps[..i][0] == steps[0];
      assert i - 1 + 1 == i;
      FlatStep(steps, i - 1);
      RootProblemNames(steps[1..], i - 1);
    }
  }

  lemma {:induction false} BodiesIff(h: Hashing, steps: seq<Step>)
    ensures Bodies(h, steps).Ok? <==> forall i | 0 <= i < |steps| && steps[i].LoopStep? :: Flat(steps[i].body.steps)
  {
    if steps != [] {
      BodiesIff(h, steps[1..]);
      assert forall i | 0 <= i < |steps[1..]| :: steps[1..][i] == steps[i + 1];
      assert forall i | 1 <= i < |steps| :: steps[i] == steps[1..][i - 1];
      if steps[0].LoopStep? { BodyProblemIff(steps[0].id, steps[0].body.steps); }
    }
  }

  lemma CompilesIff(h: Hashing, record: Record)
    ensures Compile(h, record).Ok? <==> Compilable(record.spec.flow)
  {
    var steps := record.spec.flow.steps;
    RootProblemIff(steps);
    BodiesIff(h, steps);
    if steps != [] {
      assert forall i | 0 <= i < |steps| - 1 :: steps[..|steps| - 1][i] == steps[i];
    }
  }

  // ---- The walks of a compiled graph ------------------------------------------------------------------------

  predicate IsWalk(edges: seq<Edge>, walk: seq<string>) {
    forall i | 0 <= i < |walk| - 1 :: Edge(walk[i], walk[i + 1]) in edges
  }

  predicate Follows(ids: seq<string>, a: string, b: string) {
    exists i | 0 <= i < |ids| - 1 :: ids[i] == a && ids[i + 1] == b
  }

  lemma {:induction false} EdgesIntoIff(previous: seq<string>, target: string, e: Edge)
    ensures e in EdgesInto(previous, target) <==> e.source in previous && e.target == target
  {
    if previous != [] { EdgesIntoIff(previous[1..], target, e); }
  }

  lemma FollowsStep(id: string, ids: seq<string>, a: string, b: string)
    ensures Follows([id] + ids, a, b) <==> (ids != [] && a == id && b == ids[0]) || Follows(ids, a, b)
  {
    var all := [id] + ids;
    if ids != [] && a == id && b == ids[0] { assert all[0] == a && all[0 + 1] == b; }
    if Follows(ids, a, b) {
      var i :| 0 <= i < |ids| - 1 && ids[i] == a && ids[i + 1] == b;
      assert all[i + 1] == a && all[i + 1 + 1] == b;
    }
    if Follows(all, a, b) {
      var i :| 0 <= i < |all| - 1 && all[i] == a && all[i + 1] == b;
      if i > 0 { assert ids[i - 1] == a && ids[i - 1 + 1] == b; }
    }
  }

  /** The edges of a compiled graph: from every entry to the first step, and from each step to the next. */
  lemma {:induction false} StepEdgesIff(previous: seq<string>, steps: seq<Step>, e: Edge)
    ensures e in StepEdges(previous, steps) <==>
      (NodeIds(steps) != [] && e.source in previous && e.target == NodeIds(steps)[0])
        || Follows(NodeIds(steps), e.source, e.target)
    decreases |steps|
  {
    if steps != [] {
      var rest := steps[1..];
      if steps[0].NodeStep? {
        var id := steps[0].id;
        EdgesIntoIff(previous, id, e);
        StepEdgesIff([id], rest, e);
        FollowsStep(id, NodeIds(rest), e.source, e.target);
      } else {
        StepEdgesIff(previous, rest, e);
        assert [] + NodeIds(rest) == NodeIds(rest);
      }
    }
  }

  /** From every entry, the walks are exactly the prefixes of the entry followed by the steps in order. */
  ghost predicate WalksFollow(edges: seq<Edge>, entries: seq<string>, ids: seq<string>) {
    forall t, walk: seq<string> | t in entries && walk != [] && walk[0] == t ::
      IsWalk(edges, walk) <==> walk <= [t] + ids
  }

  ghost predicate HasEdges(edges: seq<Edge>, entries: seq<string>, ids: seq<string>) {
    forall e: Edge :: e in edges <==>
      (ids != [] && e.source in entries && e.target == ids[0]) || Follows(ids, e.source, e.target)
  }

  lemma {:induction false} WalkIsPrefix(edges: seq<Edge>, entries: seq<string>, ids: seq<string>, walk: seq<string>)
    requires HasEdges(edges, entries, ids) && Distinct(ids) && IdSet(entries) !! IdSet(ids)
    requires walk != [] && walk[0] in entries && IsWalk(edges, walk)
    ensures walk <= [walk[0]] + ids
  {
    var whole := [walk[0]] + ids;
    if |walk| > 1 {
      var shorter := walk[..|walk| - 1];
      assert IsWalk(edges, shorter) by {
        forall i | 0 <= i < |shorter| - 1 ensures Edge(shorter[i], shorter[i + 1]) in edges {
          assert Edge(walk[i], walk[i + 1]) in edges;
        }
      }
      WalkIsPrefix(edges, entries, ids, shorter);
      var n := |walk| - 2;
      var e := Edge(walk[n], walk[n + 1]);
      assert e in edges && shorter[n] == walk[n] == whole[n];
      NextOnWalk(entries, ids, walk[0], n, e);
      assert walk == shorter + [walk[n + 1]];
    }
  }

  lemma NextOnWalk(entries: seq<string>, ids: seq<string>, t: string, n: nat, e: Edge)
    requires Distinct(ids) && IdSet(entries) !! IdSet(ids) && t in entries && n <= |ids| && e.source == ([t] + ids)[n]
    requires (ids != [] && e.source in entries && e.target == ids[0]) || Follows(ids, e.source, e.target)
    ensures n < |ids| && e.target == ids[n]
  {
    if n == 0 {
      assert e.source in IdSet(entries);
      assert Follows(ids, e.source, e.target) ==> e.source in IdSet(ids);
    } else {
      assert e.source == ids[n - 1] && e.source in IdSet(ids);
      assert e.source !in IdSet(entries);
      var i :| 0 <= i < |ids| - 1 && ids[i] == e.source && ids[i + 1] == e.target;
      assert i == n - 1;
    }
  }

  lemma PrefixIsWalk(edges: seq<Edge>, entries: seq<string>, ids: seq<string>, t: string, walk: seq<string>)
    requires HasEdges(edges, entries, ids) && t in entries && walk <= [t] + ids
    ensures IsWalk(edges, walk)
  {
    forall i | 0 <= i < |walk| - 1 ensures Edge(walk[i], walk[i + 1]) in edges {
      assert walk[i] == ([t] + ids)[i] && walk[i + 1] == ids[i];
      if i > 0 { assert Follows(ids, ids[i - 1], ids[i - 1 + 1]); }
    }
  }

  // ---- Cycles -----------------------------------------------------------------------------------------------

  predicate IsCycle(edges: seq<Edge>, walk: seq<string>) {
    |walk| >= 2 && IsWalk(edges, walk) && walk[0] == walk[|walk| - 1]
  }

  /** Where the `i`-th stop of going round `m` places is. */
  function Lap(i: nat, m: nat): (k: nat)
    requires m > 0
    ensures k < m
  {
    if i == 0 || Lap(i - 1, m) + 1 == m then 0 else Lap(i - 1, m) + 1
  }

  /** The first `n` stops of going round and round. */
  function Around(cycle: seq<string>, n: nat): (walk: seq<string>)
    requires |cycle| >= 2
    ensures |walk| == n && forall i | 0 <= i < n :: walk[i] == cycle[Lap(i, |cycle| - 1)]
  {
    seq(n, i requires 0 <= i < n => cycle[Lap(i, |cycle| - 1)])
  }

  /** Round a cycle there are walks of every length. */
  lemma CycleGoesOn(edges: seq<Edge>, cycle: seq<string>, n: nat)
    requires IsCycle(edges, cycle)
    ensures IsWalk(edges, Around(cycle, n))
  {
    var walk, m := Around(cycle, n), |cycle| - 1;
    forall i | 0 <= i < n - 1 ensures Edge(walk[i], walk[i + 1]) in edges {
      var at, next := Lap(i, m), i + 1;
      assert Lap(next, m) == if at + 1 == m then 0 else at + 1;
      assert Edge(cycle[at], cycle[at + 1]) in edges;
    }
  }

  /** An id shared by an entry and a step closes a cycle: from the step back to itself through the first step. */
  lemma SharedIdCycles(edges: seq<Edge>, entries: seq<string>, ids: seq<string>, k: nat)
    requires HasEdges(edges, entries, ids) && k < |ids| && ids[k] in entries
    ensures IsCycle(edges, [ids[k]] + ids[..k + 1])
  {
    var cycle := [ids[k]] + ids[..k + 1];
    assert cycle <= [ids[k]] + ids;
    PrefixIsWalk(edges, entries, ids, ids[k], cycle);
  }

  lemma SharedIdEscapes(edges: seq<Edge>, entries: seq<string>, ids: seq<string>, k: nat)
    requires HasEdges(edges, entries, ids) && k < |ids| && ids[k] in entries
    ensures !WalksFollow(edges, entries, ids)
  {
    var cycle := [ids[k]] + ids[..k + 1];
    SharedIdCycles(edges, entries, ids, k);
    CycleGoesOn(edges, cycle, |ids| + 2);
    assert Around(cycle, |ids| + 2)[0] == ids[k];
  }

  /** Entries come before every step, and steps in their order. */
  function Rank(ids: seq<string>, x: string): nat {
    if ids == [] then 0 else if ids[|ids| - 1] == x then |ids| else Rank(ids[..|ids| - 1], x)
  }

  lemma {:induction false} RankOf(ids: seq<string>, i: nat)
    requires Distinct(ids) && i < |ids|
    ensures Rank(ids, ids[i]) == i + 1
  {
    var n := |ids| - 1;
    if i < n { RankOf(ids[..n], i); }
  }

  lemma {:induction false} RankAbsent(ids: seq<string>, x: string)
    requires x !in ids
    ensures Rank(ids, x) == 0
  {
    if ids != [] { RankAbsent(ids[..|ids| - 1], x); }
  }

  lemma EdgesClimb(edges: seq<Edge>, entries: seq<string>, ids: seq<string>, e: Edge)
    requires HasEdges(edges, entries, ids) && Distinct(ids) && IdSet(entries) !! IdSet(ids) && e in edges
    ensures Rank(ids, e.source) < Rank(ids, e.target)
  {
    if Follows(ids, e.source, e.target) {
      var i :| 0 <= i < |ids| - 1 && ids[i] == e.source && ids[i + 1] == e.target;
      RankOf(ids, i);
      RankOf(ids, i + 1);
    } else {
      assert e.source in IdSet(entries);
      RankAbsent(ids, e.source);
      RankOf(ids, 0);
    }
  }

  lemma {:induction false} WalksClimb(edges: seq<Edge>, entries: seq<string>, ids: seq<string>, walk: seq<string>)
    requires HasEdges(edges, entries, ids) && Distinct(ids) && IdSet(entries) !! IdSet(ids)
    requires |walk| >= 2 && IsWalk(edges, walk)
    ensures Rank(ids, walk[0]) < Rank(ids, walk[|walk| - 1])
  {
    hide HasEdges;
    var n := |walk| - 2;
    var init := walk[..n + 1];
    var e := Edge(walk[n], walk[n + 1]);
    assert e in edges;
    EdgesClimb(edges, entries, ids, e);
    if n > 0 {
      forall i | 0 <= i < |init| - 1 ensures Edge(init[i], init[i + 1]) in edges {
        assert Edge(walk[i], walk[i + 1]) in edges;
      }
      WalksClimb(edges, entries, ids, init);
    }
  }

  lemma WalksFollowIff(edges: seq<Edge>, entries: seq<string>, ids: seq<string>)
    requires HasEdges(edges, entries, ids) && Distinct(ids)
    ensures WalksFollow(edges, entries, ids) <==> IdSet(entries) !! IdSet(ids)
  {
    if IdSet(entries) !! IdSet(ids) {
      forall t, walk: seq<string> | t in entries && walk != [] && walk[0] == t
        ensures IsWalk(edges, walk) <==> walk <= [t] + ids
      {
        if IsWalk(edges, walk) { WalkIsPrefix(edges, entries, ids, walk); }
        if walk <= [t] + ids { PrefixIsWalk(edges, entries, ids, t, walk); }
      }
    } else {
      var x :| x in IdSet(entries) && x in IdSet(ids);
      var k :| 0 <= k < |ids| && ids[k] == x;
      SharedIdEscapes(edges, entries, ids, k);
    }
  }

  lemma {:induction false} NodeIdsAmongIds(steps: seq<Step>)
    ensures IdSet(NodeIds(steps)) <= IdSet(FlowIds(steps))
    ensures Distinct(FlowIds(steps)) ==> Distinct(NodeIds(steps))
  {
    if steps != [] {
      NodeIdsAmongIds(steps[1..]);
      DistinctAppend(StepIds(steps[0]), FlowIds(steps[1..]));
      if steps[0].NodeStep? {
        DistinctAppend([steps[0].id], NodeIds(steps[1..]));
      } else {
        assert [] + NodeIds(steps[1..]) == NodeIds(steps[1..]);
      }
    }
  }

  /** In the root graph of a valid automation, from every trigger there is one way to go on, and it
      visits the steps in spec order and ends, exactly when no trigger shares its id with a step. */
  lemma RootWalksFollowFlow(o: Checks, record: Record)
    requires SpecOk(o, record.spec)
    ensures WalksFollow(RootGraph(record).edges, TriggerIds(record.spec.triggers), NodeIds(record.spec.flow.steps))
       <==> IdSet(TriggerIds(record.spec.triggers)) !! IdSet(NodeIds(record.spec.flow.steps))
  {
    NodeIdsAmongIds(record.spec.flow.steps);
    RootHasEdges(record);
    WalksFollowIff(RootGraph(record).edges, TriggerIds(record.spec.triggers), NodeIds(record.spec.flow.steps));
  }

  lemma RootHasEdges(record: Record)
    ensures HasEdges(RootGraph(record).edges, TriggerIds(record.spec.triggers), NodeIds(record.spec.flow.steps))
  {
    var triggerIds, steps := TriggerIds(record.spec.triggers), record.spec.flow.steps;
    forall e: Edge
      ensures e in RootGraph(record).edges <==>
        (NodeIds(steps) != [] && e.source in triggerIds && e.target == NodeIds(steps)[0])
          || Follows(NodeIds(steps), e.source, e.target)
    {
      StepEdgesIff(triggerIds, steps, e);
    }
  }

  /** The root graph of a valid automation has a cycle exactly when a trigger shares its id with a step. */
  lemma RootGraphCyclicIff(o: Checks, record: Record)
    requires SpecOk(o, record.spec)
    ensures (exists walk: seq<string> :: IsCycle(RootGraph(record).edges, walk))
       <==> !(IdSet(TriggerIds(record.spec.triggers)) !! IdSet(NodeIds(record.spec.flow.steps)))
  {
    hide HasEdges;
    var edges, spec := RootGraph(record).edges, record.spec;
    var entries, ids := TriggerIds(spec.triggers), NodeIds(spec.flow.steps);
    NodeIdsAmongIds(record.spec.flow.steps);
    RootHasEdges(record);
    if IdSet(entries) !! IdSet(ids) {
      forall walk: seq<string> | IsCycle(edges, walk) ensures false { WalksClimb(edges, entries, ids, walk); }
    } else {
      var x :| x in IdSet(entries) && x in IdSet(ids);
      var k :| 0 <= k < |ids| && ids[k] == x;
      SharedIdCycles(edges, entries, ids, k);
    }
  }

  const AGENT_NODE: NodeRef := NodeRef("agent", None, None, map[])

  /** The smallest automations: one trigger, one step. */
  function OneStep(trigger: Trigger, stepId: string): Spec {
    Spec(SPEC_VERSION, "One step", None, Blank, "Run it.", Local, [trigger],
         Flow([NodeStep(stepId, AGENT_NODE, None)]), false)
  }

  lemma OneStepOk(o: Checks, trigger: Trigger, stepId: string)
    requires IsLocalId(stepId)
    ensures StepsOk(o, OneStep(trigger, stepId).flow.steps)
  {
    AgentNodeOk();
    hide IsLocalId, NodeOk;
    var steps := OneStep(trigger, stepId).flow.steps;
    assert steps[1..] == [] && StepOk(o, steps[0]);
  }

  lemma AgentNodeOk()
    ensures NodeOk(AGENT_NODE)
  {
    NotBlank("agent");
    TrimMargins("", "agent", "");
    assert "" + "agent" + "" == "agent";
  }

  lemma OneStepFlow(o: Checks, trigger: Trigger, stepId: string)
    requires IsLocalId(stepId)
    ensures var steps := OneStep(trigger, stepId).flow.steps;
      && NodeIds(steps) == [stepId] && Accepts(o, steps, {}) && Compilable(Flow(steps)) && !HasTopLevelLoop(Flow(steps))
  {
    OneStepOk(o, trigger, stepId);
    hide StepsOk, IsLocalId;
    var steps := OneStep(trigger, stepId).flow.steps;
    assert steps[1..] == [] && StepIds(steps[0]) == [stepId] && FlowIds(steps) == [stepId];
  }

  lemma OneStepIsValid(o: Checks, trigger: Trigger, stepId: string)
    requires TriggerOk(o, trigger) && IsLocalId(stepId)
    ensures SpecOk(o, OneStep(trigger, stepId)) && Compilable(OneStep(trigger, stepId).flow)
    ensures NodeIds(OneStep(trigger, stepId).flow.steps) == [stepId]
  {
    hide TriggerOk, Accepts, NodeIds, Compilable;
    OneStepFlow(o, trigger, stepId);
    NotBlank("One step");
    NotBlank("Run it.");
  }

  lemma LocalIdIf(id: string)
    requires id != "" && forall i | 0 <= i < |id| :: IsLocalIdChar(id[i])
    ensures IsLocalId(id) && ((forall i | 0 <= i < |id| :: IsSlugChar(id[i])) ==> IsSlug(id))
  {
    NotBlank(id);
  }

  /** A record that passes validation and compiles to a graph in which its only step follows itself. */
  lemma ValidRecordWithCycle(o: Checks, h: Hashing)
    ensures var record := Record("a", Enabled, 1, OneStep(ManualTrigger("s", None), "s"), NO_RUNTIME);
      RecordOk(o, record) && Compile(h, record).Ok? && IsCycle(RootGraph(record).edges, ["s", "s"])
  {
    hide SpecOk, Compile;
    var trigger := ManualTrigger("s", None);
    var record := Record("a", Enabled, 1, OneStep(trigger, "s"), NO_RUNTIME);
    LocalIdIf("s");
    LocalIdIf("a");
    OneStepIsValid(o, trigger, "s");
    CompilesIff(h, record);
    RootHasEdges(record);
    assert TriggerIds(record.spec.triggers)[0] == "s";
    SharedIdCycles(RootGraph(record).edges, ["s"], ["s"], 0);
    assert ["s"] + ["s"][..1] == ["s", "s"];
    assert TriggerIds(record.spec.triggers) == ["s"];
  }

  /** The loop-body graph is the chain of the body: walks from its first step are its prefixes. */
  lemma BodyWalksFollowBody(body: Flow, walk: seq<string>)
    requires Distinct(FlowIds(body.steps)) && NodeIds(body.steps) != [] && walk != []
      && walk[0] == NodeIds(body.steps)[0]
    ensures IsWalk(BodyGraph(body).edges, walk) <==> walk <= NodeIds(body.steps)
  {
    var ids, edges := NodeIds(body.steps), BodyGraph(body).edges;
    var first, rest := ids[0], ids[1..];
    NodeIdsAmongIds(body.steps);
    assert ids == [first] + rest;
    forall e: Edge
      ensures e in edges <==>
        (rest != [] && e.source in [first] && e.target == rest[0]) || Follows(rest, e.source, e.target)
    {
      StepEdgesIff([], body.steps, e);
      FollowsStep(first, rest, e.source, e.target);
    }
    DistinctAppend([first], rest);
    WalksFollowIff(edges, [first], rest);
  }

  /** One node per trigger, then one per node step, in spec order and under the same ids. */
  lemma RootNodesInOrder(record: Record)
    ensures var nodes, triggers, ids := RootGraph(record).nodes, record.spec.triggers, NodeIds(record.spec.flow.steps);
      && |nodes| == |triggers| + |ids|
      && (forall i | 0 <= i < |triggers| :: nodes[i].id == triggers[i].id)
      && (forall i | 0 <= i < |ids| :: nodes[|triggers| + i].id == ids[i])
  {
    TriggerNodesInOrder(record.id, record.spec.triggers);
    StepNodesInOrder(record.spec.flow.steps);
  }

  /** Every edge goes from a node to a later one, whatever the ids. */
  lemma EdgesGoForward(record: Record, e: Edge) returns (i: nat, j: nat)
    requires e in RootGraph(record).edges
    ensures i < j < |RootGraph(record).nodes|
    ensures RootGraph(record).nodes[i].id == e.source && RootGraph(record).nodes[j].id == e.target
  {
    var triggers, ids := record.spec.triggers, NodeIds(record.spec.flow.steps);
    RootNodesInOrder(record);
    StepEdgesIff(TriggerIds(triggers), record.spec.flow.steps, e);
    if Follows(ids, e.source, e.target) {
      var k :| 0 <= k < |ids| - 1 && ids[k] == e.source && ids[k + 1] == e.target;
      var next := k + 1;
      assert RootGraph(record).nodes[|triggers| + k].id == ids[k]
        && RootGraph(record).nodes[|triggers| + next].id == ids[next];
      i, j := |triggers| + k, |triggers| + next;
    } else {
      var t :| 0 <= t < |triggers| && TriggerIds(triggers)[t] == e.source;
      assert RootGraph(record).nodes[|triggers| + 0].id == ids[0];
      i, j := t, |triggers|;
    }
  }

  lemma {:induction false} TriggerNodesInOrder(automationId: string, triggers: seq<Trigger>)
    ensures |TriggerNodes(automationId, triggers)| == |triggers|
    ensures forall i | 0 <= i < |triggers| :: TriggerNodes(automationId, triggers)[i].id == triggers[i].id
  {
    if triggers != [] { TriggerNodesInOrder(automationId, triggers[1..]); }
  }

  lemma {:induction false} StepNodesInOrder(steps: seq<Step>)
    ensures |StepNodes(steps)| == |NodeIds(steps)|
    ensures forall i | 0 <= i < |NodeIds(steps)| :: StepNodes(steps)[i].id == NodeIds(steps)[i]
  {
    if steps != [] { StepNodesInOrder(steps[1..]); }
  }

  // ---- Binding slugs ---------------------------------------------------------------------------------------------

  /** Every binding comes from a connection trigger, and every connection trigger has its binding. */
  lemma {:induction false} BindingSource(automationId: string, triggers: seq<Trigger>, b: BindingPlan)
    returns (t: Trigger)
    requires b in Bindings(automationId, triggers)
    ensures t in triggers && t.ConnectionTrigger? && t.id == b.triggerId
      && b.bindingSlug == BindingSlug(automationId, t.id)
  {
    t := triggers[0];
    var own := if t.ConnectionTrigger?
      then [BindingPlan(t.id, BindingSlug(automationId, t.id), t.connectionSlug, t.connectorSlug)] else [];
    assert Bindings(automationId, triggers) == own + Bindings(automationId, triggers[1..]);
    if b !in own { t := BindingSource(automationId, triggers[1..], b); }
  }

  lemma {:induction false} BindingOf(automationId: string, triggers: seq<Trigger>, t: Trigger) returns (b: BindingPlan)
    requires t in triggers && t.ConnectionTrigger?
    ensures b in Bindings(automationId, triggers) && b.triggerId == t.id
      && b.bindingSlug == BindingSlug(automationId, t.id)
  {
    if t == triggers[0] {
      b := BindingPlan(t.id, BindingSlug(automationId, t.id), t.connectionSlug, t.connectorSlug);
      assert Bindings(automationId, triggers)[0] == b;
    } else {
      b := BindingOf(automationId, triggers[1..], t);
    }
  }

  lemma SlugsEqualIff(automationId: string, a: string, b: string)
    ensures BindingSlug(automationId, a) == BindingSlug(automationId, b) <==> a == b
  {
    var n := |"automation-"| + |automationId| + 1;
    assert BindingSlug(automationId, a)[n..] == a && BindingSlug(automationId, b)[n..] == b;
  }

  lemma LaterBindingDiffers(automationId: string, triggers: seq<Trigger>, b: BindingPlan)
    requires triggers != [] && Distinct(TriggerIds(triggers)) && b in Bindings(automationId, triggers[1..])
    ensures b.bindingSlug != BindingSlug(automationId, triggers[0].id)
  {
    var u := BindingSource(automationId, triggers[1..], b);
    var k :| 0 <= k < |triggers[1..]| && triggers[1..][k] == u;
    assert TriggerIds(triggers)[0] != TriggerIds(triggers)[k + 1];
    SlugsEqualIff(automationId, u.id, triggers[0].id);
  }

  /** Within one automation no two bindings share a slug. */
  lemma {:induction false} BindingSlugsDistinct(automationId: string, triggers: seq<Trigger>)
    requires Distinct(TriggerIds(triggers))
    ensures forall i, j | 0 <= i < j < |Bindings(automationId, triggers)| ::
      Bindings(automationId, triggers)[i].bindingSlug != Bindings(automationId, triggers)[j].bindingSlug
  {
    if triggers != [] {
      var rest := Bindings(automationId, triggers[1..]);
      assert TriggerIds(triggers[1..]) == TriggerIds(triggers)[1..];
      BindingSlugsDistinct(automationId, triggers[1..]);
      forall j | 0 <= j < |rest| ensures rest[j].bindingSlug != BindingSlug(automationId, triggers[0].id) {
        assert rest[j] in rest;
        LaterBindingDiffers(automationId, triggers, rest[j]);
      }
    }
  }

  // ---- Slugs across automations -------------------------------------------------------------------------------

  /** One id is the other followed by a dash and more. */
  predicate Extends(a: string, b: string) {
    a + "-" <= b || b + "-" <= a
  }

  lemma MeetingSlugsExtend(a: string, b: string, s: string, t: string)
    requires BindingSlug(a, s) == BindingSlug(b, t) && |a| < |b|
    ensures a + "-" <= b
  {
    var n := |"automation-"|;
    assert BindingSlug(a, s)[n..] == a + "-" + s && BindingSlug(b, t)[n..] == b + "-" + t;
    assert (a + "-" + s)[..|b|] == b;
    assert b[..|a|] == a && b[|a|] == '-';
    assert b[..|a| + 1] == a + "-";
  }

  /** Two trigger ids under which the bindings of two such automations meet; both are in kebab case. */
  lemma SlugsMeet(a: string, b: string) returns (s: string, t: string)
    requires IsSlug(a) && IsSlug(b) && a + "-" <= b
    ensures IsLocalId(s) && IsSlug(s) && IsLocalId(t) && IsSlug(t) && BindingSlug(a, s) == BindingSlug(b, t)
  {
    var rest := b[|a| + 1..];
    s, t := rest + "-t", "t";
    assert b == a + "-" + rest;
    assert forall i | 0 <= i < |rest| :: rest[i] == b[|a| + 1 + i];
    assert forall i | 0 <= i < |s| :: IsSlugChar(s[i]);
    LocalIdIf(s);
    LocalIdIf(t);
    assert a + "-" + (rest + "-t") == (a + "-" + rest) + "-t";
  }

  /** The bindings of two different automations can get the same slug exactly when one automation id extends the other
      by a dash and more. */
  lemma BindingSlugsMeetIff(a: string, b: string)
    requires IsSlug(a) && IsSlug(b) && a != b
    ensures (exists s: string, t: string :: IsLocalId(s) && IsLocalId(t) && BindingSlug(a, s) == BindingSlug(b, t))
       <==> Extends(a, b)
  {
    if a + "-" <= b {
      var s, t := SlugsMeet(a, b);
    } else if b + "-" <= a {
      var t, s := SlugsMeet(b, a);
    }
    forall s: string, t: string | BindingSlug(a, s) == BindingSlug(b, t) ensures Extends(a, b) {
      if |a| < |b| { MeetingSlugsExtend(a, b, s, t); }
      else if |b| < |a| { MeetingSlugsExtend(b, a, t, s); }
      else { SameLengthSlugs(a, b, s, t); }
    }
  }

  lemma SameLengthSlugs(a: string, b: string, s: string, t: string)
    requires BindingSlug(a, s) == BindingSlug(b, t) && |a| == |b|
    ensures a == b
  {
    var n := |"automation-"|;
    assert BindingSlug(a, s)[n..n + |a|] == a && BindingSlug(b, t)[n..n + |b|] == b;
  }
}
