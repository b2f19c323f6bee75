/** Automation records: what the user wrote, and what was compiled from it
    (crates/puffer-automation/src/spec.rs). Timestamps are left out. */
module AutomationSpec {
  import opened Wrappers
  import opened CanonicalJson

  const SPEC_VERSION: nat := 1

  datatype NodeRef = NodeRef(nodeType: string, name: Option<string>, trusted: Option<bool>, config: map<string, Json>)

  datatype Filter =
    | Regex(pattern: string, caseInsensitive: bool)
    | Jq(expression: string)
    | Any(filters: seq<Filter>)
    | Shape(shape: Json)

  datatype Trigger =
    | AgentEnvTrigger(id: string, node: NodeRef, summary: Option<string>)
    | ConnectionTrigger(id: string, connectionSlug: string, connectorSlug: Option<string>, filter: Option<Filter>,
                        ignoreFilters: seq<Filter>, contactIds: seq<string>, summary: Option<string>)
    | ManualTrigger(id: string, summary: Option<string>)

  datatype LoopInput =
    | TriggerPayload
    | StepOutput(stepId: string, path: Option<string>)
    | Static(value: Json)

  datatype LoopStop =
    | OutputEquals(path: string, expected: Json)
    | OutputMatches(path: string, pattern: string)
    | StopNode(node: NodeRef)

  datatype LoopSpec =
    | Repeat(input: LoopInput, stopWhen: LoopStop, maxIterations: nat)
    | ForEach(input: LoopInput, itemAlias: string, cap: Option<nat>)

  datatype Flow = Flow(steps: seq<Step>)

  datatype Step =
    | NodeStep(id: string, node: NodeRef, summary: Option<string>)
    | LoopStep(id: string, config: LoopSpec, body: Flow, summary: Option<string>)

  datatype Source =
    | Blank
    | NaturalLanguage(prompt: string)
    | Template(templateId: string, templateVersion: Option<string>)

  datatype RunLocation = Local | AgentEnvCloud

  datatype Spec = Spec(
    specVersion: nat,
    name: string,
    description: Option<string>,
    source: Source,
    instructions: string,
    runLocation: RunLocation,
    triggers: seq<Trigger>,
    flow: Flow,
    humanApproval: bool)

  datatype Status = Enabled | Paused | Archived

  datatype RuntimeStatus = NotCompiled | DraftSynced | Deployed | Stale | Failed

  datatype Role = Root | LoopBody(stepId: string) | Continuation(stepId: string) | Helper(stepId: string)

  datatype Workflow = Workflow(role: Role, workflowId: Option<string>, definitionHash: Option<string>, deployed: bool)

  datatype Binding = Binding(triggerId: string, bindingSlug: string)

  datatype Runtime = Runtime(
    specHash: Option<string>,
    compiledRevision: Option<nat>,
    status: RuntimeStatus,
    workflows: seq<Workflow>,
    bindings: seq<Binding>,
    lastError: Option<string>)

  const NO_RUNTIME: Runtime := Runtime(None, None, NotCompiled, [], [], None)

  datatype Record = Record(id: string, status: Status, revision: nat, spec: Spec, runtime: Runtime)

  // ---- The ids of a flow, at every depth -----------------------------------------------

  function StepIds(step: Step): seq<string>
    decreases step
  {
    match step
    case NodeStep(id, _, _) => [id]
    case LoopStep(id, _, body, _) => [id] + FlowIds(body.steps)
  }

  function FlowIds(steps: seq<Step>): seq<string>
    decreases steps
  {
    if steps == [] then [] else StepIds(steps[0]) + FlowIds(steps[1..])
  }

  function StepLoopIds(step: Step): seq<string>
    decreases step
  {
    match step
    case NodeStep(_, _, _) => []
    case LoopStep(id, _, body, _) => [id] + FlowLoopIds(body.steps)
  }

  function FlowLoopIds(steps: seq<Step>): seq<string>
    decreases steps
  {
    if steps == [] then [] else StepLoopIds(steps[0]) + FlowLoopIds(steps[1..])
  }

  function TriggerIds(triggers: seq<Trigger>): (ids: seq<string>)
    ensures |ids| == |triggers| && forall i | 0 <= i < |ids| :: ids[i] == triggers[i].id
  {
    seq(|triggers|, i requires 0 <= i < |triggers| => triggers[i].id)
  }
}
