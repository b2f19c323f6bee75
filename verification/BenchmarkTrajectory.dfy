/** The trajectory built from a stream of benchmark events with retries
    (crates/puffer-cli/src/benchmark_trace.rs). A field absent from a step is empty here. */
module BenchmarkTrajectory {
  import opened Text
  import opened Wrappers

  datatype Request = Request(toolId: string, input: string)

  datatype Invocation = Invocation(callId: string, toolId: string, input: string, output: string, success: bool)

  /** `arguments` is the raw input; parsing it as JSON is left to the library. */
  datatype CallRecord = CallRecord(callId: string, functionName: string, arguments: string)

  datatype RequestRecord = RequestRecord(functionName: string, arguments: string)

  datatype Observation = Observation(sourceCallId: string, content: string, success: bool)

  datatype Retry = Retry(attempt: nat, maxAttempts: nat, error: string)

  datatype Usage = Usage(inputTokens: nat, outputTokens: nat, cacheRead: nat, cacheCreation: nat)

  datatype Event =
    | UserPrompt(message: string)
    | ThinkingDelta(delta: string)
    | TextDelta(delta: string)
    | ToolCallsRequested(requests: seq<Request>)
    | ToolInvocations(invocations: seq<Invocation>)
    | RetryAttempt(retry: Retry)
    | UsageReport(usage: Usage)
    | AssistantMessage(message: string)
    | Failure(error: string)

  datatype Source = User | Agent

  datatype TraceStep = TraceStep(
    stepId: nat, source: Source, message: string,
    toolCalls: seq<CallRecord>, observations: seq<Observation>,
    thinking: string, requested: seq<RequestRecord>, retries: seq<Retry>, usage: seq<Usage>)

  /** What one run leaves besides its events. */
  datatype RunResult = RunResult(prompt: string, assistantText: string, error: Option<string>)

  // ---- Records ------------------------------------------------------------------------------

  function CallOf(i: Invocation): CallRecord { CallRecord(i.callId, i.toolId, i.input) }

  function ObservationOf(i: Invocation): Observation { Observation(i.callId, i.output, i.success) }

  function RequestOf(r: Request): RequestRecord { RequestRecord(r.toolId, r.input) }

  function Map<A, B>(f: A -> B, xs: seq<A>): (ys: seq<B>)
    ensures |ys| == |xs| && forall i | 0 <= i < |xs| :: ys[i] == f(xs[i])
  {
    seq(|xs|, i requires 0 <= i < |xs| => f(xs[i]))
  }

  function FailureText(error: string): string { "Benchmark run failed: " + error }

  // ---- The pending step, as a value and as an object ----------------------------------------------

  datatype Pending = Pending(
    message: string, thinking: string, requested: seq<RequestRecord>, toolCalls: seq<CallRecord>,
    observations: seq<Observation>, retries: seq<Retry>, usage: seq<Usage>)

  const NOTHING: Pending := Pending("", "", [], [], [], [], [])

  predicate HasContent(p: Pending) {
    p != NOTHING
  }

  function StepMessage(p: Pending): string {
    if Trim(p.message) != "" then p.message
    else if p.toolCalls != [] || p.requested != [] then "Executed tool calls"
    else if Trim(p.thinking) != "" then "Reasoned about the task"
    else "Processed benchmark turn"
  }

  function StepOf(id: nat, p: Pending): TraceStep {
    TraceStep(id, Agent, StepMessage(p), p.toolCalls, p.observations, p.thinking, p.requested, p.retries, p.usage)
  }

  function PlainStep(id: nat, source: Source, message: string): TraceStep {
    TraceStep(id, source, message, [], [], "", [], [], [])
  }

  function Finalized(steps: seq<TraceStep>, p: Pending): seq<TraceStep> {
    if HasContent(p) then steps + [StepOf(|steps| + 1, p)] else steps
  }

  class PendingStep {
    var message: string
    var thinking: string
    var requested: seq<RequestRecord>
    var toolCalls: seq<CallRecord>
    var observations: seq<Observation>
    var retries: seq<Retry>
    var usage: seq<Usage>

    function Now(): Pending
      reads this
    {
      Pending(message, thinking, requested, toolCalls, observations, retries, usage)
    }

    constructor ()
      ensures Now() == NOTHING
    {
      message, thinking, requested, toolCalls, observations, retries, usage := "", "", [], [], [], [], [];
    }

    method DiscardStreamAttempt()
      modifies this
      ensures Now() == NOTHING.(retries := old(retries))
    {
      message, thinking, requested, toolCalls, observations, usage := "", "", [], [], [], [];
    }

    /** Moves what is pending into a new step, and empties it. */
    method Finalize(steps: seq<TraceStep>) returns (after: seq<TraceStep>)
      modifies this
      ensures after == Finalized(steps, old(Now())) && Now() == NOTHING
    {
      after := steps;
      if message == "" && thinking == "" && requested == [] && toolCalls == [] && observations == []
        && retries == [] && usage == [] {
        return;
      }
      var step := PlainStep(|steps| + 1, Agent, StepMessage(Now()));
      step := step.(toolCalls := toolCalls, observations := observations);
      step := step.(thinking := thinking, requested := requested, retries := retries, usage := usage);
      after := steps + [step];
      message, thinking, requested, toolCalls, observations, retries, usage := "", "", [], [], [], [], [];
    }
  }

  // ---- The fold over the events -------------------------------------------------------------------------

  datatype State = State(steps: seq<TraceStep>, pending: Pending)

  function OnEvent(t: State, e: Event): State {
    var p := t.pending;
    match e
    case UserPrompt(_) => t
    case ThinkingDelta(delta) => t.(pending := p.(thinking := p.thinking + delta))
    case TextDelta(delta) => t.(pending := p.(message := p.message + delta))
    case ToolCallsRequested(requests) => t.(pending := p.(requested := p.requested + Map(RequestOf, requests)))
    case ToolInvocations(invocations) =>
      var calls := if p.toolCalls == [] then Map(CallOf, invocations) else p.toolCalls;
      var all := p.(toolCalls := calls, observations := p.observations + Map(ObservationOf, invocations));
      State(Finalized(t.steps, all), NOTHING)
    case RetryAttempt(retry) => t.(pending := NOTHING.(retries := p.retries + [retry]))
    case UsageReport(usage) => t.(pending := p.(usage := p.usage + [usage]))
    case AssistantMessage(message) =>
      var text := if Trim(p.message) == "" || Trim(p.message) != Trim(message) then message else p.message;
      State(Finalized(t.steps, p.(message := text)), NOTHING)
    case Failure(error) =>
      var steps := Finalized(t.steps, p);
      State(steps + [PlainStep(|steps| + 1, Agent, FailureText(error))], NOTHING)
  }

  function Fold(t: State, events: seq<Event>): State
    decreases |events|
  {
    if events == [] then t else Fold(OnEvent(t, events[0]), events[1..])
  }

  function Start(result: RunResult): State {
    State([PlainStep(1, User, result.prompt)], NOTHING)
  }

  function FallbackText(result: RunResult): string {
    if result.error.Some? then FailureText(result.error.value) else result.assistantText
  }

  function Trajectory(result: RunResult, events: seq<Event>): seq<TraceStep> {
    var t := Fold(Start(result), events);
    var steps := Finalized(t.steps, t.pending);
    if |steps| == 1 then steps + [PlainStep(2, Agent, FallbackText(result))] else steps
  }

  method BuildTrajectory(result: RunResult, events: seq<Event>) returns (steps: seq<TraceStep>)
    ensures steps == Trajectory(result, events)
  {
    steps := [PlainStep(1, User, result.prompt)];
    var pending := new PendingStep();
    for k := 0 to |events|
      invariant Fold(State(steps, pending.Now()), events[k..]) == Fold(Start(result), events)
    {
      assert events[k..][0] == events[k] && events[k..][1..] == events[k + 1..];
      steps := Handle(steps, pending, events[k]);
    }
    steps := pending.Finalize(steps);
    if |steps| == 1 {
      steps := steps + [PlainStep(2, Agent, FallbackText(result))];
    }
  }

  method Handle(steps: seq<TraceStep>, pending: PendingStep, event: Event) returns (after: seq<TraceStep>)
    modifies pending
    ensures State(after, pending.Now()) == OnEvent(State(steps, old(pending.Now())), event)
  {
    hide StepMessage, Trim, Map;
    after := steps;
    match event {
      case UserPrompt(_) =>
      case ThinkingDelta(delta) => pending.thinking := pending.thinking + delta;
      case TextDelta(delta) => pending.message := pending.message + delta;
      case ToolCallsRequested(requests) => pending.requested := pending.requested + Map(RequestOf, requests);
      case ToolInvocations(invocations) =>
        if pending.toolCalls == [] {
          assert [] + Map(CallOf, invocations) == Map(CallOf, invocations);
          pending.toolCalls := pending.toolCalls + Map(CallOf, invocations);
        }
        pending.observations := pending.observations + Map(ObservationOf, invocations);
        after := pending.Finalize(steps);
      case RetryAttempt(retry) =>
        pending.DiscardStreamAttempt();
        pending.retries := pending.retries + [retry];
      case UsageReport(usage) => pending.usage := pending.usage + [usage];
      case AssistantMessage(message) =>
        if Trim(pending.message) == "" || Trim(pending.message) != Trim(message) {
          pending.message := message;
        }
        after := pending.Finalize(steps);
      case Failure(error) =>
        after := pending.Finalize(steps);
        after := after + [PlainStep(|after| + 1, Agent, FailureText(error))];
    }
  }

  lemma {:induction false} FoldAppend(t: State, xs: seq<Event>, ys: seq<Event>)
    ensures Fold(t, xs + ys) == Fold(Fold(t, xs), ys)
    decreases |xs|
  {
    if xs == [] {
      assert xs + ys == ys;
    } else {
      assert (xs + ys)[0] == xs[0] && (xs + ys)[1..] == xs[1..] + ys;
      FoldAppend(OnEvent(t, xs[0]), xs[1..], ys);
    }
  }

  // ---- What is conserved -------------------------------------------------------------------------------------

  function AllCalls(steps: seq<TraceStep>): seq<CallRecord> {
    if steps == [] then [] else AllCalls(steps[..|steps| - 1]) + steps[|steps| - 1].toolCalls
  }

  function AllObservations(steps: seq<TraceStep>): seq<Observation> {
    if steps == [] then [] else AllObservations(steps[..|steps| - 1]) + steps[|steps| - 1].observations
  }

  function AllRetries(steps: seq<TraceStep>): seq<Retry> {
    if steps == [] then [] else AllRetries(steps[..|steps| - 1]) + steps[|steps| - 1].retries
  }

  /** The invocations one event reports, and those all the events report, in order. */
  function InvokedBy(e: Event): seq<Invocation> {
    if e.ToolInvocations? then e.invocations else []
  }

  function Invoked(events: seq<Event>): seq<Invocation> {
    if events == [] then [] else InvokedBy(events[0]) + Invoked(events[1..])
  }

  /** The retry record one event carries, and those of all the events, in order. */
  function RetriedBy(e: Event): seq<Retry> {
    if e.RetryAttempt? then [e.retry] else []
  }

  function Retried(events: seq<Event>): seq<Retry> {
    if events == [] then [] else RetriedBy(events[0]) + Retried(events[1..])
  }

  /** Each observation sits beside the call it answers. */
  predicate PairedLists(calls: seq<CallRecord>, observations: seq<Observation>) {
    |calls| == |observations| && forall i | 0 <= i < |calls| :: calls[i].callId == observations[i].sourceCallId
  }

  predicate WellNumbered(steps: seq<TraceStep>) {
    forall i | 0 <= i < |steps| :: steps[i].stepId == i + 1
  }

  predicate AllPaired(steps: seq<TraceStep>) {
    forall s | s in steps :: PairedLists(s.toolCalls, s.observations)
  }

  /** What every state between two events satisfies. */
  predicate Inv(t: State) {
    && WellNumbered(t.steps) && AllPaired(t.steps)
    && t.pending.toolCalls == [] && t.pending.observations == []
  }

  lemma AppendNumbered(steps: seq<TraceStep>, s: TraceStep)
    ensures WellNumbered(steps + [s]) <==> WellNumbered(steps) && s.stepId == |steps| + 1
  {
    var all := steps + [s];
    if WellNumbered(all) {
      forall i | 0 <= i < |steps| ensures steps[i].stepId == i + 1 { assert all[i] == steps[i]; }
      assert all[|steps|] == s;
    }
  }

  lemma AppendPaired(steps: seq<TraceStep>, s: TraceStep)
    ensures AllPaired(steps + [s]) <==> AllPaired(steps) && PairedLists(s.toolCalls, s.observations)
  {
    hide PairedLists;
    if AllPaired(steps + [s]) {
      forall x | x in steps ensures PairedLists(x.toolCalls, x.observations) { assert x in steps + [s]; }
      assert s in steps + [s];
    }
  }

  lemma AppendStep(steps: seq<TraceStep>, s: TraceStep)
    ensures AllCalls(steps + [s]) == AllCalls(steps) + s.toolCalls
    ensures AllObservations(steps + [s]) == AllObservations(steps) + s.observations
    ensures AllRetries(steps + [s]) == AllRetries(steps) + s.retries
    ensures WellNumbered(steps + [s]) <==> WellNumbered(steps) && s.stepId == |steps| + 1
    ensures AllPaired(steps + [s]) <==> AllPaired(steps) && PairedLists(s.toolCalls, s.observations)
  {
    hide PairedLists, WellNumbered, AllPaired;
    assert (steps + [s])[..|steps + [s]| - 1] == steps;
    AppendNumbered(steps, s);
    AppendPaired(steps, s);
  }

  lemma FinalizedKeeps(steps: seq<TraceStep>, p: Pending)
    requires WellNumbered(steps) && AllPaired(steps) && PairedLists(p.toolCalls, p.observations)
    ensures WellNumbered(Finalized(steps, p)) && AllPaired(Finalized(steps, p))
    ensures AllCalls(Finalized(steps, p)) == AllCalls(steps) + p.toolCalls
    ensures AllObservations(Finalized(steps, p)) == AllObservations(steps) + p.observations
    ensures AllRetries(Finalized(steps, p)) == AllRetries(steps) + p.retries
  {
    hide AllCalls, AllObservations, AllRetries, WellNumbered, AllPaired, PairedLists, StepMessage;
    AppendStep(steps, StepOf(|steps| + 1, p));
  }

  /** What one event adds to what the steps and the pending retries hold. */
  predicate Added(t: State, u: State, invoked: seq<Invocation>, retried: seq<Retry>) {
    && AllCalls(u.steps) == AllCalls(t.steps) + Map(CallOf, invoked)
    && AllObservations(u.steps) == AllObservations(t.steps) + Map(ObservationOf, invoked)
    && AllRetries(u.steps) + u.pending.retries == AllRetries(t.steps) + t.pending.retries + retried
  }

  lemma BatchPaired(invocations: seq<Invocation>)
    ensures PairedLists(Map(CallOf, invocations), Map(ObservationOf, invocations))
  {
  }

  lemma NoPrefix<T>(xs: seq<T>)
    ensures [] + xs == xs
  {
  }

  lemma InvocationsKeep(t: State, invocations: seq<Invocation>)
    requires Inv(t)
    ensures var u := OnEvent(t, ToolInvocations(invocations));
      Inv(u) && Added(t, u, invocations, [])
  {
    hide AllCalls, AllObservations, AllRetries, WellNumbered, AllPaired, StepMessage, Finalized, PairedLists, Map;
    var done := t.pending.(toolCalls := Map(CallOf, invocations), observations := Map(ObservationOf, invocations));
    NoPrefix(Map(ObservationOf, invocations));
    BatchPaired(invocations);
    FinalizedKeeps(t.steps, done);
  }

  lemma ClosingKeeps(t: State, p: Pending)
    requires Inv(t) && p.toolCalls == [] && p.observations == [] && p.retries == t.pending.retries
    ensures var u := State(Finalized(t.steps, p), NOTHING);
      Inv(u) && Added(t, u, [], [])
  {
    hide AllCalls, AllObservations, AllRetries, WellNumbered, AllPaired, StepMessage, Finalized;
    FinalizedKeeps(t.steps, p);
  }

  lemma FailureKeeps(t: State, error: string)
    requires Inv(t)
    ensures var u := OnEvent(t, Failure(error));
      Inv(u) && Added(t, u, [], [])
  {
    hide AllCalls, AllObservations, AllRetries, WellNumbered, AllPaired, StepMessage, Finalized;
    ClosingKeeps(t, t.pending);
    var steps := Finalized(t.steps, t.pending);
    AppendStep(steps, PlainStep(|steps| + 1, Agent, FailureText(error)));
  }

  lemma EventKeeps(t: State, e: Event)
    requires Inv(t)
    ensures Inv(OnEvent(t, e)) && Added(t, OnEvent(t, e), InvokedBy(e), RetriedBy(e))
  {
    hide AllCalls, AllObservations, AllRetries, WellNumbered, AllPaired, StepMessage, Finalized, Trim;
    match e {
      case ToolInvocations(invocations) => InvocationsKeep(t, invocations);
      case AssistantMessage(message) =>
        var p := t.pending;
        var last := if Trim(p.message) == "" || Trim(p.message) != Trim(message) then message else p.message;
        ClosingKeeps(t, p.(message := last));
      case Failure(error) => FailureKeeps(t, error);
      case _ =>
    }
  }

  lemma MapAppend<A, B>(f: A -> B, xs: seq<A>, ys: seq<A>)
    ensures Map(f, xs + ys) == Map(f, xs) + Map(f, ys)
  {
  }

  lemma AddedTwice(t: State, u: State, v: State, i: seq<Invocation>, j: seq<Invocation>, r: seq<Retry>, s: seq<Retry>)
    requires Added(t, u, i, r) && Added(u, v, j, s)
    ensures Added(t, v, i + j, r + s)
  {
    hide AllCalls, AllObservations, AllRetries, Map;
    MapAppend(CallOf, i, j);
    MapAppend(ObservationOf, i, j);
  }

  lemma {:induction false} FoldKeeps(t: State, events: seq<Event>)
    requires Inv(t)
    ensures Inv(Fold(t, events)) && Added(t, Fold(t, events), Invoked(events), Retried(events))
    decreases |events|
  {
    hide Inv, OnEvent;
    if events == [] {
      assert Added(t, t, [], []);
    } else {
      hide Added;
      var next := OnEvent(t, events[0]);
      EventKeeps(t, events[0]);
      FoldKeeps(next, events[1..]);
      AddedTwice(t, next, Fold(t, events), InvokedBy(events[0]), Invoked(events[1..]), RetriedBy(events[0]),
        Retried(events[1..]));
    }
  }

  lemma StartHolds(result: RunResult)
    ensures Inv(Start(result)) && Start(result).pending == NOTHING
    ensures var steps := Start(result).steps;
      AllCalls(steps) == [] && AllObservations(steps) == [] && AllRetries(steps) == []
  {
    AppendStep([], PlainStep(1, User, result.prompt));
    assert [] + [PlainStep(1, User, result.prompt)] == Start(result).steps;
  }

  lemma FallbackKeeps(steps: seq<TraceStep>, text: string)
    requires WellNumbered(steps) && AllPaired(steps)
    ensures var after := if |steps| == 1 then steps + [PlainStep(2, Agent, text)] else steps;
      && WellNumbered(after) && AllPaired(after)
      && AllCalls(after) == AllCalls(steps) && AllObservations(after) == AllObservations(steps)
      && AllRetries(after) == AllRetries(steps)
  {
    hide AllCalls, AllObservations, AllRetries, WellNumbered, AllPaired;
    AppendStep(steps, PlainStep(2, Agent, text));
  }

  lemma {:induction false} StepsGrow(t: State, events: seq<Event>)
    ensures |t.steps| <= |Fold(t, events).steps|
    decreases |events|
  {
    hide StepMessage, Trim, Map;
    if events != [] { StepsGrow(OnEvent(t, events[0]), events[1..]); }
  }

  lemma AtLeastOneStep(result: RunResult, events: seq<Event>)
    ensures var t := Fold(Start(result), events);
      |Finalized(t.steps, t.pending)| >= 1
  {
    hide Fold, StepMessage;
    StepsGrow(Start(result), events);
  }

  /** For every list of events: steps are numbered 1 to n, the calls and the observations are those of all the
      invocations in order, each observation beside its call, and every retry record appears once, in order. */
  lemma Conservation(result: RunResult, events: seq<Event>)
    ensures WellNumbered(Trajectory(result, events)) && |Trajectory(result, events)| >= 2
    ensures AllPaired(Trajectory(result, events))
    ensures AllCalls(Trajectory(result, events)) == Map(CallOf, Invoked(events))
    ensures AllObservations(Trajectory(result, events)) == Map(ObservationOf, Invoked(events))
    ensures AllRetries(Trajectory(result, events)) == Retried(events)
  {
    hide AllCalls, AllObservations, AllRetries, WellNumbered, AllPaired, StepMessage, Fold, Map, Finalized, Start;
    var start := Start(result);
    StartHolds(result);
    FoldKeeps(start, events);
    NoPrefix(Map(CallOf, Invoked(events)));
    NoPrefix(Map(ObservationOf, Invoked(events)));
    NoPrefix(Retried(events));
    assert [] + [] + Retried(events) == Retried(events);
    var t := Fold(start, events);
    FinalizedKeeps(t.steps, t.pending);
    FallbackKeeps(Finalized(t.steps, t.pending), FallbackText(result));
    AtLeastOneStep(result, events);
  }

  // ---- What is discarded ----------------------------------------------------------------------------------------

  /** The events of a streaming attempt: nothing in them closes a step. */
  predicate IsStream(e: Event) {
    e.UserPrompt? || e.ThinkingDelta? || e.TextDelta? || e.ToolCallsRequested? || e.UsageReport?
  }

  predicate AllStream(events: seq<Event>) {
    forall e | e in events :: IsStream(e)
  }

  /** What one event adds to the pending text, thinking, requested calls and usage. */
  function TextBy(e: Event): string { if e.TextDelta? then e.delta else "" }

  function ThinkingBy(e: Event): string { if e.ThinkingDelta? then e.delta else "" }

  function RequestedBy(e: Event): seq<RequestRecord> {
    if e.ToolCallsRequested? then Map(RequestOf, e.requests) else []
  }

  function UsageBy(e: Event): seq<Usage> { if e.UsageReport? then [e.usage] else [] }

  function TextOf(events: seq<Event>): string {
    if events == [] then "" else TextBy(events[0]) + TextOf(events[1..])
  }

  function ThinkingOf(events: seq<Event>): string {
    if events == [] then "" else ThinkingBy(events[0]) + ThinkingOf(events[1..])
  }

  function RequestedOf(events: seq<Event>): seq<RequestRecord> {
    if events == [] then [] else RequestedBy(events[0]) + RequestedOf(events[1..])
  }

  function UsageOf(events: seq<Event>): seq<Usage> {
    if events == [] then [] else UsageBy(events[0]) + UsageOf(events[1..])
  }

  function Grown(p: Pending, text: string, thinking: string, requested: seq<RequestRecord>,
                 usage: seq<Usage>): Pending {
    p.(message := p.message + text, thinking := p.thinking + thinking,
       requested := p.requested + requested, usage := p.usage + usage)
  }

  lemma StreamStep(t: State, e: Event)
    requires IsStream(e)
    ensures OnEvent(t, e) == State(t.steps, Grown(t.pending, TextBy(e), ThinkingBy(e), RequestedBy(e), UsageBy(e)))
  {
    hide Map;
    var p := t.pending;
    assert p.message + "" == p.message && p.thinking + "" == p.thinking;
    assert p.requested + [] == p.requested && p.usage + [] == p.usage;
  }

  lemma GrownTwice(p: Pending, a: string, b: string, c: seq<RequestRecord>, d: seq<Usage>,
                   e: string, f: string, g: seq<RequestRecord>, h: seq<Usage>)
    ensures Grown(Grown(p, a, b, c, d), e, f, g, h) == Grown(p, a + e, b + f, c + g, d + h)
  {
    Associative(p.message, a, e);
    Associative(p.thinking, b, f);
    Associative(p.requested, c, g);
    Associative(p.usage, d, h);
  }

  lemma Associative<T>(x: seq<T>, y: seq<T>, z: seq<T>)
    ensures (x + y) + z == x + (y + z)
  {
  }

  /** A stream only appends to what is pending: its text, thinking, requested calls and usage, each in order. */
  lemma {:induction false} StreamAccumulates(t: State, attempt: seq<Event>)
    requires AllStream(attempt)
    ensures Fold(t, attempt).steps == t.steps
    ensures Fold(t, attempt).pending ==
      Grown(t.pending, TextOf(attempt), ThinkingOf(attempt), RequestedOf(attempt), UsageOf(attempt))
    decreases |attempt|
  {
    if attempt == [] {
      var p := t.pending;
      assert p.message + "" == p.message && p.thinking + "" == p.thinking;
      assert p.requested + [] == p.requested && p.usage + [] == p.usage;
    } else {
      hide OnEvent, Grown, TextBy, ThinkingBy, RequestedBy, UsageBy, IsStream;
      var e, rest := attempt[0], attempt[1..];
      assert e in attempt;
      StreamStep(t, e);
      StreamAccumulates(OnEvent(t, e), rest);
      GrownTwice(t.pending, TextBy(e), ThinkingBy(e), RequestedBy(e), UsageBy(e),
                 TextOf(rest), ThinkingOf(rest), RequestedOf(rest), UsageOf(rest));
    }
  }

  /** A discarded attempt leaves no trace: whatever it streamed, the trajectory is the same. */
  lemma DiscardedAttemptLeavesNoTrace(result: RunResult, before: seq<Event>, attempt: seq<Event>, other: seq<Event>,
                                      retry: Retry, after: seq<Event>)
    requires AllStream(attempt) && AllStream(other)
    ensures Trajectory(result, before + attempt + [RetryAttempt(retry)] + after)
         == Trajectory(result, before + other + [RetryAttempt(retry)] + after)
  {
    RetryForgets(Start(result), before, attempt, retry, after);
    RetryForgets(Start(result), before, other, retry, after);
  }

  lemma RetryForgets(t: State, before: seq<Event>, attempt: seq<Event>, retry: Retry, after: seq<Event>)
    requires AllStream(attempt)
    ensures Fold(t, before + attempt + [RetryAttempt(retry)] + after) ==
      Fold(OnEvent(Fold(t, before), RetryAttempt(retry)), after)
  {
    hide TextOf, ThinkingOf, RequestedOf, UsageOf;
    var r := [RetryAttempt(retry)];
    FoldAppend(t, before + attempt + r, after);
    FoldAppend(t, before + attempt, r);
    FoldAppend(t, before, attempt);
    StreamAccumulates(Fold(t, before), attempt);
    var u := Fold(Fold(t, before), attempt);
    assert Fold(u, r) == Fold(OnEvent(u, r[0]), r[1..]);
  }

  /** An attempt that reaches its tool calls becomes one step holding exactly what that attempt streamed. */
  lemma KeptAttemptBecomesStep(t: State, attempt: seq<Event>, invocations: seq<Invocation>)
    requires AllStream(attempt) && Inv(t) && invocations != []
    requires t.pending == NOTHING.(retries := t.pending.retries)
    ensures var u := Fold(t, attempt + [ToolInvocations(invocations)]);
      && u.pending == NOTHING && |u.steps| == |t.steps| + 1 && u.steps[..|t.steps|] == t.steps
      && var last := u.steps[|t.steps|];
      && last.thinking == ThinkingOf(attempt) && last.requested == RequestedOf(attempt)
      && last.usage == UsageOf(attempt)
      && last.toolCalls == Map(CallOf, invocations) && last.observations == Map(ObservationOf, invocations)
      && last.message == (if Trim(TextOf(attempt)) != "" then TextOf(attempt) else "Executed tool calls")
      && last.retries == t.pending.retries
  {
    hide Trim, TextOf, ThinkingOf, RequestedOf, UsageOf, WellNumbered, AllPaired;
    var e := [ToolInvocations(invocations)];
    FoldAppend(t, attempt, e);
    StreamAccumulates(t, attempt);
    var u := Fold(t, attempt);
    assert Fold(u, e) == Fold(OnEvent(u, e[0]), e[1..]);
    NoPrefix(Map(ObservationOf, invocations));
    NoPrefix(TextOf(attempt));
    assert Map(CallOf, invocations) != [];
  }

  // ---- What the steps say -----------------------------------------------------------------------------------------

  /** The k-th call and the k-th observation of the whole trajectory tell the k-th invocation, field by field. */
  lemma InvocationsAreTold(result: RunResult, events: seq<Event>, k: nat)
    requires k < |Invoked(events)|
    ensures var i, steps := Invoked(events)[k], Trajectory(result, events);
      && k < |AllCalls(steps)| && k < |AllObservations(steps)|
      && AllCalls(steps)[k].callId == i.callId && AllCalls(steps)[k].functionName == i.toolId
      && AllCalls(steps)[k].arguments == i.input
      && AllObservations(steps)[k].sourceCallId == i.callId && AllObservations(steps)[k].content == i.output
      && AllObservations(steps)[k].success == i.success
  {
    hide AllCalls, AllObservations, Trajectory, Invoked;
    Conservation(result, events);
  }

  /** The calls the assistant asked for, in order. */
  function Asked(events: seq<Event>): seq<Request> {
    if events == [] then []
    else (if events[0].ToolCallsRequested? then events[0].requests else []) + Asked(events[1..])
  }

  lemma MapAcross(xs: seq<Request>, ys: seq<Request>)
    ensures Map(RequestOf, xs + ys) == Map(RequestOf, xs) + Map(RequestOf, ys) && Map(RequestOf, []) == []
  {
  }

  /** The k-th requested call tells the k-th one asked for, field by field. */
  lemma {:induction false} RequestsAreTold(events: seq<Event>)
    ensures |RequestedOf(events)| == |Asked(events)|
    ensures forall k | 0 <= k < |Asked(events)| ::
      RequestedOf(events)[k].functionName == Asked(events)[k].toolId
      && RequestedOf(events)[k].arguments == Asked(events)[k].input
  {
    RequestedIsAsked(events);
    hide RequestedOf, Asked;
  }

  lemma {:induction false} RequestedIsAsked(events: seq<Event>)
    ensures RequestedOf(events) == Map(RequestOf, Asked(events))
  {
    hide Map;
    MapAcross([], []);
    if events != [] {
      RequestedIsAsked(events[1..]);
      MapAcross(if events[0].ToolCallsRequested? then events[0].requests else [], Asked(events[1..]));
    }
  }

  /** What an answer says: the assistant's message, in the words that were streamed when these are the same up to white
      space at the ends; a blank one is replaced by what else happened. */
  function Said(message: string, attempt: seq<Event>): string {
    if Trim(message) != "" then if Trim(TextOf(attempt)) == Trim(message) then TextOf(attempt) else message
    else if RequestedOf(attempt) != [] then "Executed tool calls"
    else if Trim(ThinkingOf(attempt)) != "" then "Reasoned about the task"
    else "Processed benchmark turn"
  }

  /** An attempt that ends in an answer becomes one step that says it, with what was thought, requested and used; it
      leaves no step exactly when the answer is empty and there is nothing else, whatever text was streamed. */
  lemma AnsweredAttemptBecomesStep(t: State, attempt: seq<Event>, message: string)
    requires AllStream(attempt) && t.pending == NOTHING.(retries := t.pending.retries)
    ensures var u := Fold(t, attempt + [AssistantMessage(message)]);
      && u.pending == NOTHING
      && if message == "" && ThinkingOf(attempt) == "" && RequestedOf(attempt) == [] && UsageOf(attempt) == []
            && t.pending.retries == []
         then u.steps == t.steps
         else
           && |u.steps| == |t.steps| + 1 && u.steps[..|t.steps|] == t.steps
           && var last := u.steps[|t.steps|];
           && last.stepId == |t.steps| + 1 && last.source == Agent && last.message == Said(message, attempt)
           && last.toolCalls == [] && last.observations == []
           && last.thinking == ThinkingOf(attempt) && last.requested == RequestedOf(attempt)
           && last.usage == UsageOf(attempt) && last.retries == t.pending.retries
  {
    hide Trim, TextOf, ThinkingOf, RequestedOf, UsageOf;
    var e := [AssistantMessage(message)];
    FoldAppend(t, attempt, e);
    StreamAccumulates(t, attempt);
    var u := Fold(t, attempt);
    assert Fold(u, e) == Fold(OnEvent(u, e[0]), e[1..]);
    NoPrefix(TextOf(attempt));
    NoPrefix(ThinkingOf(attempt));
    NoPrefix(RequestedOf(attempt));
    NoPrefix(UsageOf(attempt));
    BlankIsBlank();
  }

  lemma BlankIsBlank()
    ensures Trim("") == ""
  {
  }

  /** A failure is the last step, after what was pending; it says what went wrong. */
  lemma FailureIsTold(t: State, error: string)
    ensures var u := OnEvent(t, Failure(error));
      && u.pending == NOTHING && t.steps <= u.steps
      && |u.steps| == |t.steps| + (if t.pending == NOTHING then 1 else 2)
      && var last := u.steps[|u.steps| - 1];
         last == TraceStep(|u.steps|, Agent, "Benchmark run failed: " + error, [], [], "", [], [], [])
  {
    hide StepMessage;
  }

  lemma {:induction false} StepsStay(t: State, events: seq<Event>)
    ensures t.steps <= Fold(t, events).steps
    decreases |events|
  {
    hide StepMessage, Map;
    if events != [] { StepsStay(OnEvent(t, events[0]), events[1..]); }
  }

  /** The first step is the user's prompt; when nothing happened the second is the error or the assistant's text. */
  lemma PromptAndFallback(result: RunResult, events: seq<Event>)
    ensures Trajectory(result, events) != []
    ensures Trajectory(result, events)[0] == TraceStep(1, User, result.prompt, [], [], "", [], [], [])
    ensures events == [] ==> Trajectory(result, events)[1..] == [TraceStep(2, Agent,
      if result.error.Some? then "Benchmark run failed: " + result.error.value else result.assistantText,
      [], [], "", [], [], [])]
  {
    var t := Fold(Start(result), events);
    StepsStay(Start(result), events);
    assert events == [] ==> t == Start(result);
    AtLeastOneStep(result, events);
    hide StepMessage, Fold;
    assert Start(result).steps[0] == PlainStep(1, User, result.prompt);
  }
}
