/** The persistent store of automation records (crates/puffer-automation/src/store.rs): records in
    memory, the file they are written to, and the optimistic revision check. */
module AutomationStore {
  import opened Text
  import opened Wrappers
  import opened AutomationSpec
  import opened AutomationValidation
  import opened AutomationCompiler

  datatype Env = Env(hashing: Hashing, checks: Checks)

  datatype Reason = BadRecord | WrongCompiledRevision | WrongSpecHash

  datatype Error =
    | Io
    | Invalid(reason: Reason)
    | NotFound(id: string)
    | Conflict(id: string)
    | RevisionConflict(id: string, expected: nat, found: nat)

  /** What is in memory, and what was last written. */
  datatype State = State(records: seq<Record>, file: seq<Record>)

  const EMPTY: State := State([], [])

  // ---- Looking up, and the parts of the steps ---------------------------------------------

  function RecordId(r: Record): string { r.id }

  function Ids(records: seq<Record>): (ids: seq<string>)
    ensures |ids| == |records| && forall i | 0 <= i < |ids| :: ids[i] == records[i].id
  {
    KeysOf(records, RecordId)
  }

  function Find(records: seq<Record>, id: string): (i: nat)
    ensures i <= |records| && (i < |records| ==> records[i].id == id)
    ensures i == |records| <==> forall j | 0 <= j < |records| :: records[j].id != id
  {
    FindBy(records, RecordId, id, 0)
  }

  function Retain(records: seq<Record>, id: string): (kept: seq<Record>)
    ensures |kept| <= |records|
  {
    Dropping(records, RecordId, id)
  }

  predicate HasArtifacts(runtime: Runtime) {
    runtime.workflows != [] || runtime.bindings != []
  }

  function MarkedStale(runtime: Runtime): Runtime {
    runtime.(status := if HasArtifacts(runtime) then Stale else NotCompiled,
             workflows := [], bindings := [], lastError := None)
  }

  /** The record a new spec would be validated in. */
  function Draft(id: string, revision: nat, spec: Spec): Record {
    Record(id, Paused, if revision < 1 then 1 else revision, spec, NO_RUNTIME)
  }

  function Saved(env: Env, entry: Record, spec: Spec): Record {
    if SpecHash(env.hashing, entry.spec) == SpecHash(env.hashing, spec) then entry
    else entry.(revision := entry.revision + 1, spec := spec, runtime := MarkedStale(entry.runtime))
  }

  function ErrorRuntime(message: string): Runtime {
    NO_RUNTIME.(status := Failed, lastError := Some(message))
  }

  predicate Loadable(o: Checks, records: seq<Record>) {
    (forall r | r in records :: RecordOk(o, r)) && Distinct(Ids(records))
  }

  // ---- One call as a step of the state ------------------------------------------------------------

  datatype Op =
    | Create(id: string, spec: Spec, status: Status)
    | SaveSpec(id: string, expected: nat, spec: Spec)
    | SetStatus(id: string, status: Status)
    | Delete(id: string)
    | ReplaceRuntime(id: string, expected: nat, runtime: Runtime)
    | ReplaceRuntimeError(id: string, expected: nat, message: string)
    | Reload

  /** An operation, and whether the write to disk at its end goes through. */
  datatype Call = Call(op: Op, written: bool)

  /** `record` is the record returned, when the operation returns one. */
  datatype Outcome = Outcome(state: State, result: Result<Option<Record>, Error>)

  function Write(records: seq<Record>, file: seq<Record>, written: bool, record: Option<Record>): Outcome {
    if written then Outcome(State(records, records), Ok(record)) else Outcome(State(records, file), Err(Io))
  }

  /** The entry at `i` has been changed in memory; it is validated and the store is written. */
  function Finish(env: Env, s: State, i: nat, entry: Record, written: bool): Outcome
    requires i < |s.records|
  {
    var records := s.records[i := entry];
    if !RecordOk(env.checks, entry) then Outcome(State(records, s.file), Err(Invalid(BadRecord)))
    else Write(records, s.file, written, Some(entry))
  }

  function Perform(env: Env, s: State, call: Call): Outcome {
    match call.op
    case Create(id, spec, status) =>
      var record := Record(id, status, 1, spec, NO_RUNTIME);
      if !RecordOk(env.checks, record) then Outcome(s, Err(Invalid(BadRecord)))
      else if Find(s.records, id) < |s.records| then Outcome(s, Err(Conflict(id)))
      else Write(SortBy(s.records + [record], RecordId), s.file, call.written, Some(record))
    case SaveSpec(id, expected, spec) =>
      if !RecordOk(env.checks, Draft(id, expected, spec)) then Outcome(s, Err(Invalid(BadRecord)))
      else
        var i := Find(s.records, id);
        if i == |s.records| then Outcome(s, Err(NotFound(id)))
        else if expected != s.records[i].revision then
          Outcome(s, Err(RevisionConflict(id, expected, s.records[i].revision)))
        else Finish(env, s, i, Saved(env, s.records[i], spec), call.written)
    case SetStatus(id, status) =>
      var i := Find(s.records, id);
      if i == |s.records| then Outcome(s, Err(NotFound(id)))
      else Finish(env, s, i, s.records[i].(status := status), call.written)
    case Delete(id) =>
      var kept := Retain(s.records, id);
      if |kept| == |s.records| then Outcome(s, Err(NotFound(id)))
      else Write(kept, s.file, call.written, None)
    case ReplaceRuntime(id, expected, runtime) =>
      var i := Find(s.records, id);
      if i == |s.records| then Outcome(s, Err(NotFound(id)))
      else
        var entry := s.records[i];
        if expected != entry.revision then Outcome(s, Err(RevisionConflict(id, expected, entry.revision)))
        else if runtime.compiledRevision != Some(entry.revision) then Outcome(s, Err(Invalid(WrongCompiledRevision)))
        else if runtime.specHash != Some(SpecHash(env.hashing, entry.spec)) then Outcome(s, Err(Invalid(WrongSpecHash)))
        else Finish(env, s, i, entry.(runtime := runtime), call.written)
    case ReplaceRuntimeError(id, expected, message) =>
      var i := Find(s.records, id);
      if i == |s.records| then Outcome(s, Err(NotFound(id)))
      else if expected != s.records[i].revision then
        Outcome(s, Err(RevisionConflict(id, expected, s.records[i].revision)))
      else Finish(env, s, i, s.records[i].(runtime := ErrorRuntime(message)), call.written)
    case Reload =>
      if Loadable(env.checks, s.file) then Outcome(State(s.file, s.file), Ok(None))
      else Outcome(s, Err(Invalid(BadRecord)))
  }

  // ---- The store object --------------------------------------------------------------------------------

  /** The loop of `load`: every record valid, no id twice. */
  method CheckLoaded(o: Checks, records: seq<Record>) returns (r: Result<seq<Record>, Error>)
    ensures r.Ok? <==> Loadable(o, records)
    ensures r.Ok? ==> r.value == records
  {
    hide RecordOk;
    var ids: set<string> := {};
    ghost var all := Ids(records);
    for k := 0 to |records|
      invariant forall j | 0 <= j < k :: RecordOk(o, records[j])
      invariant AllNew(all, 0, {}) <==> AllNew(all, k, ids)
    {
      assert records[k] in records;
      var ok := ValidateRecord(o, records[k]);
      if !ok { return Err(Invalid(BadRecord)); }
      if records[k].id in ids {
        AllNewIsDistinct(all);
        return Err(Conflict(records[k].id));
      }
      ids := ids + {records[k].id};
    }
    AllNewIsDistinct(all);
    r := Ok(records);
  }

  class Store {
    const env: Env
    var records: seq<Record>
    var file: seq<Record>

    ghost function Now(): State
      reads this
    {
      State(records, file)
    }

    constructor (env: Env, loaded: seq<Record>)
      requires Loadable(env.checks, loaded)
      ensures this.env == env && Now() == State(loaded, loaded)
    {
      this.env := env;
      records, file := loaded, loaded;
    }

    method Persist(written: bool) returns (r: Result<(), Error>)
      modifies this`file
      ensures file == if written then records else old(file)
      ensures r == if written then Ok(()) else Err(Io)
    {
      if !written { return Err(Io); }
      file := records;
      r := Ok(());
    }

    method ValidateAndPersist(i: nat, written: bool) returns (r: Result<Option<Record>, Error>)
      requires i < |records|
      modifies this`file
      ensures Outcome(Now(), r) == Finish(env, old(Now()), i, records[i], written)
    {
      assert records == records[i := records[i]];
      var ok := ValidateRecord(env.checks, records[i]);
      if !ok { return Err(Invalid(BadRecord)); }
      var w := Persist(written);
      if w.Err? { return Err(w.error); }
      r := Ok(Some(records[i]));
    }

    method CreateRecord(id: string, spec: Spec, status: Status, written: bool)
      returns (r: Result<Option<Record>, Error>)
      modifies this
      ensures Outcome(Now(), r) == Perform(env, old(Now()), Call(Create(id, spec, status), written))
    {
      hide RecordOk;
      var record := Record(id, status, 1, spec, NO_RUNTIME);
      var ok := ValidateRecord(env.checks, record);
      if !ok { return Err(Invalid(BadRecord)); }
      if Find(records, id) < |records| { return Err(Conflict(id)); }
      records := records + [record];
      records := SortBy(records, RecordId);
      var w := Persist(written);
      if w.Err? { return Err(w.error); }
      r := Ok(Some(record));
    }

    method SaveSpecAt(id: string, expected: nat, spec: Spec, written: bool) returns (r: Result<Option<Record>, Error>)
      modifies this
      ensures Outcome(Now(), r) == Perform(env, old(Now()), Call(SaveSpec(id, expected, spec), written))
    {
      hide RecordOk, SpecHash;
      var ok := ValidateRecord(env.checks, Draft(id, expected, spec));
      if !ok { return Err(Invalid(BadRecord)); }
      var i := Find(records, id);
      if i == |records| { return Err(NotFound(id)); }
      if expected != records[i].revision { return Err(RevisionConflict(id, expected, records[i].revision)); }
      ghost var before := records;
      if SpecHash(env.hashing, records[i].spec) != SpecHash(env.hashing, spec) {
        records := records[i := records[i].(revision := records[i].revision + 1)];
        records := records[i := records[i].(spec := spec)];
        records := records[i := records[i].(runtime := MarkedStale(records[i].runtime))];
      }
      assert records == before[i := Saved(env, before[i], spec)];
      r := ValidateAndPersist(i, written);
    }

    method SetRecordStatus(id: string, status: Status, written: bool) returns (r: Result<Option<Record>, Error>)
      modifies this
      ensures Outcome(Now(), r) == Perform(env, old(Now()), Call(SetStatus(id, status), written))
    {
      var i := Find(records, id);
      if i == |records| { return Err(NotFound(id)); }
      records := records[i := records[i].(status := status)];
      r := ValidateAndPersist(i, written);
    }

    method Archive(id: string, written: bool) returns (r: Result<Option<Record>, Error>)
      modifies this
      ensures Outcome(Now(), r) == Perform(env, old(Now()), Call(SetStatus(id, Archived), written))
    {
      r := SetRecordStatus(id, Archived, written);
    }

    method DeleteRecord(id: string, written: bool) returns (r: Result<Option<Record>, Error>)
      modifies this
      ensures Outcome(Now(), r) == Perform(env, old(Now()), Call(Delete(id), written))
    {
      var before := |records|;
      var kept := Retain(records, id);
      RetainHolds(records, id);
      records := kept;
      if |records| == before { return Err(NotFound(id)); }
      var w := Persist(written);
      if w.Err? { return Err(w.error); }
      r := Ok(None);
    }

    method ReplaceRecordRuntime(id: string, expected: nat, runtime: Runtime, written: bool)
      returns (r: Result<Option<Record>, Error>)
      modifies this
      ensures Outcome(Now(), r) == Perform(env, old(Now()), Call(ReplaceRuntime(id, expected, runtime), written))
    {
      var i := Find(records, id);
      if i == |records| { return Err(NotFound(id)); }
      if expected != records[i].revision { return Err(RevisionConflict(id, expected, records[i].revision)); }
      var expectedHash := SpecHash(env.hashing, records[i].spec);
      if runtime.compiledRevision != Some(records[i].revision) { return Err(Invalid(WrongCompiledRevision)); }
      if runtime.specHash != Some(expectedHash) { return Err(Invalid(WrongSpecHash)); }
      records := records[i := records[i].(runtime := runtime)];
      r := ValidateAndPersist(i, written);
    }

    method RecordRuntimeError(id: string, expected: nat, message: string, written: bool)
      returns (r: Result<Option<Record>, Error>)
      modifies this
      ensures Outcome(Now(), r) == Perform(env, old(Now()), Call(ReplaceRuntimeError(id, expected, message), written))
    {
      var i := Find(records, id);
      if i == |records| { return Err(NotFound(id)); }
      if expected != records[i].revision { return Err(RevisionConflict(id, expected, records[i].revision)); }
      records := records[i := records[i].(runtime := ErrorRuntime(message))];
      r := ValidateAndPersist(i, written);
    }
  }

  lemma RetainHolds(records: seq<Record>, id: string)
    ensures forall r :: r in Retain(records, id) <==> r in records && r.id != id
    ensures |Retain(records, id)| == |records| ==> Retain(records, id) == records
  {
    DroppingHolds(records, RecordId, id);
  }

  function Run(env: Env, s: State, calls: seq<Call>): State
    decreases |calls|
  {
    if calls == [] then s else Run(env, Perform(env, s, calls[0]).state, calls[1..])
  }

  // ---- Artifacts never outlive the spec they came from -----------------------------------------------------

  /** Artifacts, or a status that claims them, mean: compiled at this revision, from this spec. */
  predicate Fresh(env: Env, r: Record) {
    HasArtifacts(r.runtime) || r.runtime.status == Deployed || r.runtime.status == DraftSynced ==>
      r.runtime.compiledRevision == Some(r.revision) && r.runtime.specHash == Some(SpecHash(env.hashing, r.spec))
  }

  predicate AllFresh(env: Env, records: seq<Record>) {
    forall r | r in records :: Fresh(env, r)
  }

  predicate StateFresh(env: Env, s: State) {
    AllFresh(env, s.records) && AllFresh(env, s.file)
  }

  lemma FinishKeepsFresh(env: Env, s: State, i: nat, entry: Record, written: bool)
    requires StateFresh(env, s) && i < |s.records| && Fresh(env, entry)
    ensures StateFresh(env, Finish(env, s, i, entry, written).state)
  {
    assert AllFresh(env, s.records[i := entry]);
  }

  lemma EntryIsFresh(env: Env, s: State, id: string) returns (i: nat)
    requires StateFresh(env, s)
    ensures i == Find(s.records, id) && (i < |s.records| ==> Fresh(env, s.records[i]))
  {
    i := Find(s.records, id);
    if i < |s.records| { assert s.records[i] in s.records; }
  }

  lemma SortHolds(records: seq<Record>, r: Record)
    ensures r in SortBy(records, RecordId) <==> r in records
  {
    InMultiset(SortBy(records, RecordId), records);
  }

  lemma CreateKeepsFresh(env: Env, s: State, call: Call)
    requires StateFresh(env, s) && call.op.Create?
    ensures StateFresh(env, Perform(env, s, call).state)
  {
    var all := s.records + [Record(call.op.id, call.op.status, 1, call.op.spec, NO_RUNTIME)];
    forall r | r in SortBy(all, RecordId) ensures Fresh(env, r) { SortHolds(all, r); }
  }

  lemma ReplaceKeepsFresh(env: Env, s: State, call: Call)
    requires StateFresh(env, s) && call.op.ReplaceRuntime?
    ensures StateFresh(env, Perform(env, s, call).state)
  {
    var i := EntryIsFresh(env, s, call.op.id);
    if i < |s.records| && Fresh(env, s.records[i].(runtime := call.op.runtime)) {
      FinishKeepsFresh(env, s, i, s.records[i].(runtime := call.op.runtime), call.written);
    }
  }

  lemma EditKeepsFresh(env: Env, s: State, call: Call)
    requires StateFresh(env, s) && (call.op.SaveSpec? || call.op.SetStatus? || call.op.ReplaceRuntimeError?)
    ensures StateFresh(env, Perform(env, s, call).state)
  {
    var i := EntryIsFresh(env, s, call.op.id);
    if i < |s.records| {
      var entry := s.records[i];
      var edited := match call.op
        case SaveSpec(_, _, spec) => Saved(env, entry, spec)
        case SetStatus(_, status) => entry.(status := status)
        case ReplaceRuntimeError(_, _, message) => entry.(runtime := ErrorRuntime(message));
      FinishKeepsFresh(env, s, i, edited, call.written);
    }
  }

  lemma StepKeepsFresh(env: Env, s: State, call: Call)
    requires StateFresh(env, s)
    ensures StateFresh(env, Perform(env, s, call).state)
  {
    match call.op {
      case Create(_, _, _) => CreateKeepsFresh(env, s, call);
      case Delete(id) => RetainHolds(s.records, id);
      case Reload =>
      case ReplaceRuntime(_, _, _) => ReplaceKeepsFresh(env, s, call);
      case _ => EditKeepsFresh(env, s, call);
    }
  }

  lemma {:induction false} RunKeepsFresh(env: Env, s: State, calls: seq<Call>)
    requires StateFresh(env, s)
    ensures StateFresh(env, Run(env, s, calls))
    decreases |calls|
  {
    if calls != [] {
      StepKeepsFresh(env, s, calls[0]);
      RunKeepsFresh(env, Perform(env, s, calls[0]).state, calls[1..]);
    }
  }

  /** In every state reachable from an empty store, failed calls, failed writes and reloads included,
      no record carries artifacts of another revision or another spec. */
  lemma ArtifactsMatchSpec(env: Env, calls: seq<Call>)
    ensures AllFresh(env, Run(env, EMPTY, calls).records) && AllFresh(env, Run(env, EMPTY, calls).file)
  {
    RunKeepsFresh(env, EMPTY, calls);
  }
}
