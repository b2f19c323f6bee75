/** What each call on the automation store leaves of a record, field by field
    (crates/puffer-automation/src/store.rs). */
module AutomationEffects {
  import opened Text
  import opened Wrappers
  import opened AutomationSpec
  import opened AutomationValidation
  import opened AutomationCompiler
  import opened AutomationStore
  import opened AutomationProtocol

  function After(env: Env, s: State, call: Call, id: string): Option<Record> {
    Lookup(Perform(env, s, call).state.records, id)
  }

  // ---- Saving a spec --------------------------------------------------------------------------------

  /** A save that commits a new spec, whether or not its write goes through: one revision more, the new spec, the old
      status; the artifacts and the error are gone, what they were compiled from is still told, and the runtime is stale
      exactly when there were artifacts. */
  lemma CommittedSaveLeaves(env: Env, s: State, save: Call, id: string)
    requires Distinct(Ids(s.records)) && Commits(env, s, save, id)
    ensures After(env, s, save, id).Some?
    ensures var before, after := Lookup(s.records, id).value, After(env, s, save, id).value;
      && after.id == id && after.status == before.status
      && after.revision == before.revision + 1 && after.spec == save.op.spec
      && after.runtime.workflows == [] && after.runtime.bindings == [] && after.runtime.lastError.None?
      && after.runtime.specHash == before.runtime.specHash
      && after.runtime.compiledRevision == before.runtime.compiledRevision
      && (after.runtime.status == Stale <==> before.runtime.workflows != [] || before.runtime.bindings != [])
      && (after.runtime.status == NotCompiled <==> before.runtime.workflows == [] && before.runtime.bindings == [])
  {
    hide RecordOk, SpecHash;
    var i := Find(s.records, id);
    LookupUpdate(s.records, i, Saved(env, s.records[i], save.op.spec), id);
  }

  /** A save that does not commit leaves every record as it was. */
  lemma OtherSaveLeaves(env: Env, s: State, save: Call)
    requires save.op.SaveSpec? && !Commits(env, s, save, save.op.id)
    ensures Perform(env, s, save).state.records == s.records
  {
    hide RecordOk, SpecHash;
  }

  // ---- Every call, on the records it does not name ------------------------------------------------------

  /** A call other than a reload leaves every record under another id as it was, with all its fields. */
  lemma OthersUntouched(env: Env, s: State, call: Call, id: string)
    requires Distinct(Ids(s.records)) && !call.op.Reload? && call.op.id != id
    ensures After(env, s, call, id) == Lookup(s.records, id)
  {
    hide RecordOk, SpecHash, Lookup;
    match call.op {
      case Create(other, spec, status) =>
        var r := Record(other, status, 1, spec, NO_RUNTIME);
        if RecordOk(env.checks, r) && Find(s.records, other) == |s.records| {
          NotFoundIsNone(s.records, other);
          LookupCreate(s.records, r, id);
        }
      case Delete(other) => LookupRetain(s.records, other, id);
      case Reload => assert false;
      case _ => EditsUntouched(env, s, call, id);
    }
  }

  lemma EditsUntouched(env: Env, s: State, call: Call, id: string)
    requires call.op.SaveSpec? || call.op.SetStatus? || call.op.ReplaceRuntime? || call.op.ReplaceRuntimeError?
    requires Distinct(Ids(s.records)) && call.op.id != id
    ensures After(env, s, call, id) == Lookup(s.records, id)
  {
    hide RecordOk, SpecHash, Lookup, Perform;
    var i, edited := EntryChange(env, s, call);
    if i < |s.records| { LookupUpdate(s.records, i, edited, id); }
  }

  lemma NotFoundIsNone(records: seq<Record>, id: string)
    ensures Lookup(records, id).None? <==> Find(records, id) == |records|
  {
  }

  // ---- The other calls, on the record they name -----------------------------------------------------------

  /** A new record: revision 1 and nothing compiled; it is refused exactly when it is not valid or its id is taken. */
  lemma CreateLeaves(env: Env, s: State, call: Call)
    requires Distinct(Ids(s.records)) && call.op.Create?
    ensures var id := call.op.id;
      var record := Record(id, call.op.status, 1, call.op.spec, Runtime(None, None, NotCompiled, [], [], None));
      if RecordOk(env.checks, record) && Lookup(s.records, id).None? then After(env, s, call, id) == Some(record)
      else Perform(env, s, call).result.Err? && Perform(env, s, call).state == s
  {
    hide RecordOk, Lookup;
    var record := Record(call.op.id, call.op.status, 1, call.op.spec, NO_RUNTIME);
    NotFoundIsNone(s.records, call.op.id);
    if RecordOk(env.checks, record) && Lookup(s.records, call.op.id).None? {
      LookupCreate(s.records, record, call.op.id);
    }
  }

  /** A status change changes the status and nothing else. */
  lemma StatusLeaves(env: Env, s: State, call: Call)
    requires Distinct(Ids(s.records)) && call.op.SetStatus? && Lookup(s.records, call.op.id).Some?
    ensures var before, after := Lookup(s.records, call.op.id).value, After(env, s, call, call.op.id);
      && after.Some? && after.value.status == call.op.status
      && after.value.id == before.id && after.value.revision == before.revision
      && after.value.spec == before.spec && after.value.runtime == before.runtime
  {
    hide RecordOk;
    var i := Find(s.records, call.op.id);
    LookupUpdate(s.records, i, s.records[i].(status := call.op.status), call.op.id);
  }

  /** A replacement puts the given runtime there when the revision, the compiled revision and the hash are the current
      ones, even if it then fails; otherwise nothing changes. */
  lemma ReplacementLeaves(env: Env, s: State, call: Call)
    requires Distinct(Ids(s.records)) && call.op.ReplaceRuntime? && Lookup(s.records, call.op.id).Some?
    ensures var before, after := Lookup(s.records, call.op.id).value, After(env, s, call, call.op.id);
      var runtime := call.op.runtime;
      if call.op.expected == before.revision && runtime.compiledRevision == Some(before.revision)
         && runtime.specHash == Some(SpecHash(env.hashing, before.spec)) then
        && after.Some? && after.value.runtime == runtime
        && after.value.id == before.id && after.value.revision == before.revision
        && after.value.spec == before.spec && after.value.status == before.status
      else Perform(env, s, call).result.Err? && Perform(env, s, call).state == s
  {
    hide RecordOk, SpecHash;
    var i := Find(s.records, call.op.id);
    LookupUpdate(s.records, i, s.records[i].(runtime := call.op.runtime), call.op.id);
  }

  /** A recorded error leaves a failed runtime with the message and nothing else, when the revision is the current
      one. */
  lemma ErrorLeaves(env: Env, s: State, call: Call)
    requires Distinct(Ids(s.records)) && call.op.ReplaceRuntimeError? && Lookup(s.records, call.op.id).Some?
    ensures var before, after := Lookup(s.records, call.op.id).value, After(env, s, call, call.op.id);
      if call.op.expected == before.revision then
        && after.Some? && after.value.runtime == Runtime(None, None, Failed, [], [], Some(call.op.message))
        && after.value.id == before.id && after.value.revision == before.revision
        && after.value.spec == before.spec && after.value.status == before.status
      else Perform(env, s, call).result.Err? && Perform(env, s, call).state == s
  {
    hide RecordOk;
    var i := Find(s.records, call.op.id);
    LookupUpdate(s.records, i, s.records[i].(runtime := ErrorRuntime(call.op.message)), call.op.id);
  }

  /** A deletion takes the record away; one that is missing is reported. */
  lemma DeletionLeaves(env: Env, s: State, call: Call)
    requires Distinct(Ids(s.records)) && call.op.Delete?
    ensures After(env, s, call, call.op.id).None?
    ensures Lookup(s.records, call.op.id).None? ==>
      Perform(env, s, call).result == Err(NotFound(call.op.id)) && Perform(env, s, call).state.records == s.records
  {
    var id := call.op.id;
    LookupRetain(s.records, id, id);
    NotFoundIsNone(s.records, id);
    RetainHolds(s.records, id);
    if Lookup(s.records, id).None? { NothingDropped(s.records, id); }
  }

  lemma {:induction false} NothingDropped(records: seq<Record>, id: string)
    requires forall j | 0 <= j < |records| :: records[j].id != id
    ensures Retain(records, id) == records
  {
    if records != [] { NothingDropped(records[1..], id); }
  }

  /** The record a call returns is the one that is stored. */
  lemma ResultIsStored(env: Env, s: State, call: Call)
    requires Distinct(Ids(s.records)) && Perform(env, s, call).result.Ok? && Perform(env, s, call).result.value.Some?
    ensures !call.op.Reload? && After(env, s, call, call.op.id) == Perform(env, s, call).result.value
  {
    hide RecordOk, SpecHash;
    var record, id := Perform(env, s, call).result.value.value, call.op.id;
    if call.op.Create? {
      NotFoundIsNone(s.records, id);
      LookupCreate(s.records, record, id);
    } else {
      LookupUpdate(s.records, Find(s.records, id), record, id);
    }
  }

  // ---- Which error a call reports ------------------------------------------------------------------------------

  /** In a loadable store a save is refused for an invalid draft, else for a missing record, else for a revision that is
      not the current one, and else fails only with its write. */
  lemma SaveReports(env: Env, s: State, id: string, expected: nat, spec: Spec, written: bool)
    requires Loadable(env.checks, s.records)
    ensures var found := Lookup(s.records, id);
      var result := Perform(env, s, Call(SaveSpec(id, expected, spec), written)).result;
      if !RecordOk(env.checks, Draft(id, expected, spec)) then result == Err(Invalid(BadRecord))
      else if found.None? then result == Err(NotFound(id))
      else if found.value.revision != expected then result == Err(RevisionConflict(id, expected, found.value.revision))
      else if !written then result == Err(Io)
      else result.Ok?
  {
    SecondValidationNeverFails(env, s, id, expected, spec, written);
    NotFoundIsNone(s.records, id);
    hide RecordOk, SpecHash;
  }

  /** A replacement is refused for a missing record, a revision that is not the current one, then for a runtime compiled
      at another revision, from another spec, or not valid, and else fails only with its write. */
  lemma ReplacementReports(env: Env, s: State, id: string, expected: nat, runtime: Runtime, written: bool)
    requires Loadable(env.checks, s.records)
    ensures var found := Lookup(s.records, id);
      var result := Perform(env, s, Call(ReplaceRuntime(id, expected, runtime), written)).result;
      if found.None? then result == Err(NotFound(id))
      else if found.value.revision != expected then result == Err(RevisionConflict(id, expected, found.value.revision))
      else if runtime.compiledRevision != Some(expected) then result == Err(Invalid(WrongCompiledRevision))
      else if runtime.specHash != Some(SpecHash(env.hashing, found.value.spec)) then
        result == Err(Invalid(WrongSpecHash))
      else if !(RuntimeOk(runtime) && ReferencesOk(found.value.spec, runtime)) then result == Err(Invalid(BadRecord))
      else if !written then result == Err(Io)
      else result.Ok?
  {
    NotFoundIsNone(s.records, id);
    var i := Find(s.records, id);
    if i < |s.records| {
      assert s.records[i] in s.records;
      RuntimeSwapOk(env, s.records[i], runtime);
    }
    hide RecordOk, SpecHash, RuntimeOk, ReferencesOk;
  }
}
