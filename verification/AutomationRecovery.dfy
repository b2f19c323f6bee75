/** What follows a `replace_runtime` that failed its final check (crates/puffer-automation/src/store.rs): which calls
    repair the store, and that the deployer's own next call always does. */
module AutomationRecovery {
  import opened Text
  import opened Wrappers
  import opened AutomationSpec
  import opened AutomationValidation
  import opened AutomationCompiler
  import opened AutomationRuntime
  import opened AutomationStore
  import opened AutomationProtocol

  // ---- One record among valid ones ----------------------------------------------------------------------

  /** Every record but perhaps this one is valid, and ids are distinct. */
  predicate OthersOk(o: Checks, records: seq<Record>, id: string) {
    Distinct(Ids(records)) && forall r | r in records && r.id != id :: RecordOk(o, r)
  }

  predicate OwnOk(o: Checks, records: seq<Record>, id: string) {
    Lookup(records, id).Some? ==> RecordOk(o, Lookup(records, id).value)
  }

  lemma LoadableSplits(o: Checks, records: seq<Record>, id: string)
    ensures Loadable(o, records) <==> OthersOk(o, records, id) && OwnOk(o, records, id)
  {
    hide RecordOk;
    if Distinct(Ids(records)) {
      forall r | r in records && r.id == id ensures Lookup(records, id) == Some(r) { LookupIff(records, r); }
    }
  }

  lemma UpdateKeepsOthers(o: Checks, records: seq<Record>, i: nat, entry: Record, id: string)
    requires OthersOk(o, records, id) && i < |records| && entry.id == records[i].id
    requires entry.id == id || RecordOk(o, entry)
    ensures OthersOk(o, records[i := entry], id)
  {
    hide RecordOk;
    LookupUpdate(records, i, entry, id);
    var next := records[i := entry];
    forall r | r in next && r.id != id ensures RecordOk(o, r) {
      var j :| 0 <= j < |next| && next[j] == r;
      if j != i { assert records[j] in records; }
    }
  }

  /** The record that an operation on this id leaves in place of `e`. */
  function EntryAfter(env: Env, s: State, call: Call, e: Record): Record {
    match call.op
    case SaveSpec(id, _, spec) => if Commits(env, s, call, id) then Saved(env, e, spec) else e
    case SetStatus(_, status) => e.(status := status)
    case ReplaceRuntime(_, expected, runtime) =>
      if expected == e.revision && runtime.compiledRevision == Some(e.revision)
         && runtime.specHash == Some(SpecHash(env.hashing, e.spec)) then e.(runtime := runtime) else e
    case ReplaceRuntimeError(_, expected, message) =>
      if expected == e.revision then e.(runtime := ErrorRuntime(message)) else e
    case _ => e
  }

  predicate OnEntry(op: Op) {
    op.SaveSpec? || op.SetStatus? || op.ReplaceRuntime? || op.ReplaceRuntimeError?
  }

  lemma EntryOpIs(env: Env, s: State, call: Call)
    requires OnEntry(call.op)
    ensures var i := Find(s.records, call.op.id);
      Perform(env, s, call).state.records ==
        if i == |s.records| then s.records else s.records[i := EntryAfter(env, s, call, s.records[i])]
  {
    hide RecordOk, SpecHash;
    var i := Find(s.records, call.op.id);
    if i < |s.records| { assert s.records == s.records[i := s.records[i]]; }
  }

  lemma EntryAfterKeepsId(env: Env, s: State, call: Call, e: Record)
    ensures EntryAfter(env, s, call, e).id == e.id
  {
    hide RecordOk, SpecHash, Commits;
  }

  /** On a valid record only a failing final check does harm. */
  lemma EntryAfterOk(env: Env, s: State, call: Call, e: Record)
    requires OnEntry(call.op) && Lookup(s.records, call.op.id) == Some(e) && RecordOk(env.checks, e)
    ensures RecordOk(env.checks, EntryAfter(env, s, call, e)) <==> !FailsFinalCheck(env, s, call)
  {
    hide RecordOk, SpecHash, RuntimeOk, ReferencesOk;
    match call.op {
      case SaveSpec(_, expected, spec) => EntryEditsOk(env, e, spec, Enabled, "", expected);
      case SetStatus(_, status) => EntryEditsOk(env, e, e.spec, status, "", 1);
      case ReplaceRuntime(_, _, runtime) => RuntimeSwapOk(env, e, runtime);
      case ReplaceRuntimeError(_, _, message) => EntryEditsOk(env, e, e.spec, Enabled, message, 1);
    }
  }

  lemma CreateKeepsOthers(env: Env, s: State, call: Call, id: string)
    requires OthersOk(env.checks, s.records, id) && call.op.Create?
    ensures OthersOk(env.checks, Perform(env, s, call).state.records, id)
  {
    hide RecordOk, SortBy, Ids, Distinct;
    var r := Record(call.op.id, call.op.status, 1, call.op.spec, NO_RUNTIME);
    if RecordOk(env.checks, r) && Find(s.records, r.id) == |s.records| {
      LookupCreate(s.records, r, r.id);
      CreateHolds(s.records, r);
    }
  }

  lemma DeleteKeepsOthers(o: Checks, records: seq<Record>, gone: string, id: string)
    requires OthersOk(o, records, id)
    ensures OthersOk(o, Retain(records, gone), id)
  {
    hide RecordOk, Ids, Distinct, Retain;
    RetainApart(records, gone);
    RetainHolds(records, gone);
  }

  lemma StepKeepsOthers(env: Env, s: State, call: Call, id: string)
    requires OthersOk(env.checks, s.records, id) && (FailsFinalCheck(env, s, call) ==> call.op.id == id)
    ensures OthersOk(env.checks, Perform(env, s, call).state.records, id)
  {
    hide RecordOk, SpecHash, Finish, OthersOk, FailsFinalCheck;
    match call.op {
      case Create(_, _, _) => CreateKeepsOthers(env, s, call, id);
      case Delete(x) => DeleteKeepsOthers(env.checks, s.records, x, id);
      case Reload => LoadableSplits(env.checks, s.file, id);
      case _ => EntryOpKeepsOthers(env, s, call, id);
    }
  }

  lemma EntryOpKeepsOthers(env: Env, s: State, call: Call, id: string)
    requires OthersOk(env.checks, s.records, id) && (FailsFinalCheck(env, s, call) ==> call.op.id == id)
    requires OnEntry(call.op)
    ensures OthersOk(env.checks, Perform(env, s, call).state.records, id)
  {
    hide RecordOk, EntryAfter, Perform, FailsFinalCheck;
    EntryOpIs(env, s, call);
    var i := Find(s.records, call.op.id);
    if i < |s.records| {
      var e := s.records[i];
      assert e in s.records;
      EntryAfterKeepsId(env, s, call, e);
      if e.id != id { EntryAfterOk(env, s, call, e); }
      UpdateKeepsOthers(env.checks, s.records, i, EntryAfter(env, s, call, e), id);
    }
  }

  // ---- Which calls repair the record -----------------------------------------------------------------------

  /** Valid but for its runtime, whose spec hash has the right form. */
  predicate RuntimeBroken(o: Checks, e: Record) {
    && !RecordOk(o, e) && RecordOk(o, e.(runtime := NO_RUNTIME))
    && (e.runtime.specHash.Some? ==> IsHash(e.runtime.specHash.value))
  }

  /** The calls that give the record another runtime, valid this time, or take the record away. */
  predicate Repairs(env: Env, s: State, call: Call, e: Record) {
    match call.op
    case Delete(id) => id == e.id
    case Reload => Loadable(env.checks, s.file)
    case SaveSpec(id, _, _) => id == e.id && Commits(env, s, call, id)
    case ReplaceRuntime(id, expected, runtime) =>
      && id == e.id && expected == e.revision && runtime.compiledRevision == Some(e.revision)
      && runtime.specHash == Some(SpecHash(env.hashing, e.spec))
      && RuntimeOk(runtime) && ReferencesOk(e.spec, runtime)
    case ReplaceRuntimeError(id, expected, _) => id == e.id && expected == e.revision
    case _ => false
  }

  lemma BrokenEdits(env: Env, e: Record, spec: Spec, status: Status, message: string, expected: nat)
    requires RuntimeBroken(env.checks, e)
    ensures !RecordOk(env.checks, e.(status := status)) && RecordOk(env.checks, e.(runtime := ErrorRuntime(message)))
    ensures SpecHash(env.hashing, e.spec) != SpecHash(env.hashing, spec) ==>
      RecordOk(env.checks, Draft(e.id, expected, spec)) ==> RecordOk(env.checks, Saved(env, e, spec))
  {
    hide SpecOk, WorkflowOk, SpecHash;
  }

  lemma BrokenSwap(env: Env, e: Record, runtime: Runtime)
    requires RuntimeBroken(env.checks, e)
    ensures RecordOk(env.checks, e.(runtime := runtime)) <==> RuntimeOk(runtime) && ReferencesOk(e.spec, runtime)
  {
    hide SpecOk, RuntimeOk, ReferencesOk;
  }

  lemma EntryRepaired(env: Env, s: State, call: Call, e: Record)
    requires OnEntry(call.op) && Lookup(s.records, e.id) == Some(e) && call.op.id == e.id
      && RuntimeBroken(env.checks, e)
    ensures RecordOk(env.checks, EntryAfter(env, s, call, e)) <==> Repairs(env, s, call, e)
  {
    hide RecordOk, SpecHash, RuntimeOk, ReferencesOk, Saved;
    match call.op {
      case SaveSpec(_, expected, spec) => BrokenEdits(env, e, spec, Enabled, "", expected);
      case SetStatus(_, status) => BrokenEdits(env, e, e.spec, status, "", 1);
      case ReplaceRuntime(_, _, runtime) => BrokenSwap(env, e, runtime);
      case ReplaceRuntimeError(_, _, message) => BrokenEdits(env, e, e.spec, Enabled, message, 1);
    }
  }

  /** From a state whose one invalid record is `e`, a call makes memory loadable exactly when it repairs `e`. */
  lemma RepairsIff(env: Env, s: State, call: Call, e: Record)
    requires OthersOk(env.checks, s.records, e.id) && Lookup(s.records, e.id) == Some(e) && RuntimeBroken(env.checks, e)
    ensures Loadable(env.checks, Perform(env, s, call).state.records) <==> Repairs(env, s, call, e)
  {
    LoadableSplits(env.checks, Perform(env, s, call).state.records, e.id);
    LoadableSplits(env.checks, s.records, e.id);
    hide RecordOk, SpecHash, RuntimeBroken;
    assert !OwnOk(env.checks, s.records, e.id) by { BrokenIsNotOk(env.checks, e); }
    match call.op {
      case Create(x, spec, status) => CreateRepairsNothing(env, s, call, e);
      case Delete(x) =>
        LookupRetain(s.records, x, e.id);
        RetainHolds(s.records, x);
        if x == e.id { StepKeepsOthers(env, s, call, e.id); }
      case Reload =>
      case _ => EntryOpRepairsIff(env, s, call, e);
    }
  }

  lemma BrokenIsNotOk(o: Checks, e: Record)
    requires RuntimeBroken(o, e)
    ensures !RecordOk(o, e)
  {
  }

  lemma CreateRepairsNothing(env: Env, s: State, call: Call, e: Record)
    requires OthersOk(env.checks, s.records, e.id) && Lookup(s.records, e.id) == Some(e) && !RecordOk(env.checks, e)
    requires call.op.Create?
    ensures !Loadable(env.checks, Perform(env, s, call).state.records)
  {
    hide RecordOk;
    LoadableSplits(env.checks, s.records, e.id);
    var r := Record(call.op.id, call.op.status, 1, call.op.spec, NO_RUNTIME);
    if RecordOk(env.checks, r) && Find(s.records, r.id) == |s.records| {
      LookupCreate(s.records, r, e.id);
      LoadableSplits(env.checks, SortBy(s.records + [r], RecordId), e.id);
    }
  }

  lemma EntryOpRepairsIff(env: Env, s: State, call: Call, e: Record)
    requires OthersOk(env.checks, s.records, e.id) && Lookup(s.records, e.id) == Some(e) && RuntimeBroken(env.checks, e)
    requires OnEntry(call.op)
    ensures Loadable(env.checks, Perform(env, s, call).state.records) <==> Repairs(env, s, call, e)
  {
    hide RecordOk, SpecHash, EntryAfter, Perform, OthersOk, FailsFinalCheck, Commits;
    var after := Perform(env, s, call).state.records;
    EntryOpIs(env, s, call);
    BrokenIsNotOk(env.checks, e);
    LoadableSplits(env.checks, after, e.id);
    LoadableSplits(env.checks, s.records, e.id);
    var i := Find(s.records, call.op.id);
    if i < |s.records| {
      var entry, edited := s.records[i], EntryAfter(env, s, call, s.records[i]);
      EntryAfterKeepsId(env, s, call, entry);
      OthersApart(env.checks, s.records, e.id);
      LookupUpdate(s.records, i, edited, e.id);
      if call.op.id == e.id {
        EntryRepaired(env, s, call, e);
        UpdateKeepsOthers(env.checks, s.records, i, edited, e.id);
      }
    }
  }

  lemma OthersApart(o: Checks, records: seq<Record>, id: string)
    requires OthersOk(o, records, id)
    ensures Distinct(Ids(records))
  {
  }

  lemma FailureBreaksOne(env: Env, s: State, bad: Call) returns (e: Record)
    requires Sound(env.hashing) && Loadable(env.checks, s.records) && FailsFinalCheck(env, s, bad)
    ensures bad.op.ReplaceRuntime?
    ensures var s1 := Perform(env, s, bad).state;
      && OthersOk(env.checks, s1.records, bad.op.id) && Lookup(s1.records, bad.op.id) == Some(e)
      && RuntimeBroken(env.checks, e) && e.revision == bad.op.expected && e.id == bad.op.id
  {
    hide RecordOk, SpecHash, RuntimeOk, ReferencesOk;
    var i := Find(s.records, bad.op.id);
    var before := s.records[i];
    assert before in s.records;
    e := before.(runtime := bad.op.runtime);
    LoadableSplits(env.checks, s.records, bad.op.id);
    StepKeepsOthers(env, s, bad, bad.op.id);
    LookupUpdate(s.records, i, e, bad.op.id);
    RuntimeSwapOk(env, before, bad.op.runtime);
    RuntimeSwapOk(env, before, NO_RUNTIME);
    NoRuntimeOk(before.spec);
    assert IsHash(SpecHash(env.hashing, before.spec));
    assert e.(runtime := NO_RUNTIME) == before.(runtime := NO_RUNTIME);
  }

  /** After a failed final check, the next call makes memory loadable again exactly when it gives the record a valid
      runtime (a good runtime, an error, or a committed spec, which drops the artifacts), deletes it, or reloads. */
  lemma RecoversIff(env: Env, s: State, bad: Call, next: Call)
    requires Sound(env.hashing) && Loadable(env.checks, s.records) && FailsFinalCheck(env, s, bad)
    ensures var s1 := Perform(env, s, bad).state;
      && Lookup(s1.records, bad.op.id).Some?
      && (Loadable(env.checks, Perform(env, s1, next).state.records) <==>
            Repairs(env, s1, next, Lookup(s1.records, bad.op.id).value))
  {
    hide FailsFinalCheck, Perform, Loadable, Repairs, RuntimeBroken;
    var e := FailureBreaksOne(env, s, bad);
    RepairsIff(env, Perform(env, s, bad).state, next, e);
  }

  // ---- The deployer records an error after a failure ---------------------------------------------------------

  /** At worst this record has a broken runtime, and then it is still at this revision. */
  predicate Mendable(env: Env, records: seq<Record>, id: string, revision: nat) {
    && OthersOk(env.checks, records, id)
    && (Lookup(records, id).Some? ==>
          var e := Lookup(records, id).value;
          RecordOk(env.checks, e) || (RuntimeBroken(env.checks, e) && e.revision == revision))
  }

  /** No other record's replacement fails its final check, nor this one's at another revision. */
  predicate NoOtherFailure(env: Env, s: State, calls: seq<Call>, id: string, revision: nat)
    decreases |calls|
  {
    calls == [] ||
    ((FailsFinalCheck(env, s, calls[0]) ==> calls[0].op.id == id && calls[0].op.expected == revision)
     && NoOtherFailure(env, Perform(env, s, calls[0]).state, calls[1..], id, revision))
  }

  /** What an operation makes of a record that is valid, or broken at this revision. */
  lemma EntryStaysMendable(env: Env, s: State, call: Call, e: Record, revision: nat)
    requires Sound(env.hashing) && OnEntry(call.op) && Lookup(s.records, call.op.id) == Some(e) && e.id == call.op.id
    requires RecordOk(env.checks, e) || (RuntimeBroken(env.checks, e) && e.revision == revision)
    requires FailsFinalCheck(env, s, call) ==> call.op.expected == revision
    ensures var after := EntryAfter(env, s, call, e);
      RecordOk(env.checks, after) || (RuntimeBroken(env.checks, after) && after.revision == revision)
  {
    hide SpecHash, RuntimeOk, ReferencesOk, Saved, SpecOk;
    var after := EntryAfter(env, s, call, e);
    if RecordOk(env.checks, e) {
      hide RecordOk;
      EntryAfterOk(env, s, call, e);
      if call.op.ReplaceRuntime? && after.runtime == call.op.runtime {
        RuntimeSwapOk(env, e, NO_RUNTIME);
        NoRuntimeOk(e.spec);
        assert IsHash(SpecHash(env.hashing, e.spec));
        assert after.(runtime := NO_RUNTIME) == e.(runtime := NO_RUNTIME);
      }
    } else {
      if !RecordOk(env.checks, after) { BrokenStays(env, s, call, e); }
    }
  }

  lemma BrokenStays(env: Env, s: State, call: Call, e: Record)
    requires Sound(env.hashing) && OnEntry(call.op) && Lookup(s.records, call.op.id) == Some(e) && e.id == call.op.id
    requires RuntimeBroken(env.checks, e) && !RecordOk(env.checks, EntryAfter(env, s, call, e))
    ensures RuntimeBroken(env.checks, EntryAfter(env, s, call, e)) && EntryAfter(env, s, call, e).revision == e.revision
  {
    hide SpecHash, RuntimeOk, ReferencesOk, SpecOk, Saved;
    EntryRepaired(env, s, call, e);
    var after := EntryAfter(env, s, call, e);
    assert IsHash(SpecHash(env.hashing, e.spec));
    assert call.op.SaveSpec? ==> after == e || Repairs(env, s, call, e);
  }

  lemma StepStaysMendable(env: Env, s: State, call: Call, id: string, revision: nat)
    requires Sound(env.hashing) && Mendable(env, s.records, id, revision)
    requires FailsFinalCheck(env, s, call) ==> call.op.id == id && call.op.expected == revision
    ensures Mendable(env, Perform(env, s, call).state.records, id, revision)
  {
    hide RecordOk, SpecHash, RuntimeBroken, FailsFinalCheck, Sound;
    StepKeepsOthers(env, s, call, id);
    OthersApart(env.checks, s.records, id);
    match call.op {
      case Create(x, spec, status) =>
        var r := Record(x, status, 1, spec, NO_RUNTIME);
        if RecordOk(env.checks, r) && Find(s.records, x) == |s.records| { LookupCreate(s.records, r, id); }
      case Delete(x) => LookupRetain(s.records, x, id);
      case Reload => LoadableSplits(env.checks, s.file, id);
      case _ => EntryOpStaysMendable(env, s, call, id, revision);
    }
  }

  lemma EntryOpStaysMendable(env: Env, s: State, call: Call, id: string, revision: nat)
    requires Sound(env.hashing) && Mendable(env, s.records, id, revision) && OnEntry(call.op)
    requires FailsFinalCheck(env, s, call) ==> call.op.id == id && call.op.expected == revision
    requires OthersOk(env.checks, Perform(env, s, call).state.records, id)
    ensures Mendable(env, Perform(env, s, call).state.records, id, revision)
  {
    hide RecordOk, SpecHash, RuntimeBroken, FailsFinalCheck, Sound, Perform, EntryAfter;
    EntryOpIs(env, s, call);
    OthersApart(env.checks, s.records, id);
    hide OthersOk;
    var i := Find(s.records, call.op.id);
    if i < |s.records| {
      var e := s.records[i];
      EntryAfterKeepsId(env, s, call, e);
      LookupUpdate(s.records, i, EntryAfter(env, s, call, e), id);
      if call.op.id == id { EntryStaysMendable(env, s, call, e, revision); }
    }
  }

  lemma {:induction false} RunStaysMendable(env: Env, s: State, calls: seq<Call>, id: string, revision: nat)
    requires Sound(env.hashing) && Mendable(env, s.records, id, revision) && NoOtherFailure(env, s, calls, id, revision)
    ensures Mendable(env, Run(env, s, calls).records, id, revision)
    decreases |calls|
  {
    hide Mendable, FailsFinalCheck, Perform, Sound;
    if calls != [] {
      StepStaysMendable(env, s, calls[0], id, revision);
      RunStaysMendable(env, Perform(env, s, calls[0]).state, calls[1..], id, revision);
    }
  }

  lemma ErrorMends(env: Env, s: State, id: string, revision: nat, message: string, written: bool)
    requires Mendable(env, s.records, id, revision)
    ensures Loadable(env.checks,
      Perform(env, s, Call(ReplaceRuntimeError(id, revision, message), written)).state.records)
  {
    hide RecordOk, SpecHash, RuntimeBroken;
    var call := Call(ReplaceRuntimeError(id, revision, message), written);
    LoadableSplits(env.checks, s.records, id);
    if Lookup(s.records, id).Some? {
      var e := Lookup(s.records, id).value;
      LookupHasId(s.records, id);
      if RecordOk(env.checks, e) {
        StepLoadableIff(env, s, call);
      } else {
        RepairsIff(env, s, call, e);
      }
    }
  }

  /** After a failed replacement the deployer records an error at the same revision. Whatever other calls come between
      the two, memory is loadable afterwards, and so is the file if that last write went through. */
  lemma DeployerLeavesLoadable(env: Env, s: State, bad: Call, between: seq<Call>, message: string, written: bool)
    requires Sound(env.hashing) && Loadable(env.checks, s.records) && FailsFinalCheck(env, s, bad)
    requires NoOtherFailure(env, Perform(env, s, bad).state, between, bad.op.id, bad.op.expected)
    ensures var s2 := Run(env, Perform(env, s, bad).state, between);
      var end := Perform(env, s2, Call(ReplaceRuntimeError(bad.op.id, bad.op.expected, message), written));
      Loadable(env.checks, end.state.records) && (end.result.Ok? ==> Loadable(env.checks, end.state.file))
  {
    hide FailsFinalCheck, Perform, Loadable, RuntimeBroken, OthersOk, Sound, RecordOk;
    var e := FailureBreaksOne(env, s, bad);
    var s1 := Perform(env, s, bad).state;
    RunStaysMendable(env, s1, between, bad.op.id, bad.op.expected);
    ErrorMends(env, Run(env, s1, between), bad.op.id, bad.op.expected, message, written);
    FileFollowsMemory(env, Run(env, s1, between),
      Call(ReplaceRuntimeError(bad.op.id, bad.op.expected, message), written));
  }
}
