/** What holds over whole runs of the automation store: persistence, revisions, and the optimistic
    protocol between the editor, who saves specs, and the deployer, who replaces runtimes
    (crates/puffer-automation/src/store.rs). */
module AutomationProtocol {
  import opened Text
  import opened Wrappers
  import CanonicalJson
  import opened AutomationSpec
  import opened AutomationValidation
  import opened AutomationCompiler
  import opened AutomationRuntime
  import opened AutomationStore

  // ---- Looking up one record ----------------------------------------------------------------

  function Lookup(records: seq<Record>, id: string): Option<Record> {
    var i := Find(records, id);
    if i < |records| then Some(records[i]) else None
  }

  lemma LookupIff(records: seq<Record>, r: Record)
    requires Distinct(Ids(records))
    ensures Lookup(records, r.id) == Some(r) <==> r in records
  {
    if r in records {
      var j :| 0 <= j < |records| && records[j] == r;
      var i := Find(records, r.id);
      assert Ids(records)[i] == Ids(records)[j];
    }
  }

  lemma LookupByMembers(xs: seq<Record>, ys: seq<Record>, id: string)
    requires Distinct(Ids(xs)) && Distinct(Ids(ys)) && forall r: Record | r.id == id :: r in xs <==> r in ys
    ensures Lookup(xs, id) == Lookup(ys, id)
  {
    var i, j := Find(xs, id), Find(ys, id);
    if i < |xs| { assert xs[i] in xs; LookupIff(ys, xs[i]); }
    if j < |ys| { assert ys[j] in ys; LookupIff(xs, ys[j]); }
  }

  lemma LookupUpdate(records: seq<Record>, i: nat, entry: Record, id: string)
    requires Distinct(Ids(records)) && i < |records| && entry.id == records[i].id
    ensures Distinct(Ids(records[i := entry]))
    ensures Lookup(records[i := entry], id) == if id == entry.id then Some(entry) else Lookup(records, id)
  {
    var next := records[i := entry];
    assert Ids(next) == Ids(records);
    var k, l := Find(next, id), Find(records, id);
    assert k < |next| ==> Ids(next)[k] == id;
    assert l < |records| ==> Ids(records)[l] == id;
    assert Ids(records)[i] == entry.id;
    if k < |next| { assert records[k].id == id; }
    if l < |records| { assert next[l].id == id; }
    if id == entry.id { assert next[i].id == id; }
  }

  lemma LookupCreate(records: seq<Record>, r: Record, id: string)
    requires Distinct(Ids(records)) && Lookup(records, r.id).None?
    ensures var next := SortBy(records + [r], RecordId);
      && Distinct(Ids(next)) && Lookup(next, id) == (if id == r.id then Some(r) else Lookup(records, id))
  {
    var all := records + [r];
    var next := SortBy(all, RecordId);
    NewLastKeepsDistinct(records, r, RecordId);
    SortKeepsDistinct(all, RecordId);
    InMultiset(next, all);
    assert forall x :: x in all <==> x in records || x == r;
    if id == r.id { LookupIff(next, r); } else { LookupByMembers(next, records, id); }
  }

  lemma RetainApart(records: seq<Record>, gone: string)
    requires Distinct(Ids(records))
    ensures Distinct(Ids(Retain(records, gone)))
  {
    DroppingKeepsDistinct(records, RecordId, gone);
  }

  lemma LookupRetain(records: seq<Record>, gone: string, id: string)
    requires Distinct(Ids(records))
    ensures Lookup(Retain(records, gone), id) == if id == gone then None else Lookup(records, id)
  {
    var kept := Retain(records, gone);
    RetainApart(records, gone);
    RetainHolds(records, gone);
    if id == gone {
      assert forall j | 0 <= j < |kept| :: kept[j] in kept;
    } else {
      LookupByMembers(kept, records, id);
    }
  }

  // ---- One step, seen from one record -------------------------------------------------------------

  /** The call is a save that changes the spec of this record: it passes every check and the hash differs. */
  predicate Commits(env: Env, s: State, call: Call, id: string) {
    && call.op.SaveSpec? && call.op.id == id
    && RecordOk(env.checks, Draft(id, call.op.expected, call.op.spec))
    && Lookup(s.records, id).Some?
    && Lookup(s.records, id).value.revision == call.op.expected
    && SpecHash(env.hashing, Lookup(s.records, id).value.spec) != SpecHash(env.hashing, call.op.spec)
  }

  /** The record outlives the call: it is neither deleted nor replaced by what is on disk. */
  predicate Survives(call: Call, id: string) {
    call.op != Delete(id) && !call.op.Reload?
  }

  /** What the call makes of a record with this id: the spec and the revision go together. */
  ghost predicate Moves(env: Env, s: State, call: Call, id: string)
    requires Lookup(s.records, id).Some?
  {
    var before, after := Lookup(s.records, id).value, Lookup(Perform(env, s, call).state.records, id);
    && Distinct(Ids(Perform(env, s, call).state.records))
    && after.Some? && after.value.id == id
    && after.value.revision == before.revision + (if Commits(env, s, call, id) then 1 else 0)
    && after.value.spec == (if Commits(env, s, call, id) then call.op.spec else before.spec)
  }

  lemma CreateMoves(env: Env, s: State, call: Call, id: string)
    requires Distinct(Ids(s.records)) && Lookup(s.records, id).Some? && call.op.Create?
    ensures Moves(env, s, call, id)
  {
    hide RecordOk, SpecHash, Ids, Distinct, SortBy;
    var r := Record(call.op.id, call.op.status, 1, call.op.spec, NO_RUNTIME);
    if Find(s.records, call.op.id) == |s.records| { LookupCreate(s.records, r, id); }
  }

  /** An operation on one entry leaves the records alone or changes that entry, keeping its id. */
  lemma EntryChange(env: Env, s: State, call: Call) returns (i: nat, edited: Record)
    requires call.op.SaveSpec? || call.op.SetStatus? || call.op.ReplaceRuntime? || call.op.ReplaceRuntimeError?
    ensures i == Find(s.records, call.op.id)
    ensures i == |s.records| ==> Perform(env, s, call).state.records == s.records
    ensures i < |s.records| ==> Perform(env, s, call).state.records == s.records[i := edited] && edited.id == call.op.id
    ensures i < |s.records| && Commits(env, s, call, call.op.id) ==>
      edited.revision == s.records[i].revision + 1 && edited.spec == call.op.spec
    ensures i < |s.records| && !Commits(env, s, call, call.op.id) ==>
      edited.revision == s.records[i].revision && edited.spec == s.records[i].spec
  {
    hide RecordOk, SpecHash;
    i := Find(s.records, call.op.id);
    edited := Record(call.op.id, Enabled, 0, Spec(0, "", None, Blank, "", Local, [], Flow([]), false), NO_RUNTIME);
    if i < |s.records| {
      edited := Perform(env, s, call).state.records[i];
      assert s.records == s.records[i := s.records[i]];
    }
  }

  lemma EditMoves(env: Env, s: State, call: Call, id: string)
    requires Distinct(Ids(s.records)) && Lookup(s.records, id).Some?
    requires call.op.SaveSpec? || call.op.SetStatus? || call.op.ReplaceRuntime? || call.op.ReplaceRuntimeError?
    ensures Moves(env, s, call, id)
  {
    hide RecordOk, SpecHash, Perform;
    var i, edited := EntryChange(env, s, call);
    LookupHasId(s.records, id);
    if i < |s.records| { LookupUpdate(s.records, i, edited, id); }
  }

  /** A call that a record survives leaves its spec and revision alone, unless it commits a new spec;
      then the revision goes up by one. */
  lemma StepRevision(env: Env, s: State, call: Call, id: string)
    requires Distinct(Ids(s.records)) && Lookup(s.records, id).Some? && Survives(call, id)
    ensures Moves(env, s, call, id)
  {
    hide RecordOk, SpecHash;
    match call.op {
      case Create(_, _, _) => CreateMoves(env, s, call, id);
      case Delete(other) =>
        RetainApart(s.records, other);
        LookupRetain(s.records, other, id);
      case _ => EditMoves(env, s, call, id);
    }
  }

  // ---- Runs, seen from one record: an incarnation ----------------------------------------------------

  /** The number of calls of the run that commit a new spec to the record. */
  function CommitCount(env: Env, s: State, calls: seq<Call>, id: string): nat
    decreases |calls|
  {
    if calls == [] then 0
    else
      var later := CommitCount(env, Perform(env, s, calls[0]).state, calls[1..], id);
      if Commits(env, s, calls[0], id) then 1 + later else later
  }

  predicate SameLife(calls: seq<Call>, id: string) {
    forall c | c in calls :: Survives(c, id)
  }

  lemma {:induction false} RunRevision(env: Env, s: State, calls: seq<Call>, id: string)
    requires Distinct(Ids(s.records)) && Lookup(s.records, id).Some? && SameLife(calls, id)
    ensures var before, after := Lookup(s.records, id).value, Lookup(Run(env, s, calls).records, id);
      && Distinct(Ids(Run(env, s, calls).records))
      && after.Some? && after.value.id == id
      && after.value.revision == before.revision + CommitCount(env, s, calls, id)
      && (CommitCount(env, s, calls, id) == 0 ==> after.value.spec == before.spec)
    decreases |calls|
  {
    hide Commits, Perform, Lookup;
    if calls == [] {
      LookupHasId(s.records, id);
    } else {
      assert calls[0] in calls;
      StepRevision(env, s, calls[0], id);
      RunRevision(env, Perform(env, s, calls[0]).state, calls[1..], id);
    }
  }

  lemma LookupHasId(records: seq<Record>, id: string)
    requires Lookup(records, id).Some?
    ensures Lookup(records, id).value.id == id
  {
  }

  /** Within one incarnation the revision is one plus the number of committed spec changes. */
  lemma RevisionCountsCommits(env: Env, s: State, create: Call, calls: seq<Call>)
    requires Distinct(Ids(s.records)) && create.op.Create?
    requires Perform(env, s, create).result.Ok? && SameLife(calls, create.op.id)
    ensures var s1 := Perform(env, s, create).state;
      && Lookup(Run(env, s1, calls).records, create.op.id).Some?
      && Lookup(Run(env, s1, calls).records, create.op.id).value.revision ==
        1 + CommitCount(env, s1, calls, create.op.id)
  {
    hide RecordOk;
    var id := create.op.id;
    LookupCreate(s.records, Record(id, create.op.status, 1, create.op.spec, NO_RUNTIME), id);
    RunRevision(env, Perform(env, s, create).state, calls, id);
  }

  /** Of two saves with the same expected revision at most one commits, whatever happens between them. */
  lemma NoTwoCommits(env: Env, s: State, first: Call, between: seq<Call>, second: Call, id: string)
    requires Distinct(Ids(s.records)) && SameLife(between, id)
    requires Commits(env, s, first, id) && second.op.SaveSpec? && second.op.expected == first.op.expected
    ensures !Commits(env, Run(env, Perform(env, s, first).state, between), second, id)
    ensures second.op.id == id ==> Perform(env, Run(env, Perform(env, s, first).state, between), second).result.Err?
  {
    hide RecordOk, SpecHash;
    StepRevision(env, s, first, id);
    RunRevision(env, Perform(env, s, first).state, between, id);
  }

  // ---- Lost writes and reloads ---------------------------------------------------------------------------

  /** The record is there, with at least this revision. */
  predicate HasReached(records: seq<Record>, id: string, revision: nat) {
    Distinct(Ids(records)) && Lookup(records, id).Some? && Lookup(records, id).value.revision >= revision
  }

  predicate StateReached(s: State, id: string, revision: nat) {
    HasReached(s.records, id, revision) && HasReached(s.file, id, revision)
  }

  lemma StepKeepsReached(env: Env, s: State, call: Call, id: string, revision: nat)
    requires StateReached(s, id, revision) && call.op != Delete(id)
    ensures StateReached(Perform(env, s, call).state, id, revision)
  {
    hide RecordOk, SpecHash, Lookup, Commits;
    if !call.op.Reload? {
      StepRevision(env, s, call, id);
      FileFollowsMemory(env, s, call);
      hide Perform;
      assert HasReached(Perform(env, s, call).state.records, id, revision);
    }
  }

  lemma {:induction false} RunKeepsReached(env: Env, s: State, calls: seq<Call>, id: string, revision: nat)
    requires StateReached(s, id, revision) && forall c | c in calls :: c.op != Delete(id)
    ensures StateReached(Run(env, s, calls), id, revision)
    decreases |calls|
  {
    hide StateReached, Perform;
    if calls != [] {
      assert calls[0] in calls;
      StepKeepsReached(env, s, calls[0], id, revision);
      RunKeepsReached(env, Perform(env, s, calls[0]).state, calls[1..], id, revision);
    }
  }

  /** After a spec-changing save that succeeded, no save with the same expected revision commits, even when later writes
      are lost and the store is reloaded, as long as the record is not deleted. */
  lemma NoCommitAfterSuccess(env: Env, s: State, first: Call, between: seq<Call>, second: Call, id: string)
    requires Distinct(Ids(s.records)) && Commits(env, s, first, id) && Perform(env, s, first).result.Ok?
    requires forall c | c in between :: c.op != Delete(id)
    requires second.op.SaveSpec? && second.op.expected == first.op.expected
    ensures !Commits(env, Run(env, Perform(env, s, first).state, between), second, id)
    ensures second.op.id == id ==> Perform(env, Run(env, Perform(env, s, first).state, between), second).result.Err?
  {
    hide RecordOk, SpecHash;
    StepRevision(env, s, first, id);
    FileFollowsMemory(env, s, first);
    RunKeepsReached(env, Perform(env, s, first).state, between, id, first.op.expected + 1);
  }

  /** Success cannot be dropped: a save whose write was lost is forgotten by a reload, and any save that could commit
      before it can commit again. */
  lemma LostSaveIsForgotten(env: Env, s: State, lost: Call, second: Call, id: string)
    requires s.file == s.records && Loadable(env.checks, s.file)
    requires Commits(env, s, lost, id) && !lost.written && Commits(env, s, second, id)
    ensures Perform(env, s, lost).result.Err?
    ensures var end := Run(env, s, [lost, Call(Reload, true)]);
      end == s && Commits(env, end, second, id)
  {
    hide RecordOk, SpecHash, Loadable;
    TwoSteps(env, s, lost, Call(Reload, true));
  }

  /** Some call of the run succeeds, so writes the file, when the record is past this revision. */
  predicate WritesPast(env: Env, s: State, calls: seq<Call>, id: string, revision: nat)
    decreases |calls|
  {
    calls != [] &&
    var next := Perform(env, s, calls[0]);
    var found := Lookup(next.state.records, id);
    || (next.result.Ok? && found.Some? && found.value.revision > revision)
    || WritesPast(env, next.state, calls[1..], id, revision)
  }

  /** Whatever the run, with failed writes and reloads, the revision on disk moves on exactly when some call succeeds
      while memory is past it. */
  lemma {:induction false} DiskRevisionIff(env: Env, s: State, calls: seq<Call>, id: string, revision: nat)
    requires StateReached(s, id, revision) && Lookup(s.file, id).value.revision == revision
    requires forall c | c in calls :: c.op != Delete(id)
    ensures StateReached(Run(env, s, calls), id, revision)
    ensures Lookup(Run(env, s, calls).file, id).value.revision > revision <==> WritesPast(env, s, calls, id, revision)
    decreases |calls|
  {
    RunKeepsReached(env, s, calls, id, revision);
    if calls != [] {
      assert calls[0] in calls;
      var next := Perform(env, s, calls[0]);
      StepKeepsReached(env, s, calls[0], id, revision);
      FileFollowsMemory(env, s, calls[0]);
      ErrorKeepsFile(env, s, calls[0]);
      hide Perform;
      if next.result.Ok? && Lookup(next.state.records, id).value.revision > revision {
        RunKeepsReached(env, next.state, calls[1..], id, revision + 1);
      } else {
        DiskRevisionIff(env, next.state, calls[1..], id, revision);
      }
    }
  }

  lemma ErrorKeepsFile(env: Env, s: State, call: Call)
    ensures Perform(env, s, call).result.Err? ==> Perform(env, s, call).state.file == s.file
  {
    hide RecordOk, SpecHash, Loadable;
  }

  predicate NoneSucceeds(env: Env, s: State, calls: seq<Call>)
    decreases |calls|
  {
    calls == []
      || (Perform(env, s, calls[0]).result.Err? && NoneSucceeds(env, Perform(env, s, calls[0]).state, calls[1..]))
  }

  lemma {:induction false} NoneSucceedsKeepsFile(env: Env, s: State, calls: seq<Call>)
    requires NoneSucceeds(env, s, calls)
    ensures Run(env, s, calls).file == s.file
    decreases |calls|
  {
    hide Perform;
    if calls != [] {
      ErrorKeepsFile(env, s, calls[0]);
      NoneSucceedsKeepsFile(env, Perform(env, s, calls[0]).state, calls[1..]);
    }
  }

  /** When memory is past the revision and the record lives on, any success writes it. */
  lemma {:induction false} SuccessWritesPast(env: Env, s: State, calls: seq<Call>, id: string, revision: nat)
    requires Distinct(Ids(s.records)) && Lookup(s.records, id).Some? && Lookup(s.records, id).value.revision > revision
    requires SameLife(calls, id)
    ensures WritesPast(env, s, calls, id, revision) <==> !NoneSucceeds(env, s, calls)
    decreases |calls|
  {
    hide Perform, Lookup, Commits;
    if calls != [] {
      assert calls[0] in calls;
      StepRevision(env, s, calls[0], id);
      SuccessWritesPast(env, Perform(env, s, calls[0]).state, calls[1..], id, revision);
    }
  }

  /** A committed save is undone by a reload exactly when its own write was lost and no call up to the reload succeeded,
      not even one on another record. Then the store is back where it was; otherwise the old revision is gone for
      good. */
  lemma LostSaveIff(env: Env, s: State, first: Call, between: seq<Call>, id: string)
    requires s.file == s.records && Loadable(env.checks, s.file)
    requires Commits(env, s, first, id) && SameLife(between, id)
    ensures var s1 := Perform(env, s, first).state;
      var end := Perform(env, Run(env, s1, between), Call(Reload, true)).state;
      var lost := Perform(env, s, first).result.Err? && NoneSucceeds(env, s1, between);
      && Lookup(end.records, id).Some?
      && (Lookup(end.records, id).value.revision == first.op.expected <==> lost)
      && (lost ==> end == s)
  {
    hide RecordOk, SpecHash, Perform, Lookup, SameLife, NoneSucceeds, WritesPast, Ids;
    var s1, e := Perform(env, s, first).state, first.op.expected;
    var s2 := Run(env, s1, between);
    StepRevision(env, s, first, id);
    CommitNeedsRevision(env, s, first, id);
    RunRevision(env, s1, between, id);
    SuccessWritesPast(env, s1, between, id, e);
    FileFollowsMemory(env, s, first);
    ErrorKeepsFile(env, s, first);
    LivesOn(between, id);
    if Perform(env, s, first).result.Ok? {
      RunKeepsReached(env, s1, between, id, e + 1);
    } else {
      DiskRevisionIff(env, s1, between, id, e);
      if NoneSucceeds(env, s1, between) { NoneSucceedsKeepsFile(env, s1, between); }
    }
    ReloadIs(env, s2);
  }

  /** At this revision the record has this spec, in memory and on disk. */
  predicate SpecAt(s: State, id: string, revision: nat, spec: Spec) {
    && Lookup(s.records, id).Some? && Lookup(s.file, id).Some?
    && (Lookup(s.records, id).value.revision == revision ==> Lookup(s.records, id).value.spec == spec)
    && (Lookup(s.file, id).value.revision == revision ==> Lookup(s.file, id).value.spec == spec)
  }

  lemma {:induction false} RunKeepsSpecAt(env: Env, s: State, calls: seq<Call>, id: string, revision: nat, spec: Spec)
    requires StateReached(s, id, revision) && SpecAt(s, id, revision, spec)
    requires forall c | c in calls :: c.op != Delete(id)
    ensures SpecAt(Run(env, s, calls), id, revision, spec)
    decreases |calls|
  {
    if calls != [] {
      assert calls[0] in calls;
      var call, next := calls[0], Perform(env, s, calls[0]).state;
      StepKeepsReached(env, s, call, id, revision);
      FileFollowsMemory(env, s, call);
      if call.op.Reload? { ReloadKeepsFile(env, s, call); } else { StepRevision(env, s, call, id); }
      hide Perform, Commits, Lookup;
      assert SpecAt(next, id, revision, spec);
      RunKeepsSpecAt(env, next, calls[1..], id, revision, spec);
    }
  }

  lemma ReloadKeepsFile(env: Env, s: State, call: Call)
    requires call.op.Reload?
    ensures Perform(env, s, call).state.file == s.file && Perform(env, s, call).state.records in {s.records, s.file}
  {
    hide Loadable;
  }

  /** Two spec-changing saves with the same expected revision, any calls but a deletion between them, other reloads
      included, and a reload that succeeds before the second: both commit exactly when the first was not written by its
      own call nor by a later one, and the second could have gone first. */
  lemma BothCommitIff(env: Env, s: State, first: Call, between: seq<Call>, second: Call, id: string)
    requires s.file == s.records && Distinct(Ids(s.records))
    requires Loadable(env.checks, Run(env, Perform(env, s, first).state, between).file)
    requires Commits(env, s, first, id) && forall c | c in between :: c.op != Delete(id)
    requires second.op.SaveSpec? && second.op.expected == first.op.expected
    ensures var s1 := Perform(env, s, first).state;
      var end := Perform(env, Run(env, s1, between), Call(Reload, true)).state;
      Commits(env, end, second, id) <==>
        && Perform(env, s, first).result.Err? && !WritesPast(env, s1, between, id, first.op.expected)
        && Commits(env, s, second, id)
  {
    hide RecordOk, SpecHash, Perform, Lookup, WritesPast, Loadable, Ids;
    var s1, e := Perform(env, s, first).state, first.op.expected;
    var s2 := Run(env, s1, between);
    var end := Perform(env, s2, Call(Reload, true)).state;
    StepRevision(env, s, first, id);
    CommitNeedsRevision(env, s, first, id);
    FileFollowsMemory(env, s, first);
    ErrorKeepsFile(env, s, first);
    RunKeepsSpecAt(env, s1, between, id, e, Lookup(s.records, id).value.spec);
    if Perform(env, s, first).result.Ok? {
      RunKeepsReached(env, s1, between, id, e + 1);
    } else {
      DiskRevisionIff(env, s1, between, id, e);
    }
    ReloadIs(env, s2);
  }

  lemma CommitNeedsRevision(env: Env, s: State, call: Call, id: string)
    requires Commits(env, s, call, id)
    ensures Lookup(s.records, id).Some? && Lookup(s.records, id).value.revision == call.op.expected
      && Survives(call, id)
  {
    hide RecordOk, SpecHash;
  }

  lemma LivesOn(calls: seq<Call>, id: string)
    requires SameLife(calls, id)
    ensures forall c | c in calls :: c.op != Delete(id)
  {
  }

  lemma ReloadIs(env: Env, s: State)
    ensures Perform(env, s, Call(Reload, true)).state ==
      if Loadable(env.checks, s.file) then State(s.file, s.file) else s
  {
    hide Loadable;
  }

  // ---- The deployer ----------------------------------------------------------------------------------------

  /** What the workflow runtime can answer: one trimmed, non-empty id for each workflow of the plan. */
  predicate AreIdsFor(plan: Plan, ids: seq<string>) {
    |ids| == |plan.workflows| && forall x | x in ids :: x != "" && IsTrimmed(x)
  }

  /** What is built from a valid snapshot is accepted later exactly when no spec change has been committed
      since, every workflow id is URL-safe and, for a live deployment, the connection trigger ids are in kebab case. */
  lemma DeployAcceptedIff(env: Env, s: State, id: string, calls: seq<Call>, live: bool, ids: seq<string>)
    requires Sound(env.hashing) && Distinct(Ids(s.records)) && SameLife(calls, id)
    requires Lookup(s.records, id).Some? && RecordOk(env.checks, Lookup(s.records, id).value)
    requires Compile(env.hashing, Lookup(s.records, id).value).Ok?
    requires AreIdsFor(Compile(env.hashing, Lookup(s.records, id).value).value, ids)
    ensures var snapshot := Lookup(s.records, id).value;
      var plan := Compile(env.hashing, snapshot).value;
      var deploy := Call(ReplaceRuntime(id, plan.revision, RuntimeOf(plan, live, ids)), true);
      Perform(env, Run(env, s, calls), deploy).result.Ok? <==> (
        && CommitCount(env, s, calls, id) == 0
        && (forall x | x in ids :: UrlSafe(x))
        && (live ==> KebabTriggers(snapshot.spec)))
  {
    hide RecordOk, SpecHash, Compile, Commits, Perform, Lookup, Sound, KebabTriggers, UrlSafe, IsTrimmed;
    var snapshot := Lookup(s.records, id).value;
    LookupHasId(s.records, id);
    RunRevision(env, s, calls, id);
    var now := Lookup(Run(env, s, calls).records, id).value;
    var plan := Compile(env.hashing, snapshot).value;
    PlanIsOf(env, snapshot);
    if CommitCount(env, s, calls, id) == 0 { RedeployedOk(env, snapshot, now, live, ids); }
    ReplaceResult(env, Run(env, s, calls), id, plan.revision, RuntimeOf(plan, live, ids));
  }

  lemma RedeployedOk(env: Env, snapshot: Record, now: Record, live: bool, ids: seq<string>)
    requires Sound(env.hashing) && RecordOk(env.checks, snapshot) && Compile(env.hashing, snapshot).Ok?
    requires AreIdsFor(Compile(env.hashing, snapshot).value, ids)
    requires now.id == snapshot.id && now.spec == snapshot.spec
    ensures RecordOk(env.checks, now.(runtime := RuntimeOf(Compile(env.hashing, snapshot).value, live, ids))) <==>
      ((forall x | x in ids :: UrlSafe(x)) && (live ==> KebabTriggers(snapshot.spec)))
  {
    hide SpecOk, RuntimeOk, ReferencesOk, Compile, RuntimeOf, Sound;
    CompiledRuntimeValidIff(env.hashing, env.checks, snapshot, live, ids);
  }

  lemma PlanIsOf(env: Env, record: Record)
    requires Compile(env.hashing, record).Ok?
    ensures Compile(env.hashing, record).value.revision == record.revision
    ensures Compile(env.hashing, record).value.specHash == SpecHash(env.hashing, record.spec)
  {
  }

  lemma ReplaceResult(env: Env, s: State, id: string, expected: nat, runtime: Runtime)
    requires Lookup(s.records, id).Some?
    ensures var entry := Lookup(s.records, id).value;
      Perform(env, s, Call(ReplaceRuntime(id, expected, runtime), true)).result.Ok? <==> (
        && expected == entry.revision && runtime.compiledRevision == Some(entry.revision)
        && runtime.specHash == Some(SpecHash(env.hashing, entry.spec))
        && RecordOk(env.checks, entry.(runtime := runtime)))
  {
    hide RecordOk, SpecHash;
  }

  /** In any state, reached by whatever deletions, lost writes and reloads: a runtime that is accepted was compiled at
      the current revision from a spec that is the current one, unless their digests collide. */
  lemma AcceptedMeansSameSpec(env: Env, s: State, snapshot: Record, id: string, expected: nat,
                              live: bool, ids: seq<string>, written: bool)
    requires EncodesWell(env.hashing) && Compile(env.hashing, snapshot).Ok?
    requires |ids| == |Compile(env.hashing, snapshot).value.workflows|
    requires var runtime := RuntimeOf(Compile(env.hashing, snapshot).value, live, ids);
      Perform(env, s, Call(ReplaceRuntime(id, expected, runtime), written)).result.Ok?
    ensures var now := Lookup(s.records, id);
      && now.Some? && now.value.revision == snapshot.revision == expected
      && (CanonicalJson.Same(env.hashing.encode(snapshot.spec), env.hashing.encode(now.value.spec))
          || Collide(env.hashing, snapshot.spec, now.value.spec))
  {
    hide RecordOk, SpecHash, Compile, Collide, CanonicalJson.WellFormed;
    PlanIsOf(env, snapshot);
    SpecHashIffSame(env.hashing, snapshot.spec, Lookup(s.records, id).value.spec);
  }

  /** After a create and any run in which the record lives on, a save commits exactly when it is a valid change and
      expects one plus the number of committed changes, whichever incarnation its editor read. */
  lemma CommitsAfterCreateIff(env: Env, s: State, create: Call, calls: seq<Call>, save: Call)
    requires Distinct(Ids(s.records)) && create.op.Create? && save.op.SaveSpec? && save.op.id == create.op.id
    requires Perform(env, s, create).result.Ok? && SameLife(calls, create.op.id)
    ensures var s1 := Perform(env, s, create).state;
      var now := Run(env, s1, calls);
      && Lookup(now.records, save.op.id).Some?
      && (Commits(env, now, save, save.op.id) <==>
            && save.op.expected == 1 + CommitCount(env, s1, calls, save.op.id)
            && RecordOk(env.checks, Draft(save.op.id, save.op.expected, save.op.spec))
            && SpecHash(env.hashing, Lookup(now.records, save.op.id).value.spec) != SpecHash(env.hashing, save.op.spec))
  {
    hide RecordOk, SpecHash, Perform, Lookup, SameLife;
    RevisionCountsCommits(env, s, create, calls);
  }

  /** Deleting and recreating resets the revision: a stale editor then overwrites the new record. */
  lemma StaleEditorAcrossIncarnations(env: Env, s: State, id: string, status: Status, current: Spec, stale: Spec)
    requires Distinct(Ids(s.records)) && Lookup(s.records, id).Some?
    requires RecordOk(env.checks, Record(id, status, 1, current, NO_RUNTIME))
      && RecordOk(env.checks, Draft(id, 1, stale))
    requires SpecHash(env.hashing, current) != SpecHash(env.hashing, stale)
    ensures var create, save := Call(Create(id, current, status), true), Call(SaveSpec(id, 1, stale), true);
      var found := Lookup(Run(env, s, [Call(Delete(id), true), create, save]).records, id);
      found.Some? && found.value.spec == stale
  {
    hide RecordOk, SpecHash;
    var delete, create := Call(Delete(id), true), Call(Create(id, current, status), true);
    var save := Call(SaveSpec(id, 1, stale), true);
    var s1 := Perform(env, s, delete).state;
    RetainApart(s.records, id);
    LookupRetain(s.records, id, id);
    RetainHolds(s.records, id);
    assert Lookup(s1.records, id).None?;
    var s2 := Perform(env, s1, create).state;
    LookupCreate(s1.records, Record(id, status, 1, current, NO_RUNTIME), id);
    assert Commits(env, s2, save, id);
    StepRevision(env, s2, save, id);
    ThreeSteps(env, s, delete, create, save);
  }

  lemma TwoSteps(env: Env, s: State, a: Call, b: Call)
    ensures Run(env, s, [a, b]) == Perform(env, Perform(env, s, a).state, b).state
  {
    hide Perform;
    assert [a, b][1..] == [b] && [b][1..] == [];
    var s1 := Perform(env, s, a).state;
    assert Run(env, s, [a, b]) == Run(env, s1, [b]);
    assert Run(env, s1, [b]) == Run(env, Perform(env, s1, b).state, []);
  }

  lemma ThreeSteps(env: Env, s: State, a: Call, b: Call, c: Call)
    ensures Run(env, s, [a, b, c]) == Perform(env, Perform(env, Perform(env, s, a).state, b).state, c).state
  {
    hide Perform;
    assert [a, b, c][1..] == [b, c];
    TwoSteps(env, Perform(env, s, a).state, b, c);
  }

  // ---- Persistence -------------------------------------------------------------------------------------------

  /** A runtime that passes the revision and hash checks of `replace_runtime` but not the validator. */
  predicate FailsFinalCheck(env: Env, s: State, call: Call) {
    && call.op.ReplaceRuntime? && Lookup(s.records, call.op.id).Some?
    && var entry := Lookup(s.records, call.op.id).value;
    && call.op.expected == entry.revision && call.op.runtime.compiledRevision == Some(entry.revision)
    && call.op.runtime.specHash == Some(SpecHash(env.hashing, entry.spec))
    && !(RuntimeOk(call.op.runtime) && ReferencesOk(entry.spec, call.op.runtime))
  }

  lemma EntryEditsOk(env: Env, entry: Record, spec: Spec, status: Status, message: string, expected: nat)
    requires RecordOk(env.checks, entry)
    ensures RecordOk(env.checks, entry.(status := status))
      && RecordOk(env.checks, entry.(runtime := ErrorRuntime(message)))
    ensures RecordOk(env.checks, Draft(entry.id, expected, spec)) ==> RecordOk(env.checks, Saved(env, entry, spec))
  {
    hide SpecOk;
  }

  lemma RuntimeSwapOk(env: Env, entry: Record, runtime: Runtime)
    requires RecordOk(env.checks, entry)
    ensures RecordOk(env.checks, entry.(runtime := runtime)) <==>
      RuntimeOk(runtime) && ReferencesOk(entry.spec, runtime)
  {
    hide SpecOk, RuntimeOk, ReferencesOk;
  }

  lemma UpdateLoadable(o: Checks, records: seq<Record>, i: nat, entry: Record)
    requires Loadable(o, records) && i < |records| && entry.id == records[i].id
    ensures Loadable(o, records[i := entry]) <==> RecordOk(o, entry)
  {
    hide RecordOk;
    var next := records[i := entry];
    assert Ids(next) == Ids(records);
    assert next[i] in next;
    forall r | r in next && r != entry ensures r in records {
      var j :| 0 <= j < |next| && next[j] == r;
    }
  }

  lemma CreateLoadable(env: Env, s: State, call: Call)
    requires Loadable(env.checks, s.records) && call.op.Create?
    ensures Loadable(env.checks, Perform(env, s, call).state.records)
  {
    hide RecordOk, SortBy, Ids, Distinct;
    var r := Record(call.op.id, call.op.status, 1, call.op.spec, NO_RUNTIME);
    if RecordOk(env.checks, r) && Find(s.records, call.op.id) == |s.records| {
      LookupCreate(s.records, r, r.id);
      CreateHolds(s.records, r);
    }
  }

  lemma CreateHolds(records: seq<Record>, r: Record)
    ensures forall x :: x in SortBy(records + [r], RecordId) <==> x in records || x == r
  {
    InMultiset(SortBy(records + [r], RecordId), records + [r]);
    assert forall x :: x in records + [r] <==> x in records || x == r;
  }

  lemma EditLoadable(env: Env, s: State, call: Call)
    requires Loadable(env.checks, s.records)
      && (call.op.SaveSpec? || call.op.SetStatus? || call.op.ReplaceRuntimeError?)
    ensures Loadable(env.checks, Perform(env, s, call).state.records)
    ensures call.op.SaveSpec? ==> (Perform(env, s, call).result == Err(Invalid(BadRecord)) <==>
              !RecordOk(env.checks, Draft(call.op.id, call.op.expected, call.op.spec)))
  {
    hide RecordOk, SpecHash;
    var i := Find(s.records, call.op.id);
    if i < |s.records| {
      var entry := s.records[i];
      assert entry in s.records;
      match call.op {
        case SaveSpec(_, expected, spec) =>
          EntryEditsOk(env, entry, spec, Enabled, "", expected);
          UpdateLoadable(env.checks, s.records, i, Saved(env, entry, spec));
        case SetStatus(_, status) =>
          EntryEditsOk(env, entry, entry.spec, status, "", 1);
          UpdateLoadable(env.checks, s.records, i, entry.(status := status));
        case ReplaceRuntimeError(_, _, message) =>
          EntryEditsOk(env, entry, entry.spec, Enabled, message, 1);
          UpdateLoadable(env.checks, s.records, i, entry.(runtime := ErrorRuntime(message)));
      }
    }
  }

  lemma ReplaceLoadable(env: Env, s: State, call: Call)
    requires Loadable(env.checks, s.records) && call.op.ReplaceRuntime?
    ensures Loadable(env.checks, Perform(env, s, call).state.records) <==> !FailsFinalCheck(env, s, call)
  {
    hide RecordOk, SpecHash, RuntimeOk, ReferencesOk;
    var i := Find(s.records, call.op.id);
    if i < |s.records| {
      assert s.records[i] in s.records;
      RuntimeSwapOk(env, s.records[i], call.op.runtime);
      UpdateLoadable(env.checks, s.records, i, s.records[i].(runtime := call.op.runtime));
    }
  }

  /** From a loadable state every call keeps memory loadable, except exactly a `replace_runtime` that
      fails its final check: it has already assigned the runtime. */
  lemma StepLoadableIff(env: Env, s: State, call: Call)
    requires Loadable(env.checks, s.records)
    ensures Loadable(env.checks, Perform(env, s, call).state.records) <==> !FailsFinalCheck(env, s, call)
  {
    hide RecordOk, SpecHash, RuntimeOk, ReferencesOk;
    match call.op {
      case Create(_, _, _) => CreateLoadable(env, s, call);
      case Delete(id) =>
        RetainApart(s.records, id);
        RetainHolds(s.records, id);
      case Reload =>
      case ReplaceRuntime(_, _, _) => ReplaceLoadable(env, s, call);
      case _ => EditLoadable(env, s, call);
    }
  }

  /** The second validation of `save_spec` cannot fail: an invalid-record error is one of the first. */
  lemma SecondValidationNeverFails(env: Env, s: State, id: string, expected: nat, spec: Spec, written: bool)
    requires Loadable(env.checks, s.records)
    ensures Perform(env, s, Call(SaveSpec(id, expected, spec), written)).result == Err(Invalid(BadRecord))
       <==> !RecordOk(env.checks, Draft(id, expected, spec))
  {
    EditLoadable(env, s, Call(SaveSpec(id, expected, spec), written));
  }

  /** A call that succeeds has written what is in memory; the file never holds anything else. */
  lemma FileFollowsMemory(env: Env, s: State, call: Call)
    ensures Perform(env, s, call).result.Ok? ==> Perform(env, s, call).state.file == Perform(env, s, call).state.records
    ensures Perform(env, s, call).state.file == s.file
      || Perform(env, s, call).state.file == Perform(env, s, call).state.records
  {
    hide RecordOk, SpecHash;
  }

  // ---- Order --------------------------------------------------------------------------------------------------

  lemma SameIdsSorted(xs: seq<Record>, ys: seq<Record>)
    requires SortedBy(xs, RecordId) && Ids(xs) == Ids(ys)
    ensures SortedBy(ys, RecordId)
  {
    forall i, j | 0 <= i < j < |ys| ensures AtMost(RecordId(ys[i]), RecordId(ys[j])) {
      assert Ids(xs)[i] == Ids(ys)[i] && Ids(xs)[j] == Ids(ys)[j];
      assert AtMost(RecordId(xs[i]), RecordId(xs[j]));
    }
  }

  lemma StepSorted(env: Env, s: State, call: Call)
    requires SortedBy(s.records, RecordId) && SortedBy(s.file, RecordId)
    ensures SortedBy(Perform(env, s, call).state.records, RecordId)
      && SortedBy(Perform(env, s, call).state.file, RecordId)
  {
    hide RecordOk, SpecHash;
    FileFollowsMemory(env, s, call);
    match call.op {
      case Create(id, spec, status) =>
        SortSorts(s.records + [Record(id, status, 1, spec, NO_RUNTIME)], RecordId);
      case Delete(id) => DroppingKeepsOrder(s.records, RecordId, id);
      case Reload =>
      case _ =>
        hide Perform;
        var i, edited := EntryChange(env, s, call);
        if i < |s.records| {
          assert Ids(s.records[i := edited]) == Ids(s.records);
          SameIdsSorted(s.records, s.records[i := edited]);
        }
    }
  }

  // ---- Runs from an empty store ----------------------------------------------------------------------------------

  /** No call of the run fails the final check of `replace_runtime`. */
  predicate NoFinalFailure(env: Env, s: State, calls: seq<Call>)
    decreases |calls|
  {
    calls == []
      || (!FailsFinalCheck(env, s, calls[0]) && NoFinalFailure(env, Perform(env, s, calls[0]).state, calls[1..]))
  }

  lemma {:induction false} RunPersists(env: Env, s: State, calls: seq<Call>)
    requires Loadable(env.checks, s.records) && Loadable(env.checks, s.file) && NoFinalFailure(env, s, calls)
    ensures Loadable(env.checks, Run(env, s, calls).records) && Loadable(env.checks, Run(env, s, calls).file)
    decreases |calls|
  {
    hide Loadable, FailsFinalCheck, Perform;
    if calls != [] {
      StepLoadableIff(env, s, calls[0]);
      FileFollowsMemory(env, s, calls[0]);
      RunPersists(env, Perform(env, s, calls[0]).state, calls[1..]);
    }
  }

  lemma {:induction false} RunSorted(env: Env, s: State, calls: seq<Call>)
    requires SortedBy(s.records, RecordId) && SortedBy(s.file, RecordId)
    ensures SortedBy(Run(env, s, calls).records, RecordId) && SortedBy(Run(env, s, calls).file, RecordId)
    decreases |calls|
  {
    hide Perform;
    if calls != [] {
      StepSorted(env, s, calls[0]);
      RunSorted(env, Perform(env, s, calls[0]).state, calls[1..]);
    }
  }

  /** A store started empty can always be reopened, with unique valid records sorted by id, as long as
      no `replace_runtime` failed its final check. */
  lemma ReopensAfterRun(env: Env, calls: seq<Call>)
    requires NoFinalFailure(env, EMPTY, calls)
    ensures Loadable(env.checks, Run(env, EMPTY, calls).records) && SortedBy(Run(env, EMPTY, calls).records, RecordId)
    ensures Loadable(env.checks, Run(env, EMPTY, calls).file) && SortedBy(Run(env, EMPTY, calls).file, RecordId)
  {
    RunPersists(env, EMPTY, calls);
    RunSorted(env, EMPTY, calls);
  }

  /** Otherwise it may not: the failed call leaves its runtime in memory, and the next successful call
      on another record writes it to the file, which no longer loads. */
  lemma FailedReplacePoisonsFile(env: Env, s: State, bad: Call, other: string, status: Status)
    requires Loadable(env.checks, s.records) && FailsFinalCheck(env, s, bad)
    requires other != bad.op.id && Lookup(s.records, other).Some?
    ensures Perform(env, s, bad).result.Err?
    ensures var next := Perform(env, Perform(env, s, bad).state, Call(SetStatus(other, status), true));
      next.result.Ok? && !Loadable(env.checks, next.state.file)
  {
    hide RecordOk, SpecHash, RuntimeOk, ReferencesOk;
    var i := Find(s.records, bad.op.id);
    var entry := s.records[i].(runtime := bad.op.runtime);
    assert s.records[i] in s.records;
    RuntimeSwapOk(env, s.records[i], bad.op.runtime);
    LookupUpdate(s.records, i, entry, other);
    var records := s.records[i := entry];
    assert Perform(env, s, bad).state == State(records, s.file);
    var k := Find(records, other);
    assert records[k] == s.records[k] && s.records[k] in s.records;
    EntryEditsOk(env, records[k], records[k].spec, status, "", 1);
    var after := records[k := records[k].(status := status)];
    assert after[i] == entry && after[i] in after;
  }
}
