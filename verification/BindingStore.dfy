/** The store of connector bindings (crates/puffer-subscriptions/src/store.rs) and the loop that deploys an automation's
    bindings to it (crates/puffer-cli/src/daemon_automation_runtime.rs). Every write goes through here. */
module BindingStore {
  import opened Text
  import opened Wrappers
  import opened AutomationSpec
  import opened AutomationValidation
  import opened AutomationCompiler
  import opened AutomationRuntime

  /** A binding that runs an automation. */
  datatype BindingSpec = BindingSpec(
    slug: string, connectionSlug: string, connectorSlug: Option<string>, enabled: bool,
    filter: Option<Filter>, ignoreFilters: seq<Filter>, contactIds: seq<string>, automationId: string)

  function SlugOf(b: BindingSpec): string { b.slug }

  predicate BindingOk(o: Checks, b: BindingSpec) {
    && IsSlug(b.slug) && IsSlug(b.connectionSlug)
    && (b.connectorSlug.Some? ==> IsSlug(b.connectorSlug.value))
    && (b.filter.Some? ==> FilterOk(o, b.filter.value))
    && (forall f | f in b.ignoreFilters :: FilterOk(o, f))
    && (forall c | c in b.contactIds :: o.contact(c))
    && IsSlug(b.automationId)
  }

  function Generated(record: Record, t: Trigger): BindingSpec
    requires t.ConnectionTrigger?
  {
    BindingSpec(BindingSlug(record.id, t.id), t.connectionSlug, t.connectorSlug, record.status.Enabled?,
                t.filter, t.ignoreFilters, t.contactIds, record.id)
  }

  /** A binding replaces the one with its slug. */
  function Upserted(bindings: seq<BindingSpec>, b: BindingSpec): seq<BindingSpec> {
    SortBy(Dropping(bindings, SlugOf, b.slug) + [b], SlugOf)
  }

  /** The bindings after the loop, and whether it reached its end. */
  function DeployedFrom(o: Checks, record: Record, triggers: seq<Trigger>,
                        bindings: seq<BindingSpec>): (seq<BindingSpec>, bool)
    decreases |triggers|
  {
    if triggers == [] then (bindings, true)
    else if !triggers[0].ConnectionTrigger? then DeployedFrom(o, record, triggers[1..], bindings)
    else if !BindingOk(o, Generated(record, triggers[0])) then (bindings, false)
    else DeployedFrom(o, record, triggers[1..], Upserted(bindings, Generated(record, triggers[0])))
  }

  function AfterDeploy(o: Checks, record: Record, bindings: seq<BindingSpec>): (seq<BindingSpec>, bool) {
    DeployedFrom(o, record, record.spec.triggers, bindings)
  }

  class Store {
    const checks: Checks
    var bindings: seq<BindingSpec>

    constructor (checks: Checks)
      ensures this.checks == checks && bindings == []
    {
      this.checks := checks;
      bindings := [];
    }

    method Upsert(b: BindingSpec) returns (ok: bool)
      modifies this
      ensures ok == BindingOk(checks, b)
      ensures bindings == if ok then Upserted(old(bindings), b) else old(bindings)
    {
      if !BindingOk(checks, b) { return false; }
      bindings := Dropping(bindings, SlugOf, b.slug);
      bindings := bindings + [b];
      bindings := SortBy(bindings, SlugOf);
      ok := true;
    }

    method DeployBindings(record: Record) returns (ok: bool)
      modifies this
      ensures (bindings, ok) == AfterDeploy(checks, record, old(bindings))
    {
      var triggers := record.spec.triggers;
      for k := 0 to |triggers|
        invariant DeployedFrom(checks, record, triggers[k..], bindings) == AfterDeploy(checks, record, old(bindings))
      {
        assert triggers[k..][0] == triggers[k] && triggers[k..][1..] == triggers[k + 1..];
        if !triggers[k].ConnectionTrigger? { continue; }
        var upserted := Upsert(Generated(record, triggers[k]));
        if !upserted { return false; }
      }
      ok := true;
    }
  }

  // ---- What a deployment leaves in the store ------------------------------------------------------------

  lemma UpsertHolds(bindings: seq<BindingSpec>, b: BindingSpec)
    ensures forall x :: x in Upserted(bindings, b) <==> x == b || (x in bindings && x.slug != b.slug)
  {
    var kept := Dropping(bindings, SlugOf, b.slug);
    DroppingHolds(bindings, SlugOf, b.slug);
    InMultiset(Upserted(bindings, b), kept + [b]);
    assert forall x :: x in kept + [b] <==> x in kept || x == b;
  }

  lemma GeneratedOk(o: Checks, record: Record, t: Trigger)
    requires IsSlug(record.id) && t.ConnectionTrigger? && TriggerOk(o, t)
    ensures BindingOk(o, Generated(record, t)) <==> IsKebab(t.id)
  {
    hide IsSlug, IsKebab, BindingSlug;
    BindingSlugOk(record.id, t.id);
  }

  predicate Connects(triggers: seq<Trigger>, t: Trigger) {
    t in triggers && t.ConnectionTrigger?
  }

  /** The loop reaches its end exactly when the connection trigger ids are in kebab case. */
  lemma {:induction false} DeployReachesEndIff(o: Checks, record: Record, triggers: seq<Trigger>,
                                               bindings: seq<BindingSpec>)
    requires IsSlug(record.id) && forall t | t in triggers :: TriggerOk(o, t)
    ensures DeployedFrom(o, record, triggers, bindings).1 <==> forall t | Connects(triggers, t) :: IsKebab(t.id)
    decreases |triggers|
  {
    hide IsSlug, IsKebab, TriggerOk, BindingOk, Generated, Upserted;
    if triggers != [] {
      var t, rest := triggers[0], triggers[1..];
      assert triggers == [t] + rest;
      assert forall u :: Connects(triggers, u) <==> Connects(rest, u) || (u == t && t.ConnectionTrigger?);
      assert t in triggers;
      if t.ConnectionTrigger? {
        GeneratedOk(o, record, t);
        if IsKebab(t.id) { DeployReachesEndIff(o, record, rest, Upserted(bindings, Generated(record, t))); }
      } else {
        DeployReachesEndIff(o, record, rest, bindings);
      }
    }
  }

  ghost predicate IsGenerated(record: Record, triggers: seq<Trigger>, b: BindingSpec) {
    exists t :: Connects(triggers, t) && b == Generated(record, t)
  }

  ghost predicate IsSlugOf(record: Record, triggers: seq<Trigger>, slug: string) {
    exists t :: Connects(triggers, t) && slug == BindingSlug(record.id, t.id)
  }

  lemma GeneratedSplits(record: Record, triggers: seq<Trigger>, b: BindingSpec, slug: string)
    requires triggers != []
    ensures var t, rest := triggers[0], triggers[1..];
      && (IsGenerated(record, triggers, b) <==>
        IsGenerated(record, rest, b) || (t.ConnectionTrigger? && b == Generated(record, t)))
      && (IsSlugOf(record, triggers, slug) <==>
           IsSlugOf(record, rest, slug) || (t.ConnectionTrigger? && slug == BindingSlug(record.id, t.id)))
  {
    hide Generated, BindingSlug;
    var t, rest := triggers[0], triggers[1..];
    assert triggers == [t] + rest;
    assert forall u :: Connects(triggers, u) <==> Connects(rest, u) || (u == t && t.ConnectionTrigger?);
    if t.ConnectionTrigger? { assert Connects(triggers, t); }
  }

  lemma OwnSlugsApart(record: Record, triggers: seq<Trigger>)
    requires triggers != [] && triggers[0].ConnectionTrigger? && Distinct(TriggerIds(triggers))
    ensures !IsSlugOf(record, triggers[1..], BindingSlug(record.id, triggers[0].id))
  {
    hide BindingSlug;
    forall t | Connects(triggers[1..], t)
      ensures BindingSlug(record.id, t.id) != BindingSlug(record.id, triggers[0].id)
    {
      var k :| 0 <= k < |triggers[1..]| && triggers[1..][k] == t;
      assert TriggerIds(triggers)[0] != TriggerIds(triggers)[k + 1];
      SlugsEqualIff(record.id, t.id, triggers[0].id);
    }
  }

  /** A finished deployment leaves exactly the automation's own bindings and the earlier ones under other slugs. */
  lemma {:induction false} DeployLeaves(o: Checks, record: Record, triggers: seq<Trigger>, bindings: seq<BindingSpec>,
                                        b: BindingSpec)
    requires Distinct(TriggerIds(triggers)) && DeployedFrom(o, record, triggers, bindings).1
    ensures b in DeployedFrom(o, record, triggers, bindings).0 <==>
      IsGenerated(record, triggers, b) || (b in bindings && !IsSlugOf(record, triggers, b.slug))
    decreases |triggers|
  {
    hide IsGenerated, IsSlugOf, Upserted, BindingOk, Connects;
    if triggers == [] {
      NoneGenerated(record, b);
    } else {
      var t, rest := triggers[0], triggers[1..];
      assert TriggerIds(rest) == TriggerIds(triggers)[1..];
      GeneratedSplits(record, triggers, b, b.slug);
      if t.ConnectionTrigger? {
        UpsertHolds(bindings, Generated(record, t));
        OwnSlugsApart(record, triggers);
        DeployLeaves(o, record, rest, Upserted(bindings, Generated(record, t)), b);
      } else {
        DeployLeaves(o, record, rest, bindings, b);
      }
    }
  }

  lemma NoneGenerated(record: Record, b: BindingSpec)
    ensures !IsGenerated(record, [], b) && !IsSlugOf(record, [], b.slug)
  {
    assert forall t :: !Connects([], t);
  }

  /** A finished deployment has installed a binding for each connection trigger, with the trigger's own connection,
      filters and contacts, running the automation, and enabled exactly when the automation is. */
  lemma DeployInstalls(o: Checks, record: Record, bindings: seq<BindingSpec>, t: Trigger) returns (b: BindingSpec)
    requires RecordOk(o, record) && AfterDeploy(o, record, bindings).1
    requires t in record.spec.triggers && t.ConnectionTrigger?
    ensures b in AfterDeploy(o, record, bindings).0
    ensures b.slug == "automation-" + record.id + "-" + t.id && b.automationId == record.id
    ensures b.connectionSlug == t.connectionSlug && b.connectorSlug == t.connectorSlug
    ensures b.filter == t.filter && b.ignoreFilters == t.ignoreFilters && b.contactIds == t.contactIds
    ensures b.enabled <==> record.status == Enabled
  {
    TriggersValid(o, record);
    b := Generated(record, t);
    assert Connects(record.spec.triggers, t);
    DeployLeaves(o, record, record.spec.triggers, bindings, b);
  }

  // ---- What a deployment leaves when it stops early --------------------------------------------------------------

  predicate OneSlugEach(bindings: seq<BindingSpec>) {
    Distinct(KeysOf(bindings, SlugOf))
  }

  lemma UpsertKeepsSlugs(bindings: seq<BindingSpec>, b: BindingSpec)
    requires OneSlugEach(bindings)
    ensures OneSlugEach(Upserted(bindings, b))
  {
    var kept := Dropping(bindings, SlugOf, b.slug);
    DroppingHolds(bindings, SlugOf, b.slug);
    hide Distinct;
    DroppingKeepsDistinct(bindings, SlugOf, b.slug);
    NewLastKeepsDistinct(kept, b, SlugOf);
    SortKeepsDistinct(kept + [b], SlugOf);
  }

  lemma {:induction false} DeployKeepsSlugs(o: Checks, record: Record, triggers: seq<Trigger>,
                                            bindings: seq<BindingSpec>)
    requires OneSlugEach(bindings)
    ensures OneSlugEach(DeployedFrom(o, record, triggers, bindings).0)
    decreases |triggers|
  {
    hide OneSlugEach, Upserted, Generated, BindingOk;
    if triggers != [] {
      if triggers[0].ConnectionTrigger? {
        var b := Generated(record, triggers[0]);
        UpsertKeepsSlugs(bindings, b);
        DeployKeepsSlugs(o, record, triggers[1..], Upserted(bindings, b));
      } else {
        DeployKeepsSlugs(o, record, triggers[1..], bindings);
      }
    }
  }

  /** The store is kept in the order of slugs. */
  lemma {:induction false} DeployKeepsOrder(o: Checks, record: Record, triggers: seq<Trigger>,
                                            bindings: seq<BindingSpec>)
    requires SortedBy(bindings, SlugOf)
    ensures SortedBy(DeployedFrom(o, record, triggers, bindings).0, SlugOf)
    decreases |triggers|
  {
    hide SortedBy, Generated, BindingOk;
    if triggers != [] {
      if triggers[0].ConnectionTrigger? {
        var b := Generated(record, triggers[0]);
        SortSorts(Dropping(bindings, SlugOf, b.slug) + [b], SlugOf);
        DeployKeepsOrder(o, record, triggers[1..], Upserted(bindings, b));
      } else {
        DeployKeepsOrder(o, record, triggers[1..], bindings);
      }
    }
  }

  predicate Owned(bindings: seq<BindingSpec>, automationId: string) {
    exists b :: b in bindings && b.automationId == automationId
  }

  lemma UpsertOwns(bindings: seq<BindingSpec>, b: BindingSpec)
    ensures Owned(Upserted(bindings, b), b.automationId)
  {
    UpsertHolds(bindings, b);
  }

  lemma {:induction false} OwnedStays(o: Checks, record: Record, triggers: seq<Trigger>, bindings: seq<BindingSpec>)
    requires Owned(bindings, record.id)
    ensures Owned(DeployedFrom(o, record, triggers, bindings).0, record.id)
    decreases |triggers|
  {
    hide Owned, Upserted, BindingOk;
    if triggers != [] {
      if triggers[0].ConnectionTrigger? {
        UpsertOwns(bindings, Generated(record, triggers[0]));
        OwnedStays(o, record, triggers[1..], Upserted(bindings, Generated(record, triggers[0])));
      } else {
        OwnedStays(o, record, triggers[1..], bindings);
      }
    }
  }

  /** There is a connection trigger, and the first one has an id in kebab case. */
  predicate FirstIsKebab(triggers: seq<Trigger>) {
    triggers != [] && if triggers[0].ConnectionTrigger? then IsKebab(triggers[0].id) else FirstIsKebab(triggers[1..])
  }

  /** Whether or not the loop reaches its end, it installs a binding exactly when the first connection trigger has an id
      in kebab case. */
  lemma {:induction false} DeployInstallsIff(o: Checks, record: Record, triggers: seq<Trigger>,
                                             bindings: seq<BindingSpec>)
    requires IsSlug(record.id) && (forall t | t in triggers :: TriggerOk(o, t)) && !Owned(bindings, record.id)
    ensures Owned(DeployedFrom(o, record, triggers, bindings).0, record.id) <==> FirstIsKebab(triggers)
    decreases |triggers|
  {
    hide IsSlug, IsKebab, TriggerOk, BindingOk, Owned, Upserted;
    if triggers != [] {
      var t, rest := triggers[0], triggers[1..];
      assert t in triggers && forall u | u in rest :: u in triggers;
      if t.ConnectionTrigger? {
        GeneratedOk(o, record, t);
        UpsertOwns(bindings, Generated(record, t));
        if IsKebab(t.id) { OwnedStays(o, record, rest, Upserted(bindings, Generated(record, t))); }
      } else {
        DeployInstallsIff(o, record, rest, bindings);
      }
    }
  }

  // ---- Two automations --------------------------------------------------------------------------------------

  ghost predicate SlugsClash(a: Record, b: Record) {
    exists s, t :: Connects(a.spec.triggers, s) && Connects(b.spec.triggers, t)
      && BindingSlug(a.id, s.id) == BindingSlug(b.id, t.id)
  }

  ghost predicate HoldsAll(record: Record, bindings: seq<BindingSpec>) {
    forall t | Connects(record.spec.triggers, t) :: Generated(record, t) in bindings
  }

  /** Deploying one automation removes a binding of another, deployed before, exactly when two of their slugs clash. */
  lemma DeployDropsIff(o: Checks, a: Record, b: Record, bindings: seq<BindingSpec>)
    requires a.id != b.id && Distinct(TriggerIds(b.spec.triggers)) && HoldsAll(a, bindings)
      && AfterDeploy(o, b, bindings).1
    ensures HoldsAll(a, AfterDeploy(o, b, bindings).0) <==> !SlugsClash(a, b)
  {
    hide BindingSlug, AfterDeploy;
    forall s | Connects(a.spec.triggers, s)
      ensures Generated(a, s) in AfterDeploy(o, b, bindings).0 <==>
        !IsSlugOf(b, b.spec.triggers, BindingSlug(a.id, s.id))
    {
      GeneratedStays(o, a, b, bindings, s);
    }
  }

  lemma GeneratedStays(o: Checks, a: Record, b: Record, bindings: seq<BindingSpec>, s: Trigger)
    requires a.id != b.id && Distinct(TriggerIds(b.spec.triggers)) && HoldsAll(a, bindings)
      && AfterDeploy(o, b, bindings).1
    requires Connects(a.spec.triggers, s)
    ensures Generated(a, s) in AfterDeploy(o, b, bindings).0 <==> !IsSlugOf(b, b.spec.triggers, BindingSlug(a.id, s.id))
  {
    DeployLeaves(o, b, b.spec.triggers, bindings, Generated(a, s));
  }

  /** Automations whose ids do not extend one another never disturb each other's bindings, whatever their triggers. */
  lemma UnrelatedIdsKeepBindings(o: Checks, a: Record, b: Record, bindings: seq<BindingSpec>)
    requires RecordOk(o, a) && RecordOk(o, b) && a.id != b.id && !Extends(a.id, b.id)
    requires HoldsAll(a, bindings) && AfterDeploy(o, b, bindings).1
    ensures HoldsAll(a, AfterDeploy(o, b, bindings).0)
  {
    hide Extends, HoldsAll, AfterDeploy;
    BindingSlugsMeetIff(a.id, b.id);
    forall s, t | Connects(a.spec.triggers, s) && Connects(b.spec.triggers, t)
      ensures BindingSlug(a.id, s.id) != BindingSlug(b.id, t.id)
    {
      assert TriggerOk(o, s) && TriggerOk(o, t);
    }
    DeployDropsIff(o, a, b, bindings);
  }

  /** For any two ids of which one extends the other there are valid automations whose deployments collide: the second
      removes the binding of the first. */
  lemma ExtendedIdsCollide(o: Checks, h: Hashing, a: string, b: string) returns (first: Record, second: Record)
    requires IsSlug(a) && IsSlug(b) && a + "-" <= b
    ensures first.id == a && second.id == b && RecordOk(o, first) && RecordOk(o, second)
    ensures Compile(h, first).Ok? && Compile(h, second).Ok?
    ensures AfterDeploy(o, first, []).1 && HoldsAll(first, AfterDeploy(o, first, []).0)
    ensures var after := AfterDeploy(o, second, AfterDeploy(o, first, []).0);
      after.1 && !HoldsAll(first, after.0)
  {
    hide IsSlug, IsLocalId, SpecOk, Compile, BindingSlug, AfterDeploy, HoldsAll;
    var s, t := SlugsMeet(a, b);
    first := ConnectedRecord(o, h, a, s);
    second := ConnectedRecord(o, h, b, t);
    LocalIdIf("mail");
    ConnectedDeploys(o, first, []);
    ConnectedDeploys(o, second, AfterDeploy(o, first, []).0);
    assert a != b by { assert |a + "-"| <= |b|; }
    assert TriggerIds(second.spec.triggers) == [t];
    DeployDropsIff(o, first, second, AfterDeploy(o, first, []).0);
    assert Connects(first.spec.triggers, first.spec.triggers[0])
      && Connects(second.spec.triggers, second.spec.triggers[0]);
  }

  lemma ConnectedRecord(o: Checks, h: Hashing, id: string, triggerId: string) returns (record: Record)
    requires IsSlug(id) && IsLocalId(triggerId)
    ensures record ==
      Record(id, Enabled, 1, OneStep(ConnectionTrigger(triggerId, "mail", None, None, [], [], None), "s"), NO_RUNTIME)
    ensures RecordOk(o, record) && Compile(h, record).Ok?
  {
    hide SpecOk, Compile;
    var trigger := ConnectionTrigger(triggerId, "mail", None, None, [], [], None);
    record := Record(id, Enabled, 1, OneStep(trigger, "s"), NO_RUNTIME);
    LocalIdIf("mail");
    LocalIdIf("s");
    OneStepIsValid(o, trigger, "s");
    CompilesIff(h, record);
  }

  lemma ConnectedDeploys(o: Checks, record: Record, bindings: seq<BindingSpec>)
    requires RecordOk(o, record) && |record.spec.triggers| == 1 && record.spec.triggers[0].ConnectionTrigger?
    requires IsSlug(record.spec.triggers[0].id)
    ensures AfterDeploy(o, record, bindings).1 && HoldsAll(record, AfterDeploy(o, record, bindings).0)
  {
    var triggers := record.spec.triggers;
    var t := triggers[0];
    TriggersValid(o, record);
    OnlyConnects(triggers);
    hide TriggerOk, RecordOk, Generated, BindingSlug, DeployedFrom, Connects, IsSlug;
    KebabIfSlug(t.id);
    hide IsKebab;
    DeployReachesEndIff(o, record, triggers, bindings);
    DeployLeaves(o, record, triggers, bindings, Generated(record, t));
  }

  lemma TriggersValid(o: Checks, record: Record)
    requires RecordOk(o, record)
    ensures IsSlug(record.id) && Distinct(TriggerIds(record.spec.triggers))
    ensures forall t | t in record.spec.triggers :: TriggerOk(o, t)
  {
  }

  lemma OnlyConnects(triggers: seq<Trigger>)
    requires |triggers| == 1 && triggers[0].ConnectionTrigger?
    ensures forall u :: Connects(triggers, u) <==> u == triggers[0]
  {
    assert triggers[0] in triggers;
  }

  lemma KebabIfSlug(id: string)
    requires IsSlug(id)
    ensures IsKebab(id)
  {
  }
}
