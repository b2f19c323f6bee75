/** Plan mode and the cadence of its reminders (crates/puffer-core/plan_mode.rs). */
module PlanMode {
  import opened Wrappers
  import opened Text

  const TURNS_BETWEEN_ATTACHMENTS: nat := 5

  const FULL_REMINDER_EVERY_N_ATTACHMENTS: nat := 5

  datatype Kind = Interview | Sparse | Reentry | Exited

  datatype Section = Section(kind: Kind, text: string)

  /** What a look at the plan finds: whether its path can be resolved, and whether it can be read and then holds user
      content. */
  datatype Reading = Reading(pathKnown: bool, plan: Option<bool>)

  /** What a call finds outside. It may look at the plan twice, and the two looks may differ; `prompts` is the trimmed
      text of each prompt, empty where there is none. */
  datatype World = World(first: Reading, second: Reading, prompts: Kind -> string)

  datatype Fields = Fields(planMode: bool, turns: nat, count: nat, hasExited: bool, needsReentry: bool, needsExit: bool)

  const NEW: Fields := Fields(false, 0, 0, false, false, false)

  function PlanExists(r: Reading): Option<bool> {
    if r.pathKnown then r.plan else None
  }

  predicate Readable(r: Reading) {
    PlanExists(r).Some?
  }

  predicate AlwaysReadable(w: World) {
    Readable(w.first) && Readable(w.second)
  }

  function Show(w: World, kind: Kind): seq<Section> {
    if w.prompts(kind) == "" then [] else [Section(kind, w.prompts(kind))]
  }

  predicate ShouldAttach(f: Fields) {
    f.count == 0 || f.turns >= TURNS_BETWEEN_ATTACHMENTS
  }

  predicate NextIsFull(f: Fields) {
    (f.count + 1) % FULL_REMINDER_EVERY_N_ATTACHMENTS == 1
  }

  // ---- What each operation does to the fields ---------------------------------------------------------

  /** Entering fails when a plan written before cannot be read; plan mode is on all the same. */
  function EnterFields(f: Fields, w: World): Fields {
    if f.planMode then f
    else
      var on := f.(planMode := true, turns := 0, count := 0, needsExit := false);
      if !f.hasExited then on.(needsReentry := false)
      else if Readable(w.first) then on.(needsReentry := PlanExists(w.first).value)
      else on
  }

  predicate EnterSucceeds(f: Fields, w: World) {
    f.planMode || !f.hasExited || Readable(w.first)
  }

  function ExitFields(f: Fields): Fields {
    Fields(false, 0, 0, true, false, true)
  }

  /** The sections of the next reminder and the fields once it is consumed, or nothing if it cannot be rendered. */
  datatype Reminder = Reminder(sections: seq<Section>, after: Fields)

  predicate ShowsReentry(f: Fields, w: World) {
    f.needsReentry && PlanExists(w.first) == Some(true)
  }

  predicate Renders(f: Fields, w: World) {
    if !f.planMode then f.needsExit ==> Readable(w.first) && (PlanExists(w.first) == Some(true) ==> w.second.pathKnown)
    else
      && (f.needsReentry ==> Readable(w.first))
      && (ShouldAttach(f) ==> w.second.pathKnown && (NextIsFull(f) ==> Readable(w.second)))
  }

  /** The fields after a consuming call that failed: a re-entry section rendered before the failure counts as
      delivered. */
  function AfterFailure(f: Fields, w: World): Fields {
    if f.planMode && ShowsReentry(f, w) then f.(needsReentry := false) else f
  }

  function AfterTake(f: Fields, w: World): Fields {
    if Renders(f, w) then Next(f, w).after else AfterFailure(f, w)
  }

  function MainKind(f: Fields): Kind {
    if NextIsFull(f) then Interview else Sparse
  }

  function Next(f: Fields, w: World): Reminder {
    if !f.planMode then
      if f.needsExit then Reminder(Show(w, Exited), f.(needsExit := false)) else Reminder([], f)
    else
      var first := if ShowsReentry(f, w) then Show(w, Reentry) else [];
      var g := f.(needsReentry := f.needsReentry && !ShowsReentry(f, w));
      if ShouldAttach(f) then Reminder(first + Show(w, MainKind(f)), g.(count := f.count + 1, turns := 0))
      else Reminder(first, g.(turns := f.turns + 1))
  }

  function Texts(sections: seq<Section>): seq<string> {
    seq(|sections|, i requires 0 <= i < |sections| => sections[i].text)
  }

  /** The message is absent when no section has any text. */
  function Message(sections: seq<Section>): Option<string> {
    if sections == [] then None else Some(Join(Texts(sections), "\n\n"))
  }

  class State {
    var planMode: bool
    var turns: nat
    var count: nat
    var hasExited: bool
    var needsReentry: bool
    var needsExit: bool

    function Now(): Fields
      reads this
    {
      Fields(planMode, turns, count, hasExited, needsReentry, needsExit)
    }

    constructor ()
      ensures Now() == NEW
    {
      planMode, turns, count, hasExited, needsReentry, needsExit := false, 0, 0, false, false, false;
    }

    constructor Clone(other: State)
      ensures Now() == other.Now()
    {
      planMode, turns, count := other.planMode, other.turns, other.count;
      hasExited, needsReentry, needsExit := other.hasExited, other.needsReentry, other.needsExit;
    }

    method Enter(w: World) returns (ok: bool)
      modifies this
      ensures Now() == EnterFields(old(Now()), w) && ok == EnterSucceeds(old(Now()), w)
      ensures planMode && hasExited == old(hasExited)
      ensures old(planMode) ==> ok && Now() == old(Now())
      ensures !old(planMode) ==> turns == 0 && count == 0 && !needsExit
    {
      if planMode {
        return true;
      }
      planMode := true;
      turns := 0;
      count := 0;
      needsExit := false;
      if !hasExited {
        needsReentry := false;
        return true;
      }
      var found := PlanExists(w.first);
      if found.None? {
        return false;
      }
      needsReentry := found.value;
      return true;
    }

    method Exit()
      modifies this
      ensures Now() == ExitFields(old(Now()))
      ensures !planMode && turns == 0 && count == 0 && hasExited && !needsReentry && needsExit
    {
      planMode := false;
      turns := 0;
      count := 0;
      hasExited := true;
      needsReentry := false;
      needsExit := true;
    }

    /** A consumed section is marked before the next one is rendered, and stays marked if that one fails. */
    method Render(w: World, consume: bool) returns (sections: Option<seq<Section>>)
      modifies this
      ensures sections == if Renders(old(Now()), w) then Some(Next(old(Now()), w).sections) else None
      ensures Now() == if consume then AfterTake(old(Now()), w) else old(Now())
    {
      if !planMode {
        sections := RenderExit(w, consume);
        return;
      }
      var shown: seq<Section> := [];
      if needsReentry {
        var found := PlanExists(w.first);
        if found.None? {
          return None;
        }
        if found.value {
          assert [] + Show(w, Reentry) == Show(w, Reentry);
          shown := shown + Show(w, Reentry);
          if consume {
            needsReentry := false;
          }
        }
      }
      if count == 0 || turns >= TURNS_BETWEEN_ATTACHMENTS {
        var kind := if (count + 1) % FULL_REMINDER_EVERY_N_ATTACHMENTS == 1 then Interview else Sparse;
        if !w.second.pathKnown || (kind == Interview && PlanExists(w.second).None?) {
          return None;
        }
        shown := shown + Show(w, kind);
        if consume {
          count := count + 1;
          turns := 0;
        }
      } else if consume {
        turns := turns + 1;
      }
      sections := Some(shown);
    }

    method RenderExit(w: World, consume: bool) returns (sections: Option<seq<Section>>)
      requires !planMode
      modifies this
      ensures sections == if Renders(old(Now()), w) then Some(Next(old(Now()), w).sections) else None
      ensures Now() == if consume then AfterTake(old(Now()), w) else old(Now())
    {
      if !needsExit {
        return Some([]);
      }
      var found := PlanExists(w.first);
      if found.None? || (found.value && !w.second.pathKnown) {
        return None;
      }
      sections := Some(Show(w, Exited));
      if consume {
        needsExit := false;
      }
    }

    method Take(w: World) returns (message: Option<Option<string>>)
      modifies this
      ensures message == if Renders(old(Now()), w) then Some(Message(Next(old(Now()), w).sections)) else None
      ensures Now() == AfterTake(old(Now()), w)
    {
      var sections := Render(w, true);
      message := if sections.Some? then Some(Message(sections.value)) else None;
    }

    /** A preview is what taking would give, and changes nothing. */
    method Preview(w: World) returns (message: Option<Option<string>>)
      ensures message == if Renders(Now(), w) then Some(Message(Next(Now(), w).sections)) else None
    {
      var clone := new State.Clone(this);
      var sections := clone.Render(w, false);
      message := if sections.Some? then Some(Message(sections.value)) else None;
    }
  }

  // ---- Runs ----------------------------------------------------------------------------------------------

  datatype Call = CallEnter(w: World) | CallExit | CallTake(w: World) | CallPreview(w: World)

  function Do(f: Fields, call: Call): Fields {
    match call
    case CallEnter(w) => EnterFields(f, w)
    case CallExit => ExitFields(f)
    case CallTake(w) => AfterTake(f, w)
    case CallPreview(_) => f
  }

  function Run(f: Fields, calls: seq<Call>): Fields
    decreases |calls|
  {
    if calls == [] then f else Run(Do(f, calls[0]), calls[1..])
  }

  /** How many turns were consumed since plan mode was entered. */
  function Tick(f: Fields, k: nat, call: Call): nat {
    match call
    case CallEnter(_) => if f.planMode then k else 0
    case CallExit => 0
    case CallTake(w) => if f.planMode && Renders(f, w) then k + 1 else k
    case CallPreview(_) => k
  }

  function Clock(f: Fields, k: nat, calls: seq<Call>): nat
    decreases |calls|
  {
    if calls == [] then k else Clock(Do(f, calls[0]), Tick(f, k, calls[0]), calls[1..])
  }

  /** The two counters as functions of the clock. */
  predicate OnTime(f: Fields, k: nat) {
    f.planMode ==> f.count == (k + 5) / 6 && f.turns == if k == 0 then 0 else (k - 1) % 6
  }

  lemma TickOnTime(f: Fields, k: nat, call: Call)
    requires OnTime(f, k)
    ensures OnTime(Do(f, call), Tick(f, k, call))
  {
  }

  lemma {:induction false} RunOnTime(f: Fields, k: nat, calls: seq<Call>)
    requires OnTime(f, k)
    ensures OnTime(Run(f, calls), Clock(f, k, calls))
    decreases |calls|
  {
    if calls != [] {
      TickOnTime(f, k, calls[0]);
      RunOnTime(Do(f, calls[0]), Tick(f, k, calls[0]), calls[1..]);
    }
  }

  predicate Shows(sections: seq<Section>, kind: Kind) {
    exists i | 0 <= i < |sections| :: sections[i].kind == kind
  }

  /** What the clock says about the next prompt. */
  lemma OnTimeDecides(f: Fields, k: nat)
    requires f.planMode && OnTime(f, k)
    ensures ShouldAttach(f) <==> k % 6 == 0
    ensures k % 6 == 0 ==> (NextIsFull(f) <==> (k / 6) % 5 == 0)
  {
    assert k == 6 * (k / 6) + k % 6;
    if k % 6 == 0 { assert f.count == k / 6; }
  }

  lemma ShowsOne(w: World, kind: Kind, other: Kind)
    ensures Shows(Show(w, kind), other) <==> kind == other && w.prompts(kind) != ""
  {
    if w.prompts(kind) != "" { assert Show(w, kind)[0].kind == kind; }
  }

  lemma ShowsEither(xs: seq<Section>, ys: seq<Section>, kind: Kind)
    ensures Shows(xs + ys, kind) <==> Shows(xs, kind) || Shows(ys, kind)
  {
    var all := xs + ys;
    if i :| 0 <= i < |xs| && xs[i].kind == kind { assert all[i].kind == kind; }
    if i :| 0 <= i < |ys| && ys[i].kind == kind { assert all[|xs| + i].kind == kind; }
  }

  lemma OnTimeShows(f: Fields, k: nat, w: World)
    requires f.planMode && OnTime(f, k)
    ensures ShouldAttach(f) <==> k % 6 == 0
    ensures Shows(Next(f, w).sections, Interview) <==> k % 6 == 0 && (k / 6) % 5 == 0 && w.prompts(Interview) != ""
    ensures Shows(Next(f, w).sections, Sparse) <==> k % 6 == 0 && (k / 6) % 5 != 0 && w.prompts(Sparse) != ""
  {
    OnTimeDecides(f, k);
    hide OnTime, Shows, Show, ShouldAttach, NextIsFull, ShowsReentry;
    var first := if ShowsReentry(f, w) then Show(w, Reentry) else [];
    var main := if ShouldAttach(f) then Show(w, MainKind(f)) else [];
    assert Next(f, w).sections == first + main;
    forall kind: Kind ensures Shows(first + main, kind) <==> Shows(first, kind) || Shows(main, kind) {
      ShowsEither(first, main, kind);
    }
    forall shown: Kind, kind: Kind ensures Shows(Show(w, shown), kind) <==> shown == kind && w.prompts(shown) != "" {
      ShowsOne(w, shown, kind);
    }
    forall kind: Kind ensures !Shows([], kind) { NoSection(kind); }
  }

  lemma NoSection(kind: Kind)
    ensures !Shows([], kind)
  {
  }

  /** In every run from a new session, with previews, failures, exits and re-entries in between: the turn consumed
      after k others since entry carries the prompt exactly when 6 divides k, the full one exactly when 5 divides
      k/6. */
  lemma CadenceInEveryRun(calls: seq<Call>, w: World)
    requires Run(NEW, calls).planMode
    ensures var f, k := Run(NEW, calls), Clock(NEW, 0, calls);
      && (Shows(Next(f, w).sections, Interview) <==> k % 6 == 0 && (k / 6) % 5 == 0 && w.prompts(Interview) != "")
      && (Shows(Next(f, w).sections, Sparse) <==> k % 6 == 0 && (k / 6) % 5 != 0 && w.prompts(Sparse) != "")
  {
    RunOnTime(NEW, 0, calls);
    OnTimeShows(Run(NEW, calls), Clock(NEW, 0, calls), w);
  }

  function Takes(ws: seq<World>): (calls: seq<Call>)
    ensures |calls| == |ws| && forall i | 0 <= i < |ws| :: calls[i] == CallTake(ws[i])
  {
    seq(|ws|, i requires 0 <= i < |ws| => CallTake(ws[i]))
  }

  lemma {:induction false} TakesTick(f: Fields, k: nat, ws: seq<World>)
    requires f.planMode && forall w | w in ws :: AlwaysReadable(w)
    ensures Clock(f, k, Takes(ws)) == k + |ws| && Run(f, Takes(ws)).planMode
    decreases |ws|
  {
    if ws != [] {
      assert ws[0] in ws;
      assert Takes(ws)[1..] == Takes(ws[1..]);
      TakesTick(Next(f, ws[0]).after, k + 1, ws[1..]);
    }
  }

  /** From any state outside plan mode: after entering and consuming k turns, the next one follows the same rule. */
  lemma KthTurnAfterEntry(f: Fields, w0: World, ws: seq<World>, w: World)
    requires !f.planMode && forall v | v in ws :: AlwaysReadable(v)
    ensures var k, g := |ws|, Run(EnterFields(f, w0), Takes(ws));
      && g.planMode
      && (Shows(Next(g, w).sections, Interview) <==> k % 6 == 0 && (k / 6) % 5 == 0 && w.prompts(Interview) != "")
      && (Shows(Next(g, w).sections, Sparse) <==> k % 6 == 0 && (k / 6) % 5 != 0 && w.prompts(Sparse) != "")
  {
    var on := EnterFields(f, w0);
    TakesTick(on, 0, ws);
    RunOnTime(on, 0, Takes(ws));
    OnTimeShows(Run(on, Takes(ws)), |ws|, w);
  }

  // ---- One-shot reminders ------------------------------------------------------------------------------------

  function One(b: bool): nat { if b then 1 else 0 }

  function Exits(calls: seq<Call>): nat {
    if calls == [] then 0 else One(calls[0].CallExit?) + Exits(calls[1..])
  }

  predicate DeliversExit(f: Fields, call: Call) {
    call.CallTake? && !f.planMode && f.needsExit && Renders(f, call.w)
  }

  function ExitsDelivered(f: Fields, calls: seq<Call>): nat
    decreases |calls|
  {
    if calls == [] then 0 else One(DeliversExit(f, calls[0])) + ExitsDelivered(Do(f, calls[0]), calls[1..])
  }

  function Entries(f: Fields, calls: seq<Call>): nat
    decreases |calls|
  {
    if calls == [] then 0 else One(calls[0].CallEnter? && !f.planMode) + Entries(Do(f, calls[0]), calls[1..])
  }

  predicate DeliversReentry(f: Fields, call: Call) {
    call.CallTake? && f.planMode && ShowsReentry(f, call.w) && Renders(f, call.w)
  }

  function ReentriesDelivered(f: Fields, calls: seq<Call>): nat
    decreases |calls|
  {
    if calls == [] then 0 else One(DeliversReentry(f, calls[0])) + ReentriesDelivered(Do(f, calls[0]), calls[1..])
  }

  /** Which reminders can be due: one for leaving only outside plan mode, one for returning only inside it and only
      after an exit. */
  predicate Sound(f: Fields) {
    && (f.needsExit ==> !f.planMode && f.hasExited)
    && (f.needsReentry ==> f.planMode && f.hasExited)
  }

  /** Over every run, each exit's reminder is delivered at most once, and each entry's re-entry reminder at most once:
      what is delivered and what is still due never exceeds what was caused. */
  lemma {:induction false} RemindersAreOneShot(f: Fields, calls: seq<Call>)
    requires Sound(f)
    ensures Sound(Run(f, calls))
    ensures ExitsDelivered(f, calls) + One(Run(f, calls).needsExit) <= Exits(calls) + One(f.needsExit)
    ensures ReentriesDelivered(f, calls) + One(Run(f, calls).needsReentry) <= Entries(f, calls) + One(f.needsReentry)
    decreases |calls|
  {
    if calls != [] { RemindersAreOneShot(Do(f, calls[0]), calls[1..]); }
  }

  /** A preview, or a take that fails without having rendered anything. */
  predicate Idle(f: Fields, call: Call) {
    call.CallPreview? || (call.CallTake? && !Renders(f, call.w) && !(f.planMode && ShowsReentry(f, call.w)))
  }

  lemma {:induction false} IdleKeeps(f: Fields, calls: seq<Call>)
    requires forall c | c in calls :: Idle(f, c)
    ensures Run(f, calls) == f
    decreases |calls|
  {
    if calls != [] {
      assert calls[0] in calls;
      IdleKeeps(f, calls[1..]);
    }
  }

  /** However often it is previewed or fails to render, an exit's reminder is what the next take that can read the plan
      gives; after that, takes give nothing until plan mode is entered or left again. */
  lemma ExitReminderWaitsThenGoes(f: Fields, idle: seq<Call>, w: World, later: seq<World>)
    requires forall c | c in idle :: Idle(ExitFields(f), c)
    requires AlwaysReadable(w)
    ensures var g := Run(ExitFields(f), idle);
      && Renders(g, w) && Next(g, w).sections == Show(w, Exited)
      && var h := Run(Next(g, w).after, Takes(later));
         Renders(h, w) && Next(h, w).sections == [] && h == Next(g, w).after
  {
    IdleKeeps(ExitFields(f), idle);
    NothingDue(ExitFields(f).(needsExit := false), later);
  }

  lemma {:induction false} NothingDue(f: Fields, ws: seq<World>)
    requires !f.planMode && !f.needsExit
    ensures Run(f, Takes(ws)) == f
    decreases |ws|
  {
    if ws != [] {
      assert Takes(ws)[1..] == Takes(ws[1..]);
      NothingDue(f, ws[1..]);
    }
  }

  // ---- A reminder that is lost -----------------------------------------------------------------------------

  /** If the plan does not change during a call, a call that fails changes nothing. */
  lemma SteadyPlanLosesNothing(f: Fields, w: World)
    requires w.first == w.second && !Renders(f, w)
    ensures AfterTake(f, w) == f
  {
  }

  /** Otherwise a take that fails loses the re-entry reminder exactly when the first look found the plan and the second,
      for the prompt that is due, did not; no later take of this stay gives it. */
  lemma ReentryLostIff(f: Fields, w: World, ws: seq<World>, later: World)
    requires f.planMode && f.needsReentry
    ensures !Renders(f, w) && AfterTake(f, w) != f <==> (
              && PlanExists(w.first) == Some(true) && ShouldAttach(f)
              && (!w.second.pathKnown || (NextIsFull(f) && !Readable(w.second))))
    ensures !Renders(f, w) && AfterTake(f, w) != f ==>
      !Shows(Next(Run(AfterTake(f, w), Takes(ws)), later).sections, Reentry)
  {
    if !Renders(f, w) && AfterTake(f, w) != f { NoReentryLater(AfterTake(f, w), ws, later); }
  }

  lemma {:induction false} NoReentryLater(f: Fields, ws: seq<World>, later: World)
    requires f.planMode && !f.needsReentry
    ensures !Shows(Next(Run(f, Takes(ws)), later).sections, Reentry)
    decreases |ws|
  {
    if ws != [] {
      assert Takes(ws)[1..] == Takes(ws[1..]);
      NoReentryLater(AfterTake(f, ws[0]), ws[1..], later);
    }
  }

  // ---- A reminder that comes due --------------------------------------------------------------------------

  /** Plan mode has been left before exactly when the run has an exit. */
  lemma {:induction false} ExitedIff(f: Fields, calls: seq<Call>)
    ensures Run(f, calls).hasExited <==> f.hasExited || CallExit in calls
    decreases |calls|
  {
    if calls != [] {
      assert calls == [calls[0]] + calls[1..];
      ExitedIff(Do(f, calls[0]), calls[1..]);
    }
  }

  /** A preview, or a take whose first look finds no plan with content. */
  predicate SeesNoPlan(call: Call) {
    call.CallPreview? || (call.CallTake? && PlanExists(call.w.first) != Some(true))
  }

  lemma {:induction false} ReentryWaits(f: Fields, calls: seq<Call>)
    requires f.planMode && forall c | c in calls :: SeesNoPlan(c)
    ensures Run(f, calls).planMode && Run(f, calls).needsReentry == f.needsReentry
    decreases |calls|
  {
    if calls != [] {
      assert calls[0] in calls;
      ReentryWaits(Do(f, calls[0]), calls[1..]);
    }
  }

  /** Entering in any run from a new session, outside plan mode, with a plan that can be looked at: however often it is
      then previewed or taken without a plan to be seen, the first take that sees the plan starts with the re-entry
      reminder exactly when plan mode was left before and the plan had content on entry; nothing later does. */
  lemma ReentryDueIff(calls: seq<Call>, w0: World, waiting: seq<Call>, w: World, ws: seq<World>, later: World)
    requires !Run(NEW, calls).planMode && EnterSucceeds(Run(NEW, calls), w0)
    requires forall c | c in waiting :: SeesNoPlan(c)
    requires AlwaysReadable(w) && PlanExists(w.first) == Some(true)
    ensures var g := Run(EnterFields(Run(NEW, calls), w0), waiting);
      var due := CallExit in calls && PlanExists(w0.first) == Some(true);
      && Renders(g, w)
      && (due ==> Show(w, Reentry) <= Next(g, w).sections)
      && (!due ==> !Shows(Next(g, w).sections, Reentry))
      && !Shows(Next(Run(Next(g, w).after, Takes(ws)), later).sections, Reentry)
  {
    var f := Run(NEW, calls);
    ExitedIff(NEW, calls);
    var on := EnterFields(f, w0);
    ReentryWaits(on, waiting);
    RemindersAreOneShot(NEW, calls);
    var g := Run(on, waiting);
    hide Run, Show;
    if !g.needsReentry { OnlyMain(g, w); }
    NoReentryLater(Next(g, w).after, ws, later);
  }

  lemma OnlyMain(g: Fields, w: World)
    requires g.planMode && !g.needsReentry
    ensures !Shows(Next(g, w).sections, Reentry)
  {
    assert [] + Show(w, MainKind(g)) == Show(w, MainKind(g));
    NoSection(Reentry);
    ShowsOne(w, MainKind(g), Reentry);
  }

  /** The first message after a re-entry, when both prompts have text: the re-entry prompt, an empty line, the full
      prompt. */
  lemma FirstMessageAfterReentry(calls: seq<Call>, w0: World, w: World)
    requires !Run(NEW, calls).planMode && CallExit in calls
    requires PlanExists(w0.first) == Some(true) && AlwaysReadable(w) && PlanExists(w.first) == Some(true)
    requires w.prompts(Reentry) != "" && w.prompts(Interview) != ""
    ensures Message(Next(EnterFields(Run(NEW, calls), w0), w).sections) ==
      Some(w.prompts(Reentry) + "\n\n" + w.prompts(Interview))
  {
    ExitedIff(NEW, calls);
    var sections := [Section(Reentry, w.prompts(Reentry)), Section(Interview, w.prompts(Interview))];
    assert Next(EnterFields(Run(NEW, calls), w0), w).sections == sections;
    assert Texts(sections) == [w.prompts(Reentry), w.prompts(Interview)];
    JoinTwo(w.prompts(Reentry), w.prompts(Interview));
  }

  lemma JoinTwo(a: string, b: string)
    ensures Join([a, b], "\n\n") == a + "\n\n" + b
  {
    assert [a, b][1..] == [b] && Join([b], "\n\n") == b;
  }
}
