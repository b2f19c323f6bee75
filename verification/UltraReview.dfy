/** Merging the findings of parallel review lanes, and the list of lanes to run
    (crates/puffer-core/ultrareview.rs). Confidences are exact reals. */
module UltraReview {
  import opened Text

  const CONFIDENCE_THRESHOLD: real := 0.5

  /** `report` stands for the text fields, which travel together. */
  datatype Finding = Finding(fileLine: string, confidence: real, report: string, lanes: seq<string>)

  predicate Qualifies(f: Finding, loc: string) {
    f.confidence >= CONFIDENCE_THRESHOLD && f.fileLine == loc
  }

  // ---- Merging lanes -----------------------------------------------------------------------

  function Merge(lanes: seq<string>, more: seq<string>): (merged: seq<string>)
    ensures forall l :: l in merged <==> l in lanes || l in more
    ensures Distinct(lanes) ==> Distinct(merged)
    decreases |more|
  {
    if more == [] then lanes
    else Merge(if more[0] in lanes then lanes else lanes + [more[0]], more[1..])
  }

  method MergeLanes(lanes: seq<string>, more: seq<string>) returns (merged: seq<string>)
    ensures merged == Merge(lanes, more)
  {
    merged := lanes;
    for k := 0 to |more|
      invariant Merge(merged, more[k..]) == Merge(lanes, more)
    {
      assert more[k..][0] == more[k] && more[k..][1..] == more[k + 1..];
      if more[k] !in merged { merged := merged + [more[k]]; }
    }
  }

  lemma {:induction false} MergeFromNone(prefix: seq<string>, lanes: seq<string>)
    requires Distinct(prefix + lanes)
    ensures Merge(prefix, lanes) == prefix + lanes
    decreases |lanes|
  {
    if lanes == [] {
      assert prefix + lanes == prefix;
    } else {
      assert (prefix + lanes)[|prefix|] == lanes[0];
      assert forall i | 0 <= i < |prefix| :: (prefix + lanes)[i] == prefix[i];
      assert prefix + lanes == (prefix + [lanes[0]]) + lanes[1..];
      MergeFromNone(prefix + [lanes[0]], lanes[1..]);
    }
  }

  // ---- What the merged map must be ------------------------------------------------------------

  /** The lanes that reported a qualifying finding at `loc`, each once, in order of arrival. */
  function LanesAt(findings: seq<Finding>, loc: string): (lanes: seq<string>)
    ensures Distinct(lanes)
    ensures forall l :: l in lanes <==> exists f :: f in findings && Qualifies(f, loc) && l in f.lanes
  {
    if findings == [] then []
    else
      var n := |findings| - 1;
      var before := LanesAt(findings[..n], loc);
      assert findings == findings[..n] + [findings[n]];
      if Qualifies(findings[n], loc) then Merge(before, findings[n].lanes) else before
  }

  /** `at` is the first of the qualifying findings at `loc` with the greatest confidence. */
  ghost predicate IsWinner(findings: seq<Finding>, loc: string, at: nat) {
    && at < |findings| && Qualifies(findings[at], loc)
    && (forall j | 0 <= j < |findings| && Qualifies(findings[j], loc) ::
      findings[j].confidence <= findings[at].confidence)
    && (forall j | 0 <= j < at && Qualifies(findings[j], loc) :: findings[j].confidence < findings[at].confidence)
  }

  ghost predicate Located(findings: seq<Finding>, loc: string) {
    exists j | 0 <= j < |findings| :: Qualifies(findings[j], loc)
  }

  /** The entry for one location: the winner's confidence and report, and every lane. */
  ghost predicate EntryOk(entry: Finding, findings: seq<Finding>, loc: string) {
    && entry.fileLine == loc && entry.lanes == LanesAt(findings, loc)
    && exists at: nat :: IsWinner(findings, loc, at)
                         && entry.confidence == findings[at].confidence && entry.report == findings[at].report
  }

  ghost predicate Aggregates(byLoc: map<string, Finding>, findings: seq<Finding>) {
    forall loc: string ::
      (loc in byLoc <==> Located(findings, loc)) && (loc in byLoc ==> EntryOk(byLoc[loc], findings, loc))
  }

  lemma NothingFound()
    ensures Aggregates(map[], [])
  {
  }

  // ---- The loop -----------------------------------------------------------------------------------

  method Aggregate(findings: seq<Finding>) returns (byLoc: map<string, Finding>)
    requires forall f | f in findings :: Distinct(f.lanes)
    ensures Aggregates(byLoc, findings)
  {
    hide Aggregates, EntryOk, LanesAt, Located, IsWinner, Merge;
    byLoc := map[];
    NothingFound();
    for k := 0 to |findings|
      invariant Aggregates(byLoc, findings[..k])
    {
      var f := findings[k];
      assert f in findings && findings[..k + 1] == findings[..k] + [f];
      ghost var before := byLoc;
      if f.confidence >= CONFIDENCE_THRESHOLD {
        if f.fileLine in byLoc {
          var existing := byLoc[f.fileLine];
          var merged := MergeLanes(existing.lanes, f.lanes);
          if f.confidence > existing.confidence {
            existing := f;
            existing := existing.(lanes := merged);
          } else {
            existing := existing.(lanes := merged);
          }
          byLoc := byLoc[f.fileLine := existing];
        } else {
          byLoc := byLoc[f.fileLine := f];
        }
      }
      OneMoreFinding(before, findings[..k], f);
      assert byLoc == AfterFinding(before, f);
    }
    assert findings[..|findings|] == findings;
  }

  /** One turn of the loop. */
  function AfterFinding(byLoc: map<string, Finding>, f: Finding): map<string, Finding> {
    if f.confidence < CONFIDENCE_THRESHOLD then byLoc
    else if f.fileLine !in byLoc then byLoc[f.fileLine := f]
    else
      var existing := byLoc[f.fileLine];
      var winner := if f.confidence > existing.confidence then f else existing;
      byLoc[f.fileLine := winner.(lanes := Merge(existing.lanes, f.lanes))]
  }

  lemma ElsewhereSame(findings: seq<Finding>, f: Finding, loc: string)
    requires !Qualifies(f, loc)
    ensures Located(findings + [f], loc) <==> Located(findings, loc)
    ensures LanesAt(findings + [f], loc) == LanesAt(findings, loc)
    ensures forall at: nat | IsWinner(findings, loc, at) ::
      IsWinner(findings + [f], loc, at) && (findings + [f])[at] == findings[at]
  {
    var all := findings + [f];
    assert all[..|all| - 1] == findings && all[|all| - 1] == f;
    assert forall j | 0 <= j < |findings| :: all[j] == findings[j];
    if Located(findings, loc) {
      var j :| 0 <= j < |findings| && Qualifies(findings[j], loc);
      assert Qualifies(all[j], loc);
    }
  }

  lemma NewWinner(findings: seq<Finding>, f: Finding, loc: string)
    requires Qualifies(f, loc)
    ensures Located(findings + [f], loc)
    ensures LanesAt(findings + [f], loc) == Merge(LanesAt(findings, loc), f.lanes)
    ensures !Located(findings, loc) ==> IsWinner(findings + [f], loc, |findings|)
    ensures forall at: nat | IsWinner(findings, loc, at) ::
      IsWinner(findings + [f], loc, if f.confidence > findings[at].confidence then |findings| else at)
  {
    var all := findings + [f];
    assert all[..|all| - 1] == findings && all[|all| - 1] == f;
    assert forall j | 0 <= j < |findings| :: all[j] == findings[j];
    assert Qualifies(all[|findings|], loc);
  }

  lemma {:induction false} NoLanes(findings: seq<Finding>, loc: string)
    requires !Located(findings, loc)
    ensures LanesAt(findings, loc) == []
  {
    if findings != [] {
      var n := |findings| - 1;
      assert !Qualifies(findings[n], loc);
      assert forall j | 0 <= j < n :: findings[..n][j] == findings[j];
      NoLanes(findings[..n], loc);
    }
  }

  lemma OneMoreFinding(byLoc: map<string, Finding>, findings: seq<Finding>, f: Finding)
    requires Aggregates(byLoc, findings) && Distinct(f.lanes)
    ensures Aggregates(AfterFinding(byLoc, f), findings + [f])
  {
    var next := AfterFinding(byLoc, f);
    forall loc: string
      ensures (loc in next <==> Located(findings + [f], loc))
        && (loc in next ==> EntryOk(next[loc], findings + [f], loc))
    {
      if Qualifies(f, loc) { FindingHere(byLoc, findings, f); } else { FindingElsewhere(byLoc, findings, f, loc); }
    }
  }

  lemma FindingElsewhere(byLoc: map<string, Finding>, findings: seq<Finding>, f: Finding, loc: string)
    requires Aggregates(byLoc, findings) && !Qualifies(f, loc)
    ensures var next := AfterFinding(byLoc, f);
      (loc in next <==> Located(findings + [f], loc)) && (loc in next ==> EntryOk(next[loc], findings + [f], loc))
  {
    ElsewhereSame(findings, f, loc);
    assert loc in byLoc ==> EntryOk(byLoc[loc], findings, loc);
  }

  lemma FindingHere(byLoc: map<string, Finding>, findings: seq<Finding>, f: Finding)
    requires Aggregates(byLoc, findings) && Distinct(f.lanes) && f.confidence >= CONFIDENCE_THRESHOLD
    ensures var next := AfterFinding(byLoc, f);
      f.fileLine in next && Located(findings + [f], f.fileLine) && EntryOk(next[f.fileLine], findings + [f], f.fileLine)
  {
    var loc := f.fileLine;
    NewWinner(findings, f, loc);
    if loc in byLoc {
      assert EntryOk(byLoc[loc], findings, loc);
      var at: nat :| IsWinner(findings, loc, at) && byLoc[loc].confidence == findings[at].confidence
                     && byLoc[loc].report == findings[at].report;
      var now := if f.confidence > findings[at].confidence then |findings| else at;
      assert IsWinner(findings + [f], loc, now);
    } else {
      NoLanes(findings, loc);
      assert [] + f.lanes == f.lanes;
      MergeFromNone([], f.lanes);
      assert IsWinner(findings + [f], loc, |findings|);
    }
  }

  // ---- Order of arrival ---------------------------------------------------------------------------------

  lemma SameFindings(xs: seq<Finding>, ys: seq<Finding>)
    requires multiset(xs) == multiset(ys)
    ensures forall f :: f in xs <==> f in ys
  {
    forall f ensures f in xs <==> f in ys {
      assert f in xs <==> f in multiset(xs);
      assert f in ys <==> f in multiset(ys);
    }
  }

  lemma LocatedByMembers(xs: seq<Finding>, ys: seq<Finding>, loc: string)
    requires (forall f :: f in xs <==> f in ys) && Located(xs, loc)
    ensures Located(ys, loc)
  {
    var j :| 0 <= j < |xs| && Qualifies(xs[j], loc);
    assert xs[j] in ys;
  }

  /** Any two orders of arrival give the same locations, confidences and sets of lanes. */
  lemma ArrivalOrderIrrelevant(xs: seq<Finding>, ys: seq<Finding>, a: map<string, Finding>, b: map<string, Finding>)
    requires multiset(xs) == multiset(ys) && Aggregates(a, xs) && Aggregates(b, ys)
    ensures a.Keys == b.Keys
    ensures forall loc | loc in a :: a[loc].confidence == b[loc].confidence
    ensures forall loc | loc in a ::
      (forall l :: l in a[loc].lanes <==> l in b[loc].lanes) && |a[loc].lanes| == |b[loc].lanes|
  {
    SameFindings(xs, ys);
    forall loc ensures loc in a <==> loc in b {
      if loc in a { LocatedByMembers(xs, ys, loc); }
      if loc in b { LocatedByMembers(ys, xs, loc); }
    }
    forall loc | loc in a
      ensures a[loc].confidence == b[loc].confidence
      ensures (forall l :: l in a[loc].lanes <==> l in b[loc].lanes) && |a[loc].lanes| == |b[loc].lanes|
    {
      assert EntryOk(a[loc], xs, loc) && EntryOk(b[loc], ys, loc);
      WinnersTie(xs, ys, loc, a[loc], b[loc]);
      DistinctSameLength(a[loc].lanes, b[loc].lanes);
    }
  }

  lemma WinnersTie(xs: seq<Finding>, ys: seq<Finding>, loc: string, a: Finding, b: Finding)
    requires (forall f :: f in xs <==> f in ys) && EntryOk(a, xs, loc) && EntryOk(b, ys, loc)
    ensures a.confidence == b.confidence
  {
    var i: nat :| IsWinner(xs, loc, i) && a.confidence == xs[i].confidence && a.report == xs[i].report;
    var j: nat :| IsWinner(ys, loc, j) && b.confidence == ys[j].confidence && b.report == ys[j].report;
    assert xs[i] in ys && ys[j] in xs;
    var k :| 0 <= k < |ys| && ys[k] == xs[i];
    var l :| 0 <= l < |xs| && xs[l] == ys[j];
    assert ys[k].confidence <= ys[j].confidence && xs[l].confidence <= xs[i].confidence;
  }

  lemma {:induction false} DistinctSameLength(xs: seq<string>, ys: seq<string>)
    requires Distinct(xs) && Distinct(ys) && forall l :: l in xs <==> l in ys
    ensures |xs| == |ys|
  {
    DistinctSize(xs);
    DistinctSize(ys);
    assert (set l | l in xs) == (set l | l in ys);
  }

  lemma {:induction false} DistinctSize(xs: seq<string>)
    requires Distinct(xs)
    ensures |set l | l in xs| == |xs|
  {
    if xs == [] {
      assert (set l | l in xs) == {};
    } else {
      DistinctSize(xs[1..]);
      assert xs[0] !in xs[1..];
      assert (set l | l in xs) == {xs[0]} + (set l | l in xs[1..]);
    }
  }

  // ---- The lanes to run ------------------------------------------------------------------------------------

  const LANES: seq<string> := ["security", "logic", "duplication", "editorial", "architecture-fit"]

  function FirstAbsent(names: seq<string>, lanes: seq<string>): seq<string> {
    if names == [] then [] else if names[0] !in lanes then [names[0]] else FirstAbsent(names[1..], lanes)
  }

  function NormalizeLanes(lanes: seq<string>): seq<string> {
    var distinct := Merge([], lanes);
    var withLogic := if "logic" in distinct then distinct else ["logic"] + distinct;
    var two := if |withLogic| < 2 then withLogic + FirstAbsent(LANES, withLogic) else withLogic;
    if |two| > |LANES| then two[..|LANES|] else two
  }

  method NormalizePlannerLanes(lanes: seq<string>) returns (out: seq<string>)
    ensures out == NormalizeLanes(lanes)
  {
    out := [];
    for k := 0 to |lanes|
      invariant Merge(out, lanes[k..]) == Merge([], lanes)
    {
      assert lanes[k..][0] == lanes[k] && lanes[k..][1..] == lanes[k + 1..];
      if lanes[k] !in out { out := out + [lanes[k]]; }
    }
    if "logic" !in out { out := ["logic"] + out; }
    if |out| < 2 { out := out + FirstAbsent(LANES, out); }
    if |out| > |LANES| { out := out[..|LANES|]; }
  }

  lemma LogicOnly(withLogic: seq<string>)
    requires |withLogic| == 1 && "logic" in withLogic
    ensures FirstAbsent(LANES, withLogic) == ["security"]
  {
    assert withLogic[0] == "logic" && LANES[0] == "security";
    assert "logic"[0] != "security"[0];
  }

  lemma {:induction false} MergeAppend(lanes: seq<string>, xs: seq<string>, ys: seq<string>)
    ensures Merge(lanes, xs + ys) == Merge(Merge(lanes, xs), ys)
    decreases |xs|
  {
    if xs == [] {
      assert xs + ys == ys;
    } else {
      assert (xs + ys)[0] == xs[0] && (xs + ys)[1..] == xs[1..] + ys;
      MergeAppend(if xs[0] in lanes then lanes else lanes + [xs[0]], xs[1..], ys);
    }
  }

  lemma {:induction false} MergeGrows(lanes: seq<string>, more: seq<string>)
    ensures lanes <= Merge(lanes, more)
    decreases |more|
  {
    if more != [] { MergeGrows(if more[0] in lanes then lanes else lanes + [more[0]], more[1..]); }
  }

  /** The different names in a list. */
  function Names(lanes: seq<string>): set<string> {
    set l | l in lanes
  }

  /** At `i` the name comes for the first time, after at least as many different names as there are lanes. */
  predicate CutAt(lanes: seq<string>, name: string, i: nat) {
    i < |lanes| && lanes[i] == name && name !in lanes[..i] && |Names(lanes[..i])| >= |LANES|
  }

  /** Without repeats, a name stands right after the different names that came before it. */
  lemma PlaceOf(lanes: seq<string>, i: nat)
    requires i < |lanes| && lanes[i] !in lanes[..i]
    ensures Merge([], lanes[..i]) + [lanes[i]] <= Merge([], lanes) && |Merge([], lanes[..i])| == |Names(lanes[..i])|
  {
    var before := Merge([], lanes[..i]);
    assert lanes == lanes[..i] + ([lanes[i]] + lanes[i + 1..]);
    MergeAppend([], lanes[..i], [lanes[i]] + lanes[i + 1..]);
    assert Merge(before, [lanes[i]] + lanes[i + 1..]) == Merge(before + [lanes[i]], lanes[i + 1..]) by {
      assert ([lanes[i]] + lanes[i + 1..])[1..] == lanes[i + 1..];
    }
    MergeGrows(before + [lanes[i]], lanes[i + 1..]);
    DistinctSize(before);
    assert (set l | l in before) == Names(lanes[..i]);
  }

  lemma {:induction false} FirstPlace(lanes: seq<string>, name: string) returns (i: nat)
    requires name in lanes
    ensures i < |lanes| && lanes[i] == name && name !in lanes[..i]
  {
    if lanes[0] == name {
      i := 0;
    } else {
      i := FirstPlace(lanes[1..], name);
      assert lanes[..i + 1] == [lanes[0]] + lanes[1..][..i];
      i := i + 1;
    }
  }

  /** Truncation loses a name exactly when it is cut at its first place. */
  lemma TruncationLoses(lanes: seq<string>, name: string)
    requires name in lanes
    ensures name !in TakeFive(Merge([], lanes)) <==> exists i: nat :: CutAt(lanes, name, i)
  {
    var i := FirstPlace(lanes, name);
    var before, all := Merge([], lanes[..i]), Merge([], lanes);
    PlaceOf(lanes, i);
    assert (before + [name])[|before|] == all[|before|] == name;
    forall k | 0 <= k < |all| && k != |before| ensures all[k] != name {}
    assert forall x: nat, y: nat | x < y <= |lanes| :: lanes[..y][x] == lanes[x] && lanes[x] in lanes[..y];
    assert forall j: nat | CutAt(lanes, name, j) :: j == i;
    if name !in TakeFive(all) { assert |before| >= |LANES|; assert CutAt(lanes, name, i); }
  }

  /** Two to five lanes, none twice; `logic` is lost exactly when five different names come before its first place. */
  lemma NormalizedLanes(lanes: seq<string>)
    ensures Distinct(NormalizeLanes(lanes)) && 2 <= |NormalizeLanes(lanes)| <= |LANES|
    ensures "logic" !in NormalizeLanes(lanes) <==> exists i: nat :: CutAt(lanes, "logic", i)
  {
    hide CutAt;
    var distinct := Merge([], lanes);
    var withLogic := if "logic" in distinct then distinct else ["logic"] + distinct;
    assert Distinct(withLogic);
    if |withLogic| < 2 {
      LogicOnly(withLogic);
      assert "logic"[0] != "security"[0];
    }
    if "logic" in lanes {
      TruncationLoses(lanes, "logic");
      assert NormalizeLanes(lanes) ==
        if |distinct| < 2 then distinct + FirstAbsent(LANES, distinct) else TakeFive(distinct);
    } else {
      NeverCut(lanes, "logic");
      assert withLogic[0] == "logic" && TakeFive(withLogic)[0] == "logic";
    }
  }

  lemma NeverCut(lanes: seq<string>, name: string)
    requires name !in lanes
    ensures forall i: nat :: !CutAt(lanes, name, i)
  {
  }

  /** Six names with `logic` last are such a list. */
  lemma LogicCanBeLost()
    ensures "logic" !in NormalizeLanes(["a", "b", "c", "d", "e", "logic"])
  {
    var lanes := ["a", "b", "c", "d", "e", "logic"];
    assert lanes[..5] == ["a", "b", "c", "d", "e"];
    DistinctSize(lanes[..5]);
    assert CutAt(lanes, "logic", 5);
    NormalizedLanes(lanes);
  }

  function TakeFive(lanes: seq<string>): seq<string> {
    if |lanes| > |LANES| then lanes[..|LANES|] else lanes
  }

  /** What the planner's answer is filtered to before it is normalised. */
  function KnownOnly(answer: seq<string>): (known: seq<string>)
    ensures forall l :: l in known <==> l in answer && l in LANES
  {
    if answer == [] then []
    else
      assert answer == [answer[0]] + answer[1..];
      (if answer[0] in LANES then [answer[0]] else []) + KnownOnly(answer[1..])
  }

  /** So no answer of the planner loses `logic` or a known lane it names. */
  lemma PlannerKeepsLogic(answer: seq<string>)
    ensures "logic" in NormalizeLanes(KnownOnly(answer))
    ensures forall l | l in answer && l in LANES :: l in NormalizeLanes(KnownOnly(answer))
  {
    KnownLanesKeepLogic(KnownOnly(answer));
  }

  /** With known lanes, which is all the planner passes on, nothing is cut off and `logic` is always there. */
  lemma KnownLanesKeepLogic(lanes: seq<string>)
    requires forall l | l in lanes :: l in LANES
    ensures "logic" in NormalizeLanes(lanes) && forall l | l in lanes :: l in NormalizeLanes(lanes)
  {
    var distinct := Merge([], lanes);
    var withLogic := if "logic" in distinct then distinct else ["logic"] + distinct;
    assert LANES[1] == "logic";
    assert forall l | l in withLogic :: l in LANES;
    AtMostFive(withLogic);
    assert forall l | l in withLogic :: l in TakeFive(withLogic);
    if |withLogic| < 2 { LogicOnly(withLogic); }
  }

  lemma AtMostFive(lanes: seq<string>)
    requires Distinct(lanes) && forall l | l in lanes :: l in LANES
    ensures |lanes| <= |LANES|
  {
    DistinctSize(lanes);
    var names := {LANES[0], LANES[1], LANES[2], LANES[3], LANES[4]};
    assert (set l | l in lanes) <= names;
    SubsetSize((set l | l in lanes), names);
    assert |names| <= 5;
  }

  lemma {:induction false} SubsetSize(a: set<string>, b: set<string>)
    requires a <= b
    ensures |a| <= |b|
  {
    if a != {} {
      var x :| x in a;
      SubsetSize(a - {x}, b - {x});
    }
  }

  /** Normalising changes nothing exactly when the planner already complies. */
  lemma NoOpWhenCompliant(lanes: seq<string>)
    ensures NormalizeLanes(lanes) == lanes <==> Distinct(lanes) && "logic" in lanes && 2 <= |lanes| <= |LANES|
  {
    NormalizedLanes(lanes);
    if Distinct(lanes) {
      assert [] + lanes == lanes;
      MergeFromNone([], lanes);
    }
  }

  // ---- Which lanes come first ------------------------------------------------------------------------------

  /** Without repeats, names keep the order in which they come for the first time. */
  lemma FirstPlacesKeepOrder(lanes: seq<string>, i: nat, j: nat) returns (a: nat, b: nat)
    requires i < j < |lanes| && lanes[i] !in lanes[..i] && lanes[j] !in lanes[..j]
    ensures a < b < |Merge([], lanes)| && Merge([], lanes)[a] == lanes[i] && Merge([], lanes)[b] == lanes[j]
  {
    hide Merge, Names;
    PlaceOf(lanes, i);
    PlaceOf(lanes, j);
    a, b := |Names(lanes[..i])|, |Names(lanes[..j])|;
    assert (Merge([], lanes[..i]) + [lanes[i]])[a] == lanes[i] && (Merge([], lanes[..j]) + [lanes[j]])[b] == lanes[j];
    MoreNames(lanes, i, j);
  }

  lemma MoreNames(lanes: seq<string>, i: nat, j: nat)
    requires i < j <= |lanes| && lanes[i] !in lanes[..i]
    ensures |Names(lanes[..i])| < |Names(lanes[..j])|
  {
    var few, many := Names(lanes[..i]), Names(lanes[..j]);
    forall l | l in few + {lanes[i]} ensures l in many {
      if l == lanes[i] {
        assert lanes[..j][i] == l;
      } else {
        var k :| 0 <= k < i && lanes[..i][k] == l;
        assert lanes[..j][k] == l;
      }
    }
    assert lanes[i] !in few;
    SubsetSize(few + {lanes[i]}, many);
  }

  /** A missing `logic` is put before the different names, if they leave room. */
  lemma LogicComesFirst(lanes: seq<string>)
    requires "logic" !in lanes && 1 <= |Merge([], lanes)| < |LANES|
    ensures NormalizeLanes(lanes) == ["logic"] + Merge([], lanes)
  {
    hide Merge, FirstAbsent;
  }

  /** With `logic` alone, or nothing, `security` makes up the second lane. */
  lemma SecurityIsSecond(lanes: seq<string>)
    requires Merge([], lanes) == [] || Merge([], lanes) == ["logic"]
    ensures NormalizeLanes(lanes) == ["logic", "security"]
  {
    LogicOnly(["logic"]);
    hide Merge, FirstAbsent;
    assert ["logic"] + [] == ["logic"] && ["logic"] + ["security"] == ["logic", "security"];
  }

  /** Three lists to the letter. */
  lemma LaneSamples()
    ensures NormalizeLanes([]) == ["logic", "security"] == NormalizeLanes(["logic", "logic"])
    ensures NormalizeLanes(["editorial", "security", "editorial"]) == ["logic"] + ["editorial", "security"]
  {
    MergeSamples();
    hide Merge, FirstAbsent, NormalizeLanes;
    SecurityIsSecond([]);
    SecurityIsSecond(["logic", "logic"]);
    assert "logic"[0] != "security"[0] && "logic"[0] != "editorial"[0];
    LogicComesFirst(["editorial", "security", "editorial"]);
  }

  lemma MergeSamples()
    ensures Merge([], []) == [] && Merge([], ["logic", "logic"]) == ["logic"]
    ensures Merge([], ["editorial", "security", "editorial"]) == ["editorial", "security"]
  {
    assert "security"[0] != "editorial"[0];
    assert ["logic", "logic"][1..] == ["logic"] && ["logic"][1..] == [] && [] + ["logic"] == ["logic"];
    var three := ["editorial", "security", "editorial"];
    assert three[1..] == ["security", "editorial"] && three[1..][1..] == ["editorial"] && three[1..][1..][1..] == [];
    assert [] + ["editorial"] == ["editorial"] && ["editorial"] + ["security"] == ["editorial", "security"];
  }

  /** A confidence of one half is enough, and anything below is not. */
  lemma HalfIsEnough(f: Finding)
    ensures Qualifies(f, f.fileLine) <==> f.confidence >= 0.5
  {
  }
}
