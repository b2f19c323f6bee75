/** Evolving candidate skills: Pareto frontier, mutation rounds, final selection
    (crates/puffer-skill-evolution/lib.rs, pareto.rs, mutate.rs, generate.rs). Scores are exact reals;
    what the agents answer is a parameter. */
module SkillEvolution {
  import opened Wrappers

  datatype Scores = Scores(novelty: real, reproducibility: real, structure: real, conciseness: real) {
    predicate Dominates(other: Scores) {
      && novelty >= other.novelty && reproducibility >= other.reproducibility
      && structure >= other.structure && conciseness >= other.conciseness
      && (novelty > other.novelty || reproducibility > other.reproducibility
          || structure > other.structure || conciseness > other.conciseness)
    }

    function Total(): real {
      novelty + reproducibility + structure + conciseness
    }

    /** Preferred in the final selection: more reproducible, then the greater total. */
    predicate Preferred(other: Scores) {
      reproducibility > other.reproducibility || (reproducibility == other.reproducibility && Total() > other.Total())
    }
  }

  datatype Candidate = Candidate(skill: string, bodyBytes: nat, scores: Option<Scores>)

  // ---- The frontier ---------------------------------------------------------------------

  predicate Dominated(pool: seq<Candidate>, index: nat)
    requires index < |pool| && pool[index].scores.Some?
  {
    exists other | 0 <= other < |pool| ::
      other != index && pool[other].scores.Some? && pool[other].scores.value.Dominates(pool[index].scores.value)
  }

  predicate OnFrontier(pool: seq<Candidate>, index: nat) {
    index < |pool| && pool[index].scores.Some? && !Dominated(pool, index)
  }

  /** Exactly the non-dominated indices below `n`, in order. */
  function FrontierTo(pool: seq<Candidate>, n: nat): (frontier: seq<nat>)
    requires n <= |pool|
    ensures forall i: nat :: i in frontier <==> i < n && OnFrontier(pool, i)
    ensures forall a, b | 0 <= a < b < |frontier| :: frontier[a] < frontier[b]
    ensures |frontier| <= n
  {
    if n == 0 then []
    else
      var before := FrontierTo(pool, n - 1);
      assert forall a | 0 <= a < |before| :: before[a] in before;
      if OnFrontier(pool, n - 1) then before + [n - 1] else before
  }

  function Frontier(pool: seq<Candidate>): seq<nat> {
    FrontierTo(pool, |pool|)
  }

  method ParetoFrontier(pool: seq<Candidate>) returns (frontier: seq<nat>)
    ensures frontier == Frontier(pool)
  {
    frontier := [];
    for index := 0 to |pool|
      invariant frontier == FrontierTo(pool, index)
    {
      if pool[index].scores.Some? && !Dominated(pool, index) {
        frontier := frontier + [index];
      }
    }
  }

  // ---- The selection ------------------------------------------------------------------------

  predicate AllScored(pool: seq<Candidate>) {
    forall i | 0 <= i < |pool| :: pool[i].scores.Some?
  }

  predicate InRange(indices: seq<nat>, n: nat) {
    forall k | 0 <= k < |indices| :: indices[k] < n
  }

  /** Preferred among candidates of which some may not be scored: those lose. */
  predicate Beats(a: Candidate, b: Candidate) {
    a.scores.Some? && (b.scores.None? || a.scores.value.Preferred(b.scores.value))
  }

  /** The first of the greatest, among the candidates at `indices`. */
  predicate IsFirstBest(pool: seq<Candidate>, indices: seq<nat>, at: nat)
    requires InRange(indices, |pool|)
  {
    && at < |indices| && pool[indices[at]].scores.Some?
    && (forall k | 0 <= k < |indices| :: !Beats(pool[indices[k]], pool[indices[at]]))
    && (forall k | 0 <= k < at :: Beats(pool[indices[at]], pool[indices[k]]))
  }

  /** The loop over the frontier. */
  method SelectBest(pool: seq<Candidate>, frontier: seq<nat>) returns (best: Option<Candidate>)
    requires InRange(frontier, |pool|)
    ensures best.None? <==> forall k | 0 <= k < |frontier| :: pool[frontier[k]].scores.None?
    ensures best.Some? ==> exists at: nat :: IsFirstBest(pool, frontier, at) && best.value == pool[frontier[at]]
  {
    best := None;
    ghost var at: nat := 0;
    for k := 0 to |frontier|
      invariant best.None? <==> forall l | 0 <= l < k :: pool[frontier[l]].scores.None?
      invariant best.Some? ==> at < k && best.value == pool[frontier[at]] && best.value.scores.Some?
      invariant best.Some? ==> forall l | 0 <= l < k :: !Beats(pool[frontier[l]], best.value)
      invariant best.Some? ==> forall l | 0 <= l < at :: Beats(best.value, pool[frontier[l]])
    {
      var candidate := pool[frontier[k]];
      if candidate.scores.None? { continue; }
      if best.None? || candidate.scores.value.Preferred(best.value.scores.value) {
        best := Some(candidate);
        at := k;
      }
    }
    assert best.Some? ==> IsFirstBest(pool, frontier, at);
  }

  /** The first lexicographic maximum of the whole pool. */
  predicate IsPoolBest(pool: seq<Candidate>, at: nat)
    requires AllScored(pool)
  {
    && at < |pool|
    && (forall k | 0 <= k < |pool| :: !pool[k].scores.value.Preferred(pool[at].scores.value))
    && (forall k | 0 <= k < at :: pool[at].scores.value.Preferred(pool[k].scores.value))
  }

  lemma {:induction false} PoolBestExists(pool: seq<Candidate>) returns (at: nat)
    requires AllScored(pool) && pool != []
    ensures IsPoolBest(pool, at)
  {
    var n := |pool| - 1;
    var init := pool[..n];
    if n == 0 {
      at := 0;
    } else {
      at := PoolBestExists(init);
      assert forall k | 0 <= k < n :: init[k] == pool[k];
      if pool[n].scores.value.Preferred(pool[at].scores.value) { at := n; }
    }
  }

  /** The best of the pool is on the frontier: whatever dominated it would be preferred to it. */
  lemma BestIsOnFrontier(pool: seq<Candidate>, at: nat)
    requires AllScored(pool) && IsPoolBest(pool, at)
    ensures OnFrontier(pool, at)
  {
    if Dominated(pool, at) {
      var other :| 0 <= other < |pool| && other != at && pool[other].scores.value.Dominates(pool[at].scores.value);
      DominatorPreferred(pool[other].scores.value, pool[at].scores.value);
    }
  }

  lemma DominatorPreferred(a: Scores, b: Scores)
    requires a.Dominates(b)
    ensures a.Preferred(b)
  {
  }

  lemma FrontierInRange(pool: seq<Candidate>)
    ensures InRange(Frontier(pool), |pool|)
  {
    var frontier := Frontier(pool);
    assert forall k | 0 <= k < |frontier| :: frontier[k] in frontier;
  }

  /** The first best on the frontier of a scored pool is the first best of the whole pool. */
  lemma SelectionIsGlobal(pool: seq<Candidate>, at: nat)
    requires AllScored(pool) && InRange(Frontier(pool), |pool|) && IsFirstBest(pool, Frontier(pool), at)
    ensures IsPoolBest(pool, Frontier(pool)[at])
  {
    var frontier := Frontier(pool);
    assert frontier[at] in frontier;
    var best := PoolBestExists(pool);
    BestIsOnFrontier(pool, best);
    var k :| 0 <= k < |frontier| && frontier[k] == best;
    assert !Beats(pool[frontier[k]], pool[frontier[at]]);
    assert !pool[frontier[at]].scores.value.Preferred(pool[best].scores.value);
    assert !(k < at);
    assert !(at < k);
  }

  lemma FrontierNotEmpty(pool: seq<Candidate>)
    requires AllScored(pool) && pool != []
    ensures Frontier(pool) != []
  {
    var best := PoolBestExists(pool);
    BestIsOnFrontier(pool, best);
    assert best in Frontier(pool);
  }

  // ---- The rounds -----------------------------------------------------------------------------------

  /** What the agents answer: scores for the candidate at an index in a round, and the mutant of the
      survivor at a position in a round; `None` is a failed call or an answer that does not parse. */
  datatype Agents = Agents(judge: (nat, nat) -> Option<Scores>, mutate: (nat, nat) -> Option<Candidate>)

  /** What is kept of one answer: within the size budget, and unscored. */
  function KeptOne(answer: Option<Candidate>, maxBytes: nat): seq<Candidate> {
    if answer.Some? && answer.value.bodyBytes <= maxBytes then [answer.value.(scores := None)] else []
  }

  /** Answers within the size budget, unscored. */
  function Kept(answers: seq<Option<Candidate>>, maxBytes: nat): (kept: seq<Candidate>)
    ensures |kept| <= |answers|
  {
    if answers == [] then []
    else KeptOne(answers[0], maxBytes) + Kept(answers[1..], maxBytes)
  }

  /** The pool of a round after judging; `None` when the judge failed. */
  function Judged(agents: Agents, round: nat, pool: seq<Candidate>, from: nat): (r: Option<seq<Candidate>>)
    requires from <= |pool|
    ensures r.Some? ==> |r.value| == |pool| && (forall i | from <= i < |pool| :: r.value[i].scores.Some?)
    ensures r.Some? ==> forall i | 0 <= i < |pool| :: i < from || pool[i].scores.Some? ==> r.value[i] == pool[i]
    ensures r.Some? ==> forall i | 0 <= i < |pool| :: r.value[i].skill == pool[i].skill
    decreases |pool| - from
  {
    if from == |pool| then Some(pool)
    else if pool[from].scores.Some? then Judged(agents, round, pool, from + 1)
    else match agents.judge(round, from)
      case None => None
      case Some(s) => Judged(agents, round, pool[from := pool[from].(scores := Some(s))], from + 1)
  }

  function Answers(agents: Agents, round: nat, survivors: nat): (answers: seq<Option<Candidate>>)
    ensures |answers| == survivors
  {
    seq(survivors, k requires 0 <= k < survivors => agents.mutate(round, k))
  }

  /** The scored pool at the end of the last round, or `None` when some judge call failed. */
  function FinalPool(agents: Agents, maxBytes: nat, pool: seq<Candidate>, round: nat,
                     rounds: nat): Option<seq<Candidate>>
    requires round <= rounds
    decreases rounds - round
  {
    match Judged(agents, round, pool, 0)
    case None => None
    case Some(scored) =>
      if round == rounds then Some(scored)
      else
        var kept := Kept(Answers(agents, round, |Frontier(scored)|), maxBytes);
        FinalPool(agents, maxBytes, scored + kept, round + 1, rounds)
  }

  method JudgePool(agents: Agents, round: nat, pool: seq<Candidate>) returns (r: Option<seq<Candidate>>)
    ensures r == Judged(agents, round, pool, 0)
  {
    var scored := pool;
    for i := 0 to |pool|
      invariant |scored| == |pool|
      invariant Judged(agents, round, scored, i) == Judged(agents, round, pool, 0)
    {
      if scored[i].scores.None? {
        var s := agents.judge(round, i);
        if s.None? { return None; }
        scored := scored[i := scored[i].(scores := s)];
      }
    }
    r := Some(scored);
  }

  lemma KeptStep(mutants: seq<Candidate>, answers: seq<Option<Candidate>>, k: nat, maxBytes: nat)
    requires k < |answers|
    ensures (mutants + KeptOne(answers[k], maxBytes)) + Kept(answers[k + 1..], maxBytes) ==
      mutants + Kept(answers[k..], maxBytes)
  {
    assert answers[k..][0] == answers[k] && answers[k..][1..] == answers[k + 1..];
    assert Kept(answers[k..], maxBytes) == KeptOne(answers[k], maxBytes) + Kept(answers[k + 1..], maxBytes);
  }

  method MutateSurvivors(agents: Agents, maxBytes: nat, round: nat, survivors: nat) returns (mutants: seq<Candidate>)
    ensures mutants == Kept(Answers(agents, round, survivors), maxBytes)
  {
    mutants := [];
    ghost var answers := Answers(agents, round, survivors);
    assert Kept([], maxBytes) == [];
    hide Kept, Answers;
    assert answers[0..] == answers;
    for k := 0 to survivors
      invariant mutants + Kept(answers[k..], maxBytes) == Kept(answers, maxBytes)
    {
      var answer := agents.mutate(round, k);
      KeptStep(mutants, answers, k, maxBytes);
      assert mutants + [] == mutants;
      if answer.Some? && answer.value.bodyBytes <= maxBytes {
        mutants := mutants + [answer.value.(scores := None)];
      }
    }
    assert answers[survivors..] == [] && mutants + [] == mutants;
  }

  /** The whole loop: the result is the first best of everything that was ever generated. */
  method RunGepa(agents: Agents, generated: seq<Option<Candidate>>, rounds: nat, maxBytes: nat)
    returns (r: Option<Candidate>)
    ensures r.Some? <==>
      Kept(generated, maxBytes) != [] && FinalPool(agents, maxBytes, Kept(generated, maxBytes), 0, rounds).Some?
    ensures r.Some? ==>
      var pool := FinalPool(agents, maxBytes, Kept(generated, maxBytes), 0, rounds).value;
      AllScored(pool) && exists at: nat :: IsPoolBest(pool, at) && r.value == pool[at]
  {
    hide Judged, FrontierTo, Kept, Answers, IsPoolBest;
    var pool := Kept(generated, maxBytes);
    if pool == [] { return None; }
    var frontier: seq<nat> := [];
    ghost var end := FinalPool(agents, maxBytes, pool, 0, rounds);
    for round := 0 to rounds + 1
      invariant pool != []
      invariant round <= rounds ==> FinalPool(agents, maxBytes, pool, round, rounds) == end
      invariant round == rounds + 1 ==> end == Some(pool) && AllScored(pool) && frontier == Frontier(pool)
    {
      var scored := JudgePool(agents, round, pool);
      if scored.None? { return None; }
      pool := scored.value;
      frontier := ParetoFrontier(pool);
      if round < rounds {
        var mutants := MutateSurvivors(agents, maxBytes, round, |frontier|);
        pool := pool + mutants;
      }
    }
    FrontierInRange(pool);
    FrontierNotEmpty(pool);
    r := SelectBest(pool, frontier);
    assert pool[frontier[0]].scores.Some?;
    ghost var at: nat :| IsFirstBest(pool, frontier, at) && r.value == pool[frontier[at]];
    SelectionIsGlobal(pool, at);
    assert IsPoolBest(pool, frontier[at]);
  }

  // ---- How large the pool gets, and that it forgets nothing ----------------------------------------------

  /** `size` times two to the `times`. */
  function Doubled(size: nat, times: nat): nat
    decreases times
  {
    if times == 0 then size else Doubled(2 * size, times - 1)
  }

  lemma {:induction false} DoubledKeepsOrder(a: nat, b: nat, times: nat)
    requires a <= b
    ensures Doubled(a, times) <= Doubled(b, times)
    decreases times
  {
    if times > 0 { DoubledKeepsOrder(2 * a, 2 * b, times - 1); }
  }

  /** Each round at most doubles the pool. */
  lemma {:induction false} PoolBound(agents: Agents, maxBytes: nat, pool: seq<Candidate>, round: nat, rounds: nat)
    requires round <= rounds && FinalPool(agents, maxBytes, pool, round, rounds).Some?
    ensures |FinalPool(agents, maxBytes, pool, round, rounds).value| <= Doubled(|pool|, rounds - round)
    decreases rounds - round
  {
    hide Judged, FrontierTo, Kept, Answers;
    if round < rounds {
      var scored := Judged(agents, round, pool, 0).value;
      var next := scored + Kept(Answers(agents, round, |Frontier(scored)|), maxBytes);
      PoolBound(agents, maxBytes, next, round + 1, rounds);
      DoubledKeepsOrder(|next|, 2 * |pool|, rounds - round - 1);
    }
  }

  /** From `n` generated candidates and `k` rounds the pool holds at most `n` doubled `k` times. */
  lemma PoolWithinBudget(agents: Agents, generated: seq<Option<Candidate>>, rounds: nat, maxBytes: nat)
    requires FinalPool(agents, maxBytes, Kept(generated, maxBytes), 0, rounds).Some?
    ensures |FinalPool(agents, maxBytes, Kept(generated, maxBytes), 0, rounds).value| <= Doubled(|generated|, rounds)
  {
    PoolBound(agents, maxBytes, Kept(generated, maxBytes), 0, rounds);
    DoubledKeepsOrder(|Kept(generated, maxBytes)|, |generated|, rounds);
  }

  /** Everything that was ever in the pool is in the final pool, at its index, with the scores it got. */
  lemma {:induction false} PoolForgetsNothing(agents: Agents, maxBytes: nat, pool: seq<Candidate>, round: nat,
                                              rounds: nat)
    requires round <= rounds && FinalPool(agents, maxBytes, pool, round, rounds).Some?
    ensures var end := FinalPool(agents, maxBytes, pool, round, rounds).value;
      && |pool| <= |end| && AllScored(end)
      && forall i | 0 <= i < |pool| :: end[i].skill == pool[i].skill && (pool[i].scores.Some? ==> end[i] == pool[i])
    decreases rounds - round
  {
    if round < rounds {
      var scored := Judged(agents, round, pool, 0).value;
      var next := scored + Kept(Answers(agents, round, |Frontier(scored)|), maxBytes);
      PoolForgetsNothing(agents, maxBytes, next, round + 1, rounds);
      assert forall i | 0 <= i < |scored| :: next[i] == scored[i];
    }
  }

  // ---- What every round adds -------------------------------------------------------------------------------

  /** The answer parses and fits the budget. */
  predicate Usable(answer: Option<Candidate>, maxBytes: nat) {
    answer.Some? && answer.value.bodyBytes <= maxBytes
  }

  function UsableCount(answers: seq<Option<Candidate>>, maxBytes: nat): nat {
    if answers == [] then 0
    else UsableCount(answers[..|answers| - 1], maxBytes) + if Usable(answers[|answers| - 1], maxBytes) then 1 else 0
  }

  lemma {:induction false} KeptAppend(init: seq<Option<Candidate>>, last: Option<Candidate>, maxBytes: nat)
    ensures Kept(init + [last], maxBytes) == Kept(init, maxBytes) + KeptOne(last, maxBytes)
  {
    if init == [] {
      assert init + [last] == [last] && [last][1..] == [];
      assert KeptOne(last, maxBytes) + [] == KeptOne(last, maxBytes) == [] + KeptOne(last, maxBytes);
    } else {
      assert (init + [last])[0] == init[0] && (init + [last])[1..] == init[1..] + [last];
      KeptAppend(init[1..], last, maxBytes);
    }
  }

  /** The usable answers are kept in order, each with its text and size and without scores; nothing else is kept. */
  predicate KeepsUsable(kept: seq<Candidate>, answers: seq<Option<Candidate>>, maxBytes: nat) {
    && |kept| == UsableCount(answers, maxBytes)
    && forall k | 0 <= k < |answers| && Usable(answers[k], maxBytes) ::
         UsableCount(answers[..k], maxBytes) < |kept|
         && kept[UsableCount(answers[..k], maxBytes)]
            == Candidate(answers[k].value.skill, answers[k].value.bodyBytes, None)
  }

  lemma {:induction false} KeptIsUsable(answers: seq<Option<Candidate>>, maxBytes: nat)
    ensures KeepsUsable(Kept(answers, maxBytes), answers, maxBytes)
  {
    if answers != [] {
      var init, last := answers[..|answers| - 1], answers[|answers| - 1];
      assert answers == init + [last];
      KeptAppend(init, last, maxBytes);
      KeptIsUsable(init, maxBytes);
      hide Kept;
      assert forall k | 0 <= k < |init| :: answers[k] == init[k] && answers[..k] == init[..k];
    }
  }

  /** Judging changes no text and no size, and scores each unscored candidate as the judge of the round says. */
  lemma {:induction false} JudgedAsAnswered(agents: Agents, round: nat, pool: seq<Candidate>, from: nat)
    requires from <= |pool| && Judged(agents, round, pool, from).Some?
    ensures var scored := Judged(agents, round, pool, from).value;
      forall i | from <= i < |pool| :: scored[i].skill == pool[i].skill && scored[i].bodyBytes == pool[i].bodyBytes
        && scored[i].scores == if pool[i].scores.Some? then pool[i].scores else agents.judge(round, i)
    decreases |pool| - from
  {
    if from < |pool| {
      if pool[from].scores.Some? {
        JudgedAsAnswered(agents, round, pool, from + 1);
      } else {
        var next := pool[from := pool[from].(scores := agents.judge(round, from))];
        JudgedAsAnswered(agents, round, next, from + 1);
      }
    }
  }

  /** The pool after one round more. */
  lemma {:induction false} OneRoundMore(agents: Agents, maxBytes: nat, pool: seq<Candidate>, from: nat, round: nat)
    requires from <= round
    ensures FinalPool(agents, maxBytes, pool, from, round + 1) ==
      match FinalPool(agents, maxBytes, pool, from, round)
      case None => None
      case Some(p) => Judged(agents, round + 1, p + Kept(Answers(agents, round, |Frontier(p)|), maxBytes), 0)
    decreases round - from
  {
    hide Kept, FrontierTo, Judged, Answers;
    if from < round && Judged(agents, from, pool, 0).Some? {
      var scored := Judged(agents, from, pool, 0).value;
      var next := scored + Kept(Answers(agents, from, |Frontier(scored)|), maxBytes);
      OneRoundMore(agents, maxBytes, next, from + 1, round);
    }
  }

  /** The pool as it was, then a candidate for each usable answer, in order, judged in this round. */
  predicate Adds(agents: Agents, maxBytes: nat, before: seq<Candidate>, answers: seq<Option<Candidate>>,
                 after: seq<Candidate>, round: nat)
  {
    && before <= after && |after| == |before| + UsableCount(answers, maxBytes)
    && forall k | 0 <= k < |answers| && Usable(answers[k], maxBytes) ::
         var at := |before| + UsableCount(answers[..k], maxBytes);
         && at < |after| && after[at].skill == answers[k].value.skill
         && after[at].bodyBytes == answers[k].value.bodyBytes && after[at].scores == agents.judge(round, at)
  }

  /** A round keeps the pool as it is and adds, judged in the next round, a mutant for each survivor on the frontier
      whose answer is usable, in order, and nothing else. */
  lemma RoundAdds(agents: Agents, maxBytes: nat, pool: seq<Candidate>, from: nat, round: nat)
    requires from <= round && FinalPool(agents, maxBytes, pool, from, round + 1).Some?
    ensures FinalPool(agents, maxBytes, pool, from, round).Some?
    ensures var before := FinalPool(agents, maxBytes, pool, from, round).value;
      var after := FinalPool(agents, maxBytes, pool, from, round + 1).value;
      var answers := Answers(agents, round, |Frontier(before)|);
      && (forall k | 0 <= k < |answers| :: answers[k] == agents.mutate(round, k))
      && Adds(agents, maxBytes, before, answers, after, round + 1)
  {
    OneRoundMore(agents, maxBytes, pool, from, round);
    PoolForgetsNothing(agents, maxBytes, pool, from, round);
    hide Kept, FrontierTo, Judged, FinalPool, Answers, Adds;
    var before := FinalPool(agents, maxBytes, pool, from, round).value;
    MutantsJudged(agents, maxBytes, before, Answers(agents, round, |Frontier(before)|), round + 1);
    AnswersAre(agents, round, |Frontier(before)|);
  }

  lemma AnswersAre(agents: Agents, round: nat, survivors: nat)
    ensures forall k | 0 <= k < survivors :: Answers(agents, round, survivors)[k] == agents.mutate(round, k)
  {
  }

  lemma MutantsJudged(agents: Agents, maxBytes: nat, before: seq<Candidate>, answers: seq<Option<Candidate>>,
                      round: nat)
    requires AllScored(before) && Judged(agents, round, before + Kept(answers, maxBytes), 0).Some?
    ensures var after := Judged(agents, round, before + Kept(answers, maxBytes), 0).value;
      Adds(agents, maxBytes, before, answers, after, round)
  {
    var kept := Kept(answers, maxBytes);
    var after := Judged(agents, round, before + kept, 0).value;
    KeptIsUsable(answers, maxBytes);
    JudgedAsAnswered(agents, round, before + kept, 0);
    hide Kept, Judged, UsableCount;
    forall i | 0 <= i < |before| ensures after[i] == before[i] { assert (before + kept)[i] == before[i]; }
    forall k | 0 <= k < |answers| && Usable(answers[k], maxBytes)
      ensures var at := |before| + UsableCount(answers[..k], maxBytes);
        && at < |after| && after[at].skill == answers[k].value.skill
        && after[at].bodyBytes == answers[k].value.bodyBytes && after[at].scores == agents.judge(round, at)
    {
      var j := UsableCount(answers[..k], maxBytes);
      assert (before + kept)[|before| + j] == kept[j];
    }
  }

  /** So a usable mutant of any round is in the final pool, at the place it got. */
  lemma {:induction false} EarlierPoolStays(agents: Agents, maxBytes: nat, pool: seq<Candidate>, from: nat, round: nat,
                                            rounds: nat)
    requires from <= round <= rounds && FinalPool(agents, maxBytes, pool, from, rounds).Some?
    ensures FinalPool(agents, maxBytes, pool, from, round).Some?
    ensures FinalPool(agents, maxBytes, pool, from, round).value
      <= FinalPool(agents, maxBytes, pool, from, rounds).value
    decreases rounds - round
  {
    if round < rounds {
      EarlierPoolStays(agents, maxBytes, pool, from, round + 1, rounds);
      RoundAdds(agents, maxBytes, pool, from, round);
    }
  }

  // ---- What the scores decide ---------------------------------------------------------------------------------

  /** The same scores with `d` added to one of the four. */
  function Raised(s: Scores, which: nat, d: real): Scores
    requires which < 4
  {
    if which == 0 then s.(novelty := s.novelty + d)
    else if which == 1 then s.(reproducibility := s.reproducibility + d)
    else if which == 2 then s.(structure := s.structure + d)
    else s.(conciseness := s.conciseness + d)
  }

  /** More of any one score dominates; more of one for less of another never does. */
  lemma DominanceTrades(s: Scores, which: nat, other: nat, gain: real, loss: real)
    requires which < 4 && other < 4 && which != other && gain > 0.0 && loss > 0.0
    ensures Raised(s, which, gain).Dominates(s) && !s.Dominates(Raised(s, which, gain)) && !s.Dominates(s)
    ensures !Raised(Raised(s, which, gain), other, -loss).Dominates(s)
  {
  }

  /** A gain in reproducibility outweighs any loss elsewhere; between the other three only the sum counts. */
  lemma PreferenceTrades(s: Scores, which: nat, other: nat, gain: real, loss: real)
    requires which in {0, 2, 3} && other in {0, 2, 3} && gain > 0.0 && loss > 0.0
    ensures Raised(Raised(s, 1, gain), other, -loss).Preferred(s)
      && !s.Preferred(Raised(Raised(s, 1, gain), other, -loss))
    ensures Raised(Raised(s, which, gain), other, -loss).Preferred(s) <==> gain > loss
  {
  }
}
