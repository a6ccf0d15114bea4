/**
 * The optimal location agent: loads every village with x, y and population,
 * scores each one as a candidate station by the population-weighted sum of
 * distances to all loaded villages, and links the action to the first
 * village of smallest score (a weighted 1-median over the villages).
 */
module FindOptimalAgent {
  import opened KnowledgeBase
  import opened Geometry
  import opened VillageLoader
  import opened Selection

  /**
   * The running sum of the inner loop: distance from the candidate to each
   * target times the target's population, added in target order.
   */
  function Score(hypot: (real, real) -> real, candidate: Site, targets: seq<Site>): real
    decreases |targets|
  {
    if targets == [] then 0.0
    else
      var t := targets[|targets| - 1];
      Score(hypot, candidate, targets[..|targets| - 1]) + Distance(hypot, candidate.pos, t.pos) * (t.population as real)
  }

  /** The score over two stretches of targets is the sum of their scores. */
  lemma {:induction false} ScoreAppend(hypot: (real, real) -> real, candidate: Site, a: seq<Site>, b: seq<Site>)
    ensures Score(hypot, candidate, a + b) == Score(hypot, candidate, a) + Score(hypot, candidate, b)
    decreases |b|
  {
    if b == [] {
      assert a + b == a;
    } else {
      assert (a + b)[..|a + b| - 1] == a + b[..|b| - 1];
      ScoreAppend(hypot, candidate, a, b[..|b| - 1]);
    }
  }

  /**
   * The candidate's own entry among the targets adds nothing: its distance
   * to itself is 0.
   */
  lemma ScoreSkipsSelf(hypot: (real, real) -> real, candidate: Site, a: seq<Site>, b: seq<Site>)
    requires IsHypot(hypot)
    ensures Score(hypot, candidate, a + [candidate] + b) == Score(hypot, candidate, a + b)
  {
    ScoreAppend(hypot, candidate, a + [candidate], b);
    ScoreAppend(hypot, candidate, a, [candidate]);
    ScoreAppend(hypot, candidate, a, b);
    ScoreOfSelf(hypot, candidate);
  }

  lemma ScoreOfSelf(hypot: (real, real) -> real, candidate: Site)
    requires IsHypot(hypot)
    ensures Score(hypot, candidate, [candidate]) == 0.0
  {
    DistanceLaws(hypot, candidate.pos, candidate.pos);
    assert [candidate][..0] == [];
    assert Score(hypot, candidate, [candidate]) == 0.0 + 0.0 * (candidate.population as real);
  }

  /** With no negative population, every score is non-negative. */
  lemma {:induction false} ScoreNonNegative(hypot: (real, real) -> real, candidate: Site, targets: seq<Site>)
    requires IsHypot(hypot)
    requires forall t :: t in targets ==> 0 <= t.population
    ensures 0.0 <= Score(hypot, candidate, targets)
    decreases |targets|
  {
    if targets != [] {
      var t := targets[|targets| - 1];
      assert t in targets;
      assert forall s :: s in targets[..|targets| - 1] ==> s in targets;
      ScoreNonNegative(hypot, candidate, targets[..|targets| - 1]);
      DistanceLaws(hypot, candidate.pos, t.pos);
      ProductNonNegative(Distance(hypot, candidate.pos, t.pos), t.population as real);
    }
  }

  lemma ProductNonNegative(d: real, p: real)
    requires 0.0 <= d && 0.0 <= p
    ensures 0.0 <= d * p
  {
  }

  /** The score of every loaded village as candidate, in load order. */
  function Scores(hypot: (real, real) -> real, sites: seq<Site>): (scores: seq<real>)
    ensures |scores| == |sites|
    ensures forall k {:trigger scores[k]} :: 0 <= k < |sites| ==> scores[k] == Score(hypot, sites[k], sites)
  {
    seq(|sites|, k requires 0 <= k < |sites| => Score(hypot, sites[k], sites))
  }

  /**
   * The index of the chosen station: a village of smallest score, and the
   * first one among equals.
   */
  function Optimal(hypot: (real, real) -> real, sites: seq<Site>): (c: nat)
    requires |sites| > 0
    ensures c < |sites|
    ensures forall k {:trigger Score(hypot, sites[k], sites)} :: 0 <= k < |sites| ==>
              Score(hypot, sites[c], sites) <= Score(hypot, sites[k], sites)
    ensures forall k {:trigger Score(hypot, sites[k], sites)} :: 0 <= k < c ==>
              Score(hypot, sites[c], sites) < Score(hypot, sites[k], sites)
  {
    var scores := Scores(hypot, sites);
    var c := FirstMin(scores);
    assert forall k {:trigger Score(hypot, sites[k], sites)} :: 0 <= k < |sites| ==>
             scores[k] == Score(hypot, sites[k], sites);
    c
  }

  /**
   * A run: an empty village class and a class without any complete village
   * are two different errors, both writing nothing; else one optimal
   * location fact links the action to the chosen village.
   */
  function Run(hypot: (real, real) -> real, villages: seq<Addr>, attributes: map<Addr, Attributes>, action: Addr): (r: RunResult)
    ensures r.outcome == Failure(NoVillagesInKnowledgeBase) <==> |villages| == 0
    ensures r.outcome == Failure(NoValidVillageData) <==>
              |villages| > 0 && forall v :: v in villages ==> ReadSite(attributes, v, CoordinatesAndPopulationRequired).None?
    ensures r.outcome == Success <==>
              |villages| > 0 && exists v :: v in villages && ReadSite(attributes, v, CoordinatesAndPopulationRequired).Some?
    ensures r.outcome.Failure? ==> r.written == []
    ensures r.outcome == Success ==>
              |r.written| == 1 && r.written[0].OptimalLocationFact? && r.written[0].action == action
              && r.written[0].target in villages
  {
    var sites := Loaded(villages, attributes, CoordinatesAndPopulationRequired);
    LoadedEmpty(villages, attributes, CoordinatesAndPopulationRequired);
    if |villages| == 0 then RunResult(Failure(NoVillagesInKnowledgeBase), [])
    else if |sites| == 0 then RunResult(Failure(NoValidVillageData), [])
    else
      var c := Optimal(hypot, sites);
      LoadedMembers(villages, attributes, CoordinatesAndPopulationRequired);
      assert sites[c] in sites;
      RunResult(Success, [OptimalLocationFact(action, sites[c].addr)])
  }

  /**
   * On success the chosen village is a loaded village whose score is at most
   * that of every loaded village, and strictly below every village loaded
   * before it.
   */
  lemma RunPicksMinimum(hypot: (real, real) -> real, villages: seq<Addr>, attributes: map<Addr, Attributes>, action: Addr)
    requires Run(hypot, villages, attributes, action).outcome == Success
    ensures var sites := Loaded(villages, attributes, CoordinatesAndPopulationRequired);
      var w := Run(hypot, villages, attributes, action).written;
      var c := Optimal(hypot, sites);
      && w == [OptimalLocationFact(action, sites[c].addr)]
      && (forall k :: 0 <= k < |sites| ==> Score(hypot, sites[c], sites) <= Score(hypot, sites[k], sites))
      && (forall k :: 0 <= k < c ==> Score(hypot, sites[c], sites) < Score(hypot, sites[k], sites))
  {
    var sites := Loaded(villages, attributes, CoordinatesAndPopulationRequired);
    var c := Optimal(hypot, sites);
    assert Run(hypot, villages, attributes, action).written == [OptimalLocationFact(action, sites[c].addr)];
    assert 0 <= c < |sites|;
  }

  /**
   * The inner loop of FindOptimalAgent::DoProgram: accumulate distance times
   * population over the targets, starting at 0.0.
   */
  method WeightedScore(hypot: (real, real) -> real, candidate: Site, targets: seq<Site>) returns (currentScore: real)
    ensures currentScore == Score(hypot, candidate, targets)
  {
    currentScore := 0.0;
    var j := 0;
    while j < |targets|
      invariant 0 <= j <= |targets|
      invariant currentScore == Score(hypot, candidate, targets[..j])
    {
      var target := targets[j];
      assert targets[..j + 1][..j] == targets[..j];
      var dist := Distance(hypot, candidate.pos, target.pos);
      currentScore := currentScore + dist * (target.population as real);
      j := j + 1;
    }
    assert targets[..j] == targets;
  }

  /**
   * The outer loop of FindOptimalAgent::DoProgram: score every candidate and
   * keep the strict-`<` running minimum.
   */
  method SelectOptimal(hypot: (real, real) -> real, villages: seq<Site>) returns (bestVillageAddr: Addr)
    requires |villages| > 0
    ensures bestVillageAddr == villages[Optimal(hypot, villages)].addr
  {
    ghost var scores := Scores(hypot, villages);
    var minScore := 0.0;
    var found := false;
    ghost var best := 0;
    bestVillageAddr := 0;
    var i := 0;
    while i < |villages|
      invariant 0 <= i <= |villages|
      invariant found <==> i > 0
      invariant found ==>
                  && best == FirstMin(scores[..i])
                  && minScore == scores[best]
                  && bestVillageAddr == villages[best].addr
    {
      var candidate := villages[i];
      var currentScore := WeightedScore(hypot, candidate, villages);
      if i > 0 {
        FirstMinStep(scores, i);
      }
      if !found || currentScore < minScore {
        minScore := currentScore;
        bestVillageAddr := candidate.addr;
        found := true;
        best := i;
      }
      i := i + 1;
    }
    assert scores[..i] == scores;
  }

  /**
   * FindOptimalAgent::DoProgram: fail when the village class is empty; load
   * the complete villages and fail when there are none; else link the action
   * to the chosen village. A village is always chosen once one is loaded.
   * The village list and the attributes are left alone.
   */
  method DoProgram(store: Store, hypot: (real, real) -> real, action: Addr) returns (outcome: Outcome)
    modifies store`facts
    ensures store.villages == old(store.villages) && store.attributes == old(store.attributes)
    ensures var r := Run(hypot, store.villages, store.attributes, action);
      outcome == r.outcome && store.facts == old(store.facts) + r.written
  {
    if |store.villages| == 0 {
      return Failure(NoVillagesInKnowledgeBase);
    }
    var villages := Load(store, CoordinatesAndPopulationRequired);
    if |villages| == 0 {
      return Failure(NoValidVillageData);
    }
    var bestVillageAddr := SelectOptimal(hypot, villages);
    store.facts := store.facts + [OptimalLocationFact(action, bestVillageAddr)];
    outcome := Success;
  }
}
