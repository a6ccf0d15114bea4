/**
 * The problem zones agent: finds the station an earlier optimal location run
 * recorded, measures every other village's distance to it, and flags as a
 * problem zone each village farther than 1.5 times the mean distance.
 */
module FindProblemZonesAgent {
  import opened KnowledgeBase
  import opened Geometry
  import opened VillageLoader
  import opened Selection

  /** A village is a problem zone when it is farther than this many mean distances. */
  const ThresholdFactor: real := 1.5

  /** An optimal location fact (for any action) whose target is a village. */
  predicate IsStationFact(f: Fact, villages: seq<Addr>)
  {
    f.OptimalLocationFact? && f.target in villages
  }

  /** The position of the first station fact, or |facts| when there is none. */
  function FirstStationIndex(facts: seq<Fact>, villages: seq<Addr>): (i: nat)
    ensures i <= |facts|
    ensures i < |facts| ==> IsStationFact(facts[i], villages)
    ensures forall j :: 0 <= j < i ==> !IsStationFact(facts[j], villages)
    decreases |facts|
  {
    if facts == [] then 0
    else if IsStationFact(facts[0], villages) then 0
    else 1 + FirstStationIndex(facts[1..], villages)
  }

  /**
   * The station: the target of the first station fact. Optimal location facts
   * whose target is not a village are passed over.
   */
  function Station(facts: seq<Fact>, villages: seq<Addr>): (s: Option<Addr>)
    ensures s.None? <==> forall f :: f in facts ==> !IsStationFact(f, villages)
    ensures s.Some? ==> s.value in villages
  {
    var i := FirstStationIndex(facts, villages);
    if i < |facts| then Some(facts[i].target) else None
  }

  /** One entry of the distance list: a village and its distance to the station. */
  datatype VillageDistance = VillageDistance(addr: Addr, dist: real)

  /**
   * The distance from village `v` to the station, both positions read with
   * absent or malformed coordinates as 0.0.
   */
  function DistanceToStation(hypot: (real, real) -> real, attributes: map<Addr, Attributes>, v: Addr, station: Addr): real
  {
    Distance(hypot, PositionOf(attributes, v), PositionOf(attributes, station))
  }

  /** Every village other than the station, in query order, with its distance. */
  function DistanceList(hypot: (real, real) -> real, villages: seq<Addr>, attributes: map<Addr, Attributes>, station: Addr): seq<VillageDistance>
    decreases |villages|
  {
    if villages == [] then []
    else
      var list := DistanceList(hypot, villages[..|villages| - 1], attributes, station);
      var v := villages[|villages| - 1];
      if v == station then list
      else list + [VillageDistance(v, DistanceToStation(hypot, attributes, v, station))]
  }

  /**
   * The list holds exactly the villages other than the station, each with its
   * distance to the station.
   */
  lemma {:induction false} DistanceListMembers(hypot: (real, real) -> real, villages: seq<Addr>, attributes: map<Addr, Attributes>, station: Addr)
    ensures var list := DistanceList(hypot, villages, attributes, station);
      forall item :: item in list <==>
        item.addr in villages && item.addr != station
        && item.dist == DistanceToStation(hypot, attributes, item.addr, station)
    decreases |villages|
  {
    if villages != [] {
      var prefix := villages[..|villages| - 1];
      DistanceListMembers(hypot, prefix, attributes, station);
      assert forall v :: v in villages <==> v in prefix || v == villages[|villages| - 1];
    }
  }

  /**
   * Each occurrence of a village other than the station gives one entry: the
   * list is as long as the query less the station's occurrences.
   */
  lemma {:induction false} DistanceListSize(hypot: (real, real) -> real, villages: seq<Addr>, attributes: map<Addr, Attributes>, station: Addr)
    ensures |DistanceList(hypot, villages, attributes, station)| + multiset(villages)[station] == |villages|
    decreases |villages|
  {
    if villages != [] {
      var prefix := villages[..|villages| - 1];
      DistanceListSize(hypot, prefix, attributes, station);
      assert villages == prefix + [villages[|villages| - 1]];
      assert multiset(villages) == multiset(prefix) + multiset{villages[|villages| - 1]};
    }
  }

  /** The list keeps the query order: two stretches of the query give two stretches of the list. */
  lemma {:induction false} DistanceListAppend(hypot: (real, real) -> real, a: seq<Addr>, b: seq<Addr>, attributes: map<Addr, Attributes>, station: Addr)
    ensures DistanceList(hypot, a + b, attributes, station) ==
              DistanceList(hypot, a, attributes, station) + DistanceList(hypot, b, attributes, station)
    decreases |b|
  {
    if b == [] {
      assert a + b == a;
    } else {
      var b' := b[..|b| - 1];
      assert (a + b)[..|a + b| - 1] == a + b';
      DistanceListAppend(hypot, a, b', attributes, station);
    }
  }

  /**
   * The sites other than the station, in order, each paired with its distance
   * to `from`.
   */
  function Measured(hypot: (real, real) -> real, sites: seq<Site>, station: Addr, from: Point): seq<VillageDistance>
    decreases |sites|
  {
    if sites == [] then []
    else
      var list := Measured(hypot, sites[..|sites| - 1], station, from);
      var s := sites[|sites| - 1];
      if s.addr == station then list
      else list + [VillageDistance(s.addr, Distance(hypot, s.pos, from))]
  }

  /**
   * The distance list is what the 0.0-defaulting reader loads, less the
   * station, each site measured from the station's own position.
   */
  lemma {:induction false} DistanceListFromLoaded(hypot: (real, real) -> real, villages: seq<Addr>, attributes: map<Addr, Attributes>, station: Addr)
    ensures DistanceList(hypot, villages, attributes, station) ==
              Measured(hypot, Loaded(villages, attributes, AbsentAsZero), station, PositionOf(attributes, station))
    decreases |villages|
  {
    if villages != [] {
      var prefix := villages[..|villages| - 1];
      var v := villages[|villages| - 1];
      DistanceListFromLoaded(hypot, prefix, attributes, station);
      var site := Site(v, PositionOf(attributes, v), 0);
      assert ReadSite(attributes, v, AbsentAsZero) == Some(site);
      var sites := Loaded(villages, attributes, AbsentAsZero);
      assert sites == Loaded(prefix, attributes, AbsentAsZero) + [site];
      assert sites[..|sites| - 1] == Loaded(prefix, attributes, AbsentAsZero);
    }
  }

  /** The running sum of the distances, in list order. */
  function Total(list: seq<VillageDistance>): real
    decreases |list|
  {
    if list == [] then 0.0 else Total(list[..|list| - 1]) + list[|list| - 1].dist
  }

  /** 1.5 times the mean distance of a non-empty list. */
  function Threshold(list: seq<VillageDistance>): real
    requires |list| > 0
  {
    (Total(list) / (|list| as real)) * ThresholdFactor
  }

  /** The problem zone facts: one per entry strictly above the threshold, in list order. */
  function ProblemZoneFacts(list: seq<VillageDistance>, threshold: real, action: Addr): (facts: seq<Fact>)
    ensures |facts| <= |list|
    decreases |list|
  {
    if list == [] then []
    else
      var facts := ProblemZoneFacts(list[..|list| - 1], threshold, action);
      var item := list[|list| - 1];
      if item.dist > threshold then facts + [ProblemZoneFact(action, item.addr)] else facts
  }

  /**
   * Every problem zone fact links the action to an entry strictly above the
   * threshold, and every such entry has its fact.
   */
  lemma {:induction false} ProblemZoneFactsMembers(list: seq<VillageDistance>, threshold: real, action: Addr)
    ensures var facts := ProblemZoneFacts(list, threshold, action);
      && (forall f :: f in facts ==>
            f.ProblemZoneFact? && f.action == action
            && exists item :: item in list && item.addr == f.village && item.dist > threshold)
      && (forall item :: item in list && item.dist > threshold ==> ProblemZoneFact(action, item.addr) in facts)
    decreases |list|
  {
    if list != [] {
      var prefix := list[..|list| - 1];
      ProblemZoneFactsMembers(prefix, threshold, action);
      assert forall item :: item in list <==> item in prefix || item == list[|list| - 1];
    }
  }

  /**
   * The facts keep the list order: two stretches of the list give two
   * stretches of facts, one fact for each flagged entry.
   */
  lemma {:induction false} ProblemZoneFactsAppend(a: seq<VillageDistance>, b: seq<VillageDistance>, threshold: real, action: Addr)
    ensures ProblemZoneFacts(a + b, threshold, action) ==
              ProblemZoneFacts(a, threshold, action) + ProblemZoneFacts(b, threshold, action)
    decreases |b|
  {
    if b == [] {
      assert a + b == a;
    } else {
      var b' := b[..|b| - 1];
      assert (a + b)[..|a + b| - 1] == a + b';
      ProblemZoneFactsAppend(a, b', threshold, action);
    }
  }

  /** An entry at or below the threshold leaves at least one entry unflagged. */
  lemma {:induction false} ProblemZoneFactsMissOne(list: seq<VillageDistance>, threshold: real, action: Addr, k: nat)
    requires k < |list| && list[k].dist <= threshold
    ensures |ProblemZoneFacts(list, threshold, action)| < |list|
    decreases |list|
  {
    var prefix := list[..|list| - 1];
    if k < |list| - 1 {
      assert prefix[k] == list[k];
      ProblemZoneFactsMissOne(prefix, threshold, action, k);
    }
  }

  /** A sum of entries each at least `m` is at least |list| times `m`. */
  lemma {:induction false} TotalAtLeast(list: seq<VillageDistance>, m: real)
    requires forall item :: item in list ==> m <= item.dist
    ensures (|list| as real) * m <= Total(list)
    decreases |list|
  {
    if list != [] {
      var prefix := list[..|list| - 1];
      assert forall item :: item in prefix ==> item in list;
      assert list[|list| - 1] in list;
      TotalAtLeast(prefix, m);
      assert (|list| as real) * m == (|prefix| as real) * m + m;
    }
  }

  /** A quotient by a positive count is at least `m` when the dividend is at least count times `m`. */
  lemma QuotientAtLeast(t: real, n: real, m: real)
    requires 0.0 < n && n * m <= t
    ensures m <= t / n
  {
  }

  /**
   * With no negative distance, a nearest entry is never above the threshold:
   * it is at most the mean, and the mean is at most 1.5 times itself.
   */
  lemma NearestWithinThreshold(list: seq<VillageDistance>, k: nat)
    requires k < |list|
    requires forall j :: 0 <= j < |list| ==> 0.0 <= list[j].dist && list[k].dist <= list[j].dist
    ensures list[k].dist <= Threshold(list)
  {
    var m := list[k].dist;
    TotalAtLeast(list, m);
    QuotientAtLeast(Total(list), |list| as real, m);
    var mean := Total(list) / (|list| as real);
    assert 0.0 <= m <= mean;
    assert mean <= mean * ThresholdFactor;
  }

  /** The distances of a list, in order. */
  function Dists(list: seq<VillageDistance>): (ds: seq<real>)
    ensures |ds| == |list|
    ensures forall k {:trigger ds[k]} :: 0 <= k < |list| ==> ds[k] == list[k].dist
  {
    seq(|list|, k requires 0 <= k < |list| => list[k].dist)
  }

  /** With no negative distance, a non-empty list is never flagged in full. */
  lemma NeverAllFlagged(list: seq<VillageDistance>, action: Addr)
    requires |list| > 0
    requires forall item :: item in list ==> 0.0 <= item.dist
    ensures |ProblemZoneFacts(list, Threshold(list), action)| < |list|
  {
    var ds := Dists(list);
    var k := FirstMin(ds);
    assert forall j :: 0 <= j < |list| ==> 0.0 <= list[j].dist && ds[k] <= ds[j] by {
      assert forall j :: 0 <= j < |list| ==> list[j] in list;
    }
    NearestWithinThreshold(list, k);
    ProblemZoneFactsMissOne(list, Threshold(list), action, k);
  }

  /**
   * A run: fails with nothing written when no station has been recorded;
   * succeeds with nothing written when no village other than the station
   * exists; else writes the problem zone facts against the list's threshold.
   */
  function Run(hypot: (real, real) -> real, villages: seq<Addr>, attributes: map<Addr, Attributes>, facts: seq<Fact>, action: Addr): (r: RunResult)
    ensures r.outcome == Success <==> exists f :: f in facts && IsStationFact(f, villages)
    ensures r.outcome != Success ==> r == RunResult(Failure(OptimalStationNotFound), [])
  {
    match Station(facts, villages)
    case None => RunResult(Failure(OptimalStationNotFound), [])
    case Some(station) =>
      var list := DistanceList(hypot, villages, attributes, station);
      if list == [] then RunResult(Success, [])
      else RunResult(Success, ProblemZoneFacts(list, Threshold(list), action))
  }

  /**
   * On success every written fact is a problem zone of this action for a
   * village other than the station, and a village other than the station is
   * flagged exactly when its distance is strictly above the threshold.
   */
  lemma RunFlags(hypot: (real, real) -> real, villages: seq<Addr>, attributes: map<Addr, Attributes>, facts: seq<Fact>, action: Addr)
    requires Station(facts, villages).Some?
    ensures var s := Station(facts, villages).value;
      var list := DistanceList(hypot, villages, attributes, s);
      var w := Run(hypot, villages, attributes, facts, action).written;
      && (forall f :: f in w ==> f.ProblemZoneFact? && f.action == action && f.village in villages && f.village != s)
      && (list != [] ==>
            forall v :: v in villages && v != s ==>
              (ProblemZoneFact(action, v) in w <==> DistanceToStation(hypot, attributes, v, s) > Threshold(list)))
  {
    var s := Station(facts, villages).value;
    var list := DistanceList(hypot, villages, attributes, s);
    DistanceListMembers(hypot, villages, attributes, s);
    if list != [] {
      var t := Threshold(list);
      ProblemZoneFactsMembers(list, t, action);
      forall v | v in villages && v != s
        ensures ProblemZoneFact(action, v) in ProblemZoneFacts(list, t, action) ==> DistanceToStation(hypot, attributes, v, s) > t
        ensures DistanceToStation(hypot, attributes, v, s) > t ==> ProblemZoneFact(action, v) in ProblemZoneFacts(list, t, action)
      {
        assert VillageDistance(v, DistanceToStation(hypot, attributes, v, s)) in list;
      }
    }
  }

  /** When the station is the only village, the run succeeds and flags nothing. */
  lemma RunOnlyStation(hypot: (real, real) -> real, villages: seq<Addr>, attributes: map<Addr, Attributes>, facts: seq<Fact>, action: Addr)
    requires Station(facts, villages).Some?
    requires forall v :: v in villages ==> v == Station(facts, villages).value
    ensures Run(hypot, villages, attributes, facts, action) == RunResult(Success, [])
  {
    var s := Station(facts, villages).value;
    var list := DistanceList(hypot, villages, attributes, s);
    DistanceListMembers(hypot, villages, attributes, s);
  }

  /**
   * Under the Euclidean distance a run never flags every village other than
   * the station, and a village nearest the station is never flagged.
   */
  lemma RunNeverFlagsNearest(hypot: (real, real) -> real, villages: seq<Addr>, attributes: map<Addr, Attributes>, facts: seq<Fact>, action: Addr, v: Addr)
    requires IsHypot(hypot)
    requires Station(facts, villages).Some?
    requires var s := Station(facts, villages).value;
      && v in villages && v != s
      && forall u :: u in villages && u != s ==>
           DistanceToStation(hypot, attributes, v, s) <= DistanceToStation(hypot, attributes, u, s)
    ensures var s := Station(facts, villages).value;
      var w := Run(hypot, villages, attributes, facts, action).written;
      && ProblemZoneFact(action, v) !in w
      && |w| < |DistanceList(hypot, villages, attributes, s)|
  {
    var s := Station(facts, villages).value;
    var list := DistanceList(hypot, villages, attributes, s);
    DistanceListMembers(hypot, villages, attributes, s);
    var item := VillageDistance(v, DistanceToStation(hypot, attributes, v, s));
    assert item in list;
    var k :| 0 <= k < |list| && list[k] == item;
    forall j | 0 <= j < |list|
      ensures 0.0 <= list[j].dist && list[k].dist <= list[j].dist
    {
      assert list[j] in list;
      DistanceLaws(hypot, PositionOf(attributes, list[j].addr), PositionOf(attributes, s));
    }
    NearestWithinThreshold(list, k);
    RunFlags(hypot, villages, attributes, facts, action);
    NeverAllFlagged(list, action);
  }

  /**
   * The station search of FindProblemZonesAgent::DoProgram: walk the recorded
   * optimal location facts and stop at the first whose target is a village.
   */
  method FindStation(facts: seq<Fact>, villages: seq<Addr>) returns (stationFound: bool, optimalStation: Addr)
    ensures Station(facts, villages) == if stationFound then Some(optimalStation) else None
  {
    stationFound := false;
    optimalStation := 0;
    var i := 0;
    while i < |facts|
      invariant 0 <= i <= |facts|
      invariant forall j :: 0 <= j < i ==> !IsStationFact(facts[j], villages)
    {
      var f := facts[i];
      if f.OptimalLocationFact? && f.target in villages {
        optimalStation := f.target;
        stationFound := true;
        break;
      }
      i := i + 1;
    }
  }

  /**
   * The second loop of FindProblemZonesAgent::DoProgram: skip the station,
   * measure every other village and keep the running total.
   */
  method CollectDistances(hypot: (real, real) -> real, villages: seq<Addr>, attributes: map<Addr, Attributes>, optimalStation: Addr)
    returns (list: seq<VillageDistance>, totalDist: real)
    ensures list == DistanceList(hypot, villages, attributes, optimalStation)
    ensures totalDist == Total(list)
  {
    var opt := PositionOf(attributes, optimalStation);
    list := [];
    totalDist := 0.0;
    var i := 0;
    while i < |villages|
      invariant 0 <= i <= |villages|
      invariant list == DistanceList(hypot, villages[..i], attributes, optimalStation)
      invariant totalDist == Total(list)
    {
      var v := villages[i];
      assert villages[..i + 1][..i] == villages[..i];
      i := i + 1;
      if v == optimalStation {
        continue;
      }
      var d := Distance(hypot, PositionOf(attributes, v), opt);
      assert (list + [VillageDistance(v, d)])[..|list|] == list;
      list := list + [VillageDistance(v, d)];
      totalDist := totalDist + d;
    }
    assert villages[..i] == villages;
  }

  /**
   * The flag loop of FindProblemZonesAgent::DoProgram: one problem zone fact
   * per entry strictly above the threshold, in list order.
   */
  method FlagProblemZones(store: Store, action: Addr, list: seq<VillageDistance>, threshold: real)
    modifies store`facts
    ensures store.facts == old(store.facts) + ProblemZoneFacts(list, threshold, action)
  {
    var i := 0;
    while i < |list|
      invariant 0 <= i <= |list|
      invariant store.facts == old(store.facts) + ProblemZoneFacts(list[..i], threshold, action)
    {
      var item := list[i];
      assert list[..i + 1][..i] == list[..i];
      if item.dist > threshold {
        store.facts := store.facts + [ProblemZoneFact(action, item.addr)];
      }
      i := i + 1;
    }
    assert list[..i] == list;
  }

  /**
   * FindProblemZonesAgent::DoProgram: fail when no station is recorded;
   * succeed without flags when no other village exists; else flag the
   * villages farther than the threshold. The village list and the attributes
   * are left alone.
   */
  method DoProgram(store: Store, hypot: (real, real) -> real, action: Addr) returns (outcome: Outcome)
    modifies store`facts
    ensures store.villages == old(store.villages) && store.attributes == old(store.attributes)
    ensures var r := Run(hypot, store.villages, store.attributes, old(store.facts), action);
      outcome == r.outcome && store.facts == old(store.facts) + r.written
  {
    var stationFound, optimalStation := FindStation(store.facts, store.villages);
    if !stationFound {
      return Failure(OptimalStationNotFound);
    }
    var list, totalDist := CollectDistances(hypot, store.villages, store.attributes, optimalStation);
    if |list| == 0 {
      return Success;
    }
    var avgDist := totalDist / (|list| as real);
    var threshold := avgDist * ThresholdFactor;
    FlagProblemZones(store, action, list, threshold);
    outcome := Success;
  }
}
