/**
 * Concrete runs of the four agents on small village sets, worked out under
 * the Euclidean distance. Village handles are small numbers; every village
 * carries x, y and population links.
 */
module Scenarios {
  import opened KnowledgeBase
  import opened Geometry
  import opened VillageLoader
  import CalculateDistancesAgent
  import FindCenterAgent
  import FindOptimalAgent
  import FindProblemZonesAgent

  /** The attribute links of a village with numeric x, y and population. */
  function Village(x: real, y: real, population: real): Attributes
  {
    Attributes(Value(x), Value(y), Value(population))
  }

  /** V1 at (0, 0) and V2 at (3, 4): one distance fact of value 5. */
  lemma DistancesThreeFourFive(hypot: (real, real) -> real)
    requires IsHypot(hypot)
    ensures CalculateDistancesAgent.Run(hypot, [1, 2], map[1 := Village(0.0, 0.0, 100.0), 2 := Village(3.0, 4.0, 100.0)])
              == RunResult(Success, [DistanceFact(1, 2, 5.0)])
  {
    var attributes := map[1 := Village(0.0, 0.0, 100.0), 2 := Village(3.0, 4.0, 100.0)];
    var nodes := Loaded([1, 2], attributes, CoordinatesRequired);
    assert [1, 2][..1] == [1];
    assert [1][..0] == [];
    assert nodes == [Site(1, Point(0.0, 0.0), 0), Site(2, Point(3.0, 4.0), 0)];
    HypotIs(hypot, -3.0, -4.0, 5.0);
    assert CalculateDistancesAgent.DistanceFacts(hypot, nodes) == [CalculateDistancesAgent.PairFact(hypot, nodes, 0, 1)];
  }

  /**
   * A stored x of exactly -1.0 reads as the absent sentinel and drops the
   * village; a malformed x is kept as 0.0.
   */
  lemma SentinelValueDropsVillage(population: Lookup)
    ensures ReadSite(map[5 := Attributes(Value(-1.0), Value(2.0), population)], 5, CoordinatesRequired) == None
    ensures ReadSite(map[5 := Attributes(Malformed, Value(2.0), population)], 5, CoordinatesRequired)
              == Some(Site(5, Point(0.0, 2.0), 0))
  {
  }

  /**
   * A village with coordinates but no population link is loaded by the
   * distance and graph center agents and dropped by the optimal location
   * agent; with a malformed population it is kept there with population 0.
   */
  lemma MissingPopulationOnlyDropsFromOptimal()
    ensures ReadSite(map[5 := Attributes(Value(1.0), Value(2.0), Absent)], 5, CoordinatesRequired)
              == Some(Site(5, Point(1.0, 2.0), 0))
    ensures ReadSite(map[5 := Attributes(Value(1.0), Value(2.0), Absent)], 5, CoordinatesAndPopulationRequired) == None
    ensures ReadSite(map[5 := Attributes(Value(1.0), Value(2.0), Malformed)], 5, CoordinatesAndPopulationRequired)
              == Some(Site(5, Point(1.0, 2.0), 0))
  {
  }

  /** The three villages on a line: A at (0, 0), B at (2, 0), C at (10, 0). */
  function LineAttributes(): map<Addr, Attributes>
  {
    map[1 := Village(0.0, 0.0, 10.0), 2 := Village(2.0, 0.0, 10.0), 3 := Village(10.0, 0.0, 10.0)]
  }

  /** Under both coordinate policies the three villages on a line all load, in order. */
  lemma LineLoads(policy: Policy)
    requires policy != CoordinatesAndPopulationRequired
    ensures Loaded([1, 2, 3], LineAttributes(), policy) ==
              [Site(1, Point(0.0, 0.0), 0), Site(2, Point(2.0, 0.0), 0), Site(3, Point(10.0, 0.0), 0)]
  {
    var attributes := LineAttributes();
    assert [1][..0] == [];
    assert Loaded([1], attributes, policy) == [Site(1, Point(0.0, 0.0), 0)];
    assert [1, 2][..1] == [1];
    assert Loaded([1, 2], attributes, policy) == [Site(1, Point(0.0, 0.0), 0), Site(2, Point(2.0, 0.0), 0)];
    assert [1, 2, 3][..2] == [1, 2];
  }

  /** The distances along the line the scenarios below need, as the Euclidean norm gives them. */
  predicate LineDistances(hypot: (real, real) -> real)
  {
    && hypot(-2.0, 0.0) == 2.0 && hypot(2.0, 0.0) == 2.0
    && hypot(-8.0, 0.0) == 8.0 && hypot(8.0, 0.0) == 8.0
    && hypot(-10.0, 0.0) == 10.0 && hypot(10.0, 0.0) == 10.0
  }

  lemma EuclideanLineDistances(hypot: (real, real) -> real)
    requires IsHypot(hypot)
    ensures LineDistances(hypot)
  {
    HypotIs(hypot, -2.0, 0.0, 2.0);
    HypotIs(hypot, 2.0, 0.0, 2.0);
    HypotIs(hypot, -8.0, 0.0, 8.0);
    HypotIs(hypot, 8.0, 0.0, 8.0);
    HypotIs(hypot, -10.0, 0.0, 10.0);
    HypotIs(hypot, 10.0, 0.0, 10.0);
  }

  /** The eccentricity of each village on the line, one prefix at a time. */
  lemma LineEccentricities(hypot: (real, real) -> real, nodes: seq<Site>)
    requires LineDistances(hypot)
    requires nodes == [Site(1, Point(0.0, 0.0), 0), Site(2, Point(2.0, 0.0), 0), Site(3, Point(10.0, 0.0), 0)]
    ensures FindCenterAgent.Eccentricity(hypot, nodes[0], nodes) == 10.0
    ensures FindCenterAgent.Eccentricity(hypot, nodes[1], nodes) == 8.0
    ensures FindCenterAgent.Eccentricity(hypot, nodes[2], nodes) == 10.0
  {
    var a, b, c := nodes[0], nodes[1], nodes[2];
    assert nodes[..2] == [a, b] && [a, b][..1] == [a] && [a][..0] == [];
    assert Distance(hypot, a.pos, b.pos) == 2.0 && Distance(hypot, a.pos, c.pos) == 10.0;
    assert Distance(hypot, b.pos, a.pos) == 2.0 && Distance(hypot, b.pos, c.pos) == 8.0;
    assert Distance(hypot, c.pos, a.pos) == 10.0 && Distance(hypot, c.pos, b.pos) == 8.0;
    assert FindCenterAgent.Eccentricity(hypot, a, [a]) == 0.0;
    assert FindCenterAgent.Eccentricity(hypot, a, [a, b]) == 2.0;
    assert FindCenterAgent.Eccentricity(hypot, b, [a]) == 2.0;
    assert FindCenterAgent.Eccentricity(hypot, b, [a, b]) == 2.0;
    assert FindCenterAgent.Eccentricity(hypot, c, [a]) == 10.0;
    assert FindCenterAgent.Eccentricity(hypot, c, [a, b]) == 10.0;
  }

  /** A at (0, 0), B at (2, 0), C at (10, 0): the eccentricities are 10, 8, 10 and B is the center. */
  lemma CenterOfThreeOnALine(hypot: (real, real) -> real, action: Addr)
    requires IsHypot(hypot)
    ensures FindCenterAgent.Run(hypot, [1, 2, 3], LineAttributes(), action)
            == RunResult(Success, [EccentricityFact(1, 10.0), EccentricityFact(2, 8.0), EccentricityFact(3, 10.0),
                                   GraphCenterFact(action, 2)])
  {
    LineLoads(CoordinatesRequired);
    var nodes := Loaded([1, 2, 3], LineAttributes(), CoordinatesRequired);
    EuclideanLineDistances(hypot);
    LineEccentricities(hypot, nodes);
    var k := FindCenterAgent.Center(hypot, nodes);
    assert FindCenterAgent.Eccentricity(hypot, nodes[k], nodes) <= FindCenterAgent.Eccentricity(hypot, nodes[1], nodes);
    assert k == 1;
    var eccs := FindCenterAgent.EccentricityFacts(hypot, nodes);
    assert eccs == [EccentricityFact(1, 10.0), EccentricityFact(2, 8.0), EccentricityFact(3, 10.0)];
  }

  /** Central (7.5, 6, population 2500), Northern (3, 10, 1200), Southern (11, 2, 1800). */
  function TownAttributes(): map<Addr, Attributes>
  {
    map[1 := Village(7.5, 6.0, 2500.0), 2 := Village(3.0, 10.0, 1200.0), 3 := Village(11.0, 2.0, 1800.0)]
  }

  /** The three towns all load with their populations, in order. */
  lemma TownsLoad()
    ensures Loaded([1, 2, 3], TownAttributes(), CoordinatesAndPopulationRequired) ==
              [Site(1, Point(7.5, 6.0), 2500), Site(2, Point(3.0, 10.0), 1200), Site(3, Point(11.0, 2.0), 1800)]
  {
    var attributes := TownAttributes();
    var policy := CoordinatesAndPopulationRequired;
    assert Truncate(2500.0) == 2500 && Truncate(1200.0) == 1200 && Truncate(1800.0) == 1800;
    assert [1][..0] == [];
    assert Loaded([1], attributes, policy) == [Site(1, Point(7.5, 6.0), 2500)];
    assert [1, 2][..1] == [1];
    assert Loaded([1, 2], attributes, policy) == [Site(1, Point(7.5, 6.0), 2500), Site(2, Point(3.0, 10.0), 1200)];
    assert [1, 2, 3][..2] == [1, 2];
  }

  /** Central's score is below 6.03 * 1200 + 5.32 * 1800. */
  lemma ScoreOfCentral(hypot: (real, real) -> real, sites: seq<Site>)
    requires IsHypot(hypot)
    requires sites == [Site(1, Point(7.5, 6.0), 2500), Site(2, Point(3.0, 10.0), 1200), Site(3, Point(11.0, 2.0), 1800)]
    ensures FindOptimalAgent.Score(hypot, sites[0], sites) < 16812.0
  {
    var c, n, s := sites[0], sites[1], sites[2];
    assert sites[..2] == [c, n] && [c, n][..1] == [c];
    FindOptimalAgent.ScoreOfSelf(hypot, c);
    HypotBetween(hypot, 4.5, -4.0, 6.0, 6.03);
    HypotBetween(hypot, -3.5, 4.0, 5.3, 5.32);
    assert FindOptimalAgent.Score(hypot, c, [c, n]) == 0.0 + Distance(hypot, c.pos, n.pos) * 1200.0;
  }

  /** Northern's score is above 6.0 * 2500 + 11.3 * 1800. */
  lemma ScoreOfNorthern(hypot: (real, real) -> real, sites: seq<Site>)
    requires IsHypot(hypot)
    requires sites == [Site(1, Point(7.5, 6.0), 2500), Site(2, Point(3.0, 10.0), 1200), Site(3, Point(11.0, 2.0), 1800)]
    ensures FindOptimalAgent.Score(hypot, sites[1], sites) > 35340.0
  {
    var c, n, s := sites[0], sites[1], sites[2];
    assert sites[..2] == [c, n] && [c, n][..1] == [c] && [c][..0] == [];
    HypotIs(hypot, 0.0, 0.0, 0.0);
    HypotBetween(hypot, -4.5, 4.0, 6.0, 6.03);
    HypotBetween(hypot, -8.0, 8.0, 11.3, 11.32);
    assert FindOptimalAgent.Score(hypot, n, [c]) == 0.0 + Distance(hypot, n.pos, c.pos) * 2500.0;
    assert FindOptimalAgent.Score(hypot, n, [c, n]) == FindOptimalAgent.Score(hypot, n, [c]) + 0.0 * 1200.0;
  }

  /** Southern's score is above 5.3 * 2500 + 11.3 * 1200. */
  lemma ScoreOfSouthern(hypot: (real, real) -> real, sites: seq<Site>)
    requires IsHypot(hypot)
    requires sites == [Site(1, Point(7.5, 6.0), 2500), Site(2, Point(3.0, 10.0), 1200), Site(3, Point(11.0, 2.0), 1800)]
    ensures FindOptimalAgent.Score(hypot, sites[2], sites) > 26810.0
  {
    var c, n, s := sites[0], sites[1], sites[2];
    assert sites[..2] == [c, n] && [c, n][..1] == [c] && [c][..0] == [];
    HypotIs(hypot, 0.0, 0.0, 0.0);
    HypotBetween(hypot, 3.5, -4.0, 5.3, 5.32);
    HypotBetween(hypot, 8.0, -8.0, 11.3, 11.32);
    assert FindOptimalAgent.Score(hypot, s, [c]) == 0.0 + Distance(hypot, s.pos, c.pos) * 2500.0;
    assert FindOptimalAgent.Score(hypot, s, [c, n]) == FindOptimalAgent.Score(hypot, s, [c]) + Distance(hypot, s.pos, n.pos) * 1200.0;
  }

  /** Of the three towns, Central (index 0) has the smallest weighted score. */
  lemma CentralIsOptimal(hypot: (real, real) -> real, sites: seq<Site>)
    requires IsHypot(hypot)
    requires sites == [Site(1, Point(7.5, 6.0), 2500), Site(2, Point(3.0, 10.0), 1200), Site(3, Point(11.0, 2.0), 1800)]
    ensures FindOptimalAgent.Optimal(hypot, sites) == 0
  {
    ScoreOfCentral(hypot, sites);
    ScoreOfNorthern(hypot, sites);
    ScoreOfSouthern(hypot, sites);
    var k := FindOptimalAgent.Optimal(hypot, sites);
    assert FindOptimalAgent.Score(hypot, sites[k], sites) <= FindOptimalAgent.Score(hypot, sites[0], sites);
  }

  /** Central is chosen for the three towns. */
  lemma OptimalPicksCentral(hypot: (real, real) -> real, action: Addr)
    requires IsHypot(hypot)
    ensures FindOptimalAgent.Run(hypot, [1, 2, 3], TownAttributes(), action)
            == RunResult(Success, [OptimalLocationFact(action, 1)])
  {
    TownsLoad();
    CentralIsOptimal(hypot, Loaded([1, 2, 3], TownAttributes(), CoordinatesAndPopulationRequired));
  }

  /**
   * A recorded optimal location whose target (9) is not a village is passed
   * over, so the station is village 1.
   */
  lemma StationSkipsNonVillage(action: Addr)
    ensures FindProblemZonesAgent.Station([OptimalLocationFact(action, 9), OptimalLocationFact(action, 1)], [1, 2, 3]) == Some(1)
  {
    var facts := [OptimalLocationFact(action, 9), OptimalLocationFact(action, 1)];
    assert !FindProblemZonesAgent.IsStationFact(facts[0], [1, 2, 3]);
    assert facts[1..] == [OptimalLocationFact(action, 1)];
    assert FindProblemZonesAgent.FirstStationIndex(facts[1..], [1, 2, 3]) == 0;
  }

  /** The distance list of the line with village 1 as the station: Near at 2, Far at 10. */
  lemma LineDistanceList(hypot: (real, real) -> real)
    requires LineDistances(hypot)
    ensures FindProblemZonesAgent.DistanceList(hypot, [1, 2, 3], LineAttributes(), 1) ==
              [FindProblemZonesAgent.VillageDistance(2, 2.0), FindProblemZonesAgent.VillageDistance(3, 10.0)]
  {
    var attributes := LineAttributes();
    assert FindProblemZonesAgent.DistanceToStation(hypot, attributes, 2, 1) == 2.0;
    assert FindProblemZonesAgent.DistanceToStation(hypot, attributes, 3, 1) == 10.0;
    assert [1][..0] == [] && [1, 2][..1] == [1] && [1, 2, 3][..2] == [1, 2];
    assert FindProblemZonesAgent.DistanceList(hypot, [1], attributes, 1) == [];
    assert FindProblemZonesAgent.DistanceList(hypot, [1, 2], attributes, 1) == [FindProblemZonesAgent.VillageDistance(2, 2.0)];
  }

  /** Near at 2 and Far at 10: the mean is 6, the threshold 9, and only Far is above it. */
  lemma NearAndFarFlags(action: Addr)
    ensures var list := [FindProblemZonesAgent.VillageDistance(2, 2.0), FindProblemZonesAgent.VillageDistance(3, 10.0)];
      && FindProblemZonesAgent.Threshold(list) == 9.0
      && FindProblemZonesAgent.ProblemZoneFacts(list, 9.0, action) == [ProblemZoneFact(action, 3)]
  {
    var near, far := FindProblemZonesAgent.VillageDistance(2, 2.0), FindProblemZonesAgent.VillageDistance(3, 10.0);
    var list := [near, far];
    assert list[..1] == [near] && [near][..0] == [];
    assert FindProblemZonesAgent.Total([near]) == 2.0;
    assert FindProblemZonesAgent.Total(list) == 12.0;
    assert FindProblemZonesAgent.ProblemZoneFacts([near], 9.0, action) == [];
  }

  /**
   * With the station at (0, 0), Near at (2, 0) and Far at (10, 0) the mean
   * distance is 6, the threshold 9, and only Far is flagged.
   */
  lemma ProblemZonesFlagsFar(hypot: (real, real) -> real, action: Addr)
    requires IsHypot(hypot)
    ensures FindProblemZonesAgent.Run(hypot, [1, 2, 3], LineAttributes(),
              [OptimalLocationFact(action, 9), OptimalLocationFact(action, 1)], action)
            == RunResult(Success, [ProblemZoneFact(action, 3)])
  {
    StationSkipsNonVillage(action);
    EuclideanLineDistances(hypot);
    LineDistanceList(hypot);
    NearAndFarFlags(action);
  }
}
