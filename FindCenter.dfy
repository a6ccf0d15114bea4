/**
 * The graph center agent: loads every village with both coordinates, writes
 * each village's eccentricity (its largest distance to another village) and
 * links the action to the first village of smallest eccentricity.
 */
module FindCenterAgent {
  import opened KnowledgeBase
  import opened Geometry
  import opened VillageLoader
  import opened Selection

  /**
   * The running value of the inner loop over `targets`: it starts at 0.0 and
   * is replaced by the distance from `v` to any target with a different
   * handle that is strictly larger.
   */
  function Eccentricity(hypot: (real, real) -> real, v: Site, targets: seq<Site>): (e: real)
    ensures 0.0 <= e
    decreases |targets|
  {
    if targets == [] then 0.0
    else
      var e := Eccentricity(hypot, v, targets[..|targets| - 1]);
      var u := targets[|targets| - 1];
      if u.addr == v.addr then e
      else
        var d := Distance(hypot, v.pos, u.pos);
        if d > e then d else e
  }

  /**
   * The eccentricity is the largest distance from `v` to a target with a
   * different handle, or 0.0 when that is larger (no such target, or only
   * negative distances).
   */
  lemma {:induction false} EccentricityIsMax(hypot: (real, real) -> real, v: Site, targets: seq<Site>)
    ensures forall u :: u in targets && u.addr != v.addr ==>
              Distance(hypot, v.pos, u.pos) <= Eccentricity(hypot, v, targets)
    ensures || Eccentricity(hypot, v, targets) == 0.0
            || exists u :: u in targets && u.addr != v.addr && Distance(hypot, v.pos, u.pos) == Eccentricity(hypot, v, targets)
    decreases |targets|
  {
    if targets != [] {
      var rest := targets[..|targets| - 1];
      var u := targets[|targets| - 1];
      EccentricityIsMax(hypot, v, rest);
      assert forall w :: w in targets <==> w in rest || w == u;
    }
  }

  /** The eccentricity of every loaded village, in load order. */
  function Eccentricities(hypot: (real, real) -> real, nodes: seq<Site>): (eccs: seq<real>)
    ensures |eccs| == |nodes|
    ensures forall k {:trigger eccs[k]} :: 0 <= k < |nodes| ==> eccs[k] == Eccentricity(hypot, nodes[k], nodes)
  {
    seq(|nodes|, k requires 0 <= k < |nodes| => Eccentricity(hypot, nodes[k], nodes))
  }

  /** One eccentricity fact per loaded village, in load order. */
  function EccentricityFacts(hypot: (real, real) -> real, nodes: seq<Site>): (facts: seq<Fact>)
    ensures |facts| == |nodes|
    ensures forall k {:trigger facts[k]} :: 0 <= k < |nodes| ==>
              facts[k] == EccentricityFact(nodes[k].addr, Eccentricity(hypot, nodes[k], nodes))
  {
    seq(|nodes|, k requires 0 <= k < |nodes| => EccentricityFact(nodes[k].addr, Eccentricity(hypot, nodes[k], nodes)))
  }

  /**
   * The index of the graph center: a village of smallest eccentricity, and
   * the first one among equals.
   */
  function Center(hypot: (real, real) -> real, nodes: seq<Site>): (c: nat)
    requires |nodes| > 0
    ensures c < |nodes|
    ensures forall k {:trigger Eccentricity(hypot, nodes[k], nodes)} :: 0 <= k < |nodes| ==>
              Eccentricity(hypot, nodes[c], nodes) <= Eccentricity(hypot, nodes[k], nodes)
    ensures forall k {:trigger Eccentricity(hypot, nodes[k], nodes)} :: 0 <= k < c ==>
              Eccentricity(hypot, nodes[c], nodes) < Eccentricity(hypot, nodes[k], nodes)
  {
    var eccs := Eccentricities(hypot, nodes);
    var c := FirstMin(eccs);
    assert forall k {:trigger Eccentricity(hypot, nodes[k], nodes)} :: 0 <= k < |nodes| ==>
             eccs[k] == Eccentricity(hypot, nodes[k], nodes);
    c
  }

  /**
   * A run: fails with nothing written when no village has both coordinates;
   * else writes the eccentricity facts, then links the action to the center.
   */
  function Run(hypot: (real, real) -> real, villages: seq<Addr>, attributes: map<Addr, Attributes>, action: Addr): (r: RunResult)
    ensures r.outcome == Success <==>
              exists v :: v in villages && ReadSite(attributes, v, CoordinatesRequired).Some?
    ensures r.outcome != Success ==> r == RunResult(Failure(NoVillagesFound), [])
  {
    var nodes := Loaded(villages, attributes, CoordinatesRequired);
    LoadedEmpty(villages, attributes, CoordinatesRequired);
    if |nodes| == 0 then RunResult(Failure(NoVillagesFound), [])
    else
      RunResult(Success, EccentricityFacts(hypot, nodes) + [GraphCenterFact(action, nodes[Center(hypot, nodes)].addr)])
  }

  /**
   * A successful run writes one eccentricity fact per loaded village, in
   * load order, and then exactly one graph center fact. The center's
   * eccentricity is at most every other written eccentricity, and strictly
   * below those written before it.
   */
  lemma RunWritesCenter(hypot: (real, real) -> real, villages: seq<Addr>, attributes: map<Addr, Attributes>, action: Addr)
    requires Run(hypot, villages, attributes, action).outcome == Success
    ensures var nodes := Loaded(villages, attributes, CoordinatesRequired);
      var w := Run(hypot, villages, attributes, action).written;
      && |w| == |nodes| + 1
      && (forall k :: 0 <= k < |nodes| ==> w[k].EccentricityFact? && w[k].village == nodes[k].addr)
      && var c := Center(hypot, nodes);
      && w[|nodes|] == GraphCenterFact(action, nodes[c].addr)
      && (forall k :: 0 <= k < |nodes| ==> w[c].value <= w[k].value)
      && (forall k :: 0 <= k < c ==> w[c].value < w[k].value)
  {
    var nodes := Loaded(villages, attributes, CoordinatesRequired);
    var w := Run(hypot, villages, attributes, action).written;
    var facts := EccentricityFacts(hypot, nodes);
    var c := Center(hypot, nodes);
    assert w == facts + [GraphCenterFact(action, nodes[c].addr)];
    assert forall k :: 0 <= k < |nodes| ==> w[k] == facts[k];
  }

  /** A lone village has eccentricity 0 and is its own center. */
  lemma RunLoneVillage(hypot: (real, real) -> real, villages: seq<Addr>, attributes: map<Addr, Attributes>, action: Addr)
    requires |Loaded(villages, attributes, CoordinatesRequired)| == 1
    ensures var v := Loaded(villages, attributes, CoordinatesRequired)[0].addr;
      Run(hypot, villages, attributes, action) ==
        RunResult(Success, [EccentricityFact(v, 0.0), GraphCenterFact(action, v)])
  {
    var nodes := Loaded(villages, attributes, CoordinatesRequired);
    EccentricityIsMax(hypot, nodes[0], nodes);
    assert forall u :: u in nodes ==> u == nodes[0];
    assert EccentricityFacts(hypot, nodes) == [EccentricityFact(nodes[0].addr, 0.0)];
  }

  /**
   * Under the Euclidean distance, the distance between two villages with
   * different handles is within the eccentricity of each of them, whichever
   * end it is measured from.
   */
  lemma EccentricityCoversAll(hypot: (real, real) -> real, nodes: seq<Site>, i: nat, j: nat)
    requires IsHypot(hypot) && i < |nodes| && j < |nodes| && nodes[i].addr != nodes[j].addr
    ensures Distance(hypot, nodes[j].pos, nodes[i].pos) <= Eccentricity(hypot, nodes[i], nodes)
    ensures Distance(hypot, nodes[i].pos, nodes[j].pos) <= Eccentricity(hypot, nodes[j], nodes)
  {
    DistanceLaws(hypot, nodes[i].pos, nodes[j].pos);
    EccentricityIsMax(hypot, nodes[i], nodes);
    EccentricityIsMax(hypot, nodes[j], nodes);
    assert nodes[j] in nodes && nodes[i] in nodes;
  }

  /**
   * The inner loop of FindCenterAgent::DoProgram: the largest distance from
   * `v` to every target with a different handle, starting at 0.0.
   */
  method MaxDistance(hypot: (real, real) -> real, v: Site, targets: seq<Site>) returns (maxDist: real)
    ensures maxDist == Eccentricity(hypot, v, targets)
  {
    maxDist := 0.0;
    var j := 0;
    while j < |targets|
      invariant 0 <= j <= |targets|
      invariant maxDist == Eccentricity(hypot, v, targets[..j])
    {
      var u := targets[j];
      assert targets[..j + 1][..j] == targets[..j];
      if u.addr != v.addr {
        var d := Distance(hypot, v.pos, u.pos);
        if d > maxDist {
          maxDist := d;
        }
      }
      j := j + 1;
    }
    assert targets[..j] == targets;
  }

  /**
   * The outer loop of FindCenterAgent::DoProgram: for each village write its
   * eccentricity and keep the strict-`<` running minimum, which ends on the
   * center.
   */
  method WriteEccentricities(store: Store, hypot: (real, real) -> real, villages: seq<Site>) returns (centerNode: Addr)
    requires |villages| > 0
    modifies store`facts
    ensures store.facts == old(store.facts) + EccentricityFacts(hypot, villages)
    ensures centerNode == villages[Center(hypot, villages)].addr
  {
    ghost var eccs := Eccentricities(hypot, villages);
    ghost var facts := EccentricityFacts(hypot, villages);
    var minMaxDist := 0.0;
    var centerFound := false;
    ghost var center := 0;
    centerNode := 0;
    var i := 0;
    while i < |villages|
      invariant 0 <= i <= |villages|
      invariant store.facts == old(store.facts) + facts[..i]
      invariant centerFound <==> i > 0
      invariant centerFound ==>
                  && center == FirstMin(eccs[..i])
                  && minMaxDist == eccs[center]
                  && centerNode == villages[center].addr
    {
      var v1 := villages[i];
      var maxDistForV1 := MaxDistance(hypot, v1, villages);
      assert facts[..i + 1] == facts[..i] + [EccentricityFact(v1.addr, maxDistForV1)];
      store.facts := store.facts + [EccentricityFact(v1.addr, maxDistForV1)];
      if i > 0 {
        FirstMinStep(eccs, i);
      }
      if !centerFound || maxDistForV1 < minMaxDist {
        minMaxDist := maxDistForV1;
        centerNode := v1.addr;
        centerFound := true;
        center := i;
      }
      i := i + 1;
    }
    assert facts[..i] == facts && eccs[..i] == eccs;
  }

  /**
   * FindCenterAgent::DoProgram: load, fail when nothing was loaded; else
   * write the eccentricities and link the action to the center. A center is
   * always found once some village is loaded. The village list and the
   * attributes are left alone.
   */
  method DoProgram(store: Store, hypot: (real, real) -> real, action: Addr) returns (outcome: Outcome)
    modifies store`facts
    ensures store.villages == old(store.villages) && store.attributes == old(store.attributes)
    ensures var r := Run(hypot, store.villages, store.attributes, action);
      outcome == r.outcome && store.facts == old(store.facts) + r.written
  {
    var villages := Load(store, CoordinatesRequired);
    if |villages| == 0 {
      return Failure(NoVillagesFound);
    }
    var centerNode := WriteEccentricities(store, hypot, villages);
    store.facts := store.facts + [GraphCenterFact(action, centerNode)];
    outcome := Success;
  }
}
