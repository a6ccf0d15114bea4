/**
 * The distance agent: loads every village with both coordinates and writes
 * one distance fact for every pair of loaded villages i < j, row by row in
 * the order of its two nested loops.
 */
module CalculateDistancesAgent {
  import opened KnowledgeBase
  import opened Geometry
  import opened VillageLoader

  /** The distance fact the loop body writes for the pair (i, j). */
  function PairFact(hypot: (real, real) -> real, nodes: seq<Site>, i: nat, j: nat): Fact
    requires i < |nodes| && j < |nodes|
  {
    DistanceFact(nodes[i].addr, nodes[j].addr, Distance(hypot, nodes[i].pos, nodes[j].pos))
  }

  /** The facts the inner loop has written for row i before reaching j. */
  function RowFacts(hypot: (real, real) -> real, nodes: seq<Site>, i: nat, j: nat): seq<Fact>
    requires i < |nodes| && j <= |nodes|
    decreases j
  {
    if j <= i + 1 then [] else RowFacts(hypot, nodes, i, j - 1) + [PairFact(hypot, nodes, i, j - 1)]
  }

  /** The facts the two loops have written once rows 0 .. i-1 are complete. */
  function FactsBelow(hypot: (real, real) -> real, nodes: seq<Site>, i: nat): seq<Fact>
    requires i <= |nodes|
    decreases i
  {
    if i == 0 then [] else FactsBelow(hypot, nodes, i - 1) + RowFacts(hypot, nodes, i - 1, |nodes|)
  }

  /** Everything one successful run writes. */
  function DistanceFacts(hypot: (real, real) -> real, nodes: seq<Site>): seq<Fact>
  {
    FactsBelow(hypot, nodes, |nodes|)
  }

  /**
   * A run: fails with nothing written when no village has both coordinates,
   * else succeeds with the distance facts of the loaded villages.
   */
  function Run(hypot: (real, real) -> real, villages: seq<Addr>, attributes: map<Addr, Attributes>): (r: RunResult)
    ensures r.outcome == Success <==>
              exists v :: v in villages && ReadSite(attributes, v, CoordinatesRequired).Some?
    ensures r.outcome != Success ==> r == RunResult(Failure(NoVillagesFound), [])
  {
    var nodes := Loaded(villages, attributes, CoordinatesRequired);
    LoadedEmpty(villages, attributes, CoordinatesRequired);
    if |nodes| == 0 then RunResult(Failure(NoVillagesFound), [])
    else RunResult(Success, DistanceFacts(hypot, nodes))
  }

  /** Row i up to j holds j - i - 1 facts. */
  lemma {:induction false} RowFactsLength(hypot: (real, real) -> real, nodes: seq<Site>, i: nat, j: nat)
    requires i < |nodes| && j <= |nodes|
    ensures |RowFacts(hypot, nodes, i, j)| == if i < j then j - i - 1 else 0
    decreases j
  {
    if i + 1 < j {
      RowFactsLength(hypot, nodes, i, j - 1);
    }
  }

  /** Row i up to j holds the facts of (i, i+1) .. (i, j-1), in that order. */
  lemma {:induction false} RowFactsAt(hypot: (real, real) -> real, nodes: seq<Site>, i: nat, j: nat)
    requires i < |nodes| && j <= |nodes|
    ensures |RowFacts(hypot, nodes, i, j)| == if i < j then j - i - 1 else 0
    ensures forall k :: 0 <= k < |RowFacts(hypot, nodes, i, j)| ==>
              i + 1 + k < |nodes| && RowFacts(hypot, nodes, i, j)[k] == PairFact(hypot, nodes, i, i + 1 + k)
    decreases j
  {
    if i + 1 < j {
      RowFactsAt(hypot, nodes, i, j - 1);
    }
  }

  lemma RowCountStep(n: int, i: int, below: int, row: int)
    requires 2 * below == (i - 1) * (2 * n - i) && row == n - i
    ensures 2 * (below + row) == i * (2 * n - i - 1)
  {
    assert (i - 1) * (2 * n - i) == i * (2 * n - i - 1) - 2 * (n - i);
  }

  /** Once rows 0 .. i-1 are complete the loops have written i(2n-i-1)/2 facts. */
  lemma {:induction false} FactsBelowCount(hypot: (real, real) -> real, nodes: seq<Site>, i: nat)
    requires i <= |nodes|
    ensures 2 * |FactsBelow(hypot, nodes, i)| == i * (2 * |nodes| - i - 1)
    decreases i
  {
    if i > 0 {
      var below := FactsBelow(hypot, nodes, i - 1);
      var row := RowFacts(hypot, nodes, i - 1, |nodes|);
      FactsBelowCount(hypot, nodes, i - 1);
      RowFactsLength(hypot, nodes, i - 1, |nodes|);
      assert |FactsBelow(hypot, nodes, i)| == |below| + |row|;
      RowCountStep(|nodes|, i, |below|, |row|);
    }
  }

  /** Every fact of row i is that of a pair (i, d) with i < d. */
  lemma RowSound(hypot: (real, real) -> real, nodes: seq<Site>, i: nat, f: Fact)
    requires i < |nodes| && f in RowFacts(hypot, nodes, i, |nodes|)
    ensures exists d :: i < d < |nodes| && f == PairFact(hypot, nodes, i, d)
  {
    var row := RowFacts(hypot, nodes, i, |nodes|);
    RowFactsAt(hypot, nodes, i, |nodes|);
    var k :| 0 <= k < |row| && row[k] == f;
    assert f == PairFact(hypot, nodes, i, i + 1 + k);
  }

  /** The fact of every pair (i, d) with i < d is in row i. */
  lemma RowComplete(hypot: (real, real) -> real, nodes: seq<Site>, i: nat, d: nat)
    requires i < d < |nodes|
    ensures PairFact(hypot, nodes, i, d) in RowFacts(hypot, nodes, i, |nodes|)
  {
    var row := RowFacts(hypot, nodes, i, |nodes|);
    RowFactsAt(hypot, nodes, i, |nodes|);
    assert row[d - i - 1] == PairFact(hypot, nodes, i, d);
  }

  /** Every fact of rows 0 .. i-1 is the fact of some pair (a, b) with a < i and a < b. */
  lemma {:induction false} FactsBelowSound(hypot: (real, real) -> real, nodes: seq<Site>, i: nat)
    requires i <= |nodes|
    ensures forall f :: f in FactsBelow(hypot, nodes, i) ==>
              exists a, b :: 0 <= a < i && a < b < |nodes| && f == PairFact(hypot, nodes, a, b)
    decreases i
  {
    if i > 0 {
      var below := FactsBelow(hypot, nodes, i - 1);
      var row := RowFacts(hypot, nodes, i - 1, |nodes|);
      FactsBelowSound(hypot, nodes, i - 1);
      forall f | f in below + row
        ensures exists a, b :: 0 <= a < i && a < b < |nodes| && f == PairFact(hypot, nodes, a, b)
      {
        if f !in below {
          RowSound(hypot, nodes, i - 1, f);
        }
      }
    }
  }

  /** The fact of every pair (a, b) with a < i and a < b is among rows 0 .. i-1. */
  lemma {:induction false} FactsBelowComplete(hypot: (real, real) -> real, nodes: seq<Site>, i: nat)
    requires i <= |nodes|
    ensures forall a, b :: 0 <= a < i && a < b < |nodes| ==> PairFact(hypot, nodes, a, b) in FactsBelow(hypot, nodes, i)
    decreases i
  {
    if i > 0 {
      var below := FactsBelow(hypot, nodes, i - 1);
      var row := RowFacts(hypot, nodes, i - 1, |nodes|);
      FactsBelowComplete(hypot, nodes, i - 1);
      forall a, b | 0 <= a < i && a < b < |nodes|
        ensures PairFact(hypot, nodes, a, b) in below + row
      {
        var f := PairFact(hypot, nodes, a, b);
        if a == i - 1 {
          RowComplete(hypot, nodes, a, b);
          assert f in row;
        } else {
          assert f in below;
        }
      }
    }
  }

  /**
   * Once rows 0 .. i-1 are complete the loops have written the fact of every
   * pair (a, b) with a < i and a < b, and no other.
   */
  lemma FactsBelowMembers(hypot: (real, real) -> real, nodes: seq<Site>, i: nat)
    requires i <= |nodes|
    ensures forall f :: f in FactsBelow(hypot, nodes, i) <==>
              exists a, b :: 0 <= a < i && a < b < |nodes| && f == PairFact(hypot, nodes, a, b)
  {
    FactsBelowSound(hypot, nodes, i);
    FactsBelowComplete(hypot, nodes, i);
  }

  /** Two facts link the same two villages, read in either direction. */
  predicate SameLink(f: Fact, g: Fact)
  {
    && f.DistanceFact? && g.DistanceFact?
    && ((f.first == g.first && f.second == g.second) || (f.first == g.second && f.second == g.first))
  }

  /** Distinct elements in the loaded list. */
  predicate DistinctAddrs(nodes: seq<Site>)
  {
    forall i, j :: 0 <= i < j < |nodes| ==> nodes[i].addr != nodes[j].addr
  }

  lemma AddrsDistinct(nodes: seq<Site>, i: nat, j: nat)
    requires DistinctAddrs(nodes)
    requires i < |nodes| && j < |nodes|
    ensures nodes[i].addr == nodes[j].addr <==> i == j
  {
  }

  /** Every fact is a distance fact between two different villages. */
  ghost predicate NoSelfLink(facts: seq<Fact>)
  {
    forall f :: f in facts ==> f.DistanceFact? && f.first != f.second
  }

  /** No two facts link the same two villages. */
  ghost predicate NoRepeatedLink(facts: seq<Fact>)
  {
    forall k, l :: 0 <= k < l < |facts| ==> !SameLink(facts[k], facts[l])
  }

  lemma AppendDistinct(below: seq<Fact>, row: seq<Fact>)
    requires NoSelfLink(below) && NoRepeatedLink(below)
    requires NoSelfLink(row) && NoRepeatedLink(row)
    requires forall f, g :: f in below && g in row ==> !SameLink(f, g)
    ensures NoSelfLink(below + row) && NoRepeatedLink(below + row)
  {
    var facts := below + row;
    forall k, l | 0 <= k < l < |facts|
      ensures !SameLink(facts[k], facts[l])
    {
      if |below| <= k {
        assert facts[k] == row[k - |below|] && facts[l] == row[l - |below|];
      } else if |below| <= l {
        assert facts[k] == below[k] && facts[l] == row[l - |below|];
        assert below[k] in below && row[l - |below|] in row;
      } else {
        assert facts[k] == below[k] && facts[l] == below[l];
      }
    }
  }

  /** With distinct loaded villages, a row links nodes[i] once with each later village. */
  lemma RowDistinct(hypot: (real, real) -> real, nodes: seq<Site>, i: nat)
    requires DistinctAddrs(nodes) && i < |nodes|
    ensures NoSelfLink(RowFacts(hypot, nodes, i, |nodes|))
    ensures NoRepeatedLink(RowFacts(hypot, nodes, i, |nodes|))
    ensures forall g :: g in RowFacts(hypot, nodes, i, |nodes|) ==>
              exists d :: i < d < |nodes| && g == PairFact(hypot, nodes, i, d)
  {
    var row := RowFacts(hypot, nodes, i, |nodes|);
    RowFactsAt(hypot, nodes, i, |nodes|);
    forall g | g in row
      ensures g.DistanceFact? && g.first != g.second
      ensures exists d :: i < d < |nodes| && g == PairFact(hypot, nodes, i, d)
    {
      var k :| 0 <= k < |row| && row[k] == g;
      AddrsDistinct(nodes, i, i + 1 + k);
    }
    forall k, l | 0 <= k < l < |row|
      ensures !SameLink(row[k], row[l])
    {
      AddrsDistinct(nodes, i, i + 1 + l);
      AddrsDistinct(nodes, i + 1 + k, i + 1 + l);
    }
  }

  /**
   * With distinct loaded villages, the facts written by rows 0 .. i-1 never
   * link a village with itself and never link the same two villages twice.
   */
  lemma {:induction false} FactsBelowDistinct(hypot: (real, real) -> real, nodes: seq<Site>, i: nat)
    requires DistinctAddrs(nodes) && i <= |nodes|
    ensures NoSelfLink(FactsBelow(hypot, nodes, i)) && NoRepeatedLink(FactsBelow(hypot, nodes, i))
    decreases i
  {
    if i > 0 {
      var below := FactsBelow(hypot, nodes, i - 1);
      var row := RowFacts(hypot, nodes, i - 1, |nodes|);
      FactsBelowDistinct(hypot, nodes, i - 1);
      FactsBelowMembers(hypot, nodes, i - 1);
      RowDistinct(hypot, nodes, i - 1);
      forall f, g | f in below && g in row
        ensures !SameLink(f, g)
      {
        var a, b :| 0 <= a < i - 1 && a < b < |nodes| && f == PairFact(hypot, nodes, a, b);
        var d :| i - 1 < d < |nodes| && g == PairFact(hypot, nodes, i - 1, d);
        AddrsDistinct(nodes, a, i - 1);
        AddrsDistinct(nodes, a, d);
      }
      AppendDistinct(below, row);
    }
  }

  /** With n loaded villages a run writes n(n-1)/2 facts; one village gives none. */
  lemma DistanceFactCount(hypot: (real, real) -> real, nodes: seq<Site>)
    ensures |DistanceFacts(hypot, nodes)| == |nodes| * (|nodes| - 1) / 2
  {
    FactsBelowCount(hypot, nodes, |nodes|);
  }

  /** A run that loads exactly one village succeeds and writes nothing. */
  lemma RunLoneVillage(hypot: (real, real) -> real, villages: seq<Addr>, attributes: map<Addr, Attributes>)
    requires |Loaded(villages, attributes, CoordinatesRequired)| == 1
    ensures Run(hypot, villages, attributes) == RunResult(Success, [])
  {
    DistanceFactCount(hypot, Loaded(villages, attributes, CoordinatesRequired));
  }

  /** The facts are exactly those of the pairs i < j of loaded villages. */
  lemma DistanceFactsArePairs(hypot: (real, real) -> real, nodes: seq<Site>)
    ensures forall f :: f in DistanceFacts(hypot, nodes) <==>
              exists i, j :: 0 <= i < j < |nodes| && f == PairFact(hypot, nodes, i, j)
  {
    FactsBelowMembers(hypot, nodes, |nodes|);
  }

  /**
   * When the loaded villages are distinct elements, no fact links a village
   * with itself and no two facts link the same two villages.
   */
  lemma DistanceFactsDistinct(hypot: (real, real) -> real, nodes: seq<Site>)
    requires DistinctAddrs(nodes)
    ensures NoSelfLink(DistanceFacts(hypot, nodes)) && NoRepeatedLink(DistanceFacts(hypot, nodes))
  {
    FactsBelowDistinct(hypot, nodes, |nodes|);
  }

  /** A query without repeated villages loads sites with distinct addresses. */
  lemma {:induction false} LoadedDistinct(villages: seq<Addr>, attributes: map<Addr, Attributes>, policy: Policy)
    requires forall i, j :: 0 <= i < j < |villages| ==> villages[i] != villages[j]
    ensures DistinctAddrs(Loaded(villages, attributes, policy))
    decreases |villages|
  {
    if villages != [] {
      var prefix := villages[..|villages| - 1];
      var v := villages[|villages| - 1];
      LoadedDistinct(prefix, attributes, policy);
      LoadedMembers(prefix, attributes, policy);
      var before := Loaded(prefix, attributes, policy);
      assert v !in prefix by {
        forall k | 0 <= k < |prefix| ensures prefix[k] != v {
          assert prefix[k] == villages[k];
        }
      }
      match ReadSite(attributes, v, policy)
      case None =>
      case Some(site) =>
        var sites := before + [site];
        assert site.addr == v;
        forall i, j | 0 <= i < j < |sites| ensures sites[i].addr != sites[j].addr {
          if j < |before| {
            assert sites[i] == before[i] && sites[j] == before[j];
          } else {
            assert sites[i] in before;
          }
        }
    }
  }

  /**
   * For a query without repeated villages, the run never links a village with
   * itself and never links the same two villages twice.
   */
  lemma RunWritesDistinctLinks(hypot: (real, real) -> real, villages: seq<Addr>, attributes: map<Addr, Attributes>)
    requires forall i, j :: 0 <= i < j < |villages| ==> villages[i] != villages[j]
    ensures var written := Run(hypot, villages, attributes).written;
      NoSelfLink(written) && NoRepeatedLink(written)
  {
    LoadedDistinct(villages, attributes, CoordinatesRequired);
    DistanceFactsDistinct(hypot, Loaded(villages, attributes, CoordinatesRequired));
  }

  /**
   * Every value written is the distance between the two villages it links,
   * which is non-negative and the same read either way.
   */
  lemma DistanceFactValues(hypot: (real, real) -> real, nodes: seq<Site>)
    requires IsHypot(hypot)
    ensures forall f :: f in DistanceFacts(hypot, nodes) ==>
              && f.DistanceFact?
              && 0.0 <= f.value
              && exists i, j :: 0 <= i < j < |nodes| && f.first == nodes[i].addr && f.second == nodes[j].addr
                   && f.value == Distance(hypot, nodes[i].pos, nodes[j].pos)
                   && f.value == Distance(hypot, nodes[j].pos, nodes[i].pos)
  {
    DistanceFactsArePairs(hypot, nodes);
    forall f | f in DistanceFacts(hypot, nodes)
      ensures f.DistanceFact? && 0.0 <= f.value
      ensures exists i, j :: 0 <= i < j < |nodes| && f.first == nodes[i].addr && f.second == nodes[j].addr
                && f.value == Distance(hypot, nodes[i].pos, nodes[j].pos)
                && f.value == Distance(hypot, nodes[j].pos, nodes[i].pos)
    {
      var i, j :| 0 <= i < j < |nodes| && f == PairFact(hypot, nodes, i, j);
      DistanceLaws(hypot, nodes[i].pos, nodes[j].pos);
    }
  }

  /** The inner loop: append the distance from nodes[i] to each later node. */
  method WriteRow(store: Store, hypot: (real, real) -> real, nodes: seq<Site>, i: nat)
    requires i < |nodes|
    modifies store`facts
    ensures store.facts == old(store.facts) + RowFacts(hypot, nodes, i, |nodes|)
  {
    var j := i + 1;
    while j < |nodes|
      invariant i + 1 <= j <= |nodes|
      invariant store.facts == old(store.facts) + RowFacts(hypot, nodes, i, j)
    {
      var dist := Distance(hypot, nodes[i].pos, nodes[j].pos);
      var fact := DistanceFact(nodes[i].addr, nodes[j].addr, dist);
      assert RowFacts(hypot, nodes, i, j + 1) == RowFacts(hypot, nodes, i, j) + [fact];
      store.facts := store.facts + [fact];
      j := j + 1;
    }
  }

  /** Appending row i after rows 0 .. i-1 gives rows 0 .. i. */
  lemma FactsBelowStep(prev: seq<Fact>, hypot: (real, real) -> real, nodes: seq<Site>, i: nat)
    requires i < |nodes|
    ensures prev + FactsBelow(hypot, nodes, i) + RowFacts(hypot, nodes, i, |nodes|) == prev + FactsBelow(hypot, nodes, i + 1)
  {
    assert FactsBelow(hypot, nodes, i + 1) == FactsBelow(hypot, nodes, i) + RowFacts(hypot, nodes, i, |nodes|);
  }

  /** The outer loop: row i for every loaded village i. */
  method WriteDistances(store: Store, hypot: (real, real) -> real, nodes: seq<Site>)
    modifies store`facts
    ensures store.facts == old(store.facts) + DistanceFacts(hypot, nodes)
  {
    var i := 0;
    while i < |nodes|
      invariant 0 <= i <= |nodes|
      invariant store.facts == old(store.facts) + FactsBelow(hypot, nodes, i)
    {
      WriteRow(store, hypot, nodes, i);
      FactsBelowStep(old(store.facts), hypot, nodes, i);
      i := i + 1;
    }
  }

  /**
   * CalculateDistancesAgent::DoProgram: load, fail when nothing was loaded,
   * else write the distance of every pair. The village list and the
   * attributes are left alone.
   */
  method DoProgram(store: Store, hypot: (real, real) -> real) returns (outcome: Outcome)
    modifies store`facts
    ensures store.villages == old(store.villages) && store.attributes == old(store.attributes)
    ensures var r := Run(hypot, store.villages, store.attributes);
      outcome == r.outcome && store.facts == old(store.facts) + r.written
  {
    var nodes := Load(store, CoordinatesRequired);
    if |nodes| == 0 {
      return Failure(NoVillagesFound);
    }
    WriteDistances(store, hypot, nodes);
    outcome := Success;
  }
}
