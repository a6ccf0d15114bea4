/**
 * The part of the semantic memory that the four ambulance agents see: the
 * members of the village class, the scalar attribute links of each element
 * (x, y, population) and the relation facts the agents append. Everything else
 * about the memory (iterators, element types, structures, action life cycle)
 * stays outside the model.
 */
module KnowledgeBase {

  datatype Option<+T> = None | Some(value: T)

  /** An opaque element handle of the memory. */
  type Addr = nat

  /**
   * What looking up one scalar attribute of an element yields: no attribute
   * link at all, a link whose text is not a number, or a link holding a number.
   */
  datatype Lookup = Absent | Malformed | Value(r: real)

  /** The three scalar attributes an element may carry. */
  datatype Attributes = Attributes(x: Lookup, y: Lookup, population: Lookup)

  const NoAttributes := Attributes(Absent, Absent, Absent)

  /** The attribute links of element `e`; an element without any is all Absent. */
  function AttributesOf(attributes: map<Addr, Attributes>, e: Addr): Attributes
  {
    if e in attributes then attributes[e] else NoAttributes
  }

  /**
   * The facts the agents write. A distance fact is the common arc between two
   * villages marked by the distance relation, carrying its value; an
   * eccentricity fact is the arc from a village to its eccentricity value; the
   * other three are arcs from the action to a village, marked by the graph
   * center, optimal location or problem zone relation.
   */
  datatype Fact =
    | DistanceFact(first: Addr, second: Addr, value: real)
    | EccentricityFact(village: Addr, value: real)
    | GraphCenterFact(action: Addr, village: Addr)
    | OptimalLocationFact(action: Addr, target: Addr)
    | ProblemZoneFact(action: Addr, village: Addr)

  /**
   * Why an agent finishes its action with an error. Every error path of the
   * agents ends the action the same way; the kinds stand for the reason each
   * path logs.
   */
  datatype Error =
    | NoVillagesFound            // no village with usable coordinates
    | NoVillagesInKnowledgeBase  // the village class has no members at all
    | NoValidVillageData         // members exist, none has complete data
    | OptimalStationNotFound     // no optimal location has been recorded yet

  datatype Outcome = Success | Failure(error: Error)

  /** What one run of an agent reports and the facts it appends, in order. */
  datatype RunResult = RunResult(outcome: Outcome, written: seq<Fact>)

  /** The shared memory the agents read and append to. */
  class Store {
    /** The members of the village class, in the memory's iteration order. */
    var villages: seq<Addr>
    /** The scalar attribute links of every element. */
    var attributes: map<Addr, Attributes>
    /** Every relation fact written so far, oldest first. */
    var facts: seq<Fact>

    constructor (villages: seq<Addr>, attributes: map<Addr, Attributes>, facts: seq<Fact>)
      ensures this.villages == villages && this.attributes == attributes && this.facts == facts
    {
      this.villages := villages;
      this.attributes := attributes;
      this.facts := facts;
    }
  }
}
