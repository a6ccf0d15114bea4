/**
 * The village loader every agent starts with: query the members of the
 * village class, read x, y (and population) of each, and keep or drop the
 * village. The four agents each carry their own copy of this code with a
 * different inclusion rule; here it is written once, parameterised by a
 * `Policy`.
 */
module VillageLoader {
  import opened KnowledgeBase
  import opened Geometry

  /** A loaded village: its handle, its position and its population. */
  datatype Site = Site(addr: Addr, pos: Point, population: int)

  /**
   * Which attributes a village must have to be kept.
   * - CoordinatesRequired: x and y (distances and graph center agents);
   *   population is not read and is 0 in the loaded site.
   * - CoordinatesAndPopulationRequired: x, y and population (optimal agent).
   * - AbsentAsZero: nothing; an absent coordinate reads as 0.0 (problem zones
   *   agent); population is not read.
   */
  datatype Policy = CoordinatesRequired | CoordinatesAndPopulationRequired | AbsentAsZero

  /** The value the reader returns when no attribute link exists. */
  const AbsentSentinel: real := -1.0

  /**
   * The number one attribute lookup yields: the stored number, 0.0 for text
   * that does not parse, and for a missing link the -1.0 sentinel (or 0.0
   * under AbsentAsZero).
   */
  function ReadValue(l: Lookup, policy: Policy): real
  {
    match l
    case Absent => if policy == AbsentAsZero then 0.0 else AbsentSentinel
    case Malformed => 0.0
    case Value(r) => r
  }

  /**
   * The lookups an inclusion check takes for "missing": the check compares
   * the number read with the sentinel, so a stored -1.0 counts as missing too.
   */
  predicate ReadsAsMissing(l: Lookup)
  {
    l == Absent || l == Value(AbsentSentinel)
  }

  /** The number a lookup holds, 0.0 when it holds none. */
  function NumberOr0(l: Lookup): real
  {
    if l.Value? then l.r else 0.0
  }

  /** C++'s conversion of a double to int: truncation toward zero. */
  function Truncate(r: real): (n: int)
    ensures 0.0 <= r ==> n as real <= r < n as real + 1.0
    ensures r < 0.0 ==> n as real - 1.0 < r <= n as real
  {
    if 0.0 <= r then r.Floor else -((-r).Floor)
  }

  /**
   * Reads village `v` under `policy`: None when the policy drops it. A village
   * is dropped exactly when a required attribute reads as missing; a
   * malformed attribute is kept as 0.0.
   */
  function ReadSite(attributes: map<Addr, Attributes>, v: Addr, policy: Policy): (s: Option<Site>)
    ensures var a := AttributesOf(attributes, v);
      s.Some? <==>
        || policy == AbsentAsZero
        || (&& !ReadsAsMissing(a.x) && !ReadsAsMissing(a.y)
            && (policy == CoordinatesAndPopulationRequired ==> !ReadsAsMissing(a.population)))
    ensures var a := AttributesOf(attributes, v);
      s.Some? ==>
        && s.value.addr == v
        && s.value.pos == Point(NumberOr0(a.x), NumberOr0(a.y))
        && s.value.population ==
             (if policy == CoordinatesAndPopulationRequired then Truncate(NumberOr0(a.population)) else 0)
  {
    var a := AttributesOf(attributes, v);
    var x := ReadValue(a.x, policy);
    var y := ReadValue(a.y, policy);
    match policy
    case CoordinatesRequired =>
      if x != AbsentSentinel && y != AbsentSentinel then Some(Site(v, Point(x, y), 0)) else None
    case CoordinatesAndPopulationRequired =>
      var pop := ReadValue(a.population, policy);
      if x != AbsentSentinel && y != AbsentSentinel && pop != AbsentSentinel
      then Some(Site(v, Point(x, y), Truncate(pop)))
      else None
    case AbsentAsZero =>
      Some(Site(v, Point(x, y), 0))
  }

  /** The position the problem zones agent reads: absent or malformed is 0.0. */
  function PositionOf(attributes: map<Addr, Attributes>, v: Addr): (p: Point)
    ensures ReadSite(attributes, v, AbsentAsZero) == Some(Site(v, p, 0))
  {
    var a := AttributesOf(attributes, v);
    Point(ReadValue(a.x, AbsentAsZero), ReadValue(a.y, AbsentAsZero))
  }

  /** The villages kept under `policy`, in query order. */
  function Loaded(villages: seq<Addr>, attributes: map<Addr, Attributes>, policy: Policy): (sites: seq<Site>)
    decreases |villages|
  {
    if villages == [] then []
    else
      var sites := Loaded(villages[..|villages| - 1], attributes, policy);
      match ReadSite(attributes, villages[|villages| - 1], policy)
      case None => sites
      case Some(s) => sites + [s]
  }

  /**
   * Every kept site belongs to a queried village and is what ReadSite makes
   * of it; every village ReadSite keeps is there; nothing else is.
   */
  lemma {:induction false} LoadedMembers(villages: seq<Addr>, attributes: map<Addr, Attributes>, policy: Policy)
    ensures var sites := Loaded(villages, attributes, policy);
      && |sites| <= |villages|
      && (forall s :: s in sites ==> s.addr in villages && ReadSite(attributes, s.addr, policy) == Some(s))
      && (forall v :: v in villages && ReadSite(attributes, v, policy).Some? ==>
            ReadSite(attributes, v, policy).value in sites)
    decreases |villages|
  {
    if villages != [] {
      var last := |villages| - 1;
      var prefix := villages[..last];
      LoadedMembers(prefix, attributes, policy);
      var before := Loaded(prefix, attributes, policy);
      var sites := Loaded(villages, attributes, policy);
      assert forall v :: v in villages <==> v in prefix || v == villages[last];
      forall s | s in sites
        ensures s.addr in villages && ReadSite(attributes, s.addr, policy) == Some(s)
      {
        if s !in before {
          assert ReadSite(attributes, villages[last], policy) == Some(s);
        }
      }
    }
  }

  /**
   * Loading keeps the query order: loading two stretches of the query is
   * loading each and concatenating.
   */
  lemma {:induction false} LoadedAppend(a: seq<Addr>, b: seq<Addr>, attributes: map<Addr, Attributes>, policy: Policy)
    ensures Loaded(a + b, attributes, policy) == Loaded(a, attributes, policy) + Loaded(b, attributes, policy)
    decreases |b|
  {
    if b == [] {
      assert a + b == a;
    } else {
      var b' := b[..|b| - 1];
      assert (a + b)[..|a + b| - 1] == a + b';
      LoadedAppend(a, b', attributes, policy);
    }
  }

  /** Under AbsentAsZero every queried village is loaded, in query order. */
  lemma {:induction false} LoadedKeepsAll(villages: seq<Addr>, attributes: map<Addr, Attributes>)
    ensures var sites := Loaded(villages, attributes, AbsentAsZero);
      && |sites| == |villages|
      && forall k :: 0 <= k < |villages| ==> sites[k] == Site(villages[k], PositionOf(attributes, villages[k]), 0)
    decreases |villages|
  {
    if villages != [] {
      var last := |villages| - 1;
      var prefix := villages[..last];
      LoadedKeepsAll(prefix, attributes);
      var site := Site(villages[last], PositionOf(attributes, villages[last]), 0);
      assert ReadSite(attributes, villages[last], AbsentAsZero) == Some(site);
      var before := Loaded(prefix, attributes, AbsentAsZero);
      var sites := Loaded(villages, attributes, AbsentAsZero);
      assert sites == before + [site];
      forall k | 0 <= k < |villages|
        ensures sites[k] == Site(villages[k], PositionOf(attributes, villages[k]), 0)
      {
        if k < last {
          assert sites[k] == before[k] && villages[k] == prefix[k];
        }
      }
    }
  }

  /** Some village is loaded exactly when some queried village passes the policy. */
  lemma LoadedEmpty(villages: seq<Addr>, attributes: map<Addr, Attributes>, policy: Policy)
    ensures |Loaded(villages, attributes, policy)| == 0 <==>
              forall v :: v in villages ==> ReadSite(attributes, v, policy).None?
  {
    var sites := Loaded(villages, attributes, policy);
    LoadedMembers(villages, attributes, policy);
    if |sites| > 0 {
      assert sites[0] in sites;
    }
  }

  /**
   * The loader's loop: walks the members of the village class and appends
   * each village the policy keeps.
   */
  method Load(store: Store, policy: Policy) returns (sites: seq<Site>)
    ensures sites == Loaded(store.villages, store.attributes, policy)
  {
    sites := [];
    var i := 0;
    while i < |store.villages|
      invariant 0 <= i <= |store.villages|
      invariant sites == Loaded(store.villages[..i], store.attributes, policy)
    {
      var village := store.villages[i];
      var site := ReadSite(store.attributes, village, policy);
      if site.Some? {
        sites := sites + [site.value];
      }
      assert store.villages[..i + 1][..i] == store.villages[..i];
      i := i + 1;
    }
    assert store.villages[..i] == store.villages;
  }
}
