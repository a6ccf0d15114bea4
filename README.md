# Ambulance placement agents, modelled in Dafny

This project models the four agents of the ambulance module. The agents read
villages from a shared semantic memory and write relation facts back:

- **CalculateDistancesAgent** writes one distance fact for every pair of
  villages that have coordinates.
- **FindCenterAgent** writes every village's eccentricity (its largest distance
  to another village). It then links the action to the graph center, the first
  village of smallest eccentricity.
- **FindOptimalAgent** scores each village as an ambulance station by the
  population-weighted sum of distances to all villages. It links the action to
  the first village of smallest score (a weighted 1-median).
- **FindProblemZonesAgent** reads back the station an earlier optimal location
  run recorded. It measures every other village's distance to it and flags as
  a problem zone each village farther than 1.5 times the mean distance.

The memory is a class `KnowledgeBase.Store`. It holds:

- the members of the village class, in query order;
- the x, y and population attribute links of each element;
- the list of facts written so far.

An attribute lookup has three outcomes: no link (`Absent`), a link whose text
is not a number (`Malformed`, read as 0.0), or a number.

The three agents that can drop a village read a missing link as the sentinel
-1.0. They then drop the village when a required value equals -1.0. So a
village whose stored value is exactly -1.0 is dropped as if the link were
missing (`VillageLoader.ReadsAsMissing`). The four agents each carry their own
copy of this loader; it is written once here, in `VillageLoader`, with a
`Policy` for each agent's inclusion rule.

Each agent's `DoProgram` is a method that may change only `store.facts`. Its
postcondition ties the outcome and the appended facts to a pure `Run` function
of the store. The agent's inner loops are separate methods, each proved
against a function: eccentricity, weighted score, the running minimum,
distance list, total and flags. Lemmas then state what the `Run` functions
promise.

`std::hypot` is a parameter `hypot` of every agent. Lemmas that need
Euclidean behaviour assume `Geometry.IsHypot(hypot)`: `hypot` is the exact,
non-negative square root of dx² + dy² over the reals. `Scenarios` works the
unit-test scenarios out under that assumption, together with the problem
zones example (station (0,0), Near (2,0), Far (10,0)).

The problem zones agent reads coordinates with a reader of its own: a missing
or malformed link reads as 0.0, so it never drops a village
(`VillageLoader.PositionOf`). Its station is the target of the first optimal
location arc whose target is a village; the model walks facts in write order.

## Model

| member | source | states |
|---|---|---|
| `Geometry.DistanceLaws` | cxx/ambulance_module/agents/calculate_distances_agent.cpp:56 | Under the Euclidean norm, the distance every agent computes is non-negative, symmetric, and 0 from a point to itself. |
| `VillageLoader.Truncate` | cxx/ambulance_module/agents/find_optimal_agent.cpp:89 | The `(int)` cast of the population truncates toward zero: the result is within 1 of the value, below it for positive and above it for negative values. |
| `VillageLoader.ReadSite` | cxx/ambulance_module/agents/find_optimal_agent.cpp:54-89 | A village is kept exactly when no required attribute reads as missing. Missing means absent or a stored -1.0; population is required only under the optimal agent's policy. A kept village has the numbers read, with malformed values as 0.0 and the population truncated. |
| `VillageLoader.PositionOf` | cxx/ambulance_module/agents/find_problem_zones_agent.cpp:54-63 | The problem zones reader never drops a village: an absent or malformed coordinate is 0.0. |
| `VillageLoader.LoadedMembers` | cxx/ambulance_module/agents/calculate_distances_agent.cpp:19-47 | The loaded list holds exactly the queried villages the policy keeps, each as ReadSite reads it, and is no longer than the query. |
| `VillageLoader.LoadedAppend` | cxx/ambulance_module/agents/find_center_agent.cpp:23-51 | Loading keeps query order: loading two stretches of the query is loading each and concatenating. |
| `VillageLoader.LoadedKeepsAll` | cxx/ambulance_module/agents/find_problem_zones_agent.cpp:54-63 | The coordinate reader that defaults to 0.0 never drops a village: it yields one site per queried village, in order, at its 0.0-defaulted position. |
| `VillageLoader.LoadedEmpty` | cxx/ambulance_module/agents/find_optimal_agent.cpp:92-96 | Nothing is loaded exactly when every queried village is dropped by the policy. |
| `VillageLoader.Load` | cxx/ambulance_module/agents/find_center_agent.cpp:23-51 | The loader loop returns exactly the loaded list. |
| `Selection.FirstMin` | cxx/ambulance_module/agents/find_center_agent.cpp:82-86 | The strict-`<` running minimum ends on an index whose score is at most every score and strictly below every earlier score (first minimiser wins ties). |
| `Selection.FirstMinStep` | cxx/ambulance_module/agents/find_optimal_agent.cpp:112-117 | One more candidate replaces the best so far exactly when its score is strictly smaller. |
| `CalculateDistancesAgent.Run` | cxx/ambulance_module/agents/calculate_distances_agent.cpp:13-77 | A run succeeds exactly when some village has both coordinates; a failed run is the no-villages error with nothing written. |
| `CalculateDistancesAgent.RowFactsLength` | cxx/ambulance_module/agents/calculate_distances_agent.cpp:55 | The inner loop of row i up to j writes j - i - 1 facts. |
| `CalculateDistancesAgent.RowFactsAt` | cxx/ambulance_module/agents/calculate_distances_agent.cpp:55-72 | The k-th fact of row i is the fact of the pair (i, i+1+k). |
| `CalculateDistancesAgent.FactsBelowCount` | cxx/ambulance_module/agents/calculate_distances_agent.cpp:54-73 | After rows 0..i-1 the loops have written i(2n-i-1)/2 facts. |
| `CalculateDistancesAgent.RowSound` | cxx/ambulance_module/agents/calculate_distances_agent.cpp:55-63 | Every fact of row i links nodes i and d for some d > i. |
| `CalculateDistancesAgent.RowComplete` | cxx/ambulance_module/agents/calculate_distances_agent.cpp:55-63 | Every pair (i, d) with d > i has its fact in row i. |
| `CalculateDistancesAgent.FactsBelowSound` | cxx/ambulance_module/agents/calculate_distances_agent.cpp:54-73 | Every fact of rows 0..i-1 is the fact of a pair a < b with a < i. |
| `CalculateDistancesAgent.FactsBelowComplete` | cxx/ambulance_module/agents/calculate_distances_agent.cpp:54-73 | Every pair a < b with a < i has its fact among rows 0..i-1. |
| `CalculateDistancesAgent.FactsBelowMembers` | cxx/ambulance_module/agents/calculate_distances_agent.cpp:54-73 | Rows 0..i-1 hold exactly the facts of the pairs a < b with a < i. |
| `CalculateDistancesAgent.RowDistinct` | cxx/ambulance_module/agents/calculate_distances_agent.cpp:62-63 | With distinct loaded villages no fact of a row links a village with itself or repeats a link, and each links node i to a later node. |
| `CalculateDistancesAgent.FactsBelowDistinct` | cxx/ambulance_module/agents/calculate_distances_agent.cpp:54-73 | With distinct loaded villages no fact of rows 0..i-1 links a village with itself, and no two link the same two villages in either direction. |
| `CalculateDistancesAgent.DistanceFactCount` | cxx/ambulance_module/agents/calculate_distances_agent.cpp:54-55 | n loaded villages give exactly n(n-1)/2 facts. |
| `CalculateDistancesAgent.RunLoneVillage` | cxx/ambulance_module/agents/calculate_distances_agent.cpp:49-76 | A single loaded village gives success with no facts. |
| `CalculateDistancesAgent.DistanceFactsArePairs` | cxx/ambulance_module/agents/calculate_distances_agent.cpp:54-63 | A fact is written exactly when it is the fact of some pair i < j of loaded villages. |
| `CalculateDistancesAgent.DistanceFactsDistinct` | cxx/ambulance_module/agents/calculate_distances_agent.cpp:62-63 | With distinct loaded villages no village is paired with itself and no unordered pair appears twice. |
| `CalculateDistancesAgent.LoadedDistinct` | cxx/ambulance_module/agents/calculate_distances_agent.cpp:19-47 | A query without repeated villages loads sites with pairwise distinct addresses, whatever the policy. |
| `CalculateDistancesAgent.RunWritesDistinctLinks` | cxx/ambulance_module/agents/calculate_distances_agent.cpp:19-73 | For a query without repeated villages the run never links a village with itself and never links the same two villages twice. |
| `CalculateDistancesAgent.DistanceFactValues` | cxx/ambulance_module/agents/calculate_distances_agent.cpp:56 | Every value written is the distance between the two villages linked, some nodes i < j, and is non-negative and the same read either way. |
| `CalculateDistancesAgent.WriteRow` | cxx/ambulance_module/agents/calculate_distances_agent.cpp:55-72 | The inner loop appends exactly row i's facts. |
| `CalculateDistancesAgent.WriteDistances` | cxx/ambulance_module/agents/calculate_distances_agent.cpp:54-73 | The two loops append exactly the facts of all pairs, row by row. |
| `CalculateDistancesAgent.DoProgram` | cxx/ambulance_module/agents/calculate_distances_agent.cpp:13-77 | The handler's outcome and appended facts are those of Run; villages and attributes are unchanged. |
| `FindCenterAgent.Eccentricity` | cxx/ambulance_module/agents/find_center_agent.cpp:65-71 | The running maximum starts at 0.0 and is never negative. |
| `FindCenterAgent.EccentricityIsMax` | cxx/ambulance_module/agents/find_center_agent.cpp:65-71 | The eccentricity bounds the distance to every target with a different handle, and is either 0.0 or attained by one. |
| `FindCenterAgent.EccentricityFacts` | cxx/ambulance_module/agents/find_center_agent.cpp:64-80 | One eccentricity fact per loaded village, in load order, carrying its eccentricity. |
| `FindCenterAgent.Center` | cxx/ambulance_module/agents/find_center_agent.cpp:82-86 | The center has eccentricity at most every loaded village's, and strictly below every earlier one. |
| `FindCenterAgent.Run` | cxx/ambulance_module/agents/find_center_agent.cpp:15-100 | A run succeeds exactly when some village has both coordinates; otherwise it is the no-villages error with nothing written. |
| `FindCenterAgent.RunWritesCenter` | cxx/ambulance_module/agents/find_center_agent.cpp:64-95 | A successful run writes one eccentricity fact per loaded village in order, then one graph center fact for the center. The center's written eccentricity is minimal, and strictly below every earlier one. |
| `FindCenterAgent.RunLoneVillage` | cxx/ambulance_module/agents/find_center_agent.cpp:64-95 | A lone loaded village gets eccentricity 0 and is the center. |
| `FindCenterAgent.EccentricityCoversAll` | cxx/ambulance_module/agents/find_center_agent.cpp:64-71 | Under the Euclidean norm the distance between two villages with different handles is within both their eccentricities. |
| `FindCenterAgent.MaxDistance` | cxx/ambulance_module/agents/find_center_agent.cpp:65-71 | The inner loop returns the eccentricity. |
| `FindCenterAgent.WriteEccentricities` | cxx/ambulance_module/agents/find_center_agent.cpp:64-87 | The outer loop appends exactly the eccentricity facts and ends on the center. |
| `FindCenterAgent.DoProgram` | cxx/ambulance_module/agents/find_center_agent.cpp:15-100 | The handler's outcome and appended facts are those of Run; villages and attributes are unchanged. |
| `FindOptimalAgent.ScoreAppend` | cxx/ambulance_module/agents/find_optimal_agent.cpp:104-110 | The score over two stretches of targets is the sum of their scores. |
| `FindOptimalAgent.ScoreSkipsSelf` | cxx/ambulance_module/agents/find_optimal_agent.cpp:106-110 | Under the Euclidean norm the candidate's own entry among the targets contributes nothing. |
| `FindOptimalAgent.ScoreOfSelf` | cxx/ambulance_module/agents/find_optimal_agent.cpp:108-109 | Under the Euclidean norm a candidate scored against itself alone scores 0. |
| `FindOptimalAgent.ScoreNonNegative` | cxx/ambulance_module/agents/find_optimal_agent.cpp:104-110 | With no negative population every score is non-negative. |
| `FindOptimalAgent.Optimal` | cxx/ambulance_module/agents/find_optimal_agent.cpp:112-117 | The chosen village has score at most every loaded village's, and strictly below every earlier one. |
| `FindOptimalAgent.Run` | cxx/ambulance_module/agents/find_optimal_agent.cpp:30-137 | No village members gives the no-villages error; members none of which is complete give the no-valid-data error; both write nothing. The run succeeds exactly when some queried village has both coordinates and a population; success writes one optimal location fact for this action, whose target is a queried village. |
| `FindOptimalAgent.RunPicksMinimum` | cxx/ambulance_module/agents/find_optimal_agent.cpp:98-137 | A successful run writes exactly the fact for the first village of minimal score. |
| `FindOptimalAgent.WeightedScore` | cxx/ambulance_module/agents/find_optimal_agent.cpp:104-110 | The inner loop returns the score. |
| `FindOptimalAgent.SelectOptimal` | cxx/ambulance_module/agents/find_optimal_agent.cpp:98-118 | The outer loop ends on the chosen village. |
| `FindOptimalAgent.DoProgram` | cxx/ambulance_module/agents/find_optimal_agent.cpp:30-140 | The handler's outcome and appended facts are those of Run; villages and attributes are unchanged. |
| `FindProblemZonesAgent.FirstStationIndex` | cxx/ambulance_module/agents/find_problem_zones_agent.cpp:29-45 | The index of the first optimal location fact whose target is a village; every earlier fact is not one. |
| `FindProblemZonesAgent.Station` | cxx/ambulance_module/agents/find_problem_zones_agent.cpp:29-45 | No station exactly when no recorded fact is an optimal location with a village target; a station found is a village. |
| `FindProblemZonesAgent.DistanceListMembers` | cxx/ambulance_module/agents/find_problem_zones_agent.cpp:76-87 | The list holds exactly the villages other than the station, each with its distance to the station. |
| `FindProblemZonesAgent.DistanceListSize` | cxx/ambulance_module/agents/find_problem_zones_agent.cpp:76-87 | The list has one entry per query occurrence of a village other than the station. |
| `FindProblemZonesAgent.DistanceListAppend` | cxx/ambulance_module/agents/find_problem_zones_agent.cpp:76-87 | The list keeps query order. |
| `FindProblemZonesAgent.DistanceListFromLoaded` | cxx/ambulance_module/agents/find_problem_zones_agent.cpp:54-87 | The list is the 0.0-defaulted sites of the query less the station, in order, each paired with its distance to the station's own 0.0-defaulted position. |
| `FindProblemZonesAgent.ProblemZoneFacts` | cxx/ambulance_module/agents/find_problem_zones_agent.cpp:100-110 | Never more facts than list entries. |
| `FindProblemZonesAgent.ProblemZoneFactsAppend` | cxx/ambulance_module/agents/find_problem_zones_agent.cpp:100-110 | The facts follow list order: the facts of two stretches of the list are the facts of the first followed by those of the second, one per entry above the threshold. |
| `FindProblemZonesAgent.ProblemZoneFactsMembers` | cxx/ambulance_module/agents/find_problem_zones_agent.cpp:100-110 | Every fact is a problem zone of this action for an entry strictly above the threshold, and every such entry has its fact. |
| `FindProblemZonesAgent.ProblemZoneFactsMissOne` | cxx/ambulance_module/agents/find_problem_zones_agent.cpp:102 | An entry at or below the threshold is not flagged, so fewer facts than entries are written. |
| `FindProblemZonesAgent.TotalAtLeast` | cxx/ambulance_module/agents/find_problem_zones_agent.cpp:86 | The total of entries each at least m is at least count times m. |
| `FindProblemZonesAgent.NearestWithinThreshold` | cxx/ambulance_module/agents/find_problem_zones_agent.cpp:91-92 | With non-negative distances a nearest entry is at most the mean and so at most 1.5 times the mean. |
| `FindProblemZonesAgent.NeverAllFlagged` | cxx/ambulance_module/agents/find_problem_zones_agent.cpp:91-110 | With non-negative distances a non-empty list is never flagged in full. |
| `FindProblemZonesAgent.Run` | cxx/ambulance_module/agents/find_problem_zones_agent.cpp:15-114 | A run succeeds exactly when some recorded optimal location has a village target; otherwise it is the station-not-found error with nothing written. |
| `FindProblemZonesAgent.RunFlags` | cxx/ambulance_module/agents/find_problem_zones_agent.cpp:76-110 | On success every fact is a problem zone of this action for a village other than the station. Such a village is flagged exactly when its distance is strictly above 1.5 times the mean. |
| `FindProblemZonesAgent.RunOnlyStation` | cxx/ambulance_module/agents/find_problem_zones_agent.cpp:89 | When the station is the only village the run succeeds and writes nothing. |
| `FindProblemZonesAgent.RunNeverFlagsNearest` | cxx/ambulance_module/agents/find_problem_zones_agent.cpp:91-110 | Under the Euclidean norm a village nearest the station is never flagged, and not every other village is flagged. |
| `FindProblemZonesAgent.FindStation` | cxx/ambulance_module/agents/find_problem_zones_agent.cpp:19-45 | The search loop with `break` finds exactly the station, or reports none. |
| `FindProblemZonesAgent.CollectDistances` | cxx/ambulance_module/agents/find_problem_zones_agent.cpp:65-87 | The loop builds exactly the distance list and its total. |
| `FindProblemZonesAgent.FlagProblemZones` | cxx/ambulance_module/agents/find_problem_zones_agent.cpp:100-110 | The flag loop appends exactly the problem zone facts, in list order. |
| `FindProblemZonesAgent.DoProgram` | cxx/ambulance_module/agents/find_problem_zones_agent.cpp:15-114 | The handler's outcome and appended facts are those of Run on the facts recorded before it; villages and attributes are unchanged. |
| `Scenarios.DistancesThreeFourFive` | cxx/ambulance_module/test/ambulance_tests.cpp:101-139 | V1 (0,0) and V2 (3,4) give exactly one distance fact, of value 5. |
| `Scenarios.SentinelValueDropsVillage` | cxx/ambulance_module/agents/calculate_distances_agent.cpp:37-46 | A stored x of -1.0 drops the village; a malformed x keeps it at 0.0. |
| `Scenarios.MissingPopulationOnlyDropsFromOptimal` | cxx/ambulance_module/agents/find_optimal_agent.cpp:79-89 | A village without a population link is kept by the coordinate-only loaders and dropped by the optimal agent's. |
| `Scenarios.CenterOfThreeOnALine` | cxx/ambulance_module/test/ambulance_tests.cpp:141-174 | A (0,0), B (2,0), C (10,0) give eccentricities 10, 8, 10 and center B. |
| `Scenarios.OptimalPicksCentral` | cxx/ambulance_module/test/ambulance_tests.cpp:75-96 | Central, Northern and Southern select Central. |
| `Scenarios.StationSkipsNonVillage` | cxx/ambulance_module/agents/find_problem_zones_agent.cpp:38-44 | An optimal location fact whose target is not a village is passed over. |
| `Scenarios.ProblemZonesFlagsFar` | cxx/ambulance_module/agents/find_problem_zones_agent.cpp:89-110 | Station (0,0), Near (2,0), Far (10,0): threshold 9, only Far is flagged. |

## Left out

- The sc-memory machinery is not modelled: iterators, element types, link contents, structures, the action life cycle and waiting for results. The memory is the village list, the attribute map and an append-only fact list. A distance or eccentricity fact carries its number directly rather than a link holding its text.
- The text form of numbers is not modelled: `std::stod` parsing and `std::to_string` serialisation. Only the three lookup outcomes and the number are.
- Floating point is not modelled: values are reals and `std::hypot` is a parameter. With IEEE doubles, infinities or NaN could leave the DBL_MAX-initialised minimum unset. That would make the "center not found" and "optimal not found" errors reachable; over the reals they are not. The running minimum therefore takes the first candidate unconditionally, and neither error is a branch of the model.
- VillageLoader.Truncate: the `(int)` cast of a population outside the int range is undefined behaviour in C++; the model truncates any real.
- The optimal agent first copies the class members into a vector and then loads from it. The model loads from the member list directly; the result is the same.
- Under the coordinate-only policies the population link is not read, so a loaded site carries population 0 there.
- Logging is left out; it has no effect on the facts or the outcome. Every error path in the source ends the action with the same `FinishWithError()` and differs only in the message it logs; the `Error` kinds stand for that logged reason.
- The memory's iteration order is not modelled: a query returns the village list in its stored order, and the station search walks the facts in write order.
- Concurrent runs against the shared memory are left out; each `DoProgram` runs alone.
- The keynodes header, module registration and the station agent header are not part of this model.
- Repeated runs append their facts again. The `DoProgram` postconditions state this (the facts grow by the run's facts every time); idempotence is not claimed.
