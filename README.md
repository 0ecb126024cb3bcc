# Traffic simulation core in Dafny

This project models the algorithmic core of a small discrete-event traffic simulator. The simulator is a directed road network whose roads carry a distance, a road type, a speed limit and a congestion level (LIGHT < MODERATE < HEAVY < CONGESTED). It also has traffic lights at the junctions and vehicles that drive routes across the network.

- **`Enums`**: the congestion levels, with their order, and the vehicle classes.
- **`Roads`**: the network as a value. It holds the nodes, the edges in graph order and the per-edge road data. Also here: the vehicle class speed multipliers, the congestion travel factors, the travel time of one road and the cost of a path.
- **`Router`**: the traffic manager's `find_shortest_path`. It is Dijkstra's algorithm over a priority queue of entries that each carry a path, plus a visited set. The proof is that the result is `[start]` for `start == goal`, otherwise a simple cheapest path. It is `None` exactly when the goal cannot be reached.
- **`Congestion`**:
  - `update_road_traffic`, a one-level random walk on one edge;
  - the periodic tick over `int(0.2 · E)` distinct sampled edges;
  - the list of CONGESTED roads in edge order.
- **`Signals`**: the manager's `TrafficLight`:
  - the clamped green time;
  - the Markov-style `optimize_signals_dp`: discretisation into five levels, transition counts, normalisation, first argmax, green time;
  - one cycle of `run`: the incoming sample, the bounded history, GREEN, YELLOW, RED.
- **`Ledger`**:
  - the trip records;
  - the recursive merge sort and its two-index merge;
  - `analyze_traffic_data`: trip count, mean time, fastest and slowest trip, the congested-road counter cut to the top five, and per-class statistics.
- **`Manager`**: the `TrafficManager` class. It sets up one light per junction, classified by out-degree, and it nudges roads, runs the tick, lists hotspots and records trips.
- **`Vehicles`**: the `Vehicle` class:
  - route planning;
  - `consider_rerouting` with its splice of a new path;
  - each hop of `drive`: the reroute check, the red-light wait, the travel segment, the time and the two congestion nudges;
  - the recorded trip.
- **`TestSim`**: the stand-alone integer-weight simulation. Its `dijkstra_shortest_path` uses a `(predecessor, weight)` table and a predecessor walk. Its `drive` waits at a red light at the next node.
- **`NormalSim`**: the stand-alone simulation whose roads carry distance, type and speed limit. It has the distance-weighted `dijkstra_shortest_path`, a two-phase light whose cycle defaults to 60, and a `drive` that truncates hop times and waits at a red light at the current node.

Random draws become parameters throughout. They are the sampled edges, the change factors, the `random.random()` values, the red-light delays and the `random.choice` index of a junction type. Floating-point numbers are modelled as exact reals.

Two places where the repository's documentation and its code differ; the model follows the code:
- A light's history entry holds the incoming values sorted in descending order, because `run` sorts before it appends.
- The merge sort is not stable: on equal travel times `merge` takes the right element first. `Ledger.MergeSortNotStable` exhibits this.

## Model

| member | source | states |
|---|---|---|
| Enums.TrafficCondition.Index | utils/enums.py:16-20 | the position of a level in LIGHT < MODERATE < HEAVY < CONGESTED is below four |
| Enums.ConditionAt | models/traffic_manager.py:131-142 | the level at a position of the enumeration has that position |
| Roads.SpeedMultiplier | models/vehicle.py:12-17 | every class multiplier lies in [0.6, 1.5] |
| Roads.TrafficFactor | models/vehicle.py:19-24 | every factor lies in [0.2, 1.0], and it is 1.0 exactly for LIGHT |
| Roads.TrafficFactorDecreasing | models/vehicle.py:19-24 | a strictly heavier level has a strictly smaller factor |
| Roads.TravelTime | models/vehicle.py:110-112 | the hop time of a road with positive distance and speed limit is positive |
| Roads.TravelTimeMonotone | models/vehicle.py:110-112 | making a road's level worse never makes it faster to drive |
| Roads.EdgeCost | models/traffic_manager.py:208-210 | every edge cost the router uses is positive |
| Roads.PathCostAppend | models/traffic_manager.py:193-213 | extending a path by one edge gives a path whose cost grows by exactly that edge's cost |
| Roads.InOrderSnoc | models/traffic_manager.py:161-165 | a subsequence stays one when the sequence grows at its end, with or without the new element taken too |
| Roads.InOrderPositions | models/traffic_manager.py:161-165 | in a subsequence of a duplicate-free sequence, an earlier element sits at an earlier position of the sequence |
| Congestion.NextCondition | models/traffic_manager.py:125-142 | the level moves at most one step; it goes up exactly when the factor is positive, the level is below CONGESTED and the draw is below the factor; it goes down exactly when the factor is negative, the level is above LIGHT and the draw is below -factor; a zero factor leaves it unchanged |
| Congestion.UpdateRoad | models/traffic_manager.py:125-142 | only the condition of edge (source, target) changes, to NextCondition; every other edge and every other attribute, the nodes and the edge order stay as they were |
| Congestion.UpdateRoadPreserves | models/traffic_manager.py:127-142 | an update keeps the network well formed and keeps every path a path |
| Congestion.ApplyTick | models/traffic_manager.py:150-156 | a tick keeps the nodes, edges and keys and leaves every unsampled edge unchanged |
| Congestion.TickSampledEdge | models/traffic_manager.py:150-156 | with distinct samples, each sampled edge takes exactly its own nudge |
| Congestion.TickMovesAtMostOneLevel | models/traffic_manager.py:150-156 | after a tick, every edge differs from before only in its condition, by at most one level |
| Congestion.TickChangesAtMostSample | models/traffic_manager.py:150-156 | the edges a tick changes are among the sample, so there are no more of them than sampled edges |
| Congestion.SampleSize | models/traffic_manager.py:150-151 | the sample size k satisfies 5k <= E < 5k + 5, i.e. it is floor(E / 5) |
| Congestion.CongestedAmong | models/traffic_manager.py:161-167 | an edge is listed exactly when it is in the sequence and CONGESTED; the list keeps the order of the sequence (it is a subsequence), is no longer than the input, and is duplicate-free when the input is |
| Congestion.Hotspots | models/traffic_manager.py:161-167 | the report lists exactly the CONGESTED edges of the network, each once, in the graph's edge order |
| Manager.OutDegree | models/traffic_manager.py:114 | the out-degree is at most the number of edges |
| Manager.OutDegreeCountsRoads | models/traffic_manager.py:114 | over a duplicate-free edge list the count equals the number of distinct roads leaving the node |
| Manager.JunctionTypeFor | models/traffic_manager.py:112-121 | smart exactly above four outgoing roads, city for three or four, and otherwise the drawn one of highway, city and rural |
| Manager.MakeLight | models/traffic_manager.py:112-123 | a fresh RED light with empty history at the node, of the classified type, with cycle time 90 |
| Manager.TrafficManager.constructor | models/traffic_manager.py:103-123 | a manager over the network with an empty ledger and exactly one correctly classified fresh light per node |
| Manager.TrafficManager.SetupTrafficLights | models/traffic_manager.py:103-123 | every node gets a fresh light of its classified type with cycle 90; lights of other keys are kept |
| Manager.TrafficManager.UpdateRoadTraffic | models/traffic_manager.py:125-142 | the manager's network becomes UpdateRoad of the old one and stays well formed |
| Manager.TrafficManager.UpdateTrafficConditions | models/traffic_manager.py:144-159 | for floor(E / 5) distinct sampled edges with factors in [-0.3, 0.3], the network becomes ApplyTick of the old one, and the report is the hotspot list of the new network |
| Manager.TrafficManager.NudgeSample | models/traffic_manager.py:153-156 | the loop over the sample leaves the network equal to ApplyTick of the old one |
| Manager.TrafficManager.ReportTrafficHotspots | models/traffic_manager.py:161-167 | the loop collects exactly Hotspots(network) |
| Manager.TrafficManager.RecordTrip | models/traffic_manager.py:218-229 | exactly one record, stamped with the current time, is appended to the ledger |
| Router.PopMin | models/traffic_manager.py:186 | a least-cost entry of the queue is removed; every other entry stays |
| Router.LowerBound | models/traffic_manager.py:184-213 | every path from the start to an unexpanded node costs at least some queued entry |
| Router.PoppedIsSettled | models/traffic_manager.py:186-200 | the least entry popped for an unexpanded node costs no more than any path to that node |
| Router.SkipKeepsInv | models/traffic_manager.py:189-190 | skipping an entry of an expanded node keeps the search invariant |
| Router.Offer | models/traffic_manager.py:203-213 | one neighbour pass only appends entries, well formed ones, and covers one more edge out of the node |
| Router.PushNeighbours | models/traffic_manager.py:203-213 | the queue only grows at its end, all entries are well formed, and every edge from the node to an unexpanded neighbour has an entry of cost + edge cost |
| Router.ExpandKeepsSettled | models/traffic_manager.py:199-200 | after an expansion every expanded node, the new one included, carries its least path cost |
| Router.ExpandKeepsEdges | models/traffic_manager.py:203-213 | after an expansion every edge from an expanded to an unexpanded node is represented in the queue |
| Router.ExpandKeepsInv | models/traffic_manager.py:199-213 | expanding the popped node at its settled cost keeps the search invariant |
| Router.GoalReached | models/traffic_manager.py:193-197 | a popped goal entry yields a simple start-to-goal path whose cost is minimal |
| Router.Expand | models/traffic_manager.py:199-213 | marking the node visited and pushing its neighbours keeps the invariant |
| Router.Step | models/traffic_manager.py:184-213 | one loop pass either returns a simple cheapest path to the goal, or keeps the invariant and either drops a queue entry or expands one new node |
| Router.Take | models/traffic_manager.py:192-213 | an unexpanded least entry either completes a cheapest path to the goal or is expanded, leaving fewer nodes to expand |
| Router.Exhausted | models/traffic_manager.py:184-216 | once the queue is empty every node reachable from start has been expanded, so the goal is unreachable |
| Router.Search | models/traffic_manager.py:178-216 | for start != goal the result is a simple cheapest path, or None exactly when the goal is unreachable; on None every node reachable from start was expanded; each node is expanded at most once, the goal never |
| Router.FindShortestPath | models/traffic_manager.py:173-216 | [start] when start == goal; otherwise a simple start-to-goal path along edges whose cost is minimal over all such paths; None exactly when the goal is unreachable, and then every node reachable from start was expanded, none twice |
| Ledger.Merged | models/traffic_manager.py:294-309 | the merge is a permutation of the two inputs together |
| Ledger.MergedSorted | models/traffic_manager.py:294-309 | merging two lists sorted by travel time gives a sorted list |
| Ledger.Merge | models/traffic_manager.py:294-309 | the two-index loop and the leftovers produce exactly Merged(left, right) |
| Ledger.MergeSortByTime | models/traffic_manager.py:277-292 | the result is a permutation of the input, non-decreasing in travel time, and lists of length at most one come back unchanged |
| Ledger.MergeSortNotStable | models/traffic_manager.py:299-305 | two distinct records with equal times come out in reverse order |
| Ledger.SortedEnds | models/traffic_manager.py:269-270 | the first sorted trip is no slower and the last no faster than any trip |
| Ledger.TotalTimePermutation | models/traffic_manager.py:237-241 | the summed travel time of a permutation of the ledger is the same, so the mean is taken over the records |
| Ledger.TypeCountsSumToTotal | models/traffic_manager.py:255-259 | the four class counts add up to the trip count |
| Ledger.TypeCountOtherName | models/traffic_manager.py:257 | no name other than the four class names is counted |
| Ledger.TallyOf | models/traffic_manager.py:244-249 | the counter's keys are exactly the roads with a HEAVY or CONGESTED segment, each once, with its count of such segments |
| Ledger.Items | models/traffic_manager.py:252 | the items list each key in counter order with its count |
| Ledger.InsertByCount | models/traffic_manager.py:252 | inserting into a list sorted by descending count keeps it sorted and adds exactly that item |
| Ledger.SortByCountDesc | models/traffic_manager.py:252 | the result is sorted by descending count and is a permutation of the items |
| Ledger.WithCount | models/traffic_manager.py:252 | the items of a given count are exactly those of the list with that count |
| Ledger.InsertByCountStable | models/traffic_manager.py:252 | insertion puts the new item behind every item of equal count already there |
| Ledger.SortByCountDescStable | models/traffic_manager.py:252 | the sort is stable: the items of each count keep their order in the counter, so the five-road cut among ties follows counter order |
| Ledger.RankedRoads | models/traffic_manager.py:252 | the ranking is sorted by descending count and a permutation of the counter's items |
| Ledger.TopRoads | models/traffic_manager.py:271 | at most five roads are reported |
| Ledger.TopIsPrefix | models/traffic_manager.py:271 | the report is the first five (or all) of the ranking |
| Ledger.RankedCounts | models/traffic_manager.py:244-252 | every ranked road carries its true, positive congestion count |
| Ledger.TopRoadsCounts | models/traffic_manager.py:244-271 | the reported roads are in descending count order, carry their true positive counts, and are distinct |
| Ledger.TopRoadsMaximal | models/traffic_manager.py:252-271 | a congested road left out of the report was counted no more often than any reported road |
| Ledger.TallyRoads | models/traffic_manager.py:244-249 | the nested loop over trips and segments builds exactly TallyOf of all segments |
| Ledger.TallySegments | models/traffic_manager.py:246-249 | the inner loop extends the counter by one trip's segments |
| Ledger.TallyOne | models/traffic_manager.py:247-249 | one segment bumps its road's count only when it is HEAVY or CONGESTED |
| Ledger.CountTypes | models/traffic_manager.py:255-259 | the counters have a key exactly for each class that made a trip, holding its trip count and summed time |
| Ledger.CountTrip | models/traffic_manager.py:256-259 | one pass counts one more trip under its own class only |
| Ledger.VehicleStatsKeys | models/traffic_manager.py:255-263 | a class appears in the statistics exactly when it made a trip, with its count, summed time and mean time |
| Ledger.BuildVehicleStats | models/traffic_manager.py:255-263 | the loops build exactly VehicleStats of the ledger |
| Ledger.TopCongestedRoads | models/traffic_manager.py:243-271 | the counting, ranking and cut give exactly TopRoads of the sorted ledger's segments |
| Ledger.AnalyzeTrafficData | models/traffic_manager.py:231-275 | the sentinel message exactly when there are no records; otherwise the trip count, the mean time, the first and last sorted trip ids, the top roads and the class statistics |
| Ledger.VehicleStatsSumToTotal | models/traffic_manager.py:255-272 | the class counts of a report add up to its trip count |
| Signals.SignalFactor | models/traffic_light.py:108-114 | every signal factor lies in [0.2, 1.0], and it is 1.0 exactly for CONGESTED |
| Signals.SignalFactorIncreasing | models/traffic_light.py:108-114 | a strictly heavier level has a strictly larger signal factor |
| Signals.IncomingEdges | models/traffic_light.py:19-20 | an edge is listed exactly when it ends at the location; the list is a subsequence of the edges and duplicate-free when they are |
| Signals.IncomingCountsRoads | models/traffic_light.py:19-20 | over a duplicate-free edge list there is one incoming edge per distinct road ending at the location |
| Signals.IncomingFactorsStep | models/traffic_light.py:19-23 | scanning one more edge appends its table value exactly when it ends at the location |
| Signals.IncomingFactors | models/traffic_light.py:19-23 | exactly one factor per incoming road: position k holds the table value of the k-th road of IncomingEdges, so the list keeps edge order and multiplicity; every value is a table value and comes from an incoming road |
| Signals.InsertDesc | models/traffic_light.py:26 | insertion keeps the descending order and adds exactly that value |
| Signals.SortDesc | models/traffic_light.py:26 | the sort is descending and a permutation of its input |
| Signals.SortKeepsFactors | models/traffic_light.py:26-29 | sorting the incoming sample leaves only table values in it |
| Signals.Density | models/traffic_light.py:38 | the mean is 0 for an empty sample and lies in [0, 1] for values in [0, 1] |
| Signals.JunctionMultiplier | models/traffic_light.py:57-63 | every multiplier lies in [0.7, 1.5], and an unknown type gets 1.0 |
| Signals.OptimizeGreenTime | models/traffic_light.py:55-64 | the green time lies in [10, 60]; it is 60 exactly when density times multiplier is at least 120 and 10 exactly when below 22; in between it is the floor of half that product |
| Signals.GreenTimeMonotone | models/traffic_light.py:55-64 | more traffic never gives a shorter green time |
| Signals.Discretize | models/traffic_light.py:79-82 | the level is min(floor(mean * 5), 4), in [0, 4], and 0 for an empty snapshot |
| Signals.Levels | models/traffic_light.py:78-82 | one level below five per history entry, each the discretized entry |
| Signals.TransitionTotal | models/traffic_light.py:84-88 | the counts of the transition matrix sum to n - 1 |
| Signals.ArgMax | models/traffic_light.py:96-99 | the first position holding the largest entry |
| Signals.ArgMaxUnique | models/traffic_light.py:96-99 | the first maximum is the only position with those two properties |
| Signals.ArgMaxScaled | models/traffic_light.py:90-99 | dividing a row by its positive total does not move its first maximum |
| Signals.GreenForLevel | models/traffic_light.py:101-106 | the green time is int(15 + p / 4 * 45), one of 15, 26, 37, 48 and 60 |
| Signals.PredictedLevel | models/traffic_light.py:96-99 | the predicted level is below five |
| Signals.DpGreenTime | models/traffic_light.py:66-106 | 30 for fewer than two history entries, otherwise one of 15, 26, 37, 48 and 60 |
| Signals.OptimizeSignalsDp | models/traffic_light.py:66-106 | the discretise, count, normalise and argmax loops compute exactly DpGreenTime of the history |
| Signals.DiscretizeAll | models/traffic_light.py:78-82 | the loop produces exactly the levels of the history |
| Signals.CountTransitions | models/traffic_light.py:74-88 | a fresh 5 x 5 matrix whose cell (a, b) counts how often level a is directly followed by b |
| Signals.NormaliseRows | models/traffic_light.py:90-94 | every row with a positive total is divided by it, and the other rows keep their counts |
| Signals.Remember | models/traffic_light.py:29-31 | the entry is appended, the oldest entry is dropped past 100, and the bound of 100 is kept |
| Signals.RememberKeepsGood | models/traffic_light.py:19-31 | a history of sorted table values within the bound stays so after remembering a sorted sample |
| Signals.ChosenGreen | models/traffic_light.py:33-39 | the DP green time exactly for an adaptive light with more than ten entries, otherwise the clamped green time of the scaled mean density; always in [10, 60] |
| Signals.ChooseGreen | models/traffic_light.py:33-39 | the branch picks exactly ChosenGreen |
| Signals.TrafficLight.constructor | models/traffic_light.py:5-14 | a RED light with empty history, adaptive exactly for the smart type |
| Signals.TrafficLight.IncomingTraffic | models/traffic_light.py:19-23 | the edge scan collects exactly IncomingFactors at the light's location |
| Signals.TrafficLight.StartGreen | models/traffic_light.py:19-42 | the sorted incoming sample is remembered, the green time is chosen from it, and the light is GREEN |
| Signals.TrafficLight.StartYellow | models/traffic_light.py:46-48 | the light is YELLOW for 5 |
| Signals.TrafficLight.StartRed | models/traffic_light.py:50-51 | the light is RED for the base cycle minus green minus yellow |
| Signals.TrafficLight.RunCycle | models/traffic_light.py:16-53 | one cycle remembers the sorted sample and returns green, yellow and red that sum to the base cycle, with green in [10, 60], yellow 5 and red non-negative from a cycle of 65 on; it ends RED |
| Vehicles.IndexOf | models/vehicle.py:50 | the first position of the node in the route |
| Vehicles.RouteFactorSum | models/vehicle.py:54-58 | the summed factor of a k-edge route lies in [0.2k, k] |
| Vehicles.AverageFactor | models/vehicle.py:60 | the mean factor lies in [0.2, 1.0] for two or more nodes and is 0 otherwise |
| Vehicles.AllLightNoReroute | models/vehicle.py:60-63 | along a route of LIGHT roads the mean is 1.0, so no reroute is tried |
| Vehicles.CongestedAhead | models/vehicle.py:60-63 | a mean below 0.7 means some road ahead is worse than LIGHT |
| Vehicles.SumRouteFactors | models/vehicle.py:54-58 | the loop computes exactly RouteFactorSum of the remaining route |
| Vehicles.SplicePath | models/vehicle.py:73 | a path cut at a position and continued by a path from that node is a path with the same prefix |
| Vehicles.SegmentFor | models/vehicle.py:115-122 | the segment records the from and to nodes, the distance, the road type, the level name and a positive time |
| Vehicles.SegmentTime | models/vehicle.py:110-112 | the recorded time times multiplier times factor is the base time |
| Vehicles.HopsTimeSnoc | models/vehicle.py:97-130 | one more driven hop adds its wait at a red light at its start and 60 times its recorded travel time to the hop total |
| Vehicles.SpliceTaken | models/vehicle.py:64-74 | splicing a different cheapest path in at the node's first position gives a start-to-destination path that keeps the prefix |
| Vehicles.Reroute | models/vehicle.py:46-75 | the route always stays a start-to-destination path; it is unchanged when nothing is rerouted, and nothing is rerouted at the destination, at route[-2] or when the mean is not below 0.7; a reroute keeps the prefix before cur and continues with a cheapest path from cur that differs from the old remainder; conversely, when a reroute is due and none happens, some fastest simple path from cur joins exactly like the old remainder |
| Vehicles.AskRouter | models/vehicle.py:63-74 | the router's fastest path from cur is spliced in when it joins differently from the old remainder; otherwise the route is kept and a fastest simple path from cur joins exactly like the remainder |
| Vehicles.Vehicle.constructor | models/vehicle.py:26-39 | a vehicle at its start with no route, no segments, zero time, its class multiplier and threshold 0.7 |
| Vehicles.Vehicle.PlanRoute | models/vehicle.py:41-44 | the route is the router's cheapest simple path, and empty exactly when the destination is unreachable |
| Vehicles.Vehicle.ConsiderRerouting | models/vehicle.py:46-75 | the route is unchanged when no reroute happens, otherwise spliced as Reroute states; no reroute unless one is due, and a due reroute is skipped only when a fastest path from the node joins like the old remainder |
| Vehicles.Vehicle.Travel | models/vehicle.py:97-133 | the wait at a red light at u, one segment for the road, time growing by 60 times the travel time, and the road nudged by +0.1 and then -0.05 |
| Vehicles.Vehicle.ArriveAt | models/vehicle.py:86-95 | the current and next node are set; a reroute is tried only at hops after the first with a draw below 0.3, and when tried and due it is skipped only when a fastest path from the node joins like the old remainder |
| Vehicles.Vehicle.DriveHop | models/vehicle.py:85-133 | a hop either reroutes, changing nothing else, or travels the road as Travel states; it travels after a tried and due reroute only when a fastest path from the node joins like the old remainder |
| Vehicles.Vehicle.TakeHop | models/vehicle.py:85-133 | a hop that does not reroute records one segment from route[i] to route[i + 1] with positive time, and the total grows by the red-light wait at route[i] plus 60 times that time |
| Vehicles.Vehicle.FollowHop | models/vehicle.py:85-133 | one pass of the hop loop that does not reroute records one more hop following the route, and the total grows to exactly the start total plus HopsTime of the hops driven so far; the red junctions do not change |
| Vehicles.Vehicle.DriveRoute | models/vehicle.py:85-133 | on arrival the route is unchanged, its hops are recorded in order, and the total is exactly the old total plus, for each hop k, the red-light wait at route[k] for draws[k].delay and 60 times hop k's recorded time |
| Vehicles.Vehicle.Drive | models/vehicle.py:77-139 | no run exactly when no usable route exists; on arrival a simple start-to-destination route whose hops are recorded in order, a total of exactly the old total plus the summed red-light waits and 60 times each hop's recorded time, and one trip record with time total / 60; nothing is recorded otherwise |
| Vehicles.Vehicle.DrivePlanned | models/vehicle.py:85-139 | on arrival the hop totals are as DriveRoute states and one trip record with the total / 60 is appended; otherwise the ledger is unchanged |
| Vehicles.Vehicle.RecordArrival | models/vehicle.py:137-139 | the ledger gains exactly the vehicle's trip record, its total time (kept in minutes) divided by 60 |
| TestSim.CrossingBound | test.py:25-29 | every route from the start to an unvisited node weighs at least the least unvisited record |
| TestSim.NoEscape | test.py:25-27 | with every record visited, no route leaves the visited set |
| TestSim.Relaxed | test.py:16-23 | the relaxed record is no heavier than the road's offer or the old record |
| TestSim.Relax | test.py:16-23 | the neighbour loop produces the relaxed record for every node |
| TestSim.ExpandKeepsTree | test.py:11-23 | after expanding the least node, each record's weight is still its visited predecessor's weight plus that road's weight (w = w(pred) + edge), with predecessors visited earlier |
| TestSim.ExpandKeepsBounds | test.py:11-29 | after an expansion the visited nodes are settled, relaxed and no heavier than the rest |
| TestSim.ChosenIsOptimal | test.py:25-29 | the least unvisited record is a shortest weight |
| TestSim.PickLeast | test.py:29 | the chosen node is an unvisited record of least weight |
| TestSim.Unvisited | test.py:25 | next_destinations holds exactly the unvisited recorded nodes |
| TestSim.Reverse | test.py:36 | the reversal has the same length with the elements in reverse order |
| TestSim.BuildPath | test.py:31-36 | the predecessor walk gives a route from start to goal of the goal's recorded weight |
| TestSim.Visit | test.py:11-29 | one outer pass marks the node visited and keeps the invariant, or proves the goal unreachable |
| TestSim.DijkstraShortestPath | test.py:6-37 | [start] when start == goal; otherwise a route along the roads of least total weight; None exactly when the goal is unreachable |
| TestSim.RedWaitsBounds | test.py:95-99 | each red light at the next node costs between 30 and 90 |
| TestSim.Drive | test.py:88-104 | the total is the route's summed weight plus the waits at red lights at the next node |
| NormalSim.DistanceGraph | normal.py:168-172 | the route finder weighs each road by its distance, with the same nodes and roads |
| NormalSim.DijkstraShortestPath | normal.py:161-191 | [start] when start == goal; otherwise a route along the roads of least total distance; None exactly when the goal is unreachable |
| NormalSim.BasicMultiplier | normal.py:75-80 | multipliers in [0.7, 1.3]; the manager's table for every type but the smart one, which gets 1.0 |
| NormalSim.OptimizeGreenTime | normal.py:73-81 | the green time lies in [10, 60]; 60 exactly when density times multiplier is at least 120, 10 exactly when below 22 |
| NormalSim.GreenTimeAgrees | normal.py:73-81 | the green time equals the manager's light's for the same density, with the smart type timed as a city |
| NormalSim.GreenTimeMonotone | normal.py:73-81 | denser traffic never gives a shorter green time |
| NormalSim.TrafficLight.constructor | normal.py:55-61 | a light starts RED with its cycle time |
| NormalSim.TrafficLight.StartGreen | normal.py:66-68 | GREEN for the optimised green time |
| NormalSim.TrafficLight.StartRed | normal.py:70-71 | RED for the rest of the cycle |
| NormalSim.TrafficLight.RunCycle | normal.py:63-71 | green in [10, 60], green + red equals the cycle, red non-negative for the default cycle of 60 or more; it ends RED |
| NormalSim.HopTime | normal.py:38-40 | the hop time is the floor of distance / speed limit / multiplier |
| NormalSim.HopTimeSlower | normal.py:39-40 | a class with a smaller multiplier never takes less time on a road |
| NormalSim.RedDelaysBounds | normal.py:42-45 | each red light costs between 10 and 60, and there is no delay exactly when no light was red |
| NormalSim.NoRedNoDelay | normal.py:42-45 | with no red light on the way there is no delay |
| NormalSim.Drive | normal.py:31-52 | the total is the summed truncated hop times plus the delays taken at red lights at each hop's current node |

## Left out

- SimPy scheduling is not modelled: `env.process`, `env.timeout`, `env.run` and the interleaving of light, vehicle and tick processes during a yield. The light cycle, the tick and each hop are step methods.
- The random module is not modelled. Every draw is a parameter with its range as a precondition.
- Floating-point rounding is not modelled; numbers are exact reals. `int(0.2 * E)` is modelled as `E / 5`.
- The heap's tie order is not modelled. `Router.PopMin` takes the first least-cost entry. Python compares tuples on node and path after the cost, so among equal-cost paths a different one may be returned. Both are cheapest.
- Iteration order of the neighbour dictionary and of `min` over records is not modelled. `TestSim.PickLeast` may take any least record.
- Roads.WellFormed: requires every road to have a positive distance and a positive speed limit. A zero speed limit raises ZeroDivisionError in models/traffic_manager.py:210 and models/vehicle.py:110. A zero distance is accepted there as a zero-cost edge; the model does not cover such networks.
- Router.FindShortestPath: requires `start == goal || start in net.nodes`, and so do Router.Search, Vehicles.Vehicle.PlanRoute and Vehicles.Vehicle.Drive. For any other start, `neighbors(node)` at models/traffic_manager.py:203 raises NetworkXError.
- TestSim.DijkstraShortestPath: requires every neighbour to be a key of the dictionary (Closed), and requires `start == goal || start in g`. test.py raises a KeyError when a dangling neighbour is expanded, and also at test.py:13 when a start other than the goal is not a key. The same holds for NormalSim.DijkstraShortestPath at normal.py:168.
- Vehicles.Vehicle.Drive: a reroute ends the run with the Restarted outcome. The restart through `self.drive()` in models/vehicle.py:95 plans again from the start, which a fresh call of Drive models. The method requires at least as many hop draws as the network has nodes.
- Vehicles.Vehicle.PlanRoute: a missing route is the empty route, which the next step reports as no route. The join of `None` in models/vehicle.py:43 would fail.
- The `VehicleType` class redefined in models/vehicle.py:5 and the `.value` lookup at models/vehicle.py:33 are not reproduced. The speed and traffic tables are total functions on the classes.
- Vehicles.Vehicle.Drive: the lights do not change during a run, so every wait is taken against the red junctions (`RedJunctions`) seen when the run starts. In the Python simulation they cycle concurrently with the vehicle.
- NormalSim.Drive: takes the light states seen at each hop as a parameter, since the lights change concurrently. It requires every hop to be a road with a positive speed limit; normal.py would fail with a lookup or division error otherwise.
- NormalSim.HopTime: requires a positive speed limit; normal.py raises ZeroDivisionError.
- Signals.Discretize: requires non-negative values, which every table value is.
- TestSim.Drive: requires a non-empty route along the roads whose nodes after the first have a light. test.py:95 looks up only the next node of each hop and fails with a KeyError otherwise.
- All printing, alert formatting and the route joins used only for printing are not modelled.
- Visualisation (`visualize_traffic`, `visualize_traffic_stats`), the web layer in app.py, `EnumEncoder` and models/traffic_simulation.py are not part of this model.
- The literal road data of `create_road_network` is not modelled; the manager takes a network.
- `add_vehicle`, `run_simulation`, `run` of the stand-alone simulations and normal.py's `setup_traffic_lights` are not modelled. They only create objects and start processes.
