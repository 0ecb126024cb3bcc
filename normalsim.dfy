/**
 * The stand-alone simulation whose roads carry a distance, a road type and
 * a speed limit: Dijkstra's algorithm over the distances, the clamped green
 * time of a two-phase light, one GREEN/RED cycle of that light, and the total
 * time of a vehicle that drives a route and waits at red lights. The random
 * densities and delays are parameters.
 */
module NormalSim {
  import opened Enums
  import Roads
  import Signals
  import TestSim

  type Node = string

  /** The details of one road of the adjacency dictionary. */
  datatype Road = Road(distance: nat, roadType: string, maxSpeed: nat)

  /** roads[u][v] describes the road from u to v. */
  type RoadMap = map<Node, map<Node, Road>>

  /** The length the route finder weighs each road by. */
  function DistanceGraph(roads: RoadMap): (g: TestSim.Graph)
    ensures g.Keys == roads.Keys
    ensures forall u :: u in g ==> g[u].Keys == roads[u].Keys
    ensures forall u, v :: u in roads && v in roads[u] ==> g[u][v] == roads[u][v].distance
  {
    map u | u in roads :: map v | v in roads[u] :: roads[u][v].distance
  }

  /** Every node named as a neighbour is itself a key of the dictionary. */
  ghost predicate Closed(roads: RoadMap)
  {
    forall u, v :: u in roads && v in roads[u] ==> v in roads
  }

  /** A route from start to goal along the roads, weighed by distance. */
  ghost predicate RoadRoute(roads: RoadMap, p: seq<Node>, start: Node, goal: Node)
  {
    TestSim.RouteFromTo(DistanceGraph(roads), p, start, goal)
  }

  /** The total distance of a route. */
  ghost function Length(roads: RoadMap, p: seq<Node>): nat
    requires TestSim.IsRoute(DistanceGraph(roads), p)
  {
    TestSim.RouteWeight(DistanceGraph(roads), p)
  }

  /**
   * TrafficSimulation.dijkstra_shortest_path: the same search as the integer
   * one, weighing each road by its distance. It gives [start] when start is
   * the goal, a shortest route otherwise, and None when the goal cannot be
   * reached.
   */
  method DijkstraShortestPath(roads: RoadMap, start: Node, goal: Node) returns (r: Option<seq<Node>>)
    requires Closed(roads) && (start == goal || start in roads)
    ensures start == goal ==> r == Some([start])
    ensures r.Some? ==> RoadRoute(roads, r.value, start, goal)
    ensures r.Some? ==> forall p :: RoadRoute(roads, p, start, goal) ==> Length(roads, r.value) <= Length(roads, p)
    ensures r.None? <==> !TestSim.Connected(DistanceGraph(roads), start, goal)
  {
    var g := DistanceGraph(roads);
    assert TestSim.Closed(g);
    r := TestSim.DijkstraShortestPath(g, start, goal);
  }

  // ---------------------------------------------------------------------
  // TrafficLight
  // ---------------------------------------------------------------------

  /** The cycle length a light gets when none is given. */
  const DefaultCycleTime: int := 60

  /** The junction multipliers of this simulation: there is no smart type. */
  function BasicMultiplier(junctionType: string): (m: real)
    ensures 0.7 <= m <= 1.3
    ensures junctionType != Signals.SmartIntersection ==> m == Signals.JunctionMultiplier(junctionType)
    ensures junctionType == Signals.SmartIntersection ==> m == 1.0
  {
    if junctionType == Signals.HighwayIntersection then 0.7
    else if junctionType == Signals.CityIntersection then 1.0
    else if junctionType == Signals.RuralIntersection then 1.3
    else 1.0
  }

  /**
   * optimize_green_time: half the weighted density, floored and clamped to
   * [10, 60]; an unknown type (the smart one included) weighs like a city.
   */
  function OptimizeGreenTime(junctionType: string, trafficDensity: int): (g: int)
    ensures 10 <= g <= 60
    ensures g == 60 <==> trafficDensity as real * BasicMultiplier(junctionType) >= 120.0
    ensures g == 10 <==> trafficDensity as real * BasicMultiplier(junctionType) < 22.0
  {
    var halved := (trafficDensity as real * BasicMultiplier(junctionType) / 2.0).Floor;
    var upper := if halved < 60 then halved else 60;
    if 10 > upper then 10 else upper
  }

  /**
   * The green time agrees with the manager's light for every type but the
   * smart one, which this simulation times as a city junction.
   */
  lemma GreenTimeAgrees(junctionType: string, trafficDensity: int)
    ensures var asType := if junctionType == Signals.SmartIntersection then Signals.CityIntersection else junctionType;
      OptimizeGreenTime(junctionType, trafficDensity) == Signals.OptimizeGreenTime(asType, trafficDensity as real)
  {
    var asType := if junctionType == Signals.SmartIntersection then Signals.CityIntersection else junctionType;
    assert BasicMultiplier(junctionType) == Signals.JunctionMultiplier(asType);
  }

  /** Denser traffic never shortens the green phase. */
  lemma GreenTimeMonotone(junctionType: string, d1: int, d2: int)
    requires d1 <= d2
    ensures OptimizeGreenTime(junctionType, d1) <= OptimizeGreenTime(junctionType, d2)
  {
    var m := BasicMultiplier(junctionType);
    var x1, x2 := d1 as real * m / 2.0, d2 as real * m / 2.0;
    assert x1 <= x2 by {
      assert d1 as real * m <= d2 as real * m;
    }
    assert x1.Floor <= x2.Floor;
  }

  class TrafficLight {
    const location: Node
    const junctionType: string
    const cycleTime: int
    var state: LightState

    /** A light starts RED. */
    constructor (location: Node, junctionType: string, cycleTime: int)
      ensures this.location == location && this.junctionType == junctionType
      ensures this.cycleTime == cycleTime && state == Red
    {
      this.location := location;
      this.junctionType := junctionType;
      this.cycleTime := cycleTime;
      state := Red;
    }

    /** The green phase: the light turns GREEN for the optimised green time. */
    method StartGreen(trafficDensity: int) returns (green: int)
      modifies this`state
      ensures state == Green && green == OptimizeGreenTime(junctionType, trafficDensity)
    {
      green := OptimizeGreenTime(junctionType, trafficDensity);
      state := Green;
    }

    /** The red phase: the light turns RED for the rest of the cycle. */
    method StartRed(green: int) returns (red: int)
      modifies this`state
      ensures state == Red && red == cycleTime - green
    {
      state := Red;
      red := cycleTime - green;
    }

    /**
     * One pass of run: GREEN for the green time the drawn density (1 to 100)
     * gives, then RED for the rest of the cycle.
     */
    method RunCycle(trafficDensity: int) returns (green: int, red: int)
      requires 1 <= trafficDensity <= 100
      modifies this`state
      ensures green == OptimizeGreenTime(junctionType, trafficDensity)
      ensures 10 <= green <= 60 && green + red == cycleTime
      ensures cycleTime >= DefaultCycleTime ==> red >= 0
      ensures state == Red
    {
      green := StartGreen(trafficDensity);
      red := StartRed(green);
    }
  }

  // ---------------------------------------------------------------------
  // Vehicle.drive
  // ---------------------------------------------------------------------

  /**
   * int(distance / max_speed / multiplier): the travel time of one road,
   * truncated to whole hours.
   */
  function HopTime(r: Road, vt: VehicleType): (t: nat)
    requires r.maxSpeed > 0
    ensures t as real <= r.distance as real / r.maxSpeed as real / Roads.SpeedMultiplier(vt) < t as real + 1.0
  {
    var base := r.distance as real / r.maxSpeed as real;
    var m := Roads.SpeedMultiplier(vt);
    assert base / m >= 0.0;
    (base / m).Floor
  }

  /** A slower vehicle never takes less time on a road. */
  lemma HopTimeSlower(r: Road, slow: VehicleType, fast: VehicleType)
    requires r.maxSpeed > 0 && Roads.SpeedMultiplier(slow) <= Roads.SpeedMultiplier(fast)
    ensures HopTime(r, fast) <= HopTime(r, slow)
  {
    var base := r.distance as real / r.maxSpeed as real;
    var ms, mf := Roads.SpeedMultiplier(slow), Roads.SpeedMultiplier(fast);
    assert base / mf <= base / ms by {
      assert base / mf * mf == base == base / ms * ms;
      assert base / mf * ms <= base / mf * mf;
    }
    assert (base / mf).Floor <= (base / ms).Floor;
  }

  /** Every hop of the route is a road with a positive speed limit. */
  predicate Drivable(roads: RoadMap, route: seq<Node>)
  {
    forall i :: 0 <= i < |route| - 1 ==>
      route[i] in roads && route[i + 1] in roads[route[i]] && roads[route[i]][route[i + 1]].maxSpeed > 0
  }

  /** The number of hops of a route. */
  function Hops(route: seq<Node>): (n: nat)
    ensures n < |route| || route == []
    ensures route != [] ==> n + 1 == |route|
  {
    if route == [] then 0 else |route| - 1
  }

  /** The driving time of the first n hops. */
  function DrivingTime(roads: RoadMap, route: seq<Node>, vt: VehicleType, n: nat): nat
    requires Drivable(roads, route) && n <= Hops(route)
  {
    if n == 0 then 0
    else DrivingTime(roads, route, vt, n - 1) + HopTime(roads[route[n - 1]][route[n]], vt)
  }

  /** The delays of the first n hops: delays[i] when the light was RED as hop i began. */
  function RedDelays(seen: seq<LightState>, delays: seq<nat>, n: nat): nat
    requires n <= |seen| && n <= |delays|
  {
    if n == 0 then 0 else RedDelays(seen, delays, n - 1) + (if seen[n - 1] == Red then delays[n - 1] else 0)
  }

  /** How many of the first n hops began at a RED light. */
  function RedStops(seen: seq<LightState>, n: nat): nat
    requires n <= |seen|
  {
    if n == 0 then 0 else RedStops(seen, n - 1) + (if seen[n - 1] == Red then 1 else 0)
  }

  /** Each RED light costs between 10 and 60 hours, and nothing else waits. */
  lemma {:induction false} RedDelaysBounds(seen: seq<LightState>, delays: seq<nat>, n: nat)
    requires n <= |seen| && n <= |delays|
    requires forall i :: 0 <= i < |delays| ==> 10 <= delays[i] <= 60
    ensures 10 * RedStops(seen, n) <= RedDelays(seen, delays, n) <= 60 * RedStops(seen, n)
    ensures RedStops(seen, n) == 0 <==> RedDelays(seen, delays, n) == 0
  {
    if n > 0 {
      RedDelaysBounds(seen, delays, n - 1);
    }
  }

  /** With every light GREEN the trip is no more than its driving time. */
  lemma {:induction false} NoRedNoDelay(seen: seq<LightState>, delays: seq<nat>, n: nat)
    requires n <= |seen| && n <= |delays|
    requires forall i :: 0 <= i < n ==> seen[i] != Red
    ensures RedDelays(seen, delays, n) == 0 && RedStops(seen, n) == 0
  {
    if n > 0 {
      NoRedNoDelay(seen, delays, n - 1);
    }
  }

  /**
   * Vehicle.drive: hop i first waits delays[i] when the light at its own
   * starting node, route[i], is RED (seen[i] is that light's state as the
   * hop begins), then drives the road; the total is the driving time plus the
   * delays at RED lights.
   */
  method Drive(roads: RoadMap, vt: VehicleType, route: seq<Node>, seen: seq<LightState>, delays: seq<nat>)
    returns (totalTime: nat)
    requires Drivable(roads, route)
    requires |seen| >= Hops(route) && |delays| >= Hops(route)
    ensures totalTime == DrivingTime(roads, route, vt, Hops(route)) + RedDelays(seen, delays, Hops(route))
  {
    totalTime := 0;
    for i := 0 to Hops(route)
      invariant totalTime == DrivingTime(roads, route, vt, i) + RedDelays(seen, delays, i)
    {
      var currentNode := route[i];
      var nextNode := route[i + 1];
      var roadDetails := roads[currentNode][nextNode];
      var travelTime := HopTime(roadDetails, vt);
      if seen[i] == Red {
        var delay := delays[i];
        totalTime := totalTime + delay;
      }
      totalTime := totalTime + travelTime;
    }
  }
}
