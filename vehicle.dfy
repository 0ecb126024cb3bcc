/**
 * A vehicle of the simulation: it plans a route with the manager's router,
 * drives it hop by hop (waiting at red lights, loading and unloading the
 * roads it uses), may reroute at a junction when the rest of its route is
 * congested, and hands its trip to the manager's ledger at the end.
 * The random draws of one hop are parameters.
 */
module Vehicles {
  import opened Enums
  import opened Roads
  import opened Congestion
  import opened Router
  import opened Signals
  import opened Ledger
  import opened Manager

  /** Reroute when the mean traffic factor of the rest of the route is below this. */
  const ReplanningThreshold: real := 0.7
  /** The chance of considering a reroute at each junction after the first. */
  const RerouteChance: real := 0.3
  /** The nudges a vehicle gives a road as it enters and as it leaves it. */
  const EnterFactor: real := 0.1
  const LeaveFactor: real := -0.05

  /** Every pair of consecutive nodes is joined by a road (the path need not be non-empty). */
  ghost predicate Drivable(net: Network, p: seq<Location>)
  {
    forall i :: 0 <= i < |p| - 1 ==> Edge(net, p[i], p[i + 1])
  }

  /** list.index: the first position of x in s. */
  function IndexOf(s: seq<Location>, x: Location): (k: nat)
    requires x in s
    ensures k < |s| && s[k] == x
    ensures forall j :: 0 <= j < k ==> s[j] != x
  {
    if s[0] == x then 0 else 1 + IndexOf(s[1..], x)
  }

  /** ' -> '.join(p) */
  function Join(p: seq<string>): string
  {
    if |p| == 0 then ""
    else if |p| == 1 then p[0]
    else Join(p[..|p| - 1]) + " -> " + p[|p| - 1]
  }

  /** The summed TRAFFIC_FACTOR of the roads along p, added up from its start. */
  function RouteFactorSum(net: Network, p: seq<Location>): (s: real)
    requires Drivable(net, p)
    ensures |p| <= 1 ==> s == 0.0
    ensures |p| >= 1 ==> 0.2 * (|p| - 1) as real <= s <= (|p| - 1) as real
    decreases |p|
  {
    if |p| <= 1 then 0.0
    else
      assert Drivable(net, p[..|p| - 1]);
      RouteFactorSum(net, p[..|p| - 1]) + TrafficFactor(net.data[(p[|p| - 2], p[|p| - 1])].condition)
  }

  /** average_congestion of consider_rerouting: the mean factor, 0 for fewer than two nodes. */
  function AverageFactor(net: Network, p: seq<Location>): (a: real)
    requires Drivable(net, p)
    ensures |p| > 1 ==> 0.2 <= a <= 1.0
    ensures |p| <= 1 ==> a == 0.0
  {
    if |p| > 1 then
      var a := RouteFactorSum(net, p) / (|p| - 1) as real;
      MeanBounds(RouteFactorSum(net, p), (|p| - 1) as real, 0.2, 1.0);
      a
    else 0.0
  }

  /** The roads along p are all LIGHT. */
  ghost predicate AllLight(net: Network, p: seq<Location>)
    requires Drivable(net, p)
  {
    forall i :: 0 <= i < |p| - 1 ==> net.data[(p[i], p[i + 1])].condition == Light
  }

  /** Along an all-LIGHT route every road contributes a full factor. */
  lemma {:induction false} AllLightSum(net: Network, p: seq<Location>)
    requires Drivable(net, p) && |p| >= 1 && AllLight(net, p)
    ensures RouteFactorSum(net, p) == (|p| - 1) as real
    decreases |p|
  {
    if |p| > 1 {
      var q := p[..|p| - 1];
      assert Drivable(net, q);
      assert AllLight(net, q) by {
        forall i | 0 <= i < |q| - 1
          ensures net.data[(q[i], q[i + 1])].condition == Light
        {
          assert q[i] == p[i] && q[i + 1] == p[i + 1];
        }
      }
      AllLightSum(net, q);
    }
  }

  /** A vehicle never reroutes off a route of LIGHT roads: the mean is 1.0. */
  lemma AllLightNoReroute(net: Network, p: seq<Location>)
    requires Drivable(net, p) && |p| > 1 && AllLight(net, p)
    ensures AverageFactor(net, p) == 1.0
    ensures !(AverageFactor(net, p) < ReplanningThreshold)
  {
    AllLightSum(net, p);
  }

  /** A mean below the threshold means some road ahead is worse than LIGHT. */
  lemma CongestedAhead(net: Network, p: seq<Location>)
    requires Drivable(net, p) && |p| > 1 && AverageFactor(net, p) < ReplanningThreshold
    ensures exists i :: 0 <= i < |p| - 1 && net.data[(p[i], p[i + 1])].condition != Light
  {
    if !exists i :: 0 <= i < |p| - 1 && net.data[(p[i], p[i + 1])].condition != Light {
      AllLightNoReroute(net, p);
    }
  }

  /** The loop of consider_rerouting that adds up the factors of the roads ahead. */
  method SumRouteFactors(net: Network, p: seq<Location>) returns (congestionLevel: real)
    requires Drivable(net, p)
    ensures congestionLevel == RouteFactorSum(net, p)
  {
    congestionLevel := 0.0;
    if |p| <= 1 {
      return;
    }
    for i := 0 to |p| - 1
      invariant Drivable(net, p[..i + 1])
      invariant congestionLevel == RouteFactorSum(net, p[..i + 1])
    {
      var q := p[..i + 2];
      assert q[..i + 1] == p[..i + 1];
      assert q[i] == p[i] && q[i + 1] == p[i + 1];
      congestionLevel := congestionLevel + TrafficFactor(net.data[(p[i], p[i + 1])].condition);
    }
    assert p[..|p|] == p;
  }

  /** A path cut at position idx and continued by a path from that node is still a path. */
  lemma SplicePath(net: Network, p: seq<Location>, idx: nat, q: seq<Location>, s: Location, t: Location)
    requires IsPath(net, p) && p[0] == s && idx < |p|
    requires PathFromTo(net, q, p[idx], t)
    ensures PathFromTo(net, p[..idx] + q, s, t)
    ensures (p[..idx] + q)[..idx] == p[..idx] && (p[..idx] + q)[idx..] == q
  {
    var r := p[..idx] + q;
    forall i | 0 <= i < |r| - 1
      ensures Edge(net, r[i], r[i + 1])
    {
      if i + 1 < idx {
        assert r[i] == p[i] && r[i + 1] == p[i + 1];
      } else if i + 1 == idx {
        assert r[i] == p[i] && r[i + 1] == q[0] == p[idx];
      } else {
        assert r[i] == q[i - idx] && r[i + 1] == q[i - idx + 1];
      }
    }
  }

  /** There are no more nodes on a duplicate-free path than in the network. */
  lemma PathFitsNetwork(net: Network, p: seq<Location>)
    requires WellFormed(net) && IsPath(net, p) && NoDup(p) && |p| >= 2
    ensures |p| <= |net.nodes|
  {
    forall i | 0 <= i < |p|
      ensures p[i] in net.nodes
    {
      if i < |p| - 1 {
        assert Edge(net, p[i], p[i + 1]);
      } else {
        assert Edge(net, p[i - 1], p[i]);
      }
    }
    SubsetLength(p, net.nodes);
  }

  lemma {:induction false} SubsetLength(p: seq<Location>, s: seq<Location>)
    requires NoDup(p) && forall i :: 0 <= i < |p| ==> p[i] in s
    ensures |p| <= |s|
    decreases |p|
  {
    if p != [] {
      var x := p[|p| - 1];
      var k := IndexOf(s, x);
      var s' := s[..k] + s[k + 1..];
      var q := p[..|p| - 1];
      forall i | 0 <= i < |q|
        ensures q[i] in s'
      {
        assert q[i] == p[i] && p[i] != x;
        var j :| 0 <= j < |s| && s[j] == p[i];
        if j < k {
          assert s'[j] == p[i];
        } else {
          assert s'[j - 1] == p[i];
        }
      }
      SubsetLength(q, s');
    }
  }

  /** The random draws one hop of drive() consumes. */
  datatype HopDraws = HopDraws(reroute: real, delay: int, enter: real, leave: real)

  predicate GoodDraws(d: HopDraws)
  {
    0.0 <= d.reroute < 1.0 && 10 <= d.delay <= 60 && 0.0 <= d.enter < 1.0 && 0.0 <= d.leave < 1.0
  }

  datatype HopOutcome = Travelled | Rerouted

  /** How a run of drive() ends: no usable route, arrived, or restarted after rerouting. */
  datatype DriveOutcome = NoRoute | Arrived | Restarted

  /** The record of one travelled hop over the road (u, v) as it was when entered. */
  function SegmentFor(d: RoadData, u: Location, v: Location, vt: VehicleType): (s: Segment)
    requires d.distance > 0.0 && d.maxSpeed > 0.0
    ensures s.from == u && s.to == v && s.distance == d.distance && s.roadType == d.roadType
    ensures s.traffic == d.condition.Name()
    ensures s.travelTime > 0.0
  {
    Segment(u, v, d.distance, d.roadType, d.condition.Name(), TravelTime(d, vt))
  }

  /** The recorded time is the base time slowed by the class's multiplier and the road's factor. */
  lemma SegmentTime(d: RoadData, u: Location, v: Location, vt: VehicleType)
    requires d.distance > 0.0 && d.maxSpeed > 0.0
    ensures SegmentFor(d, u, v, vt).travelTime * SpeedMultiplier(vt) * TrafficFactor(d.condition)
            == d.distance / d.maxSpeed
  {
    var t := TravelTime(d, vt);
    assert t * (SpeedMultiplier(vt) * TrafficFactor(d.condition)) == d.distance / d.maxSpeed;
  }

  /** The roads ahead of the first occurrence of cur have a mean factor below the threshold. */
  ghost predicate CongestedRemainder(net: Network, route: seq<Location>, cur: Location)
  {
    && cur in route
    && Drivable(net, route[IndexOf(route, cur)..])
    && AverageFactor(net, route[IndexOf(route, cur)..]) < ReplanningThreshold
  }

  /**
   * after keeps before up to the first occurrence of cur and continues with a
   * different, duplicate-free, fastest path of two or more nodes from cur to dest.
   */
  ghost predicate Spliced(net: Network, vt: VehicleType, before: seq<Location>, after: seq<Location>,
                          cur: Location, dest: Location)
  {
    && WellFormed(net) && cur in before
    && var idx := IndexOf(before, cur);
       && |after| > idx + 1
       && after[..idx] == before[..idx]
       && PathFromTo(net, after[idx..], cur, dest) && NoDup(after[idx..])
       && after[idx..] != before[idx..]
       && forall p :: PathFromTo(net, p, cur, dest) ==> PathCost(net, vt, after[idx..]) <= PathCost(net, vt, p)
  }

  /**
   * The case in which consider_rerouting asks the router: cur is neither the
   * destination nor the last junction before it, and the roads ahead are congested.
   */
  ghost predicate RerouteDue(net: Network, route: seq<Location>, cur: Location, dest: Location)
  {
    && cur != dest && |route| >= 2 && cur != route[|route| - 2]
    && CongestedRemainder(net, route, cur)
  }

  /**
   * A fastest, duplicate-free path from cur to dest whose ' -> ' join is that of
   * the old remainder from cur: the only way a due reroute leaves the route alone.
   */
  ghost predicate RemainderIsFastest(net: Network, vt: VehicleType, route: seq<Location>, cur: Location,
                                     dest: Location)
  {
    && WellFormed(net) && cur in route
    && exists q ::
         && PathFromTo(net, q, cur, dest) && NoDup(q)
         && (forall p :: PathFromTo(net, p, cur, dest) ==> PathCost(net, vt, q) <= PathCost(net, vt, p))
         && Join(q) == Join(route[IndexOf(route, cur)..])
  }

  /** What a reroute at cur implies about the old and the new route. */
  ghost predicate RerouteTaken(net: Network, vt: VehicleType, before: seq<Location>, after: seq<Location>,
                               cur: Location, dest: Location)
  {
    && |before| >= 2 && cur != dest && cur != before[|before| - 2]
    && CongestedRemainder(net, before, cur)
    && Spliced(net, vt, before, after, cur, dest)
  }

  /** Splicing a different fastest path from cur in at cur's first occurrence is a reroute. */
  lemma SpliceTaken(net: Network, vt: VehicleType, route: seq<Location>, start: Location, dest: Location,
                    cur: Location, q: seq<Location>)
    requires WellFormed(net) && PathFromTo(net, route, start, dest) && cur in route
    requires PathFromTo(net, q, cur, dest) && NoDup(q) && |q| > 1 && q != route[IndexOf(route, cur)..]
    requires forall p :: PathFromTo(net, p, cur, dest) ==> PathCost(net, vt, q) <= PathCost(net, vt, p)
    ensures PathFromTo(net, route[..IndexOf(route, cur)] + q, start, dest)
    ensures Spliced(net, vt, route, route[..IndexOf(route, cur)] + q, cur, dest)
  {
    var idx := IndexOf(route, cur);
    SplicePath(net, route, idx, q, start, dest);
  }

  /** A suffix of a path is drivable. */
  lemma SuffixDrivable(net: Network, p: seq<Location>, k: nat)
    requires IsPath(net, p) && k <= |p|
    ensures Drivable(net, p[k..])
  {
    forall i | 0 <= i < |p[k..]| - 1
      ensures Edge(net, p[k..][i], p[k..][i + 1])
    {
      assert p[k..][i] == p[k + i] && p[k..][i + 1] == p[k + i + 1];
    }
  }

  /** Every node of a path of two or more nodes is a node of the network. */
  lemma OnPathInNetwork(net: Network, p: seq<Location>, k: nat)
    requires WellFormed(net) && IsPath(net, p) && |p| >= 2 && k < |p|
    ensures p[k] in net.nodes
  {
    if k < |p| - 1 {
      assert Edge(net, p[k], p[k + 1]);
    } else {
      assert Edge(net, p[k - 1], p[k]);
    }
  }

  /** A fastest path from cur joining like the old remainder witnesses RemainderIsFastest. */
  lemma KeptIsFastest(net: Network, vt: VehicleType, route: seq<Location>, cur: Location, dest: Location,
                      q: seq<Location>)
    requires WellFormed(net) && cur in route
    requires PathFromTo(net, q, cur, dest) && NoDup(q)
    requires forall p :: PathFromTo(net, p, cur, dest) ==> PathCost(net, vt, q) <= PathCost(net, vt, p)
    requires Join(q) == Join(route[IndexOf(route, cur)..])
    ensures RemainderIsFastest(net, vt, route, cur, dest)
  {
  }

  /**
   * consider_rerouting on a route from start to dest: away from the last hop,
   * when the mean factor of the roads ahead of cur is below the threshold,
   * splice in the router's fastest route from cur if it differs from the old
   * remainder (the two are compared as ' -> '-joined strings).
   */
  method Reroute(net: Network, vt: VehicleType, route: seq<Location>, start: Location, dest: Location,
                 cur: Location) returns (rerouted: bool, route': seq<Location>)
    requires WellFormed(net) && PathFromTo(net, route, start, dest)
    requires cur != dest ==> |route| >= 2 && cur in route
    ensures PathFromTo(net, route', start, dest)
    ensures !rerouted ==> route' == route
    ensures rerouted ==> RerouteTaken(net, vt, route, route', cur, dest)
    ensures cur == dest || |route| < 2 || cur == route[|route| - 2] || !CongestedRemainder(net, route, cur) ==> !rerouted
    ensures RerouteDue(net, route, cur, dest) && !rerouted ==> RemainderIsFastest(net, vt, route, cur, dest)
  {
    rerouted, route' := false, route;
    if cur != dest && cur != route[|route| - 2] {
      var currentIdx := IndexOf(route, cur);
      var remainingRoute := route[currentIdx..];
      SuffixDrivable(net, route, currentIdx);
      var congestionLevel := SumRouteFactors(net, remainingRoute);
      var averageCongestion := if |remainingRoute| > 1 then congestionLevel / (|remainingRoute| - 1) as real else 0.0;
      assert averageCongestion == AverageFactor(net, remainingRoute);
      if averageCongestion < ReplanningThreshold {
        assert CongestedRemainder(net, route, cur);
        rerouted, route' := AskRouter(net, vt, route, start, dest, cur);
      }
    }
  }

  /**
   * The replanning step of consider_rerouting: ask the router for a fastest
   * route from cur and splice it in when it has more than one node and joins
   * differently from the old remainder.
   */
  method AskRouter(net: Network, vt: VehicleType, route: seq<Location>, start: Location, dest: Location,
                   cur: Location) returns (rerouted: bool, route': seq<Location>)
    requires WellFormed(net) && PathFromTo(net, route, start, dest) && RerouteDue(net, route, cur, dest)
    ensures PathFromTo(net, route', start, dest)
    ensures rerouted ==> Spliced(net, vt, route, route', cur, dest)
    ensures !rerouted ==> route' == route && RemainderIsFastest(net, vt, route, cur, dest)
  {
    var currentIdx := IndexOf(route, cur);
    var remainingRoute := route[currentIdx..];
    OnPathInNetwork(net, route, currentIdx);
    var newRoute, _ := FindShortestPath(net, cur, dest, vt);
    assert PathFromTo(net, remainingRoute, cur, dest);
    if newRoute.Some? && |newRoute.value| > 1 && Join(newRoute.value) != Join(remainingRoute) {
      assert newRoute.value != remainingRoute;
      SpliceTaken(net, vt, route, start, dest, cur, newRoute.value);
      rerouted, route' := true, route[..currentIdx] + newRoute.value;
    } else {
      KeptIsFastest(net, vt, route, cur, dest, newRoute.value);
      rerouted, route' := false, route;
    }
  }

  /** segs records the hops along p in order: the k-th from p[k] to p[k + 1]. */
  ghost predicate Follows(segs: seq<Segment>, p: seq<Location>)
  {
    |segs| + 1 == |p| && forall k :: 0 <= k < |segs| ==> segs[k].from == p[k] && segs[k].to == p[k + 1]
  }

  /** Recording hop i of p keeps the record following the driven prefix of p. */
  lemma FollowsStep(segs: seq<Segment>, seg: Segment, p: seq<Location>, i: nat)
    requires i + 1 < |p| && Follows(segs, p[..i + 1])
    requires seg.from == p[i] && seg.to == p[i + 1]
    ensures Follows(segs + [seg], p[..i + 2])
  {
  }

  /** The time spent at the light of a junction: the drawn delay when it shows red. */
  function WaitAt(red: set<Location>, node: Location, delay: int): real
  {
    if node in red then delay as real else 0.0
  }

  /**
   * The time the hops recorded in segs add to the total: for the k-th hop,
   * the wait at the light of p[k] under draws[k] plus 60 times its recorded
   * travel time.
   */
  function HopsTime(red: set<Location>, p: seq<Location>, draws: seq<HopDraws>, segs: seq<Segment>): real
    requires |segs| <= |p| && |segs| <= |draws|
    decreases |segs|
  {
    if segs == [] then 0.0
    else
      var k := |segs| - 1;
      HopsTime(red, p, draws, segs[..k]) + WaitAt(red, p[k], draws[k].delay) + 60.0 * segs[k].travelTime
  }

  /** One more recorded hop adds its wait and 60 times its travel time. */
  lemma HopsTimeSnoc(red: set<Location>, p: seq<Location>, draws: seq<HopDraws>, segs: seq<Segment>, seg: Segment)
    requires |segs| < |p| && |segs| < |draws|
    ensures HopsTime(red, p, draws, segs + [seg])
            == HopsTime(red, p, draws, segs) + WaitAt(red, p[|segs|], draws[|segs|].delay) + 60.0 * seg.travelTime
  {
    assert (segs + [seg])[..|segs|] == segs;
  }

  class Vehicle {
    const vehicleId: string
    const vehicleType: VehicleType
    const start: Location
    const destination: Location
    const manager: TrafficManager
    const speedMultiplier: real
    const routeReplanningThreshold: real
    var route: seq<Location>
    var currentNode: Location
    var nextNode: Option<Location>
    var travelData: seq<Segment>
    var totalTravelTime: real

    /** The manager's network is well formed and the route, once planned, leads from start to destination. */
    ghost predicate Valid()
      reads this`route, manager`network
    {
      && manager.Valid()
      && (route == [] || PathFromTo(manager.network, route, start, destination))
    }

    constructor (vehicleId: string, vehicleType: VehicleType, start: Location, destination: Location,
                 manager: TrafficManager)
      requires manager.Valid()
      ensures this.vehicleId == vehicleId && this.vehicleType == vehicleType
      ensures this.start == start && this.destination == destination && this.manager == manager
      ensures speedMultiplier == SpeedMultiplier(vehicleType) && routeReplanningThreshold == ReplanningThreshold
      ensures route == [] && currentNode == start && nextNode == None
      ensures travelData == [] && totalTravelTime == 0.0
      ensures Valid()
    {
      this.vehicleId := vehicleId;
      this.vehicleType := vehicleType;
      this.start := start;
      this.destination := destination;
      this.manager := manager;
      speedMultiplier := SpeedMultiplier(vehicleType);
      routeReplanningThreshold := ReplanningThreshold;
      route := [];
      currentNode := start;
      nextNode := None;
      travelData := [];
      totalTravelTime := 0.0;
    }

    /** plan_route: the manager's fastest route for this class; the empty route when there is none. */
    method PlanRoute()
      requires Valid()
      requires start == destination || start in manager.network.nodes
      modifies this`route
      ensures Valid()
      ensures route == [] <==> !Reachable(manager.network, start, destination)
      ensures route != [] ==> PathFromTo(manager.network, route, start, destination) && NoDup(route)
      ensures route != [] ==> forall p :: PathFromTo(manager.network, p, start, destination) ==>
                                PathCost(manager.network, vehicleType, route) <= PathCost(manager.network, vehicleType, p)
      ensures start == destination ==> route == [start]
    {
      var r, _ := FindShortestPath(manager.network, start, destination, vehicleType);
      route := if r.Some? then r.value else [];
    }

    /** consider_rerouting on the vehicle's route. */
    method ConsiderRerouting(currentNode: Location) returns (rerouted: bool)
      requires Valid()
      requires currentNode != destination ==> |route| >= 2 && currentNode in route
      modifies this`route
      ensures Valid()
      ensures !rerouted ==> route == old(route)
      ensures rerouted ==> RerouteTaken(manager.network, vehicleType, old(route), route, currentNode, destination)
      ensures !RerouteDue(manager.network, old(route), currentNode, destination) ==> !rerouted
      ensures RerouteDue(manager.network, old(route), currentNode, destination) && !rerouted ==>
                RemainderIsFastest(manager.network, vehicleType, old(route), currentNode, destination)
    {
      if route == [] {
        return false;
      }
      var route';
      rerouted, route' := Reroute(manager.network, vehicleType, route, start, destination, currentNode);
      route := route';
    }

    /** The record of the trip just driven, stamped now, with its time in minutes. */
    function Trip(now: real): TripRecord
      reads this
    {
      TripRecord(vehicleId, vehicleType, start, destination, route, totalTravelTime / 60.0, now, travelData)
    }

    /** The junctions whose light shows red. */
    ghost function RedJunctions(): set<Location>
      reads manager`lights, manager.lights.Values
    {
      set n | n in manager.lights && manager.lights[n].state == Red
    }

    /**
     * The travelling part of a hop over the road (u, v): the wait at a red
     * light at u, the travel record, the time spent, and the entering and
     * leaving nudges of the road.
     */
    method Travel(u: Location, v: Location, d: HopDraws)
      requires Valid() && Edge(manager.network, u, v)
      modifies this`travelData, this`totalTravelTime, manager`network
      ensures Valid()
      ensures travelData == old(travelData) + [SegmentFor(old(manager.network).data[(u, v)], u, v, vehicleType)]
      ensures totalTravelTime == old(totalTravelTime) + old(WaitAt(RedJunctions(), u, d.delay))
                                 + 60.0 * TravelTime(old(manager.network).data[(u, v)], vehicleType)
      ensures manager.network == UpdateRoad(UpdateRoad(old(manager.network), u, v, EnterFactor, d.enter),
                                            u, v, LeaveFactor, d.leave)
    {
      var wait := 0.0;
      if u in manager.lights && manager.lights[u].state == Red {
        wait := d.delay as real;
      }
      totalTravelTime := totalTravelTime + wait;
      var edgeData := manager.network.data[(u, v)];
      var segment := SegmentFor(edgeData, u, v, vehicleType);
      travelData := travelData + [segment];
      UpdateRoadPreserves(manager.network, u, v, EnterFactor, d.enter, route);
      manager.UpdateRoadTraffic(u, v, EnterFactor, d.enter);
      totalTravelTime := totalTravelTime + segment.travelTime * 60.0;
      UpdateRoadPreserves(manager.network, u, v, LeaveFactor, d.leave, route);
      manager.UpdateRoadTraffic(u, v, LeaveFactor, d.leave);
    }

    /**
     * Hop i of drive(): at junctions after the first, with chance 0.3, the
     * reroute check, which ends the hop when it changes the route; otherwise
     * the travel over the road to the next node.
     */
    method DriveHop(i: nat, d: HopDraws) returns (outcome: HopOutcome)
      requires Valid() && i < |route| - 1 && GoodDraws(d)
      modifies this`route, this`currentNode, this`nextNode, this`travelData, this`totalTravelTime, manager`network
      ensures Valid()
      ensures currentNode == old(route)[i] && nextNode == Some(old(route)[i + 1])
      ensures outcome == Rerouted ==>
        && i > 0 && d.reroute < RerouteChance
        && RerouteTaken(manager.network, vehicleType, old(route), route, old(route)[i], destination)
        && travelData == old(travelData) && totalTravelTime == old(totalTravelTime)
        && manager.network == old(manager.network)
      ensures outcome == Travelled ==> totalTravelTime > old(totalTravelTime)
      ensures (outcome == Travelled && i > 0 && d.reroute < RerouteChance
               && old(RerouteDue(manager.network, route, route[i], destination))) ==>
                old(RemainderIsFastest(manager.network, vehicleType, route, route[i], destination))
      ensures outcome == Travelled ==>
        var u, v := old(route)[i], old(route)[i + 1];
        && route == old(route)
        && travelData == old(travelData) + [SegmentFor(old(manager.network).data[(u, v)], u, v, vehicleType)]
        && totalTravelTime == old(totalTravelTime) + old(WaitAt(RedJunctions(), u, d.delay))
                              + 60.0 * TravelTime(old(manager.network).data[(u, v)], vehicleType)
        && manager.network == UpdateRoad(UpdateRoad(old(manager.network), u, v, EnterFactor, d.enter),
                                         u, v, LeaveFactor, d.leave)
    {
      ghost var wait := WaitAt(RedJunctions(), route[i], d.delay);
      var rerouted := ArriveAt(i, d);
      if rerouted {
        return Rerouted;
      }
      assert WaitAt(RedJunctions(), route[i], d.delay) == wait;
      Travel(route[i], route[i + 1], d);
      outcome := Travelled;
    }

    /** The first part of hop i: note the current and next node, and maybe reroute. */
    method ArriveAt(i: nat, d: HopDraws) returns (rerouted: bool)
      requires Valid() && i < |route| - 1
      modifies this`route, this`currentNode, this`nextNode
      ensures Valid()
      ensures currentNode == old(route)[i] && nextNode == Some(old(route)[i + 1])
      ensures rerouted ==> i > 0 && d.reroute < RerouteChance
      ensures rerouted ==> RerouteTaken(manager.network, vehicleType, old(route), route, old(route)[i], destination)
      ensures !rerouted ==> route == old(route)
      ensures (i > 0 && d.reroute < RerouteChance && RerouteDue(manager.network, old(route), old(route)[i], destination)
               && !rerouted) ==> RemainderIsFastest(manager.network, vehicleType, old(route), old(route)[i], destination)
    {
      var current := route[i];
      currentNode := current;
      nextNode := Some(route[i + 1]);
      rerouted := false;
      if i > 0 && d.reroute < RerouteChance {
        rerouted := ConsiderRerouting(current);
      }
    }

    /**
     * One run of drive(): plan the route, give up without a record when it
     * has fewer than two nodes, drive it hop by hop with draws[i] for hop i,
     * and record the trip, stamped now, on arrival. A reroute ends the run;
     * drive() then starts a fresh run, which plans again from start.
     */
    method Drive(draws: seq<HopDraws>, now: real) returns (outcome: DriveOutcome)
      requires Valid()
      requires start == destination || start in manager.network.nodes
      requires |draws| >= |manager.network.nodes| && forall k :: 0 <= k < |draws| ==> GoodDraws(draws[k])
      modifies this`route, this`currentNode, this`nextNode, this`travelData, this`totalTravelTime
      modifies manager`network, manager`tripRecords
      ensures Valid()
      ensures outcome == NoRoute <==> start == destination || old(!Reachable(manager.network, start, destination))
      ensures outcome != Arrived ==> manager.tripRecords == old(manager.tripRecords)
      ensures outcome == NoRoute ==> travelData == old(travelData) && totalTravelTime == old(totalTravelTime)
      ensures outcome == Arrived ==>
        && PathFromTo(manager.network, route, start, destination) && NoDup(route)
        && totalTravelTime > old(totalTravelTime)
        && manager.tripRecords == old(manager.tripRecords) + [Trip(now)]
      ensures outcome == Arrived ==>
        exists driven :: travelData == old(travelData) + driven && Follows(driven, route) && |driven| <= |draws|
                         && totalTravelTime == old(totalTravelTime) + HopsTime(old(RedJunctions()), route, draws, driven)
    {
      ghost var red := RedJunctions();
      PlanRoute();
      if route == [] || |route| < 2 {
        return NoRoute;
      }
      PathFitsNetwork(manager.network, route);
      var arrived;
      ghost var driven;
      arrived, driven := DrivePlanned(draws, now, red);
      outcome := if arrived then Arrived else Restarted;
    }

    /** Drive a planned route of at least two nodes and, on arrival, record the trip stamped now. */
    method DrivePlanned(draws: seq<HopDraws>, now: real, ghost red: set<Location>)
      returns (arrived: bool, ghost driven: seq<Segment>)
      requires Valid() && 2 <= |route| <= |draws| + 1 && red == RedJunctions()
      requires forall k :: 0 <= k < |draws| ==> GoodDraws(draws[k])
      modifies this`route, this`currentNode, this`nextNode, this`travelData, this`totalTravelTime
      modifies manager`network, manager`tripRecords
      ensures Valid()
      ensures !arrived ==> manager.tripRecords == old(manager.tripRecords)
      ensures arrived ==>
        && route == old(route)
        && totalTravelTime > old(totalTravelTime)
        && manager.tripRecords == old(manager.tripRecords) + [Trip(now)]
      ensures arrived ==>
        && travelData == old(travelData) + driven && Follows(driven, route) && |driven| <= |draws|
        && totalTravelTime == old(totalTravelTime) + HopsTime(red, route, draws, driven)
    {
      arrived, driven := DriveRoute(draws, red);
      if !arrived {
        return;
      }
      RecordArrival(now);
    }

    /** Hand the finished trip, its time converted to minutes, to the manager's ledger. */
    method RecordArrival(now: real)
      modifies manager`tripRecords
      ensures manager.tripRecords == old(manager.tripRecords) + [Trip(now)]
    {
      manager.RecordTrip(vehicleId, vehicleType, start, destination, route, totalTravelTime / 60.0, now, travelData);
    }

    /** The hop loop of drive(); false when a reroute ended it. */
    method DriveRoute(draws: seq<HopDraws>, ghost red: set<Location>) returns (arrived: bool, ghost driven: seq<Segment>)
      requires Valid() && 2 <= |route| <= |draws| + 1 && red == RedJunctions()
      requires forall k :: 0 <= k < |draws| ==> GoodDraws(draws[k])
      modifies this`route, this`currentNode, this`nextNode, this`travelData, this`totalTravelTime
      modifies manager`network
      ensures Valid()
      ensures arrived ==> route == old(route)
      ensures arrived ==> travelData == old(travelData) + driven && Follows(driven, route)
                          && totalTravelTime == old(totalTravelTime) + HopsTime(red, route, draws, driven)
      ensures arrived ==> totalTravelTime > old(totalTravelTime)
    {
      ghost var time0 := totalTravelTime;
      driven := [];
      var hops := |route| - 1;
      for i := 0 to hops
        invariant Valid() && route == old(route)
        invariant travelData == old(travelData) + driven
        invariant Follows(driven, route[..i + 1])
        invariant red == RedJunctions() && totalTravelTime == time0 + HopsTime(red, route, draws, driven)
        invariant i == 0 ==> totalTravelTime == time0
        invariant i > 0 ==> totalTravelTime > time0
      {
        var rerouted;
        rerouted, driven := FollowHop(i, draws, red, time0, old(travelData), driven);
        if rerouted {
          arrived := false;
          return;
        }
      }
      assert route[..hops + 1] == route;
      assert Follows(driven, route);
      arrived := true;
    }

    /** One pass of the hop loop, with the record of the hops driven so far. */
    method FollowHop(i: nat, draws: seq<HopDraws>, ghost red: set<Location>, ghost time0: real,
                     ghost base: seq<Segment>, ghost driven: seq<Segment>)
      returns (rerouted: bool, ghost driven': seq<Segment>)
      requires Valid() && i < |route| - 1 && i < |draws| && GoodDraws(draws[i])
      requires travelData == base + driven && Follows(driven, route[..i + 1])
      requires red == RedJunctions() && totalTravelTime == time0 + HopsTime(red, route, draws, driven)
      modifies this`route, this`currentNode, this`nextNode, this`travelData, this`totalTravelTime
      modifies manager`network
      ensures Valid() && red == RedJunctions()
      ensures !rerouted ==> route == old(route) && totalTravelTime > old(totalTravelTime)
      ensures !rerouted ==> travelData == base + driven' && Follows(driven', route[..i + 2])
      ensures !rerouted ==> totalTravelTime == time0 + HopsTime(red, route, draws, driven')
    {
      ghost var seg;
      rerouted, seg := TakeHop(i, draws[i], red);
      driven' := driven;
      if !rerouted {
        FollowsStep(driven, seg, route, i);
        HopsTimeSnoc(red, route, draws, driven, seg);
        driven' := driven + [seg];
      }
    }

    /** Hop i as the hop loop sees it: a reroute, or one more segment recorded from route[i] to route[i + 1]. */
    method TakeHop(i: nat, d: HopDraws, ghost red: set<Location>) returns (rerouted: bool, ghost seg: Segment)
      requires Valid() && i < |route| - 1 && GoodDraws(d) && red == RedJunctions()
      modifies this`route, this`currentNode, this`nextNode, this`travelData, this`totalTravelTime
      modifies manager`network
      ensures Valid()
      ensures !rerouted ==>
        && route == old(route) && travelData == old(travelData) + [seg]
        && seg.from == route[i] && seg.to == route[i + 1] && seg.travelTime > 0.0
        && totalTravelTime == old(totalTravelTime) + WaitAt(red, route[i], d.delay) + 60.0 * seg.travelTime
    {
      var hop := DriveHop(i, d);
      rerouted := hop == Rerouted;
      seg := Segment("", "", 0.0, "", "", 0.0);
      if !rerouted {
        seg := travelData[|travelData| - 1];
      }
    }
  }
}
