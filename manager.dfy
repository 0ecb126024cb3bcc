/**
 * The traffic manager: it owns the road network, one traffic light per
 * junction and the trip ledger. It classifies each junction by its number of
 * outgoing roads, nudges road conditions, runs the periodic congestion tick,
 * lists the congested roads and records finished trips.
 */
module Manager {
  import opened Enums
  import opened Roads
  import opened Congestion
  import opened Signals
  import opened Ledger

  /** The cycle length every junction light is created with. */
  const JunctionCycleTime: int := 90

  /** len(list(G.edges(u))): how many roads leave u. */
  function OutDegree(edges: seq<EdgeKey>, u: Location): (n: nat)
    ensures n <= |edges|
  {
    if edges == [] then 0
    else OutDegree(edges[..|edges| - 1], u) + (if edges[|edges| - 1].0 == u then 1 else 0)
  }

  /** Over a duplicate-free edge list the out-degree is the number of distinct roads leaving u. */
  lemma {:induction false} OutDegreeCountsRoads(edges: seq<EdgeKey>, u: Location)
    requires NoDup(edges)
    ensures OutDegree(edges, u) == |set e | e in edges && e.0 == u|
    decreases |edges|
  {
    if edges != [] {
      var front := edges[..|edges| - 1];
      var last := edges[|edges| - 1];
      assert edges == front + [last];
      assert NoDup(front) && last !in front;
      OutDegreeCountsRoads(front, u);
      LeavingSplit(front, last, u);
    }
  }

  /** The roads leaving u among front + [last] are those among front, and last if it leaves u. */
  lemma LeavingSplit(front: seq<EdgeKey>, last: EdgeKey, u: Location)
    ensures (set e | e in front + [last] && e.0 == u)
         == (set e | e in front && e.0 == u) + (if last.0 == u then {last} else {})
  {
    var after, before := set e | e in front + [last] && e.0 == u, set e | e in front && e.0 == u;
    forall e
      ensures e in after <==> e in before + (if last.0 == u then {last} else {})
    {
      assert e in front + [last] <==> e in front || e == last;
    }
  }

  /**
   * The junction type of a node with n outgoing roads; choice is the index
   * random.choice draws among the first three types.
   */
  function JunctionTypeFor(n: nat, choice: nat): (jt: string)
    requires choice < 3
    ensures jt == SmartIntersection <==> n > 4
    ensures 2 < n <= 4 ==> jt == CityIntersection
    ensures n <= 2 ==> jt == [HighwayIntersection, CityIntersection, RuralIntersection][choice]
  {
    if n > 4 then SmartIntersection
    else if n > 2 then CityIntersection
    else [HighwayIntersection, CityIntersection, RuralIntersection][choice]
  }

  /** A light at loc of the type its out-degree and draw give, with the junction cycle. */
  ghost predicate LightFits(l: TrafficLight, net: Network, loc: Location, choice: nat)
    requires choice < 3
  {
    && l.location == loc
    && l.junctionType == JunctionTypeFor(OutDegree(net.edges, loc), choice)
    && l.baseCycleTime == JunctionCycleTime
  }

  /** A freshly set up light at loc of the type its out-degree and draw give. */
  ghost predicate LightOk(l: TrafficLight, net: Network, loc: Location, choice: nat)
    reads l
    requires choice < 3
  {
    && LightFits(l, net, loc, choice)
    && l.state == Red && l.history == []
    && l.Valid()
  }

  /** The body of the setup loop for one node. */
  method MakeLight(net: Network, location: Location, choice: nat) returns (light: TrafficLight)
    requires choice < 3
    ensures fresh(light) && LightOk(light, net, location, choice)
  {
    var numConnections := OutDegree(net.edges, location);
    var junctionType := JunctionTypeFor(numConnections, choice);
    light := new TrafficLight(location, junctionType, JunctionCycleTime);
  }

  class TrafficManager {
    var network: Network
    var lights: map<Location, TrafficLight>
    var tripRecords: seq<TripRecord>

    ghost predicate Valid()
      reads this`network
    {
      WellFormed(network)
    }

    /**
     * A manager over a given network (create_road_network builds a fixed
     * one): one light per node, an empty ledger.
     */
    constructor (net: Network, choices: seq<nat>)
      requires WellFormed(net)
      requires |choices| == |net.nodes| && forall i :: 0 <= i < |choices| ==> choices[i] < 3
      ensures network == net && tripRecords == []
      ensures lights.Keys == NodeSet(net)
      ensures forall i :: 0 <= i < |net.nodes| ==> LightOk(lights[net.nodes[i]], net, net.nodes[i], choices[i])
      ensures Valid()
    {
      network := net;
      lights := map[];
      tripRecords := [];
      new;
      SetupTrafficLights(choices);
    }

    /**
     * setup_traffic_lights: a light at every node, smart above four outgoing
     * roads, city above two, else the drawn basic type; choices[i] is the
     * draw for the i-th node.
     */
    method SetupTrafficLights(choices: seq<nat>)
      requires Valid()
      requires |choices| == |network.nodes| && forall i :: 0 <= i < |choices| ==> choices[i] < 3
      modifies this`lights
      ensures lights.Keys == old(lights.Keys) + NodeSet(network)
      ensures forall i :: 0 <= i < |network.nodes| ==>
        fresh(lights[network.nodes[i]]) && LightOk(lights[network.nodes[i]], network, network.nodes[i], choices[i])
      ensures forall k :: k in old(lights) && k !in NodeSet(network) ==> lights[k] == old(lights)[k]
    {
      var net := network;
      var nodes := net.nodes;
      assert NoDup(nodes);
      var ls := lights;
      for i := 0 to |nodes|
        invariant forall k :: k in ls <==> k in old(lights) || k in nodes[..i]
        invariant forall j :: 0 <= j < i ==> LightFits(ls[nodes[j]], net, nodes[j], choices[j])
        invariant forall j :: 0 <= j < i ==> fresh(ls[nodes[j]]) && ls[nodes[j]].state == Red && ls[nodes[j]].history == []
        invariant forall k :: k in old(lights) && k !in nodes[..i] ==> ls[k] == old(lights)[k]
      {
        var location := nodes[i];
        var light := MakeLight(net, location, choices[i]);
        assert forall j :: 0 <= j < i ==> nodes[j] != location;
        ls := ls[location := light];
        assert nodes[..i + 1] == nodes[..i] + [location];
      }
      assert nodes[..|nodes|] == nodes;
      assert ls.Keys == old(lights.Keys) + NodeSet(network);
      lights := ls;
    }

    /** update_road_traffic on the manager's network. */
    method UpdateRoadTraffic(source: Location, target: Location, changeFactor: real, draw: real)
      requires Valid() && (source, target) in network.data
      modifies this`network
      ensures Valid()
      ensures network == UpdateRoad(old(network), source, target, changeFactor, draw)
    {
      UpdateRoadPreserves(network, source, target, changeFactor, draw, []);
      network := UpdateRoad(network, source, target, changeFactor, draw);
    }

    /**
     * One tick of update_traffic_conditions: nudge the sampled roads with
     * their drawn factors, then report the congested roads.
     */
    method UpdateTrafficConditions(sample: seq<EdgeKey>, factors: seq<real>, draws: seq<real>)
      returns (hotspots: seq<EdgeKey>)
      requires Valid()
      requires |sample| == SampleSize(|network.edges|) && NoDup(sample)
      requires forall k :: 0 <= k < |sample| ==> sample[k] in network.data
      requires |factors| == |sample| && |draws| == |sample|
      requires forall k :: 0 <= k < |sample| ==> -0.3 <= factors[k] <= 0.3 && 0.0 <= draws[k] < 1.0
      modifies this`network
      ensures Valid()
      ensures network == ApplyTick(old(network), sample, factors, draws)
      ensures hotspots == Hotspots(network)
    {
      NudgeSample(sample, factors, draws);
      hotspots := ReportTrafficHotspots();
    }

    /** The loop of a tick over the sampled roads. */
    method NudgeSample(sample: seq<EdgeKey>, factors: seq<real>, draws: seq<real>)
      requires Valid()
      requires forall k :: 0 <= k < |sample| ==> sample[k] in network.data
      requires |factors| == |sample| && |draws| == |sample|
      modifies this`network
      ensures Valid()
      ensures network == ApplyTick(old(network), sample, factors, draws)
    {
      var net := network;
      ghost var final := ApplyTick(net, sample, factors, draws);
      for k := 0 to |sample|
        invariant WellFormed(net) && net.data.Keys == network.data.Keys
        invariant forall i :: k <= i < |sample| ==> sample[i] in net.data
        invariant ApplyTick(net, sample[k..], factors[k..], draws[k..]) == final
      {
        TickStep(net, sample, factors, draws, k);
        UpdateRoadPreserves(net, sample[k].0, sample[k].1, factors[k], draws[k], []);
        net := UpdateRoad(net, sample[k].0, sample[k].1, factors[k], draws[k]);
      }
      assert sample[|sample|..] == [];
      network := net;
    }

    /** report_traffic_hotspots: the roads at CONGESTED, in edge order. */
    method ReportTrafficHotspots() returns (congested: seq<EdgeKey>)
      requires Valid()
      ensures congested == Hotspots(network)
    {
      congested := [];
      var edges := network.edges;
      for i := 0 to |edges|
        invariant congested == CongestedAmong(edges[..i], network.data)
      {
        assert edges[..i + 1][..i] == edges[..i];
        if network.data[edges[i]].condition == Congested {
          congested := congested + [edges[i]];
        }
      }
      assert edges[..|edges|] == edges;
    }

    /** record_trip: append one record, stamped with the current time. */
    method RecordTrip(vehicleId: string, vehicleType: VehicleType, start: Location, destination: Location,
                      route: seq<Location>, travelTime: real, now: real, travelData: seq<Segment>)
      modifies this`tripRecords
      ensures tripRecords == old(tripRecords) + [TripRecord(vehicleId, vehicleType, start, destination, route,
                                                             travelTime, now, travelData)]
    {
      tripRecords := tripRecords + [TripRecord(vehicleId, vehicleType, start, destination, route, travelTime, now, travelData)];
    }
  }
}
