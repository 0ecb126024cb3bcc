/**
 * The congestion model of the traffic manager: the one-level random walk a
 * road's condition takes when it is nudged, the periodic tick that nudges a
 * fifth of the network, and the list of roads that are currently CONGESTED.
 * The uniform draws of the random module are parameters.
 */
module Congestion {
  import opened Enums
  import opened Roads

  /**
   * The new condition of a road nudged by changeFactor, where draw is the
   * random.random() value compared against |changeFactor|.
   */
  function NextCondition(c: TrafficCondition, changeFactor: real, draw: real): (c': TrafficCondition)
    ensures c.Index() <= c'.Index() + 1 && c'.Index() <= c.Index() + 1
    ensures c'.Index() > c.Index() <==> changeFactor > 0.0 && c != Congested && draw < changeFactor
    ensures c'.Index() < c.Index() <==> changeFactor < 0.0 && c != Light && draw < -changeFactor
    ensures c' == c <==> c'.Index() == c.Index()
    ensures changeFactor == 0.0 ==> c' == c
  {
    if changeFactor > 0.0 && c.Index() < 3 then
      if draw < changeFactor then ConditionAt(c.Index() + 1) else c
    else if changeFactor < 0.0 && c.Index() > 0 then
      if draw < -changeFactor then ConditionAt(c.Index() - 1) else c
    else
      c
  }

  /** update_road_traffic: only the condition of the named edge may change. */
  function UpdateRoad(net: Network, source: Location, target: Location, changeFactor: real, draw: real): (r: Network)
    requires (source, target) in net.data
    ensures r.nodes == net.nodes && r.edges == net.edges && r.data.Keys == net.data.Keys
    ensures forall e :: e in net.data && e != (source, target) ==> r.data[e] == net.data[e]
    ensures var d := net.data[(source, target)];
      r.data[(source, target)] == d.(condition := NextCondition(d.condition, changeFactor, draw))
  {
    var d := net.data[(source, target)];
    net.(data := net.data[(source, target) := d.(condition := NextCondition(d.condition, changeFactor, draw))])
  }

  /** Updating a road keeps the network well formed and keeps every path a path. */
  lemma UpdateRoadPreserves(net: Network, source: Location, target: Location, changeFactor: real, draw: real,
                            p: seq<Location>)
    requires WellFormed(net) && (source, target) in net.data
    ensures WellFormed(UpdateRoad(net, source, target, changeFactor, draw))
    ensures IsPath(net, p) <==> IsPath(UpdateRoad(net, source, target, changeFactor, draw), p)
  {
    var r := UpdateRoad(net, source, target, changeFactor, draw);
    assert forall e :: e in r.data ==> r.data[e].distance == net.data[e].distance && r.data[e].maxSpeed == net.data[e].maxSpeed;
  }

  /**
   * One tick of update_traffic_conditions: the sampled edges are nudged in
   * sample order, the i-th with factors[i] and draws[i].
   */
  function ApplyTick(net: Network, sample: seq<EdgeKey>, factors: seq<real>, draws: seq<real>): (r: Network)
    requires |factors| == |sample| && |draws| == |sample|
    requires forall i :: 0 <= i < |sample| ==> sample[i] in net.data
    ensures r.nodes == net.nodes && r.edges == net.edges && r.data.Keys == net.data.Keys
    ensures forall e :: e in net.data && e !in sample ==> r.data[e] == net.data[e]
    decreases |sample|
  {
    if sample == [] then net
    else
      var net' := UpdateRoad(net, sample[0].0, sample[0].1, factors[0], draws[0]);
      ApplyTick(net', sample[1..], factors[1..], draws[1..])
  }

  /** The tick nudges the k-th sampled road and then carries on with the rest. */
  lemma TickStep(net: Network, sample: seq<EdgeKey>, factors: seq<real>, draws: seq<real>, k: nat)
    requires |factors| == |sample| && |draws| == |sample| && k < |sample|
    requires forall i :: 0 <= i < |sample| ==> sample[i] in net.data
    ensures ApplyTick(net, sample[k..], factors[k..], draws[k..])
         == ApplyTick(UpdateRoad(net, sample[k].0, sample[k].1, factors[k], draws[k]),
                      sample[k + 1..], factors[k + 1..], draws[k + 1..])
  {
    assert sample[k..][1..] == sample[k + 1..];
    assert factors[k..][1..] == factors[k + 1..] && draws[k..][1..] == draws[k + 1..];
  }

  /** A sampled edge (each edge is sampled at most once) takes exactly its own nudge. */
  lemma {:induction false} TickSampledEdge(net: Network, sample: seq<EdgeKey>, factors: seq<real>, draws: seq<real>, i: nat)
    requires |factors| == |sample| && |draws| == |sample|
    requires forall k :: 0 <= k < |sample| ==> sample[k] in net.data
    requires NoDup(sample) && i < |sample|
    ensures var d := net.data[sample[i]];
      ApplyTick(net, sample, factors, draws).data[sample[i]]
        == d.(condition := NextCondition(d.condition, factors[i], draws[i]))
    decreases |sample|
  {
    var net' := UpdateRoad(net, sample[0].0, sample[0].1, factors[0], draws[0]);
    if i == 0 {
      assert sample[0] !in sample[1..];
    } else {
      assert sample[i] != sample[0];
      assert sample[1..][i - 1] == sample[i];
      TickSampledEdge(net', sample[1..], factors[1..], draws[1..], i - 1);
    }
  }

  /** After a tick every road is at most one level away from where it was, and
      only its condition may have changed. */
  lemma TickMovesAtMostOneLevel(net: Network, sample: seq<EdgeKey>, factors: seq<real>, draws: seq<real>, e: EdgeKey)
    requires |factors| == |sample| && |draws| == |sample|
    requires forall k :: 0 <= k < |sample| ==> sample[k] in net.data
    requires NoDup(sample) && e in net.data
    ensures var d, d' := net.data[e], ApplyTick(net, sample, factors, draws).data[e];
      d' == d.(condition := d'.condition)
      && d.condition.Index() <= d'.condition.Index() + 1 && d'.condition.Index() <= d.condition.Index() + 1
  {
    if e in sample {
      var i :| 0 <= i < |sample| && sample[i] == e;
      TickSampledEdge(net, sample, factors, draws, i);
    }
  }

  /** The roads whose condition differs between two networks. */
  ghost function Changed(before: Network, after: Network): set<EdgeKey>
  {
    set e | e in before.data && e in after.data && after.data[e] != before.data[e]
  }

  lemma {:induction false} CardSetOfSeq<T>(s: seq<T>)
    ensures |set x | x in s| <= |s|
  {
    if s != [] {
      CardSetOfSeq(s[1..]);
      assert (set x | x in s) == {s[0]} + (set x | x in s[1..]);
    }
  }

  /** A tick changes no more roads than it sampled. */
  lemma TickChangesAtMostSample(net: Network, sample: seq<EdgeKey>, factors: seq<real>, draws: seq<real>)
    requires |factors| == |sample| && |draws| == |sample|
    requires forall k :: 0 <= k < |sample| ==> sample[k] in net.data
    ensures Changed(net, ApplyTick(net, sample, factors, draws)) <= set e | e in sample
    ensures |Changed(net, ApplyTick(net, sample, factors, draws))| <= |sample|
  {
    var c := Changed(net, ApplyTick(net, sample, factors, draws));
    var s := set e | e in sample;
    assert c <= s;
    CardSetOfSeq(sample);
    assert |c| <= |s| by {
      assert s == c + (s - c);
    }
  }

  /** int(0.2 * E): how many edges one tick samples (0.2 * E is exact in the model). */
  function SampleSize(edgeCount: nat): (k: nat)
    ensures 5 * k <= edgeCount < 5 * k + 5
  {
    edgeCount / 5
  }

  /** The CONGESTED edges of an edge sequence, in that sequence's order. */
  function CongestedAmong(edges: seq<EdgeKey>, data: map<EdgeKey, RoadData>): (r: seq<EdgeKey>)
    requires forall e :: e in edges ==> e in data
    ensures forall e :: e in r <==> e in edges && data[e].condition == Congested
    ensures |r| <= |edges|
    ensures InOrderOf(r, edges)
    ensures NoDup(edges) ==> NoDup(r)
  {
    if edges == [] then
      assert Picks([], [], edges);
      []
    else
      var last := edges[|edges| - 1];
      var front := CongestedAmong(edges[..|edges| - 1], data);
      assert NoDup(edges) ==> last !in edges[..|edges| - 1];
      assert edges[..|edges| - 1] + [last] == edges;
      InOrderSnoc(front, edges[..|edges| - 1], last);
      if data[last].condition == Congested then front + [last] else front
  }

  /** report_traffic_hotspots: the congested roads in the graph's edge order. */
  function Hotspots(net: Network): (r: seq<EdgeKey>)
    requires WellFormed(net)
    ensures forall e :: e in r <==> e in net.data && net.data[e].condition == Congested
    ensures NoDup(r)
    ensures InOrderOf(r, net.edges)
  {
    CongestedAmong(net.edges, net.data)
  }
}
