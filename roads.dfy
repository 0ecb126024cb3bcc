/**
 * The road network: locations, directed road segments with their attributes,
 * the fixed speed tables of the vehicle model, and the cost of a path.
 */
module Roads {
  import opened Enums

  type Location = string

  /** A directed road segment is named by its (source, target) pair. */
  type EdgeKey = (Location, Location)

  /** The attributes NetworkX keeps on an edge. */
  datatype RoadData = RoadData(distance: real, roadType: string, maxSpeed: real, condition: TrafficCondition)

  /**
   * A directed graph: the nodes in insertion order, the edges in the graph's
   * iteration order, and the attribute dictionary of each edge.
   */
  datatype Network = Network(nodes: seq<Location>, edges: seq<EdgeKey>, data: map<EdgeKey, RoadData>)

  ghost predicate NoDup<T>(s: seq<T>)
  {
    forall i, j :: 0 <= i < j < |s| ==> s[i] != s[j]
  }

  /** pos picks r out of s: the k-th element of r sits at position pos[k] of s, positions rising. */
  ghost predicate Picks<T>(pos: seq<nat>, r: seq<T>, s: seq<T>)
  {
    && |pos| == |r|
    && (forall k {:trigger pos[k]} :: 0 <= k < |r| ==> pos[k] < |s| && s[pos[k]] == r[k])
    && (forall k, l {:trigger pos[k], pos[l]} :: 0 <= k < l < |r| ==> pos[k] < pos[l])
  }

  /** r is a subsequence of s: some of the elements of s, kept in the order of s. */
  ghost predicate InOrderOf<T>(r: seq<T>, s: seq<T>)
  {
    exists pos: seq<nat> :: Picks(pos, r, s)
  }

  /** A subsequence of s stays one when s grows by x, and grows by x along with it. */
  lemma InOrderSnoc<T>(r: seq<T>, s: seq<T>, x: T)
    requires InOrderOf(r, s)
    ensures InOrderOf(r, s + [x]) && InOrderOf(r + [x], s + [x])
  {
    var pos: seq<nat> :| Picks(pos, r, s);
    assert Picks(pos, r, s + [x]);
    assert Picks(pos + [|s|], r + [x], s + [x]);
  }

  /** In a duplicate-free sequence, two elements of a subsequence come in the order of the sequence. */
  lemma {:induction false} InOrderPositions<T>(r: seq<T>, s: seq<T>, i: nat, j: nat)
    requires InOrderOf(r, s) && NoDup(s) && i < j < |r|
    ensures exists a, b :: 0 <= a < b < |s| && s[a] == r[i] && s[b] == r[j]
  {
    var pos: seq<nat> :| Picks(pos, r, s);
    assert s[pos[i]] == r[i] && s[pos[j]] == r[j];
  }

  /** A well-formed network: a DiGraph keeps each node and each edge once. */
  ghost predicate WellFormed(net: Network)
  {
    && NoDup(net.nodes)
    && NoDup(net.edges)
    && (forall e :: e in net.data <==> e in net.edges)
    && (forall e :: e in net.data ==> e.0 in net.nodes && e.1 in net.nodes)
    && (forall e :: e in net.data ==> net.data[e].distance > 0.0 && net.data[e].maxSpeed > 0.0)
  }

  predicate Edge(net: Network, u: Location, v: Location)
  {
    (u, v) in net.data
  }

  /** Vehicle.SPEED_MULTIPLIERS */
  function SpeedMultiplier(v: VehicleType): (m: real)
    ensures 0.6 <= m <= 1.5
  {
    match v
    case Truck => 0.6
    case Car => 1.0
    case Bus => 0.8
    case Motorcycle => 1.5
  }

  /** Vehicle.TRAFFIC_FACTOR: the share of the speed limit that congestion leaves. */
  function TrafficFactor(c: TrafficCondition): (f: real)
    ensures 0.2 <= f <= 1.0
    ensures f == 1.0 <==> c == Light
  {
    match c
    case Light => 1.0
    case Moderate => 0.8
    case Heavy => 0.5
    case Congested => 0.2
  }

  /** A heavier congestion level always leaves a smaller share of the speed limit. */
  lemma TrafficFactorDecreasing(a: TrafficCondition, b: TrafficCondition)
    requires a.Index() < b.Index()
    ensures TrafficFactor(b) < TrafficFactor(a)
  {
  }

  /** Hours needed to drive a segment: (distance / max_speed) / (multiplier * factor). */
  function TravelTime(d: RoadData, v: VehicleType): (t: real)
    requires d.distance > 0.0 && d.maxSpeed > 0.0
    ensures t > 0.0
  {
    var base := d.distance / d.maxSpeed;
    var slowdown := SpeedMultiplier(v) * TrafficFactor(d.condition);
    assert base > 0.0 && slowdown > 0.0;
    base / slowdown
  }

  /** Worse congestion on the same segment never makes it faster to drive. */
  lemma {:induction false} TravelTimeMonotone(d: RoadData, v: VehicleType, c: TrafficCondition)
    requires d.distance > 0.0 && d.maxSpeed > 0.0
    requires d.condition.Index() <= c.Index()
    ensures TravelTime(d, v) <= TravelTime(d.(condition := c), v)
  {
    var base := d.distance / d.maxSpeed;
    var m := SpeedMultiplier(v);
    var f1, f2 := TrafficFactor(d.condition), TrafficFactor(c);
    if d.condition.Index() < c.Index() {
      TrafficFactorDecreasing(d.condition, c);
    }
    ScaleLess(m, f2, f1);
    var s1, s2 := m * f1, m * f2;
    DivideByLess(base, s2, s1);
    assert TravelTime(d, v) == base / s1;
    assert TravelTime(d.(condition := c), v) == base / s2;
  }

  /** Scaling by a positive number keeps the order. */
  lemma ScaleLess(m: real, x: real, y: real)
    requires m > 0.0 && 0.0 < x <= y
    ensures 0.0 < m * x <= m * y
  {
  }

  /** Dividing by a smaller positive number gives a larger quotient. */
  lemma DivideByLess(b: real, x: real, y: real)
    requires b > 0.0 && 0.0 < x <= y
    ensures b / y <= b / x
  {
    var p, q := b / x, b / y;
    assert p * x == b && q * y == b;
    assert q * x <= q * y;
  }

  /** The cost of one edge of the network for a vehicle class. */
  function EdgeCost(net: Network, vt: VehicleType, u: Location, v: Location): (c: real)
    requires WellFormed(net) && Edge(net, u, v)
    ensures c > 0.0
  {
    TravelTime(net.data[(u, v)], vt)
  }

  /** A non-empty node sequence along existing edges. */
  ghost predicate IsPath(net: Network, p: seq<Location>)
  {
    |p| >= 1 && forall i :: 0 <= i < |p| - 1 ==> Edge(net, p[i], p[i + 1])
  }

  ghost predicate PathFromTo(net: Network, p: seq<Location>, s: Location, t: Location)
  {
    IsPath(net, p) && p[0] == s && p[|p| - 1] == t
  }

  ghost predicate Reachable(net: Network, s: Location, t: Location)
  {
    exists p :: PathFromTo(net, p, s, t)
  }

  /** The summed edge cost of a path, added up from its start. */
  ghost function PathCost(net: Network, vt: VehicleType, p: seq<Location>): real
    requires WellFormed(net) && IsPath(net, p)
    decreases |p|
  {
    if |p| == 1 then 0.0
    else
      assert IsPath(net, p[..|p| - 1]);
      PathCost(net, vt, p[..|p| - 1]) + EdgeCost(net, vt, p[|p| - 2], p[|p| - 1])
  }

  /** Extending a path by one edge gives a path. */
  lemma AppendIsPath(net: Network, p: seq<Location>, x: Location)
    requires IsPath(net, p) && Edge(net, p[|p| - 1], x)
    ensures IsPath(net, p + [x]) && (p + [x])[..|p|] == p
  {
    var q := p + [x];
    forall i | 0 <= i < |q| - 1
      ensures Edge(net, q[i], q[i + 1])
    {
      if i < |p| - 1 {
        assert q[i] == p[i] && q[i + 1] == p[i + 1];
      }
    }
    assert q[..|p|] == p;
  }

  /** Extending a path by one edge adds exactly that edge's cost. */
  lemma PathCostAppend(net: Network, vt: VehicleType, p: seq<Location>, x: Location)
    requires WellFormed(net) && IsPath(net, p) && Edge(net, p[|p| - 1], x)
    ensures IsPath(net, p + [x])
    ensures PathCost(net, vt, p + [x]) == PathCost(net, vt, p) + EdgeCost(net, vt, p[|p| - 1], x)
  {
    AppendIsPath(net, p, x);
  }

  /** Dropping the last node of a longer path leaves a path to its predecessor. */
  lemma PathPrefix(net: Network, p: seq<Location>, s: Location, t: Location)
    requires PathFromTo(net, p, s, t) && |p| >= 2
    ensures PathFromTo(net, p[..|p| - 1], s, p[|p| - 2]) && Edge(net, p[|p| - 2], t)
  {
  }

  /** Edge costs are positive, so no path costs less than nothing. */
  lemma {:induction false} PathCostNonneg(net: Network, vt: VehicleType, p: seq<Location>)
    requires WellFormed(net) && IsPath(net, p)
    ensures PathCost(net, vt, p) >= 0.0
    decreases |p|
  {
    if |p| > 1 {
      assert IsPath(net, p[..|p| - 1]);
      PathCostNonneg(net, vt, p[..|p| - 1]);
    }
  }

  lemma NoDupAppend<T>(s: seq<T>, x: T)
    requires NoDup(s) && x !in s
    ensures NoDup(s + [x])
  {
  }

  function NodeSet(net: Network): set<Location>
  {
    set n | n in net.nodes
  }

  /** A total between lo and hi times n has a mean between lo and hi. */
  lemma MeanBounds(s: real, n: real, lo: real, hi: real)
    requires n > 0.0 && lo * n <= s <= hi * n
    ensures lo <= s / n <= hi
  {
    var a := s / n;
    assert a * n == s;
  }
}
