/**
 * The traffic-aware router of the traffic manager: Dijkstra's algorithm over a
 * priority queue of path-carrying entries and a set of expanded nodes, with
 * the edge cost (distance / max_speed) / (speed multiplier * traffic factor).
 */
module Router {
  import opened Enums
  import opened Roads

  /** A queue entry (cost, node, path): `path` leads from the start to just before `node`. */
  datatype Entry = Entry(cost: real, node: Location, path: seq<Location>)

  /**
   * heapq.heappop: removes an entry of least cost. Of several entries with the
   * least cost the first one pushed is taken.
   */
  method PopMin(pq: seq<Entry>) returns (e: Entry, rest: seq<Entry>)
    requires pq != []
    ensures e in pq
    ensures forall x :: x in pq ==> e.cost <= x.cost
    ensures |rest| == |pq| - 1
    ensures forall x :: x in rest ==> x in pq
    ensures forall x :: x in pq && x != e ==> x in rest
  {
    var j := 0;
    for k := 1 to |pq|
      invariant 0 <= j < |pq|
      invariant forall i :: 0 <= i < k ==> pq[j].cost <= pq[i].cost
    {
      if pq[k].cost < pq[j].cost {
        j := k;
      }
    }
    e := pq[j];
    rest := pq[..j] + pq[j + 1..];
    forall x | x in pq && x != e
      ensures x in rest
    {
      var i :| 0 <= i < |pq| && pq[i] == x;
      if i < j {
        assert rest[i] == x;
      } else {
        assert rest[i - 1] == x;
      }
    }
  }

  /** Some entry for `y` costs at most `bound`. */
  ghost predicate HasEntry(pq: seq<Entry>, y: Location, bound: real)
  {
    exists x :: x in pq && x.node == y && x.cost <= bound
  }

  /** `d` is no more than the cost of any path from `start` to `u`. */
  ghost predicate Settled(net: Network, vt: VehicleType, start: Location, u: Location, d: real)
    requires WellFormed(net)
  {
    forall p :: PathFromTo(net, p, start, u) ==> d <= PathCost(net, vt, p)
  }

  /** Every queued entry carries a simple path, through expanded nodes only, of its cost. */
  ghost predicate EntryOk(net: Network, vt: VehicleType, start: Location, visited: set<Location>, e: Entry)
    requires WellFormed(net)
  {
    && e.node in net.nodes
    && PathFromTo(net, e.path + [e.node], start, e.node)
    && e.cost == PathCost(net, vt, e.path + [e.node])
    && NoDup(e.path)
    && (forall n :: n in e.path ==> n in visited)
  }

  /**
   * The frontier invariant of Dijkstra's algorithm: before the first expansion
   * the queue holds only the start; afterwards the start is expanded, every
   * expanded node is settled at its recorded cost, and every edge out of an
   * expanded node into an unexpanded one is represented in the queue.
   */
  ghost predicate Frontier(net: Network, vt: VehicleType, start: Location, pq: seq<Entry>,
                           visited: set<Location>, dist: map<Location, real>)
    requires WellFormed(net)
  {
    && dist.Keys == visited
    && (visited == {} ==> pq == [Entry(0.0, start, [])])
    && (visited != {} ==> start in visited)
    && (forall u :: u in visited ==> Settled(net, vt, start, u, dist[u]))
    && (forall u, y :: u in visited && Edge(net, u, y) && y !in visited ==>
          HasEntry(pq, y, dist[u] + EdgeCost(net, vt, u, y)))
  }

  /** Every path from the start to an unexpanded node is bounded below by some queued entry. */
  lemma {:induction false} LowerBound(net: Network, vt: VehicleType, start: Location, pq: seq<Entry>,
                                      visited: set<Location>, dist: map<Location, real>,
                                      p: seq<Location>, x: Location)
    requires WellFormed(net) && Frontier(net, vt, start, pq, visited, dist)
    requires PathFromTo(net, p, start, x) && x !in visited
    ensures exists y :: y in pq && y.cost <= PathCost(net, vt, p)
    decreases |p|
  {
    if |p| == 1 {
      assert x == start && visited == {};
      assert pq[0] in pq;
    } else {
      PathPrefix(net, p, start, x);
      var q := p[..|p| - 1];
      var u := p[|p| - 2];
      assert PathCost(net, vt, p) == PathCost(net, vt, q) + EdgeCost(net, vt, u, x);
      if u in visited {
        assert dist[u] <= PathCost(net, vt, q);
        assert HasEntry(pq, x, dist[u] + EdgeCost(net, vt, u, x));
      } else {
        LowerBound(net, vt, start, pq, visited, dist, q, u);
      }
    }
  }

  /** The entry popped for an unexpanded node costs no more than any path to that node. */
  lemma PoppedIsSettled(net: Network, vt: VehicleType, start: Location, pq: seq<Entry>,
                        visited: set<Location>, dist: map<Location, real>, e: Entry)
    requires WellFormed(net) && Frontier(net, vt, start, pq, visited, dist)
    requires e in pq && e.node !in visited
    requires forall x :: x in pq ==> e.cost <= x.cost
    ensures Settled(net, vt, start, e.node, e.cost)
  {
    forall p | PathFromTo(net, p, start, e.node)
      ensures e.cost <= PathCost(net, vt, p)
    {
      LowerBound(net, vt, start, pq, visited, dist, p, e.node);
    }
  }

  /** Removing an entry of an expanded node keeps every frontier witness. */
  lemma HasEntryAfterPop(pq: seq<Entry>, rest: seq<Entry>, e: Entry, y: Location, b: real)
    requires HasEntry(pq, y, b) && e.node != y
    requires forall x :: x in pq && x != e ==> x in rest
    ensures HasEntry(rest, y, b)
  {
    var x :| x in pq && x.node == y && x.cost <= b;
    assert x in rest;
  }

  /** Appending entries keeps every frontier witness. */
  lemma HasEntryAfterPush(pq: seq<Entry>, more: seq<Entry>, y: Location, b: real)
    requires HasEntry(pq, y, b)
    requires |more| >= |pq| && more[..|pq|] == pq
    ensures HasEntry(more, y, b)
  {
    var x :| x in pq && x.node == y && x.cost <= b;
    var i :| 0 <= i < |pq| && pq[i] == x;
    assert more[i] == x;
  }

  /** The loop invariant of find_shortest_path. */
  ghost predicate SearchInv(net: Network, vt: VehicleType, start: Location, goal: Location,
                            pq: seq<Entry>, visited: set<Location>, dist: map<Location, real>)
    requires WellFormed(net)
  {
    && visited <= NodeSet(net) && goal !in visited
    && (forall x :: x in pq ==> EntryOk(net, vt, start, visited, x))
    && Frontier(net, vt, start, pq, visited, dist)
  }

  /** Skipping a popped entry of an already expanded node keeps the invariant. */
  lemma SkipKeepsInv(net: Network, vt: VehicleType, start: Location, goal: Location,
                     pq: seq<Entry>, visited: set<Location>, dist: map<Location, real>,
                     e: Entry, rest: seq<Entry>)
    requires WellFormed(net) && SearchInv(net, vt, start, goal, pq, visited, dist)
    requires e in pq && e.node in visited
    requires forall x :: x in rest ==> x in pq
    requires forall x :: x in pq && x != e ==> x in rest
    ensures SearchInv(net, vt, start, goal, rest, visited, dist)
  {
    forall u, y | u in visited && Edge(net, u, y) && y !in visited
      ensures HasEntry(rest, y, dist[u] + EdgeCost(net, vt, u, y))
    {
      HasEntryAfterPop(pq, rest, e, y, dist[u] + EdgeCost(net, vt, u, y));
    }
  }

  /** Each of the first k edges out of `node` into an unexpanded node has an entry in pq. */
  ghost predicate Offered(net: Network, vt: VehicleType, visited: set<Location>, node: Location, cost: real,
                          pq: seq<Entry>, k: nat)
    requires WellFormed(net) && k <= |net.edges|
  {
    forall j :: 0 <= j < k && net.edges[j].0 == node && net.edges[j].1 !in visited ==>
      HasEntry(pq, net.edges[j].1, cost + EdgeCost(net, vt, node, net.edges[j].1))
  }

  /** One pass of the neighbour loop: push the entry for the k-th edge when it leaves `node`. */
  method Offer(net: Network, vt: VehicleType, start: Location, visited: set<Location>,
               node: Location, cost: real, newPath: seq<Location>, pq: seq<Entry>, k: nat)
    returns (pq': seq<Entry>)
    requires WellFormed(net) && node in visited && k < |net.edges|
    requires PathFromTo(net, newPath, start, node) && cost == PathCost(net, vt, newPath)
    requires NoDup(newPath) && forall n :: n in newPath ==> n in visited
    requires forall x :: x in pq ==> EntryOk(net, vt, start, visited, x)
    requires Offered(net, vt, visited, node, cost, pq, k)
    ensures |pq'| >= |pq| && pq'[..|pq|] == pq
    ensures forall x :: x in pq' ==> EntryOk(net, vt, start, visited, x)
    ensures Offered(net, vt, visited, node, cost, pq', k + 1)
  {
    pq' := pq;
    var (src, nbr) := net.edges[k];
    if src == node && nbr !in visited {
      assert net.edges[k] in net.data;
      var w := TravelTime(net.data[(node, nbr)], vt);
      PathCostAppend(net, vt, newPath, nbr);
      var entry := Entry(cost + w, nbr, newPath);
      assert EntryOk(net, vt, start, visited, entry);
      pq' := pq + [entry];
      assert pq'[|pq'| - 1] == entry;
      forall j | 0 <= j < k + 1 && net.edges[j].0 == node && net.edges[j].1 !in visited
        ensures HasEntry(pq', net.edges[j].1, cost + EdgeCost(net, vt, node, net.edges[j].1))
      {
        if j < k {
          HasEntryAfterPush(pq, pq', net.edges[j].1, cost + EdgeCost(net, vt, node, net.edges[j].1));
        } else {
          assert entry in pq';
        }
      }
    } else {
      assert pq'[..|pq|] == pq;
    }
  }

  /**
   * The neighbour loop of find_shortest_path: for each edge out of `node`
   * (in edge order) into a node not yet expanded, push the entry extending
   * `newPath` by that edge.
   */
  method PushNeighbours(net: Network, vt: VehicleType, start: Location, visited: set<Location>,
                        node: Location, cost: real, newPath: seq<Location>, rest: seq<Entry>)
    returns (pq: seq<Entry>)
    requires WellFormed(net) && node in visited
    requires PathFromTo(net, newPath, start, node) && cost == PathCost(net, vt, newPath)
    requires NoDup(newPath) && forall n :: n in newPath ==> n in visited
    requires forall x :: x in rest ==> EntryOk(net, vt, start, visited, x)
    ensures |pq| >= |rest| && pq[..|rest|] == rest
    ensures forall x :: x in pq ==> EntryOk(net, vt, start, visited, x)
    ensures forall y :: Edge(net, node, y) && y !in visited ==>
              HasEntry(pq, y, cost + EdgeCost(net, vt, node, y))
  {
    pq := rest;
    for k := 0 to |net.edges|
      invariant |pq| >= |rest| && pq[..|rest|] == rest
      invariant forall x :: x in pq ==> EntryOk(net, vt, start, visited, x)
      invariant Offered(net, vt, visited, node, cost, pq, k)
    {
      ghost var before := pq;
      pq := Offer(net, vt, start, visited, node, cost, newPath, pq, k);
      assert pq[..|rest|] == before[..|rest|];
    }
    forall y | Edge(net, node, y) && y !in visited
      ensures HasEntry(pq, y, cost + EdgeCost(net, vt, node, y))
    {
      assert (node, y) in net.edges;
      var j :| 0 <= j < |net.edges| && net.edges[j] == (node, y);
    }
  }

  /** After the expansion every expanded node, the new one included, is settled at its cost. */
  lemma ExpandKeepsSettled(net: Network, vt: VehicleType, start: Location,
                           visited: set<Location>, dist: map<Location, real>, e: Entry)
    requires WellFormed(net) && dist.Keys == visited
    requires forall u :: u in visited ==> Settled(net, vt, start, u, dist[u])
    requires Settled(net, vt, start, e.node, e.cost)
    ensures forall u :: u in visited + {e.node} ==> Settled(net, vt, start, u, dist[e.node := e.cost][u])
  {
    var dist' := dist[e.node := e.cost];
    forall u | u in visited + {e.node}
      ensures Settled(net, vt, start, u, dist'[u])
    {
      if u != e.node {
        assert dist'[u] == dist[u];
      }
    }
  }

  /** After the expansion every edge out of an expanded node is still represented in the queue. */
  lemma ExpandKeepsEdges(net: Network, vt: VehicleType, start: Location,
                         pq: seq<Entry>, visited: set<Location>, dist: map<Location, real>,
                         e: Entry, rest: seq<Entry>, pq': seq<Entry>)
    requires WellFormed(net) && dist.Keys == visited
    requires forall u, y :: u in visited && Edge(net, u, y) && y !in visited ==>
               HasEntry(pq, y, dist[u] + EdgeCost(net, vt, u, y))
    requires forall x :: x in pq && x != e ==> x in rest
    requires |pq'| >= |rest| && pq'[..|rest|] == rest
    requires forall y :: Edge(net, e.node, y) && y !in visited + {e.node} ==>
               HasEntry(pq', y, e.cost + EdgeCost(net, vt, e.node, y))
    ensures forall u, y :: u in visited + {e.node} && Edge(net, u, y) && y !in visited + {e.node} ==>
              HasEntry(pq', y, dist[e.node := e.cost][u] + EdgeCost(net, vt, u, y))
  {
    var visited', dist' := visited + {e.node}, dist[e.node := e.cost];
    forall u, y | u in visited' && Edge(net, u, y) && y !in visited'
      ensures HasEntry(pq', y, dist'[u] + EdgeCost(net, vt, u, y))
    {
      if u != e.node {
        assert dist'[u] == dist[u];
        HasEntryAfterPop(pq, rest, e, y, dist[u] + EdgeCost(net, vt, u, y));
        HasEntryAfterPush(rest, pq', y, dist[u] + EdgeCost(net, vt, u, y));
      }
    }
  }

  /** Expanding the popped node at its settled cost keeps the invariant. */
  lemma ExpandKeepsInv(net: Network, vt: VehicleType, start: Location, goal: Location,
                       pq: seq<Entry>, visited: set<Location>, dist: map<Location, real>,
                       e: Entry, rest: seq<Entry>, pq': seq<Entry>)
    requires WellFormed(net) && visited <= NodeSet(net) && goal !in visited
    requires dist.Keys == visited && (visited == {} ==> e.node == start) && (visited != {} ==> start in visited)
    requires forall u :: u in visited ==> Settled(net, vt, start, u, dist[u])
    requires forall u, y :: u in visited && Edge(net, u, y) && y !in visited ==>
               HasEntry(pq, y, dist[u] + EdgeCost(net, vt, u, y))
    requires e.node in net.nodes && e.node !in visited && e.node != goal
    requires Settled(net, vt, start, e.node, e.cost)
    requires forall x :: x in pq && x != e ==> x in rest
    requires |pq'| >= |rest| && pq'[..|rest|] == rest
    requires forall x :: x in pq' ==> EntryOk(net, vt, start, visited + {e.node}, x)
    requires forall y :: Edge(net, e.node, y) && y !in visited + {e.node} ==>
               HasEntry(pq', y, e.cost + EdgeCost(net, vt, e.node, y))
    ensures SearchInv(net, vt, start, goal, pq', visited + {e.node}, dist[e.node := e.cost])
  {
    ExpandKeepsSettled(net, vt, start, visited, dist, e);
    ExpandKeepsEdges(net, vt, start, pq, visited, dist, e, rest, pq');
  }

  /** The path carried by a popped entry for the goal is simple, of its entry's cost, and settled. */
  lemma GoalReached(net: Network, vt: VehicleType, start: Location, goal: Location,
                    pq: seq<Entry>, visited: set<Location>, dist: map<Location, real>, e: Entry)
    requires WellFormed(net) && SearchInv(net, vt, start, goal, pq, visited, dist)
    requires e in pq && e.node == goal
    requires Settled(net, vt, start, e.node, e.cost)
    ensures PathFromTo(net, e.path + [goal], start, goal) && NoDup(e.path + [goal])
    ensures Settled(net, vt, start, goal, PathCost(net, vt, e.path + [goal]))
  {
    assert EntryOk(net, vt, start, visited, e);
    assert goal !in e.path;
    NoDupAppend(e.path, goal);
  }

  /** With an empty queue every reachable node has been expanded, so the goal is not reachable. */
  lemma Exhausted(net: Network, vt: VehicleType, start: Location, goal: Location,
                  visited: set<Location>, dist: map<Location, real>)
    requires WellFormed(net) && SearchInv(net, vt, start, goal, [], visited, dist)
    ensures forall x :: Reachable(net, start, x) ==> x in visited
    ensures !Reachable(net, start, goal)
  {
    forall x | Reachable(net, start, x)
      ensures x in visited
    {
      var p :| PathFromTo(net, p, start, x);
      if x !in visited {
        LowerBound(net, vt, start, [], visited, dist, p, x);
      }
    }
  }

  /** Expands the node of the popped entry `e`: pushes its neighbours and keeps the invariant. */
  method Expand(net: Network, vt: VehicleType, start: Location, goal: Location,
                pq: seq<Entry>, visited: set<Location>, ghost dist: map<Location, real>,
                e: Entry, rest: seq<Entry>)
    returns (pq': seq<Entry>)
    requires WellFormed(net) && SearchInv(net, vt, start, goal, pq, visited, dist)
    requires e in pq && e.node !in visited && e.node != goal
    requires Settled(net, vt, start, e.node, e.cost)
    requires forall x :: x in rest ==> x in pq
    requires forall x :: x in pq && x != e ==> x in rest
    ensures SearchInv(net, vt, start, goal, pq', visited + {e.node}, dist[e.node := e.cost])
    ensures e.node in NodeSet(net)
  {
    assert EntryOk(net, vt, start, visited, e);
    assert visited == {} ==> e.node == start;
    var newPath := e.path + [e.node];
    NoDupAppend(e.path, e.node);
    pq' := PushNeighbours(net, vt, start, visited + {e.node}, e.node, e.cost, newPath, rest);
    ExpandKeepsInv(net, vt, start, goal, pq, visited, dist, e, rest, pq');
  }

  /**
   * TrafficManager.find_shortest_path. Returns [start] when start == goal;
   * otherwise a simple least-cost path from start to goal, or None exactly when
   * goal cannot be reached. `expanded` lists the nodes expanded, each once.
   */
  method FindShortestPath(net: Network, start: Location, goal: Location, vt: VehicleType)
    returns (r: Option<seq<Location>>, ghost expanded: seq<Location>)
    requires WellFormed(net)
    requires start == goal || start in net.nodes
    ensures start == goal ==> r == Some([start])
    ensures r.Some? ==> PathFromTo(net, r.value, start, goal) && NoDup(r.value)
    ensures r.Some? ==> forall p :: PathFromTo(net, p, start, goal) ==>
                          PathCost(net, vt, r.value) <= PathCost(net, vt, p)
    ensures r.None? <==> !Reachable(net, start, goal)
    ensures NoDup(expanded) && goal !in expanded
    ensures r.None? ==> forall x :: Reachable(net, start, x) ==> x in expanded
  {
    if start == goal {
      assert PathFromTo(net, [start], start, goal);
      forall p | PathFromTo(net, p, start, goal)
        ensures PathCost(net, vt, [start]) <= PathCost(net, vt, p)
      {
        PathCostNonneg(net, vt, p);
      }
      return Some([start]), [];
    }
    r, expanded := Search(net, start, goal, vt);
  }

  /**
   * One iteration of the main loop of find_shortest_path: pop the cheapest
   * entry; skip it if its node is expanded, return its path if its node is the
   * goal, and otherwise expand its node. `newly` names the node expanded.
   */
  method Step(net: Network, vt: VehicleType, start: Location, goal: Location,
              pq: seq<Entry>, visited: set<Location>, ghost dist: map<Location, real>)
    returns (found: Option<seq<Location>>, pq': seq<Entry>, visited': set<Location>,
             ghost dist': map<Location, real>, ghost newly: Option<Location>)
    requires WellFormed(net) && SearchInv(net, vt, start, goal, pq, visited, dist) && pq != []
    ensures found.Some? ==> PathFromTo(net, found.value, start, goal) && NoDup(found.value)
    ensures found.Some? ==> Settled(net, vt, start, goal, PathCost(net, vt, found.value))
    ensures found.None? ==> SearchInv(net, vt, start, goal, pq', visited', dist')
    ensures found.None? && newly.None? ==> visited' == visited && |pq'| < |pq|
    ensures found.None? && newly.Some? ==>
              newly.value !in visited && visited' == visited + {newly.value} &&
              |NodeSet(net) - visited'| < |NodeSet(net) - visited|
  {
    var e, rest := PopMin(pq);
    if e.node in visited {
      SkipKeepsInv(net, vt, start, goal, pq, visited, dist, e, rest);
      return None, rest, visited, dist, None;
    }
    found, pq', visited', dist', newly := Take(net, vt, start, goal, pq, visited, dist, e, rest);
  }

  /** The unexpanded node of a popped least entry: the goal ends the search, any other is expanded. */
  method Take(net: Network, vt: VehicleType, start: Location, goal: Location,
              pq: seq<Entry>, visited: set<Location>, ghost dist: map<Location, real>, e: Entry, rest: seq<Entry>)
    returns (found: Option<seq<Location>>, pq': seq<Entry>, visited': set<Location>,
             ghost dist': map<Location, real>, ghost newly: Option<Location>)
    requires WellFormed(net) && SearchInv(net, vt, start, goal, pq, visited, dist)
    requires e in pq && e.node !in visited && forall x :: x in pq ==> e.cost <= x.cost
    requires forall x :: x in rest ==> x in pq
    requires forall x :: x in pq && x != e ==> x in rest
    ensures found.Some? ==> PathFromTo(net, found.value, start, goal) && NoDup(found.value)
    ensures found.Some? ==> Settled(net, vt, start, goal, PathCost(net, vt, found.value))
    ensures found.None? ==> SearchInv(net, vt, start, goal, pq', visited', dist')
    ensures found.None? ==> newly == Some(e.node) && visited' == visited + {e.node}
    ensures found.None? ==> |NodeSet(net) - visited'| < |NodeSet(net) - visited|
  {
    PoppedIsSettled(net, vt, start, pq, visited, dist, e);
    var node, cost := e.node, e.cost;
    var newPath := e.path + [node];
    if node == goal {
      GoalReached(net, vt, start, goal, pq, visited, dist, e);
      return Some(newPath), pq, visited, dist, None;
    }
    pq' := Expand(net, vt, start, goal, pq, visited, dist, e, rest);
    visited' := visited + {node};
    Fewer(NodeSet(net), visited, node);
    return None, pq', visited', dist[node := cost], Some(node);
  }

  /** The main loop of find_shortest_path, for start != goal. */
  method Search(net: Network, start: Location, goal: Location, vt: VehicleType)
    returns (r: Option<seq<Location>>, ghost expanded: seq<Location>)
    requires WellFormed(net) && start in net.nodes && start != goal
    ensures r.Some? ==> PathFromTo(net, r.value, start, goal) && NoDup(r.value)
    ensures r.Some? ==> Settled(net, vt, start, goal, PathCost(net, vt, r.value))
    ensures r.None? ==> !Reachable(net, start, goal)
    ensures NoDup(expanded) && goal !in expanded
    ensures r.None? ==> forall x :: Reachable(net, start, x) ==> x in expanded
  {
    expanded := [];
    var pq := [Entry(0.0, start, [])];
    var visited: set<Location> := {};
    ghost var dist: map<Location, real> := map[];
    assert [] + [start] == [start];
    assert EntryOk(net, vt, start, visited, pq[0]);
    while pq != []
      invariant SearchInv(net, vt, start, goal, pq, visited, dist)
      invariant NoDup(expanded) && forall n :: n in expanded <==> n in visited
      decreases |NodeSet(net) - visited|, |pq|
    {
      var found, pq', visited', dist', newly := Step(net, vt, start, goal, pq, visited, dist);
      if found.Some? {
        return found, expanded;
      }
      if newly.Some? {
        NoDupAppend(expanded, newly.value);
        expanded := expanded + [newly.value];
      }
      pq, visited, dist := pq', visited', dist';
    }
    Exhausted(net, vt, start, goal, visited, dist);
    return None, expanded;
  }
}
