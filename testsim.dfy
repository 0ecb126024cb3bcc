/**
 * The stand-alone simulation with integer road weights: Dijkstra's algorithm
 * over an adjacency dictionary with a table of (predecessor, weight) records
 * and a visited set, and the total time of a vehicle that drives a route past
 * fixed red and green lights. The random waits are parameters.
 */
module TestSim {
  import opened Enums

  type Node = string

  /** graph[u][v] is the weight of the road from u to v. */
  type Graph = map<Node, map<Node, nat>>

  /** shortest_paths[v] = (predecessor, weight); the start has no predecessor. */
  type Record = (Option<Node>, nat)

  /** Every node named as a neighbour is itself a key of the dictionary. */
  ghost predicate Closed(g: Graph)
  {
    forall u, v :: u in g && v in g[u] ==> v in g
  }

  predicate Adjacent(g: Graph, u: Node, v: Node)
  {
    u in g && v in g[u]
  }

  /** A non-empty node sequence along roads of g. */
  ghost predicate IsRoute(g: Graph, p: seq<Node>)
  {
    |p| >= 1 && forall i :: 0 <= i < |p| - 1 ==> Adjacent(g, p[i], p[i + 1])
  }

  ghost predicate RouteFromTo(g: Graph, p: seq<Node>, s: Node, t: Node)
  {
    IsRoute(g, p) && p[0] == s && p[|p| - 1] == t
  }

  ghost predicate Connected(g: Graph, s: Node, t: Node)
  {
    exists p :: RouteFromTo(g, p, s, t)
  }

  /** The summed road weights of a route, added up from its start. */
  function RouteWeight(g: Graph, p: seq<Node>): nat
    requires IsRoute(g, p)
    decreases |p|
  {
    if |p| == 1 then 0
    else
      assert IsRoute(g, p[..|p| - 1]) && Adjacent(g, p[|p| - 2], p[|p| - 1]);
      RouteWeight(g, p[..|p| - 1]) + g[p[|p| - 2]][p[|p| - 1]]
  }

  /** w is no more than the weight of any route from start to u. */
  ghost predicate Optimal(g: Graph, start: Node, u: Node, w: nat)
  {
    forall p :: RouteFromTo(g, p, start, u) ==> w <= RouteWeight(g, p)
  }

  /** Putting a road in front of a route adds exactly that road's weight. */
  lemma {:induction false} WeightCons(g: Graph, c: Node, r: seq<Node>)
    requires IsRoute(g, r) && Adjacent(g, c, r[0])
    ensures IsRoute(g, [c] + r)
    ensures RouteWeight(g, [c] + r) == g[c][r[0]] + RouteWeight(g, r)
    decreases |r|
  {
    var q := [c] + r;
    assert forall i :: 0 <= i < |q| - 1 ==> q[i + 1] == r[i] && (i > 0 ==> q[i] == r[i - 1]);
    if |r| > 1 {
      var r' := r[..|r| - 1];
      assert IsRoute(g, r');
      WeightCons(g, c, r');
      assert q[..|q| - 1] == [c] + r';
    } else {
      assert q[..|q| - 1] == [c];
    }
  }

  /** A route can be cut back to any of its prefixes. */
  lemma PrefixRoute(g: Graph, p: seq<Node>, s: Node, t: Node)
    requires RouteFromTo(g, p, s, t) && |p| >= 2
    ensures RouteFromTo(g, p[..|p| - 1], s, p[|p| - 2]) && Adjacent(g, p[|p| - 2], t)
  {
  }

  // ---------------------------------------------------------------------
  // The invariant of the main loop
  // ---------------------------------------------------------------------

  /**
   * The record table is a tree rooted at start: every other recorded node has
   * a visited predecessor joined to it by a road, and its weight is the
   * predecessor's plus that road's; the visiting ranks grow along the tree.
   */
  ghost predicate Tree(g: Graph, start: Node, sp: map<Node, Record>, visited: set<Node>, rank: map<Node, nat>)
  {
    && start in sp && sp[start] == (None, 0)
    && sp.Keys <= g.Keys
    && visited <= sp.Keys && visited <= rank.Keys
    && (forall v :: v in visited ==> rank[v] < |visited|)
    && (forall v :: v in sp && v != start ==> TreeEdge(g, sp, visited, rank, v))
  }

  ghost predicate TreeEdge(g: Graph, sp: map<Node, Record>, visited: set<Node>, rank: map<Node, nat>, v: Node)
    requires v in sp && visited <= sp.Keys && visited <= rank.Keys
  {
    && sp[v].0.Some? && sp[v].0.value in visited
    && Adjacent(g, sp[v].0.value, v)
    && sp[v].1 == sp[sp[v].0.value].1 + g[sp[v].0.value][v]
    && (v in visited ==> rank[sp[v].0.value] < rank[v])
  }

  /** The visited nodes carry shortest weights. */
  ghost predicate Settled(g: Graph, start: Node, sp: map<Node, Record>, visited: set<Node>)
    requires visited <= sp.Keys
  {
    forall u :: u in visited ==> Optimal(g, start, u, sp[u].1)
  }

  /** Every road out of a visited node has been relaxed. */
  ghost predicate RelaxedFrom(g: Graph, sp: map<Node, Record>, visited: set<Node>)
    requires visited <= sp.Keys && visited <= g.Keys
  {
    forall u, v :: u in visited && v in g[u] ==> v in sp && sp[v].1 <= sp[u].1 + g[u][v]
  }

  /** No visited node weighs more than an unvisited recorded one. */
  ghost predicate Layered(sp: map<Node, Record>, visited: set<Node>)
    requires visited <= sp.Keys
  {
    forall u, w :: u in visited && w in sp && w !in visited ==> sp[u].1 <= sp[w].1
  }

  /** c is an unvisited recorded node of least weight. */
  ghost predicate Least(sp: map<Node, Record>, visited: set<Node>, c: Node)
  {
    c in sp && c !in visited && forall w :: w in sp && w !in visited ==> sp[c].1 <= sp[w].1
  }

  ghost predicate LoopInv(g: Graph, start: Node, goal: Node, sp: map<Node, Record>, visited: set<Node>,
                          rank: map<Node, nat>, current: Node)
  {
    && Tree(g, start, sp, visited, rank)
    && Settled(g, start, sp, visited)
    && RelaxedFrom(g, sp, visited)
    && Layered(sp, visited)
    && Least(sp, visited, current)
    && Optimal(g, start, current, sp[current].1)
    && goal !in visited
    && (visited == {} ==> current == start)
    && (visited != {} ==> start in visited)
  }

  /** Every route from start to an unvisited node weighs at least the least unvisited record. */
  lemma {:induction false} CrossingBound(g: Graph, start: Node, sp: map<Node, Record>, visited: set<Node>,
                                         c: Node, p: seq<Node>, x: Node)
    requires visited <= sp.Keys && visited <= g.Keys && Settled(g, start, sp, visited)
    requires RelaxedFrom(g, sp, visited) && Least(sp, visited, c) && start in visited
    requires RouteFromTo(g, p, start, x) && x !in visited
    ensures sp[c].1 <= RouteWeight(g, p)
    decreases |p|
  {
    if |p| > 1 {
      PrefixRoute(g, p, start, x);
      var q := p[..|p| - 1];
      var u := p[|p| - 2];
      assert RouteWeight(g, p) == RouteWeight(g, q) + g[u][x];
      if u in visited {
        assert sp[u].1 <= RouteWeight(g, q);
        assert x in sp && sp[x].1 <= sp[u].1 + g[u][x];
      } else {
        CrossingBound(g, start, sp, visited, c, q, u);
      }
    }
  }

  /** With every recorded node visited, nothing outside the visited set can be reached. */
  lemma {:induction false} NoEscape(g: Graph, start: Node, sp: map<Node, Record>, visited: set<Node>,
                                    p: seq<Node>, x: Node)
    requires visited <= sp.Keys && visited <= g.Keys && RelaxedFrom(g, sp, visited)
    requires sp.Keys <= visited && start in visited
    requires RouteFromTo(g, p, start, x)
    ensures x in visited
    decreases |p|
  {
    if |p| > 1 {
      PrefixRoute(g, p, start, x);
      NoEscape(g, start, sp, visited, p[..|p| - 1], p[|p| - 2]);
    }
  }

  // ---------------------------------------------------------------------
  // One expansion: relax the roads out of the current node
  // ---------------------------------------------------------------------

  /** The record of v after relaxing the road from u with weight-to-u w. */
  function Relaxed(sp: map<Node, Record>, u: Node, w: nat, dests: map<Node, nat>, v: Node): (r: Record)
    requires v in sp || v in dests
    ensures v in dests ==> r.1 <= w + dests[v]
    ensures v in sp ==> r.1 <= sp[v].1
  {
    if v in dests && (v !in sp || sp[v].1 > w + dests[v]) then (Some(u), w + dests[v]) else sp[v]
  }

  /**
   * The loop over destinations.items(): a road to an unrecorded node, or a
   * strictly lighter one, replaces the node's record.
   */
  method Relax(sp: map<Node, Record>, u: Node, w: nat, dests: map<Node, nat>) returns (sp': map<Node, Record>)
    ensures forall v :: v in sp' <==> v in sp || v in dests
    ensures forall v :: v in sp' ==> sp'[v] == Relaxed(sp, u, w, dests, v)
  {
    sp' := sp;
    var todo := dests.Keys;
    ghost var done: set<Node> := {};
    while todo != {}
      invariant forall v :: v in dests <==> v in todo || v in done
      invariant forall v :: v in todo ==> v !in done
      invariant forall v :: v in sp' <==> v in sp || v in done
      invariant forall v :: v in sp' && v !in done ==> sp'[v] == sp[v]
      invariant forall v :: v in done ==> sp'[v] == Relaxed(sp, u, w, dests, v)
      decreases |todo|
    {
      var nextNode :| nextNode in todo;
      var weight := dests[nextNode] + w;
      if nextNode !in sp' || sp'[nextNode].1 > weight {
        sp' := sp'[nextNode := (Some(u), weight)];
      }
      todo := todo - {nextNode};
      done := done + {nextNode};
    }
  }

  /** The facts one expansion of u starts from: u is least, and sp' is sp relaxed from u. */
  ghost predicate Expansion(g: Graph, sp: map<Node, Record>, visited: set<Node>, u: Node, sp': map<Node, Record>)
  {
    && visited <= sp.Keys && Least(sp, visited, u) && u in g
    && Layered(sp, visited)
    && (forall v :: v in sp' <==> v in sp || v in g[u])
    && (forall v :: v in sp' ==> sp'[v] == Relaxed(sp, u, sp[u].1, g[u], v))
  }

  /** The records of visited nodes, of u and of the start are not touched by the expansion of u. */
  lemma ExpandKeepsVisited(g: Graph, start: Node, sp: map<Node, Record>, visited: set<Node>, u: Node,
                           sp': map<Node, Record>, x: Node)
    requires Expansion(g, sp, visited, u, sp') && (x in visited || x == u || (x == start && start in sp && sp[start].1 == 0))
    ensures x in sp' && sp'[x] == sp[x]
  {
    if x in visited {
      assert sp[x].1 <= sp[u].1;
    }
  }

  /** The expansion of u keeps the record table a tree, now with u visited at the next rank. */
  lemma ExpandKeepsTree(g: Graph, start: Node, sp: map<Node, Record>, visited: set<Node>, rank: map<Node, nat>,
                        u: Node, sp': map<Node, Record>)
    requires Tree(g, start, sp, visited, rank) && Expansion(g, sp, visited, u, sp') && Closed(g)
    ensures Tree(g, start, sp', visited + {u}, rank[u := |visited|])
  {
    var visited', rank' := visited + {u}, rank[u := |visited|];
    ExpandKeepsVisited(g, start, sp, visited, u, sp', start);
    forall x | x in visited'
      ensures x in sp'
    {
      ExpandKeepsVisited(g, start, sp, visited, u, sp', x);
    }
    forall v | v in sp' && v != start
      ensures TreeEdge(g, sp', visited', rank', v)
    {
      if v in g[u] && (v !in sp || sp[v].1 > sp[u].1 + g[u][v]) {
        assert sp'[v] == (Some(u), sp[u].1 + g[u][v]);
        ExpandKeepsVisited(g, start, sp, visited, u, sp', u);
      } else {
        assert sp'[v] == sp[v];
        assert TreeEdge(g, sp, visited, rank, v);
        var pr := sp[v].0.value;
        ExpandKeepsVisited(g, start, sp, visited, u, sp', pr);
      }
    }
  }

  /** After the expansion of u the visited nodes, u included, are settled and relaxed, and lie below the rest. */
  lemma ExpandKeepsBounds(g: Graph, start: Node, sp: map<Node, Record>, visited: set<Node>, u: Node,
                          sp': map<Node, Record>)
    requires Expansion(g, sp, visited, u, sp') && visited <= g.Keys
    requires Settled(g, start, sp, visited) && RelaxedFrom(g, sp, visited) && Optimal(g, start, u, sp[u].1)
    ensures visited + {u} <= sp'.Keys && visited + {u} <= g.Keys
    ensures Settled(g, start, sp', visited + {u})
    ensures RelaxedFrom(g, sp', visited + {u})
    ensures Layered(sp', visited + {u})
  {
    var visited' := visited + {u};
    forall x | x in visited'
      ensures x in sp' && sp'[x] == sp[x]
    {
      ExpandKeepsVisited(g, start, sp, visited, u, sp', x);
    }
    forall x, v | x in visited' && v in g[x]
      ensures v in sp' && sp'[v].1 <= sp'[x].1 + g[x][v]
    {
      if x in visited {
        assert v in sp && sp[v].1 <= sp[x].1 + g[x][v];
      }
    }
    forall x, y | x in visited' && y in sp' && y !in visited'
      ensures sp'[x].1 <= sp'[y].1
    {
      assert x in visited ==> sp[x].1 <= sp[u].1;
      if y in sp {
        assert sp[u].1 <= sp[y].1;
      }
    }
  }

  /** The least unvisited record after an expansion is a shortest weight. */
  lemma ChosenIsOptimal(g: Graph, start: Node, sp: map<Node, Record>, visited: set<Node>, c: Node)
    requires visited <= sp.Keys && visited <= g.Keys && Settled(g, start, sp, visited)
    requires RelaxedFrom(g, sp, visited) && Least(sp, visited, c) && start in visited
    ensures Optimal(g, start, c, sp[c].1)
  {
    forall p | RouteFromTo(g, p, start, c)
      ensures sp[c].1 <= RouteWeight(g, p)
    {
      CrossingBound(g, start, sp, visited, c, p, c);
    }
  }

  /** min(next_destinations, key=weight): some unvisited record of least weight. */
  method PickLeast(sp: map<Node, Record>, visited: set<Node>) returns (c: Node)
    requires exists v :: v in sp && v !in visited
    ensures Least(sp, visited, c)
  {
    var frontier := set v | v in sp && v !in visited;
    ghost var v0 :| v0 in sp && v0 !in visited;
    assert v0 in frontier;
    var best :| best in frontier;
    var todo := frontier - {best};
    while todo != {}
      invariant best in frontier && todo <= frontier
      invariant forall w :: w in frontier && w !in todo ==> sp[best].1 <= sp[w].1
      decreases |todo|
    {
      var x :| x in todo;
      if sp[x].1 < sp[best].1 {
        best := x;
      }
      todo := todo - {x};
    }
    c := best;
  }

  /** The unvisited records of the table: next_destinations. */
  function Unvisited(sp: map<Node, Record>, visited: set<Node>): (r: set<Node>)
    ensures forall v :: v in r <==> v in sp && v !in visited
  {
    set v | v in sp && v !in visited
  }

  // ---------------------------------------------------------------------
  // Walking the predecessors back from the goal
  // ---------------------------------------------------------------------

  function Reverse(s: seq<Node>): (r: seq<Node>)
    ensures |r| == |s|
    ensures forall i :: 0 <= i < |s| ==> r[i] == s[|s| - 1 - i]
  {
    if s == [] then [] else Reverse(s[1..]) + [s[0]]
  }

  /** Appending to a sequence puts the new element first in its reversal. */
  lemma ReverseSnoc(s: seq<Node>, c: Node)
    ensures Reverse(s + [c]) == [c] + Reverse(s)
  {
    var r, t := Reverse(s + [c]), [c] + Reverse(s);
    assert forall i :: 0 <= i < |r| ==> r[i] == t[i];
  }

  /** The distance measure of the predecessor walk. */
  ghost function Height(visited: set<Node>, rank: map<Node, nat>, cur: Option<Node>): nat
    requires visited <= rank.Keys
  {
    match cur
    case None => 0
    case Some(c) => if c in visited then rank[c] + 1 else |visited| + 1
  }

  /**
   * The second loop: from the goal, append each node and step to its
   * predecessor until there is none; the reversal is a route from start to
   * goal whose weight is the goal's record.
   */
  method BuildPath(g: Graph, start: Node, goal: Node, sp: map<Node, Record>, ghost visited: set<Node>,
                   ghost rank: map<Node, nat>) returns (path: seq<Node>)
    requires Tree(g, start, sp, visited, rank) && goal in sp && goal !in visited
    ensures RouteFromTo(g, path, start, goal) && RouteWeight(g, path) == sp[goal].1
  {
    var steps: seq<Node> := [];
    ghost var fwd: seq<Node> := [];
    var currentNode: Option<Node> := Some(goal);
    while currentNode.Some?
      invariant currentNode.Some? ==> currentNode.value in sp
      invariant fwd == Reverse(steps)
      invariant steps == [] ==> currentNode == Some(goal)
      invariant steps != [] ==>
        && RouteFromTo(g, fwd, fwd[0], goal) && fwd[0] in sp
        && RouteWeight(g, fwd) + sp[fwd[0]].1 == sp[goal].1
        && currentNode == sp[fwd[0]].0
        && (currentNode.None? ==> fwd[0] == start)
        && (currentNode.Some? && fwd[0] in visited ==> currentNode.value in visited && rank[currentNode.value] < rank[fwd[0]])
        && (currentNode.Some? ==> currentNode.value in visited)
      decreases Height(visited, rank, currentNode)
    {
      var c := currentNode.value;
      if steps != [] {
        assert TreeEdge(g, sp, visited, rank, fwd[0]);
        WeightCons(g, c, fwd);
      }
      ghost var h := Height(visited, rank, currentNode);
      steps := steps + [c];
      ReverseSnoc(steps[..|steps| - 1], c);
      assert steps[..|steps| - 1] + [c] == steps;
      fwd := [c] + fwd;
      var nextNode := sp[c].0;
      if c != start {
        assert TreeEdge(g, sp, visited, rank, c);
      }
      currentNode := nextNode;
      assert Height(visited, rank, currentNode) < h;
    }
    path := Reverse(steps);
  }

  // ---------------------------------------------------------------------
  // dijkstra_shortest_path
  // ---------------------------------------------------------------------

  /**
   * dijkstra_shortest_path: [start] when start is the goal; otherwise a
   * lightest route from start to goal, or None when the goal cannot be
   * reached. Of several lightest candidates, min may take any.
   */
  method DijkstraShortestPath(g: Graph, start: Node, goal: Node) returns (r: Option<seq<Node>>)
    requires Closed(g) && (start == goal || start in g)
    ensures start == goal ==> r == Some([start])
    ensures r.Some? ==> RouteFromTo(g, r.value, start, goal)
    ensures r.Some? ==> forall p :: RouteFromTo(g, p, start, goal) ==> RouteWeight(g, r.value) <= RouteWeight(g, p)
    ensures r.None? <==> !Connected(g, start, goal)
  {
    if start == goal {
      assert RouteFromTo(g, [start], start, goal);
      return Some([start]);
    }
    var shortestPaths: map<Node, Record> := map[start := (None, 0)];
    var currentNode := start;
    var visited: set<Node> := {};
    ghost var rank: map<Node, nat> := map[];
    while currentNode != goal
      invariant LoopInv(g, start, goal, shortestPaths, visited, rank, currentNode)
      decreases |g.Keys - visited|
    {
      Fewer(g.Keys, visited, currentNode);
      var next;
      shortestPaths, visited, rank, next := Visit(g, start, goal, shortestPaths, visited, rank, currentNode);
      if next.None? {
        return None;
      }
      currentNode := next.value;
    }
    var path := BuildPath(g, start, goal, shortestPaths, visited, rank);
    return Some(path);
  }

  /**
   * One pass of the main loop: visit the current node, relax its roads, and
   * take the least unvisited record next, or None when there is none left.
   */
  method Visit(g: Graph, start: Node, goal: Node, sp: map<Node, Record>, visited: set<Node>,
               ghost rank: map<Node, nat>, currentNode: Node)
    returns (sp': map<Node, Record>, visited': set<Node>, ghost rank': map<Node, nat>, next: Option<Node>)
    requires Closed(g) && LoopInv(g, start, goal, sp, visited, rank, currentNode) && currentNode != goal
    ensures visited' == visited + {currentNode}
    ensures next.Some? ==> LoopInv(g, start, goal, sp', visited', rank', next.value)
    ensures next.None? ==> !Connected(g, start, goal)
  {
    visited' := visited + {currentNode};
    assert goal !in visited' && start in visited';
    rank' := rank[currentNode := |visited|];
    var destinations := g[currentNode];
    var weightToCurrentNode := sp[currentNode].1;
    sp' := Relax(sp, currentNode, weightToCurrentNode, destinations);
    assert Expansion(g, sp, visited, currentNode, sp');
    ExpandKeepsTree(g, start, sp, visited, rank, currentNode, sp');
    ExpandKeepsBounds(g, start, sp, visited, currentNode, sp');
    var nextDestinations := Unvisited(sp', visited');
    if nextDestinations == {} {
      forall p | RouteFromTo(g, p, start, goal)
        ensures false
      {
        NoEscape(g, start, sp', visited', p, goal);
      }
      return sp', visited', rank', None;
    }
    var c := PickLeast(sp', visited');
    ChosenIsOptimal(g, start, sp', visited', c);
    next := Some(c);
  }

  // ---------------------------------------------------------------------
  // Vehicle.drive
  // ---------------------------------------------------------------------

  /** The waits taken over the first n hops: waits[i] when the light at route[i + 1] is red. */
  function RedWaits(lights: map<Node, LightState>, route: seq<Node>, waits: seq<nat>, n: nat): nat
    requires n < |route| && |waits| + 1 >= |route|
    requires forall i :: 1 <= i < |route| ==> route[i] in lights
  {
    if n == 0 then 0
    else RedWaits(lights, route, waits, n - 1) + (if lights[route[n]] == Red then waits[n - 1] else 0)
  }

  /** How many of the first n hops end at a red light. */
  function RedCount(lights: map<Node, LightState>, route: seq<Node>, n: nat): nat
    requires n < |route|
    requires forall i :: 1 <= i < |route| ==> route[i] in lights
  {
    if n == 0 then 0 else RedCount(lights, route, n - 1) + (if lights[route[n]] == Red then 1 else 0)
  }

  /** Each red light costs between 30 and 90 seconds. */
  lemma {:induction false} RedWaitsBounds(lights: map<Node, LightState>, route: seq<Node>, waits: seq<nat>, n: nat)
    requires n < |route| && |waits| + 1 >= |route|
    requires forall i :: 1 <= i < |route| ==> route[i] in lights
    requires forall i :: 0 <= i < |waits| ==> 30 <= waits[i] <= 90
    ensures 30 * RedCount(lights, route, n) <= RedWaits(lights, route, waits, n) <= 90 * RedCount(lights, route, n)
  {
    if n > 0 {
      RedWaitsBounds(lights, route, waits, n - 1);
    }
  }

  /**
   * Vehicle.drive: each hop waits waits[i] at a red light at the next node,
   * then takes the road's weight; the total is the route's weight plus the
   * waits at red lights.
   */
  method Drive(g: Graph, lights: map<Node, LightState>, route: seq<Node>, waits: seq<nat>) returns (totalTime: nat)
    requires IsRoute(g, route) && |waits| + 1 == |route|
    requires forall i :: 1 <= i < |route| ==> route[i] in lights
    ensures totalTime == RouteWeight(g, route) + RedWaits(lights, route, waits, |route| - 1)
  {
    totalTime := 0;
    for i := 0 to |route| - 1
      invariant IsRoute(g, route[..i + 1])
      invariant totalTime == RouteWeight(g, route[..i + 1]) + RedWaits(lights, route, waits, i)
    {
      var currentNode := route[i];
      var nextNode := route[i + 1];
      var travelTime := g[currentNode][nextNode];
      if lights[nextNode] == Red {
        var waitTime := waits[i];
        totalTime := totalTime + waitTime;
      }
      totalTime := totalTime + travelTime;
      assert route[..i + 2][..i + 1] == route[..i + 1];
      assert IsRoute(g, route[..i + 2]);
    }
    assert route[..|route|] == route;
  }
}
