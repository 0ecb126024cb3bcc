/**
 * The traffic light at one junction: it samples the densities of its incoming
 * roads, keeps a bounded history of those samples, chooses a green time either
 * from the current density or, at smart intersections with enough history, from
 * a first-order transition model of the history, and then runs GREEN, YELLOW
 * and RED phases that fill its base cycle.
 */
module Signals {
  import opened Enums
  import opened Roads

  const HighwayIntersection: string := "highway_intersection"
  const CityIntersection: string := "city_intersection"
  const RuralIntersection: string := "rural_intersection"
  const SmartIntersection: string := "smart_intersection"

  /** Length of the yellow phase. */
  const YellowTime: int := 5
  /** How many density samples a light keeps. */
  const MaxHistory: nat := 100
  /** Green time the transition model falls back to without two samples. */
  const DefaultDpGreen: int := 30

  /** TrafficLight.TRAFFIC_FACTOR: how much of a junction's demand a road brings. */
  function SignalFactor(c: TrafficCondition): (f: real)
    ensures 0.2 <= f <= 1.0
    ensures f == 1.0 <==> c == Congested
  {
    match c
    case Light => 0.2
    case Moderate => 0.4
    case Heavy => 0.7
    case Congested => 1.0
  }

  /** Heavier congestion always brings more demand. */
  lemma SignalFactorIncreasing(a: TrafficCondition, b: TrafficCondition)
    requires a.Index() < b.Index()
    ensures SignalFactor(a) < SignalFactor(b)
  {
  }

  predicate IsSignalFactor(v: real)
  {
    v == 0.2 || v == 0.4 || v == 0.7 || v == 1.0
  }

  // ---------------------------------------------------------------------
  // Sampling the incoming roads
  // ---------------------------------------------------------------------

  /** The roads whose target is loc, in edge order: in_edges(location). */
  function IncomingEdges(edges: seq<EdgeKey>, loc: Location): (r: seq<EdgeKey>)
    ensures forall e :: e in r <==> e in edges && e.1 == loc
    ensures InOrderOf(r, edges)
    ensures NoDup(edges) ==> NoDup(r)
  {
    if edges == [] then
      assert Picks([], [], edges);
      []
    else
      var last := edges[|edges| - 1];
      var front := IncomingEdges(edges[..|edges| - 1], loc);
      assert NoDup(edges) ==> last !in edges[..|edges| - 1];
      assert edges[..|edges| - 1] + [last] == edges;
      InOrderSnoc(front, edges[..|edges| - 1], last);
      if last.1 == loc then front + [last] else front
  }

  /** Over a duplicate-free edge list there is one incoming entry per distinct road into loc. */
  lemma {:induction false} IncomingCountsRoads(edges: seq<EdgeKey>, loc: Location)
    requires NoDup(edges)
    ensures |IncomingEdges(edges, loc)| == |set e | e in edges && e.1 == loc|
    decreases |edges|
  {
    if edges != [] {
      var front := edges[..|edges| - 1];
      var last := edges[|edges| - 1];
      assert edges == front + [last];
      assert NoDup(front) && last !in front;
      IncomingCountsRoads(front, loc);
      EnteringSplit(front, last, loc);
    }
  }

  /** The roads into loc among front + [last] are those among front, and last if it enters loc. */
  lemma EnteringSplit(front: seq<EdgeKey>, last: EdgeKey, loc: Location)
    ensures (set e | e in front + [last] && e.1 == loc)
         == (set e | e in front && e.1 == loc) + (if last.1 == loc then {last} else {})
  {
    var after, before := set e | e in front + [last] && e.1 == loc, set e | e in front && e.1 == loc;
    forall e
      ensures e in after <==> e in before + (if last.1 == loc then {last} else {})
    {
      assert e in front + [last] <==> e in front || e == last;
    }
  }

  /** The factors of the roads whose target is loc: one per incoming road, in edge order. */
  function IncomingFactors(edges: seq<EdgeKey>, data: map<EdgeKey, RoadData>, loc: Location): (r: seq<real>)
    requires forall e :: e in edges ==> e in data
    ensures |r| == |IncomingEdges(edges, loc)| <= |edges|
    ensures forall k {:trigger r[k]} :: 0 <= k < |r| ==> r[k] == SignalFactor(data[IncomingEdges(edges, loc)[k]].condition)
    ensures forall j :: 0 <= j < |r| ==> IsSignalFactor(r[j])
    ensures forall e :: e in edges && e.1 == loc ==> SignalFactor(data[e].condition) in r
    ensures forall v :: v in r ==> exists e :: e in edges && e.1 == loc && v == SignalFactor(data[e].condition)
  {
    if edges == [] then []
    else
      var last := edges[|edges| - 1];
      var front := IncomingFactors(edges[..|edges| - 1], data, loc);
      if last.1 == loc then front + [SignalFactor(data[last].condition)] else front
  }

  /** Scanning one more edge appends its factor exactly when it ends at loc. */
  lemma IncomingFactorsStep(edges: seq<EdgeKey>, data: map<EdgeKey, RoadData>, loc: Location, i: nat)
    requires forall e :: e in edges ==> e in data
    requires i < |edges|
    ensures IncomingFactors(edges[..i + 1], data, loc)
            == IncomingFactors(edges[..i], data, loc)
               + (if edges[i].1 == loc then [SignalFactor(data[edges[i]].condition)] else [])
  {
    assert edges[..i + 1][..i] == edges[..i];
  }

  ghost predicate SortedDesc(s: seq<real>)
  {
    forall i, j :: 0 <= i < j < |s| ==> s[i] >= s[j]
  }

  lemma ConsSortedDesc(h: real, t: seq<real>)
    requires SortedDesc(t) && forall j :: 0 <= j < |t| ==> t[j] <= h
    ensures SortedDesc([h] + t)
  {
    var r := [h] + t;
    forall i, j | 0 <= i < j < |r|
      ensures r[i] >= r[j]
    {
      if i > 0 {
        assert r[i] == t[i - 1] && r[j] == t[j - 1];
      }
    }
  }

  function InsertDesc(x: real, s: seq<real>): (r: seq<real>)
    requires SortedDesc(s)
    ensures SortedDesc(r)
    ensures multiset(r) == multiset(s) + multiset{x}
    ensures |r| == |s| + 1
  {
    if s == [] || x >= s[0] then
      ConsSortedDesc(x, s);
      [x] + s
    else
      var rest := InsertDesc(x, s[1..]);
      assert s == [s[0]] + s[1..];
      assert forall j :: 0 <= j < |rest| ==> rest[j] <= s[0] by {
        forall j | 0 <= j < |rest|
          ensures rest[j] <= s[0]
        {
          assert rest[j] in multiset(rest);
          if rest[j] != x {
            assert rest[j] in multiset(s[1..]);
            var k :| 0 <= k < |s[1..]| && s[1..][k] == rest[j];
            assert s[k + 1] == rest[j];
          }
        }
      }
      ConsSortedDesc(s[0], rest);
      [s[0]] + rest
  }

  /** list.sort(key=value, reverse=True) on the sampled values. */
  function SortDesc(s: seq<real>): (r: seq<real>)
    ensures SortedDesc(r)
    ensures multiset(r) == multiset(s)
    ensures |r| == |s|
  {
    if s == [] then []
    else
      assert s == [s[0]] + s[1..];
      InsertDesc(s[0], SortDesc(s[1..]))
  }

  /** Sorting leaves every sampled value a table value. */
  lemma SortKeepsFactors(s: seq<real>)
    requires forall j :: 0 <= j < |s| ==> IsSignalFactor(s[j])
    ensures forall j :: 0 <= j < |SortDesc(s)| ==> IsSignalFactor(SortDesc(s)[j])
  {
    var r := SortDesc(s);
    forall j | 0 <= j < |r|
      ensures IsSignalFactor(r[j])
    {
      assert r[j] in multiset(s);
    }
  }

  function Sum(s: seq<real>): (r: real)
    ensures (forall j :: 0 <= j < |s| ==> s[j] >= 0.0) ==> r >= 0.0
    ensures (forall j :: 0 <= j < |s| ==> s[j] <= 1.0) ==> r <= |s| as real
  {
    if s == [] then 0.0 else s[0] + Sum(s[1..])
  }

  /** sum(values) / max(1, len(values)): the mean density, 0 for a junction no road enters. */
  function Density(s: seq<real>): (d: real)
    ensures s == [] ==> d == 0.0
    ensures (forall j :: 0 <= j < |s| ==> s[j] >= 0.0) ==> d >= 0.0
    ensures (forall j :: 0 <= j < |s| ==> 0.0 <= s[j] <= 1.0) ==> 0.0 <= d <= 1.0
  {
    var n := (if |s| > 1 then |s| else 1) as real;
    if (forall j :: 0 <= j < |s| ==> 0.0 <= s[j] <= 1.0) then
      MeanBounds(Sum(s), n, 0.0, 1.0);
      Sum(s) / n
    else
      Sum(s) / n
  }

  // ---------------------------------------------------------------------
  // Density-based green time
  // ---------------------------------------------------------------------

  /** The junction_multipliers table, 1.0 for an unknown junction type. */
  function JunctionMultiplier(junctionType: string): (m: real)
    ensures 0.7 <= m <= 1.5
    ensures (junctionType != HighwayIntersection && junctionType != RuralIntersection
             && junctionType != SmartIntersection) ==> m == 1.0
  {
    if junctionType == HighwayIntersection then 0.7
    else if junctionType == CityIntersection then 1.0
    else if junctionType == RuralIntersection then 1.3
    else if junctionType == SmartIntersection then 1.5
    else 1.0
  }

  /**
   * optimize_green_time: half the weighted density, floored, clamped to
   * [10, 60].
   */
  function OptimizeGreenTime(junctionType: string, trafficDensity: real): (g: int)
    ensures 10 <= g <= 60
    ensures g == 60 <==> trafficDensity * JunctionMultiplier(junctionType) >= 120.0
    ensures g == 10 <==> trafficDensity * JunctionMultiplier(junctionType) < 22.0
    ensures 10 < g < 60 ==> g as real <= trafficDensity * JunctionMultiplier(junctionType) / 2.0 < g as real + 1.0
  {
    var halved := (trafficDensity * JunctionMultiplier(junctionType) / 2.0).Floor as real;
    var upper := if halved < 60.0 then halved else 60.0;
    var clamped := if 10.0 > upper then 10.0 else upper;
    clamped.Floor
  }

  /** More traffic never shortens the green phase. */
  lemma {:induction false} GreenTimeMonotone(junctionType: string, d1: real, d2: real)
    requires d1 <= d2
    ensures OptimizeGreenTime(junctionType, d1) <= OptimizeGreenTime(junctionType, d2)
  {
    var m := JunctionMultiplier(junctionType);
    var x1, x2 := d1 * m / 2.0, d2 * m / 2.0;
    assert x1 <= x2;
    assert x1.Floor <= x2.Floor;
  }

  // ---------------------------------------------------------------------
  // The transition model of optimize_signals_dp
  // ---------------------------------------------------------------------

  /** min(int(mean * 5), 4): one of five demand levels. */
  function Discretize(snapshot: seq<real>): (level: nat)
    requires forall j :: 0 <= j < |snapshot| ==> snapshot[j] >= 0.0
    ensures level <= 4
    ensures snapshot == [] ==> level == 0
    ensures level == 4 <==> Density(snapshot) * 5.0 >= 4.0
    ensures level < 4 ==> level as real <= Density(snapshot) * 5.0 < level as real + 1.0
  {
    var d := Density(snapshot);
    assert d >= 0.0;
    var f := (d * 5.0).Floor;
    if f < 4 then f else 4
  }

  ghost predicate NonNegative(history: seq<seq<real>>)
  {
    forall i, j :: 0 <= i < |history| && 0 <= j < |history[i]| ==> history[i][j] >= 0.0
  }

  /** The discretized_states of a history, one level per sample. */
  function Levels(history: seq<seq<real>>): (ls: seq<nat>)
    requires NonNegative(history)
    ensures |ls| == |history|
    ensures forall k :: 0 <= k < |ls| ==> ls[k] < 5 && ls[k] == Discretize(history[k])
  {
    if history == [] then []
    else Levels(history[..|history| - 1]) + [Discretize(history[|history| - 1])]
  }

  /** How often level a is followed directly by level b. */
  function Count(ls: seq<nat>, a: nat, b: nat): nat
    decreases |ls|
  {
    if |ls| < 2 then 0
    else Count(ls[..|ls| - 1], a, b) + (if ls[|ls| - 2] == a && ls[|ls| - 1] == b then 1 else 0)
  }

  /** Row a of the transition-count matrix. */
  function CountRow(ls: seq<nat>, a: nat): (row: seq<real>)
    ensures |row| == 5
  {
    seq(5, b requires 0 <= b < 5 => Count(ls, a, b) as real)
  }

  function RowTotal(ls: seq<nat>, a: nat): nat
  {
    Count(ls, a, 0) + Count(ls, a, 1) + Count(ls, a, 2) + Count(ls, a, 3) + Count(ls, a, 4)
  }

  /** Every transition lands in exactly one cell: the matrix counts n - 1 of them. */
  lemma {:induction false} TransitionTotal(ls: seq<nat>)
    requires |ls| >= 1
    requires forall k :: 0 <= k < |ls| ==> ls[k] < 5
    ensures RowTotal(ls, 0) + RowTotal(ls, 1) + RowTotal(ls, 2) + RowTotal(ls, 3) + RowTotal(ls, 4) == |ls| - 1
    decreases |ls|
  {
    if |ls| >= 2 {
      var pre := ls[..|ls| - 1];
      TransitionTotal(pre);
      RowStep(ls, 0);
      RowStep(ls, 1);
      RowStep(ls, 2);
      RowStep(ls, 3);
      RowStep(ls, 4);
    }
  }

  /** Appending a level adds one transition, to the row of the level before it. */
  lemma RowStep(ls: seq<nat>, a: nat)
    requires |ls| >= 2 && ls[|ls| - 1] < 5
    ensures RowTotal(ls, a) == RowTotal(ls[..|ls| - 1], a) + (if ls[|ls| - 2] == a then 1 else 0)
  {
  }

  /** np.argmax: the first position of the largest entry. */
  function ArgMax(row: seq<real>): (k: nat)
    requires |row| > 0
    ensures k < |row|
    ensures forall j :: 0 <= j < |row| ==> row[j] <= row[k]
    ensures forall j :: 0 <= j < k ==> row[j] < row[k]
    decreases |row|
  {
    if |row| == 1 then 0
    else
      var k := ArgMax(row[..|row| - 1]);
      if row[|row| - 1] > row[k] then |row| - 1 else k
  }

  /** The first maximum is the only position with the two ArgMax properties. */
  lemma ArgMaxUnique(row: seq<real>, k: nat)
    requires k < |row|
    requires forall j :: 0 <= j < |row| ==> row[j] <= row[k]
    requires forall j :: 0 <= j < k ==> row[j] < row[k]
    ensures ArgMax(row) == k
  {
  }

  /** Normalising a row by its positive total does not move its first maximum. */
  lemma ArgMaxScaled(row: seq<real>, scaled: seq<real>, total: real)
    requires |row| > 0 && |scaled| == |row| && total > 0.0
    requires forall j :: 0 <= j < |row| ==> scaled[j] == row[j] / total
    ensures ArgMax(scaled) == ArgMax(row)
  {
    var k := ArgMax(row);
    forall j | 0 <= j < |row|
      ensures scaled[j] <= scaled[k]
      ensures j < k ==> scaled[j] < scaled[k]
    {
      DivideMonotone(row[j], row[k], total);
      if j < k {
        DivideStrict(row[j], row[k], total);
      }
    }
    ArgMaxUnique(scaled, k);
  }

  lemma DivideMonotone(x: real, y: real, t: real)
    requires x <= y && t > 0.0
    ensures x / t <= y / t
  {
    assert x / t * t == x && y / t * t == y;
  }

  lemma DivideStrict(x: real, y: real, t: real)
    requires x < y && t > 0.0
    ensures x / t < y / t
  {
    assert x / t * t == x && y / t * t == y;
  }

  /** int(15 + p / 4 * 45): the green time of a predicted level. */
  function GreenForLevel(p: nat): (g: int)
    requires p < 5
    ensures 4 * g <= 60 + 45 * p < 4 * g + 4
    ensures g == 15 || g == 26 || g == 37 || g == 48 || g == 60
  {
    (15.0 + (p as real / 4.0) * 45.0).Floor
  }

  /** The next level the transition model predicts from the last one. */
  function PredictedLevel(ls: seq<nat>): (p: nat)
    requires |ls| > 0
    ensures p < 5
  {
    ArgMax(CountRow(ls, ls[|ls| - 1]))
  }

  /** optimize_signals_dp as a value: 30 without two samples, else the green time of the predicted level. */
  function DpGreenTime(history: seq<seq<real>>): (g: int)
    requires NonNegative(history)
    ensures |history| < 2 ==> g == DefaultDpGreen
    ensures |history| >= 2 ==> g == 15 || g == 26 || g == 37 || g == 48 || g == 60
    ensures 15 <= g <= 60
  {
    if |history| < 2 then DefaultDpGreen
    else GreenForLevel(PredictedLevel(Levels(history)))
  }

  /** The matrix cell after the normalisation pass over rows. */
  function Normalised(ls: seq<nat>, a: nat, b: nat): real
  {
    if RowTotal(ls, a) > 0 then Count(ls, a, b) as real / RowTotal(ls, a) as real else Count(ls, a, b) as real
  }

  lemma CountStep(ls: seq<nat>, i: nat, a: nat, b: nat)
    requires 1 <= i < |ls|
    ensures Count(ls[..i + 1], a, b) == Count(ls[..i], a, b) + (if ls[i - 1] == a && ls[i] == b then 1 else 0)
  {
    assert ls[..i + 1][..i] == ls[..i];
  }

  /**
   * optimize_signals_dp: discretize the history, count the transitions in a
   * 5 x 5 matrix, normalise each non-empty row, and map the most likely
   * successor of the last level to a green time.
   */
  method OptimizeSignalsDp(history: seq<seq<real>>) returns (g: int)
    requires NonNegative(history)
    ensures g == DpGreenTime(history)
  {
    var n := |history|;
    if n < 2 {
      return DefaultDpGreen;
    }
    var ls := DiscretizeAll(history);
    var transitions := CountTransitions(ls);
    NormaliseRows(transitions, ls);

    var current := ls[n - 1];
    var probs := [transitions[current, 0], transitions[current, 1], transitions[current, 2],
                  transitions[current, 3], transitions[current, 4]];
    var predicted := ArgMax(probs);
    var row := CountRow(ls, current);
    if RowTotal(ls, current) > 0 {
      ArgMaxScaled(row, probs, RowTotal(ls, current) as real);
    } else {
      assert probs == row;
    }
    g := (15.0 + (predicted as real / 4.0) * 45.0).Floor;
  }

  /** The discretization loop of optimize_signals_dp. */
  method DiscretizeAll(history: seq<seq<real>>) returns (ls: seq<nat>)
    requires NonNegative(history)
    ensures ls == Levels(history)
  {
    ls := [];
    for i := 0 to |history|
      invariant ls == Levels(history[..i])
    {
      assert history[..i + 1][..i] == history[..i];
      ls := ls + [Discretize(history[i])];
    }
    assert history[..|history|] == history;
  }

  /** The counting loop of optimize_signals_dp, into a fresh zeroed 5 x 5 matrix. */
  method CountTransitions(ls: seq<nat>) returns (transitions: array2<real>)
    requires forall k :: 0 <= k < |ls| ==> ls[k] < 5
    ensures fresh(transitions) && transitions.Length0 == 5 && transitions.Length1 == 5
    ensures forall a, b :: 0 <= a < 5 && 0 <= b < 5 ==> transitions[a, b] == Count(ls, a, b) as real
  {
    transitions := new real[5, 5]((a, b) => 0.0);
    if |ls| < 2 {
      return;
    }
    for i := 1 to |ls|
      invariant forall a, b :: 0 <= a < 5 && 0 <= b < 5 ==> transitions[a, b] == Count(ls[..i], a, b) as real
    {
      forall a, b | 0 <= a < 5 && 0 <= b < 5 {
        CountStep(ls, i, a, b);
      }
      transitions[ls[i - 1], ls[i]] := transitions[ls[i - 1], ls[i]] + 1.0;
    }
    assert ls[..|ls|] == ls;
  }

  /** The normalisation pass: each row with a positive total is divided by it. */
  method NormaliseRows(transitions: array2<real>, ls: seq<nat>)
    requires transitions.Length0 == 5 && transitions.Length1 == 5
    requires forall a, b :: 0 <= a < 5 && 0 <= b < 5 ==> transitions[a, b] == Count(ls, a, b) as real
    modifies transitions
    ensures forall a, b :: 0 <= a < 5 && 0 <= b < 5 ==> transitions[a, b] == Normalised(ls, a, b)
  {
    for a := 0 to 5
      invariant forall r, b :: 0 <= r < a && 0 <= b < 5 ==> transitions[r, b] == Normalised(ls, r, b)
      invariant forall r, b :: a <= r < 5 && 0 <= b < 5 ==> transitions[r, b] == Count(ls, r, b) as real
    {
      var rowSum := transitions[a, 0] + transitions[a, 1] + transitions[a, 2] + transitions[a, 3] + transitions[a, 4];
      assert rowSum == RowTotal(ls, a) as real;
      if rowSum > 0.0 {
        for b := 0 to 5
          invariant forall r, c :: 0 <= r < a && 0 <= c < 5 ==> transitions[r, c] == Normalised(ls, r, c)
          invariant forall r, c :: a < r < 5 && 0 <= c < 5 ==> transitions[r, c] == Count(ls, r, c) as real
          invariant forall c :: 0 <= c < b ==> transitions[a, c] == Normalised(ls, a, c)
          invariant forall c :: b <= c < 5 ==> transitions[a, c] == Count(ls, a, c) as real
        {
          transitions[a, b] := transitions[a, b] / rowSum;
        }
      }
    }
  }

  /** traffic_history.append(entry), then drop the oldest entry past 100. */
  function Remember(history: seq<seq<real>>, entry: seq<real>): (h: seq<seq<real>>)
    ensures |h| > 0 && h[|h| - 1] == entry
    ensures |history| < MaxHistory ==> h == history + [entry]
    ensures |history| >= MaxHistory ==> h == history[1..] + [entry]
    ensures |history| <= MaxHistory ==> |h| <= MaxHistory
  {
    var h := history + [entry];
    if |h| > MaxHistory then h[1..] else h
  }

  /** A light's history only ever holds sorted table values and keeps its bound. */
  ghost predicate GoodHistory(history: seq<seq<real>>)
  {
    && |history| <= MaxHistory
    && (forall i, j :: 0 <= i < |history| && 0 <= j < |history[i]| ==> IsSignalFactor(history[i][j]))
    && (forall i :: 0 <= i < |history| ==> SortedDesc(history[i]))
  }

  lemma RememberKeepsGood(history: seq<seq<real>>, entry: seq<real>)
    requires GoodHistory(history)
    requires SortedDesc(entry) && forall j :: 0 <= j < |entry| ==> IsSignalFactor(entry[j])
    ensures GoodHistory(Remember(history, entry))
    ensures NonNegative(Remember(history, entry))
  {
    var h := Remember(history, entry);
    assert forall i :: 0 <= i < |h| - 1 ==> h[i] in history;
  }

  /** The green time the light chooses for a freshly remembered history. */
  function ChosenGreen(adaptive: bool, junctionType: string, history: seq<seq<real>>, sample: seq<real>): (g: int)
    requires NonNegative(history)
    ensures 10 <= g <= 60
    ensures !adaptive || |history| <= 10 ==> g == OptimizeGreenTime(junctionType, Density(sample) * 100.0)
    ensures adaptive && |history| > 10 ==> g == DpGreenTime(history) && 15 <= g
  {
    if adaptive && |history| > 10 then DpGreenTime(history)
    else OptimizeGreenTime(junctionType, Density(sample) * 100.0)
  }

  /** The branch of run() that picks the green time from the history or the latest sample. */
  method ChooseGreen(adaptive: bool, junctionType: string, history: seq<seq<real>>, sample: seq<real>)
    returns (green: int)
    requires NonNegative(history)
    ensures green == ChosenGreen(adaptive, junctionType, history, sample)
  {
    if adaptive && |history| > 10 {
      green := OptimizeSignalsDp(history);
    } else {
      green := OptimizeGreenTime(junctionType, Density(sample) * 100.0);
    }
  }

  class TrafficLight {
    const location: Location
    const junctionType: string
    const baseCycleTime: int
    const adaptive: bool
    var state: LightState
    var history: seq<seq<real>>

    ghost predicate Valid()
      reads this
    {
      GoodHistory(history)
    }

    constructor (location: Location, junctionType: string, cycleTime: int)
      ensures this.location == location && this.junctionType == junctionType
      ensures baseCycleTime == cycleTime
      ensures adaptive <==> junctionType == SmartIntersection
      ensures state == Red && history == []
      ensures Valid()
    {
      this.location := location;
      this.junctionType := junctionType;
      baseCycleTime := cycleTime;
      adaptive := junctionType == SmartIntersection;
      state := Red;
      history := [];
    }

    /** The scan over the network's edges for roads that end at this junction. */
    method IncomingTraffic(net: Network) returns (values: seq<real>)
      requires WellFormed(net)
      ensures values == IncomingFactors(net.edges, net.data, location)
    {
      values := [];
      for i := 0 to |net.edges|
        invariant values == IncomingFactors(net.edges[..i], net.data, location)
      {
        var e := net.edges[i];
        IncomingFactorsStep(net.edges, net.data, location, i);
        if e.1 == location {
          values := values + [SignalFactor(net.data[e].condition)];
        }
      }
      assert net.edges[..|net.edges|] == net.edges;
    }

    /** The first phase of a cycle: sample, remember, choose the green time, turn GREEN. */
    method StartGreen(net: Network) returns (green: int)
      requires Valid() && WellFormed(net)
      modifies this
      ensures var sample := SortDesc(IncomingFactors(net.edges, net.data, location));
        && history == Remember(old(history), sample)
        && NonNegative(history)
        && green == ChosenGreen(adaptive, junctionType, history, sample)
      ensures state == Green && Valid()
    {
      var incoming := IncomingTraffic(net);
      var sorted := SortDesc(incoming);
      SortKeepsFactors(incoming);
      RememberKeepsGood(history, sorted);
      history := Remember(history, sorted);
      green := ChooseGreen(adaptive, junctionType, history, sorted);
      state := Green;
    }

    method StartYellow() returns (duration: int)
      modifies this`state
      ensures state == Yellow && duration == YellowTime
    {
      state := Yellow;
      duration := YellowTime;
    }

    method StartRed(green: int) returns (duration: int)
      modifies this`state
      ensures state == Red && duration == baseCycleTime - green - YellowTime
    {
      state := Red;
      duration := baseCycleTime - green - YellowTime;
    }

    /**
     * One pass of run(): the three phase lengths, which fill the base cycle.
     * The simulated waits between the phases are not modelled.
     */
    method RunCycle(net: Network) returns (green: int, yellow: int, red: int)
      requires Valid() && WellFormed(net)
      modifies this
      ensures var sample := SortDesc(IncomingFactors(net.edges, net.data, location));
        && history == Remember(old(history), sample)
        && NonNegative(history)
        && green == ChosenGreen(adaptive, junctionType, history, sample)
      ensures green + yellow + red == baseCycleTime
      ensures 10 <= green <= 60 && yellow == YellowTime
      ensures baseCycleTime >= 65 ==> red >= 0
      ensures state == Red && Valid()
    {
      green := StartGreen(net);
      yellow := StartYellow();
      red := StartRed(green);
    }
  }
}
