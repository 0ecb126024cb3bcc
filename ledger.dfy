/**
 * The trip ledger of the traffic manager: the records a finished trip leaves,
 * the merge sort that orders them by travel time, and the statistics computed
 * over the sorted ledger (trip count, mean time, fastest and slowest trip, the
 * most congested roads and per-class counts).
 */
module Ledger {
  import opened Enums
  import opened Roads

  /** One travelled road, as a vehicle records it. */
  datatype Segment = Segment(from: Location, to: Location, distance: real, roadType: string,
                             traffic: string, travelTime: real)

  /** One entry of trip_records. */
  datatype TripRecord = TripRecord(vehicleId: string, vehicleType: VehicleType, start: Location,
                                   destination: Location, route: seq<Location>, travelTime: real,
                                   timestamp: real, travelData: seq<Segment>)

  ghost predicate SortedByTime(s: seq<TripRecord>)
  {
    forall i, j :: 0 <= i < j < |s| ==> s[i].travelTime <= s[j].travelTime
  }

  // ---------------------------------------------------------------------
  // Merge sort
  // ---------------------------------------------------------------------

  /**
   * What merge builds: the smaller head first, and on equal travel times the
   * head of the right list.
   */
  function Merged(left: seq<TripRecord>, right: seq<TripRecord>): (m: seq<TripRecord>)
    ensures multiset(m) == multiset(left) + multiset(right)
    ensures |m| == |left| + |right|
    decreases |left| + |right|
  {
    if left == [] then right
    else if right == [] then left
    else if left[0].travelTime < right[0].travelTime then
      assert left == [left[0]] + left[1..];
      [left[0]] + Merged(left[1..], right)
    else
      assert right == [right[0]] + right[1..];
      [right[0]] + Merged(left, right[1..])
  }

  /** Merging two sorted lists gives a sorted list. */
  lemma {:induction false} MergedSorted(left: seq<TripRecord>, right: seq<TripRecord>)
    requires SortedByTime(left) && SortedByTime(right)
    ensures SortedByTime(Merged(left, right))
    decreases |left| + |right|
  {
    if left != [] && right != [] {
      if left[0].travelTime < right[0].travelTime {
        MergedSorted(left[1..], right);
        LowerBoundHead(left[0], left[1..], right, Merged(left[1..], right));
      } else {
        MergedSorted(left, right[1..]);
        LowerBoundHead(right[0], left, right[1..], Merged(left, right[1..]));
      }
    }
  }

  /** A head no later than both inputs' heads stays sorted in front of their merge. */
  lemma LowerBoundHead(h: TripRecord, l: seq<TripRecord>, r: seq<TripRecord>, rest: seq<TripRecord>)
    requires multiset(rest) == multiset(l) + multiset(r)
    requires SortedByTime(l) && SortedByTime(r) && SortedByTime(rest)
    requires l != [] ==> h.travelTime <= l[0].travelTime
    requires r != [] ==> h.travelTime <= r[0].travelTime
    ensures SortedByTime([h] + rest)
  {
    {
      forall j | 0 <= j < |rest|
        ensures h.travelTime <= rest[j].travelTime
      {
        assert rest[j] in multiset(rest);
        if rest[j] in multiset(l) {
          var k :| 0 <= k < |l| && l[k] == rest[j];
          assert l[0].travelTime <= l[k].travelTime;
        } else {
          assert rest[j] in multiset(r);
          var k :| 0 <= k < |r| && r[k] == rest[j];
          assert r[0].travelTime <= r[k].travelTime;
        }
      }
      var s := [h] + rest;
      forall i, j | 0 <= i < j < |s|
        ensures s[i].travelTime <= s[j].travelTime
      {
        if i > 0 {
          assert s[i] == rest[i - 1] && s[j] == rest[j - 1];
        }
      }
    }
  }

  /** merge: the two-index loop, then the leftovers of each list. */
  method Merge(left: seq<TripRecord>, right: seq<TripRecord>) returns (result: seq<TripRecord>)
    ensures result == Merged(left, right)
  {
    result := [];
    var i, j := 0, 0;
    while i < |left| && j < |right|
      invariant 0 <= i <= |left| && 0 <= j <= |right|
      invariant result + Merged(left[i..], right[j..]) == Merged(left, right)
      decreases |left| - i + |right| - j
    {
      if left[i].travelTime < right[j].travelTime {
        TakeLeft(left, right, i, j, result);
        result := result + [left[i]];
        i := i + 1;
      } else {
        TakeRight(left, right, i, j, result);
        result := result + [right[j]];
        j := j + 1;
      }
    }
    MergedTail(left, right, i, j);
    result := result + left[i..] + right[j..];
  }

  lemma TakeLeft(left: seq<TripRecord>, right: seq<TripRecord>, i: nat, j: nat, result: seq<TripRecord>)
    requires i < |left| && j < |right| && left[i].travelTime < right[j].travelTime
    requires result + Merged(left[i..], right[j..]) == Merged(left, right)
    ensures (result + [left[i]]) + Merged(left[i + 1..], right[j..]) == Merged(left, right)
  {
    assert left[i..][1..] == left[i + 1..];
    assert Merged(left[i..], right[j..]) == [left[i]] + Merged(left[i + 1..], right[j..]);
  }

  lemma TakeRight(left: seq<TripRecord>, right: seq<TripRecord>, i: nat, j: nat, result: seq<TripRecord>)
    requires i < |left| && j < |right| && !(left[i].travelTime < right[j].travelTime)
    requires result + Merged(left[i..], right[j..]) == Merged(left, right)
    ensures (result + [right[j]]) + Merged(left[i..], right[j + 1..]) == Merged(left, right)
  {
    assert right[j..][1..] == right[j + 1..];
    assert Merged(left[i..], right[j..]) == [right[j]] + Merged(left[i..], right[j + 1..]);
  }

  /** Once one list is used up, Merged is the rest of the other. */
  lemma MergedTail(left: seq<TripRecord>, right: seq<TripRecord>, i: nat, j: nat)
    requires i <= |left| && j <= |right| && (i == |left| || j == |right|)
    ensures Merged(left[i..], right[j..]) == left[i..] + right[j..]
  {
    if i == |left| {
      assert left[i..] == [];
    } else {
      assert right[j..] == [];
    }
  }

  /** merge_sort_by_time: split at len // 2, sort both halves, merge. */
  function MergeSortByTime(trips: seq<TripRecord>): (r: seq<TripRecord>)
    ensures multiset(r) == multiset(trips)
    ensures |r| == |trips|
    ensures SortedByTime(r)
    ensures |trips| <= 1 ==> r == trips
    decreases |trips|
  {
    if |trips| <= 1 then trips
    else
      var mid := |trips| / 2;
      assert trips == trips[..mid] + trips[mid..];
      var left, right := MergeSortByTime(trips[..mid]), MergeSortByTime(trips[mid..]);
      MergedSorted(left, right);
      Merged(left, right)
  }

  /** On equal travel times merge puts the right element first, so the sort is not stable. */
  lemma MergeSortNotStable(a: TripRecord, b: TripRecord)
    requires a.travelTime == b.travelTime && a != b
    ensures MergeSortByTime([a, b]) == [b, a]
  {
    assert [a, b][..1] == [a] && [a, b][1..] == [b];
    SortSingleton(a);
    SortSingleton(b);
    MergeTie(a, b);
  }

  lemma SortSingleton(t: TripRecord)
    ensures MergeSortByTime([t]) == [t]
  {
  }

  lemma MergeTie(a: TripRecord, b: TripRecord)
    requires a.travelTime == b.travelTime
    ensures Merged([a], [b]) == [b, a]
  {
    assert [b][1..] == [];
  }

  /** The sorted ledger starts with a fastest trip and ends with a slowest one. */
  lemma SortedEnds(trips: seq<TripRecord>, t: TripRecord)
    requires t in trips
    ensures var s := MergeSortByTime(trips);
      s[0].travelTime <= t.travelTime <= s[|s| - 1].travelTime
  {
    var s := MergeSortByTime(trips);
    assert t in multiset(s);
    var k :| 0 <= k < |s| && s[k] == t;
    assert 0 < k ==> s[0].travelTime <= s[k].travelTime;
    assert k < |s| - 1 ==> s[k].travelTime <= s[|s| - 1].travelTime;
  }

  // ---------------------------------------------------------------------
  // Sums over the ledger
  // ---------------------------------------------------------------------

  function TotalTime(trips: seq<TripRecord>): real
  {
    if trips == [] then 0.0 else trips[0].travelTime + TotalTime(trips[1..])
  }

  lemma {:induction false} TotalTimeConcat(u: seq<TripRecord>, v: seq<TripRecord>)
    ensures TotalTime(u + v) == TotalTime(u) + TotalTime(v)
    decreases |u|
  {
    if u == [] {
      assert u + v == v;
    } else {
      assert (u + v)[1..] == u[1..] + v;
      TotalTimeConcat(u[1..], v);
    }
  }

  /** Taking one trip out of a ledger takes its time out of the sum. */
  lemma TotalTimeRemove(b: seq<TripRecord>, k: nat)
    requires k < |b|
    ensures TotalTime(b) == TotalTime(b[..k] + b[k + 1..]) + b[k].travelTime
  {
    var front, rest := b[..k], b[k + 1..];
    var tail := [b[k]] + rest;
    assert b == front + tail;
    TotalTimeConcat(front, tail);
    assert tail != [] && tail[0] == b[k] && tail[1..] == rest;
    assert TotalTime(tail) == b[k].travelTime + TotalTime(rest);
    TotalTimeConcat(front, rest);
  }

  lemma MultisetRemove<T>(s: seq<T>, k: nat)
    requires k < |s|
    ensures multiset(s) == multiset(s[..k] + s[k + 1..]) + multiset{s[k]}
  {
    assert s == s[..k] + [s[k]] + s[k + 1..];
  }

  lemma MultisetCancel<T>(p: multiset<T>, q: multiset<T>, x: T)
    requires p + multiset{x} == q + multiset{x}
    ensures p == q
  {
    forall y
      ensures p[y] == q[y]
    {
      assert (p + multiset{x})[y] == (q + multiset{x})[y];
    }
  }

  /** The summed travel time does not depend on the order of the ledger. */
  lemma {:induction false} TotalTimePermutation(a: seq<TripRecord>, b: seq<TripRecord>)
    requires multiset(a) == multiset(b)
    ensures TotalTime(a) == TotalTime(b)
    decreases |a|
  {
    if a == [] {
      assert |b| == |multiset(b)| == |multiset(a)| == 0;
    } else {
      var x := a[0];
      assert a == [x] + a[1..];
      assert x in multiset(b);
      var k :| 0 <= k < |b| && b[k] == x;
      var b' := b[..k] + b[k + 1..];
      MultisetRemove(b, k);
      MultisetCancel(multiset(a[1..]), multiset(b'), x);
      TotalTimePermutation(a[1..], b');
      TotalTimeRemove(b, k);
    }
  }

  /** How many trips of the named vehicle class the ledger holds. */
  function TypeCount(trips: seq<TripRecord>, name: string): nat
  {
    if trips == [] then 0
    else TypeCount(trips[..|trips| - 1], name) + (if trips[|trips| - 1].vehicleType.Name() == name then 1 else 0)
  }

  function TypeTime(trips: seq<TripRecord>, name: string): (t: real)
    ensures TypeCount(trips, name) == 0 ==> t == 0.0
  {
    if trips == [] then 0.0
    else TypeTime(trips[..|trips| - 1], name) + (if trips[|trips| - 1].vehicleType.Name() == name then trips[|trips| - 1].travelTime else 0.0)
  }

  /** Every trip belongs to exactly one vehicle class. */
  lemma {:induction false} TypeCountsSumToTotal(trips: seq<TripRecord>)
    ensures TypeCount(trips, "TRUCK") + TypeCount(trips, "CAR") + TypeCount(trips, "BUS")
            + TypeCount(trips, "MOTORCYCLE") == |trips|
    decreases |trips|
  {
    if trips != [] {
      TypeCountsSumToTotal(trips[..|trips| - 1]);
    }
  }

  /** Only the four class names ever appear as keys. */
  lemma {:induction false} TypeCountOtherName(trips: seq<TripRecord>, name: string)
    requires name != "TRUCK" && name != "CAR" && name != "BUS" && name != "MOTORCYCLE"
    ensures TypeCount(trips, name) == 0
    decreases |trips|
  {
    if trips != [] {
      TypeCountOtherName(trips[..|trips| - 1], name);
    }
  }

  // ---------------------------------------------------------------------
  // Congested roads
  // ---------------------------------------------------------------------

  function RoadKey(s: Segment): string
  {
    s.from + "-" + s.to
  }

  predicate IsCongestedSegment(s: Segment)
  {
    s.traffic == "HEAVY" || s.traffic == "CONGESTED"
  }

  /** The segments of a ledger, trip after trip. */
  function Segments(trips: seq<TripRecord>): seq<Segment>
  {
    if trips == [] then [] else Segments(trips[..|trips| - 1]) + trips[|trips| - 1].travelData
  }

  /** How many HEAVY or CONGESTED segments carry the road key k. */
  function CongestionCount(segs: seq<Segment>, k: string): nat
  {
    if segs == [] then 0
    else
      var s := segs[|segs| - 1];
      CongestionCount(segs[..|segs| - 1], k) + (if IsCongestedSegment(s) && RoadKey(s) == k then 1 else 0)
  }

  /** The road_congestion counter: keys in first-insertion order and their counts. */
  datatype Tally = Tally(order: seq<string>, counts: map<string, nat>)

  function TallyOf(segs: seq<Segment>): (t: Tally)
    ensures NoDup(t.order)
    ensures forall k :: k in t.counts <==> k in t.order
    ensures forall k :: k in t.counts <==> CongestionCount(segs, k) > 0
    ensures forall k :: k in t.counts ==> t.counts[k] == CongestionCount(segs, k)
  {
    if segs == [] then Tally([], map[])
    else
      var t := TallyOf(segs[..|segs| - 1]);
      var s := segs[|segs| - 1];
      if !IsCongestedSegment(s) then t
      else
        var k := RoadKey(s);
        if k in t.counts then Tally(t.order, t.counts[k := t.counts[k] + 1])
        else Tally(t.order + [k], t.counts[k := 1])
  }

  /** road_congestion.items(), in the counter's key order. */
  function Items(t: Tally): (items: seq<(string, nat)>)
    requires forall k :: k in t.order ==> k in t.counts
    ensures |items| == |t.order|
    ensures forall i :: 0 <= i < |items| ==> items[i] == (t.order[i], t.counts[t.order[i]])
  {
    seq(|t.order|, i requires 0 <= i < |t.order| => (t.order[i], t.counts[t.order[i]]))
  }

  ghost predicate SortedByCountDesc(s: seq<(string, nat)>)
  {
    forall i, j :: 0 <= i < j < |s| ==> s[i].1 >= s[j].1
  }

  /** Insert behind every item whose count is at least as large (so equal counts keep their order). */
  function InsertByCount(x: (string, nat), s: seq<(string, nat)>): (r: seq<(string, nat)>)
    requires SortedByCountDesc(s)
    ensures SortedByCountDesc(r)
    ensures multiset(r) == multiset(s) + multiset{x}
    ensures |r| == |s| + 1
  {
    if s == [] then [x]
    else if s[0].1 >= x.1 then
      var rest := InsertByCount(x, s[1..]);
      assert s == [s[0]] + s[1..];
      HeadBoundsRest(x, s, rest);
      ConsSortedByCount(s[0], rest);
      [s[0]] + rest
    else
      ConsSortedByCount(x, s);
      [x] + s
  }

  /** Inserting x, which the head of s outranks, into the tail leaves the head outranking everything. */
  lemma HeadBoundsRest(x: (string, nat), s: seq<(string, nat)>, rest: seq<(string, nat)>)
    requires SortedByCountDesc(s) && s != [] && x.1 <= s[0].1
    requires multiset(rest) == multiset(s[1..]) + multiset{x}
    ensures forall j :: 0 <= j < |rest| ==> rest[j].1 <= s[0].1
  {
    forall j | 0 <= j < |rest|
      ensures rest[j].1 <= s[0].1
    {
      assert rest[j] in multiset(rest);
      if rest[j] != x {
        assert rest[j] in multiset(s[1..]);
        var k :| 0 <= k < |s[1..]| && s[1..][k] == rest[j];
        assert s[k + 1] == rest[j];
      }
    }
  }

  lemma ConsSortedByCount(h: (string, nat), t: seq<(string, nat)>)
    requires SortedByCountDesc(t) && forall j :: 0 <= j < |t| ==> t[j].1 <= h.1
    ensures SortedByCountDesc([h] + t)
  {
    var r := [h] + t;
    forall i, j | 0 <= i < j < |r|
      ensures r[i].1 >= r[j].1
    {
      if i > 0 {
        assert r[i] == t[i - 1] && r[j] == t[j - 1];
      }
    }
  }

  /** sorted(items, key=count, reverse=True): a stable insertion sort. */
  function SortByCountDesc(items: seq<(string, nat)>): (r: seq<(string, nat)>)
    ensures SortedByCountDesc(r)
    ensures multiset(r) == multiset(items)
    ensures |r| == |items|
  {
    if items == [] then []
    else
      assert items == items[..|items| - 1] + [items[|items| - 1]];
      InsertByCount(items[|items| - 1], SortByCountDesc(items[..|items| - 1]))
  }

  /** The items of s with count c, in the order of s. */
  function WithCount(s: seq<(string, nat)>, c: nat): (r: seq<(string, nat)>)
    ensures forall x :: x in r <==> x in s && x.1 == c
  {
    if s == [] then [] else (if s[0].1 == c then [s[0]] else []) + WithCount(s[1..], c)
  }

  lemma {:induction false} WithCountAppend(a: seq<(string, nat)>, b: seq<(string, nat)>, c: nat)
    ensures WithCount(a + b, c) == WithCount(a, c) + WithCount(b, c)
    decreases |a|
  {
    if a == [] {
      assert a + b == b;
    } else {
      assert (a + b)[1..] == a[1..] + b;
      WithCountAppend(a[1..], b, c);
    }
  }

  lemma {:induction false} WithCountNone(s: seq<(string, nat)>, c: nat)
    requires forall j :: 0 <= j < |s| ==> s[j].1 < c
    ensures WithCount(s, c) == []
    decreases |s|
  {
    if s != [] {
      WithCountNone(s[1..], c);
    }
  }

  /** Inserting x adds it behind every item of its own count and leaves the other counts' order alone. */
  lemma WithCountCons(h: (string, nat), t: seq<(string, nat)>, c: nat)
    ensures WithCount([h] + t, c) == (if h.1 == c then [h] else []) + WithCount(t, c)
  {
    assert ([h] + t)[1..] == t;
  }

  /** Inserting x adds it behind every item of its own count and leaves the other counts' order alone. */
  lemma {:induction false} InsertByCountStable(x: (string, nat), s: seq<(string, nat)>, c: nat)
    requires SortedByCountDesc(s)
    ensures WithCount(InsertByCount(x, s), c) == WithCount(s, c) + (if x.1 == c then [x] else [])
    decreases |s|, 1
  {
    if s == [] {
      WithCountCons(x, [], c);
      assert [x] + [] == [x];
    } else if s[0].1 >= x.1 {
      InsertBehind(x, s, c);
    } else {
      WithCountCons(x, s, c);
      if x.1 == c {
        WithCountNone(s, c);
      }
    }
  }

  /** The case of InsertByCountStable where x goes behind the head of s. */
  lemma {:induction false} InsertBehind(x: (string, nat), s: seq<(string, nat)>, c: nat)
    requires SortedByCountDesc(s) && s != [] && s[0].1 >= x.1
    ensures WithCount(InsertByCount(x, s), c) == WithCount(s, c) + (if x.1 == c then [x] else [])
    decreases |s|, 0
  {
    var mine := if x.1 == c then [x] else [];
    var head := if s[0].1 == c then [s[0]] else [];
    var tail := s[1..];
    var rest := InsertByCount(x, tail);
    assert InsertByCount(x, s) == [s[0]] + rest;
    InsertByCountStable(x, tail, c);
    WithCountCons(s[0], rest, c);
    assert WithCount(s, c) == head + WithCount(tail, c);
    ConcatAssoc(head, WithCount(tail, c), mine);
  }

  lemma ConcatAssoc<T>(a: seq<T>, b: seq<T>, c: seq<T>)
    ensures a + (b + c) == (a + b) + c
  {
  }

  /** The sort is stable: the items of each count come out in their input order. */
  lemma {:induction false} SortByCountDescStable(items: seq<(string, nat)>, c: nat)
    ensures WithCount(SortByCountDesc(items), c) == WithCount(items, c)
    decreases |items|
  {
    if items != [] {
      var front, last := items[..|items| - 1], items[|items| - 1];
      var sorted := SortByCountDesc(front);
      assert items == front + [last];
      assert SortByCountDesc(items) == InsertByCount(last, sorted);
      SortByCountDescStable(front, c);
      InsertByCountStable(last, sorted, c);
      WithCountAppend(front, [last], c);
      WithCountCons(last, [], c);
      assert [last] + [] == [last];
    }
  }

  /** congested_roads[:5]. */
  function TopRoads(segs: seq<Segment>): (top: seq<(string, nat)>)
    ensures |top| <= 5
  {
    var t := TallyOf(segs);
    var sorted := SortByCountDesc(Items(t));
    if |sorted| <= 5 then sorted else sorted[..5]
  }

  /** The counter's items sorted by descending count, before the cut to five. */
  function RankedRoads(segs: seq<Segment>): (r: seq<(string, nat)>)
    ensures SortedByCountDesc(r)
    ensures multiset(r) == multiset(Items(TallyOf(segs)))
  {
    SortByCountDesc(Items(TallyOf(segs)))
  }

  lemma TopIsPrefix(segs: seq<Segment>)
    ensures var ranked := RankedRoads(segs);
      TopRoads(segs) == if |ranked| <= 5 then ranked else ranked[..5]
  {
  }

  /** Every ranked road is a congested road with its true count. */
  lemma RankedCounts(segs: seq<Segment>, i: nat)
    requires i < |RankedRoads(segs)|
    ensures var ranked := RankedRoads(segs);
      ranked[i].1 == CongestionCount(segs, ranked[i].0) > 0
  {
    var ranked := RankedRoads(segs);
    var items := Items(TallyOf(segs));
    assert ranked[i] in multiset(items);
    var p :| 0 <= p < |items| && items[p] == ranked[i];
  }

  /** The reported roads carry their true counts, in descending order, each once. */
  lemma TopRoadsCounts(segs: seq<Segment>)
    ensures var top := TopRoads(segs);
      && SortedByCountDesc(top)
      && (forall i :: 0 <= i < |top| ==> top[i].1 == CongestionCount(segs, top[i].0) > 0)
      && (forall i, j :: 0 <= i < j < |top| ==> top[i].0 != top[j].0)
  {
    TopIsPrefix(segs);
    TopCountsTrue(segs);
    TopKeysDistinct(segs);
  }

  lemma TopCountsTrue(segs: seq<Segment>)
    ensures var top := TopRoads(segs);
      forall i :: 0 <= i < |top| ==> top[i].1 == CongestionCount(segs, top[i].0) > 0
  {
    TopIsPrefix(segs);
    var top := TopRoads(segs);
    forall i | 0 <= i < |top|
      ensures top[i].1 == CongestionCount(segs, top[i].0) > 0
    {
      RankedCounts(segs, i);
    }
  }

  lemma TopKeysDistinct(segs: seq<Segment>)
    ensures var top := TopRoads(segs);
      forall i, j :: 0 <= i < j < |top| ==> top[i].0 != top[j].0
  {
    var ranked := RankedRoads(segs);
    var t := TallyOf(segs);
    var items := Items(t);
    assert forall a, b :: 0 <= a < b < |items| ==> items[a].0 != items[b].0 by {
      forall a, b | 0 <= a < b < |items|
        ensures items[a].0 != items[b].0
      {
        assert items[a].0 == t.order[a] && items[b].0 == t.order[b];
      }
    }
    TopIsPrefix(segs);
    var top := TopRoads(segs);
    forall i, j | 0 <= i < j < |top|
      ensures top[i].0 != top[j].0
    {
      DistinctKeys(items, ranked, i, j);
    }
  }

  /** No road left out of the report was congested more often than a reported one. */
  lemma TopRoadsMaximal(segs: seq<Segment>, k: string, i: nat)
    requires CongestionCount(segs, k) > 0
    requires forall j :: 0 <= j < |TopRoads(segs)| ==> TopRoads(segs)[j].0 != k
    requires i < |TopRoads(segs)|
    ensures CongestionCount(segs, k) <= TopRoads(segs)[i].1
  {
    var t := TallyOf(segs);
    var ranked := RankedRoads(segs);
    var items := Items(t);
    TopIsPrefix(segs);
    var p :| 0 <= p < |t.order| && t.order[p] == k;
    assert items[p] in multiset(ranked);
    var q :| 0 <= q < |ranked| && ranked[q] == items[p];
    assert q >= |TopRoads(segs)|;
    assert ranked[i] == TopRoads(segs)[i];
  }

  /** Sorting the counter's items cannot repeat a key. */
  lemma DistinctKeys(items: seq<(string, nat)>, sorted: seq<(string, nat)>, i: nat, j: nat)
    requires multiset(sorted) == multiset(items)
    requires forall a, b :: 0 <= a < b < |items| ==> items[a].0 != items[b].0
    requires i < j < |sorted|
    ensures sorted[i].0 != sorted[j].0
  {
    if sorted[i].0 == sorted[j].0 {
      assert sorted[i] in multiset(items) && sorted[j] in multiset(items);
      var a :| 0 <= a < |items| && items[a] == sorted[i];
      var b :| 0 <= b < |items| && items[b] == sorted[j];
      assert a == b;
      SingleOccurrence(items, a);
      TwoOccurrences(sorted, i, j);
      assert false;
    }
  }

  /** Two positions holding the same pair put it in the multiset twice. */
  lemma TwoOccurrences(s: seq<(string, nat)>, i: nat, j: nat)
    requires i < j < |s| && s[i].0 == s[j].0
    ensures s[i] == s[j] ==> multiset(s)[s[i]] >= 2
  {
    if s[i] == s[j] {
      assert s == s[..i] + [s[i]] + s[i + 1..];
      assert s[j] in s[i + 1..];
    }
  }

  lemma {:induction false} SingleOccurrence(items: seq<(string, nat)>, a: nat)
    requires forall x, y :: 0 <= x < y < |items| ==> items[x].0 != items[y].0
    requires a < |items|
    ensures multiset(items)[items[a]] == 1
    decreases |items|
  {
    var last := |items| - 1;
    assert items == items[..last] + [items[last]];
    if a == last {
      assert items[a] !in items[..last];
    } else {
      SingleOccurrence(items[..last], a);
      assert items[..last][a] == items[a];
      assert items[last] != items[a];
    }
  }

  // ---------------------------------------------------------------------
  // analyze_traffic_data
  // ---------------------------------------------------------------------

  datatype TypeStats = TypeStats(count: nat, totalTime: real, avgTime: real)

  const NoTripDataMessage: string := "No trip data available for analysis"

  datatype Analysis =
    | NoData(message: string)
    | Report(totalTrips: nat, avgTravelTime: real, fastestTrip: string, slowestTrip: string,
             topCongestedRoads: seq<(string, nat)>, vehicleStats: map<string, TypeStats>)

  /** The road_congestion loop over every segment of the sorted ledger. */
  method TallyRoads(trips: seq<TripRecord>) returns (t: Tally)
    ensures t == TallyOf(Segments(trips))
  {
    t := Tally([], map[]);
    for i := 0 to |trips|
      invariant t == TallyOf(Segments(trips[..i]))
    {
      assert trips[..i + 1][..i] == trips[..i];
      t := TallySegments(t, Segments(trips[..i]), trips[i].travelData);
    }
    assert trips[..|trips|] == trips;
  }

  /** The inner loop: the segments of one trip added to the counter. */
  method TallySegments(t: Tally, ghost before: seq<Segment>, segs: seq<Segment>) returns (t': Tally)
    requires t == TallyOf(before)
    ensures t' == TallyOf(before + segs)
  {
    t' := t;
    assert before + segs[..0] == before;
    for j := 0 to |segs|
      invariant t' == TallyOf(before + segs[..j])
    {
      t' := TallyOne(t', before + segs[..j], segs[j]);
      assert before + segs[..j] + [segs[j]] == before + segs[..j + 1];
    }
    assert segs[..|segs|] == segs;
  }

  /** One pass of the inner loop: a congested segment bumps its road's count. */
  method TallyOne(t: Tally, ghost prefix: seq<Segment>, s: Segment) returns (t': Tally)
    requires t == TallyOf(prefix)
    ensures t' == TallyOf(prefix + [s])
  {
    assert (prefix + [s])[..|prefix|] == prefix;
    var order, counts := t.order, t.counts;
    if IsCongestedSegment(s) {
      var k := RoadKey(s);
      if k in counts {
        counts := counts[k := counts[k] + 1];
      } else {
        order := order + [k];
        counts := counts[k := 1];
      }
    }
    t' := Tally(order, counts);
  }

  /** counts and totals hold the per-class trip counts and summed times of trips. */
  ghost predicate TypeTable(counts: map<string, nat>, totals: map<string, real>, trips: seq<TripRecord>)
  {
    && (forall name :: name in counts <==> name in totals)
    && (forall name :: name in counts <==> TypeCount(trips, name) > 0)
    && (forall name :: name in counts ==> counts[name] == TypeCount(trips, name))
    && (forall name :: name in totals ==> totals[name] == TypeTime(trips, name))
  }

  /** The vehicle_stats loop: per-class trip counts and summed times. */
  method CountTypes(trips: seq<TripRecord>) returns (counts: map<string, nat>, totals: map<string, real>)
    ensures counts.Keys == totals.Keys
    ensures forall name :: name in counts <==> TypeCount(trips, name) > 0
    ensures forall name :: name in counts ==> counts[name] == TypeCount(trips, name) && totals[name] == TypeTime(trips, name)
  {
    counts, totals := map[], map[];
    for i := 0 to |trips|
      invariant TypeTable(counts, totals, trips[..i])
    {
      counts, totals := CountTrip(counts, totals, trips, i);
    }
    assert trips[..|trips|] == trips;
  }

  /** One pass of the vehicle_stats loop: count trip i under its class. */
  method CountTrip(counts: map<string, nat>, totals: map<string, real>, trips: seq<TripRecord>, i: nat)
    returns (counts': map<string, nat>, totals': map<string, real>)
    requires i < |trips| && TypeTable(counts, totals, trips[..i])
    ensures TypeTable(counts', totals', trips[..i + 1])
  {
    var name := trips[i].vehicleType.Name();
    var count, total := 0, 0.0;
    if name in counts {
      count, total := counts[name], totals[name];
    }
    counts', totals' := counts[name := count + 1], totals[name := total + trips[i].travelTime];
    forall other
      ensures TypeCount(trips[..i + 1], other) == TypeCount(trips[..i], other) + (if other == name then 1 else 0)
      ensures TypeTime(trips[..i + 1], other) == TypeTime(trips[..i], other) + (if other == name then trips[i].travelTime else 0.0)
    {
      TypeStep(trips, i, other);
    }
  }

  /** Counting one more trip adds it to its own class only. */
  lemma TypeStep(trips: seq<TripRecord>, i: nat, name: string)
    requires i < |trips|
    ensures TypeCount(trips[..i + 1], name) == TypeCount(trips[..i], name) + (if trips[i].vehicleType.Name() == name then 1 else 0)
    ensures TypeTime(trips[..i + 1], name) == TypeTime(trips[..i], name) + (if trips[i].vehicleType.Name() == name then trips[i].travelTime else 0.0)
  {
    assert trips[..i + 1][..i] == trips[..i];
  }

  /** The names of the four vehicle classes. */
  const ClassNames: set<string> := {"TRUCK", "CAR", "BUS", "MOTORCYCLE"}

  /** The vehicle_stats dictionary of a ledger: one entry per class that made a trip. */
  function VehicleStats(trips: seq<TripRecord>): map<string, TypeStats>
  {
    map name | name in ClassNames && TypeCount(trips, name) > 0 ::
      TypeStats(TypeCount(trips, name), TypeTime(trips, name), TypeTime(trips, name) / TypeCount(trips, name) as real)
  }

  /** The classes that made a trip are exactly the keys, each with its count and mean. */
  lemma VehicleStatsKeys(trips: seq<TripRecord>, name: string)
    ensures name in VehicleStats(trips) <==> TypeCount(trips, name) > 0
  {
    if name !in ClassNames {
      TypeCountOtherName(trips, name);
    }
  }

  /** The avg_time pass over the counters. */
  method BuildVehicleStats(trips: seq<TripRecord>) returns (stats: map<string, TypeStats>)
    ensures stats == VehicleStats(trips)
  {
    var counts, totals := CountTypes(trips);
    stats := map name | name in counts :: TypeStats(counts[name], totals[name], totals[name] / counts[name] as real);
    forall name | name in counts
      ensures name in ClassNames
    {
      VehicleStatsKeys(trips, name);
    }
  }

  /** Count the congested segments, rank the roads, keep the first five. */
  method TopCongestedRoads(sorted: seq<TripRecord>) returns (top: seq<(string, nat)>)
    ensures top == TopRoads(Segments(sorted))
  {
    var tally := TallyRoads(sorted);
    var congestedRoads := SortByCountDesc(Items(tally));
    top := if |congestedRoads| <= 5 then congestedRoads else congestedRoads[..5];
  }

  /** analyze_traffic_data over a ledger. */
  method AnalyzeTrafficData(records: seq<TripRecord>) returns (a: Analysis)
    ensures records == [] <==> a.NoData?
    ensures a.NoData? ==> a.message == NoTripDataMessage
    ensures a.Report? ==> var sorted := MergeSortByTime(records);
      && a.totalTrips == |records|
      && a.avgTravelTime == TotalTime(records) / |records| as real
      && a.fastestTrip == sorted[0].vehicleId
      && a.slowestTrip == sorted[|sorted| - 1].vehicleId
      && a.topCongestedRoads == TopRoads(Segments(sorted))
      && a.vehicleStats == VehicleStats(sorted)
  {
    if records == [] {
      return NoData(NoTripDataMessage);
    }
    var sorted := MergeSortByTime(records);
    var totalTrips := |sorted|;
    TotalTimePermutation(sorted, records);
    var avgTravelTime := TotalTime(sorted) / totalTrips as real;
    var top := TopCongestedRoads(sorted);
    var stats := BuildVehicleStats(sorted);
    a := Report(totalTrips, avgTravelTime, sorted[0].vehicleId, sorted[totalTrips - 1].vehicleId, top, stats);
  }

  /** The class counts of a report add up to its trip count. */
  lemma VehicleStatsSumToTotal(trips: seq<TripRecord>)
    ensures var stats := VehicleStats(trips);
      (if "TRUCK" in stats then stats["TRUCK"].count else 0)
      + (if "CAR" in stats then stats["CAR"].count else 0)
      + (if "BUS" in stats then stats["BUS"].count else 0)
      + (if "MOTORCYCLE" in stats then stats["MOTORCYCLE"].count else 0) == |trips|
  {
    TypeCountsSumToTotal(trips);
  }
}
