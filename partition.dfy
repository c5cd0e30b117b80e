// core.py, Network.__init__ lines 109-153: the partition of a link's lanes
// into lane groups. Lane k (1-based) is labelled with the set of ids of the
// out-going road connections whose lane range covers it; each distinct label
// becomes one lane group, starting at its smallest lane, sized by its lane count.

/** The (start lane, number of lanes) pair a lane group is created with. */
datatype LaneSpan = LaneSpan(startLane: int, numLanes: int)

/** The ids of the road connections whose lane range covers `lane`. */
function CoveringRcs(outRcs: seq<RoadConnection>, lane: int): set<int>
{
  set k | 0 <= k < |outRcs| && outRcs[k].inLinkLanes.0 <= lane <= outRcs[k].inLinkLanes.1 :: outRcs[k].id
}

/** lane2rcs: entry k is the label of lane k + 1, for the lanes 1..full_lanes. */
function Lane2Rcs(outRcs: seq<RoadConnection>, fullLanes: int): seq<set<int>>
{
  seq(if fullLanes < 0 then 0 else fullLanes, k => CoveringRcs(outRcs, k + 1))
}

/**
 * The distinct elements of `xs` in order of first occurrence; this is the
 * order in which the model visits `set(lane2rcs)`.
 */
function Distinct(xs: seq<set<int>>): (d: seq<set<int>>)
  ensures forall x :: x in d <==> x in xs
  ensures forall i, j :: 0 <= i < j < |d| ==> d[i] != d[j]
{
  if xs == [] then []
  else
    var d := Distinct(xs[..|xs| - 1]);
    assert forall x :: x in xs <==> x in xs[..|xs| - 1] || x == xs[|xs| - 1] by {
      assert xs == xs[..|xs| - 1] + [xs[|xs| - 1]];
    }
    if xs[|xs| - 1] in d then d else d + [xs[|xs| - 1]]
}

/** `np.where([x == s for x in xs])[0]`: the positions holding `s`, ascending. */
function Positions<T(==)>(xs: seq<T>, s: T): (p: seq<nat>)
  ensures forall i :: 0 <= i < |p| ==> p[i] < |xs| && xs[p[i]] == s
  ensures forall k :: 0 <= k < |xs| && xs[k] == s ==> k in p
  ensures forall i, j :: 0 <= i < j < |p| ==> p[i] < p[j]
{
  if xs == [] then []
  else
    var n := |xs| - 1;
    var p := Positions(xs[..n], s);
    if xs[n] == s then p + [n] else p
}

/** There are as many positions as occurrences of `s`. */
lemma {:induction false} PositionsCount<T>(xs: seq<T>, s: T)
  ensures |Positions(xs, s)| == multiset(xs)[s]
{
  if xs != [] {
    var n := |xs| - 1;
    PositionsCount(xs[..n], s);
    assert xs == xs[..n] + [xs[n]];
    assert multiset(xs) == multiset(xs[..n]) + multiset{xs[n]};
  }
}

/** The lane group of label `s`: its smallest lane and its number of lanes. */
function GroupSpan(lane2rcs: seq<set<int>>, s: set<int>): LaneSpan
  requires s in lane2rcs
{
  var p := Positions(lane2rcs, s);
  assert p != [] by {
    var k :| 0 <= k < |lane2rcs| && lane2rcs[k] == s;
    assert k in p;
  }
  LaneSpan(p[0] + 1, |p|)
}

/** The labels, one per lane group, in the order the groups are created. */
function GroupLabels(outRcs: seq<RoadConnection>, fullLanes: int): seq<set<int>>
{
  Distinct(Lane2Rcs(outRcs, fullLanes))
}

/**
 * The lane groups of a link with `fullLanes` lanes and out-going road
 * connections `outRcs`: one group over all lanes when there are no road
 * connections, else one group per distinct label.
 */
function LanePartition(outRcs: seq<RoadConnection>, fullLanes: int): seq<LaneSpan>
{
  if |outRcs| == 0 then [LaneSpan(1, fullLanes)]
  else
    var lane2rcs := Lane2Rcs(outRcs, fullLanes);
    var labels := Distinct(lane2rcs);
    seq(|labels|, g requires 0 <= g < |labels| => GroupSpan(lane2rcs, labels[g]))
}

/** The total number of lanes over a list of groups. */
function SumLanes(spans: seq<LaneSpan>): int
{
  if spans == [] then 0 else SumLanes(spans[..|spans| - 1]) + spans[|spans| - 1].numLanes
}

/** The sum over `keys` of their multiplicities in `m`. */
function CountSum(keys: seq<set<int>>, m: multiset<set<int>>): int
{
  if keys == [] then 0 else CountSum(keys[..|keys| - 1], m) + m[keys[|keys| - 1]]
}

/** Adding one `x` to `m` adds one to the sum exactly when `x` is one of the (distinct) keys. */
lemma {:induction false} CountSumAddOne(keys: seq<set<int>>, m: multiset<set<int>>, x: set<int>)
  requires forall i, j :: 0 <= i < j < |keys| ==> keys[i] != keys[j]
  ensures CountSum(keys, m + multiset{x}) == CountSum(keys, m) + (if x in keys then 1 else 0)
{
  if keys != [] {
    var n := |keys| - 1;
    var pre := keys[..n];
    assert keys == pre + [keys[n]];
    assert x in keys <==> x in pre || x == keys[n];
    assert keys[n] !in pre;
    CountSumAddOne(pre, m, x);
  }
}

/** Over the distinct elements of `xs`, the multiplicities add up to the length of `xs`. */
lemma {:induction false} DistinctCountsSum(xs: seq<set<int>>)
  ensures CountSum(Distinct(xs), multiset(xs)) == |xs|
{
  if xs != [] {
    var n := |xs| - 1;
    var pre := xs[..n];
    var x := xs[n];
    assert xs == pre + [x];
    assert multiset(xs) == multiset(pre) + multiset{x};
    DistinctCountsSum(pre);
    var d := Distinct(pre);
    CountSumAddOne(d, multiset(pre), x);
    if x !in d {
      assert x !in pre;
      assert Distinct(xs) == d + [x];
      assert (d + [x])[..|d|] == d;
      assert multiset(pre)[x] == 0;
    }
  }
}

/** Summing spans whose sizes are the multiplicities of the keys gives the key sum. */
lemma {:induction false} SumLanesIsCountSum(spans: seq<LaneSpan>, keys: seq<set<int>>, m: multiset<set<int>>)
  requires |spans| == |keys|
  requires forall g :: 0 <= g < |spans| ==> spans[g].numLanes == m[keys[g]]
  ensures SumLanes(spans) == CountSum(keys, m)
{
  if spans != [] {
    var n := |spans| - 1;
    SumLanesIsCountSum(spans[..n], keys[..n], m);
  }
}

/** In an ascending list of positions the last is at least the first plus the count less one. */
lemma {:induction false} AscendingSpread(p: seq<nat>)
  requires p != []
  requires forall i, j :: 0 <= i < j < |p| ==> p[i] < p[j]
  ensures p[0] + |p| - 1 <= p[|p| - 1]
{
  if |p| > 1 {
    AscendingSpread(p[..|p| - 1]);
  }
}

/**
 * The group of a label that occurs in lane2rcs: it starts at the label's
 * smallest lane, has as many lanes as carry the label and ends within the lanes.
 */
lemma GroupSpanOfLabel(lane2rcs: seq<set<int>>, s: set<int>)
  requires s in lane2rcs
  ensures var span := GroupSpan(lane2rcs, s);
    1 <= span.startLane && span.startLane + span.numLanes - 1 <= |lane2rcs| &&
    span.numLanes == multiset(lane2rcs)[s] &&
    lane2rcs[span.startLane - 1] == s &&
    (forall k :: 0 <= k < span.startLane - 1 ==> lane2rcs[k] != s)
{
  var p := Positions(lane2rcs, s);
  assert p != [] by {
    var k :| 0 <= k < |lane2rcs| && lane2rcs[k] == s;
    assert k in p;
  }
  AscendingSpread(p);
  PositionsFirst(lane2rcs, s);
  PositionsCount(lane2rcs, s);
}

/** No position before the first one holds `s`. */
lemma {:induction false} PositionsFirst<T>(xs: seq<T>, s: T)
  requires Positions(xs, s) != []
  ensures forall k :: 0 <= k < Positions(xs, s)[0] ==> xs[k] != s
{
  var n := |xs| - 1;
  var pre := xs[..n];
  if Positions(pre, s) != [] {
    PositionsFirst(pre, s);
    assert Positions(xs, s)[0] == Positions(pre, s)[0];
  } else {
    forall k | 0 <= k < |pre|
      ensures pre[k] != s
    {
      assert k !in Positions(pre, s);
    }
  }
}

/** Group `g` of a link with road connections, stated on the labels of the lanes. */
lemma LanePartitionGroup(outRcs: seq<RoadConnection>, fullLanes: int, g: int)
  requires |outRcs| > 0 && 0 <= g < |GroupLabels(outRcs, fullLanes)|
  ensures var spans := LanePartition(outRcs, fullLanes);
    var labels := GroupLabels(outRcs, fullLanes);
    var n := if fullLanes < 0 then 0 else fullLanes;
    |spans| == |labels| &&
    1 <= spans[g].startLane && spans[g].startLane + spans[g].numLanes - 1 <= n &&
    spans[g].numLanes == multiset(Lane2Rcs(outRcs, fullLanes))[labels[g]] &&
    CoveringRcs(outRcs, spans[g].startLane) == labels[g] &&
    (forall lane :: 1 <= lane < spans[g].startLane ==> CoveringRcs(outRcs, lane) != labels[g])
{
  var spans := LanePartition(outRcs, fullLanes);
  var lane2rcs := Lane2Rcs(outRcs, fullLanes);
  var labels := GroupLabels(outRcs, fullLanes);
  assert spans[g] == GroupSpan(lane2rcs, labels[g]);
  GroupSpanOfLabel(lane2rcs, labels[g]);
  forall lane | 1 <= lane < spans[g].startLane
    ensures CoveringRcs(outRcs, lane) != labels[g]
  {
    assert lane2rcs[lane - 1] != labels[g];
  }
}

/** The group sizes of a link with road connections add up to its lane count. */
lemma LanePartitionSizes(outRcs: seq<RoadConnection>, fullLanes: int)
  requires |outRcs| > 0
  ensures SumLanes(LanePartition(outRcs, fullLanes)) == if fullLanes < 0 then 0 else fullLanes
{
  var spans := LanePartition(outRcs, fullLanes);
  var lane2rcs := Lane2Rcs(outRcs, fullLanes);
  var labels := GroupLabels(outRcs, fullLanes);
  forall g | 0 <= g < |spans|
    ensures spans[g].numLanes == multiset(lane2rcs)[labels[g]]
  {
    assert spans[g] == GroupSpan(lane2rcs, labels[g]);
    GroupSpanOfLabel(lane2rcs, labels[g]);
  }
  SumLanesIsCountSum(spans, labels, multiset(lane2rcs));
  DistinctCountsSum(lane2rcs);
}

/**
 * With out-going road connections, the lane groups are the classes of lanes
 * with equal labels: one group per distinct label, and every lane's label is
 * one of them, so each lane belongs to exactly one group; each group starts
 * at its smallest lane, has as many lanes as carry its label and lies within
 * 1..full_lanes; the sizes add up to full_lanes.
 */
lemma LanePartitionClasses(outRcs: seq<RoadConnection>, fullLanes: int)
  requires |outRcs| > 0
  ensures var spans := LanePartition(outRcs, fullLanes);
    var labels := GroupLabels(outRcs, fullLanes);
    var n := if fullLanes < 0 then 0 else fullLanes;
    |spans| == |labels| &&
    (forall lane :: 1 <= lane <= n ==> CoveringRcs(outRcs, lane) in labels) &&
    (forall g, h :: 0 <= g < h < |labels| ==> labels[g] != labels[h]) &&
    (forall g :: 0 <= g < |spans| ==>
      1 <= spans[g].startLane && spans[g].startLane + spans[g].numLanes - 1 <= n &&
      spans[g].numLanes == multiset(Lane2Rcs(outRcs, fullLanes))[labels[g]] &&
      CoveringRcs(outRcs, spans[g].startLane) == labels[g] &&
      (forall lane :: 1 <= lane < spans[g].startLane ==> CoveringRcs(outRcs, lane) != labels[g])) &&
    SumLanes(spans) == n
{
  var spans := LanePartition(outRcs, fullLanes);
  var lane2rcs := Lane2Rcs(outRcs, fullLanes);
  var labels := GroupLabels(outRcs, fullLanes);
  var n := if fullLanes < 0 then 0 else fullLanes;
  assert |spans| == |labels|;
  forall lane | 1 <= lane <= n
    ensures CoveringRcs(outRcs, lane) in labels
  {
    assert lane2rcs[lane - 1] in lane2rcs;
  }
  forall g | 0 <= g < |spans|
    ensures 1 <= spans[g].startLane && spans[g].startLane + spans[g].numLanes - 1 <= n
    ensures spans[g].numLanes == multiset(lane2rcs)[labels[g]]
    ensures CoveringRcs(outRcs, spans[g].startLane) == labels[g]
    ensures forall lane :: 1 <= lane < spans[g].startLane ==> CoveringRcs(outRcs, lane) != labels[g]
  {
    LanePartitionGroup(outRcs, fullLanes, g);
  }
  LanePartitionSizes(outRcs, fullLanes);
}

/** Without out-going road connections the link has one group over all its lanes. */
lemma NoRoadConnectionsOneGroup(fullLanes: int)
  ensures LanePartition([], fullLanes) == [LaneSpan(1, fullLanes)]
  ensures fullLanes >= 0 ==> SumLanes(LanePartition([], fullLanes)) == fullLanes
{
  assert [LaneSpan(1, fullLanes)][..0] == [];
}

/**
 * Equal labels need not sit on adjacent lanes: with three lanes and a single
 * road connection from lane 2, lanes 1 and 3 share the empty label, so the
 * group (start 1, 2 lanes) nominally spans lane 2, which is also the group
 * (start 2, 1 lane).
 */
lemma GroupSpansCanOverlap()
  ensures var spans := LanePartition([RoadConnection(7, 1, (2, 2), 9)], 3);
    spans == [LaneSpan(1, 2), LaneSpan(2, 1)]
{
  var rcs := [RoadConnection(7, 1, (2, 2), 9)];
  MiddleLaneLabels();
  MiddleLaneDistinct();
  MiddleLaneSpans();
  var spans := LanePartition(rcs, 3);
  assert |spans| == 2;
  assert spans[0] == LaneSpan(1, 2);
  assert spans[1] == LaneSpan(2, 1);
}

/** The groups of the two labels of the three lanes. */
lemma MiddleLaneSpans()
  ensures GroupSpan([{}, {7}, {}], {}) == LaneSpan(1, 2)
  ensures GroupSpan([{}, {7}, {}], {7}) == LaneSpan(2, 1)
{
  MiddleLanePositions();
}

/** The labels of the three lanes when one road connection covers lane 2 only. */
lemma MiddleLaneLabels()
  ensures Lane2Rcs([RoadConnection(7, 1, (2, 2), 9)], 3) == [{}, {7}, {}]
{
  var rcs := [RoadConnection(7, 1, (2, 2), 9)];
  assert CoveringRcs(rcs, 1) == {};
  assert CoveringRcs(rcs, 2) == {7} by {
    assert rcs[0].inLinkLanes.0 <= 2 <= rcs[0].inLinkLanes.1;
    assert rcs[0].id in CoveringRcs(rcs, 2);
  }
  assert CoveringRcs(rcs, 3) == {};
}

/** Two distinct labels, the empty one first. */
lemma MiddleLaneDistinct()
  ensures Distinct([{}, {7}, {}]) == [{}, {7}]
{
  var labels: seq<set<int>> := [{}, {7}, {}];
  var l1: seq<set<int>> := [{}];
  var l2: seq<set<int>> := [{}, {7}];
  assert labels[..2] == l2 && l2[..1] == l1 && l1[..0] == [];
  assert 7 in l2[1];
  assert Distinct(l1) == [{}];
  assert Distinct(l2) == [{}, {7}];
}

/** The empty label sits on lanes 1 and 3, {7} on lane 2. */
lemma MiddleLanePositions()
  ensures Positions([{}, {7}, {}], {}) == [0, 2]
  ensures Positions([{}, {7}, {}], {7}) == [1]
{
  var l2: seq<set<int>> := [{}, {7}];
  assert [{}, {7}, {}][..2] == l2;
  MiddleLanePrefixPositions();
}

/** Positions on the first two lanes. */
lemma MiddleLanePrefixPositions()
  ensures Positions([{}, {7}], {}) == [0]
  ensures Positions([{}, {7}], {7}) == [1]
{
  var l1: seq<set<int>> := [{}];
  assert [{}, {7}][..1] == l1 && l1[..0] == [];
  assert 7 in [{}, {7}][1];
  assert Positions(l1, {}) == [0];
  assert Positions(l1, {7}) == [];
}
