// Link.py: a road link between two nodes, with its demands, split profiles
// and lane groups, and the lane-group queries the node model uses.

class Link {
  const id: int
  const fullLanes: int
  const length: real
  const startnode: Node
  const endnode: Node
  const roadparam: RoadParams
  var demands: seq<Demand>
  var splitProfile: map<int, SplitMatrixProfile>   // vehicle type -> split profile
  var lgs: seq<LaneGroup>
  var isSource: bool
  var isSink: bool
  var outlink2lanegroups: map<int, seq<LaneGroup>>

  /**
   * Link(...): the new link is recorded as an out-link of its start node and
   * as an in-link of its end node; it starts with no demands, splits or lane
   * groups and is neither source nor sink.
   */
  constructor (id: int, fullLanes: int, length: real, startnode: Node, endnode: Node, roadparam: RoadParams)
    modifies startnode, endnode
    ensures this.id == id && this.fullLanes == fullLanes && this.length == length
    ensures this.startnode == startnode && this.endnode == endnode && this.roadparam == roadparam
    ensures startnode.outLinks == old(startnode.outLinks)[id := this] && !startnode.isSink
    ensures endnode.inLinks == old(endnode.inLinks)[id := this] && !endnode.isSource
    ensures startnode != endnode ==>
      startnode.inLinks == old(startnode.inLinks) && startnode.isSource == old(startnode.isSource) &&
      endnode.outLinks == old(endnode.outLinks) && endnode.isSink == old(endnode.isSink)
    ensures startnode.isMany2one == old(startnode.isMany2one) && endnode.isMany2one == old(endnode.isMany2one)
    ensures demands == [] && splitProfile == map[] && lgs == [] && outlink2lanegroups == map[]
    ensures !isSource && !isSink
  {
    this.id := id;
    this.fullLanes := fullLanes;
    this.length := length;
    this.startnode := startnode;
    this.endnode := endnode;
    this.roadparam := roadparam;
    demands := [];
    splitProfile := map[];
    lgs := [];
    isSource := false;
    isSink := false;
    outlink2lanegroups := map[];
    new;
    startnode.AddOutputLink(this);
    endnode.AddInputLink(this);
  }

  /** add_demand: appends exactly one demand. */
  method AddDemand(demand: Demand)
    modifies this`demands
    ensures demands == old(demands) + [demand]
  {
    demands := demands + [demand];
  }

  /** set_lanegroups: replaces the lane-group list. */
  method SetLanegroups(newlgs: seq<LaneGroup>)
    modifies this`lgs
    ensures lgs == newlgs
  {
    lgs := newlgs;
  }

  /**
   * sample_next_link: with split profiles, the draw of the vehicle type's
   * split matrix (a missing type is a KeyError); without, a uniformly chosen
   * out-link id of the end node (none to choose from is an IndexError).
   */
  method SampleNextLink(vtid: int, u: real) returns (r: Result<int>)
    requires 0.0 <= u < 1.0
    ensures |splitProfile| > 0 && vtid !in splitProfile ==> r == Err(KeyNotFound(vtid))
    ensures |splitProfile| > 0 && vtid in splitProfile ==> r == splitProfile[vtid].SampleOutputLink(u)
    ensures |splitProfile| == 0 ==> (r.Ok? <==> |endnode.outLinkOrder| > 0)
    ensures |splitProfile| == 0 && r.Ok? ==> r == RandomChoice(endnode.outLinkOrder, u)
    ensures |splitProfile| == 0 && r.Ok? && endnode.KeysInOrder() ==> r.value in endnode.outLinks
  {
    if |splitProfile| > 0 {
      if vtid !in splitProfile {
        return Err(KeyNotFound(vtid));
      }
      return splitProfile[vtid].SampleOutputLink(u);
    }
    r := RandomChoice(endnode.outLinkOrder, u);
  }

  /**
   * get_lanegroups_for_outlink: the lane groups from which the out-link is
   * reachable, or every lane group when no such map was built.
   */
  function GetLanegroupsForOutlink(nextLink: int): (r: Result<seq<LaneGroup>>)
    reads this
    ensures |outlink2lanegroups| == 0 ==> r == Ok(lgs)
    ensures |outlink2lanegroups| > 0 ==> (r.Ok? <==> nextLink in outlink2lanegroups)
    ensures |outlink2lanegroups| > 0 && r.Ok? ==> r.value == outlink2lanegroups[nextLink]
  {
    if |outlink2lanegroups| > 0 then
      if nextLink in outlink2lanegroups then Ok(outlink2lanegroups[nextLink]) else Err(KeyNotFound(nextLink))
    else Ok(lgs)
  }

  /**
   * get_total_vehicles: the vehicles of all its lane groups; none without
   * lane groups, and at least those of each one.
   */
  function GetTotalVehicles(): (n: nat)
    reads this, lgs, LaneGroupQueues(lgs)
    ensures lgs == [] ==> n == 0
    ensures forall i :: 0 <= i < |lgs| ==> lgs[i].GetTotalVehicles() <= n
  {
    TotalVehiclesBounds(lgs);
    TotalVehicles(lgs)
  }
}

/**
 * random.choice(seq) with the uniform draw `u` in [0, 1): the element at index
 * floor(u * len(seq)); an empty sequence raises IndexError.
 */
function RandomChoice(ids: seq<int>, u: real): (r: Result<int>)
  requires 0.0 <= u < 1.0
  ensures r.Ok? <==> |ids| > 0
  ensures r.Ok? ==> r.value in ids
  ensures r.Err? ==> r.error == IndexOutOfRange
{
  if |ids| == 0 then Err(IndexOutOfRange)
  else
    var k := (u * |ids| as real).Floor;
    DrawIndexInRange(u, |ids|);
    Ok(ids[k])
}

/** floor(u * n) is an index of an n-element sequence when 0 <= u < 1. */
lemma DrawIndexInRange(u: real, n: nat)
  requires 0.0 <= u < 1.0 && n > 0
  ensures 0 <= (u * n as real).Floor < n
{
  assert u * n as real < n as real;
}

/** The queues of the given lane groups. */
function LaneGroupQueues(lgs: seq<LaneGroup>): set<VehicleQueue>
{
  (set lg | lg in lgs :: lg.transitQueue) + (set lg | lg in lgs :: lg.waitingQueue)
}

/** `sum([lg.get_total_vehicles() for lg in lgs])`. */
function TotalVehicles(lgs: seq<LaneGroup>): nat
  reads lgs, LaneGroupQueues(lgs)
{
  if lgs == [] then 0
  else
    assert LaneGroupQueues(lgs[1..]) <= LaneGroupQueues(lgs);
    lgs[0].GetTotalVehicles() + TotalVehicles(lgs[1..])
}

/** Each lane group's vehicles are part of the total. */
lemma TotalVehiclesBounds(lgs: seq<LaneGroup>)
  ensures forall i :: 0 <= i < |lgs| ==> lgs[i].GetTotalVehicles() <= TotalVehicles(lgs)
{
  forall i | 0 <= i < |lgs|
    ensures lgs[i].GetTotalVehicles() <= TotalVehicles(lgs)
  {
    TotalVehiclesBound(lgs, i);
  }
}

lemma {:induction false} TotalVehiclesBound(lgs: seq<LaneGroup>, i: nat)
  requires i < |lgs|
  ensures lgs[i].GetTotalVehicles() <= TotalVehicles(lgs)
  decreases i
{
  if i > 0 {
    assert lgs[1..][i - 1] == lgs[i];
    TotalVehiclesBound(lgs[1..], i - 1);
  }
}

/** The sum splits over a split of the lane-group list. */
lemma {:induction false} TotalVehiclesAppend(a: seq<LaneGroup>, b: seq<LaneGroup>)
  ensures TotalVehicles(a + b) == TotalVehicles(a) + TotalVehicles(b)
  decreases |a|
{
  if a == [] {
    assert a + b == b;
  } else {
    assert (a + b)[0] == a[0];
    assert (a + b)[1..] == a[1..] + b;
    TotalVehiclesAppend(a[1..], b);
    assert TotalVehicles(a + b) == a[0].GetTotalVehicles() + TotalVehicles(a[1..] + b);
    assert TotalVehicles(a) == a[0].GetTotalVehicles() + TotalVehicles(a[1..]);
  }
}

/** With every queue of its lane groups empty, a link holds no vehicles. */
lemma {:induction false} TotalVehiclesEmpty(lgs: seq<LaneGroup>)
  requires forall lg :: lg in lgs ==> lg.transitQueue.items == [] && lg.waitingQueue.items == []
  ensures TotalVehicles(lgs) == 0
  decreases |lgs|
{
  if lgs != [] {
    TotalVehiclesEmpty(lgs[1..]);
  }
}

/** np.argmax: the first index of a largest element. */
function ArgMax(xs: seq<real>): (k: nat)
  requires |xs| > 0
  ensures k < |xs|
  ensures forall i :: 0 <= i < |xs| ==> xs[i] <= xs[k]
  ensures forall i :: 0 <= i < k ==> xs[i] < xs[k]
{
  if |xs| == 1 then 0
  else
    var k := ArgMax(xs[..|xs| - 1]);
    assert forall i :: 0 <= i < |xs| - 1 ==> xs[..|xs| - 1][i] == xs[i];
    if xs[|xs| - 1] > xs[k] then |xs| - 1 else k
}

/**
 * `[lg.get_supply_per_lane() for lg in lgs]`: the first lane group without
 * lanes raises ZeroDivisionError.
 */
function SuppliesPerLane(lgs: seq<LaneGroup>): (r: Result<seq<real>>)
  reads lgs
  ensures r.Err? <==> exists i :: 0 <= i < |lgs| && lgs[i].numLanes == 0
  ensures r.Ok? ==> |r.value| == |lgs|
  ensures r.Ok? ==> forall i :: 0 <= i < |lgs| ==> lgs[i].GetSupplyPerLane() == Ok(r.value[i])
{
  if lgs == [] then Ok([])
  else
    var head := lgs[0].GetSupplyPerLane();
    var rest := SuppliesPerLane(lgs[1..]);
    if head.Err? then Err(head.error)
    else if rest.Err? then Err(rest.error)
    else Ok([head.value] + rest.value)
}

/** Index k holds a largest supply per lane, and every earlier candidate a smaller one. */
ghost predicate IsFirstArgmax(candidates: seq<LaneGroup>, k: int)
  reads candidates
  requires forall i :: 0 <= i < |candidates| ==> candidates[i].numLanes != 0
{
  0 <= k < |candidates| &&
  (forall i :: 0 <= i < |candidates| ==>
    candidates[i].GetSupplyPerLane().value <= candidates[k].GetSupplyPerLane().value) &&
  (forall i :: 0 <= i < k ==>
    candidates[i].GetSupplyPerLane().value < candidates[k].GetSupplyPerLane().value)
}

/**
 * Link.argmax_supply: the candidate with the largest supply per lane, the
 * first one on ties; no candidates is an error.
 */
function ArgmaxSupply(candidates: seq<LaneGroup>): (r: Result<LaneGroup>)
  reads candidates
  ensures candidates == [] ==> r == Err(EmptySequence)
  ensures r.Ok? <==> candidates != [] && forall i :: 0 <= i < |candidates| ==> candidates[i].numLanes != 0
  ensures r.Ok? ==> exists k :: IsFirstArgmax(candidates, k) && candidates[k] == r.value
{
  if candidates == [] then Err(EmptySequence)
  else
    var supplies := SuppliesPerLane(candidates);
    if supplies.Err? then Err(supplies.error)
    else
      var k := ArgMax(supplies.value);
      Ok(candidates[k])
}
