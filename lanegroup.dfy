// LaneGroup.py: the FIFO vehicle queues and the lane group that owns a
// transit queue and a waiting queue, its supply and its saturation rate.

/** A service rate in vehicles per second; a GREEN signal grants an unbounded one. */
datatype Rate = Finite(vps: real) | Unbounded

/** `q.get()` on a FIFO queue: everything behind the lead; an empty queue stays empty. */
function DropLead(q: seq<Vehicle>): (r: seq<Vehicle>)
  ensures q != [] ==> q == [q[0]] + r
  ensures q == [] ==> r == []
{
  if q == [] then [] else q[1..]
}

/** VehicleQueue: a FIFO queue of vehicles, lead first. */
class VehicleQueue {
  var items: seq<Vehicle>

  constructor ()
    ensures items == []
  {
    items := [];
  }

  /** clear: the queue is replaced by an empty one. */
  method Clear()
    modifies this
    ensures items == []
  {
    items := [];
  }

  /** get_total_vehicles: qsize(). */
  function GetTotalVehicles(): (n: nat)
    reads this
    ensures n == |items|
  {
    |items|
  }

  /** add_vehicle: put at the tail. */
  method AddVehicle(v: Vehicle)
    modifies this
    ensures items == old(items) + [v]
    ensures GetTotalVehicles() == old(GetTotalVehicles()) + 1
  {
    items := items + [v];
  }

  /**
   * The lead removal Vehicle.move_to_queue calls: the lead vehicle leaves the
   * queue and is returned; an empty queue yields null and stays empty.
   */
  method RemoveLeadVehicle() returns (v: Vehicle?)
    modifies this
    ensures items == DropLead(old(items))
    ensures old(items) == [] ==> v == null
    ensures old(items) != [] ==> v == old(items)[0] && GetTotalVehicles() == old(GetTotalVehicles()) - 1
  {
    if items == [] {
      v := null;
    } else {
      v := items[0];
      items := items[1..];
    }
  }
}

/** Vehicles in a lane group with the given queue sizes. */
function VehicleCount(transit: nat, waiting: nat): nat
{
  transit + waiting
}

/** LaneGroup.get_total_vehicles as written: the transit queue is counted twice. */
function VehicleCountAsWritten(transit: nat, waiting: nat): nat
{
  transit + transit
}

/**
 * The as-written count ignores the waiting queue: one vehicle in transit counts
 * as two, and a lane group whose vehicles all wait counts as empty.
 */
lemma VehicleCountAsWrittenIsWrong()
  ensures VehicleCountAsWritten(1, 0) == 2 != VehicleCount(1, 0)
  ensures VehicleCountAsWritten(0, 3) == 0 != VehicleCount(0, 3)
{
}

/**
 * A vehicle passing from the transit to the waiting queue leaves the corrected
 * count unchanged but lowers the as-written count by two.
 */
lemma TransitToWaitingKeepsCount(transit: nat, waiting: nat)
  requires transit > 0
  ensures VehicleCount(transit - 1, waiting + 1) == VehicleCount(transit, waiting)
  ensures VehicleCountAsWritten(transit - 1, waiting + 1) + 2 == VehicleCountAsWritten(transit, waiting)
{
}

/** `min(nominal, rate)` for a rate that may be unbounded. */
function CappedRate(nominal: real, rate: Rate): (r: real)
  ensures r <= nominal
  ensures rate.Unbounded? ==> r == nominal
  ensures rate.Finite? ==> r <= rate.vps && (r == nominal || r == rate.vps)
{
  match rate
  case Unbounded => nominal
  case Finite(x) => if x < nominal then x else nominal
}

class LaneGroup {
  const length: real                  // [m]
  const numLanes: int
  const startLane: int
  const maxVehicles: real             // [veh]
  const transitTimeSec: real          // [s]
  const nomSaturationFlowRateVps: real
  const outlink2roadconnection: map<int, RoadConnection>
  const transitQueue: VehicleQueue
  const waitingQueue: VehicleQueue
  var saturationFlowRateVps: real
  var longitudinalSupply: real        // [veh]
  var actuatorCapacity: ActuatorSignal?

  /**
   * LaneGroup(...): jam density [veh/km/lane] times length in km times lanes
   * gives the vehicle capacity; length over speed [km/h] converted to seconds
   * the transit time; capacity [veh/h/lane] times lanes per 3600 the rate.
   */
  constructor (length: real, numLanes: int, startLane: int, rp: RoadParams, outRcs: seq<RoadConnection>)
    requires rp.speed != 0.0
    ensures this.length == length && this.numLanes == numLanes && this.startLane == startLane
    ensures maxVehicles == rp.jamDensity * (length / 1000.0) * numLanes as real
    ensures transitTimeSec == (length / rp.speed) * 3.6
    ensures saturationFlowRateVps == rp.capacity * numLanes as real / 3600.0
    ensures nomSaturationFlowRateVps == saturationFlowRateVps
    ensures actuatorCapacity == null
    ensures outlink2roadconnection == LastWins(OutlinkEntries(outRcs))
    ensures fresh(transitQueue) && fresh(waitingQueue) && transitQueue != waitingQueue
    ensures transitQueue.items == [] && waitingQueue.items == []
  {
    this.length := length;
    this.numLanes := numLanes;
    this.startLane := startLane;
    maxVehicles := rp.jamDensity * (length / 1000.0) * numLanes as real;
    transitTimeSec := (length / rp.speed) * 3.6;
    saturationFlowRateVps := rp.capacity * numLanes as real / 3600.0;
    nomSaturationFlowRateVps := rp.capacity * numLanes as real / 3600.0;
    actuatorCapacity := null;
    var m := LaneGroup.BuildOutlinkMap(outRcs);
    outlink2roadconnection := m;
    transitQueue := new VehicleQueue();
    waitingQueue := new VehicleQueue();
  }

  /**
   * LaneGroup(...) with the exception it raises: a zero speed divides the
   * length by zero.
   */
  static method Create(length: real, numLanes: int, startLane: int, rp: RoadParams, outRcs: seq<RoadConnection>)
    returns (r: Result<LaneGroup>)
    ensures r.Err? <==> rp.speed == 0.0
    ensures r.Err? ==> r.error == ZeroDivision
    ensures r.Ok? ==> fresh(r.value)
    ensures r.Ok? ==> r.value.length == length && r.value.numLanes == numLanes && r.value.startLane == startLane
    ensures r.Ok? ==> r.value.transitTimeSec == (length / rp.speed) * 3.6
    ensures r.Ok? ==> r.value.maxVehicles == rp.jamDensity * (length / 1000.0) * numLanes as real
    ensures r.Ok? ==> r.value.saturationFlowRateVps == r.value.nomSaturationFlowRateVps == rp.capacity * numLanes as real / 3600.0
    ensures r.Ok? ==> r.value.transitQueue.items == [] && r.value.waitingQueue.items == []
  {
    if rp.speed == 0.0 {
      return Err(ZeroDivision);
    }
    var lg := new LaneGroup(length, numLanes, startLane, rp, outRcs);
    r := Ok(lg);
  }

  /** The constructor's loop over out_rcs: `outlink2roadconnection[rc.out_link] = rc`. */
  static method BuildOutlinkMap(outRcs: seq<RoadConnection>) returns (m: map<int, RoadConnection>)
    ensures m == LastWins(OutlinkEntries(outRcs))
  {
    m := map[];
    var i := 0;
    while i < |outRcs|
      invariant 0 <= i <= |outRcs|
      invariant m == LastWins(OutlinkEntries(outRcs[..i]))
    {
      assert OutlinkEntries(outRcs[..i + 1]) == OutlinkEntries(outRcs[..i]) + [(outRcs[i].outLink, outRcs[i])];
      LastWinsAppend(OutlinkEntries(outRcs[..i]), outRcs[i].outLink, outRcs[i]);
      m := m[outRcs[i].outLink := outRcs[i]];
      i := i + 1;
    }
    assert outRcs[..i] == outRcs;
  }

  /** register_actuator. */
  method RegisterActuator(act: ActuatorSignal)
    modifies this`actuatorCapacity
    ensures actuatorCapacity == act
  {
    actuatorCapacity := act;
  }

  /** The vehicles in both queues (get_total_vehicles as intended). */
  function GetTotalVehicles(): (n: nat)
    reads this, transitQueue, waitingQueue
    ensures n == |transitQueue.items| + |waitingQueue.items|
  {
    VehicleCount(|transitQueue.items|, |waitingQueue.items|)
  }

  /** get_total_vehicles as written. */
  function GetTotalVehiclesAsWritten(): (n: nat)
    reads this, transitQueue, waitingQueue
    ensures n == 2 * |transitQueue.items|
  {
    VehicleCountAsWritten(|transitQueue.items|, |waitingQueue.items|)
  }

  /** initialize: both queues emptied, so the whole capacity is supply. */
  method Initialize()
    modifies this`longitudinalSupply, transitQueue, waitingQueue
    ensures transitQueue.items == [] && waitingQueue.items == []
    ensures longitudinalSupply == maxVehicles
  {
    transitQueue.Clear();
    waitingQueue.Clear();
    UpdateLongSupply();
  }

  /** update_long_supply: supply plus the vehicles present is the capacity. */
  method UpdateLongSupply()
    modifies this`longitudinalSupply
    ensures longitudinalSupply + GetTotalVehicles() as real == maxVehicles
  {
    longitudinalSupply := maxVehicles - GetTotalVehicles() as real;
  }

  /**
   * update_long_supply as written, on the doubled transit count: the supply
   * exceeds the corrected one by the waiting vehicles less those in transit.
   */
  method UpdateLongSupplyAsWritten()
    modifies this`longitudinalSupply
    ensures longitudinalSupply == maxVehicles - GetTotalVehiclesAsWritten() as real
    ensures longitudinalSupply - (maxVehicles - GetTotalVehicles() as real) ==
      |waitingQueue.items| as real - |transitQueue.items| as real
  {
    longitudinalSupply := maxVehicles - GetTotalVehiclesAsWritten() as real;
  }

  /** get_supply_per_lane: a lane group without lanes raises ZeroDivisionError. */
  function GetSupplyPerLane(): (r: Result<real>)
    reads this
    ensures r.Err? <==> numLanes == 0
    ensures r.Ok? ==> r.value * numLanes as real == longitudinalSupply
  {
    if numLanes == 0 then Err(ZeroDivision) else Ok(longitudinalSupply / numLanes as real)
  }

  /**
   * set_actuator_capacity_vps: a negative rate is ignored; otherwise the rate
   * becomes min(nominal, rate), so it never exceeds the nominal rate.
   */
  method SetActuatorCapacityVps(rate: Rate)
    modifies this`saturationFlowRateVps
    ensures rate.Finite? && rate.vps < 0.0 ==> saturationFlowRateVps == old(saturationFlowRateVps)
    ensures !(rate.Finite? && rate.vps < 0.0) ==> saturationFlowRateVps == CappedRate(nomSaturationFlowRateVps, rate)
  {
    if rate.Finite? && rate.vps < 0.0 {
      return;
    }
    saturationFlowRateVps := CappedRate(nomSaturationFlowRateVps, rate);
  }

  /** set_to_nominal_capacity. */
  method SetToNominalCapacity()
    modifies this`saturationFlowRateVps
    ensures saturationFlowRateVps == nomSaturationFlowRateVps
  {
    saturationFlowRateVps := nomSaturationFlowRateVps;
  }

  /**
   * add_vehicle: the vehicle moves into the transit queue, one
   * transit-to-waiting event is registered for when it has crossed the lane
   * group, and the supply is recomputed.
   */
  method AddVehicle(timestamp: real, veh: Vehicle, dispatcher: Dispatcher)
    modifies this`longitudinalSupply, veh, veh.myQueue, transitQueue, dispatcher`events
    ensures veh.myQueue == transitQueue && veh.lg == this
    ensures old(veh.myQueue) != transitQueue ==> transitQueue.items == old(transitQueue.items) + [veh]
    ensures old(veh.myQueue) == transitQueue ==> transitQueue.items == DropLead(old(transitQueue.items)) + [veh]
    ensures old(veh.myQueue) != null && old(veh.myQueue) != transitQueue ==>
      old(veh.myQueue).items == DropLead(old(veh.myQueue.items))
    ensures var e := TransitToWaitingEvent(timestamp + transitTimeSec, veh);
      if e.timestamp >= dispatcher.currentTime then dispatcher.Pending() == old(dispatcher.Pending()) + multiset{e}
      else dispatcher.events == old(dispatcher.events)
    ensures old(dispatcher.Valid()) ==> dispatcher.Valid()
    ensures longitudinalSupply + GetTotalVehicles() as real == maxVehicles
  {
    veh.MoveToQueue(this, transitQueue);
    dispatcher.RegisterEvent(TransitToWaitingEvent(timestamp + transitTimeSec, veh));
    UpdateLongSupply();
  }

  /**
   * schedule_release_vehicle: with a positive saturation rate exactly one
   * service event is registered, a sampled period after now; otherwise none.
   */
  method ScheduleReleaseVehicle(dispatcher: Dispatcher, expDraw: real)
    requires expDraw >= 0.0
    modifies dispatcher`events
    ensures saturationFlowRateVps <= 0.0 ==> dispatcher.events == old(dispatcher.events)
    ensures saturationFlowRateVps > 0.0 ==>
      dispatcher.Pending() == old(dispatcher.Pending()) +
        multiset{ServiceEvent(dispatcher.currentTime + expDraw / saturationFlowRateVps, this)}
    ensures old(dispatcher.Valid()) ==> dispatcher.Valid()
  {
    var nowtime := dispatcher.currentTime;
    var waitTime := GetServicePeriod(saturationFlowRateVps, expDraw);
    if waitTime.Some? {
      dispatcher.RegisterEvent(ServiceEvent(nowtime + waitTime.value, this));
    }
  }
}

/** The (out_link, road connection) pairs the constructor's loop stores. */
function OutlinkEntries(rcs: seq<RoadConnection>): (entries: seq<(int, RoadConnection)>)
  ensures |entries| == |rcs|
  ensures forall i :: 0 <= i < |rcs| ==> entries[i] == (rcs[i].outLink, rcs[i])
{
  if rcs == [] then [] else OutlinkEntries(rcs[..|rcs| - 1]) + [(rcs[|rcs| - 1].outLink, rcs[|rcs| - 1])]
}
