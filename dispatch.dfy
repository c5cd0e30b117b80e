// Events.py: what each event kind does when dispatched, and the dispatch loop
// dispatch_all_events, which pops the earliest pending event, moves the clock
// to its timestamp and runs its action.  The exponential draws the actions
// consume are parameters.

/** EventDemandChange.action: the new demand takes effect, then the next change is chained. */
method DemandChangeAction(dispatcher: Dispatcher, demand: Demand, demandVps: real, expDraw: real) returns (r: Result<()>)
  requires expDraw >= 0.0
  modifies demand`currentDemandVps, demand`vehicleScheduled, dispatcher`events
  ensures demand.currentDemandVps * 3600.0 == demandVps
  ensures demandVps > 0.0 ==> demand.vehicleScheduled
  ensures r.Ok? <==> NextDemandChange(demand.profile, demand.dt, dispatcher.currentTime).Ok?
  ensures old(dispatcher.Pending()) <= dispatcher.Pending()
  ensures forall x :: x in dispatcher.Pending() && x !in old(dispatcher.Pending()) ==>
    x.action == CreateVehicle(demand) || (x.action.DemandChange? && x.action.demand == demand)
  ensures old(dispatcher.Valid()) ==> dispatcher.Valid()
  ensures old(demand.AtMostOneCreation(dispatcher)) ==> demand.AtMostOneCreation(dispatcher)
{
  demand.SetCurrentDemandVps(dispatcher, demandVps, expDraw);
  r := demand.RegisterNextChange(dispatcher);
}

/**
 * EventSplitChange.action: the split is installed, and the profile's next
 * change, when there is one, is registered.
 */
method SplitChangeAction(dispatcher: Dispatcher, profile: SplitMatrixProfile, split: Link2Split, timestamp: real)
  requires profile.Valid()
  modifies profile`outlink2split, dispatcher`events
  ensures profile.outlink2split == Some(split)
  ensures profile.dt.None? || profile.dt == Some(0.0) ==> dispatcher.events == old(dispatcher.events)
  ensures profile.dt.Some? && profile.dt.value != 0.0 ==>
    var index := NextIndex(timestamp, profile.dt.value);
    var time := index as real * profile.dt.value;
    && (index >= profile.profile.numTimes || time < dispatcher.currentTime ==> dispatcher.events == old(dispatcher.events))
    && (index < profile.profile.numTimes && time >= dispatcher.currentTime ==>
          dispatcher.Pending() == old(dispatcher.Pending()) +
            multiset{SplitChangeEvent(time, profile, IthValue(profile.profile, index))})
  ensures old(dispatcher.Valid()) ==> dispatcher.Valid()
{
  profile.SetAllCurrentSplits(split);
  var following := profile.GetChangeFollowing(timestamp);
  if following.Some? {
    profile.RegisterNextChange(dispatcher, following.value.0, Some(following.value.1));
  }
}

/**
 * EventCreateVehicle.action: a vehicle is created for the demand, which then
 * schedules its next creation when its rate is positive.
 */
method CreateVehicleAction(dispatcher: Dispatcher, demand: Demand, counter: VehicleIdCounter, expDraw: real)
  returns (v: Vehicle)
  requires expDraw >= 0.0
  modifies demand`vehicleScheduled, counter, dispatcher`events
  ensures fresh(v) && v.id == counter.count && counter.count == old(counter.count) + 1
  ensures demand.vehicleScheduled <==> demand.currentDemandVps > 0.0
  ensures demand.currentDemandVps > 0.0 ==>
    dispatcher.Pending() == old(dispatcher.Pending()) +
      multiset{CreateVehicleEvent(dispatcher.currentTime + expDraw / demand.currentDemandVps, demand)}
  ensures demand.currentDemandVps <= 0.0 ==> dispatcher.events == old(dispatcher.events)
  ensures old(CreationsFor(dispatcher.events, demand)) == 0 ==> demand.AtMostOneCreation(dispatcher)
  ensures old(dispatcher.Valid()) ==> dispatcher.Valid()
{
  v := demand.InsertVehicle(counter);
  demand.ScheduleNextVehicle(dispatcher, expDraw);
}

/**
 * EventTransitToWaiting.action: the vehicle moves to the waiting queue of its
 * lane group; a vehicle without a lane group raises instead.
 */
method TransitToWaitingAction(vehicle: Vehicle) returns (r: Result<()>)
  modifies vehicle, vehicle.myQueue, if vehicle.lg == null then {} else {vehicle.lg.waitingQueue}
  ensures old(vehicle.lg) == null ==>
    r == Err(MissingLaneGroup) && unchanged(vehicle) && (vehicle.myQueue != null ==> unchanged(vehicle.myQueue))
  ensures old(vehicle.lg) != null ==> r.Ok? && vehicle.lg == old(vehicle.lg) && vehicle.myQueue == vehicle.lg.waitingQueue
  ensures vehicle.nextLinkId == old(vehicle.nextLinkId) && vehicle.waitingForLaneChange == old(vehicle.waitingForLaneChange)
  ensures old(vehicle.lg) != null && old(vehicle.myQueue) == null ==>
    vehicle.lg.waitingQueue.items == old(vehicle.lg.waitingQueue.items) + [vehicle]
  ensures old(vehicle.lg) != null && old(vehicle.myQueue) != null && old(vehicle.myQueue) != old(vehicle.lg).waitingQueue ==>
    old(vehicle.myQueue).items == DropLead(old(vehicle.myQueue.items)) &&
    vehicle.lg.waitingQueue.items == old(vehicle.lg.waitingQueue.items) + [vehicle]
  ensures old(vehicle.lg) != null && old(vehicle.myQueue) == old(vehicle.lg).waitingQueue ==>
    vehicle.lg.waitingQueue.items == DropLead(old(vehicle.lg.waitingQueue.items)) + [vehicle]
{
  var lanegroup := vehicle.lg;
  if lanegroup == null {
    return Err(MissingLaneGroup);
  }
  vehicle.MoveToQueue(lanegroup, lanegroup.waitingQueue);
  r := Ok(());
}

/**
 * What running e's action needs: the objects it changes lie in `world`, and
 * its recipient is well formed.
 */
ghost predicate Ready(e: Event, world: set<object>, counter: VehicleIdCounter)
  reads if e.action.TransitToWaiting? then {e.action.vehicle} else {}
{
  match e.action
  case DemandChange(d, _) => d in world && counter in world
  case SplitChange(p, _) => p in world && p.Valid()
  case CreateVehicle(d) => d in world && counter in world
  case TransitToWaiting(v) => TransitFootprint(v) <= world
  case ServiceWaitingQueue(_) => true
  case StopSimulation(_) => true
  case PokeController(c) =>
    c.Valid() && c in world && c.ActuatorSet() <= world && c.PhaseSet() <= world && c.TargetSet() <= world
  case PokeActuator(a) => a.Valid() && a.Phases() <= world && a.Targets() <= world
}

/** What a transit of `v` may change: the vehicle, the queue it leaves and its lane group's waiting queue. */
ghost function TransitFootprint(v: Vehicle): set<object>
  reads v
{
  {v} + (if v.myQueue == null then {} else {v.myQueue}) + (if v.lg == null then {} else {v.lg.waitingQueue})
}

/** The vehicles the transit events in s move. */
ghost function MovedVehicles(s: seq<Event>): set<Vehicle>
{
  set i | 0 <= i < |s| && s[i].action.TransitToWaiting? :: s[i].action.vehicle
}

/** Every event in s is ready. */
ghost predicate AllReady(s: seq<Event>, world: set<object>, counter: VehicleIdCounter)
  reads MovedVehicles(s)
{
  forall i :: 0 <= i < |s| ==> Ready(s[i], world, counter)
}

/** Readiness depends on the events only as a multiset: what was pending stays ready, and so must what joins. */
lemma AllReadyGrows(before: seq<Event>, after: seq<Event>, world: set<object>, counter: VehicleIdCounter)
  requires AllReady(before, world, counter)
  requires forall x :: x in multiset(after) && x !in multiset(before) ==> Ready(x, world, counter)
  ensures AllReady(after, world, counter)
{
  forall i | 0 <= i < |after|
    ensures Ready(after[i], world, counter)
  {
    assert after[i] in multiset(after);
    if after[i] in multiset(before) {
      var j :| 0 <= j < |before| && before[j] == after[i];
    }
  }
}

/**
 * event.action() for a popped event e.  Stopping empties the pending events;
 * servicing a waiting queue does nothing, as no service step exists.  Only
 * the action's own recipient changes and gets new events; no pending event
 * is dropped except by stopping, every pending event stays ready, and the
 * clock is left alone.
 */
method RunAction(dispatcher: Dispatcher, e: Event, counter: VehicleIdCounter, expDraw: real, ghost world: set<object>)
  returns (r: Result<()>)
  requires Ready(e, world, counter) && expDraw >= 0.0
  requires AllReady(dispatcher.events, world, counter)
  modifies dispatcher`events
  modifies (if e.action.DemandChange? then {e.action.demand} else {})`currentDemandVps
  modifies (if e.action.DemandChange? || e.action.CreateVehicle? then {e.action.demand} else {})`vehicleScheduled
  modifies (if e.action.SplitChange? then {e.action.profile} else {})`outlink2split
  modifies if e.action.CreateVehicle? then {counter} else {}
  modifies if e.action.TransitToWaiting? then TransitFootprint(e.action.vehicle) else {}
  modifies (if e.action.PokeController? then {e.action.controller} else {})`currStageIndex
  modifies (if e.action.PokeController? then {e.action.controller} else {})`command
  modifies (if e.action.PokeController? then e.action.controller.ActuatorSet() else {})`command
  modifies (if e.action.PokeController? then e.action.controller.PhaseSet()
            else if e.action.PokeActuator? then e.action.actuator.Phases() else {})`bulbcolor
  modifies (if e.action.PokeController? then e.action.controller.TargetSet()
            else if e.action.PokeActuator? then e.action.actuator.Targets() else {})`saturationFlowRateVps
  ensures dispatcher.currentTime == old(dispatcher.currentTime)
  ensures old(dispatcher.Valid()) ==> dispatcher.Valid()
  ensures AllReady(dispatcher.events, world, counter)
  ensures SupplyKept(world)
  ensures Performed(dispatcher, e.action, counter, r, old(Before(e.action, counter)))
  ensures forall o :: o in world && o != dispatcher && o !in FootprintAt(e.action, counter, old(Before(e.action, counter))) ==>
    unchanged(o)
  ensures !e.action.StopSimulation? ==> old(dispatcher.Pending()) <= dispatcher.Pending()
  ensures e.action.ServiceWaitingQueue? || e.action.TransitToWaiting? ==> dispatcher.events == old(dispatcher.events)
{
  match e.action
  case DemandChange(demand, demandVps) =>
    r := DemandChangeStep(dispatcher, demand, demandVps, counter, expDraw, world);
  case SplitChange(profile, split) =>
    SplitChangeStep(dispatcher, profile, split, e.timestamp, counter, world);
    r := Ok(());
  case CreateVehicle(demand) =>
    CreateVehicleStep(dispatcher, demand, counter, expDraw, world);
    r := Ok(());
  case TransitToWaiting(vehicle) =>
    r := TransitToWaitingStep(dispatcher, vehicle, counter, world);
  case ServiceWaitingQueue(_) =>
    r := Ok(());
  case StopSimulation(_) =>
    dispatcher.Stop();
    r := Ok(());
  case PokeController(controller) =>
    r := PokeControllerStep(dispatcher, controller, e.timestamp, counter, world);
  case PokeActuator(actuator) =>
    PokeActuatorStep(dispatcher, actuator, e.timestamp, counter, world);
    r := Ok(());
}

/** No lane group in `world` changes its longitudinal supply or its actuator capacity. */
twostate predicate SupplyKept(world: set<object>)
  reads world
{
  forall lg: LaneGroup :: lg in world ==>
    lg.longitudinalSupply == old(lg.longitudinalSupply) && lg.actuatorCapacity == old(lg.actuatorCapacity)
}

/** The objects whose state says what `action` did. */
ghost function Recipient(action: Action): set<object>
{
  match action
  case DemandChange(d, _) => {d}
  case SplitChange(p, _) => {p}
  case CreateVehicle(d) => {d}
  case TransitToWaiting(v) => {v}
  case ServiceWaitingQueue(_) => {}
  case StopSimulation(_) => {}
  case PokeController(c) =>
    {c} + c.ActuatorSet() + c.TargetSet() +
    set i, p | 0 <= i < |c.actuators| && 0 <= p < |c.actuators[i].phases| :: c.actuators[i].phases[p]
  case PokeActuator(a) => {a} + a.Phases() + a.Targets()
}

/**
 * What an action's effects are measured against: the vehicle count, the
 * state of the vehicle it moves, the command of the controller it pokes,
 * and the colours and rates of the phases and lane groups it may change.
 */
datatype Snapshot = Snapshot(count: int, vehicle: VehicleState, command: map<int, CommandSignal>,
                             colors: map<SignalPhase, Option<BulbColor>>, rates: map<LaneGroup, real>)

/**
 * A vehicle about to move: its lane group, the queue it is in and that
 * queue's items, the items of its lane group's waiting queue, and the two
 * fields the move leaves alone.
 */
datatype VehicleState = VehicleState(lg: LaneGroup?, queue: VehicleQueue?, queueItems: seq<Vehicle>,
                                     waitingItems: seq<Vehicle>, nextLinkId: int, waitingForLaneChange: bool)

/** The queues a snapshot of a moving vehicle refers to. */
function SnapshotQueues(b: Snapshot): set<VehicleQueue>
{
  (if b.vehicle.queue == null then {} else {b.vehicle.queue}) +
  (if b.vehicle.lg == null then {} else {b.vehicle.lg.waitingQueue})
}

/** Nothing of a vehicle, for the actions that move none. */
const NoVehicle := VehicleState(null, null, [], [], 0, false)

/** The snapshot of what `action` may change, taken in the current state. */
ghost function Before(action: Action, counter: VehicleIdCounter): (b: Snapshot)
  reads counter
  reads if action.TransitToWaiting? then TransitFootprint(action.vehicle) else {}
  reads if action.PokeController? then {action.controller} else {}
  reads if action.PokeController? then action.controller.PhaseSet() else if action.PokeActuator? then action.actuator.Phases() else {}
  reads if action.PokeController? then action.controller.TargetSet() else if action.PokeActuator? then action.actuator.Targets() else {}
  ensures b.count == counter.count
{
  match action
  case TransitToWaiting(v) =>
    var moved := VehicleState(v.lg, v.myQueue, if v.myQueue == null then [] else v.myQueue.items,
                              if v.lg == null then [] else v.lg.waitingQueue.items, v.nextLinkId, v.waitingForLaneChange);
    Snapshot(counter.count, moved, map[], map[], map[])
  case PokeController(c) => Snapshot(counter.count, NoVehicle, c.command, ColorsOf(c.PhaseSet()), RatesOf(c.TargetSet()))
  case PokeActuator(a) => Snapshot(counter.count, NoVehicle, map[], ColorsOf(a.Phases()), RatesOf(a.Targets()))
  case _ => Snapshot(counter.count, NoVehicle, map[], map[], map[])
}

/**
 * What `action` did, measured against the snapshot `before` taken when it
 * started, by kind: the new demand rate, the installed split, the created
 * vehicle, the moved vehicle, the stage set and its command delivered, the
 * commanded colours and rates; and which of them raise.
 */
ghost predicate Performed(dispatcher: Dispatcher, action: Action, counter: VehicleIdCounter, r: Result<()>, before: Snapshot)
  reads dispatcher, counter, Recipient(action), SnapshotQueues(before)
{
  match action
  case DemandChange(d, demandVps) => DemandChanged(dispatcher, d, demandVps, counter, r, before)
  case SplitChange(p, split) => counter.count == before.count && p.outlink2split == Some(split) && r.Ok?
  case CreateVehicle(d) =>
    && counter.count == before.count + 1
    && (d.vehicleScheduled <==> d.currentDemandVps > 0.0)
    && r.Ok?
  case TransitToWaiting(v) => Moved(v, counter, r, before)
  case ServiceWaitingQueue(_) => counter.count == before.count && r.Ok?
  case StopSimulation(_) => counter.count == before.count && dispatcher.events == [] && r.Ok?
  case PokeController(c) => ControllerPoked(dispatcher, c, counter, r, before)
  case PokeActuator(a) => ActuatorPoked(a, counter, r, before)
}

/** A demand change: the new rate is installed, and it raises exactly when the next change cannot be scheduled. */
ghost predicate DemandChanged(dispatcher: Dispatcher, d: Demand, demandVps: real, counter: VehicleIdCounter, r: Result<()>,
                              before: Snapshot)
  reads dispatcher, d, counter
{
  && counter.count == before.count
  && d.currentDemandVps * 3600.0 == demandVps
  && (r.Ok? <==> NextDemandChange(d.profile, d.dt, dispatcher.currentTime).Ok?)
}

/**
 * A transit to the waiting queue: without a lane group it raises and moves
 * nothing; otherwise the vehicle leaves the lead of its queue and joins the
 * tail of its lane group's waiting queue.
 */
ghost predicate Moved(v: Vehicle, counter: VehicleIdCounter, r: Result<()>, before: Snapshot)
  reads v, counter, SnapshotQueues(before)
{
  var b := before.vehicle;
  && counter.count == before.count
  && (r.Err? <==> b.lg == null)
  && (r.Err? ==> r.error == MissingLaneGroup)
  && v.nextLinkId == b.nextLinkId && v.waitingForLaneChange == b.waitingForLaneChange
  && (b.lg == null ==> v.lg == null && v.myQueue == b.queue && (b.queue != null ==> b.queue.items == b.queueItems))
  && (b.lg != null ==> v.lg == b.lg && v.myQueue == b.lg.waitingQueue)
  && (b.lg != null ==>
        b.lg.waitingQueue.items == (if b.queue == b.lg.waitingQueue then DropLead(b.waitingItems) else b.waitingItems) + [v])
  && (b.lg != null && b.queue != null && b.queue != b.lg.waitingQueue ==> b.queue.items == DropLead(b.queueItems))
}

/**
 * A controller poke: it raises exactly when the stage of the current time
 * is missing; otherwise the stage is set and its command delivered.  Colours
 * and rates its actuators did not set stay as they were.
 */
ghost predicate ControllerPoked(dispatcher: Dispatcher, c: ControllerStage, counter: VehicleIdCounter, r: Result<()>,
                                before: Snapshot)
  reads dispatcher, counter, Recipient(PokeController(c))
{
  && counter.count == before.count
  && (r.Ok? <==> c.StageAt(dispatcher.currentTime).Ok? && 0 <= c.StageAt(dispatcher.currentTime).value.index < |c.stages|)
  && (r.Ok? ==> c.currStageIndex == Some(c.StageAt(dispatcher.currentTime).value.index))
  && (r.Ok? ==> c.command == before.command[c.signal.id := CommandForStage(c.stages, c.StageAt(dispatcher.currentTime).value.index).value])
  && (r.Ok? ==> c.Delivered())
  && (forall lg :: lg in c.TargetSet() && !(r.Ok? && c.PokedGates(|c.actuators|, lg)) ==>
        lg in before.rates && lg.saturationFlowRateVps == before.rates[lg])
  && (forall i :: 0 <= i < |c.actuators| && !(r.Ok? && c.PokedOnDelivery(c.actuators[i])) ==>
        ColorsAsIn(c.actuators[i].phases, before.colors))
}

/**
 * An actuator poke: a pending command sets the commanded colours and the
 * rates they gate; without one, colours and rates stay as they were.
 */
ghost predicate ActuatorPoked(a: ActuatorSignal, counter: VehicleIdCounter, r: Result<()>, before: Snapshot)
  reads counter, Recipient(PokeActuator(a))
{
  && counter.count == before.count
  && r.Ok?
  && (a.command.Some? ==> forall i :: 0 <= i < |a.phases| ==>
        a.phases[i].bulbcolor == Some(CommandedColor(a.command.value, a.phases[i].phaseId)))
  && (a.command.Some? ==>
        forall i, lg :: 0 <= i < |a.phases| && lg in a.phases[i].lanegroups && LastGatedBy(a.phases, |a.phases|, i, lg) ==>
        lg.saturationFlowRateVps == GatedRate(lg, CommandedColor(a.command.value, a.phases[i].phaseId)))
  && (a.command.None? ==> ColorsAsIn(a.phases, before.colors))
  && (a.command.None? ==> forall lg :: lg in a.Targets() ==> lg in before.rates && lg.saturationFlowRateVps == before.rates[lg])
}

// Each action with the bookkeeping that keeps every pending event ready.

method DemandChangeStep(dispatcher: Dispatcher, demand: Demand, demandVps: real, counter: VehicleIdCounter,
                        expDraw: real, ghost world: set<object>) returns (r: Result<()>)
  requires demand in world && counter in world && expDraw >= 0.0
  requires AllReady(dispatcher.events, world, counter)
  modifies demand`currentDemandVps, demand`vehicleScheduled, dispatcher`events
  ensures demand.currentDemandVps * 3600.0 == demandVps
  ensures r.Ok? <==> NextDemandChange(demand.profile, demand.dt, dispatcher.currentTime).Ok?
  ensures Performed(dispatcher, DemandChange(demand, demandVps), counter, r, old(Before(DemandChange(demand, demandVps), counter)))
  ensures old(dispatcher.Pending()) <= dispatcher.Pending()
  ensures old(dispatcher.Valid()) ==> dispatcher.Valid()
  ensures AllReady(dispatcher.events, world, counter)
  ensures SupplyKept(world)
{
  ghost var before := dispatcher.events;
  r := DemandChangeAction(dispatcher, demand, demandVps, expDraw);
  AllReadyGrows(before, dispatcher.events, world, counter);
}

method SplitChangeStep(dispatcher: Dispatcher, profile: SplitMatrixProfile, split: Link2Split, timestamp: real,
                       counter: VehicleIdCounter, ghost world: set<object>)
  requires profile in world && profile.Valid()
  requires AllReady(dispatcher.events, world, counter)
  modifies profile`outlink2split, dispatcher`events
  ensures profile.outlink2split == Some(split)
  ensures Performed(dispatcher, SplitChange(profile, split), counter, Ok(()), old(Before(SplitChange(profile, split), counter)))
  ensures old(dispatcher.Pending()) <= dispatcher.Pending()
  ensures old(dispatcher.Valid()) ==> dispatcher.Valid()
  ensures AllReady(dispatcher.events, world, counter)
  ensures SupplyKept(world)
{
  ghost var before := dispatcher.events;
  SplitChangeAction(dispatcher, profile, split, timestamp);
  AllReadyGrows(before, dispatcher.events, world, counter);
}

method CreateVehicleStep(dispatcher: Dispatcher, demand: Demand, counter: VehicleIdCounter, expDraw: real,
                         ghost world: set<object>)
  requires demand in world && counter in world && expDraw >= 0.0
  requires AllReady(dispatcher.events, world, counter)
  modifies demand`vehicleScheduled, counter, dispatcher`events
  ensures counter.count == old(counter.count) + 1
  ensures demand.vehicleScheduled <==> demand.currentDemandVps > 0.0
  ensures Performed(dispatcher, CreateVehicle(demand), counter, Ok(()), old(Before(CreateVehicle(demand), counter)))
  ensures old(dispatcher.Pending()) <= dispatcher.Pending()
  ensures old(dispatcher.Valid()) ==> dispatcher.Valid()
  ensures AllReady(dispatcher.events, world, counter)
  ensures SupplyKept(world)
{
  ghost var before := dispatcher.events;
  var _ := CreateVehicleAction(dispatcher, demand, counter, expDraw);
  AllReadyGrows(before, dispatcher.events, world, counter);
}

method TransitToWaitingStep(dispatcher: Dispatcher, vehicle: Vehicle, counter: VehicleIdCounter, ghost world: set<object>)
  returns (r: Result<()>)
  requires Ready(TransitToWaitingEvent(0.0, vehicle), world, counter)
  requires AllReady(dispatcher.events, world, counter)
  modifies vehicle, vehicle.myQueue, if vehicle.lg == null then {} else {vehicle.lg.waitingQueue}
  ensures r.Err? <==> old(vehicle.lg) == null
  ensures r.Err? ==> r.error == MissingLaneGroup
  ensures old(vehicle.lg) != null ==> vehicle.lg == old(vehicle.lg) && vehicle.myQueue == vehicle.lg.waitingQueue
  ensures Performed(dispatcher, TransitToWaiting(vehicle), counter, r, old(Before(TransitToWaiting(vehicle), counter)))
  ensures AllReady(dispatcher.events, world, counter)
  ensures SupplyKept(world)
{
  r := TransitToWaitingAction(vehicle);
  forall i | 0 <= i < |dispatcher.events|
    ensures Ready(dispatcher.events[i], world, counter)
  {
    assert old(Ready(dispatcher.events[i], world, counter));
  }
}

method PokeControllerStep(dispatcher: Dispatcher, controller: ControllerStage, timestamp: real,
                          counter: VehicleIdCounter, ghost world: set<object>) returns (r: Result<()>)
  requires Ready(ControllerPokeEvent(timestamp, 0, controller), world, counter)
  requires AllReady(dispatcher.events, world, counter)
  modifies controller`currStageIndex, controller`command, controller.ActuatorSet()`command,
    controller.PhaseSet()`bulbcolor, controller.TargetSet()`saturationFlowRateVps, dispatcher`events
  ensures Performed(dispatcher, PokeController(controller), counter, r, old(Before(PokeController(controller), counter)))
  ensures old(dispatcher.Pending()) <= dispatcher.Pending()
  ensures old(dispatcher.Valid()) ==> dispatcher.Valid()
  ensures AllReady(dispatcher.events, world, counter)
{
  ghost var before := dispatcher.events;
  r := PokeControllerAction(dispatcher, controller, timestamp, counter);
  assert AllReady(before, world, counter);
  AllReadyGrows(before, dispatcher.events, world, counter);
}

/**
 * EventPokeController.action: the controller's poke, its effects measured
 * against the snapshot taken before it.
 */
method PokeControllerAction(dispatcher: Dispatcher, controller: ControllerStage, timestamp: real, ghost counter: VehicleIdCounter)
  returns (r: Result<()>)
  requires controller.Valid()
  modifies controller`currStageIndex, controller`command, controller.ActuatorSet()`command,
    controller.PhaseSet()`bulbcolor, controller.TargetSet()`saturationFlowRateVps, dispatcher`events
  ensures Performed(dispatcher, PokeController(controller), counter, r, old(Before(PokeController(controller), counter)))
  ensures r.Ok? ==>
    dispatcher.Pending() == old(dispatcher.Pending()) +
      Admitted(controller.StageChangePoke(dispatcher.currentTime), dispatcher.currentTime) +
      (if controller.dt.Some? && controller.dt.value > 0.0
       then Admitted(ControllerPokeEvent(timestamp + controller.dt.value, 20, controller), dispatcher.currentTime)
       else multiset{})
  ensures r.Err? ==> dispatcher.events == old(dispatcher.events)
  ensures old(dispatcher.Valid()) ==> dispatcher.Valid()
{
  ghost var snapshot := Before(PokeController(controller), counter);
  r := controller.Poke(dispatcher, timestamp);
  forall lg | lg in controller.TargetSet() && !(r.Ok? && controller.PokedGates(|controller.actuators|, lg))
    ensures lg in snapshot.rates && lg.saturationFlowRateVps == snapshot.rates[lg]
  {
  }
  forall i | 0 <= i < |controller.actuators| && !(r.Ok? && controller.PokedOnDelivery(controller.actuators[i]))
    ensures ColorsAsIn(controller.actuators[i].phases, snapshot.colors)
  {
    var a := controller.actuators[i];
    assert controller.ColorsKept(a);
    forall p | 0 <= p < |a.phases|
      ensures a.phases[p] in snapshot.colors && a.phases[p].bulbcolor == snapshot.colors[a.phases[p]]
    {
      assert a in controller.actuators && a.phases[p] in a.phases;
    }
  }
}

method PokeActuatorStep(dispatcher: Dispatcher, actuator: ActuatorSignal, timestamp: real,
                        counter: VehicleIdCounter, ghost world: set<object>)
  requires Ready(ActuatorPokeEvent(timestamp, actuator), world, counter)
  requires AllReady(dispatcher.events, world, counter)
  modifies actuator.Phases()`bulbcolor, actuator.Targets()`saturationFlowRateVps, dispatcher`events
  ensures actuator.command.Some? ==> forall i :: 0 <= i < |actuator.phases| ==>
    actuator.phases[i].bulbcolor == Some(CommandedColor(actuator.command.value, actuator.phases[i].phaseId))
  ensures actuator.command.Some? ==> forall i, lg :: 0 <= i < |actuator.phases| && LastGatedBy(actuator.phases, |actuator.phases|, i, lg) ==>
    lg.saturationFlowRateVps == GatedRate(lg, CommandedColor(actuator.command.value, actuator.phases[i].phaseId))
  ensures actuator.command.None? ==> forall i :: 0 <= i < |actuator.phases| ==>
    actuator.phases[i].bulbcolor == old(actuator.phases[i].bulbcolor)
  ensures actuator.command.None? ==> forall i, j :: 0 <= i < |actuator.phases| && 0 <= j < |actuator.phases[i].lanegroups| ==>
    actuator.phases[i].lanegroups[j].saturationFlowRateVps == old(actuator.phases[i].lanegroups[j].saturationFlowRateVps)
  ensures Performed(dispatcher, PokeActuator(actuator), counter, Ok(()), old(Before(PokeActuator(actuator), counter)))
  ensures old(dispatcher.Pending()) <= dispatcher.Pending()
  ensures old(dispatcher.Valid()) ==> dispatcher.Valid()
  ensures AllReady(dispatcher.events, world, counter)
{
  ghost var before := dispatcher.events;
  actuator.Poke(dispatcher, timestamp);
  AllReadyGrows(before, dispatcher.events, world, counter);
}

/**
 * dispatch_all_events, for at most `fuel` rounds: while events are pending,
 * pop the earliest, move the clock to it and run its action, which consumes
 * draw k in round k.  An action that raises ends the loop with its error.
 * Registration refuses past events and pops take the minimum, so the
 * dispatched events come in timestamp order and the clock never goes back.
 * Round k ends with results[k]; its action is measured against befores[k],
 * the snapshot taken when it started.  `Progress` holds all of this at the
 * end (ProgressFacts spells it out); the last round's action was performed,
 * and only what the rounds' actions may touch has changed.
 */
method DispatchAllEvents(dispatcher: Dispatcher, counter: VehicleIdCounter, draws: seq<real>, fuel: nat,
                         ghost world: set<object>)
  returns (dispatched: seq<Event>, r: Result<()>, ghost pendingAt: seq<seq<Event>>,
           ghost results: seq<Result<()>>, ghost befores: seq<Snapshot>)
  requires dispatcher.Valid() && AllReady(dispatcher.events, world, counter)
  requires fuel <= |draws| && forall k :: 0 <= k < |draws| ==> draws[k] >= 0.0
  modifies dispatcher`events, dispatcher`currentTime, world
  ensures dispatcher.Valid()
  ensures |dispatched| <= fuel
  ensures r.Ok? && |dispatched| < fuel ==> dispatcher.events == []
  ensures Progress(dispatched, pendingAt, results, befores, r, old(dispatcher.currentTime), dispatcher.currentTime,
                   old(dispatcher.events), dispatcher.events, old(counter.count), counter.count)
  ensures |dispatched| > 0 ==> Performed(dispatcher, dispatched[|dispatched| - 1].action, counter, r, befores[|dispatched| - 1])
  ensures SupplyKept(world)
  ensures forall o :: o in world && o != dispatcher && o !in Touched(dispatched, counter, befores) ==> unchanged(o)
  ensures counter.count == old(counter.count) + Creations(dispatched)
{
  dispatched := [];
  pendingAt := [];
  results := [];
  befores := [];
  r := Ok(());
  ghost var start := dispatcher.currentTime;
  ghost var initial := dispatcher.events;
  ghost var count := counter.count;
  while r.Ok? && |dispatcher.events| > 0 && |dispatched| < fuel
    invariant dispatcher.Valid() && AllReady(dispatcher.events, world, counter)
    invariant |dispatched| <= fuel
    invariant Progress(dispatched, pendingAt, results, befores, r, start, dispatcher.currentTime, initial, dispatcher.events,
                       count, counter.count)
    invariant |dispatched| > 0 ==> Performed(dispatcher, dispatched[|dispatched| - 1].action, counter, r, befores[|dispatched| - 1])
    invariant SupplyKept(world)
    invariant forall o :: o in world && o != dispatcher && o !in Touched(dispatched, counter, befores) ==> unchanged(o)
    decreases fuel - |dispatched|
  {
    dispatched, r, pendingAt, results, befores :=
      DispatchRound(dispatcher, counter, draws[|dispatched|], world, dispatched, pendingAt, results, befores, r,
                    start, initial, count);
  }
}

/**
 * Where the loop of dispatch_all_events stands: its history of pops, one
 * result and one snapshot per round, r the last result, and the vehicle
 * count raised once per creation dispatched.
 */
ghost predicate Progress(dispatched: seq<Event>, pendingAt: seq<seq<Event>>, results: seq<Result<()>>, befores: seq<Snapshot>,
                         r: Result<()>, start: real, now: real, initial: seq<Event>, events: seq<Event>,
                         count0: int, count: int)
{
  && History(dispatched, pendingAt, start, now, initial, events)
  && Outcomes(dispatched, results, befores, count0)
  && r == (if |results| == 0 then Ok(()) else results[|results| - 1])
  && count == count0 + Creations(dispatched)
}

/** Progress spelled out. */
lemma ProgressFacts(dispatched: seq<Event>, pendingAt: seq<seq<Event>>, results: seq<Result<()>>, befores: seq<Snapshot>,
                    r: Result<()>, start: real, now: real, initial: seq<Event>, events: seq<Event>,
                    count0: int, count: int)
  requires Progress(dispatched, pendingAt, results, befores, r, start, now, initial, events, count0, count)
  ensures forall i, j :: 0 <= i < j < |dispatched| ==> dispatched[i].timestamp <= dispatched[j].timestamp
  ensures forall i :: 0 <= i < |dispatched| ==> start <= dispatched[i].timestamp <= now
  ensures |dispatched| > 0 ==> now == dispatched[|dispatched| - 1].timestamp
  ensures start <= now
  ensures PoppedMinima(dispatched, pendingAt) && RoundsChained(dispatched, pendingAt)
  ensures |dispatched| > 0 ==> pendingAt[0] == initial
  ensures |dispatched| == 0 ==> events == initial
  ensures |dispatched| > 0 ==> RoundEvents(dispatched[|dispatched| - 1], pendingAt[|dispatched| - 1], events)
  ensures Outcomes(dispatched, results, befores, count0)
  ensures r == (if |results| == 0 then Ok(()) else results[|results| - 1])
  ensures count == count0 + Creations(dispatched)
{
}

/**
 * One round of the loop: DispatchNext, with the round's event, pending
 * events, result and snapshot appended to the loop's history.
 */
method DispatchRound(dispatcher: Dispatcher, counter: VehicleIdCounter, draw: real, ghost world: set<object>,
                     dispatched: seq<Event>, ghost pendingAt: seq<seq<Event>>, ghost results: seq<Result<()>>,
                     ghost befores: seq<Snapshot>, ghost r0: Result<()>, ghost start: real, ghost initial: seq<Event>,
                     ghost count0: int)
  returns (dispatched': seq<Event>, r: Result<()>, ghost pendingAt': seq<seq<Event>>, ghost results': seq<Result<()>>,
           ghost befores': seq<Snapshot>)
  requires dispatcher.Valid() && AllReady(dispatcher.events, world, counter)
  requires |dispatcher.events| > 0 && draw >= 0.0 && r0.Ok?
  requires Progress(dispatched, pendingAt, results, befores, r0, start, dispatcher.currentTime, initial, dispatcher.events,
                    count0, counter.count)
  modifies dispatcher`events, dispatcher`currentTime, world
  ensures dispatcher.Valid() && AllReady(dispatcher.events, world, counter)
  ensures |dispatched'| == |dispatched| + 1
  ensures Progress(dispatched', pendingAt', results', befores', r, start, dispatcher.currentTime, initial, dispatcher.events,
                   count0, counter.count)
  ensures |dispatched'| > 0 ==> Performed(dispatcher, dispatched'[|dispatched'| - 1].action, counter, r, befores'[|dispatched'| - 1])
  ensures SupplyKept(world)
  ensures Touched(dispatched, counter, befores) <= Touched(dispatched', counter, befores')
  ensures forall o :: o in world && o != dispatcher && o !in Touched(dispatched', counter, befores') ==> unchanged(o)
{
  ghost var pending := dispatcher.events;
  ghost var now := dispatcher.currentTime;
  var e;
  ghost var before;
  e, r, before := DispatchNext(dispatcher, counter, draw, world);
  HistoryExtend(dispatched, pendingAt, start, now, initial, pending, e, dispatcher.events);
  OutcomesExtend(dispatched, results, befores, count0, e, r, before);
  TouchedExtend(dispatched, counter, befores, e, before);
  dispatched', pendingAt', results', befores' := dispatched + [e], pendingAt + [pending], results + [r], befores + [before];
  assert dispatched'[|dispatched'| - 1] == e && befores'[|dispatched'| - 1] == before;
}

/** The vehicle creations among the dispatched events. */
function Creations(dispatched: seq<Event>): nat
{
  if dispatched == [] then 0
  else Creations(dispatched[..|dispatched| - 1]) + (if dispatched[|dispatched| - 1].action.CreateVehicle? then 1 else 0)
}

/**
 * One result and one snapshot per round; every round but the last ended
 * without an error, and the snapshot of round k saw the vehicle count
 * raised once by each creation of the rounds before it.
 */
ghost predicate Outcomes(dispatched: seq<Event>, results: seq<Result<()>>, befores: seq<Snapshot>, count: int)
{
  && |results| == |dispatched| && |befores| == |dispatched|
  && (forall k :: 0 <= k < |results| - 1 ==> results[k].Ok?)
  && (forall k :: 0 <= k < |befores| ==> befores[k].count == count + Creations(dispatched[..k]))
}

lemma OutcomesExtend(dispatched: seq<Event>, results: seq<Result<()>>, befores: seq<Snapshot>, count: int,
                     e: Event, r: Result<()>, before: Snapshot)
  requires Outcomes(dispatched, results, befores, count)
  requires |results| > 0 ==> results[|results| - 1].Ok?
  requires before.count == count + Creations(dispatched)
  ensures Outcomes(dispatched + [e], results + [r], befores + [before], count)
  ensures Creations(dispatched + [e]) == Creations(dispatched) + (if e.action.CreateVehicle? then 1 else 0)
{
  var d := dispatched + [e];
  assert d[..|dispatched|] == dispatched;
  forall k | 0 <= k < |d|
    ensures (befores + [before])[k].count == count + Creations(d[..k])
  {
    if k < |dispatched| {
      assert d[..k] == dispatched[..k];
    }
  }
}

/** The objects the dispatched rounds may have changed, each round's taken from its snapshot. */
ghost function Touched(dispatched: seq<Event>, counter: VehicleIdCounter, befores: seq<Snapshot>): set<object>
  requires |befores| == |dispatched|
{
  if dispatched == [] then {}
  else Touched(dispatched[..|dispatched| - 1], counter, befores[..|befores| - 1]) +
       FootprintAt(dispatched[|dispatched| - 1].action, counter, befores[|befores| - 1])
}

lemma TouchedExtend(dispatched: seq<Event>, counter: VehicleIdCounter, befores: seq<Snapshot>, e: Event, before: Snapshot)
  requires |befores| == |dispatched|
  ensures Touched(dispatched + [e], counter, befores + [before]) ==
          Touched(dispatched, counter, befores) + FootprintAt(e.action, counter, before)
{
  assert (dispatched + [e])[..|dispatched|] == dispatched;
  assert (befores + [before])[..|befores|] == befores;
}

/**
 * What the rounds so far have done: the dispatched events come in order,
 * each was a minimum of the events pending at its round's start, and each
 * round kept what the previous one left; `events` is what is pending now.
 */
ghost predicate History(dispatched: seq<Event>, pendingAt: seq<seq<Event>>, start: real, now: real,
                        initial: seq<Event>, events: seq<Event>)
{
  && DispatchedInOrder(dispatched, start, now)
  && PoppedMinima(dispatched, pendingAt)
  && RoundsChained(dispatched, pendingAt)
  && (|dispatched| == 0 ==> events == initial)
  && (|dispatched| > 0 ==> pendingAt[0] == initial)
  && (|dispatched| > 0 ==> RoundEvents(dispatched[|dispatched| - 1], pendingAt[|dispatched| - 1], events))
}

lemma HistoryExtend(dispatched: seq<Event>, pendingAt: seq<seq<Event>>, start: real, now: real,
                    initial: seq<Event>, pending: seq<Event>, e: Event, events: seq<Event>)
  requires History(dispatched, pendingAt, start, now, initial, pending)
  requires e in multiset(pending) && IsMinimumOf(e, pending) && now <= e.timestamp
  requires RoundEvents(e, pending, events)
  ensures History(dispatched + [e], pendingAt + [pending], start, e.timestamp, initial, events)
{
  PoppedMinimaExtend(dispatched, pendingAt, e, pending);
  RoundsChainedExtend(dispatched, pendingAt, e, pending);
  DispatchedInOrderExtend(dispatched, start, now, e);
  if |dispatched| > 0 {
    assert (pendingAt + [pending])[0] == pendingAt[0];
  }
}

/**
 * The events dispatched since the clock stood at `start` come in timestamp
 * order, none before `start`, and the clock `now` stands at the last of them.
 */
ghost predicate DispatchedInOrder(dispatched: seq<Event>, start: real, now: real)
{
  && (forall i, j :: 0 <= i < j < |dispatched| ==> dispatched[i].timestamp <= dispatched[j].timestamp)
  && (forall i :: 0 <= i < |dispatched| ==> start <= dispatched[i].timestamp <= now)
  && (|dispatched| > 0 ==> now == dispatched[|dispatched| - 1].timestamp)
  && start <= now
}

lemma DispatchedInOrderExtend(dispatched: seq<Event>, start: real, now: real, e: Event)
  requires DispatchedInOrder(dispatched, start, now) && now <= e.timestamp
  ensures DispatchedInOrder(dispatched + [e], start, e.timestamp)
{
  var d := dispatched + [e];
  forall i | 0 <= i < |dispatched|
    ensures d[i].timestamp <= e.timestamp
  {
    assert d[i] == dispatched[i];
  }
}

/** Round k dispatched a minimum of the events pending at its start, pendingAt[k]. */
ghost predicate PoppedMinima(dispatched: seq<Event>, pendingAt: seq<seq<Event>>)
{
  |pendingAt| == |dispatched| &&
  forall k :: 0 <= k < |dispatched| ==> dispatched[k] in multiset(pendingAt[k]) && IsMinimumOf(dispatched[k], pendingAt[k])
}

lemma PoppedMinimaExtend(dispatched: seq<Event>, pendingAt: seq<seq<Event>>, e: Event, pending: seq<Event>)
  requires PoppedMinima(dispatched, pendingAt)
  requires e in multiset(pending) && IsMinimumOf(e, pending)
  ensures PoppedMinima(dispatched + [e], pendingAt + [pending])
{
  var d, p := dispatched + [e], pendingAt + [pending];
  forall k | 0 <= k < |d|
    ensures d[k] in multiset(p[k]) && IsMinimumOf(d[k], p[k])
  {
    if k < |dispatched| {
      assert d[k] == dispatched[k] && p[k] == pendingAt[k];
    }
  }
}

/**
 * A round that pops e from the pending events `before` and runs its action
 * leaves `after`: none when e stops the simulation, exactly the others when
 * e's action registers nothing (a transit or a service), and otherwise the
 * others together with whatever the action registered.
 */
ghost predicate RoundEvents(e: Event, before: seq<Event>, after: seq<Event>)
{
  if e.action.StopSimulation? then after == []
  else if e.action.ServiceWaitingQueue? || e.action.TransitToWaiting? then multiset(after) == multiset(before) - multiset{e}
  else multiset(before) - multiset{e} <= multiset(after)
}

/** Each round's pending events are the previous round's, less its popped event, plus what its action added. */
ghost predicate RoundsChained(dispatched: seq<Event>, pendingAt: seq<seq<Event>>)
{
  |pendingAt| == |dispatched| &&
  forall k :: 0 <= k < |dispatched| - 1 ==> RoundEvents(dispatched[k], pendingAt[k], pendingAt[k + 1])
}

lemma RoundsChainedExtend(dispatched: seq<Event>, pendingAt: seq<seq<Event>>, e: Event, pending: seq<Event>)
  requires RoundsChained(dispatched, pendingAt)
  requires |dispatched| > 0 ==> RoundEvents(dispatched[|dispatched| - 1], pendingAt[|dispatched| - 1], pending)
  ensures RoundsChained(dispatched + [e], pendingAt + [pending])
{
  var d, p := dispatched + [e], pendingAt + [pending];
  forall k | 0 <= k < |d| - 1
    ensures RoundEvents(d[k], p[k], p[k + 1])
  {
    assert d[k] == dispatched[k] && p[k] == pendingAt[k];
    if k + 1 < |dispatched| {
      assert p[k + 1] == pendingAt[k + 1];
    }
  }
}

/** One round of dispatch_all_events: pop the earliest event, move the clock to it, run its action. */
method DispatchNext(dispatcher: Dispatcher, counter: VehicleIdCounter, draw: real, ghost world: set<object>)
  returns (e: Event, r: Result<()>, ghost before: Snapshot)
  requires dispatcher.Valid() && AllReady(dispatcher.events, world, counter)
  requires |dispatcher.events| > 0 && draw >= 0.0
  modifies dispatcher`events, dispatcher`currentTime, world
  ensures dispatcher.Valid() && AllReady(dispatcher.events, world, counter)
  ensures e in multiset(old(dispatcher.events)) && IsMinimumOf(e, old(dispatcher.events))
  ensures old(dispatcher.currentTime) <= e.timestamp == dispatcher.currentTime
  ensures before == old(Before(e.action, counter))
  ensures Performed(dispatcher, e.action, counter, r, before)
  ensures RoundEvents(e, old(dispatcher.events), dispatcher.events)
  ensures counter.count == before.count + (if e.action.CreateVehicle? then 1 else 0)
  ensures SupplyKept(world)
  ensures forall o :: o in world && o != dispatcher && o !in FootprintAt(e.action, counter, before) ==> unchanged(o)
{
  e := PopEarliest(dispatcher, counter, world);
  before := Before(e.action, counter);
  r := RunAction(dispatcher, e, counter, draw, world);
  PerformedCount(dispatcher, e.action, counter, r, before);
}

/** Only a creation changes the vehicle count, and by one. */
lemma PerformedCount(dispatcher: Dispatcher, action: Action, counter: VehicleIdCounter, r: Result<()>, before: Snapshot)
  requires Performed(dispatcher, action, counter, r, before)
  ensures counter.count == before.count + (if action.CreateVehicle? then 1 else 0)
{
}

/**
 * The objects an action may change, from the snapshot taken when it starts:
 * its recipient, the vehicle counter of a creation, and the queues a moving
 * vehicle leaves and joins.
 */
ghost function FootprintAt(action: Action, counter: VehicleIdCounter, before: Snapshot): set<object>
{
  match action
  case CreateVehicle(d) => {d, counter}
  case TransitToWaiting(v) => {v} + SnapshotQueues(before)
  case _ => Recipient(action)
}

/**
 * The first half of a round: pop the earliest event and move the clock to
 * it; nothing the popped event's action is measured against changes.
 */
method PopEarliest(dispatcher: Dispatcher, counter: VehicleIdCounter, ghost world: set<object>) returns (e: Event)
  requires dispatcher.Valid() && AllReady(dispatcher.events, world, counter)
  requires |dispatcher.events| > 0
  modifies dispatcher`events, dispatcher`currentTime
  ensures dispatcher.Valid() && AllReady(dispatcher.events, world, counter) && Ready(e, world, counter)
  ensures e in multiset(old(dispatcher.events)) && IsMinimumOf(e, old(dispatcher.events))
  ensures old(dispatcher.currentTime) <= e.timestamp == dispatcher.currentTime
  ensures dispatcher.Pending() + multiset{e} == old(dispatcher.Pending())
  ensures Before(e.action, counter) == old(Before(e.action, counter))
  ensures SupplyKept(world)
  ensures forall o :: o in world && o != dispatcher ==> unchanged(o)
{
  ghost var pending := dispatcher.events;
  assert pending[0] in pending;
  e := dispatcher.PopNext();
  assert Ready(e, world, counter);
  AllReadyAfterPop(pending, dispatcher.events, e, world, counter);
}

/** Popping an event leaves the rest ready. */
lemma AllReadyAfterPop(before: seq<Event>, after: seq<Event>, e: Event, world: set<object>, counter: VehicleIdCounter)
  requires multiset(after) + multiset{e} == multiset(before)
  requires AllReady(before, world, counter)
  ensures AllReady(after, world, counter)
{
  AllReadyGrows(before, after, world, counter);
}
