// Events.py: the event kinds with their fixed dispatch orders, and the
// Dispatcher that keeps pending events in a heapq list of
// (timestamp, dispatch_order, event) entries.  The dispatch loop itself, which
// runs each kind's action, is in dispatch.dfy.

/** What an event does when dispatched, with the recipient it acts on. */
datatype Action =
  | DemandChange(demand: Demand, demandVps: real)               // EventDemandChange
  | SplitChange(profile: SplitMatrixProfile, split: Link2Split)  // EventSplitChange
  | CreateVehicle(demand: Demand)                              // EventCreateVehicle
  | TransitToWaiting(vehicle: Vehicle)                         // EventTransitToWaiting
  | ServiceWaitingQueue(lanegroup: LaneGroup)                  // EventSeviceLanegroupWaitingQueue
  | StopSimulation(scenario: object)                           // EventStopSimulation
  | PokeController(controller: ControllerStage)                // EventPoke on a controller
  | PokeActuator(actuator: ActuatorSignal)                     // EventPoke on an actuator

/** The event classes, as `isinstance` tells them apart. */
datatype EventClass =
  | DemandChangeClass | SplitChangeClass | CreateVehicleClass | TransitToWaitingClass
  | ServiceClass | StopClass | PokeClass

datatype Event = Event(timestamp: real, dispatchOrder: int, action: Action)

function ClassOf(e: Event): (c: EventClass)
  ensures c == PokeClass <==> e.action.PokeController? || e.action.PokeActuator?
{
  match e.action
  case DemandChange(_, _) => DemandChangeClass
  case SplitChange(_, _) => SplitChangeClass
  case CreateVehicle(_) => CreateVehicleClass
  case TransitToWaiting(_) => TransitToWaitingClass
  case ServiceWaitingQueue(_) => ServiceClass
  case StopSimulation(_) => StopClass
  case PokeController(_) => PokeClass
  case PokeActuator(_) => PokeClass
}

/** AbstractEvent.recipient. */
function RecipientOf(e: Event): object
{
  match e.action
  case DemandChange(d, _) => d
  case SplitChange(p, _) => p
  case CreateVehicle(d) => d
  case TransitToWaiting(v) => v
  case ServiceWaitingQueue(lg) => lg
  case StopSimulation(s) => s
  case PokeController(c) => c
  case PokeActuator(a) => a
}

// The event constructors, each with the dispatch order its class fixes.

function DemandChangeEvent(timestamp: real, demand: Demand, demandVps: real): Event
{
  Event(timestamp, 0, DemandChange(demand, demandVps))
}

function SplitChangeEvent(timestamp: real, profile: SplitMatrixProfile, split: Link2Split): Event
{
  Event(timestamp, 0, SplitChange(profile, split))
}

function CreateVehicleEvent(timestamp: real, demand: Demand): Event
{
  Event(timestamp, 40, CreateVehicle(demand))
}

function TransitToWaitingEvent(timestamp: real, vehicle: Vehicle): Event
{
  Event(timestamp, 44, TransitToWaiting(vehicle))
}

function ServiceEvent(timestamp: real, lanegroup: LaneGroup): Event
{
  Event(timestamp, 45, ServiceWaitingQueue(lanegroup))
}

function StopEvent(timestamp: real, scenario: object): Event
{
  Event(timestamp, 10, StopSimulation(scenario))
}

/** On equal timestamps the orders put changes first, then stop, creation, transit, service. */
lemma DispatchOrders(t: real, d: Demand, p: SplitMatrixProfile, s: Link2Split, v: Vehicle,
                     lg: LaneGroup, sc: object, x: real)
  ensures KeyLt(DemandChangeEvent(t, d, x), StopEvent(t, sc))
  ensures KeyLt(SplitChangeEvent(t, p, s), StopEvent(t, sc))
  ensures KeyLt(StopEvent(t, sc), CreateVehicleEvent(t, d))
  ensures KeyLt(CreateVehicleEvent(t, d), TransitToWaitingEvent(t, v))
  ensures KeyLt(TransitToWaitingEvent(t, v), ServiceEvent(t, lg))
  ensures !KeyLt(DemandChangeEvent(t, d, x), SplitChangeEvent(t, p, s))
  ensures !KeyLt(SplitChangeEvent(t, p, s), DemandChangeEvent(t, d, x))
{
}

/** The test in remove_events_for_recipient's list comprehension. */
predicate Keeps(e: Event, clazz: EventClass, recipient: object)
{
  ClassOf(e) != clazz || RecipientOf(e) != recipient
}

/** `[e for e in events if keeps(e)]`: the kept events, in their list order. */
function KeepEvents(s: seq<Event>, clazz: EventClass, recipient: object): (t: seq<Event>)
  ensures |t| <= |s|
  ensures forall i :: 0 <= i < |t| ==> t[i] in s && Keeps(t[i], clazz, recipient)
  ensures forall i :: 0 <= i < |s| && Keeps(s[i], clazz, recipient) ==> s[i] in t
{
  if s == [] then []
  else
    var rest := KeepEvents(s[1..], clazz, recipient);
    assert s == [s[0]] + s[1..];
    if Keeps(s[0], clazz, recipient) then [s[0]] + rest else rest
}

/**
 * The filter drops only removed events: every kept event keeps its full
 * multiplicity, and nothing is added.
 */
lemma {:induction false} KeepEventsMultiplicity(s: seq<Event>, clazz: EventClass, recipient: object)
  ensures multiset(KeepEvents(s, clazz, recipient)) <= multiset(s)
  ensures forall e :: e in s && Keeps(e, clazz, recipient) ==>
    multiset(KeepEvents(s, clazz, recipient))[e] == multiset(s)[e]
{
  if s != [] {
    KeepEventsMultiplicity(s[1..], clazz, recipient);
    KeepEventsHead(s, clazz, recipient);
    forall e | e in s && Keeps(e, clazz, recipient)
      ensures multiset(KeepEvents(s, clazz, recipient))[e] == multiset(s)[e]
    {
      if e != s[0] {
        assert e in s[1..];
      }
    }
  }
}

/** The filter's first step, on multisets: the head is counted exactly when it is kept. */
lemma KeepEventsHead(s: seq<Event>, clazz: EventClass, recipient: object)
  requires s != []
  ensures multiset(s) == multiset{s[0]} + multiset(s[1..])
  ensures multiset(KeepEvents(s, clazz, recipient)) ==
    (if Keeps(s[0], clazz, recipient) then multiset{s[0]} else multiset{}) + multiset(KeepEvents(s[1..], clazz, recipient))
{
  assert s == [s[0]] + s[1..];
}

/** Every pending event is dated no earlier than `time`. */
ghost predicate NotBefore(s: seq<Event>, time: real)
{
  forall i :: 0 <= i < |s| ==> s[i].timestamp >= time
}

/** What registering `e` at time `now` adds to the pending events: `e`, unless it is in the past. */
function Admitted(e: Event, now: real): multiset<Event>
{
  if e.timestamp < now then multiset{} else multiset{e}
}

class Dispatcher {
  var currentTime: real
  var events: seq<Event>
  var continueSimulation: bool

  /** The pending events, regardless of their place in the heap list. */
  ghost function Pending(): multiset<Event>
    reads this
  {
    multiset(events)
  }

  /** The list is a heap and nothing pending lies in the past. */
  ghost predicate Valid()
    reads this
  {
    IsHeap(events) && NotBefore(events, currentTime)
  }

  constructor ()
    ensures events == [] && Valid()
  {
    events := [];
  }

  /** initialize: clock at 0, nothing pending, simulation on. */
  method Initialize()
    modifies this
    ensures currentTime == 0.0 && events == [] && continueSimulation
    ensures Valid()
  {
    currentTime := 0.0;
    ClearEvents();
    continueSimulation := true;
  }

  /** stop: drops every pending event, which ends the dispatch loop. */
  method Stop()
    modifies this`events
    ensures events == [] && Valid()
  {
    ClearEvents();
  }

  method ClearEvents()
    modifies this`events
    ensures events == [] && Valid()
  {
    events := [];
  }

  /**
   * register_event: an event dated before the current time is silently
   * dropped; any other joins the pending events and the heap order is kept.
   */
  method RegisterEvent(e: Event)
    modifies this`events
    ensures e.timestamp < currentTime ==> events == old(events)
    ensures e.timestamp >= currentTime ==> Pending() == old(Pending()) + multiset{e}
    ensures Pending() == old(Pending()) + Admitted(e, currentTime)
    ensures old(IsHeap(events)) ==> IsHeap(events)
    ensures old(Valid()) ==> Valid()
  {
    if e.timestamp < currentTime {
      return;
    }
    ghost var before := events;
    events := HeapPush(events, e);
    forall i | 0 <= i < |events| ensures events[i].timestamp >= currentTime || !NotBefore(before, currentTime) {
      if NotBefore(before, currentTime) {
        assert events[i] in multiset(events);
        assert events[i] in multiset(before) || events[i] == e;
      }
    }
  }

  /**
   * remove_events_for_recipient as written: the list comprehension keeps the
   * right events but the list is not re-heapified.
   */
  method RemoveEventsForRecipientAsWritten(clazz: EventClass, recipient: object)
    modifies this`events
    ensures events == KeepEvents(old(events), clazz, recipient)
  {
    events := KeepEvents(events, clazz, recipient);
  }

  /**
   * remove_events_for_recipient as intended: the same events are kept and the
   * heap order is restored by pushing them one by one into a fresh heap.
   */
  method RemoveEventsForRecipient(clazz: EventClass, recipient: object)
    modifies this`events
    ensures Pending() == multiset(KeepEvents(old(events), clazz, recipient))
    ensures IsHeap(events)
    ensures old(Valid()) ==> Valid()
  {
    var kept := KeepEvents(events, clazz, recipient);
    ghost var bounded := NotBefore(events, currentTime);
    events := Heapify(kept);
    if bounded {
      forall j | 0 <= j < |events| ensures events[j].timestamp >= currentTime {
        assert events[j] in multiset(kept);
        assert events[j] in old(events);
      }
    }
  }

  /** The kept events pushed one by one into a fresh heap. */
  static method Heapify(kept: seq<Event>) returns (h: seq<Event>)
    ensures multiset(h) == multiset(kept)
    ensures IsHeap(h)
  {
    h := [];
    var i := 0;
    while i < |kept|
      invariant 0 <= i <= |kept|
      invariant multiset(h) == multiset(kept[..i])
      invariant IsHeap(h)
    {
      h := HeapPush(h, kept[i]);
      assert kept[..i + 1] == kept[..i] + [kept[i]];
      i := i + 1;
    }
    assert kept[..i] == kept;
  }

  /**
   * One round of dispatch_all_events before the action runs: heappop, then the
   * clock moves to the popped timestamp.  On a valid dispatcher the popped
   * event is a minimum in (timestamp, dispatch_order) and time does not go back.
   */
  method PopNext() returns (e: Event)
    requires |events| > 0
    modifies this`events, this`currentTime
    ensures e == old(events[0]) && currentTime == e.timestamp
    ensures Pending() + multiset{e} == old(Pending())
    ensures old(Valid()) ==> Valid() && IsMinimumOf(e, old(events)) && old(currentTime) <= currentTime
  {
    ghost var before := events;
    ghost var wasValid := Valid();
    var rest;
    e, rest := HeapPop(events);
    events := rest;
    currentTime := e.timestamp;
    if wasValid {
      forall j | 0 <= j < |events| ensures events[j].timestamp >= currentTime {
        assert events[j] in multiset(before);
        var k :| 0 <= k < |before| && before[k] == events[j];
        assert KeyLe(e, before[k]);
      }
    }
  }
}

/**
 * remove_events_for_recipient as written can break the heap: from the heap
 * [change of d at 0, change of d2 at 5, change of d2 at 1], removing d's
 * demand changes leaves [at 5, at 1], whose head, the next heappop, is not
 * the earliest event.
 */
lemma RemovalWithoutHeapifyPopsLate(d: Demand, d2: Demand)
  requires d != d2
  ensures var h := [DemandChangeEvent(0.0, d, 0.0), DemandChangeEvent(5.0, d2, 0.0), DemandChangeEvent(1.0, d2, 0.0)];
    var kept := KeepEvents(h, DemandChangeClass, d);
    IsHeap(h) && kept == h[1..] && !IsHeap(kept) && !IsMinimumOf(kept[0], kept)
{
  var h := [DemandChangeEvent(0.0, d, 0.0), DemandChangeEvent(5.0, d2, 0.0), DemandChangeEvent(1.0, d2, 0.0)];
  KeepsAllButHead(h, d);
  ThreeHeap(h[0], h[1], h[2]);
  assert h[1..] == [h[1], h[2]];
  assert !KeyLe(h[1], h[2]);
}

/** Filtering out d's demand changes drops exactly the head here. */
lemma KeepsAllButHead(h: seq<Event>, d: Demand)
  requires |h| == 3 && h[0].action == DemandChange(d, 0.0)
  requires Keeps(h[1], DemandChangeClass, d) && Keeps(h[2], DemandChangeClass, d)
  ensures KeepEvents(h, DemandChangeClass, d) == h[1..]
{
  assert h[1..][1..] == h[2..] && h[2..][1..] == [];
  assert KeepEvents(h[2..], DemandChangeClass, d) == [h[2]];
}

/** Three elements form a heap when the first is no larger than the other two. */
lemma ThreeHeap(a: Event, b: Event, c: Event)
  requires KeyLe(a, b) && KeyLe(a, c)
  ensures IsHeap([a, b, c])
{
}
