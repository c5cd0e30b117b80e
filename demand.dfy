// Demand.py: a piecewise-constant vehicle demand on one link.  The demand
// keeps at most one vehicle creation pending in the dispatcher, guarded by
// its `vehicle_scheduled` flag, and chains its own profile changes.

class Demand {
  const link: Link
  const profile: seq<real>         // [veh/h], one value per time step
  const dt: Option<real>           // [s], None for a constant demand
  var currentDemandVps: real       // [veh/s]
  var vehicleScheduled: bool

  /**
   * Demand(...): the profile is the comma-separated list of values (splitting
   * a string always yields at least one); a one-value profile has no dt.
   */
  constructor (link: Link, values: seq<real>, dt: Option<real>)
    requires |values| >= 1
    ensures this.link == link && profile == values
    ensures this.dt == if |values| == 1 then None else dt
  {
    this.link := link;
    profile := values;
    this.dt := if |values| == 1 then None else dt;
  }

  /** At most one creation of this demand is pending, and none unless the flag is up. */
  ghost predicate AtMostOneCreation(dispatcher: Dispatcher)
    reads this, dispatcher
  {
    CreationsFor(dispatcher.events, this) <= if vehicleScheduled then 1 else 0
  }

  /**
   * initialize: no demand and nothing scheduled yet; the first profile value
   * takes effect through a demand change at time 0.
   */
  method Initialize(dispatcher: Dispatcher)
    requires |profile| >= 1
    modifies this`currentDemandVps, this`vehicleScheduled, dispatcher`events
    ensures currentDemandVps == 0.0 && !vehicleScheduled
    ensures dispatcher.currentTime <= 0.0 ==>
      dispatcher.Pending() == old(dispatcher.Pending()) + multiset{DemandChangeEvent(0.0, this, profile[0])}
    ensures dispatcher.currentTime > 0.0 ==> dispatcher.events == old(dispatcher.events)
    ensures old(dispatcher.Valid()) ==> dispatcher.Valid()
    ensures old(CreationsFor(dispatcher.events, this)) == 0 ==> AtMostOneCreation(dispatcher)
  {
    currentDemandVps := 0.0;
    vehicleScheduled := false;
    ghost var before := dispatcher.events;
    var e := DemandChangeEvent(0.0, this, profile[0]);
    dispatcher.RegisterEvent(e);
    if e.timestamp >= dispatcher.currentTime {
      CreationsForAdd(before, dispatcher.events, e, this);
    }
  }

  /**
   * set_current_demand_vps: the rate is stored per second; only a positive
   * demand asks for the next vehicle.
   */
  method SetCurrentDemandVps(dispatcher: Dispatcher, value: real, expDraw: real)
    requires expDraw >= 0.0
    modifies this`currentDemandVps, this`vehicleScheduled, dispatcher`events
    ensures currentDemandVps * 3600.0 == value
    ensures value <= 0.0 ==> vehicleScheduled == old(vehicleScheduled) && dispatcher.events == old(dispatcher.events)
    ensures value > 0.0 ==> vehicleScheduled
    ensures value > 0.0 && !old(vehicleScheduled) ==>
      dispatcher.Pending() == old(dispatcher.Pending()) +
        multiset{CreateVehicleEvent(dispatcher.currentTime + expDraw / currentDemandVps, this)}
    ensures old(vehicleScheduled) ==> vehicleScheduled && dispatcher.events == old(dispatcher.events)
    ensures old(dispatcher.Valid()) ==> dispatcher.Valid()
    ensures old(AtMostOneCreation(dispatcher)) ==> AtMostOneCreation(dispatcher)
  {
    currentDemandVps := value / 3600.0;
    if value > 0.0 {
      ScheduleNextVehicle(dispatcher, expDraw);
    }
  }

  /**
   * schedule_next_vehicle: nothing happens while a vehicle is scheduled;
   * otherwise a positive rate registers one creation a sampled wait after
   * now and raises the flag, and a non-positive rate does neither.
   */
  method ScheduleNextVehicle(dispatcher: Dispatcher, expDraw: real)
    requires expDraw >= 0.0
    modifies this`vehicleScheduled, dispatcher`events
    ensures old(vehicleScheduled) ==> vehicleScheduled && dispatcher.events == old(dispatcher.events)
    ensures !old(vehicleScheduled) ==> (vehicleScheduled <==> currentDemandVps > 0.0)
    ensures !old(vehicleScheduled) && currentDemandVps <= 0.0 ==> dispatcher.events == old(dispatcher.events)
    ensures !old(vehicleScheduled) && currentDemandVps > 0.0 ==>
      dispatcher.Pending() == old(dispatcher.Pending()) +
        multiset{CreateVehicleEvent(dispatcher.currentTime + expDraw / currentDemandVps, this)}
    ensures old(dispatcher.Valid()) ==> dispatcher.Valid()
    ensures old(AtMostOneCreation(dispatcher)) ==> AtMostOneCreation(dispatcher)
  {
    if vehicleScheduled {
      return;
    }
    var now := dispatcher.currentTime;
    var waitTime := GetServicePeriod(currentDemandVps, expDraw);
    if waitTime.Some? {
      ghost var before := dispatcher.events;
      var e := CreateVehicleEvent(now + waitTime.value, this);
      assert waitTime.value == expDraw / currentDemandVps;
      dispatcher.RegisterEvent(e);
      CreationsForAdd(before, dispatcher.events, e, this);
      vehicleScheduled := true;
    }
  }

  /**
   * insert_vehicle: a new vehicle, with the next id, is created for the link
   * and the scheduled creation counts as done.
   */
  method InsertVehicle(counter: VehicleIdCounter) returns (v: Vehicle)
    modifies this`vehicleScheduled, counter
    ensures fresh(v) && v.id == counter.count && counter.count == old(counter.count) + 1
    ensures v.myQueue == null && v.lg == null
    ensures !vehicleScheduled
  {
    v := new Vehicle(counter);
    vehicleScheduled := false;
  }

  /**
   * register_next_change: the change NextDemandChange finds, if any, is
   * registered; a division by zero or a bad index is the error raised.
   */
  method RegisterNextChange(dispatcher: Dispatcher) returns (r: Result<()>)
    modifies dispatcher`events
    ensures var c := NextDemandChange(profile, dt, dispatcher.currentTime);
      && (c.Err? ==> r == Err(c.error) && dispatcher.events == old(dispatcher.events))
      && (c == Ok(None) ==> r.Ok? && dispatcher.events == old(dispatcher.events))
      && (c.Ok? && c.value.Some? ==>
            (r.Ok? &&
             var e := DemandChangeEvent(c.value.value.0, this, c.value.value.1);
             if e.timestamp >= dispatcher.currentTime then dispatcher.Pending() == old(dispatcher.Pending()) + multiset{e}
             else dispatcher.events == old(dispatcher.events)))
    ensures old(dispatcher.Valid()) ==> dispatcher.Valid()
    ensures CreationsFor(dispatcher.events, this) == old(CreationsFor(dispatcher.events, this))
  {
    if dt.None? {
      return Ok(());
    }
    if dt.value == 0.0 {
      return Err(ZeroDivision);
    }
    ghost var c := NextDemandChange(profile, dt, dispatcher.currentTime);
    var index := Trunc(dispatcher.currentTime / dt.value) + 1;
    assert index == DemandNextIndex(dispatcher.currentTime, dt.value);
    if index < |profile| {
      var value := PyIndex(profile, index);
      if value.Err? {
        assert c == Err(value.error);
        return Err(value.error);
      }
      ghost var before := dispatcher.events;
      var e := DemandChangeEvent((index as real) * dt.value, this, value.value);
      assert c.Ok? && c.value.Some? && c.value.value.0 == e.timestamp && c.value.value.1 == value.value;
      dispatcher.RegisterEvent(e);
      if e.timestamp >= dispatcher.currentTime {
        CreationsForAdd(before, dispatcher.events, e, this);
      }
    } else {
      assert c == Ok(None);
    }
    r := Ok(());
  }
}

/** The step register_next_change looks at: int(now / dt) + 1. */
function DemandNextIndex(now: real, dt: real): int
  requires dt != 0.0
{
  Trunc(now / dt) + 1
}

/**
 * The (time, value) of the change register_next_change schedules at time
 * `now`: none for a constant demand or past the last step, a
 * ZeroDivisionError for dt 0, and Python's indexing of the profile, negative
 * indices included, for the step int(now / dt) + 1.
 */
function NextDemandChange(profile: seq<real>, dt: Option<real>, now: real): (c: Result<Option<(real, real)>>)
  ensures dt.None? ==> c == Ok(None)
  ensures dt == Some(0.0) ==> c == Err(ZeroDivision)
  ensures dt.Some? && dt.value != 0.0 && DemandNextIndex(now, dt.value) >= |profile| ==> c == Ok(None)
  ensures c.Ok? && c.value.Some? ==>
    (dt.Some? && dt.value != 0.0 &&
     var index := DemandNextIndex(now, dt.value);
     index < |profile| && PyIndex(profile, index).Ok? &&
     c.value.value.0 == (index as real) * dt.value && c.value.value.1 == PyIndex(profile, index).value)
  ensures c.Err? ==> c.error == ZeroDivision || c.error == IndexOutOfRange
{
  if dt.None? then Ok(None)
  else if dt.value == 0.0 then Err(ZeroDivision)
  else
    var index := DemandNextIndex(now, dt.value);
    var value := PyIndex(profile, index);
    if index >= |profile| then Ok(None)
    else if value.Err? then Err(value.error)
    else Ok(Some(((index as real) * dt.value, value.value)))
}

/**
 * On a running clock (now >= 0) with a positive dt the next change never
 * fails: either the profile is exhausted, or the change is the profile's
 * value at a step of at least 1, dated strictly after now, so registering it
 * is never refused.
 */
lemma DemandChangeIsLater(profile: seq<real>, dt: real, now: real)
  requires now >= 0.0 && dt > 0.0
  ensures NextDemandChange(profile, Some(dt), now).Ok?
  ensures var c := NextDemandChange(profile, Some(dt), now);
    c.value.Some? ==>
      var index := DemandNextIndex(now, dt);
      1 <= index < |profile| && c.value.value.0 > now && c.value.value.1 == profile[index]
{
  DemandNextChangeIsLater(now, dt);
}

/**
 * For a non-negative clock and a positive dt the demand's next step is the
 * one a split profile computes, so it starts strictly after now.
 */
lemma DemandNextChangeIsLater(now: real, dt: real)
  requires now >= 0.0 && dt > 0.0
  ensures DemandNextIndex(now, dt) == NextIndex(now, dt)
  ensures DemandNextIndex(now, dt) >= 1
  ensures DemandNextIndex(now, dt) as real * dt > now
{
  calc {
    (now + dt) / dt;
    now / dt + dt / dt;
    now / dt + 1.0;
  }
  assert now / dt >= 0.0;
  ShiftFloor(now / dt, 1);
  NextChangeIsLater(now, dt);
}

/** Is `e` a creation for demand `d`? */
predicate IsCreationFor(e: Event, d: Demand)
{
  e.action == CreateVehicle(d)
}

/** How many creations for `d` a list of events holds. */
function CreationsFor(s: seq<Event>, d: Demand): nat
{
  if s == [] then 0
  else (if IsCreationFor(s[0], d) then 1 else 0) + CreationsFor(s[1..], d)
}

lemma {:induction false} CreationsForAppend(a: seq<Event>, b: seq<Event>, d: Demand)
  ensures CreationsFor(a + b, d) == CreationsFor(a, d) + CreationsFor(b, d)
  decreases |a|
{
  if a == [] {
    assert a + b == b;
  } else {
    assert (a + b)[1..] == a[1..] + b;
    CreationsForAppend(a[1..], b, d);
  }
}

/** The count depends only on which events are pending, not on the list order. */
lemma {:induction false} CreationsForPermutation(a: seq<Event>, b: seq<Event>, d: Demand)
  requires multiset(a) == multiset(b)
  ensures CreationsFor(a, d) == CreationsFor(b, d)
  decreases |a|
{
  if a == [] {
    assert |b| == |multiset(b)| == 0;
  } else {
    var x := a[0];
    assert x in multiset(b);
    var j :| 0 <= j < |b| && b[j] == x;
    var rest := b[..j] + b[j + 1..];
    assert a == [x] + a[1..];
    assert multiset(a[1..]) == multiset(a) - multiset{x};
    MultisetWithout(b, j);
    CreationsForPermutation(a[1..], rest, d);
    CreationsForWithout(b, j, d);
  }
}

/** Taking out the element at `j` takes one copy of it out of the multiset. */
lemma MultisetWithout(b: seq<Event>, j: nat)
  requires j < |b|
  ensures multiset(b[..j] + b[j + 1..]) == multiset(b) - multiset{b[j]}
{
  assert b == b[..j] + [b[j]] + b[j + 1..];
}

/** Taking out the element at `j` takes out one creation exactly when it is one. */
lemma CreationsForWithout(b: seq<Event>, j: nat, d: Demand)
  requires j < |b|
  ensures CreationsFor(b, d) == CreationsFor(b[..j] + b[j + 1..], d) + if IsCreationFor(b[j], d) then 1 else 0
{
  assert b == b[..j] + [b[j]] + b[j + 1..];
  CreationsForAppend(b[..j] + [b[j]], b[j + 1..], d);
  CreationsForAppend(b[..j], [b[j]], d);
  CreationsForAppend(b[..j], b[j + 1..], d);
}

/** Adding one pending event adds one creation exactly when it is one. */
lemma CreationsForAdd(a: seq<Event>, b: seq<Event>, e: Event, d: Demand)
  requires multiset(b) == multiset(a) + multiset{e}
  ensures CreationsFor(b, d) == CreationsFor(a, d) + if IsCreationFor(e, d) then 1 else 0
{
  assert multiset(b) == multiset(a + [e]);
  CreationsForPermutation(b, a + [e], d);
  CreationsForAppend(a, [e], d);
}
