// Vehicle.py: a vehicle knows the queue and the lane group it is in, and
// moves itself from one queue to another.

class Vehicle {
  const id: int
  var nextLinkId: int
  var myQueue: VehicleQueue?
  var lg: LaneGroup?
  var waitingForLaneChange: bool   // set by the transit-to-waiting action

  /** Vehicle(): takes the next id from the counter; no next link, queue or lane group yet. */
  constructor (counter: VehicleIdCounter)
    modifies counter
    ensures counter.count == old(counter.count) + 1 && id == counter.count
    ensures nextLinkId == -1 && myQueue == null && lg == null
  {
    var newId := counter.GetVehicleId();
    id := newId;
    nextLinkId := -1;
    myQueue := null;
    lg := null;
    waitingForLaneChange := false;
  }

  /**
   * move_to_queue: the lead vehicle of the current queue (if any) is removed,
   * this vehicle joins the tail of the destination queue, and the vehicle
   * records the destination queue and lane group.  Moving within one queue
   * rotates its lead to the tail.
   */
  method MoveToQueue(toLg: LaneGroup, toQueue: VehicleQueue)
    modifies this, toQueue, myQueue
    ensures myQueue == toQueue && lg == toLg
    ensures nextLinkId == old(nextLinkId) && waitingForLaneChange == old(waitingForLaneChange)
    ensures old(myQueue) == null ==> toQueue.items == old(toQueue.items) + [this]
    ensures old(myQueue) != null && old(myQueue) != toQueue ==>
      old(myQueue).items == DropLead(old(myQueue.items)) && toQueue.items == old(toQueue.items) + [this]
    ensures old(myQueue) == toQueue ==> toQueue.items == DropLead(old(toQueue.items)) + [this]
  {
    var fromQueue := myQueue;
    if fromQueue != null {
      var _ := fromQueue.RemoveLeadVehicle();
    }
    toQueue.AddVehicle(this);
    myQueue := toQueue;
    lg := toLg;
  }
}

/**
 * When the moving vehicle is the lead of its old queue and sits in no other
 * queue, after the move it is in the destination queue exactly once and no
 * longer in the old one.
 */
lemma LeadMovesToExactlyOneQueue(fromItems: seq<Vehicle>, toItems: seq<Vehicle>, v: Vehicle)
  requires fromItems != [] && fromItems[0] == v && multiset(fromItems)[v] == 1
  requires v !in toItems
  ensures v !in DropLead(fromItems)
  ensures multiset(toItems + [v])[v] == 1
{
  assert fromItems == [v] + DropLead(fromItems);
  assert multiset(fromItems) == multiset{v} + multiset(DropLead(fromItems));
}
