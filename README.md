# otm-queue simulator kernel in Dafny

This project models the core of the `otm-queue` discrete-event traffic simulator and proves its
properties. It covers the following parts:

- **Event dispatcher.** A binary heap of events keyed by `(timestamp, dispatch_order)`, a clock,
  and the actions each event kind runs.
- **Network topology.** Source, sink and many-to-one flags on nodes. The partition of every
  link's lanes into lane groups. The road-connection → lane-group and next-link → lane-group
  maps.
- **Lane groups.** FIFO transit and waiting queues, longitudinal supply, and the saturation rate
  the signal gates.
- **Demand and split profiles.** Piecewise-constant in time. They chain their own change events
  and create vehicles.
- **Pretimed stage controller and signal actuator.** They turn a stage into green and red phases
  and poke each other.

One `.dfy` file models one source file. A file's header comment names the source file it
models:

- `events.dfy`: Events.py
- `dispatch.dfy`: the event actions and the dispatch loop of Events.py
- `abstract.dfy`: abstract.py
- `heapq.dfy`: Python's `heapq` on the event list

Objects that the source updates in place are Dafny classes whose methods carry `modifies`
clauses. Value computations are functions, proved against their own contracts and lemmas.

Python's numbers are modelled as follows:

- Timestamps and rates are `real`.
- Python's float `%` is `PyMod`, which is floor-based.
- `int(x)` is `Trunc`, which truncates toward zero.
- The GREEN rate `float('inf')` is `Rate.Unbounded`.
- Exceptions the source can raise are `Result.Err` values: a missing dict key, a zero division,
  an index past the end, or an empty choice.

Random draws are parameters with their documented range:

- An exponential draw is `expDraw >= 0`.
- A uniform draw is `u` in `[0, 1)`.
- `random.choice` and `np.random.choice` are inverse-CDF selections on `u`.

A lane group is identified with its own object. `get_lanegroup_ids` and `get_lg2nextlinks` call
an `lg.get_id()` that the lane group does not define.

## Model

Paths are under the source tree of the repository (`src/otm-queue/`).

| member | source | states |
|---|---|---|
| ServicePeriod | src/otm-queue/static.py:6-20 | None exactly when the rate is ≤ 0. Otherwise a non-negative period: deterministic gives period·rate = 1, poisson gives period·rate = the exponential draw. |
| GetServicePeriod | src/otm-queue/static.py:6-20 | The poisson sampler used by the lane groups: None iff rate ≤ 0, else a non-negative period with period·rate equal to the draw. |
| VehicleIdCounter.constructor | src/otm-queue/static.py:4 | The global counter starts at 0, so the first id issued is 1. |
| VehicleIdCounter.GetVehicleId | src/otm-queue/static.py:22-25 | Increments the counter by exactly one and returns the new value, so issued ids strictly increase. |
| Vehicle.constructor | src/otm-queue/Vehicle.py:14-19 | Takes a fresh id from the counter (one more than before). next_link_id is -1, with no queue and no lane group. |
| Vehicle.MoveToQueue | src/otm-queue/Vehicle.py:21-34 | Without a current queue, only appends to the destination. Otherwise drops the old queue's lead and appends this vehicle at the destination's tail. my_queue and lg become the destination. |
| LeadMovesToExactlyOneQueue | src/otm-queue/Vehicle.py:21-34 | A vehicle that led its old queue once is in neither the old queue after the drop nor twice in the destination. |
| DropLead | src/otm-queue/Vehicle.py:26-28 | Removing the lead leaves exactly the tail; an empty queue stays empty. |
| VehicleQueue.constructor | src/otm-queue/LaneGroup.py:14-20 | A new queue is empty. |
| VehicleQueue.Clear | src/otm-queue/LaneGroup.py:22-23 | Leaves the queue empty. |
| VehicleQueue.GetTotalVehicles | src/otm-queue/LaneGroup.py:25-26 | The number of vehicles in the queue. |
| VehicleQueue.AddVehicle | src/otm-queue/LaneGroup.py:28-29 | Appends at the FIFO tail; the size grows by one. |
| VehicleQueue.RemoveLeadVehicle | src/otm-queue/Vehicle.py:26-28 | The queue operation move_to_queue relies on: returns the former head (null on an empty queue) and leaves the rest in order, one fewer. |
| VehicleCountAsWrittenIsWrong | src/otm-queue/LaneGroup.py:116-117 | The as-written count gives 2 for one vehicle in transit and 0 for three waiting; the correct count differs on both. |
| TransitToWaitingKeepsCount | src/otm-queue/LaneGroup.py:116-117 | Moving one vehicle from transit to waiting keeps the corrected count, but lowers the as-written count by 2. |
| CappedRate | src/otm-queue/LaneGroup.py:125-128 | The new rate never exceeds nominal. It is nominal for an unbounded rate, else the smaller of nominal and the rate. |
| LaneGroup.constructor | src/otm-queue/LaneGroup.py:74-97 | max_vehicles = jam_density·length/1000·lanes, transit time = length/speed·3.6, saturation = capacity·lanes/3600 (also the nominal rate). Both queues are empty and distinct; outlink2roadconnection keeps the last road connection per out-link. |
| LaneGroup.Create | src/otm-queue/LaneGroup.py:74-97 | ZeroDivision iff the speed is 0 (transit time divides by it). Otherwise a fresh lane group with the constructor's capacity, transit time and rates, and empty queues. |
| LaneGroup.BuildOutlinkMap | src/otm-queue/LaneGroup.py:90-94 | The out-link → road-connection dictionary built by the constructor's loop, a later entry overwriting an earlier one. |
| OutlinkEntries | src/otm-queue/LaneGroup.py:90-94 | One (out_link, road connection) entry per road connection, in order. |
| LaneGroup.RegisterActuator | src/otm-queue/LaneGroup.py:99-100 | Stores the actuator that gates this lane group. |
| LaneGroup.Initialize | src/otm-queue/LaneGroup.py:102-111 | Empties both queues and sets supply to max_vehicles. |
| LaneGroup.UpdateLongSupply | src/otm-queue/LaneGroup.py:113-114 | Afterwards supply + vehicles in both queues = max_vehicles (the corrected count). |
| LaneGroup.UpdateLongSupplyAsWritten | src/otm-queue/LaneGroup.py:113-117 | As written: supply = max_vehicles − 2·transit, which exceeds the corrected supply by waiting − transit. |
| LaneGroup.GetTotalVehicles | src/otm-queue/LaneGroup.py:116-117 | Corrected count: the vehicles in the transit queue plus those in the waiting queue. |
| LaneGroup.GetTotalVehiclesAsWritten | src/otm-queue/LaneGroup.py:116-117 | As written: twice the transit queue size, whatever waits. |
| LaneGroup.GetSupplyPerLane | src/otm-queue/LaneGroup.py:119-120 | ZeroDivision iff there are no lanes; otherwise value·lanes = supply. |
| LaneGroup.SetActuatorCapacityVps | src/otm-queue/LaneGroup.py:125-128 | A negative finite rate changes nothing; otherwise the rate becomes CappedRate(nominal, rate). |
| LaneGroup.SetToNominalCapacity | src/otm-queue/LaneGroup.py:133-134 | The rate becomes the nominal rate. |
| LaneGroup.AddVehicle | src/otm-queue/LaneGroup.py:165-182 | The vehicle is moved to the tail of the transit queue. Exactly one transit-to-waiting event at timestamp + transit time is admitted, and the supply invariant is restored. |
| LaneGroup.ScheduleReleaseVehicle | src/otm-queue/LaneGroup.py:250-255 | No event when the rate is ≤ 0; otherwise exactly one release event at now + the sampled period. |
| Link.constructor | src/otm-queue/Link.py:27-50 | The link is added to its start node's out-links and its end node's in-links. The start node stops being a sink and the end node stops being a source. No demands, profiles or lane groups yet. |
| Link.AddDemand | src/otm-queue/Link.py:62-63 | Appends exactly that demand. |
| Link.SetLanegroups | src/otm-queue/Link.py:65-66 | Replaces the lane-group list. |
| Link.SampleNextLink | src/otm-queue/Link.py:95-99 | With split profiles, delegates to the profile of the vehicle type (KeyNotFound if absent). Without them, returns an out-link id of the end node, failing only when there is none. |
| RandomChoice | src/otm-queue/Link.py:98-99 | Succeeds iff the list is non-empty, and then returns a member. |
| DrawIndexInRange | src/otm-queue/Link.py:98-99 | floor(u·n) is a valid index for every u in [0, 1). |
| Link.GetLanegroupsForOutlink | src/otm-queue/Link.py:101-105 | An empty map gives all lane groups. Otherwise the map's entry, and a missing key is an error. |
| ArgMax | src/otm-queue/Link.py:107-109 | Returns a maximal index, and no earlier index reaches the maximum, so the first index wins ties. |
| SuppliesPerLane | src/otm-queue/Link.py:107-109 | Fails iff some candidate has no lanes; otherwise the supply per lane of each candidate in order. |
| ArgmaxSupply | src/otm-queue/Link.py:107-109 | An empty list is an error, as is a lane group without lanes. Otherwise the first candidate of maximal supply per lane. |
| TotalVehiclesAppend | src/otm-queue/Link.py:111-112 | The total over lane groups is additive over concatenation. |
| Link.GetTotalVehicles | src/otm-queue/Link.py:111-112 | Zero without lane groups; never less than any one lane group's vehicles. |
| TotalVehiclesBound | src/otm-queue/Link.py:111-112 | The sum over the lane groups is at least the count of each one. |
| TotalVehiclesEmpty | src/otm-queue/Link.py:111-112 | Lane groups with empty queues total zero. |
| FirstSeries | src/otm-queue/Splits.py:27-31 | Every out-link id of the entries gets a series. |
| FirstSeriesValues | src/otm-queue/Splits.py:27-31 | Every key is the id of some entry, and its series is that entry's series. |
| FirstSeriesKeepsFirst | src/otm-queue/Splits.py:27-31 | A duplicate id keeps the series of its first entry. |
| FirstIdsListsKeys | src/otm-queue/Splits.py:27-31 | The out-link order lists each id once, exactly the ids of the kept series. |
| MakeProfile2D | src/otm-queue/Splits.py:19-38 | Succeeds iff there is an entry and every kept series has the first series' length. The result is valid, with num_times that length, the first-kept series and insertion-ordered out-links. |
| IthValue | src/otm-queue/Splits.py:46-51 | One split per out-link, aligned with linksout. |
| IthValueClamps | src/otm-queue/Splits.py:46-51 | An index below 0 reads row 0 and one past the end reads the last row. In between, the exact row is read. |
| GetIthValue | src/otm-queue/Splits.py:46-51 | The loop that builds the split row computes IthValue. |
| GetValueForTime | src/otm-queue/Splits.py:40-43 | Row int(time/dt), or row 0 when dt is None or 0. |
| NextChangeIsLater | src/otm-queue/Splits.py:77-81 | For now ≥ 0 and dt > 0, index int((now+dt)/dt) is ≥ 1 and index·dt > now. |
| InverseCdf | src/otm-queue/Splits.py:84-85 | The chosen index has positive weight, and u falls in its cumulative-weight interval. |
| ChooseLink | src/otm-queue/Splits.py:84-85 | Succeeds iff the weights form a distribution over a non-empty id list. The result is an out-link id of positive weight. |
| SplitMatrixProfile.constructor | src/otm-queue/Splits.py:62-67 | Holds a valid profile and no current split yet. |
| SplitMatrixProfile.SetAllCurrentSplits | src/otm-queue/Splits.py:69-70 | Replaces the current split. |
| SplitMatrixProfile.GetChangeFollowing | src/otm-queue/Splits.py:72-81 | None for a static profile or when the next index is past the end. Otherwise (index·dt, row index), with index = int((now+dt)/dt). |
| SplitMatrixProfile.SampleOutputLink | src/otm-queue/Splits.py:84-85 | MissingAttribute before any split is set; otherwise ChooseLink on the current split. |
| SplitMatrixProfile.RegisterNextChange | src/otm-queue/Splits.py:87-89 | A change event is registered only for a non-None split value, and only when it is not in the past. |
| Demand.constructor | src/otm-queue/Demand.py:24-34 | A one-entry profile forces dt = None; otherwise dt is kept. |
| Demand.Initialize | src/otm-queue/Demand.py:36-39 | Rate 0 and flag false. A DemandChange at time 0 with profile[0] is admitted when the clock allows it. At most one creation is pending afterwards. |
| Demand.SetCurrentDemandVps | src/otm-queue/Demand.py:41-44 | Stores value/3600 and schedules a vehicle only when value > 0. Keeps at most one creation pending. |
| Demand.ScheduleNextVehicle | src/otm-queue/Demand.py:46-55 | A no-op when a vehicle is already scheduled. Otherwise the flag becomes true iff the rate is positive, exactly when one creation event is registered. |
| Demand.InsertVehicle | src/otm-queue/Demand.py:57-66 | Creates a vehicle with a fresh id and clears the pending flag. |
| Demand.RegisterNextChange | src/otm-queue/Demand.py:68-77 | Registers exactly the change NextDemandChange computes, and never a creation event. |
| NextDemandChange | src/otm-queue/Demand.py:68-77 | Nothing when dt is None or the index int(now/dt)+1 is past the profile. ZeroDivision when dt = 0. Otherwise (index·dt, profile[index]). |
| DemandChangeIsLater | src/otm-queue/Demand.py:68-77 | For now ≥ 0 and dt > 0 the next change is well defined and strictly after now. |
| DemandNextChangeIsLater | src/otm-queue/Demand.py:70-72 | The demand index int(now/dt)+1 agrees with the split index, is ≥ 1, and its time is after now. |
| CreationsForAppend | src/otm-queue/Demand.py:52-55 | Counting a demand's pending creation events is additive over concatenation. |
| CreationsForPermutation | src/otm-queue/Demand.py:52-55 | The count does not depend on the heap's order. |
| CreationsForAdd | src/otm-queue/Demand.py:52-55 | Adding one event raises the count by one exactly when it is a creation for that demand. |
| EventLt | src/otm-queue/abstract.py:23-32 | True iff that's key is lexicographically below self's key (a reversed order). False on equal keys. |
| EntryLt | src/otm-queue/Events.py:108-111 | The heap compares (timestamp, order, event) entries by their key first. |
| ClassOf | src/otm-queue/Events.py:10-86 | Every event belongs to one class; controller and actuator pokes share the poke class. |
| DispatchOrders | src/otm-queue/Events.py:15-82 | At equal time, demand and split change (order 0) come before stop (10), stop before create vehicle (40), that before transit-to-waiting (44), that before service (45). The two changes tie. |
| KeepEvents | src/otm-queue/Events.py:113-114 | Keeps exactly the events not of the given class or not for the given recipient. |
| KeepEventsMultiplicity | src/otm-queue/Events.py:113-114 | Nothing is added, and every kept event keeps its full multiplicity. |
| Dispatcher.constructor | src/otm-queue/Events.py:94-95 | No pending events. |
| Dispatcher.Initialize | src/otm-queue/Events.py:97-100 | Clock 0, no events, continuing. |
| Dispatcher.Stop | src/otm-queue/Events.py:102-103 | Empties the events, which ends the loop. |
| Dispatcher.ClearEvents | src/otm-queue/Events.py:105-106 | Empties the events. |
| Dispatcher.RegisterEvent | src/otm-queue/Events.py:108-111 | An event before the clock is dropped. Otherwise the pending multiset gains exactly that event, and the heap and clock invariant are kept. |
| Dispatcher.RemoveEventsForRecipientAsWritten | src/otm-queue/Events.py:113-114 | The source's filter without re-heapifying: the list becomes KeepEvents of the old list, which need not be a heap. |
| Dispatcher.RemoveEventsForRecipient | src/otm-queue/Events.py:113-114 | The pending multiset becomes exactly the kept events, and the list is a heap again. |
| Dispatcher.Heapify | src/otm-queue/Events.py:111 | Pushing the kept events one by one with heappush gives a heap of exactly those events. |
| Dispatcher.PopNext | src/otm-queue/Events.py:118-119 | Pops the heap's head, the minimum by (timestamp, order). The clock moves to its timestamp and never goes back. |
| RemovalWithoutHeapifyPopsLate | src/otm-queue/Events.py:113-114 | A concrete heap where the as-written removal leaves a list that is not a heap, with a head that is not the minimum. |
| HeapPush | src/otm-queue/Events.py:111 | heappush adds exactly the item and keeps the heap property. |
| HeapPop | src/otm-queue/Events.py:118 | heappop returns the head, which on a heap is a minimum, and keeps the rest a heap. |
| HeapRootIsMinimum | src/otm-queue/Events.py:118 | A heap's root is not above any element. |
| SiftDown | src/otm-queue/Events.py:111 | heapq's sift toward the root keeps the elements, and repairs a heap broken at one leaf. |
| SiftUp | src/otm-queue/Events.py:118 | heapq's sift toward the leaves keeps the elements, and repairs a heap whose root was replaced. |
| DemandChangeAction | src/otm-queue/Events.py:19-21 | Sets the demand's rate to vps/3600. Fails exactly when the next change cannot be computed. Only events for that demand are added, and at most one creation stays pending. |
| SplitChangeAction | src/otm-queue/Events.py:31-38 | Installs the split, then registers the next change only when one exists and is not in the past. |
| CreateVehicleAction | src/otm-queue/Events.py:45-48 | Inserts a vehicle with a fresh id, then reschedules exactly one creation at now + draw/rate when the rate is positive. |
| TransitToWaitingAction | src/otm-queue/Events.py:55-69 | A vehicle without a lane group is an error (Python raises on `None.waiting_queue`): the vehicle and its queue stay as they were. Otherwise the vehicle takes its lane group's waiting queue. The vehicle leaves the lead of the queue it was in and joins the tail of the waiting queue. This includes the case where it already sat in that waiting queue: the vehicle rotates from lead to tail. Its next link id and its lane-change flag are left alone. |
| RunAction | src/otm-queue/Events.py:116-120 | Runs one event's action without moving the clock, keeping the dispatcher invariant. Each kind may change only its own recipient's fields plus the pending events. No lane group's supply or actuator capacity changes. Every object in the world outside the action's footprint is unchanged: the footprint is the recipient, plus the id counter for a creation and the snapshot's two queues for a transit. No pending event is dropped except by stop; service and transit add none. Per kind, against a snapshot taken before the action: a demand change sets the rate to demandVps/3600 and fails iff its next change cannot be computed; a split change installs the split; a vehicle creation bumps the id counter by one and schedules iff the rate is positive, while every other kind leaves the counter alone; a transit fails iff the vehicle has no lane group, and otherwise the snapshot's queue contents become the vehicle's queue less its lead and the waiting queue plus the vehicle at the tail (with the rotation when both are the same queue); a controller poke fails iff its stage cannot be computed, else sets that stage and command and delivers it, while phases and lane groups no immediate actuator gates keep their colours and rates; an actuator poke shows the commanded colours and gated rates, or keeps them without a command. Stop empties the events; Service changes nothing. |
| DispatchNext | src/otm-queue/Events.py:117-120 | One round. The popped event was pending and is minimal in (timestamp, order) among the pending events. Its time is not before the old clock and becomes the clock. It returns the snapshot taken before the action. The action has exactly the per-kind effect RunAction states against that snapshot. The id counter rises by one for a creation and stays put otherwise. No lane group's supply or actuator capacity changes. Every object of the world other than the dispatcher and outside the action's footprint is unchanged. After stop nothing is pending. After a transit or a service exactly the other pending events remain; after any other kind every other pending event is still pending. The dispatcher stays valid and the pending events stay ready. |
| DispatchAllEvents | src/otm-queue/Events.py:116-120 | Ends with Progress over the returned history, spelled out by ProgressFacts. Round k dispatches a minimum of the events pending at its start, the first round's being the initial events. Round k+1 starts with what round k left: nothing after stop; exactly round k's events less its popped one after a transit or a service; a superset of those otherwise. The final pending events stand in that relation to the last round. The dispatched timestamps never decrease and the clock ends at the last one. There is one result and one snapshot per round. Every round but the last succeeded, and r is the last round's result. Round k's snapshot counted the creations before it, and the final count is the initial one plus the creations dispatched. The last round's action was performed against its snapshot. Supply and actuator capacity are kept. Every object in the world outside the dispatcher and the rounds' footprints is unchanged. Without an error and within the bound, the loop ends with no events left. |
| DispatchRound | src/otm-queue/Events.py:117-120 | One pass of the loop body: DispatchNext with the round's event, pending events, result and snapshot appended to the history. The history's Progress is kept; the new last round was performed; the footprints so far only grow, and every world object outside them other than the dispatcher is unchanged. |
| ProgressFacts | src/otm-queue/Events.py:116-120 | Progress of the loop, spelled out: dispatched timestamps in order and within [start, clock], popped minima, rounds chained, the last round's events relation, one result and snapshot per round, r the last result, and the count raised once per creation. |
| PokeControllerAction | src/otm-queue/abstract.py:46-47 | A controller poke event's action, stated against the snapshot taken before it: fails iff the stage cannot be computed; otherwise the stage and command are set and delivered with last-poker rates. Actuators not processing at once keep their snapshot colours, and lane groups no immediate actuator gates keep their snapshot rates. The pending events gain exactly Poke's events. |
| ActuatorSignal.Poke | src/otm-queue/abstract.py:82-89 | Processes the command: with a command, every phase shows its commanded colour and each lane group holds the gated rate of the last phase gating it; without one, colours and rates stay. Then registers a poke at timestamp + dt iff dt is set and that is not in the past. |
| ControllerStage.Poke | src/otm-queue/abstract.py:124-136 | Fails exactly when the stage cannot be computed, and then no colour or rate changes. Otherwise the stage index becomes the current stage, command[signal.id] becomes its command and nothing else in the command changes. Then every actuator holds its command, and those with dt None show it at once: each lane group such an actuator gates holds the rate from the last such actuator's last phase gating it. Other actuators keep their colours, and lane groups none of them gates keep their rates. The pending events gain exactly the stage-change poke and, when dt > 0, the wake-up poke. |
| ControllerStage.DeliverAndWake | src/otm-queue/abstract.py:128-136 | Every actuator holds its command, with the colours and last-poker rates stated for Poke; actuators not processing at once keep their colours, and lane groups no immediate actuator gates keep their rates. The pending events gain exactly the wake-up poke at timestamp + dt, with order 20, and only when dt is positive. |
| ControllerStage.DeliverStep | src/otm-queue/abstract.py:129-132 | Actuator k holds its command; when it processes at once, its lane groups take its gated rates, which then override those of earlier actuators. Lane groups it does not gate keep their rates. Every other actuator keeps its command and the colours of its phases, since no phase is shared. |
| ControllerStage.DeliverTo | src/otm-queue/abstract.py:129-132 | The actuator's command becomes command.get(id). An actuator with dt None processes it at once: each lane group takes the gated rate of the last of its phases gating it. Without such processing, its colours and its lane groups' rates stay. |
| ControllerStage.DeliverCommand | src/otm-queue/abstract.py:128-132 | Each actuator's command becomes command.get(id), None when absent. Actuators with dt None process it at once, and a lane group gated by several of them ends with the rate from the last one. Those with dt set keep their colours and are left to their own pokes; lane groups no immediate actuator gates keep their rates. |
| ControllerStage.RegisterEventWriter | src/otm-queue/abstract.py:120-122 | Keeps the first writer; later calls change nothing. |
| RateFor | src/otm-queue/Signal.py:43-46 | GREEN iff the rate is unbounded; RED and DARK give rate 0. |
| CommandedColor | src/otm-queue/Signal.py:84-89 | A phase in the command gets its colour; a phase absent from it gets RED. |
| GatedRates | src/otm-queue/Signal.py:43-50 | Green gives the nominal rate; red and dark give 0. |
| AddAll | src/otm-queue/Signal.py:28-32 | Set union as a list: the old members keep their places, each new one is added, no repeats are created. |
| AddAllMembers | src/otm-queue/Signal.py:28-32 | A lane group is in the union iff it is in either part. |
| SignalPhase.constructor | src/otm-queue/Signal.py:24-32 | Holds its phase id and lane groups, with no colour yet. |
| SignalPhase.PhaseLanegroups | src/otm-queue/Signal.py:28-32 | Fails with the first missing road connection. Otherwise the union of rc2inlgs over the phase's road connections, without repeats. |
| SignalPhase.SetBulbColor | src/otm-queue/Signal.py:37-50 | Stores the colour and pushes the gated rate to every lane group of the phase. Of a lane group only the saturation rate may change. |
| ActuatorSignal.constructor | src/otm-queue/Signal.py:56-63 | Holds its phases and no command. |
| ActuatorSignal.RegisterWithTargets | src/otm-queue/Signal.py:69-74 | Registers every lane group of the union of all phases exactly once, with this actuator. Only the lane groups' actuator field changes. |
| ActuatorSignal.ProcessCommand | src/otm-queue/Signal.py:76-89 | A None command changes nothing. Otherwise every phase gets its commanded colour or RED, and each lane group holds the rate of the last phase that gates it. Only colours and saturation rates may change. |
| Stage.constructor | src/otm-queue/Controller.py:16-24 | A stage's duration and phase ids. |
| ControllerStage.constructor | src/otm-queue/Controller.py:34-59 | Each stage's cycle start is the sum of earlier durations mod cycle. No command yet, and the signal is the first actuator. |
| ControllerStage.Create | src/otm-queue/Controller.py:34-59 | StopIteration iff there are no actuators; else ZeroDivision iff there are stages and the cycle is 0, with no stage start set; otherwise a fresh controller as the constructor builds it. |
| ControllerStage.SetStartTimes | src/otm-queue/Controller.py:56-59 | ZeroDivision iff there are stages and the cycle is 0, leaving every stage's start unset. Otherwise each stage's cycle start is the sum of earlier durations mod cycle. |
| CyclePositionInRange | src/otm-queue/Controller.py:95 | reltime = (time − offset) mod cycle lies in [0, cycle) for every time, including negative ones. |
| StageScan | src/otm-queue/Controller.py:96-104 | The scanned stage index is a valid index whenever there are stages. |
| StageFor | src/otm-queue/Controller.py:93-104 | ZeroDivision iff the cycle is 0; otherwise a stage index that is valid whenever there are stages. |
| StageScanFirst | src/otm-queue/Controller.py:96-104 | The scan returns the first stage whose cumulative end exceeds reltime, with offset in [0, duration). It returns (0, 0) when no stage ends after reltime. |
| StageForIsFirstEnding | src/otm-queue/Controller.py:93-104 | For a positive cycle, get_stage_for_time always succeeds, and it is the first-ending stage for reltime. |
| StageForIsPeriodic | src/otm-queue/Controller.py:90-95 | The stage at t equals the stage at t + cycle and at t − cycle. |
| ControllerStage.GetStageForTime | src/otm-queue/Controller.py:93-104 | The method computes the stage function. |
| CommandForStage | src/otm-queue/Controller.py:78-82 | Defined exactly for the Python index range, including negative indices; IndexOutOfRange otherwise. The command maps exactly the stage's phase ids to GREEN. |
| StageColors | src/otm-queue/Controller.py:78-82 | A phase of the stage is GREEN; any other phase is RED. |
| NextStageStartIsLater | src/otm-queue/Controller.py:67-75 | The next poke time now − reltime + duration is strictly after now. |
| ControllerStage.SetStageIndex | src/otm-queue/Controller.py:85-88 | Sets the stage index, and replaces only command[signal.id], and only for a valid index. |
| ControllerStage.UpdateCommand | src/otm-queue/Controller.py:67-75 | Sets the stage for the current time and its command. Registers exactly the next stage-change poke (order 2). Fails exactly when the stage cannot be computed. |
| Node.constructor | src/otm-queue/core.py:26-32 | A new node is both source and sink, with no links. |
| Node.AddInputLink | src/otm-queue/core.py:34-36 | Adds the in-link and clears is_source. |
| Node.AddOutputLink | src/otm-queue/core.py:38-40 | Adds the out-link and clears is_sink. A new key goes to the end of the key order. |
| Network.constructor | src/otm-queue/core.py:49-153 | Derives the node and link flags and builds every link's lane partition. num_lgs is the total number of lane groups. |
| Network.DeriveFlags | src/otm-queue/core.py:76-86 | many2one iff more than one in-link and exactly one out-link. A link is marked source iff it leaves a node with no in-links, and sink iff it enters a node with no out-links. Other flags are kept. |
| Network.SetMany2one | src/otm-queue/core.py:77-78 | Each node's many2one flag is set from its link counts. |
| MarkSources | src/otm-queue/core.py:80-82 | Exactly the out-links of nodes without in-links become sources. |
| MarkSinks | src/otm-queue/core.py:84-86 | Exactly the in-links of nodes without out-links become sinks. |
| ReadRoadConnection | src/otm-queue/core.py:88-107 | KeyNotFound for an unknown in-link, and an index error for a lane range with fewer than two numbers. A given range is used as (first, last); with no range given, the connection covers (1, full_lanes). |
| DefaultLanesReachAllLanegroups | src/otm-queue/core.py:95-99 | A road connection without lanes reaches every lane group of its in-link. |
| OutRcs | src/otm-queue/core.py:114 | Exactly the road connections leaving the link. |
| Network.CreateLanegroups | src/otm-queue/core.py:109-153 | Succeeds iff no link with lane groups to create has speed 0. Then each link's lane groups are the lane partition of its outgoing road connections, and num_lgs grows by their count. Otherwise ZeroDivision at the first such link, the earlier links holding their partitions and the later ones untouched. |
| NewLanegroups | src/otm-queue/core.py:125-150 | ZeroDivision iff the speed is 0 and there is a span. Otherwise one new lane group per span, with that span's start lane and lane count. |
| SetPartition | src/otm-queue/core.py:111-153 | ZeroDivision iff the link's lane groups would divide by a zero speed, leaving its lane groups as they were; otherwise they become its lane partition, and their count is returned. |
| NoRoadConnectionsOneGroup | src/otm-queue/core.py:125-129 | Without outgoing road connections there is one lane group, starting at lane 1 with all lanes. |
| LanePartitionClasses | src/otm-queue/core.py:132-150 | Each group starts at the smallest lane of its covering set, and its size is the number of lanes with that set. Every lane's covering set is a group. |
| LanePartitionGroup | src/otm-queue/core.py:138-150 | Group g's start lane has group g's covering set, and no earlier lane has it. |
| LanePartitionSizes | src/otm-queue/core.py:132-150 | The group sizes add up to full_lanes. |
| GroupSpansCanOverlap | src/otm-queue/core.py:138-150 | A road connection on the middle lane of three gives a group (1, 2) and a group (2, 1), which overlap. |
| Distinct | src/otm-queue/core.py:138 | set(lane2rcs) as a list: the same members, without repeats. |
| Positions | src/otm-queue/core.py:139-140 | np.where: the ascending positions of exactly the matching lanes. |
| PositionsCount | src/otm-queue/core.py:139-140 | There are as many positions as matching lanes. |
| DistinctCountsSum | src/otm-queue/core.py:138-150 | The multiplicities of the distinct covering sets add up to the number of lanes. |
| PartitionCountIsLanegroupCount | src/otm-queue/core.py:110-153 | The lane groups counted by the partition are the lane groups stored on the links. |
| LinkById | src/otm-queue/core.py:185 | Finds the link with that id, or shows there is none. |
| InLanegroups | src/otm-queue/core.py:187-189 | Exactly the lane groups whose span lies within the lane range. The full range keeps all of them. |
| BuildRc2Inlgs | src/otm-queue/core.py:183-189 | Fails iff some in-link is unknown. Keys are the road-connection ids, and each maps to the in-link's lane groups inside its lane range. |
| FullRangeReachesAll | src/otm-queue/core.py:187-189 | The range (1, full_lanes) keeps every lane group of a partitioned link. |
| AddNextLinks | src/otm-queue/core.py:193-201 | One link's next-link map gains exactly the entries of its road connections, or of its end node's out-links. |
| PopulateNextLinks | src/otm-queue/core.py:192-201 | Every link's next-link map gains exactly its own entries. |
| NextLinksOfSink | src/otm-queue/core.py:194 | A sink link gets no entries. |
| NextLinksWithoutRoadConnections | src/otm-queue/core.py:196-198 | With no exiting road connections, exactly the end node's out-links map to all lane groups. |
| NextLinksFromRoadConnectionsKeys | src/otm-queue/core.py:199-201 | Otherwise the keys are exactly the out-links of the exiting road connections. |
| NextLinksFromRoadConnections | src/otm-queue/core.py:199-201 | A key holds rc2inlgs of its last road connection, because later entries overwrite earlier ones. |
| SelectLinks | src/otm-queue/core.py:313 | Looks up each id in order, failing with the first unknown one. |
| GetLanegroupIds | src/otm-queue/core.py:309-318 | All lane groups of the selected links in order (of all links when none are given), failing with the first unknown link id. |
| AllLanegroupsCount | src/otm-queue/core.py:309-318 | There are as many as the links' lane groups together. |
| AllLanegroupsMembers | src/otm-queue/core.py:309-318 | A lane group is listed iff some link has it. |
| GetLg2NextLinks | src/otm-queue/core.py:320-328 | The nested loops compute Lg2NextLinks, including its error case. |
| Lg2NextLinksKeys | src/otm-queue/core.py:320-328 | When every lane group belongs to one link and each link lists only its own lane groups, the map succeeds and its keys are exactly the lane groups. |
| Lg2NextLinksValues | src/otm-queue/core.py:320-328 | Under the same conditions, each lane group maps to exactly the next links whose lists, in its link, contain it. |
| ClampIndex | src/otm-queue/Splits.py:49 | max(0, min(i, n−1)): the identity inside the range, 0 below it and n−1 above it. |
| PyIndex | src/otm-queue/Controller.py:80 | Python list indexing, including negative indices, and IndexOutOfRange outside −n..n−1. |
| PyModRange | src/otm-queue/Controller.py:95 | With a positive divisor the remainder lies in [0, b). |
| PyModShift | src/otm-queue/Controller.py:95 | Adding whole cycles does not change the remainder. |
| LastWins | src/otm-queue/core.py:200-201 | A dictionary built by assignment has exactly the keys of its entries. |
| LastWinsLookup | src/otm-queue/core.py:200-201 | The value kept for a key is that of its last entry. |

## Left out

- Scenario loading and wiring are not modelled, except the road-connection → lane-group map and the next-link maps that `Scenario.__init__` builds at core.py:183-201 (BuildRc2Inlgs, PopulateNextLinks). The rest of `Scenario.__init__` is left out: JSON and file reading, seeding, and building demands, splits, controllers and outputs. So are `set_state_and_inputs` and `set_vehicles`. They are I/O and plumbing, and they call members that do not exist.
- Output.py and the output classes of abstract.py are not part of this model, nor is closing outputs on the stop event: they are file I/O.
- Random numbers are parameters: the exponential draw, the uniform draw behind `random.choice` and `np.random.choice`, and the seed. The contracts hold for every draw in range.
- ServicePeriod: in poisson mode the contract is stated in terms of the draw passed in (`period·rate = draw`), not of the distribution.
- DispatchAllEvents: the source's loop has no bound. The model runs at most `fuel` rounds and takes one exponential draw per round. With an error or an exhausted fuel it stops with events still pending.
- RunAction: the service event's action calls `service_waiting_queue`, which the lane group does not define, so the model's service action changes nothing.
- CreateVehicleAction: the created vehicle is not placed on its link, because `link.add_vehicle` does not exist. `Vehicle(self.vtype)` is modelled as the zero-argument constructor.
- LaneGroup.ScheduleReleaseVehicle: the release event class the source names does not exist; the model registers the service event at the same time.
- LaneGroup.constructor takes the link's length as a parameter. The source constructs lane groups without one.
- LaneGroup.constructor: the source never assigns `nom_saturation_flow_rate_vps`. The model sets it to the initial saturation rate, so setting back to nominal and capping are defined.
- LaneGroup.SetActuatorCapacityVps takes only the rate. The signal's extra dispatcher argument is dropped.
- ActuatorSignal.RegisterWithTargets calls LaneGroup.RegisterActuator in place of the missing `register_signal`.
- VehicleQueue.RemoveLeadVehicle is the queue operation `move_to_queue` calls; the source's queue does not define it.
- LaneGroup.ScheduleReleaseVehicle samples its wait with `get_service_period`, which is what static.py defines; the lane group imports a `get_waiting_time` that does not exist.
- TransitToWaitingAction: the `next_link` None branch (clearing `waiting_for_lane_change`) is not modelled, because the model's next link id is an int.
- Python set and dict iteration order is modelled as first-insertion order. This covers the lane-group union of a phase, the covering-set groups of the lane partition, and the key order of `out_links` and of `get_lg2nextlinks`. The model states its results as sets or maps wherever the order does not matter.
- The lane range of a road connection is read from a list of numbers. Parsing the `"a-b"` string with `int()`, and its failures, are not modelled.
- `Link.initialize`, `reset`, `advance`, `check`, `get_vehicles`, `set_controller_command`, `release_vehicles` and `remove_given_vehicle` are not part of this model: they are I/O, TODO or `pass` in the source.
- InLanegroups / BuildRc2Inlgs: they read the lane group's start lane. The source reads `lg.start_lane` (core.py:188-189), which LaneGroup never sets: it stores `start_lane_dn` (LaneGroup.py:80). Python raises AttributeError there. The model uses the start lane the lane group was built with.
- BuildRc2Inlgs / PopulateNextLinks / AddNextLinks / GetLg2NextLinks: the next-link map is the link's `outlink2lanegroups` field (Link.py:25, 50). The source writes and reads `link.nextlink2mylgs` (core.py:198, 201, 325), which Link never sets, so Python raises AttributeError. The model keeps the map in the declared field.
- LaneGroup.AddVehicle: the source calls `veh.move_to_queue(timestamp, self, self.transit_queue)` (LaneGroup.py:173), three arguments to a two-parameter method (Vehicle.py:21), so Python raises TypeError. The model makes the two-argument move.
- LaneGroup.UpdateLongSupply / LaneGroup.AddVehicle / Link.GetTotalVehicles: they use the corrected vehicle count, transit + waiting. The as-written supply, max_vehicles − 2·transit, is LaneGroup.UpdateLongSupplyAsWritten (see Findings).
- LaneGroup.constructor requires a non-zero speed. LaneGroup.Create is the total form and returns ZeroDivision for speed 0 (LaneGroup.py:85). NewLanegroups, SetPartition and Network.CreateLanegroups return that error.
- Network.constructor requires that no link with lane groups to create has speed 0, because a constructor cannot return an error. With such a link the source raises ZeroDivisionError after the flags and the earlier links' lane groups are set. Network.CreateLanegroups states that partial state.
- ControllerStage.constructor requires at least one actuator, and a non-zero cycle when there are stages. ControllerStage.Create is the total form: StopIteration without actuators (Controller.py:37), then ZeroDivision for a zero cycle (Controller.py:58).
- Network.constructor derives the link flags through Network.DeriveFlags; its own contract states the node flags and the partition and does not restate the link flags.

## Findings

| source | as written | input that shows it | evidently intended | confidence | as-written member | corrected member |
|---|---|---|---|---|---|---|
| src/otm-queue/Events.py:113-114 | The events list is filtered with a list comprehension and not re-heapified, so it need not be a heap and the next `heappop` need not return the earliest event. | Heap [(0, demand d), (5, demand d2), (1, demand d2)]; removing d's demand changes leaves [(5, …), (1, …)], whose head 5 is not the minimum, so the clock would move to 5 and then back to 1. | Re-heapify after filtering, so the pending events are exactly the kept ones and pops stay in time order. | not executed | Dispatcher.RemoveEventsForRecipientAsWritten, RemovalWithoutHeapifyPopsLate | Dispatcher.RemoveEventsForRecipient |
| src/otm-queue/LaneGroup.py:116-117 | `get_total_vehicles` adds the transit queue's size to itself and ignores the waiting queue. | One vehicle in transit counts as 2; three waiting count as 0; the transit-to-waiting move changes the count. | transit + waiting, which a move between the two queues keeps, used by `update_long_supply`. | not executed | VehicleCountAsWritten, LaneGroup.GetTotalVehiclesAsWritten, LaneGroup.UpdateLongSupplyAsWritten, VehicleCountAsWrittenIsWrong | VehicleCount, LaneGroup.GetTotalVehicles, LaneGroup.UpdateLongSupply, TransitToWaitingKeepsCount |
