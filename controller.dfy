// Controller.py with AbstractController from abstract.py: the pretimed stage
// controller.  A cycle of stages, each turning a set of phases GREEN, is
// repeated with a given offset; the controller pokes itself at every stage
// change and hands its command to its signal actuators.

/** StageindexReltime: a stage index and the time since that stage began. */
datatype StageIndexReltime = StageIndexReltime(index: int, reltime: real)

class Stage {
  const duration: real      // [s]
  const phaseIds: set<int>
  var cycleStarttime: real  // [s] from the start of the cycle, set by the controller

  constructor (duration: real, phaseIds: set<int>)
    ensures this.duration == duration && this.phaseIds == phaseIds
  {
    this.duration := duration;
    this.phaseIds := phaseIds;
  }
}

/** The sum of the durations of the first n stages: when stage n starts within the cycle. */
function StageStart(stages: seq<Stage>, n: nat): real
  requires n <= |stages|
{
  if n == 0 then 0.0 else StageStart(stages, n - 1) + stages[n - 1].duration
}

/** When stage i ends within the cycle. */
function StageEnd(stages: seq<Stage>, i: nat): real
  requires i < |stages|
{
  StageStart(stages, i + 1)
}

/** Where each of the first n stages starts within the cycle: its start modulo the cycle. */
function CycleStarts(stages: seq<Stage>, cycle: real, n: nat): (r: seq<real>)
  requires n <= |stages| && (n > 0 ==> cycle != 0.0)
  ensures |r| == n
{
  if n == 0 then [] else CycleStarts(stages, cycle, n - 1) + [PyMod(StageStart(stages, n - 1), cycle)]
}

lemma {:induction false} CycleStartsAt(stages: seq<Stage>, cycle: real, n: nat)
  requires n <= |stages| && (n > 0 ==> cycle != 0.0)
  ensures forall j :: 0 <= j < n ==> CycleStarts(stages, cycle, n)[j] == PyMod(StageStart(stages, j), cycle)
{
  if n > 0 {
    CycleStartsAt(stages, cycle, n - 1);
  }
}

/**
 * The scan of get_stage_for_time from stage i on: the first stage whose end
 * lies after reltime, with the time since its start; (0, 0) when there is none.
 */
function StageScan(stages: seq<Stage>, reltime: real, i: nat): (x: StageIndexReltime)
  requires i <= |stages|
  ensures 0 <= x.index && (|stages| > 0 ==> x.index < |stages|)
  decreases |stages| - i
{
  if i == |stages| then StageIndexReltime(0, 0.0)
  else if StageStart(stages, i + 1) > reltime then StageIndexReltime(i, reltime - StageStart(stages, i))
  else StageScan(stages, reltime, i + 1)
}

/**
 * get_stage_for_time: the scan at (time - offset) % cycle, a stage index in
 * range whenever there are stages; a zero cycle divides by zero.
 */
function StageFor(stages: seq<Stage>, cycle: real, offset: real, time: real): (r: Result<StageIndexReltime>)
  ensures r.Err? <==> cycle == 0.0
  ensures r.Err? ==> r.error == ZeroDivision
  ensures r.Ok? ==> 0 <= r.value.index && (|stages| > 0 ==> r.value.index < |stages|)
{
  if cycle == 0.0 then Err(ZeroDivision) else Ok(StageScan(stages, PyMod(time - offset, cycle), 0))
}

/** The position within the cycle lies in [0, cycle) for every time, negative ones included. */
lemma CyclePositionInRange(cycle: real, offset: real, time: real)
  requires cycle > 0.0
  ensures 0.0 <= PyMod(time - offset, cycle) < cycle
{
  PyModRange(time - offset, cycle);
}

/**
 * The scan from i finds the first stage at or after i that ends after
 * reltime, or, when no stage does, falls back to (0, 0).
 */
lemma {:induction false} StageScanFirst(stages: seq<Stage>, reltime: real, i: nat)
  requires i <= |stages|
  ensures var x := StageScan(stages, reltime, i);
    || (i <= x.index < |stages| && StageStart(stages, x.index + 1) > reltime &&
        x.reltime == reltime - StageStart(stages, x.index) &&
        forall j :: i <= j < x.index ==> StageEnd(stages, j) <= reltime)
    || (x == StageIndexReltime(0, 0.0) && forall j :: i <= j < |stages| ==> StageEnd(stages, j) <= reltime)
  decreases |stages| - i
{
  if i < |stages| && StageStart(stages, i + 1) <= reltime {
    StageScanFirst(stages, reltime, i + 1);
  }
}

/**
 * get_stage_for_time with a positive cycle: either the first stage whose end
 * lies after the position in the cycle, entered between 0 and its duration
 * ago, or (0, 0) when every stage has ended by then.
 */
lemma StageForIsFirstEnding(stages: seq<Stage>, cycle: real, offset: real, time: real)
  requires cycle > 0.0
  ensures StageFor(stages, cycle, offset, time).Ok?
  ensures var rel := PyMod(time - offset, cycle);
    var x := StageFor(stages, cycle, offset, time).value;
    || (0 <= x.index < |stages| && 0.0 <= x.reltime < stages[x.index].duration &&
        x.reltime == rel - StageStart(stages, x.index) &&
        forall j :: 0 <= j < x.index ==> StageEnd(stages, j) <= rel)
    || (x == StageIndexReltime(0, 0.0) && forall j :: 0 <= j < |stages| ==> StageEnd(stages, j) <= rel)
{
  var rel := PyMod(time - offset, cycle);
  PyModRange(time - offset, cycle);
  StageScanFirst(stages, rel, 0);
  var x := StageScan(stages, rel, 0);
  if 0 <= x.index < |stages| && StageStart(stages, x.index + 1) > rel && x.reltime == rel - StageStart(stages, x.index) {
    if x.index > 0 {
      assert StageEnd(stages, x.index - 1) <= rel;
    }
  }
}

/** The stage schedule repeats with the cycle, forwards and backwards. */
lemma StageForIsPeriodic(stages: seq<Stage>, cycle: real, offset: real, time: real)
  ensures StageFor(stages, cycle, offset, time + cycle) == StageFor(stages, cycle, offset, time)
  ensures StageFor(stages, cycle, offset, time - cycle) == StageFor(stages, cycle, offset, time)
{
  if cycle != 0.0 {
    PyModShift(time - offset, cycle, 1);
    assert time + cycle - offset == (time - offset) + (1 as real) * cycle;
    PyModShift(time - offset, cycle, -1);
    assert time - cycle - offset == (time - offset) + (-1 as real) * cycle;
  }
}

/**
 * get_command_for_stage_index: defined exactly on Python's index range,
 * negative indices included; the command turns exactly the stage's phases
 * GREEN and names no other phase.
 */
function CommandForStage(stages: seq<Stage>, index: int): (r: Result<CommandSignal>)
  ensures r.Ok? <==> -|stages| <= index < |stages|
  ensures r.Err? ==> r.error == IndexOutOfRange
  ensures r.Ok? ==> r.value.value.Keys == PyIndex(stages, index).value.phaseIds
  ensures r.Ok? ==> forall p :: p in r.value.value ==> r.value.value[p] == Green
{
  match PyIndex(stages, index)
  case Err(e) => Err(e)
  case Ok(stage) => Ok(CommandSignal(map p | p in stage.phaseIds :: Green))
}

/** The phase colours such a command produces: GREEN for the stage's phases, RED for the rest. */
lemma StageColors(stages: seq<Stage>, index: int, phaseId: int)
  requires 0 <= index < |stages|
  ensures CommandedColor(CommandForStage(stages, index).value, phaseId) ==
    if phaseId in stages[index].phaseIds then Green else Red
{
}

/** When the current stage ends: now, less the time already spent in it, plus its duration. */
function NextStageStart(stages: seq<Stage>, now: real, x: StageIndexReltime): real
  requires 0 <= x.index < |stages|
{
  now - x.reltime + stages[x.index].duration
}

/**
 * With a positive cycle the next stage change lies strictly after now: a
 * stage found is left before its duration is over, and the (0, 0) fallback
 * waits for the first stage's duration when that is positive.
 */
lemma NextStageStartIsLater(stages: seq<Stage>, cycle: real, offset: real, now: real)
  requires cycle > 0.0 && |stages| > 0
  requires stages[0].duration > 0.0
  ensures var x := StageFor(stages, cycle, offset, now).value;
    0 <= x.index < |stages| && NextStageStart(stages, now, x) > now
{
  StageForIsFirstEnding(stages, cycle, offset, now);
}

/** A controller poke, dispatched with the order given. */
function ControllerPokeEvent(timestamp: real, order: int, controller: ControllerStage): Event
{
  Event(timestamp, order, PokeController(controller))
}

class ControllerStage {
  const id: int
  const dt: Option<real>
  const cycle: real
  const offset: real
  const stages: seq<Stage>
  const actuators: seq<ActuatorSignal>   // actuators.values(), in dictionary order
  const signal: ActuatorSignal           // the first actuator
  var currStageIndex: Option<int>        // None until a stage is first set
  var command: map<int, CommandSignal>   // actuator id -> command
  var eventWriter: object?

  /**
   * The actuators are distinct objects with distinct ids, each valid, and no
   * two share a phase.
   */
  ghost predicate Valid()
  {
    (forall i, j :: 0 <= i < j < |actuators| ==> actuators[i] != actuators[j] && actuators[i].id != actuators[j].id) &&
    (forall i :: 0 <= i < |actuators| ==> actuators[i].Valid()) &&
    (forall i, j, p, q ::
      (0 <= i < |actuators| && 0 <= j < |actuators| && i != j &&
       0 <= p < |actuators[i].phases| && 0 <= q < |actuators[j].phases|) ==>
      actuators[i].phases[p] != actuators[j].phases[q])
  }

  /**
   * ControllerStage(...): the signal is the first actuator, and each stage's
   * start within the cycle is the sum of the earlier durations modulo the cycle.
   */
  constructor (id: int, dt: Option<real>, cycle: real, offset: real, stages: seq<Stage>, actuators: seq<ActuatorSignal>)
    requires |actuators| >= 1
    requires |stages| > 0 ==> cycle != 0.0
    requires forall i, j :: 0 <= i < j < |stages| ==> stages[i] != stages[j]
    modifies stages
    ensures this.id == id && this.dt == dt && this.cycle == cycle && this.offset == offset
    ensures this.stages == stages && this.actuators == actuators && signal == actuators[0]
    ensures command == map[] && eventWriter == null && currStageIndex.None?
    ensures forall i :: 0 <= i < |stages| ==> stages[i].cycleStarttime == PyMod(StageStart(stages, i), cycle)
  {
    this.id := id;
    this.dt := dt;
    this.cycle := cycle;
    this.offset := offset;
    this.stages := stages;
    this.actuators := actuators;
    signal := actuators[0];
    currStageIndex := None;
    command := map[];
    eventWriter := null;
    new;
    var _ := SetStartTimes(stages, cycle);
  }

  /**
   * ControllerStage(...) with the exceptions it raises: `next` on an empty
   * actuator dictionary raises StopIteration before anything else; then a
   * zero cycle raises ZeroDivisionError at the first stage, before any start
   * time is set.
   */
  static method Create(id: int, dt: Option<real>, cycle: real, offset: real, stages: seq<Stage>, actuators: seq<ActuatorSignal>)
    returns (r: Result<ControllerStage>)
    requires forall i, j :: 0 <= i < j < |stages| ==> stages[i] != stages[j]
    modifies stages
    ensures |actuators| == 0 ==> r == Err(StopIteration)
    ensures |actuators| > 0 && |stages| > 0 && cycle == 0.0 ==> r == Err(ZeroDivision)
    ensures r.Ok? <==> |actuators| > 0 && (|stages| > 0 ==> cycle != 0.0)
    ensures r.Err? ==> forall i :: 0 <= i < |stages| ==> stages[i].cycleStarttime == old(stages[i].cycleStarttime)
    ensures r.Ok? ==> fresh(r.value)
    ensures r.Ok? ==> r.value.id == id && r.value.dt == dt && r.value.cycle == cycle && r.value.offset == offset
    ensures r.Ok? ==> r.value.stages == stages && r.value.actuators == actuators && r.value.signal == actuators[0]
    ensures r.Ok? ==> r.value.command == map[] && r.value.currStageIndex.None?
    ensures r.Ok? ==> forall i :: 0 <= i < |stages| ==> stages[i].cycleStarttime == PyMod(StageStart(stages, i), cycle)
  {
    if |actuators| == 0 {
      return Err(StopIteration);
    }
    if |stages| > 0 && cycle == 0.0 {
      return Err(ZeroDivision);
    }
    var c := new ControllerStage(id, dt, cycle, offset, stages, actuators);
    r := Ok(c);
  }

  /**
   * The constructor's loop: stage i starts at the earlier durations' sum
   * modulo the cycle; a zero cycle raises at the first stage, which is then
   * left unset.
   */
  static method SetStartTimes(stages: seq<Stage>, cycle: real) returns (r: Result<()>)
    requires forall i, j :: 0 <= i < j < |stages| ==> stages[i] != stages[j]
    modifies stages
    ensures r.Err? <==> |stages| > 0 && cycle == 0.0
    ensures r.Err? ==> r.error == ZeroDivision
    ensures r.Err? ==> forall i :: 0 <= i < |stages| ==> stages[i].cycleStarttime == old(stages[i].cycleStarttime)
    ensures r.Ok? ==> forall i :: 0 <= i < |stages| ==> stages[i].cycleStarttime == PyMod(StageStart(stages, i), cycle)
  {
    if |stages| > 0 && cycle == 0.0 {
      return Err(ZeroDivision);
    }
    ghost var expected := CycleStarts(stages, cycle, |stages|);
    var relstarttime := 0.0;
    var i := 0;
    while i < |stages|
      invariant 0 <= i <= |stages|
      invariant relstarttime == StageStart(stages, i)
      invariant forall j :: 0 <= j < i ==> stages[j].cycleStarttime == expected[j]
    {
      relstarttime := SetStartTime(stages, i, stages[i], relstarttime, cycle, expected);
      i := i + 1;
    }
    CycleStartsAt(stages, cycle, |stages|);
    r := Ok(());
  }

  /**
   * One iteration of the constructor's loop: stage i's start within the
   * cycle, and the start of the next stage.
   */
  static method SetStartTime(stages: seq<Stage>, i: nat, stage: Stage, relstarttime: real, cycle: real,
                             ghost expected: seq<real>)
    returns (next: real)
    requires i < |stages| && stage == stages[i] && cycle != 0.0
    requires expected == CycleStarts(stages, cycle, |stages|)
    requires relstarttime == StageStart(stages, i)
    requires forall i, j :: 0 <= i < j < |stages| ==> stages[i] != stages[j]
    requires forall j :: 0 <= j < i ==> stages[j].cycleStarttime == expected[j]
    modifies stage`cycleStarttime
    ensures forall j :: 0 <= j < i + 1 ==> stages[j].cycleStarttime == expected[j]
    ensures next == StageStart(stages, i + 1)
  {
    CycleStartsAt(stages, cycle, |stages|);
    stage.cycleStarttime := PyMod(relstarttime, cycle);
    next := relstarttime + stage.duration;
  }

  /** get_stage_for_time, scanning the stages with a running start time. */
  method GetStageForTime(time: real) returns (r: Result<StageIndexReltime>)
    ensures r == StageFor(stages, cycle, offset, time)
  {
    if cycle == 0.0 {
      return Err(ZeroDivision);
    }
    var reltime := PyMod(time - offset, cycle);
    var startTime := 0.0;
    var index := 0;
    while index < |stages|
      invariant 0 <= index <= |stages|
      invariant startTime == StageStart(stages, index)
      invariant StageScan(stages, reltime, index) == StageScan(stages, reltime, 0)
    {
      var endTime := startTime + stages[index].duration;
      if endTime > reltime {
        return Ok(StageIndexReltime(index, reltime - startTime));
      }
      startTime := endTime;
      index := index + 1;
    }
    r := Ok(StageIndexReltime(0, 0.0));
  }

  /** register_event_writer: the first writer stays. */
  method RegisterEventWriter(x: object)
    modifies this`eventWriter
    ensures eventWriter == if old(eventWriter) == null then x else old(eventWriter)
  {
    if eventWriter == null {
      eventWriter := x;
    }
  }

  /**
   * set_stage_index: the index is recorded and the signal's command, and no
   * other actuator's, becomes the stage's command.
   */
  method SetStageIndex(index: int) returns (r: Result<()>)
    modifies this`currStageIndex, this`command
    ensures r.Ok? <==> CommandForStage(stages, index).Ok?
    ensures currStageIndex == Some(index)
    ensures r.Ok? ==> command == old(command)[signal.id := CommandForStage(stages, index).value]
    ensures r.Err? ==> command == old(command)
  {
    currStageIndex := Some(index);
    var c := CommandForStage(stages, index);
    if c.Err? {
      return Err(c.error);
    }
    command := command[signal.id := c.value];
    r := Ok(());
  }

  /** get_stage_for_time for this controller's stages, cycle and offset. */
  function StageAt(now: real): Result<StageIndexReltime>
  {
    StageFor(stages, cycle, offset, now)
  }

  /** The poke update_command registers at `now`, for when the stage in force ends. */
  function StageChangePoke(now: real): Event
    requires StageAt(now).Ok? && 0 <= StageAt(now).value.index < |stages|
  {
    ControllerPokeEvent(NextStageStart(stages, now, StageAt(now).value), 2, this)
  }

  /**
   * update_command: the stage in force now is set, and a poke with dispatch
   * order 2 is registered for when that stage ends.  A zero cycle or an
   * empty stage list raises instead.
   */
  method UpdateCommand(dispatcher: Dispatcher) returns (r: Result<()>)
    modifies this`currStageIndex, this`command, dispatcher`events
    ensures r.Ok? <==> StageAt(dispatcher.currentTime).Ok? && 0 <= StageAt(dispatcher.currentTime).value.index < |stages|
    ensures r.Ok? ==> currStageIndex == Some(StageAt(dispatcher.currentTime).value.index)
    ensures r.Ok? ==> command == old(command)[signal.id := CommandForStage(stages, StageAt(dispatcher.currentTime).value.index).value]
    ensures r.Ok? ==> dispatcher.Pending() == old(dispatcher.Pending()) + Admitted(StageChangePoke(dispatcher.currentTime), dispatcher.currentTime)
    ensures r.Err? ==> dispatcher.events == old(dispatcher.events)
    ensures old(dispatcher.Valid()) ==> dispatcher.Valid()
  {
    var now := dispatcher.currentTime;
    var x := GetStageForTime(now);
    if x.Err? {
      return Err(x.error);
    }
    var stageSet := SetStageIndex(x.value.index);
    if stageSet.Err? {
      return Err(stageSet.error);
    }
    assert 0 <= x.value.index < |stages|;
    var nextStageStart := now - x.value.reltime + stages[x.value.index].duration;
    dispatcher.RegisterEvent(ControllerPokeEvent(nextStageStart, 2, this));
    r := Ok(());
  }

  /** The actuators, and the phases and lane groups an actuator's poke may change. */
  ghost function ActuatorSet(): set<ActuatorSignal>
  {
    set a | a in actuators
  }

  ghost function PhaseSet(): set<SignalPhase>
  {
    set a, p | a in actuators && p in a.phases :: p
  }

  ghost function TargetSet(): set<LaneGroup>
  {
    set a, p, lg | a in actuators && p in a.phases && lg in p.lanegroups :: lg
  }

  /**
   * AbstractController.poke: the command is updated first; then every
   * actuator receives command.get(its id), and only those without a dt are
   * poked at once; the controller wakes up again dt later, with dispatch
   * order 20, only when dt is positive.
   */
  method Poke(dispatcher: Dispatcher, timestamp: real) returns (r: Result<()>)
    requires Valid()
    modifies this`currStageIndex, this`command, ActuatorSet()`command, PhaseSet()`bulbcolor, TargetSet()`saturationFlowRateVps, dispatcher`events
    ensures r.Ok? <==> StageAt(dispatcher.currentTime).Ok? && 0 <= StageAt(dispatcher.currentTime).value.index < |stages|
    ensures r.Ok? ==> currStageIndex == Some(StageAt(dispatcher.currentTime).value.index)
    ensures r.Ok? ==> command == old(command)[signal.id := CommandForStage(stages, StageAt(dispatcher.currentTime).value.index).value]
    ensures r.Ok? ==> Delivered() && RatesKept(|actuators|)
    ensures r.Ok? ==> forall i :: 0 <= i < |actuators| && !PokedOnDelivery(actuators[i]) ==> ColorsKept(actuators[i])
    ensures r.Err? ==> RatesKept(0) && forall i :: 0 <= i < |actuators| ==> ColorsKept(actuators[i])
    ensures r.Ok? ==>
      dispatcher.Pending() == old(dispatcher.Pending()) +
        Admitted(StageChangePoke(dispatcher.currentTime), dispatcher.currentTime) +
        (if dt.Some? && dt.value > 0.0 then Admitted(ControllerPokeEvent(timestamp + dt.value, 20, this), dispatcher.currentTime)
         else multiset{})
    ensures r.Err? ==> dispatcher.events == old(dispatcher.events)
    ensures old(dispatcher.Valid()) ==> dispatcher.Valid()
  {
    r := UpdateCommand(dispatcher);
    assert RatesKept(0) && forall i :: 0 <= i < |actuators| ==> ColorsKept(actuators[i]);
    if r.Err? {
      return;
    }
    DeliverAndWake(dispatcher, timestamp);
  }

  /**
   * The rest of AbstractController.poke, once the command is updated: the
   * command reaches the actuators, and the wake-up poke is registered when dt
   * is positive.
   */
  method DeliverAndWake(dispatcher: Dispatcher, timestamp: real)
    requires Valid()
    modifies ActuatorSet()`command, PhaseSet()`bulbcolor, TargetSet()`saturationFlowRateVps, dispatcher`events
    ensures Delivered() && RatesKept(|actuators|)
    ensures forall i :: 0 <= i < |actuators| && !PokedOnDelivery(actuators[i]) ==> ColorsKept(actuators[i])
    ensures dispatcher.Pending() == old(dispatcher.Pending()) +
      (if dt.Some? && dt.value > 0.0 then Admitted(ControllerPokeEvent(timestamp + dt.value, 20, this), dispatcher.currentTime)
       else multiset{})
    ensures old(dispatcher.Valid()) ==> dispatcher.Valid()
  {
    DeliverCommand(dispatcher, timestamp);
    if dt.Some? && dt.value > 0.0 {
      dispatcher.RegisterEvent(ControllerPokeEvent(timestamp + dt.value, 20, this));
    }
  }

  /**
   * Every actuator holds command.get(its id); the phases of actuators poked
   * on delivery show the commanded colours, and the lane groups they gate
   * the rates of those colours.
   */
  ghost predicate Delivered()
    reads this, actuators, set i, p | 0 <= i < |actuators| && 0 <= p < |actuators[i].phases| :: actuators[i].phases[p]
    reads TargetSet()
  {
    (forall i :: 0 <= i < |actuators| ==> DeliveredTo(actuators[i])) && RatesDelivered(|actuators|)
  }

  /** `a` is poked as the command reaches it: it has no dt and holds a command. */
  ghost predicate PokedOnDelivery(a: ActuatorSignal)
    reads a
  {
    a.dt.None? && a.command.Some?
  }

  /** Some actuator among the first k, poked on delivery, gates `lg`. */
  ghost predicate PokedGates(k: int, lg: LaneGroup)
    reads actuators
  {
    exists j :: 0 <= j < k && j < |actuators| && PokedOnDelivery(actuators[j]) && lg in actuators[j].Targets()
  }

  /** Actuator i is the last of the first k poked on delivery that gates `lg`. */
  ghost predicate LastPokerOf(k: int, i: int, lg: LaneGroup)
    requires 0 <= i < k <= |actuators|
    reads actuators
  {
    PokedOnDelivery(actuators[i]) && lg in actuators[i].Targets() &&
    forall j :: i < j < k ==> !(PokedOnDelivery(actuators[j]) && lg in actuators[j].Targets())
  }

  /**
   * A lane group the first k actuators gate, when some of them poked on
   * delivery gates it, has the rate of the colour its last gating phase in the
   * last such actuator shows: pokes run in actuator order and phase order.
   */
  ghost predicate RatesDelivered(k: int)
    requires 0 <= k <= |actuators|
    reads actuators, TargetSet()
  {
    forall i, p, lg ::
      0 <= i < k && 0 <= p < |actuators[i].phases| && lg in actuators[i].phases[p].lanegroups && LastPokerOf(k, i, lg) &&
      LastGatedBy(actuators[i].phases, |actuators[i].phases|, p, lg) ==>
      lg.saturationFlowRateVps == GatedRate(lg, CommandedColor(actuators[i].command.value, actuators[i].phases[p].phaseId))
  }

  /** The lane groups no actuator among the first k poked on delivery gates keep their rates. */
  twostate predicate RatesKept(k: int)
    reads actuators, TargetSet()
  {
    forall lg :: lg in TargetSet() && !PokedGates(k, lg) ==> lg.saturationFlowRateVps == old(lg.saturationFlowRateVps)
  }

  /** Actuator `a` holds command.get(a.id); without a dt, its phases show the commanded colours. */
  ghost predicate DeliveredTo(a: ActuatorSignal)
    reads this, a, a.phases
  {
    a.command == (if a.id in command then Some(command[a.id]) else None) &&
    (a.dt.None? && a.command.Some? ==>
      forall p :: 0 <= p < |a.phases| ==> a.phases[p].bulbcolor == Some(CommandedColor(a.command.value, a.phases[p].phaseId)))
  }

  /** The phases of `a` show the colours they showed in the earlier state. */
  twostate predicate ColorsKept(a: ActuatorSignal)
    reads a.phases
  {
    forall p :: 0 <= p < |a.phases| ==> a.phases[p].bulbcolor == old(a.phases[p].bulbcolor)
  }

  /**
   * The loop of AbstractController.poke: each actuator gets its command, and
   * an actuator without a dt is poked at once, which registers nothing; the
   * phases of the other actuators keep their colours.
   */
  method DeliverCommand(dispatcher: Dispatcher, timestamp: real)
    requires Valid()
    modifies ActuatorSet()`command, PhaseSet()`bulbcolor, TargetSet()`saturationFlowRateVps, dispatcher`events
    ensures Delivered() && RatesKept(|actuators|)
    ensures dispatcher.events == old(dispatcher.events)
    ensures old(dispatcher.Valid()) ==> dispatcher.Valid()
    ensures forall i :: 0 <= i < |actuators| && !PokedOnDelivery(actuators[i]) ==> ColorsKept(actuators[i])
  {
    var k := 0;
    while k < |actuators|
      invariant 0 <= k <= |actuators|
      invariant dispatcher.events == old(dispatcher.events)
      invariant old(dispatcher.Valid()) ==> dispatcher.Valid()
      invariant forall i :: 0 <= i < k ==> DeliveredTo(actuators[i])
      invariant RatesDelivered(k) && RatesKept(k)
      invariant forall i :: (k <= i < |actuators| || (0 <= i < k && !PokedOnDelivery(actuators[i]))) ==> ColorsKept(actuators[i])
    {
      assert actuators[k] in actuators;
      assert actuators[k].Phases() <= PhaseSet();
      assert actuators[k].Targets() <= TargetSet();
      DeliverStep(k, dispatcher, timestamp);
      k := k + 1;
    }
  }

  /**
   * The loop's step for actuator k; the other actuators, whose phases are
   * not k's, keep their commands and colours, and only the lane groups k
   * gates, when it is poked, change rate.
   */
  method DeliverStep(k: nat, dispatcher: Dispatcher, timestamp: real)
    requires Valid() && k < |actuators|
    requires RatesDelivered(k)
    modifies {actuators[k]}`command, actuators[k].Phases()`bulbcolor, actuators[k].Targets()`saturationFlowRateVps, dispatcher`events
    ensures DeliveredTo(actuators[k]) && RatesDelivered(k + 1)
    ensures !PokedOnDelivery(actuators[k]) ==> ColorsKept(actuators[k])
    ensures forall i :: 0 <= i < |actuators| && i != k ==>
      ColorsKept(actuators[i]) && (old(DeliveredTo(actuators[i])) ==> DeliveredTo(actuators[i]))
    ensures forall lg :: lg in TargetSet() && !(PokedOnDelivery(actuators[k]) && lg in actuators[k].Targets()) ==>
      lg.saturationFlowRateVps == old(lg.saturationFlowRateVps)
    ensures dispatcher.events == old(dispatcher.events)
    ensures old(dispatcher.Valid()) ==> dispatcher.Valid()
  {
    var act := actuators[k];
    DeliverTo(act, dispatcher, timestamp);
    forall i, p, lg | 0 <= i < k + 1 && 0 <= p < |actuators[i].phases| && LastPokerOf(k + 1, i, lg) &&
                      LastGatedBy(actuators[i].phases, |actuators[i].phases|, p, lg)
      ensures lg.saturationFlowRateVps == GatedRate(lg, CommandedColor(actuators[i].command.value, actuators[i].phases[p].phaseId))
    {
      if i < k {
        assert actuators[i] != act;
        assert old(LastPokerOf(k, i, lg));
      }
    }
  }

  /**
   * One iteration of the loop: `act` gets its command and, without a dt, is
   * poked; only a poked actuator changes colours and rates.
   */
  method DeliverTo(act: ActuatorSignal, dispatcher: Dispatcher, timestamp: real)
    requires act.Valid()
    modifies act`command, act.Phases()`bulbcolor, act.Targets()`saturationFlowRateVps, dispatcher`events
    ensures DeliveredTo(act)
    ensures PokedOnDelivery(act) ==> forall p, lg :: 0 <= p < |act.phases| && LastGatedBy(act.phases, |act.phases|, p, lg) ==>
      lg.saturationFlowRateVps == GatedRate(lg, CommandedColor(act.command.value, act.phases[p].phaseId))
    ensures !PokedOnDelivery(act) ==> ColorsKept(act)
    ensures !PokedOnDelivery(act) ==> forall lg :: lg in act.Targets() ==> lg.saturationFlowRateVps == old(lg.saturationFlowRateVps)
    ensures dispatcher.events == old(dispatcher.events)
    ensures old(dispatcher.Valid()) ==> dispatcher.Valid()
  {
    act.command := if act.id in command then Some(command[act.id]) else None;
    if act.dt.None? {
      act.Poke(dispatcher, timestamp);
      forall lg | lg in act.Targets() && act.command.None?
        ensures lg.saturationFlowRateVps == old(lg.saturationFlowRateVps)
      {
        var ph :| ph in act.phases && lg in ph.lanegroups;
        var p :| 0 <= p < |act.phases| && act.phases[p] == ph;
        var j :| 0 <= j < |ph.lanegroups| && ph.lanegroups[j] == lg;
      }
    }
  }
}
