// Signal.py: signal phases, each gating a set of lane groups with its bulb
// colour, and the signal actuator that applies a controller's command to
// its phases.  Python sets of lane groups are sequences without repeats.

datatype BulbColor = Red | Green | Dark

/** CommandSignal: the colour commanded for each phase id. */
datatype CommandSignal = CommandSignal(value: map<int, BulbColor>)

/** The rate set_bulb_color sends: none for RED or DARK, unbounded for GREEN. */
function RateFor(color: BulbColor): (r: Rate)
  ensures color == Green <==> r.Unbounded?
  ensures color != Green ==> r == Finite(0.0)
{
  match color
  case Red => Finite(0.0)
  case Dark => Finite(0.0)
  case Green => Unbounded
}

/** A phase missing from the command goes RED. */
function CommandedColor(command: CommandSignal, phaseId: int): (c: BulbColor)
  ensures phaseId in command.value ==> c == command.value[phaseId]
  ensures phaseId !in command.value ==> c == Red
{
  if phaseId in command.value then command.value[phaseId] else Red
}

/** The saturation rate a lane group ends with once a phase of colour `color` gates it. */
function GatedRate(lg: LaneGroup, color: BulbColor): real
{
  CappedRate(lg.nomSaturationFlowRateVps, RateFor(color))
}

/**
 * GREEN restores the nominal rate; RED and DARK stop a lane group whose
 * nominal rate is non-negative.
 */
lemma GatedRates(lg: LaneGroup)
  ensures GatedRate(lg, Green) == lg.nomSaturationFlowRateVps
  ensures lg.nomSaturationFlowRateVps >= 0.0 ==> GatedRate(lg, Red) == 0.0 && GatedRate(lg, Dark) == 0.0
{
}

predicate NoRepeats(s: seq<LaneGroup>)
{
  forall i, j :: 0 <= i < j < |s| ==> s[i] != s[j]
}

/** `u.union(set(l))` on lane-group sets kept as sequences without repeats. */
function AddAll(u: seq<LaneGroup>, l: seq<LaneGroup>): (r: seq<LaneGroup>)
  ensures forall i :: 0 <= i < |r| ==> r[i] in u || r[i] in l
  ensures forall i :: 0 <= i < |l| ==> l[i] in r
  ensures NoRepeats(u) ==> NoRepeats(r)
  ensures |u| <= |r| && r[..|u|] == u
  decreases |l|
{
  if l == [] then u
  else
    var v := if l[0] in u then u else u + [l[0]];
    var r := AddAll(v, l[1..]);
    assert r[..|v|] == v;
    assert l[0] in v;
    assert forall i :: 1 <= i < |l| ==> l[i] == l[1..][i - 1];
    assert r[..|u|] == v[..|u|];
    r
}

/** Membership in the union, stated for lane groups rather than positions. */
lemma AddAllMembers(u: seq<LaneGroup>, l: seq<LaneGroup>)
  ensures forall lg :: lg in AddAll(u, l) <==> lg in u || lg in l
{
  var r := AddAll(u, l);
  forall lg | lg in u
    ensures lg in r
  {
    var i :| 0 <= i < |u| && u[i] == lg;
    assert r[..|u|][i] == lg;
  }
}

class SignalPhase {
  const phaseId: int
  const lanegroups: seq<LaneGroup>
  var bulbcolor: Option<BulbColor>   // None until a colour is first set

  /** SignalPhase(...): the phase's id and the lane groups its road connections reach. */
  constructor (phaseId: int, lanegroups: seq<LaneGroup>)
    requires NoRepeats(lanegroups)
    ensures this.phaseId == phaseId && this.lanegroups == lanegroups && bulbcolor.None?
  {
    this.phaseId := phaseId;
    this.lanegroups := lanegroups;
    bulbcolor := None;
  }

  /**
   * The constructor's loop: the union of rc2inlgs over the phase's road
   * connections; a road connection missing from rc2inlgs is a KeyError.
   */
  static method PhaseLanegroups(rcids: seq<int>, rc2inlgs: map<int, seq<LaneGroup>>) returns (r: Result<seq<LaneGroup>>)
    ensures r.Ok? <==> forall i :: 0 <= i < |rcids| ==> rcids[i] in rc2inlgs
    ensures r.Err? ==> exists i :: 0 <= i < |rcids| && rcids[i] !in rc2inlgs && r.error == KeyNotFound(rcids[i]) &&
                                   (forall j :: 0 <= j < i ==> rcids[j] in rc2inlgs)
    ensures r.Ok? ==> NoRepeats(r.value)
    ensures r.Ok? ==> forall lg :: lg in r.value <==> exists i :: 0 <= i < |rcids| && lg in rc2inlgs[rcids[i]]
  {
    var u: seq<LaneGroup> := [];
    var i := 0;
    while i < |rcids|
      invariant 0 <= i <= |rcids|
      invariant forall j :: 0 <= j < i ==> rcids[j] in rc2inlgs
      invariant NoRepeats(u)
      invariant forall lg :: lg in u <==> exists j :: 0 <= j < i && lg in rc2inlgs[rcids[j]]
    {
      if rcids[i] !in rc2inlgs {
        return Err(KeyNotFound(rcids[i]));
      }
      AddAllMembers(u, rc2inlgs[rcids[i]]);
      u := AddAll(u, rc2inlgs[rcids[i]]);
      i := i + 1;
    }
    r := Ok(u);
  }

  /**
   * set_bulb_color: the colour is stored and every lane group of the phase
   * gets the colour's rate, capped at its nominal rate.
   */
  method SetBulbColor(toColor: BulbColor)
    modifies this`bulbcolor, lanegroups`saturationFlowRateVps
    ensures bulbcolor == Some(toColor)
    ensures forall i :: 0 <= i < |lanegroups| ==> lanegroups[i].saturationFlowRateVps == GatedRate(lanegroups[i], toColor)
  {
    bulbcolor := Some(toColor);
    var rate := RateFor(toColor);
    var i := 0;
    while i < |lanegroups|
      invariant 0 <= i <= |lanegroups|
      invariant bulbcolor == Some(toColor)
      invariant forall j :: 0 <= j < i ==> lanegroups[j].saturationFlowRateVps == GatedRate(lanegroups[j], toColor)
    {
      lanegroups[i].SetActuatorCapacityVps(rate);
      i := i + 1;
    }
  }
}

/** Phase `i` is the last of phases[..k] that gates `lg`. */
ghost predicate LastGatedBy(phases: seq<SignalPhase>, k: int, i: int, lg: LaneGroup)
  requires 0 <= i < k <= |phases|
{
  lg in phases[i].lanegroups && forall j :: i < j < k ==> lg !in phases[j].lanegroups
}

/** The colour each of `phases` shows. */
ghost function ColorsOf(phases: set<SignalPhase>): map<SignalPhase, Option<BulbColor>>
  reads phases
{
  map ph | ph in phases :: ph.bulbcolor
}

/** The rate of each of `lanegroups`. */
ghost function RatesOf(lanegroups: set<LaneGroup>): map<LaneGroup, real>
  reads lanegroups
{
  map lg | lg in lanegroups :: lg.saturationFlowRateVps
}

/** Each of `phases` shows the colour `colors` records for it. */
ghost predicate ColorsAsIn(phases: seq<SignalPhase>, colors: map<SignalPhase, Option<BulbColor>>)
  reads phases
{
  forall p :: 0 <= p < |phases| ==> phases[p] in colors && phases[p].bulbcolor == colors[phases[p]]
}

class ActuatorSignal {
  const id: int
  const dt: Option<real>
  const phases: seq<SignalPhase>   // signal_phases.values(), in dictionary order
  var command: Option<CommandSignal>

  /** Phases are distinct objects with distinct ids, as the values of a dictionary keyed by id. */
  ghost predicate Valid()
  {
    forall i, j :: 0 <= i < j < |phases| ==> phases[i] != phases[j] && phases[i].phaseId != phases[j].phaseId
  }

  constructor (id: int, dt: Option<real>, phases: seq<SignalPhase>)
    requires forall i, j :: 0 <= i < j < |phases| ==> phases[i] != phases[j] && phases[i].phaseId != phases[j].phaseId
    ensures this.id == id && this.dt == dt && this.phases == phases && command.None?
    ensures Valid()
  {
    this.id := id;
    this.dt := dt;
    this.phases := phases;
    command := None;
  }

  /** Every phase object. */
  ghost function Phases(): set<SignalPhase>
  {
    set p | p in phases
  }

  /** Every lane group some phase gates. */
  ghost function Targets(): set<LaneGroup>
  {
    set p, lg | p in phases && lg in p.lanegroups :: lg
  }

  /**
   * register_with_targets: the union of the phases' lane groups, each
   * registered once, with this actuator as its signal.
   */
  method RegisterWithTargets() returns (registered: seq<LaneGroup>)
    modifies Targets()`actuatorCapacity
    ensures NoRepeats(registered)
    ensures forall lg :: lg in registered <==> exists i :: 0 <= i < |phases| && lg in phases[i].lanegroups
    ensures forall i, j :: 0 <= i < |phases| && 0 <= j < |phases[i].lanegroups| ==>
      phases[i].lanegroups[j].actuatorCapacity == this
  {
    var u: seq<LaneGroup> := [];
    var i := 0;
    while i < |phases|
      invariant 0 <= i <= |phases|
      invariant NoRepeats(u)
      invariant forall lg :: lg in u <==> exists j :: 0 <= j < i && lg in phases[j].lanegroups
    {
      AddAllMembers(u, phases[i].lanegroups);
      u := AddAll(u, phases[i].lanegroups);
      i := i + 1;
    }
    var k := 0;
    while k < |u|
      invariant 0 <= k <= |u|
      invariant forall j :: 0 <= j < k ==> u[j].actuatorCapacity == this
    {
      assert u[k] in u;
      var p :| 0 <= p < |phases| && u[k] in phases[p].lanegroups;
      assert phases[p] in phases;
      assert u[k] in Targets();
      u[k].RegisterActuator(this);
      k := k + 1;
    }
    registered := u;
    forall i, j | 0 <= i < |phases| && 0 <= j < |phases[i].lanegroups|
      ensures phases[i].lanegroups[j].actuatorCapacity == this
    {
      assert phases[i].lanegroups[j] in u;
    }
  }

  /**
   * process_command: nothing without a command; otherwise every phase takes
   * its commanded colour, RED when the command omits it.  A lane group gated
   * by several phases ends with the rate of the last of them.
   */
  method ProcessCommand()
    requires Valid()
    modifies Phases()`bulbcolor, Targets()`saturationFlowRateVps
    ensures command.None? ==> forall i :: 0 <= i < |phases| ==> phases[i].bulbcolor == old(phases[i].bulbcolor)
    ensures command.None? ==> forall i, j :: 0 <= i < |phases| && 0 <= j < |phases[i].lanegroups| ==>
      phases[i].lanegroups[j].saturationFlowRateVps == old(phases[i].lanegroups[j].saturationFlowRateVps)
    ensures command.Some? ==> forall i :: 0 <= i < |phases| ==>
      phases[i].bulbcolor == Some(CommandedColor(command.value, phases[i].phaseId))
    ensures command.Some? ==> forall i, lg :: 0 <= i < |phases| && LastGatedBy(phases, |phases|, i, lg) ==>
      lg.saturationFlowRateVps == GatedRate(lg, CommandedColor(command.value, phases[i].phaseId))
  {
    if command.None? {
      return;
    }
    var cmd := command.value;
    var k := 0;
    while k < |phases|
      invariant 0 <= k <= |phases|
      invariant forall i :: 0 <= i < k ==> phases[i].bulbcolor == Some(CommandedColor(cmd, phases[i].phaseId))
      invariant forall i, lg :: 0 <= i < k && LastGatedBy(phases, k, i, lg) ==>
        lg.saturationFlowRateVps == GatedRate(lg, CommandedColor(cmd, phases[i].phaseId))
    {
      assert phases[k] in Phases();
      assert forall lg :: lg in phases[k].lanegroups ==> lg in Targets();
      ProcessPhase(k, cmd);
      k := k + 1;
    }
  }

  /**
   * One iteration of process_command's loop: phase k takes its commanded
   * colour, and its lane groups the rate of that colour.
   */
  method ProcessPhase(k: nat, cmd: CommandSignal)
    requires Valid() && k < |phases|
    requires forall i :: 0 <= i < k ==> phases[i].bulbcolor == Some(CommandedColor(cmd, phases[i].phaseId))
    requires forall i, lg :: 0 <= i < k && LastGatedBy(phases, k, i, lg) ==>
      lg.saturationFlowRateVps == GatedRate(lg, CommandedColor(cmd, phases[i].phaseId))
    modifies {phases[k]}`bulbcolor, phases[k].lanegroups`saturationFlowRateVps
    ensures forall i :: 0 <= i < k + 1 ==> phases[i].bulbcolor == Some(CommandedColor(cmd, phases[i].phaseId))
    ensures forall i, lg :: 0 <= i < k + 1 && LastGatedBy(phases, k + 1, i, lg) ==>
      lg.saturationFlowRateVps == GatedRate(lg, CommandedColor(cmd, phases[i].phaseId))
  {
    var phase := phases[k];
    phase.SetBulbColor(CommandedColor(cmd, phase.phaseId));
    forall i, lg | 0 <= i < k + 1 && LastGatedBy(phases, k + 1, i, lg)
      ensures lg.saturationFlowRateVps == GatedRate(lg, CommandedColor(cmd, phases[i].phaseId))
    {
      if i < k {
        assert LastGatedBy(phases, k, i, lg);
        assert lg !in phase.lanegroups;
      } else {
        var j :| 0 <= j < |phase.lanegroups| && phase.lanegroups[j] == lg;
      }
    }
  }

  /**
   * AbstractActuator.poke: apply the command, then, when the actuator has a
   * dt, wake up again dt later with dispatch order 3.
   */
  method Poke(dispatcher: Dispatcher, timestamp: real)
    requires Valid()
    modifies Phases()`bulbcolor, Targets()`saturationFlowRateVps, dispatcher`events
    ensures command.Some? ==> forall i :: 0 <= i < |phases| ==>
      phases[i].bulbcolor == Some(CommandedColor(command.value, phases[i].phaseId))
    ensures command.None? ==> forall i :: 0 <= i < |phases| ==> phases[i].bulbcolor == old(phases[i].bulbcolor)
    ensures command.Some? ==> forall i, lg :: 0 <= i < |phases| && LastGatedBy(phases, |phases|, i, lg) ==>
      lg.saturationFlowRateVps == GatedRate(lg, CommandedColor(command.value, phases[i].phaseId))
    ensures command.None? ==> forall i, j :: 0 <= i < |phases| && 0 <= j < |phases[i].lanegroups| ==>
      phases[i].lanegroups[j].saturationFlowRateVps == old(phases[i].lanegroups[j].saturationFlowRateVps)
    ensures dt.None? ==> dispatcher.events == old(dispatcher.events)
    ensures dt.Some? && timestamp + dt.value >= dispatcher.currentTime ==>
      dispatcher.Pending() == old(dispatcher.Pending()) + multiset{ActuatorPokeEvent(timestamp + dt.value, this)}
    ensures dt.Some? && timestamp + dt.value < dispatcher.currentTime ==> dispatcher.events == old(dispatcher.events)
    ensures old(dispatcher.Valid()) ==> dispatcher.Valid()
  {
    ProcessCommand();
    if dt.Some? {
      dispatcher.RegisterEvent(ActuatorPokeEvent(timestamp + dt.value, this));
    }
  }
}

/** An actuator's self-poke, dispatched with order 3. */
function ActuatorPokeEvent(timestamp: real, actuator: ActuatorSignal): Event
{
  Event(timestamp, 3, PokeActuator(actuator))
}
