/**
 * The temperature control card (src/devices/tempctl/tempctl_device.cpp): two thermocouples, two relays and a
 * staged on/off controller whose three critical sections interleave with requests.
 */
module TempCtl {
  import opened Basics
  import opened Relaxation

  const AMBIENT := 23.0
  const TAU := 6.0
  const CHANNEL_OFFSET := 1.5
  const MIN_SETPOINT := -50.0
  const MAX_SETPOINT := 400.0

  const FN_SET_MODE := 1
  const FN_SET_SETPOINT := 2
  const FN_SET_RELAY := 3

  datatype Mode = Open | Closed

  datatype State = State(tc1: real, tc2: real, relay1: bool, relay2: bool, mode: Mode, setpoint: real)

  const DEFAULT := State(25.0, 25.0, false, false, Open, 60.0)

  /** What operator[] on the state map yields. */
  function Lookup(states: map<string, State>, id: string): State {
    if id in states then states[id] else DEFAULT
  }

  // ---------------------------------------------------------------------------------------------
  // Transitions of one device
  // ---------------------------------------------------------------------------------------------

  datatype Config = Config(initialTemp: Option<real>, tempRange: Option<(real, real)>)

  predicate ConfigAccepted(config: Config) {
    config.initialTemp.Some? && config.tempRange.Some?
    ==> config.tempRange.value.0 <= config.initialTemp.value <= config.tempRange.value.1
  }

  function InitialState(config: Config): State {
    match config.initialTemp
    case None => DEFAULT
    case Some(t) => DEFAULT.(tc1 := t, tc2 := t)
  }

  function Target(s: State): real {
    match s.mode
    case Closed => s.setpoint
    case Open =>
      if s.relay1 && s.relay2 then AMBIENT + 75.0
      else if s.relay1 || s.relay2 then AMBIENT + 45.0
      else AMBIENT
  }

  /** Both channels relax toward the target, the second one toward 1.5 degrees below it. */
  function Physics(s: State, factor: real): State {
    s.(tc1 := Relax(s.tc1, Target(s), factor), tc2 := Relax(s.tc2, Target(s) - CHANNEL_OFFSET, factor))
  }

  /** The staged controller with its dead band. */
  function Control(s: State, temp: real): State {
    var error := s.setpoint - temp;
    if error > 10.0 then s.(relay1 := true, relay2 := true)
    else if error > 2.0 then s.(relay1 := true, relay2 := false)
    else if error < -2.0 then s.(relay1 := false, relay2 := false)
    else s
  }

  predicate OutsideDeadBand(s: State, temp: real) {
    !(-2.0 <= s.setpoint - temp <= 2.0)
  }

  function ParseMode(text: string): Option<Mode> {
    if text == "open" then Some(Open) else if text == "closed" then Some(Closed) else None
  }

  function Call(s: State, functionId: nat, args: Args): (State, Code) {
    match functionId
    case 1 =>
      var text := ArgString(args, "mode");
      if text.None? || ParseMode(text.value).None? then (s, CodeInvalidArgument)
      else (s.(mode := ParseMode(text.value).value), CodeOk)
    case 2 =>
      var sp := ArgDouble(args, "value");
      if sp.None? || !sp.value.Finite? then (s, CodeInvalidArgument)
      else if !(MIN_SETPOINT <= sp.value.r <= MAX_SETPOINT) then (s, CodeOutOfRange)
      else (s.(setpoint := sp.value.r), CodeOk)
    case 3 =>
      var index, on := ArgInt64(args, "relay_index"), ArgBool(args, "state");
      if s.mode != Open then (s, CodeFailedPrecondition)
      else if index.None? then (s, CodeInvalidArgument)
      else if index.value != 1 && index.value != 2 then (s, CodeOutOfRange)
      else if on.None? then (s, CodeInvalidArgument)
      else if index.value == 1 then (s.(relay1 := on.value), CodeOk)
      else (s.(relay2 := on.value), CodeOk)
    case _ => (s, CodeNotFound)
  }

  const DEFAULT_SIGNALS := ["tc1_temp", "tc2_temp", "relay1_state", "relay2_state"]
  const ACTUATORS := ["relay1_state", "relay2_state"]
  const FUNCTIONS := [("set_mode", FN_SET_MODE), ("set_setpoint", FN_SET_SETPOINT), ("set_relay", FN_SET_RELAY)]

  /** What a read of one signal yields, given the value the simulation publishes for its path, if any. */
  function Reading(s: State, sig: string, published: Option<real>): Option<Value> {
    if sig == "tc1_temp" then Some(DoubleValue(Finite(published.GetOr(s.tc1))))
    else if sig == "tc2_temp" then Some(DoubleValue(Finite(published.GetOr(s.tc2))))
    else if sig == "relay1_state" then Some(BoolValue(published.GetOr(if s.relay1 then 1.0 else 0.0) >= 0.5))
    else if sig == "relay2_state" then Some(BoolValue(published.GetOr(if s.relay2 then 1.0 else 0.0) >= 0.5))
    else if sig == "control_mode" then Some(StringValue(if s.mode == Open then "open" else "closed"))
    else if sig == "setpoint" then Some(DoubleValue(Finite(s.setpoint)))
    else None
  }

  // ---------------------------------------------------------------------------------------------
  // What control, calls and configuration mean
  // ---------------------------------------------------------------------------------------------

  /** More than 10 degrees too cold: both relays; more than 2: the first one; more than 2 too hot: none. */
  predicate StagedFor(s: State, s': State, temp: real) {
    && (temp < s.setpoint - 10.0 ==> s'.relay1 && s'.relay2)
    && (s.setpoint - 10.0 <= temp < s.setpoint - 2.0 ==> s'.relay1 && !s'.relay2)
    && (s.setpoint - 2.0 <= temp <= s.setpoint + 2.0 ==> s'.relay1 == s.relay1 && s'.relay2 == s.relay2)
    && (temp > s.setpoint + 2.0 ==> !s'.relay1 && !s'.relay2)
    && s' == s.(relay1 := s'.relay1, relay2 := s'.relay2)
  }

  lemma ControlStages(s: State, temp: real)
    ensures StagedFor(s, Control(s, temp), temp)
  {
  }

  function RelaysOn(s: State): nat {
    (if s.relay1 then 1 else 0) + if s.relay2 then 1 else 0
  }

  /** Heat is never added because it has become warmer: outside the dead band fewer relays or as many are on. */
  lemma HotterMeansFewerRelays(s1: State, s2: State, cold: real, hot: real)
    requires s1.setpoint == s2.setpoint && cold <= hot
    requires OutsideDeadBand(s1, cold) && OutsideDeadBand(s2, hot)
    ensures RelaysOn(Control(s2, hot)) <= RelaysOn(Control(s1, cold))
  {
    ControlStages(s1, cold);
    ControlStages(s2, hot);
  }

  /**
   * The calls by name and argument: which are accepted, why the others are not, and the one field that changes. The
   * mode is checked first by set_relay, the type of an argument before its range.
   */
  lemma CallMeans(s: State, functionId: nat, args: Args)
    ensures var (s', code) := Call(s, functionId, args);
            match functionId
            case 1 =>
              var text := ArgString(args, "mode");
              && (code == CodeOk <==> text == Some("open") || text == Some("closed"))
              && (code != CodeOk ==> code == CodeInvalidArgument)
              && s' == s.(mode := s'.mode)
              && (code == CodeOk ==> (s'.mode == Open <==> text == Some("open")))
            case 2 =>
              var sp := ArgDouble(args, "value");
              && (code == CodeOk <==> sp.Some? && sp.value.Finite? && -50.0 <= sp.value.r <= 400.0)
              && (code == CodeOutOfRange <==> sp.Some? && sp.value.Finite? && !(-50.0 <= sp.value.r <= 400.0))
              && (code == CodeInvalidArgument <==> sp.None? || !sp.value.Finite?)
              && s' == s.(setpoint := if code == CodeOk then sp.value.r else s.setpoint)
            case 3 =>
              var index, on := ArgInt64(args, "relay_index"), ArgBool(args, "state");
              && (code == CodeOk <==> s.mode == Open && (index == Some(1) || index == Some(2)) && on.Some?)
              && (code == CodeFailedPrecondition <==> s.mode == Closed)
              && (code == CodeOutOfRange <==> s.mode == Open && index.Some? && index.value !in {1, 2})
              && (s' == if code != CodeOk then s
                        else if index == Some(1) then s.(relay1 := on.value) else s.(relay2 := on.value))
            case _ => (s', code) == (s, CodeNotFound)
    ensures var code := Call(s, functionId, args).1; code != CodeOk ==> Call(s, functionId, args).0 == s
  {
  }

  /** The initial temperature, 25 if none is configured, must lie in the configured range; everything is off. */
  lemma ConfigMeans(config: Config)
    ensures ConfigAccepted(config)
            <==> config.initialTemp.None? || config.tempRange.None?
                 || config.tempRange.value.0 <= config.initialTemp.value <= config.tempRange.value.1
    ensures var t := match config.initialTemp case Some(t) => t case None => 25.0;
            InitialState(config) == State(t, t, false, false, Open, 60.0)
  {
  }

  // ---------------------------------------------------------------------------------------------
  // The module state
  // ---------------------------------------------------------------------------------------------

  class Module {
    var states: map<string, State>

    constructor ()
      ensures states == map[]
    {
      states := map[];
    }

    /** Rejects an initial temperature outside the configured range, and then stores nothing. */
    method Init(id: string, config: Config) returns (ok: bool)
      modifies this
      ensures ok <==> ConfigAccepted(config)
      ensures states == if ok then old(states)[id := InitialState(config)] else old(states)
    {
      var s := DEFAULT;
      if config.initialTemp.Some? {
        var temp := config.initialTemp.value;
        if config.tempRange.Some? {
          var (minTemp, maxTemp) := config.tempRange.value;
          if temp < minTemp || temp > maxTemp {
            return false;
          }
        }
        s := s.(tc1 := temp);
        s := s.(tc2 := temp);
      }
      states := states[id := s];
      return true;
    }

    method UpdatePhysics(id: string, dt: real, e: Decay)
      modifies this
      ensures states == old(states)[id := Physics(Lookup(old(states), id), e(dt / TAU))]
    {
      var s := Lookup(states, id);
      var relaysOn := (if s.relay1 then 1 else 0) + (if s.relay2 then 1 else 0);
      var target := AMBIENT;
      if s.mode == Closed {
        target := s.setpoint;
      } else {
        target := AMBIENT + if relaysOn == 0 then 0.0 else if relaysOn == 1 then 45.0 else 75.0;
      }
      assert target == Target(s);
      var factor := e(dt / TAU);
      var alpha := 1.0 - factor;
      ApproachIsRelax(s.tc1, target, factor);
      ApproachIsRelax(s.tc2, target - CHANNEL_OFFSET, factor);
      s := s.(tc1 := Approach(s.tc1, target, alpha));
      s := s.(tc2 := Approach(s.tc2, target - CHANNEL_OFFSET, alpha));
      states := states[id := s];
    }

    /** First section of update_control: is the loop closed? */
    method ControlEnabled(id: string) returns (enabled: bool)
      modifies this
      ensures enabled <==> Lookup(old(states), id).mode == Closed
      ensures states == old(states)[id := Lookup(old(states), id)]
    {
      var s := Lookup(states, id);
      states := states[id := s];
      return s.mode == Closed;
    }

    /** Last section of update_control: the mode is checked again before the relays are touched. */
    method ApplyControl(id: string, temp: real)
      modifies this
      ensures var s := Lookup(old(states), id);
              states == old(states)[id := if s.mode == Closed then Control(s, temp) else s]
    {
      var s := Lookup(states, id);
      if s.mode != Closed {
        states := states[id := s];
        return;
      }
      var error := s.setpoint - temp;
      if error > 10.0 {
        s := s.(relay1 := true);
        s := s.(relay2 := true);
      } else if error > 2.0 {
        s := s.(relay1 := true);
        s := s.(relay2 := false);
      } else if error < -2.0 {
        s := s.(relay1 := false);
        s := s.(relay2 := false);
      }
      states := states[id := s];
    }

    method CallFunction(id: string, functionId: nat, args: Args) returns (code: Code)
      modifies this
      ensures code == Call(Lookup(old(states), id), functionId, args).1
      ensures states == old(states)[id := Call(Lookup(old(states), id), functionId, args).0]
    {
      var s := Lookup(states, id);
      states := states[id := s];
      if functionId == FN_SET_MODE {
        var text := ArgString(args, "mode");
        if text.None? || (text.value != "open" && text.value != "closed") {
          return CodeInvalidArgument;
        }
        var mode := if text.value == "open" then Open else Closed;
        assert ParseMode(text.value) == Some(mode);
        states := states[id := s.(mode := mode)];
        return CodeOk;
      }
      if functionId == FN_SET_SETPOINT {
        var sp := ArgDouble(args, "value");
        if sp.None? || !sp.value.Finite? {
          return CodeInvalidArgument;
        }
        if sp.value.r < MIN_SETPOINT || sp.value.r > MAX_SETPOINT {
          return CodeOutOfRange;
        }
        states := states[id := s.(setpoint := sp.value.r)];
        return CodeOk;
      }
      if functionId == FN_SET_RELAY {
        if s.mode != Open {
          return CodeFailedPrecondition;
        }
        var index := ArgInt64(args, "relay_index");
        if index.None? {
          return CodeInvalidArgument;
        }
        if index.value != 1 && index.value != 2 {
          return CodeOutOfRange;
        }
        var on := ArgBool(args, "state");
        if on.None? {
          return CodeInvalidArgument;
        }
        if index.value == 1 {
          states := states[id := s.(relay1 := on.value)];
        } else {
          states := states[id := s.(relay2 := on.value)];
        }
        return CodeOk;
      }
      return CodeNotFound;
    }
  }

  // ---------------------------------------------------------------------------------------------
  // Runs: requests, physics ticks and the sections of the control loop, in any interleaving
  // ---------------------------------------------------------------------------------------------

  /** Where the ticker thread stands inside update_control for this device. */
  datatype Controller = Idle | SawClosed | Holding(temp: real)

  datatype Op =
    | Request(functionId: nat, args: Args)
    | PhysicsTick(dt: real)
    | ControlCheck
    | ControlRead(reading: Option<real>)
    | ControlAct

  /**
   * `elapsed` is the simulated time since init. `staged` records that the controller has acted outside its
   * dead band and no set_relay call has succeeded since.
   */
  datatype Machine = Machine(s: State, controller: Controller, elapsed: real, staged: bool)

  predicate SetsRelay(s: State, op: Op) {
    op.Request? && op.functionId == FN_SET_RELAY && Call(s, op.functionId, op.args).1 == CodeOk
  }

  predicate ControllerActs(m: Machine, op: Op) {
    op == ControlAct && m.controller.Holding? && m.s.mode == Closed
  }

  function Step(m: Machine, op: Op, e: Decay): Machine {
    match op
    case Request(functionId, args) =>
      m.(s := Call(m.s, functionId, args).0, staged := m.staged && !SetsRelay(m.s, op))
    case PhysicsTick(dt) => m.(s := Physics(m.s, e(dt / TAU)), elapsed := m.elapsed + dt)
    case ControlCheck =>
      if m.controller == Idle && m.s.mode == Closed then m.(controller := SawClosed) else m
    case ControlRead(reading) =>
      if m.controller != SawClosed then m
      else m.(controller := if reading.Some? then Holding(reading.value) else Idle)
    case ControlAct =>
      if !m.controller.Holding? then m
      else if m.s.mode != Closed then m.(controller := Idle)
      else m.(s := Control(m.s, m.controller.temp), controller := Idle,
              staged := m.staged || OutsideDeadBand(m.s, m.controller.temp))
  }

  function Run(m: Machine, ops: seq<Op>, e: Decay): Machine {
    if ops == [] then m else Step(Run(m, ops[..|ops| - 1], e), ops[|ops| - 1], e)
  }

  function Start(config: Config): Machine {
    Machine(InitialState(config), Idle, 0.0, false)
  }

  predicate TimeMovesForward(ops: seq<Op>) {
    forall i :: 0 <= i < |ops| && ops[i].PhysicsTick? ==> ops[i].dt >= 0.0
  }

  /** Whatever requests and control actions happen, tc1 - tc2 depends on the elapsed time alone. */
  ghost predicate GapLaw(m: Machine, e: Decay) {
    m.elapsed >= 0.0 && m.s.tc1 - m.s.tc2 == CHANNEL_OFFSET * (1.0 - e(m.elapsed / TAU))
  }

  lemma GapStep(m: Machine, dt: real, e: Decay)
    requires IsDecay(e) && GapLaw(m, e) && dt >= 0.0
    ensures GapLaw(Step(m, PhysicsTick(dt), e), e)
  {
    var f, g, t := e(m.elapsed / TAU), e(dt / TAU), Target(m.s);
    ScaledSplit(m.elapsed, dt, TAU, e);
    var gap := m.s.tc1 - m.s.tc2;
    var gap' := Relax(m.s.tc1, t, g) - Relax(m.s.tc2, t - CHANNEL_OFFSET, g);
    assert g * (m.s.tc1 - t) - g * (m.s.tc2 - (t - CHANNEL_OFFSET)) == g * (gap - CHANNEL_OFFSET);
    assert gap - CHANNEL_OFFSET == -CHANNEL_OFFSET * f;
    assert g * (-CHANNEL_OFFSET * f) == -CHANNEL_OFFSET * (f * g);
  }

  lemma {:induction false} GapIsIndependentOfControl(config: Config, ops: seq<Op>, e: Decay)
    requires IsDecay(e) && TimeMovesForward(ops)
    ensures GapLaw(Run(Start(config), ops, e), e)
    ensures var m := Run(Start(config), ops, e); 0.0 <= m.s.tc1 - m.s.tc2 <= CHANNEL_OFFSET
  {
    if ops == [] {
      assert 0.0 / TAU == 0.0;
    } else {
      var front, op := ops[..|ops| - 1], ops[|ops| - 1];
      GapIsIndependentOfControl(config, front, e);
      if op.PhysicsTick? {
        GapStep(Run(Start(config), front, e), op.dt, e);
      }
    }
    var m := Run(Start(config), ops, e);
    DecayIsFraction(m.elapsed, TAU, e);
  }

  function Min(a: real, b: real): real {
    if a <= b then a else b
  }

  function Max(a: real, b: real): real {
    if a <= b then b else a
  }

  predicate WithinBounds(s: State, initial: real) {
    && MIN_SETPOINT <= s.setpoint <= MAX_SETPOINT
    && Min(initial, MIN_SETPOINT) <= s.tc1 <= Max(initial, MAX_SETPOINT)
    && Min(initial, MIN_SETPOINT - CHANNEL_OFFSET) <= s.tc2 <= Max(initial, MAX_SETPOINT - CHANNEL_OFFSET)
  }

  /** Both channels stay inside the hull of their initial value and the admissible targets, on every run. */
  lemma {:induction false} TemperaturesStayBounded(config: Config, ops: seq<Op>, e: Decay)
    requires IsDecay(e) && TimeMovesForward(ops)
    ensures WithinBounds(Run(Start(config), ops, e).s, InitialState(config).tc1)
  {
    if ops != [] {
      var front, op := ops[..|ops| - 1], ops[|ops| - 1];
      TemperaturesStayBounded(config, front, e);
      if op.PhysicsTick? {
        DecayIsFraction(op.dt, TAU, e);
        PhysicsKeepsBounds(Run(Start(config), front, e).s, InitialState(config).tc1, e(op.dt / TAU));
      }
    }
  }

  lemma PhysicsKeepsBounds(s: State, initial: real, factor: real)
    requires WithinBounds(s, initial) && 0.0 <= factor <= 1.0
    ensures WithinBounds(Physics(s, factor), initial)
  {
    RelaxStaysBetween(s.tc1, Target(s), factor, Min(initial, MIN_SETPOINT), Max(initial, MAX_SETPOINT));
    RelaxStaysBetween(s.tc2, Target(s) - CHANNEL_OFFSET, factor,
                      Min(initial, MIN_SETPOINT - CHANNEL_OFFSET), Max(initial, MAX_SETPOINT - CHANNEL_OFFSET));
  }

  /** A relay changes only by set_relay in open mode or by the controller in closed mode, in any state. */
  lemma RelayAuthority(m: Machine, op: Op, e: Decay)
    requires var m' := Step(m, op, e); (m'.s.relay1, m'.s.relay2) != (m.s.relay1, m.s.relay2)
    ensures (m.s.mode == Open && SetsRelay(m.s, op)) || (m.s.mode == Closed && ControllerActs(m, op))
  {
  }

  /** Once the controller has staged the relays, relay 2 is never on alone until a set_relay succeeds. */
  lemma {:induction false} StagingHolds(m: Machine, ops: seq<Op>, e: Decay)
    requires m.staged ==> (m.s.relay2 ==> m.s.relay1)
    ensures var m' := Run(m, ops, e); m'.staged ==> (m'.s.relay2 ==> m'.s.relay1)
  {
    if ops != [] {
      StagingHolds(m, ops[..|ops| - 1], e);
    }
  }

  predicate NoSetRelay(m: Machine, ops: seq<Op>, e: Decay) {
    forall i :: 0 <= i < |ops| ==> !SetsRelay(Run(m, ops[..i], e).s, ops[i])
  }

  /** The same, read off the run: after a controller action outside the dead band, until set_relay succeeds. */
  lemma {:induction false} StagedUntilSetRelay(m: Machine, ops: seq<Op>, e: Decay)
    requires ControllerActs(m, ControlAct) && OutsideDeadBand(m.s, m.controller.temp)
    requires NoSetRelay(Step(m, ControlAct, e), ops, e)
    ensures var m' := Run(Step(m, ControlAct, e), ops, e); m'.s.relay2 ==> m'.s.relay1
  {
    StagedFlagStays(Step(m, ControlAct, e), ops, e);
    StagingHolds(Step(m, ControlAct, e), ops, e);
  }

  lemma {:induction false} StagedFlagStays(m: Machine, ops: seq<Op>, e: Decay)
    requires m.staged && NoSetRelay(m, ops, e)
    ensures Run(m, ops, e).staged
  {
    if ops != [] {
      var front := ops[..|ops| - 1];
      forall i | 0 <= i < |front| ensures !SetsRelay(Run(m, front[..i], e).s, front[i]) {
        assert front[..i] == ops[..i];
      }
      StagedFlagStays(m, front, e);
    }
  }

  /** With nothing but physics, cutting the time into ticks does not matter. */
  lemma {:induction false} PhysicsIsExact(s: State, dts: seq<real>, e: Decay)
    requires IsDecay(e) && NonNegative(dts)
    ensures PhysicsTicks(s, dts, e) == Physics(s, e(Total(dts) / TAU))
  {
    ChannelsFollow(s, dts, e);
    FollowIsExact(s.tc1, Target(s), dts, TAU, e);
    FollowIsExact(s.tc2, Target(s) - CHANNEL_OFFSET, dts, TAU, e);
  }

  /** Where channel 1 goes: to the setpoint, or to 23, 68 or 98 degrees with none, one or both relays on. */
  function Goal(s: State): real {
    if s.mode == Closed then s.setpoint
    else if RelaysOn(s) == 0 then 23.0
    else if RelaysOn(s) == 1 then 68.0
    else 98.0
  }

  /** The distance of channel 1 to its goal, and of channel 2 to 1.5 degrees below, has shrunk to this fraction. */
  predicate Approached(s: State, s': State, fraction: real) {
    && s'.tc1 - Goal(s) == fraction * (s.tc1 - Goal(s))
    && s'.tc2 - (Goal(s) - 1.5) == fraction * (s.tc2 - (Goal(s) - 1.5))
    && s' == s.(tc1 := s'.tc1, tc2 := s'.tc2)
  }

  lemma PhysicsApproaches(s: State, fraction: real)
    ensures Approached(s, Physics(s, fraction), fraction)
  {
    assert Target(s) == Goal(s);
    RelaxDistance(s.tc1, Goal(s), fraction);
    RelaxDistance(s.tc2, Goal(s) - 1.5, fraction);
  }

  /** Over any ticks the channels approach their goals with a time constant of 6 seconds. */
  lemma {:induction false} ChannelsApproach(s: State, dts: seq<real>, e: Decay)
    requires IsDecay(e) && NonNegative(dts)
    ensures Approached(s, PhysicsTicks(s, dts, e), e(Total(dts) / 6.0))
  {
    PhysicsIsExact(s, dts, e);
    PhysicsApproaches(s, e(Total(dts) / TAU));
  }

  lemma {:induction false} ChannelsFollow(s: State, dts: seq<real>, e: Decay)
    ensures PhysicsTicks(s, dts, e)
            == s.(tc1 := Follow(s.tc1, Target(s), dts, TAU, e),
                  tc2 := Follow(s.tc2, Target(s) - CHANNEL_OFFSET, dts, TAU, e))
  {
    if dts != [] {
      var front, g := dts[..|dts| - 1], e(dts[|dts| - 1] / TAU);
      ChannelsFollow(s, front, e);
      var s' := PhysicsTicks(s, front, e);
      ApproachIsRelax(s'.tc1, Target(s), g);
      ApproachIsRelax(s'.tc2, Target(s) - CHANNEL_OFFSET, g);
    }
  }

  function PhysicsTicks(s: State, dts: seq<real>, e: Decay): State {
    if dts == [] then s else Physics(PhysicsTicks(s, dts[..|dts| - 1], e), e(dts[|dts| - 1] / TAU))
  }
}
