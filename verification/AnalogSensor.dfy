/** The analog sensor module and its quality machine (src/devices/analogsensor/analogsensor_device.cpp). */
module AnalogSensor {
  import opened Basics

  const DRIFT_PER_SECOND := 0.002
  const NOISY_AFTER := 30.0
  const FAULT_AFTER := 60.0

  const FN_CALIBRATE_CHANNEL := 1
  const FN_INJECT_NOISE := 2

  datatype Quality = Good | Noisy | Faulty

  datatype State = State(drift: real, noiseLevel: real, noiseEnabled: bool, quality: Quality, timer: real)

  const DEFAULT := State(0.0, 0.01, false, Good, 0.0)

  const DEFAULT_SIGNALS := ["voltage_ch1", "voltage_ch2", "voltage_ch3", "voltage_ch4", "sensor_quality"]
  const ACTUATORS: seq<string> := []
  const FUNCTIONS := [("calibrate_channel", FN_CALIBRATE_CHANNEL), ("inject_noise", FN_INJECT_NOISE)]

  function Lookup(states: map<string, State>, id: string): State {
    if id in states then states[id] else DEFAULT
  }

  function NoiseFor(quality: Quality): real {
    match quality
    case Good => 0.01
    case Noisy => 0.05
    case Faulty => 0.2
  }

  /** Quality after a tick that brought the timer to `timer`: it can worsen by one level, under noise only. */
  function Degrade(s: State, timer: real): Quality {
    if s.noiseEnabled && s.quality == Good && timer > NOISY_AFTER then Noisy
    else if s.noiseEnabled && s.quality == Noisy && timer > FAULT_AFTER then Faulty
    else s.quality
  }

  function Physics(s: State, dt: real): State {
    var timer := s.timer + dt;
    State(if s.noiseEnabled then s.drift + dt * DRIFT_PER_SECOND else s.drift,
          NoiseFor(Degrade(s, timer)), s.noiseEnabled, Degrade(s, timer), timer)
  }

  function Call(s: State, functionId: nat, args: Args): (State, Code) {
    if functionId == FN_CALIBRATE_CHANNEL then
      var channel := ArgInt64(args, "channel");
      if s.quality != Good then (s, CodeFailedPrecondition)
      else if channel.None? then (s, CodeInvalidArgument)
      else if !(1 <= channel.value <= 4) then (s, CodeOutOfRange)
      else (s.(drift := 0.0, timer := 0.0), CodeOk)
    else if functionId == FN_INJECT_NOISE then
      var enabled := ArgBool(args, "enabled");
      if enabled.None? then (s, CodeInvalidArgument)
      else if enabled.value then (s.(noiseEnabled := true), CodeOk)
      else (s.(noiseEnabled := false, quality := Good, timer := 0.0, drift := 0.0), CodeOk)
    else (s, CodeNotFound)
  }

  function Base(sig: string): Option<real> {
    if sig == "voltage_ch1" then Some(2.5)
    else if sig == "voltage_ch2" then Some(5.0)
    else if sig == "voltage_ch3" then Some(7.5)
    else if sig == "voltage_ch4" then Some(3.3)
    else None
  }

  /** A locally generated reading; `noise` is the sample drawn with the current noise level. */
  function NoisyReading(s: State, base: real, noise: real): (v: real)
    ensures 0.0 <= v <= 10.0
  {
    Clamp(base + s.drift + noise, 0.0, 10.0)
  }

  function Reading(s: State, sig: string, published: Option<real>, noise: real): Option<Value> {
    if sig == "sensor_quality" then
      Some(StringValue(match s.quality case Good => "GOOD" case Noisy => "NOISY" case Faulty => "FAULT"))
    else
      match Base(sig)
      case None => None
      case Some(base) => Some(DoubleValue(Finite(published.GetOr(NoisyReading(s, base, noise)))))
  }

  class Module {
    var states: map<string, State>

    constructor ()
      ensures states == map[]
    {
      states := map[];
    }

    method Init(id: string)
      modifies this
      ensures states == old(states)[id := DEFAULT]
    {
      states := states[id := DEFAULT];
    }

    method UpdatePhysics(id: string, dt: real)
      modifies this
      ensures states == old(states)[id := Physics(Lookup(old(states), id), dt)]
    {
      var s := Lookup(states, id);
      if s.noiseEnabled {
        s := s.(drift := s.drift + dt * DRIFT_PER_SECOND);
      }
      s := s.(timer := s.timer + dt);
      if s.noiseEnabled {
        if s.quality == Good && s.timer > NOISY_AFTER {
          s := s.(quality := Noisy);
        } else if s.quality == Noisy && s.timer > FAULT_AFTER {
          s := s.(quality := Faulty);
        }
      }
      if s.quality == Good {
        s := s.(noiseLevel := 0.01);
      } else if s.quality == Noisy {
        s := s.(noiseLevel := 0.05);
      } else if s.quality == Faulty {
        s := s.(noiseLevel := 0.2);
      }
      states := states[id := s];
    }

    method CallFunction(id: string, functionId: nat, args: Args) returns (code: Code)
      modifies this
      ensures code == Call(Lookup(old(states), id), functionId, args).1
      ensures states == old(states)[id := Call(Lookup(old(states), id), functionId, args).0]
    {
      var s := Lookup(states, id);
      states := states[id := s];
      if functionId == FN_CALIBRATE_CHANNEL {
        if s.quality != Good {
          return CodeFailedPrecondition;
        }
        var channel := ArgInt64(args, "channel");
        if channel.None? {
          return CodeInvalidArgument;
        }
        if channel.value < 1 || channel.value > 4 {
          return CodeOutOfRange;
        }
        s := s.(drift := 0.0);
        s := s.(timer := 0.0);
        states := states[id := s];
        return CodeOk;
      }
      if functionId == FN_INJECT_NOISE {
        var enabled := ArgBool(args, "enabled");
        if enabled.None? {
          return CodeInvalidArgument;
        }
        s := s.(noiseEnabled := enabled.value);
        if !enabled.value {
          s := s.(quality := Good);
          s := s.(timer := 0.0);
          s := s.(drift := 0.0);
        }
        states := states[id := s];
        return CodeOk;
      }
      return CodeNotFound;
    }
  }

  // ---------------------------------------------------------------------------------------------
  // What calls and ticks mean
  // ---------------------------------------------------------------------------------------------

  /** Calibration needs GOOD quality before it looks at the channel; disabling noise resets all but the noise level. */
  lemma CallMeans(s: State, functionId: nat, args: Args)
    ensures var (s', code) := Call(s, functionId, args);
            match functionId
            case 1 =>
              var channel := ArgInt64(args, "channel");
              && (code == CodeOk <==> s.quality == Good && channel.Some? && 1 <= channel.value <= 4)
              && (code == CodeFailedPrecondition <==> s.quality != Good)
              && (code == CodeInvalidArgument <==> s.quality == Good && channel.None?)
              && (code == CodeOutOfRange <==> s.quality == Good && channel.Some? && !(1 <= channel.value <= 4))
              && (s' == if code == CodeOk then s.(drift := 0.0, timer := 0.0) else s)
            case 2 =>
              var enabled := ArgBool(args, "enabled");
              && (code == CodeOk <==> enabled.Some?) && (code == CodeInvalidArgument <==> enabled.None?)
              && (s' == if enabled == Some(true) then s.(noiseEnabled := true)
                        else if enabled == Some(false) then State(0.0, s.noiseLevel, false, Good, 0.0)
                        else s)
            case _ => (s', code) == (s, CodeNotFound)
  {
  }

  /**
   * On a tick of any run the timer counts, and under noise the drift grows by 0.002 a second; quality is then GOOD
   * exactly while the timer is at most 30, and FAULT exactly past 60 if it was no longer GOOD. Noise follows quality.
   */
  lemma TickMeans(ops: seq<Op>, dt: real)
    requires TimeMovesForward(ops) && dt >= 0.0
    ensures var s := Run(DEFAULT, ops);
            var s' := Step(s, PhysicsTick(dt));
            && s'.timer == s.timer + dt && s'.noiseEnabled == s.noiseEnabled
            && s'.drift == s.drift + (if s.noiseEnabled then 0.002 * dt else 0.0)
            && (s.noiseEnabled ==> (s'.quality == Good <==> s'.timer <= 30.0))
            && (s.noiseEnabled ==> (s'.quality == Faulty <==> s'.timer > 60.0 && s.quality != Good))
            && (!s.noiseEnabled ==> s'.quality == Good)
            && s'.noiseLevel == match s'.quality case Good => 0.01 case Noisy => 0.05 case Faulty => 0.2
  {
    QualityInvariants(ops);
  }

  // ---------------------------------------------------------------------------------------------
  // Runs
  // ---------------------------------------------------------------------------------------------

  datatype Op = Request(functionId: nat, args: Args) | PhysicsTick(dt: real)

  function Step(s: State, op: Op): State {
    match op
    case Request(functionId, args) => Call(s, functionId, args).0
    case PhysicsTick(dt) => Physics(s, dt)
  }

  function Run(s: State, ops: seq<Op>): State {
    if ops == [] then s else Step(Run(s, ops[..|ops| - 1]), ops[|ops| - 1])
  }

  predicate TimeMovesForward(ops: seq<Op>) {
    forall i :: 0 <= i < |ops| && ops[i].PhysicsTick? ==> ops[i].dt >= 0.0
  }

  predicate Consistent(s: State) {
    && (s.quality == Noisy ==> s.timer > NOISY_AFTER)
    && (s.quality == Faulty ==> s.timer > FAULT_AFTER)
    && (!s.noiseEnabled ==> s.quality == Good && s.drift == 0.0)
    && 0.0 <= s.drift <= DRIFT_PER_SECOND * s.timer
  }

  lemma {:induction false} QualityInvariants(ops: seq<Op>)
    requires TimeMovesForward(ops)
    ensures Consistent(Run(DEFAULT, ops))
  {
    if ops != [] {
      QualityInvariants(ops[..|ops| - 1]);
    }
  }

  function Severity(q: Quality): nat {
    match q
    case Good => 0
    case Noisy => 1
    case Faulty => 2
  }

  predicate DisablesNoise(op: Op) {
    op.Request? && op.functionId == FN_INJECT_NOISE && ArgBool(op.args, "enabled") == Some(false)
  }

  /** Until noise is disabled quality never improves, and n ticks worsen it by at most n levels. */
  lemma {:induction false} QualityOnlyWorsens(s: State, ops: seq<Op>)
    requires forall i :: 0 <= i < |ops| ==> !DisablesNoise(ops[i])
    ensures Severity(s.quality) <= Severity(Run(s, ops).quality) <= Severity(s.quality) + Ticks(ops)
  {
    if ops != [] {
      QualityOnlyWorsens(s, ops[..|ops| - 1]);
    }
  }

  function Ticks(ops: seq<Op>): nat {
    if ops == [] then 0 else Ticks(ops[..|ops| - 1]) + if ops[|ops| - 1].PhysicsTick? then 1 else 0
  }

  /**
   * The timer runs whether or not noise is enabled, so a sensor that idled for a minute degrades to its worst
   * quality within two ticks of enabling noise.
   */
  lemma IdleTimeCounts(s: State, enable: Args, dt1: real, dt2: real)
    requires Consistent(s) && s.timer > FAULT_AFTER && dt1 >= 0.0 && dt2 >= 0.0
    requires ArgBool(enable, "enabled") == Some(true)
    ensures Run(s, [Request(FN_INJECT_NOISE, enable), PhysicsTick(dt1), PhysicsTick(dt2)]).quality == Faulty
  {
    var ops := [Request(FN_INJECT_NOISE, enable), PhysicsTick(dt1), PhysicsTick(dt2)];
    assert ops[..2] == [Request(FN_INJECT_NOISE, enable), PhysicsTick(dt1)];
    assert ops[..2][..1] == [Request(FN_INJECT_NOISE, enable)];
    assert ops[..2][..1][..0] == [];
    assert Run(s, ops[..2][..1]) == Step(s, ops[0]);
    assert Run(s, ops[..2]) == Step(Step(s, ops[0]), ops[1]);
  }
}
