/** The dual motor controller (src/devices/motorctl/motorctl_device.cpp). */
module MotorCtl {
  import opened Basics
  import opened Relaxation

  const TAU := 0.8
  const MAX_CONFIGURED_RPM := 10000.0

  const FN_SET_DUTY := 1

  datatype State = State(duty1: real, duty2: real, speed1: real, speed2: real, maxRpm: real)

  const DEFAULT := State(0.0, 0.0, 0.0, 0.0, 3200.0)

  const DEFAULT_SIGNALS := ["motor1_speed", "motor2_speed"]
  const ACTUATORS := ["motor1_duty", "motor2_duty"]
  const FUNCTIONS := [("set_motor_duty", FN_SET_DUTY)]

  function Lookup(states: map<string, State>, id: string): State {
    if id in states then states[id] else DEFAULT
  }

  predicate ConfigAccepted(maxSpeed: Option<real>) {
    maxSpeed.Some? ==> 0.0 < maxSpeed.value <= MAX_CONFIGURED_RPM
  }

  function InitialState(maxSpeed: Option<real>): State {
    DEFAULT.(maxRpm := maxSpeed.GetOr(3200.0))
  }

  function TargetSpeed(duty: real, maxRpm: real): real {
    Clamp(duty, 0.0, 1.0) * maxRpm
  }

  function Physics(s: State, factor: real): State {
    s.(speed1 := Relax(s.speed1, TargetSpeed(s.duty1, s.maxRpm), factor),
       speed2 := Relax(s.speed2, TargetSpeed(s.duty2, s.maxRpm), factor))
  }

  function Call(s: State, functionId: nat, args: Args): (State, Code) {
    if functionId != FN_SET_DUTY then (s, CodeNotFound)
    else
      var index, duty := ArgInt64(args, "motor_index"), ArgDouble(args, "duty");
      if index.None? then (s, CodeInvalidArgument)
      else if index.value != 1 && index.value != 2 then (s, CodeOutOfRange)
      else if duty.None? || !duty.value.Finite? then (s, CodeInvalidArgument)
      else if !(0.0 <= duty.value.r <= 1.0) then (s, CodeOutOfRange)
      else if index.value == 1 then (s.(duty1 := duty.value.r), CodeOk)
      else (s.(duty2 := duty.value.r), CodeOk)
  }

  function Reading(s: State, sig: string, published: Option<real>): Option<Value> {
    if sig == "motor1_speed" then Some(DoubleValue(Finite(published.GetOr(s.speed1))))
    else if sig == "motor2_speed" then Some(DoubleValue(Finite(published.GetOr(s.speed2))))
    else if sig == "motor1_duty" then Some(DoubleValue(Finite(published.GetOr(s.duty1))))
    else if sig == "motor2_duty" then Some(DoubleValue(Finite(published.GetOr(s.duty2))))
    else None
  }

  class Module {
    var states: map<string, State>

    constructor ()
      ensures states == map[]
    {
      states := map[];
    }

    /** Rejects a maximum speed outside (0, 10000], and then stores nothing. */
    method Init(id: string, maxSpeed: Option<real>) returns (ok: bool)
      modifies this
      ensures ok <==> ConfigAccepted(maxSpeed)
      ensures states == if ok then old(states)[id := InitialState(maxSpeed)] else old(states)
    {
      var s := DEFAULT;
      if maxSpeed.Some? {
        if maxSpeed.value <= 0.0 || maxSpeed.value > MAX_CONFIGURED_RPM {
          return false;
        }
        s := s.(maxRpm := maxSpeed.value);
      }
      states := states[id := s];
      return true;
    }

    method UpdatePhysics(id: string, dt: real, e: Decay)
      modifies this
      ensures states == old(states)[id := Physics(Lookup(old(states), id), e(dt / TAU))]
    {
      var s := Lookup(states, id);
      var factor := e(dt / TAU);
      var alpha := 1.0 - factor;
      var target1 := Clamp(s.duty1, 0.0, 1.0) * s.maxRpm;
      var target2 := Clamp(s.duty2, 0.0, 1.0) * s.maxRpm;
      ApproachIsRelax(s.speed1, target1, factor);
      ApproachIsRelax(s.speed2, target2, factor);
      var next := s.(speed1 := Approach(s.speed1, target1, alpha));
      next := next.(speed2 := Approach(s.speed2, target2, alpha));
      assert next == Physics(s, factor);
      states := states[id := next];
    }

    method CallFunction(id: string, functionId: nat, args: Args) returns (code: Code)
      modifies this
      ensures code == Call(Lookup(old(states), id), functionId, args).1
      ensures states == old(states)[id := Call(Lookup(old(states), id), functionId, args).0]
    {
      var s := Lookup(states, id);
      states := states[id := s];
      if functionId == FN_SET_DUTY {
        var index := ArgInt64(args, "motor_index");
        if index.None? {
          return CodeInvalidArgument;
        }
        if index.value != 1 && index.value != 2 {
          return CodeOutOfRange;
        }
        var duty := ArgDouble(args, "duty");
        if duty.None? || !duty.value.Finite? {
          return CodeInvalidArgument;
        }
        if duty.value.r < 0.0 || duty.value.r > 1.0 {
          return CodeOutOfRange;
        }
        if index.value == 1 {
          states := states[id := s.(duty1 := duty.value.r)];
        } else {
          states := states[id := s.(duty2 := duty.value.r)];
        }
        return CodeOk;
      }
      return CodeNotFound;
    }
  }

  // ---------------------------------------------------------------------------------------------
  // What calls and configuration mean
  // ---------------------------------------------------------------------------------------------

  /** The one call sets the duty of motor 1 or 2; the index is checked before the duty, the type before the range. */
  lemma CallMeans(s: State, functionId: nat, args: Args)
    ensures var (s', code) := Call(s, functionId, args);
            var index, duty := ArgInt64(args, "motor_index"), ArgDouble(args, "duty");
            var known, finite := index == Some(1) || index == Some(2), duty.Some? && duty.value.Finite?;
            && (code == CodeNotFound <==> functionId != 1)
            && (code == CodeOk <==> functionId == 1 && known && finite && 0.0 <= duty.value.r <= 1.0)
            && (code == CodeOutOfRange
                <==> functionId == 1 && index.Some? && (known ==> finite && !(0.0 <= duty.value.r <= 1.0)))
            && (code == CodeInvalidArgument <==> functionId == 1 && (index.None? || (known && !finite)))
            && (s' == if code != CodeOk then s
                      else if index == Some(1) then s.(duty1 := duty.value.r) else s.(duty2 := duty.value.r))
  {
  }

  /** A motor starts at rest, limited to 3200 rpm or the configured maximum, which lies above 0 and up to 10000. */
  lemma ConfigMeans(maxSpeed: Option<real>)
    ensures ConfigAccepted(maxSpeed) <==> maxSpeed.None? || 0.0 < maxSpeed.value <= 10000.0
    ensures InitialState(maxSpeed)
            == State(0.0, 0.0, 0.0, 0.0, match maxSpeed case Some(rpm) => rpm case None => 3200.0)
  {
  }

  /** The distance of each speed to its own duty's share of the maximum has shrunk to this fraction. */
  predicate Approached(s: State, s': State, fraction: real) {
    && s'.speed1 - s.duty1 * s.maxRpm == fraction * (s.speed1 - s.duty1 * s.maxRpm)
    && s'.speed2 - s.duty2 * s.maxRpm == fraction * (s.speed2 - s.duty2 * s.maxRpm)
    && s' == s.(speed1 := s'.speed1, speed2 := s'.speed2)
  }

  lemma PhysicsApproaches(s: State, fraction: real)
    requires 0.0 <= s.duty1 <= 1.0 && 0.0 <= s.duty2 <= 1.0
    ensures Approached(s, Physics(s, fraction), fraction)
  {
    assert TargetSpeed(s.duty1, s.maxRpm) == s.duty1 * s.maxRpm && TargetSpeed(s.duty2, s.maxRpm) == s.duty2 * s.maxRpm;
    RelaxDistance(s.speed1, s.duty1 * s.maxRpm, fraction);
    RelaxDistance(s.speed2, s.duty2 * s.maxRpm, fraction);
  }

  // ---------------------------------------------------------------------------------------------
  // Runs
  // ---------------------------------------------------------------------------------------------

  datatype Op = Request(functionId: nat, args: Args) | PhysicsTick(dt: real)

  function Step(s: State, op: Op, e: Decay): State {
    match op
    case Request(functionId, args) => Call(s, functionId, args).0
    case PhysicsTick(dt) => Physics(s, e(dt / TAU))
  }

  function Run(s: State, ops: seq<Op>, e: Decay): State {
    if ops == [] then s else Step(Run(s, ops[..|ops| - 1], e), ops[|ops| - 1], e)
  }

  predicate WithinLimits(s: State) {
    && 0.0 < s.maxRpm <= MAX_CONFIGURED_RPM
    && 0.0 <= s.duty1 <= 1.0 && 0.0 <= s.duty2 <= 1.0
    && 0.0 <= s.speed1 <= s.maxRpm && 0.0 <= s.speed2 <= s.maxRpm
  }

  /** Over every run both speeds stay in [0, max_rpm] and the limit configured at start-up never changes. */
  lemma {:induction false} SpeedsStayBounded(maxSpeed: Option<real>, ops: seq<Op>, e: Decay)
    requires ConfigAccepted(maxSpeed) && IsDecay(e)
    requires forall i :: 0 <= i < |ops| && ops[i].PhysicsTick? ==> ops[i].dt >= 0.0
    ensures WithinLimits(Run(InitialState(maxSpeed), ops, e))
    ensures Run(InitialState(maxSpeed), ops, e).maxRpm == InitialState(maxSpeed).maxRpm
  {
    if ops != [] {
      var front, op := ops[..|ops| - 1], ops[|ops| - 1];
      SpeedsStayBounded(maxSpeed, front, e);
      if op.PhysicsTick? {
        DecayIsFraction(op.dt, TAU, e);
        PhysicsKeepsLimits(Run(InitialState(maxSpeed), front, e), e(op.dt / TAU));
      }
    }
  }

  lemma PhysicsKeepsLimits(s: State, factor: real)
    requires WithinLimits(s) && 0.0 <= factor <= 1.0
    ensures WithinLimits(Physics(s, factor))
  {
    SpeedStaysInRange(s.speed1, s.duty1, s.maxRpm, factor);
    SpeedStaysInRange(s.speed2, s.duty2, s.maxRpm, factor);
  }

  lemma SpeedStaysInRange(speed: real, duty: real, maxRpm: real, factor: real)
    requires 0.0 <= speed <= maxRpm && 0.0 < maxRpm && 0.0 <= factor <= 1.0
    ensures 0.0 <= Relax(speed, TargetSpeed(duty, maxRpm), factor) <= maxRpm
  {
    TargetInRange(duty, maxRpm);
    var target := TargetSpeed(duty, maxRpm);
    RelaxStaysBetween(speed, target, factor, 0.0, maxRpm);
  }

  lemma TargetInRange(duty: real, maxRpm: real)
    requires maxRpm > 0.0
    ensures 0.0 <= TargetSpeed(duty, maxRpm) <= maxRpm
  {
    var d := Clamp(duty, 0.0, 1.0);
    NonNegativeProduct(d, maxRpm);
    NonNegativeProduct(1.0 - d, maxRpm);
    assert (1.0 - d) * maxRpm == maxRpm - d * maxRpm;
  }

  /** Between calls both motors follow their targets exactly, however the time is cut into ticks. */
  lemma {:induction false} SpeedsFollow(s: State, dts: seq<real>, e: Decay)
    requires IsDecay(e) && NonNegative(dts)
    ensures PhysicsTicks(s, dts, e) == Physics(s, e(Total(dts) / TAU))
  {
    ChannelsFollow(s, dts, e);
    FollowIsExact(s.speed1, TargetSpeed(s.duty1, s.maxRpm), dts, TAU, e);
    FollowIsExact(s.speed2, TargetSpeed(s.duty2, s.maxRpm), dts, TAU, e);
  }

  /** Over any ticks both speeds approach duty times maximum with a time constant of 0.8 seconds. */
  lemma {:induction false} SpeedsApproach(s: State, dts: seq<real>, e: Decay)
    requires IsDecay(e) && NonNegative(dts) && WithinLimits(s)
    ensures Approached(s, PhysicsTicks(s, dts, e), e(Total(dts) / 0.8))
  {
    SpeedsFollow(s, dts, e);
    PhysicsApproaches(s, e(Total(dts) / TAU));
  }

  function PhysicsTicks(s: State, dts: seq<real>, e: Decay): State {
    if dts == [] then s else Physics(PhysicsTicks(s, dts[..|dts| - 1], e), e(dts[|dts| - 1] / TAU))
  }

  lemma {:induction false} ChannelsFollow(s: State, dts: seq<real>, e: Decay)
    ensures PhysicsTicks(s, dts, e)
            == s.(speed1 := Follow(s.speed1, TargetSpeed(s.duty1, s.maxRpm), dts, TAU, e),
                  speed2 := Follow(s.speed2, TargetSpeed(s.duty2, s.maxRpm), dts, TAU, e))
  {
    if dts != [] {
      var front, g := dts[..|dts| - 1], e(dts[|dts| - 1] / TAU);
      ChannelsFollow(s, front, e);
      var s' := PhysicsTicks(s, front, e);
      ApproachIsRelax(s'.speed1, TargetSpeed(s.duty1, s.maxRpm), g);
      ApproachIsRelax(s'.speed2, TargetSpeed(s.duty2, s.maxRpm), g);
    }
  }
}
