/**
 * The per-type device interface (src/devices/common/device_adapter.cpp): reads and calls of one device, where
 * a value published by the simulation stands in front of the device's own state.
 */
module DeviceAdapter {
  import opened Basics
  import opened SignalPaths
  import opened SignalRegistry
  import opened DeviceFactory
  import TempCtl
  import MotorCtl
  import RelayIO
  import AnalogSensor

  // ---------------------------------------------------------------------------------------------
  // Reads
  // ---------------------------------------------------------------------------------------------

  /** One value of a read; `faulty` is the FAULT quality, otherwise the quality is OK. */
  datatype SignalValue = SignalValue(sig: string, value: Value, faulty: bool)

  function DefaultSignals(a: Adapter): seq<string> {
    match a
    case ChaosAdapter => []
    case TypeAdapter(Tempctl) => TempCtl.DEFAULT_SIGNALS
    case TypeAdapter(Motorctl) => MotorCtl.DEFAULT_SIGNALS
    case TypeAdapter(Relayio) => RelayIO.DEFAULT_SIGNALS
    case TypeAdapter(Analogsensor) => AnalogSensor.DEFAULT_SIGNALS
  }

  /** Every signal a type answers for. */
  function KnownSignals(a: Adapter): seq<string> {
    match a
    case TypeAdapter(Tempctl) => TempCtl.DEFAULT_SIGNALS + ["control_mode", "setpoint"]
    case TypeAdapter(Motorctl) => MotorCtl.DEFAULT_SIGNALS + MotorCtl.ACTUATORS
    case _ => DefaultSignals(a)
  }

  function Requested(a: Adapter, ids: seq<string>): seq<string> {
    if ids == [] then DefaultSignals(a) else ids
  }

  /** What one signal of a device reads as, given what the simulation publishes for it. */
  function Reading(f: Fleet, a: Adapter, dev: string, sig: string, published: Option<real>, noise: real):
    Option<Value>
  {
    match a
    case ChaosAdapter => None
    case TypeAdapter(Tempctl) => TempCtl.Reading(TempCtl.Lookup(f.temp, dev), sig, published)
    case TypeAdapter(Motorctl) => MotorCtl.Reading(MotorCtl.Lookup(f.motor, dev), sig, published)
    case TypeAdapter(Relayio) => RelayIO.Reading(RelayIO.Lookup(f.relay, dev), sig, published)
    case TypeAdapter(Analogsensor) =>
      AnalogSensor.Reading(AnalogSensor.Lookup(f.analog, dev), sig, published, noise)
  }

  function Cached(cache: map<string, real>, path: string): Option<real> {
    if path in cache then Some(cache[path]) else None
  }

  /** The answer to a list of signals; sample i of the noise belongs to request i. */
  function Readings(f: Fleet, a: Adapter, dev: string, ids: seq<string>, cache: map<string, real>,
                    noise: nat -> real): seq<SignalValue>
  {
    if ids == [] then []
    else
      var n := |ids| - 1;
      var front := Readings(f, a, dev, ids[..n], cache, noise);
      match Reading(f, a, dev, ids[n], Cached(cache, Join(dev, ids[n])), noise(n))
      case None => front
      case Some(v) => front + [SignalValue(ids[n], v, false)]
  }

  function KnownOnly(a: Adapter, ids: seq<string>): seq<string> {
    if ids == [] then []
    else
      var front, last := KnownOnly(a, ids[..|ids| - 1]), ids[|ids| - 1];
      if last in KnownSignals(a) then front + [last] else front
  }

  function SignalsOf(values: seq<SignalValue>): seq<string> {
    seq(|values|, i requires 0 <= i < |values| => values[i].sig)
  }

  lemma ReadableIffKnown(f: Fleet, a: Adapter, dev: string, sig: string, published: Option<real>, noise: real)
    ensures Reading(f, a, dev, sig, published, noise).Some? <==> sig in KnownSignals(a)
  {
    match a {
      case TypeAdapter(Relayio) => assert KnownSignals(a)[..4] == RelayIO.ACTUATORS;
      case _ =>
    }
  }

  lemma SignalsGrow(values: seq<SignalValue>, v: SignalValue)
    ensures SignalsOf(values + [v]) == SignalsOf(values) + [v.sig]
  {
  }

  /** A read answers the known ones among the requested signals, in request order, repetitions included. */
  lemma {:induction false} ReadsExactlyTheKnown(f: Fleet, a: Adapter, dev: string, ids: seq<string>,
                                                cache: map<string, real>, noise: nat -> real)
    ensures SignalsOf(Readings(f, a, dev, ids, cache, noise)) == KnownOnly(a, ids)
    ensures forall v :: v in Readings(f, a, dev, ids, cache, noise) ==> !v.faulty
  {
    if ids != [] {
      var n := |ids| - 1;
      ReadsExactlyTheKnown(f, a, dev, ids[..n], cache, noise);
      ReadableIffKnown(f, a, dev, ids[n], Cached(cache, Join(dev, ids[n])), noise(n));
      var reading := Reading(f, a, dev, ids[n], Cached(cache, Join(dev, ids[n])), noise(n));
      if reading.Some? {
        SignalsGrow(Readings(f, a, dev, ids[..n], cache, noise), SignalValue(ids[n], reading.value, false));
      }
    }
  }

  /** Every value of a read is the reading of one of its requests, drawn with that request's sample. */
  lemma {:induction false} ReadingsAnswerRequests(f: Fleet, a: Adapter, dev: string, ids: seq<string>,
                                                  cache: map<string, real>, noise: nat -> real, v: SignalValue)
    returns (i: nat)
    requires v in Readings(f, a, dev, ids, cache, noise)
    ensures i < |ids| && ids[i] == v.sig
    ensures Reading(f, a, dev, v.sig, Cached(cache, Join(dev, v.sig)), noise(i)) == Some(v.value)
  {
    i := |ids| - 1;
    var front := Readings(f, a, dev, ids[..i], cache, noise);
    if v in front {
      i := ReadingsAnswerRequests(f, a, dev, ids[..i], cache, noise, v);
    }
  }

  /** The signals each type feeds to the simulation. */
  lemma ActuatorsOfTypes()
    ensures ActuatorsOf(Tempctl) == ["relay1_state", "relay2_state"]
    ensures ActuatorsOf(Motorctl) == ["motor1_duty", "motor2_duty"]
    ensures ActuatorsOf(Relayio) == ["relay_ch1_state", "relay_ch2_state", "relay_ch3_state", "relay_ch4_state"]
    ensures ActuatorsOf(Analogsensor) == []
  {
  }

  /** The signals each type answers for, and those an empty request stands for. */
  lemma SignalsOfTypes(sig: string)
    ensures sig in KnownSignals(TypeAdapter(Tempctl))
            <==> sig in ["tc1_temp", "tc2_temp", "relay1_state", "relay2_state", "control_mode", "setpoint"]
    ensures sig in KnownSignals(TypeAdapter(Motorctl))
            <==> sig in ["motor1_speed", "motor2_speed", "motor1_duty", "motor2_duty"]
    ensures sig in KnownSignals(TypeAdapter(Relayio))
            <==> sig in ["relay_ch1_state", "relay_ch2_state", "relay_ch3_state", "relay_ch4_state",
                         "gpio_input_1", "gpio_input_2", "gpio_input_3", "gpio_input_4"]
    ensures sig in KnownSignals(TypeAdapter(Analogsensor))
            <==> sig in ["voltage_ch1", "voltage_ch2", "voltage_ch3", "voltage_ch4", "sensor_quality"]
    ensures sig !in KnownSignals(ChaosAdapter)
    ensures Requested(TypeAdapter(Tempctl), []) == ["tc1_temp", "tc2_temp", "relay1_state", "relay2_state"]
    ensures Requested(TypeAdapter(Motorctl), []) == ["motor1_speed", "motor2_speed"]
    ensures Requested(TypeAdapter(Relayio), [])
            == ["relay_ch1_state", "relay_ch2_state", "relay_ch3_state", "relay_ch4_state",
                "gpio_input_1", "gpio_input_2", "gpio_input_3", "gpio_input_4"]
    ensures Requested(TypeAdapter(Analogsensor), [])
            == ["voltage_ch1", "voltage_ch2", "voltage_ch3", "voltage_ch4", "sensor_quality"]
  {
  }

  /** A number as read: the published one, or else the device's own. */
  predicate ReadsNumber(v: Value, cache: map<string, real>, path: string, own: real) {
    v == DoubleValue(Finite(if path in cache then cache[path] else own))
  }

  /** A switch as read: on if at least 0.5 is published, or else as the device has it. */
  predicate ReadsSwitch(v: Value, cache: map<string, real>, path: string, own: bool) {
    v == BoolValue(if path in cache then cache[path] >= 0.5 else own)
  }

  /** A noisy voltage between 0 and 10. */
  function Within10(voltage: real): real {
    if voltage < 0.0 then 0.0 else if voltage > 10.0 then 10.0 else voltage
  }

  /** What a value of each signal shows, in the fields of the device; mode, setpoint and quality are never published. */
  predicate ShowsField(f: Fleet, t: DeviceType, dev: string, sig: string, v: Value, cache: map<string, real>,
                       sample: real)
    requires HoldsState(f, dev, t)
  {
    var path := dev + "/" + sig;
    match t
    case Tempctl =>
      var s := f.temp[dev];
      || (sig == "tc1_temp" && ReadsNumber(v, cache, path, s.tc1))
      || (sig == "tc2_temp" && ReadsNumber(v, cache, path, s.tc2))
      || (sig == "relay1_state" && ReadsSwitch(v, cache, path, s.relay1))
      || (sig == "relay2_state" && ReadsSwitch(v, cache, path, s.relay2))
      || (sig == "control_mode" && v == StringValue(match s.mode case Open => "open" case Closed => "closed"))
      || (sig == "setpoint" && v == DoubleValue(Finite(s.setpoint)))
    case Motorctl =>
      var s := f.motor[dev];
      || (sig == "motor1_speed" && ReadsNumber(v, cache, path, s.speed1))
      || (sig == "motor2_speed" && ReadsNumber(v, cache, path, s.speed2))
      || (sig == "motor1_duty" && ReadsNumber(v, cache, path, s.duty1))
      || (sig == "motor2_duty" && ReadsNumber(v, cache, path, s.duty2))
    case Relayio =>
      var s := f.relay[dev];
      || (sig == "relay_ch1_state" && ReadsSwitch(v, cache, path, s.relay1))
      || (sig == "relay_ch2_state" && ReadsSwitch(v, cache, path, s.relay2))
      || (sig == "relay_ch3_state" && ReadsSwitch(v, cache, path, s.relay3))
      || (sig == "relay_ch4_state" && ReadsSwitch(v, cache, path, s.relay4))
      || (sig == "gpio_input_1" && ReadsSwitch(v, cache, path, s.gpio1))
      || (sig == "gpio_input_2" && ReadsSwitch(v, cache, path, s.gpio2))
      || (sig == "gpio_input_3" && ReadsSwitch(v, cache, path, s.gpio3))
      || (sig == "gpio_input_4" && ReadsSwitch(v, cache, path, s.gpio4))
    case Analogsensor =>
      var s := f.analog[dev];
      || (sig == "voltage_ch1" && ReadsNumber(v, cache, path, Within10(2.5 + s.drift + sample)))
      || (sig == "voltage_ch2" && ReadsNumber(v, cache, path, Within10(5.0 + s.drift + sample)))
      || (sig == "voltage_ch3" && ReadsNumber(v, cache, path, Within10(7.5 + s.drift + sample)))
      || (sig == "voltage_ch4" && ReadsNumber(v, cache, path, Within10(3.3 + s.drift + sample)))
      || (sig == "sensor_quality"
          && v == StringValue(match s.quality case Good => "GOOD" case Noisy => "NOISY" case Faulty => "FAULT"))
  }

  lemma ReadingShowsField(f: Fleet, t: DeviceType, dev: string, sig: string, cache: map<string, real>, sample: real,
                          v: Value)
    requires HoldsState(f, dev, t)
    requires Reading(f, TypeAdapter(t), dev, sig, Cached(cache, Join(dev, sig)), sample) == Some(v)
    ensures ShowsField(f, t, dev, sig, v, cache, sample)
  {
    assert Join(dev, sig) == dev + "/" + sig;
  }

  /** Ask the registry only about a path it owns; such a path never leads back to the device. */
  method PublishedValue(registry: Registry, path: string) returns (value: Option<real>)
    requires registry.Valid()
    ensures value == Cached(registry.cache, path)
  {
    var driven := registry.IsPhysicsDriven(path);
    if !driven {
      return None;
    }
    var l := registry.ReadSection(path);
    return l.value;
  }

  method ReadSignals(factory: Factory, registry: Registry, a: Adapter, dev: string, ids: seq<string>,
                     noise: nat -> real)
    returns (out: seq<SignalValue>)
    requires registry.Valid()
    ensures out == Readings(factory.States(), a, dev, Requested(a, ids), registry.cache, noise)
  {
    out := [];
    var signals := if ids == [] then DefaultSignals(a) else ids;
    for i := 0 to |signals|
      invariant out == Readings(factory.States(), a, dev, signals[..i], registry.cache, noise)
    {
      assert signals[..i + 1][..i] == signals[..i];
      var published := PublishedValue(registry, Join(dev, signals[i]));
      var reading := Reading(factory.States(), a, dev, signals[i], published, noise(i));
      if reading.Some? {
        out := out + [SignalValue(signals[i], reading.value, false)];
      }
    }
    assert signals[..|signals|] == signals;
  }

  // ---------------------------------------------------------------------------------------------
  // Calls
  // ---------------------------------------------------------------------------------------------

  function Dispatch(f: Fleet, t: DeviceType, dev: string, functionId: nat, args: Args): (Fleet, Code) {
    match t
    case Tempctl =>
      var (s, code) := TempCtl.Call(TempCtl.Lookup(f.temp, dev), functionId, args);
      (f.(temp := f.temp[dev := s]), code)
    case Motorctl =>
      var (s, code) := MotorCtl.Call(MotorCtl.Lookup(f.motor, dev), functionId, args);
      (f.(motor := f.motor[dev := s]), code)
    case Relayio =>
      var (s, code) := RelayIO.Call(RelayIO.Lookup(f.relay, dev), functionId, args);
      (f.(relay := f.relay[dev := s]), code)
    case Analogsensor =>
      var (s, code) := AnalogSensor.Call(AnalogSensor.Lookup(f.analog, dev), functionId, args);
      (f.(analog := f.analog[dev := s]), code)
  }

  /** No device function changes any state before its last argument check has passed. */
  lemma RejectedCallChangesNothing(f: Fleet, t: DeviceType, dev: string, functionId: nat, args: Args)
    requires HoldsState(f, dev, t) && Dispatch(f, t, dev, functionId, args).1 != CodeOk
    ensures Dispatch(f, t, dev, functionId, args).0 == f
  {
    match t
    case Tempctl => assert TempCtl.Call(f.temp[dev], functionId, args).0 == f.temp[dev];
    case Motorctl => assert MotorCtl.Call(f.motor[dev], functionId, args).0 == f.motor[dev];
    case Relayio => assert RelayIO.Call(f.relay[dev], functionId, args).0 == f.relay[dev];
    case Analogsensor => assert AnalogSensor.Call(f.analog[dev], functionId, args).0 == f.analog[dev];
  }

  method CallFunction(factory: Factory, t: DeviceType, dev: string, functionId: nat, args: Args)
    returns (code: Code)
    modifies factory.temp, factory.motor, factory.relay, factory.analog
    ensures (factory.States(), code) == Dispatch(old(factory.States()), t, dev, functionId, args)
  {
    match t {
      case Tempctl => code := factory.temp.CallFunction(dev, functionId, args);
      case Motorctl => code := factory.motor.CallFunction(dev, functionId, args);
      case Relayio => code := factory.relay.CallFunction(dev, functionId, args);
      case Analogsensor => code := factory.analog.CallFunction(dev, functionId, args);
    }
  }
}
