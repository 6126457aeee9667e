/**
 * The built-in engine of the non-interacting mode (src/simulation/engines/local_engine.cpp): each tick advances
 * every registered device by the elapsed time, cut at a quarter of a second.
 */
module LocalEngine {
  import opened Basics
  import opened Relaxation
  import opened DeviceFactory
  import TempCtl
  import MotorCtl
  import RelayIO
  import AnalogSensor

  const NS_PER_SECOND := 1_000_000_000
  const MAX_STEP := 0.25

  function Seconds(ns: int): real {
    ns as real / NS_PER_SECOND as real
  }

  function StepFor(elapsedNs: int): real {
    var dt := Seconds(elapsedNs);
    if dt < MAX_STEP then dt else MAX_STEP
  }

  /** A step is the time that has passed, in seconds, up to a quarter of a second. */
  lemma StepIsElapsed(elapsedNs: int)
    ensures StepFor(elapsedNs) == if elapsedNs <= 250_000_000 then elapsedNs as real / 1_000_000_000.0 else 0.25
  {
  }

  predicate HasType(registry: map<string, Spec>, id: string, t: DeviceType) {
    id in registry && TypeFromString(registry[id].typeName) == Some(t)
  }

  function SteppedTemp(states: map<string, TempCtl.State>, registry: map<string, Spec>, dt: real, e: Decay):
    map<string, TempCtl.State>
  {
    map id | id in states ::
      if HasType(registry, id, Tempctl) then TempCtl.Physics(states[id], e(dt / TempCtl.TAU)) else states[id]
  }

  function SteppedMotor(states: map<string, MotorCtl.State>, registry: map<string, Spec>, dt: real, e: Decay):
    map<string, MotorCtl.State>
  {
    map id | id in states ::
      if HasType(registry, id, Motorctl) then MotorCtl.Physics(states[id], e(dt / MotorCtl.TAU)) else states[id]
  }

  function SteppedRelay(states: map<string, RelayIO.State>, registry: map<string, Spec>): map<string, RelayIO.State> {
    map id | id in states ::
      if HasType(registry, id, Relayio) then RelayIO.Physics(states[id]) else states[id]
  }

  function SteppedAnalog(states: map<string, AnalogSensor.State>, registry: map<string, Spec>, dt: real):
    map<string, AnalogSensor.State>
  {
    map id | id in states ::
      if HasType(registry, id, Analogsensor) then AnalogSensor.Physics(states[id], dt) else states[id]
  }

  /** Every registered device takes one step of its own physics; states that belong to no registered device stay. */
  function Stepped(f: Fleet, registry: map<string, Spec>, dt: real, e: Decay): Fleet {
    Fleet(SteppedTemp(f.temp, registry, dt, e), SteppedMotor(f.motor, registry, dt, e),
          SteppedRelay(f.relay, registry), SteppedAnalog(f.analog, registry, dt))
  }

  // The ids of the single devices that the engine steps when no configuration is loaded.
  const TEMP_ID := "tempctl0"
  const MOTOR_ID := "motorctl0"
  const RELAY_ID := "relayio0"
  const ANALOG_ID := "analogsensor0"

  /** Without a configuration one device of each type takes a step, and comes into being if it has to. */
  function SteppedSingles(f: Fleet, dt: real, e: Decay): Fleet {
    Fleet(f.temp[TEMP_ID := TempCtl.Physics(TempCtl.Lookup(f.temp, TEMP_ID), e(dt / TempCtl.TAU))],
          f.motor[MOTOR_ID := MotorCtl.Physics(MotorCtl.Lookup(f.motor, MOTOR_ID), e(dt / MotorCtl.TAU))],
          f.relay[RELAY_ID := RelayIO.Physics(RelayIO.Lookup(f.relay, RELAY_ID))],
          f.analog[ANALOG_ID := AnalogSensor.Physics(AnalogSensor.Lookup(f.analog, ANALOG_ID), dt)])
  }

  lemma SinglesKeepStates(f: Fleet, dt: real, e: Decay)
    ensures forall id, t :: HoldsState(f, id, t) ==> HoldsState(SteppedSingles(f, dt, e), id, t)
  {
  }

  class Engine {
    const factory: Factory
    var lastUpdate: int
    ghost var initialized: int
    ghost var simulated: real  // the sum of all steps taken since initialize

    ghost predicate Valid()
      reads this, factory, factory.temp, factory.motor, factory.relay, factory.analog
    {
      factory.Valid() && 0.0 <= simulated <= Seconds(lastUpdate - initialized)
    }

    constructor (factory: Factory, now: int)
      requires factory.Valid()
      ensures Valid() && this.factory == factory && lastUpdate == initialized == now && simulated == 0.0
    {
      this.factory, lastUpdate, initialized, simulated := factory, now, now, 0.0;
    }

    /**
     * Fails, and changes nothing, unless time has passed. Otherwise every registered device, or without a
     * configuration one device of each type, takes exactly one step of its own physics and nothing else in any
     * module changes; simulated time never outruns real time.
     */
    method Tick(now: int, e: Decay) returns (success: bool)
      requires Valid()
      modifies this, factory.temp, factory.motor, factory.relay, factory.analog
      ensures Valid() && initialized == old(initialized)
      ensures success <==> now > old(lastUpdate)
      ensures lastUpdate == if success then now else old(lastUpdate)
      ensures simulated == old(simulated) + if success then StepFor(now - old(lastUpdate)) else 0.0
      ensures success && now - old(lastUpdate) <= 250_000_000 ==>
                simulated - old(simulated) == (now - old(lastUpdate)) as real / 1_000_000_000.0
      ensures success ==>
                var dt := StepFor(now - old(lastUpdate));
                && 0.0 < dt <= MAX_STEP
                && factory.States() == if factory.configLoaded
                                       then Stepped(old(factory.States()), factory.registry, dt, e)
                                       else SteppedSingles(old(factory.States()), dt, e)
      ensures !success ==> factory.States() == old(factory.States())
    {
      if now - lastUpdate <= 0 {
        return false;
      }
      var dt := StepFor(now - lastUpdate);
      StepIsPositive(now - lastUpdate, lastUpdate - initialized);
      lastUpdate := now;
      simulated := simulated + dt;
      if factory.configLoaded {
        var entries := factory.GetRegisteredDevices();
        StepDevices(entries, dt, e);
        return true;
      }
      StepSingles(dt, e);
      SinglesKeepStates(old(factory.States()), dt, e);
      return true;
    }

    /** The fallback path for an engine that ticks before any configuration was loaded. */
    method StepSingles(dt: real, e: Decay)
      modifies factory.temp, factory.motor, factory.relay, factory.analog
      ensures factory.States() == SteppedSingles(old(factory.States()), dt, e)
    {
      factory.temp.UpdatePhysics(TEMP_ID, dt, e);
      factory.motor.UpdatePhysics(MOTOR_ID, dt, e);
      factory.relay.UpdatePhysics(RELAY_ID);
      factory.analog.UpdatePhysics(ANALOG_ID, dt);
    }

    /** The fan-out loop over the registered devices. */
    method StepDevices(entries: seq<Spec>, dt: real, e: Decay)
      requires Lists(entries, factory.registry) && KeyedById(factory.registry)
      requires forall s :: s in entries ==> HasState(factory.States(), s)
      modifies factory.temp, factory.motor, factory.relay, factory.analog
      ensures factory.States() == Stepped(old(factory.States()), factory.registry, dt, e)
    {
      for i := 0 to |entries|
        invariant factory.States() == SteppedTo(old(factory.States()), entries, i, dt, e)
      {
        StepDevice(entries[i], dt, e);
      }
      LoopSteps(factory.registry, old(factory.States()), entries, dt, e);
    }

    method StepDevice(spec: Spec, dt: real, e: Decay)
      modifies factory.temp, factory.motor, factory.relay, factory.analog
      ensures factory.States() == AfterDevice(old(factory.States()), spec, dt, e)
    {
      match TypeFromString(spec.typeName) {
        case Some(Tempctl) => factory.temp.UpdatePhysics(spec.id, dt, e);
        case Some(Motorctl) => factory.motor.UpdatePhysics(spec.id, dt, e);
        case Some(Relayio) => factory.relay.UpdatePhysics(spec.id);
        case Some(Analogsensor) => factory.analog.UpdatePhysics(spec.id, dt);
        case None =>
      }
    }
  }

  /** The first n entries as a registry. */
  function FirstEntries(entries: seq<Spec>, n: nat): map<string, Spec>
    requires n <= |entries|
  {
    if n == 0 then map[] else FirstEntries(entries, n - 1)[entries[n - 1].id := entries[n - 1]]
  }

  lemma {:induction false} FirstEntriesMembers(entries: seq<Spec>, n: nat)
    requires n <= |entries|
    requires UniqueIds(entries)
    ensures forall id :: id in FirstEntries(entries, n) ==>
              FirstEntries(entries, n)[id] in entries && FirstEntries(entries, n)[id].id == id
    ensures forall i :: 0 <= i < n ==> entries[i].id in FirstEntries(entries, n)
    ensures n < |entries| ==> entries[n].id !in FirstEntries(entries, n)
  {
    if n > 0 {
      FirstEntriesMembers(entries, n - 1);
    }
    if n < |entries| && entries[n].id in FirstEntries(entries, n) {
      EarlierEntry(entries, n, entries[n].id);
    }
  }

  lemma {:induction false} EarlierEntry(entries: seq<Spec>, n: nat, id: string)
    requires n <= |entries| && id in FirstEntries(entries, n)
    ensures exists i :: 0 <= i < n && entries[i].id == id
  {
    if id != entries[n - 1].id {
      EarlierEntry(entries, n - 1, id);
    }
  }

  /** The step of a single device. */
  function AfterDevice(f: Fleet, spec: Spec, dt: real, e: Decay): Fleet {
    var id := spec.id;
    match TypeFromString(spec.typeName)
    case None => f
    case Some(Tempctl) =>
      f.(temp := f.temp[id := TempCtl.Physics(TempCtl.Lookup(f.temp, id), e(dt / TempCtl.TAU))])
    case Some(Motorctl) =>
      f.(motor := f.motor[id := MotorCtl.Physics(MotorCtl.Lookup(f.motor, id), e(dt / MotorCtl.TAU))])
    case Some(Relayio) => f.(relay := f.relay[id := RelayIO.Physics(RelayIO.Lookup(f.relay, id))])
    case Some(Analogsensor) =>
      f.(analog := f.analog[id := AnalogSensor.Physics(AnalogSensor.Lookup(f.analog, id), dt)])
  }

  predicate HasState(f: Fleet, spec: Spec) {
    var t := TypeFromString(spec.typeName);
    t.Some? ==> HoldsState(f, spec.id, t.value)
  }

  /** What the loop has done after n devices. */
  function SteppedTo(f: Fleet, entries: seq<Spec>, n: nat, dt: real, e: Decay): Fleet
    requires n <= |entries|
  {
    if n == 0 then f else AfterDevice(SteppedTo(f, entries, n - 1, dt, e), entries[n - 1], dt, e)
  }

  lemma TempStepsOne(states: map<string, TempCtl.State>, done: map<string, Spec>, spec: Spec, dt: real, e: Decay)
    requires spec.id !in done && TypeFromString(spec.typeName) == Some(Tempctl) && spec.id in states
    ensures var next := SteppedTemp(states, done, dt, e);
            next[spec.id := TempCtl.Physics(TempCtl.Lookup(next, spec.id), e(dt / TempCtl.TAU))]
            == SteppedTemp(states, done[spec.id := spec], dt, e)
  {
  }

  lemma MotorStepsOne(states: map<string, MotorCtl.State>, done: map<string, Spec>, spec: Spec, dt: real, e: Decay)
    requires spec.id !in done && TypeFromString(spec.typeName) == Some(Motorctl) && spec.id in states
    ensures var next := SteppedMotor(states, done, dt, e);
            next[spec.id := MotorCtl.Physics(MotorCtl.Lookup(next, spec.id), e(dt / MotorCtl.TAU))]
            == SteppedMotor(states, done[spec.id := spec], dt, e)
  {
  }

  lemma RelayStepsOne(states: map<string, RelayIO.State>, done: map<string, Spec>, spec: Spec)
    requires spec.id !in done && TypeFromString(spec.typeName) == Some(Relayio) && spec.id in states
    ensures var next := SteppedRelay(states, done);
            next[spec.id := RelayIO.Physics(RelayIO.Lookup(next, spec.id))]
            == SteppedRelay(states, done[spec.id := spec])
  {
  }

  lemma AnalogStepsOne(states: map<string, AnalogSensor.State>, done: map<string, Spec>, spec: Spec, dt: real)
    requires spec.id !in done && TypeFromString(spec.typeName) == Some(Analogsensor) && spec.id in states
    ensures var next := SteppedAnalog(states, done, dt);
            next[spec.id := AnalogSensor.Physics(AnalogSensor.Lookup(next, spec.id), dt)]
            == SteppedAnalog(states, done[spec.id := spec], dt)
  {
  }

  /** A device of another type leaves the map of a type alone. */
  lemma OtherTypesStay(f: Fleet, done: map<string, Spec>, spec: Spec, dt: real, e: Decay)
    requires spec.id !in done
    ensures var t, done' := TypeFromString(spec.typeName), done[spec.id := spec];
            && (t != Some(Tempctl) ==> SteppedTemp(f.temp, done', dt, e) == SteppedTemp(f.temp, done, dt, e))
            && (t != Some(Motorctl) ==> SteppedMotor(f.motor, done', dt, e) == SteppedMotor(f.motor, done, dt, e))
            && (t != Some(Relayio) ==> SteppedRelay(f.relay, done') == SteppedRelay(f.relay, done))
            && (t != Some(Analogsensor) ==> SteppedAnalog(f.analog, done', dt) == SteppedAnalog(f.analog, done, dt))
  {
  }

  /** Stepping one more device extends what the loop has done by that device. */
  lemma StepsOneMore(f: Fleet, done: map<string, Spec>, spec: Spec, dt: real, e: Decay)
    requires spec.id !in done && HasState(f, spec)
    ensures AfterDevice(Stepped(f, done, dt, e), spec, dt, e) == Stepped(f, done[spec.id := spec], dt, e)
  {
    OtherTypesStay(f, done, spec, dt, e);
    match TypeFromString(spec.typeName)
    case None =>
    case Some(Tempctl) => TempStepsOne(f.temp, done, spec, dt, e);
    case Some(Motorctl) => MotorStepsOne(f.motor, done, spec, dt, e);
    case Some(Relayio) => RelayStepsOne(f.relay, done, spec);
    case Some(Analogsensor) => AnalogStepsOne(f.analog, done, spec, dt);
  }

  lemma {:induction false} LoopStepsTo(registry: map<string, Spec>, f: Fleet, entries: seq<Spec>, n: nat, dt: real,
                                       e: Decay)
    requires Lists(entries, registry) && n <= |entries|
    requires forall s :: s in entries ==> HasState(f, s)
    ensures SteppedTo(f, entries, n, dt, e) == Stepped(f, FirstEntries(entries, n), dt, e)
  {
    if n > 0 {
      LoopStepsTo(registry, f, entries, n - 1, dt, e);
      FirstEntriesMembers(entries, n - 1);
      assert entries[n - 1] in entries;
      StepsOneMore(f, FirstEntries(entries, n - 1), entries[n - 1], dt, e);
    } else {
      NothingStepped(f, dt, e);
    }
  }

  lemma NothingStepped(f: Fleet, dt: real, e: Decay)
    ensures Stepped(f, map[], dt, e) == f
  {
  }

  predicate KeyedById(registry: map<string, Spec>) {
    forall id :: id in registry ==> registry[id].id == id
  }

  lemma {:induction false} LoopSteps(registry: map<string, Spec>, f: Fleet, entries: seq<Spec>, dt: real, e: Decay)
    requires Lists(entries, registry) && KeyedById(registry)
    requires forall s :: s in entries ==> HasState(f, s)
    ensures SteppedTo(f, entries, |entries|, dt, e) == Stepped(f, registry, dt, e)
  {
    LoopStepsTo(registry, f, entries, |entries|, dt, e);
    FirstEntriesMembers(entries, |entries|);
    assert FirstEntries(entries, |entries|) == registry by {
      forall id | id in registry ensures id in FirstEntries(entries, |entries|) {
        assert registry[id] in entries;
      }
    }
  }

  /** One step is positive, capped, and fits into the real time that passed. */
  lemma StepIsPositive(elapsed: int, before: int)
    requires elapsed > 0
    ensures 0.0 < StepFor(elapsed) <= MAX_STEP && StepFor(elapsed) <= Seconds(elapsed)
    ensures Seconds(before) + Seconds(elapsed) == Seconds(before + elapsed)
  {
  }
}
