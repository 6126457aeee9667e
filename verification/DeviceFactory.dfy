/**
 * Device types, their adapters and the startup registry (src/devices/common/device_adapter.cpp and
 * src/devices/common/device_factory.cpp).
 */
module DeviceFactory {
  import opened Basics
  import TempCtl
  import MotorCtl
  import RelayIO
  import AnalogSensor
  import ChaosControl

  // ---------------------------------------------------------------------------------------------
  // Types
  // ---------------------------------------------------------------------------------------------

  datatype DeviceType = Tempctl | Motorctl | Relayio | Analogsensor

  function TypeFromString(text: string): Option<DeviceType> {
    if text == "tempctl" then Some(Tempctl)
    else if text == "motorctl" then Some(Motorctl)
    else if text == "relayio" then Some(Relayio)
    else if text == "analogsensor" then Some(Analogsensor)
    else None
  }

  /** The signals of a type that are fed to the simulation as inputs. */
  function ActuatorsOf(t: DeviceType): seq<string> {
    match t
    case Tempctl => TempCtl.ACTUATORS
    case Motorctl => MotorCtl.ACTUATORS
    case Relayio => RelayIO.ACTUATORS
    case Analogsensor => AnalogSensor.ACTUATORS
  }

  /** Which adapter answers for a device id: the built-in control device or a registered type. */
  datatype Adapter = ChaosAdapter | TypeAdapter(t: DeviceType)

  const CHAOS_FUNCTIONS := [("inject_device_unavailable", 1), ("inject_signal_fault", 2), ("inject_call_latency", 3),
                            ("inject_call_failure", 4), ("clear_faults", 5), ("inject_device_unreachable", 6)]

  function FunctionsOf(a: Adapter): seq<(string, nat)> {
    match a
    case ChaosAdapter => CHAOS_FUNCTIONS
    case TypeAdapter(Tempctl) => TempCtl.FUNCTIONS
    case TypeAdapter(Motorctl) => MotorCtl.FUNCTIONS
    case TypeAdapter(Relayio) => RelayIO.FUNCTIONS
    case TypeAdapter(Analogsensor) => AnalogSensor.FUNCTIONS
  }

  // ---------------------------------------------------------------------------------------------
  // Configured devices
  // ---------------------------------------------------------------------------------------------

  /** A YAML node as far as device configuration looks at it. */
  datatype Node = Number(r: real) | OtherScalar | Sequence(items: seq<Node>)

  datatype Spec = Spec(id: string, typeName: string, config: map<string, Node>)

  /** A config value that parses, is absent, or makes the initialisation throw. */
  datatype Parsed<T> = Value(v: Option<T>) | Malformed

  function ParseDouble(config: map<string, Node>, key: string): Parsed<real> {
    if key !in config then Value(None)
    else if config[key].Number? then Value(Some(config[key].r))
    else Malformed
  }

  function ParseRange(config: map<string, Node>, key: string): Parsed<(real, real)> {
    if key !in config then Value(None)
    else
      match config[key]
      case Sequence(items) =>
        if |items| == 2 && items[0].Number? && items[1].Number? && items[0].r < items[1].r
        then Value(Some((items[0].r, items[1].r))) else Malformed
      case _ => Malformed
  }

  /** What initialize_device accepts: a known type whose own configuration parses and passes its checks. */
  predicate Accepts(spec: Spec) {
    match TypeFromString(spec.typeName)
    case None => false
    case Some(Tempctl) =>
      var temp, range := ParseDouble(spec.config, "initial_temp"), ParseRange(spec.config, "temp_range");
      temp.Value? && range.Value? && TempCtl.ConfigAccepted(TempCtl.Config(temp.v, range.v))
    case Some(Motorctl) =>
      var speed := ParseDouble(spec.config, "max_speed");
      speed.Value? && MotorCtl.ConfigAccepted(speed.v)
    case Some(_) => true
  }

  predicate IsNumber(config: map<string, Node>, key: string) {
    key in config && config[key].Number?
  }

  predicate IsRange(config: map<string, Node>, key: string) {
    && key in config && config[key].Sequence? && |config[key].items| == 2
    && config[key].items[0].Number? && config[key].items[1].Number? && config[key].items[0].r < config[key].items[1].r
  }

  /**
   * Exactly these configurations are accepted. Values that are present must parse, an initial temperature must lie in
   * a range that is given, a maximum speed in (0, 10000]; relay and sensor modules look at no configuration.
   */
  lemma AcceptsIff(spec: Spec)
    ensures var c := spec.config;
            Accepts(spec)
            <==> || spec.typeName == "relayio" || spec.typeName == "analogsensor"
                 || (spec.typeName == "motorctl"
                     && ("max_speed" in c ==> IsNumber(c, "max_speed") && 0.0 < c["max_speed"].r <= 10000.0))
                 || (spec.typeName == "tempctl"
                     && ("initial_temp" in c ==> IsNumber(c, "initial_temp"))
                     && ("temp_range" in c ==> IsRange(c, "temp_range"))
                     && ("initial_temp" in c && "temp_range" in c ==>
                           c["temp_range"].items[0].r <= c["initial_temp"].r <= c["temp_range"].items[1].r))
  {
  }

  function AcceptedIds(specs: seq<Spec>): seq<string> {
    if specs == [] then []
    else
      var front, last := AcceptedIds(specs[..|specs| - 1]), specs[|specs| - 1];
      if Accepts(last) then front + [last.id] else front
  }

  datatype Failure = Failure(id: string, typeName: string)

  function RejectedSpecs(specs: seq<Spec>): seq<Failure> {
    if specs == [] then []
    else
      var front, last := RejectedSpecs(specs[..|specs| - 1]), specs[|specs| - 1];
      if Accepts(last) then front else front + [Failure(last.id, last.typeName)]
  }

  function Registered(specs: seq<Spec>): map<string, Spec> {
    if specs == [] then map[]
    else
      var front, last := Registered(specs[..|specs| - 1]), specs[|specs| - 1];
      if Accepts(last) then front[last.id := last] else front
  }

  function Ids(specs: seq<Spec>): seq<string> {
    seq(|specs|, i requires 0 <= i < |specs| => specs[i].id)
  }

  ghost predicate UniqueIds(specs: seq<Spec>) {
    forall i, j :: 0 <= i < j < |specs| ==> specs[i].id != specs[j].id
  }

  /** The entries are those of the registry, each once. */
  ghost predicate Lists(entries: seq<Spec>, registry: map<string, Spec>) {
    UniqueIds(entries) && forall e :: e in entries <==> e.id in registry && registry[e.id] == e
  }

  /** Successes and failures divide the configured list between them, and the registry holds the successes. */
  lemma {:induction false} StartupPartition(specs: seq<Spec>)
    ensures |AcceptedIds(specs)| + |RejectedSpecs(specs)| == |specs|
    ensures RejectedSpecs(specs) == [] <==> forall i :: 0 <= i < |specs| ==> Accepts(specs[i])
    ensures forall id :: id in Registered(specs) <==> id in AcceptedIds(specs)
    ensures forall id :: id in AcceptedIds(specs)
              <==> exists i :: 0 <= i < |specs| && Accepts(specs[i]) && specs[i].id == id
    ensures forall id :: id in Registered(specs) ==> Registered(specs)[id] in specs && Registered(specs)[id].id == id
                                                     && Accepts(Registered(specs)[id])
  {
    if specs != [] {
      var n := |specs| - 1;
      var front := specs[..n];
      StartupPartition(front);
      assert specs == front + [specs[n]];
      forall id
        ensures id in AcceptedIds(specs) <==> exists i :: 0 <= i < |specs| && Accepts(specs[i]) && specs[i].id == id
      {
        assert forall i :: 0 <= i < n ==> front[i] == specs[i];
        if id in AcceptedIds(front) {
          var i :| 0 <= i < n && Accepts(front[i]) && front[i].id == id;
          assert Accepts(specs[i]) && specs[i].id == id;
        }
      }
    }
  }

  ghost predicate Subsequence(xs: seq<string>, ys: seq<string>) {
    exists at: seq<int> :: EmbedsAt(xs, ys, at)
  }

  ghost predicate EmbedsAt(xs: seq<string>, ys: seq<string>, at: seq<int>) {
    && |at| == |xs|
    && (forall i :: 0 <= i < |at| ==> 0 <= at[i] < |ys| && ys[at[i]] == xs[i])
    && (forall i, j :: 0 <= i < j < |at| ==> at[i] < at[j])
  }

  function FailureIds(failures: seq<Failure>): seq<string> {
    seq(|failures|, i requires 0 <= i < |failures| => failures[i].id)
  }

  /** Both lists keep the configured order; with unique ids they are also disjoint. */
  lemma {:induction false} StartupKeepsOrder(specs: seq<Spec>)
    ensures Subsequence(AcceptedIds(specs), Ids(specs))
    ensures Subsequence(FailureIds(RejectedSpecs(specs)), Ids(specs))
    ensures UniqueIds(specs) ==> forall id :: !(id in AcceptedIds(specs) && id in FailureIds(RejectedSpecs(specs)))
  {
    if specs == [] {
      assert EmbedsAt([], [], []);
      assert FailureIds(RejectedSpecs(specs)) == [] && Ids(specs) == [];
    } else {
      var n := |specs| - 1;
      var front, last := specs[..n], specs[n];
      StartupKeepsOrder(front);
      assert Ids(specs) == Ids(front) + [last.id];
      if Accepts(last) {
        SubsequenceGrows(AcceptedIds(front), Ids(front), last.id);
      } else {
        SubsequenceGrows(FailureIds(RejectedSpecs(front)), Ids(front), last.id);
        assert FailureIds(RejectedSpecs(specs)) == FailureIds(RejectedSpecs(front)) + [last.id];
      }
      SubsequenceWeakens(AcceptedIds(front), Ids(front), last.id);
      SubsequenceWeakens(FailureIds(RejectedSpecs(front)), Ids(front), last.id);
      if UniqueIds(specs) {
        assert last.id !in Ids(front);
        SubsequenceMembers(AcceptedIds(front), Ids(front));
        SubsequenceMembers(FailureIds(RejectedSpecs(front)), Ids(front));
        assert UniqueIds(front);
      }
    }
  }

  lemma SubsequenceGrows(xs: seq<string>, ys: seq<string>, z: string)
    requires Subsequence(xs, ys)
    ensures Subsequence(xs + [z], ys + [z])
  {
    var at :| EmbedsAt(xs, ys, at);
    assert EmbedsAt(xs + [z], ys + [z], at + [|ys|]);
  }

  lemma SubsequenceWeakens(xs: seq<string>, ys: seq<string>, z: string)
    requires Subsequence(xs, ys)
    ensures Subsequence(xs, ys + [z])
  {
    var at :| EmbedsAt(xs, ys, at);
    assert EmbedsAt(xs, ys + [z], at);
  }

  lemma SubsequenceMembers(xs: seq<string>, ys: seq<string>)
    requires Subsequence(xs, ys)
    ensures forall x :: x in xs ==> x in ys
  {
    var at :| EmbedsAt(xs, ys, at);
    forall i | 0 <= i < |xs| ensures xs[i] in ys {
      assert ys[at[i]] == xs[i];
    }
  }

  // ---------------------------------------------------------------------------------------------
  // The factory
  // ---------------------------------------------------------------------------------------------

  datatype Policy = Strict | Degraded

  datatype Report = Report(policy: Policy, configured: seq<string>, successful: seq<string>, failed: seq<Failure>)

  datatype Outcome = Returned(report: Report) | Threw(failure: Failure)

  /** The state of every device of every type. */
  datatype Fleet = Fleet(temp: map<string, TempCtl.State>, motor: map<string, MotorCtl.State>,
                         relay: map<string, RelayIO.State>, analog: map<string, AnalogSensor.State>)

  predicate HoldsState(f: Fleet, id: string, t: DeviceType) {
    match t
    case Tempctl => id in f.temp
    case Motorctl => id in f.motor
    case Relayio => id in f.relay
    case Analogsensor => id in f.analog
  }

  function ParsedOr<T>(p: Parsed<T>): Option<T> {
    match p case Value(v) => v case Malformed => None
  }

  /** The temperature controller configuration and the motor limit a spec asks for. */
  function TempConfig(spec: Spec): TempCtl.Config {
    TempCtl.Config(ParsedOr(ParseDouble(spec.config, "initial_temp")), ParsedOr(ParseRange(spec.config, "temp_range")))
  }

  function MaxSpeed(spec: Spec): Option<real> {
    ParsedOr(ParseDouble(spec.config, "max_speed"))
  }

  /** The device holds the initial state its own configuration asks for. */
  ghost predicate Initialised(f: Fleet, spec: Spec) {
    match TypeFromString(spec.typeName)
    case None => false
    case Some(Tempctl) => spec.id in f.temp && f.temp[spec.id] == TempCtl.InitialState(TempConfig(spec))
    case Some(Motorctl) => spec.id in f.motor && f.motor[spec.id] == MotorCtl.InitialState(MaxSpeed(spec))
    case Some(Relayio) => spec.id in f.relay && f.relay[spec.id] == RelayIO.DEFAULT
    case Some(Analogsensor) => spec.id in f.analog && f.analog[spec.id] == AnalogSensor.DEFAULT
  }

  /** Initialising a device stores its initial state and touches nothing else. */
  function Installed(f: Fleet, spec: Spec): Fleet {
    match TypeFromString(spec.typeName)
    case None => f
    case Some(Tempctl) => f.(temp := f.temp[spec.id := TempCtl.InitialState(TempConfig(spec))])
    case Some(Motorctl) => f.(motor := f.motor[spec.id := MotorCtl.InitialState(MaxSpeed(spec))])
    case Some(Relayio) => f.(relay := f.relay[spec.id := RelayIO.DEFAULT])
    case Some(Analogsensor) => f.(analog := f.analog[spec.id := AnalogSensor.DEFAULT])
  }

  /** The fleet after the accepted specs have been initialised in order. */
  function Started(f: Fleet, specs: seq<Spec>): Fleet {
    if specs == [] then f
    else
      var front, last := Started(f, specs[..|specs| - 1]), specs[|specs| - 1];
      if Accepts(last) then Installed(front, last) else front
  }

  lemma InstalledIsInitialised(f: Fleet, spec: Spec, other: Spec)
    requires Accepts(spec)
    ensures Initialised(Installed(f, spec), spec)
    ensures other.id != spec.id && Initialised(f, other) ==> Initialised(Installed(f, spec), other)
  {
  }

  /** The initial states, field by field: 25 degrees and 3200 rpm unless configured otherwise, all switches off. */
  lemma InitialStates(f: Fleet, spec: Spec)
    requires Accepts(spec) && Initialised(f, spec)
    ensures var c := spec.config;
            match TypeFromString(spec.typeName)
            case Some(Tempctl) =>
              var t := if "initial_temp" in c then c["initial_temp"].r else 25.0;
              f.temp[spec.id] == TempCtl.State(t, t, false, false, TempCtl.Open, 60.0)
            case Some(Motorctl) =>
              var rpm := if "max_speed" in c then c["max_speed"].r else 3200.0;
              f.motor[spec.id] == MotorCtl.State(0.0, 0.0, 0.0, 0.0, rpm)
            case Some(Relayio) =>
              f.relay[spec.id] == RelayIO.State(false, false, false, false, false, false, false, false)
            case Some(Analogsensor) => f.analog[spec.id] == AnalogSensor.State(0.0, 0.01, false, AnalogSensor.Good, 0.0)
            case None => false
  {
    AcceptsIff(spec);
  }

  /** After start-up every registered device holds the initial state its configuration asks for. */
  lemma {:induction false} StartupInitialises(f: Fleet, specs: seq<Spec>, id: string)
    requires id in Registered(specs)
    ensures Registered(specs)[id].id == id && Initialised(Started(f, specs), Registered(specs)[id])
  {
    var n := |specs| - 1;
    var front, last := specs[..n], specs[n];
    if Accepts(last) {
      InstalledIsInitialised(Started(f, front), last, last);
      if id != last.id {
        StartupInitialises(f, front, id);
        InstalledIsInitialised(Started(f, front), last, Registered(front)[id]);
      }
    } else {
      StartupInitialises(f, front, id);
    }
  }

  /** adapter_by_id: the control device always answers, a device once the config is loaded and it registered. */
  function AdapterOf(registry: map<string, Spec>, configLoaded: bool, id: string): Option<Adapter> {
    if id == ChaosControl.DEVICE_ID then Some(ChaosAdapter)
    else if !configLoaded || id !in registry then None
    else
      match TypeFromString(registry[id].typeName)
      case None => None
      case Some(t) => Some(TypeAdapter(t))
  }

  class Factory {
    const temp: TempCtl.Module
    const motor: MotorCtl.Module
    const relay: RelayIO.Module
    const analog: AnalogSensor.Module
    var registry: map<string, Spec>
    var configLoaded: bool

    /** A registered device has a known type and a state in the module of that type. */
    ghost predicate Valid()
      reads this, temp, motor, relay, analog
    {
      forall id :: id in registry ==>
        && registry[id].id == id
        && TypeFromString(registry[id].typeName).Some?
        && HoldsState(States(), id, TypeFromString(registry[id].typeName).value)
    }

    function States(): Fleet
      reads this, temp, motor, relay, analog
    {
      Fleet(temp.states, motor.states, relay.states, analog.states)
    }

    constructor (temp: TempCtl.Module, motor: MotorCtl.Module, relay: RelayIO.Module, analog: AnalogSensor.Module)
      ensures Valid() && registry == map[] && !configLoaded
      ensures this.temp == temp && this.motor == motor && this.relay == relay && this.analog == analog
    {
      this.temp, this.motor, this.relay, this.analog := temp, motor, relay, analog;
      registry, configLoaded := map[], false;
    }

    /** adapter_by_id on the current registry. */
    function AdapterById(id: string): Option<Adapter>
      reads this
    {
      AdapterOf(registry, configLoaded, id)
    }

    /** A device that cannot be initialised is not registered, and its module keeps no state for it. */
    method InitializeDevice(spec: Spec) returns (ok: bool)
      requires Valid()
      modifies this`registry, temp, motor, relay, analog
      ensures Valid() && ok == Accepts(spec)
      ensures registry == if ok then old(registry)[spec.id := spec] else old(registry)
      ensures States() == if ok then Installed(old(States()), spec) else old(States())
    {
      var t := TypeFromString(spec.typeName);
      if t.None? {
        return false;
      }
      ok := InitializeState(spec, t.value);
      InstalledKeepsStates(old(States()), spec);
      if ok {
        registry := registry[spec.id := spec];
      }
    }

    /** The init function of a type: it stores a state for the device, or throws and stores nothing. */
    method InitializeState(spec: Spec, t: DeviceType) returns (ok: bool)
      requires TypeFromString(spec.typeName) == Some(t)
      modifies temp, motor, relay, analog
      ensures ok == Accepts(spec)
      ensures States() == if ok then Installed(old(States()), spec) else old(States())
    {
      match t {
        case Tempctl =>
          var initial := ParseDouble(spec.config, "initial_temp");
          var range := ParseRange(spec.config, "temp_range");
          if initial.Malformed? || range.Malformed? {
            return false;
          }
          ok := temp.Init(spec.id, TempCtl.Config(initial.v, range.v));
        case Motorctl =>
          var speed := ParseDouble(spec.config, "max_speed");
          if speed.Malformed? {
            return false;
          }
          ok := motor.Init(spec.id, speed.v);
        case Relayio =>
          relay.Init(spec.id);
          ok := true;
        case Analogsensor =>
          analog.Init(spec.id);
          ok := true;
      }
    }

    /**
     * Strict: the first rejected device empties the registry and throws. Degraded: every accepted device is
     * registered and every rejected one reported, in configured order.
     */
    method InitializeFromConfig(specs: seq<Spec>, policy: Policy) returns (out: Outcome)
      modifies this, temp, motor, relay, analog
      ensures Valid()
      ensures out.Threw? <==> policy == Strict && RejectedSpecs(specs) != []
      ensures out.Threw? ==> out.failure == RejectedSpecs(specs)[0] && registry == map[] && !configLoaded
      ensures out.Returned? ==>
                && configLoaded && registry == Registered(specs)
                && out.report == Report(policy, Ids(specs), AcceptedIds(specs), RejectedSpecs(specs))
                && States() == Started(old(States()), specs)
                && forall id :: id in registry ==> Initialised(States(), registry[id])
    {
      registry := map[];
      configLoaded := false;
      var successful: seq<string> := [];
      var failed: seq<Failure> := [];
      for i := 0 to |specs|
        invariant Valid() && !configLoaded && registry == Registered(specs[..i])
        invariant States() == Started(old(States()), specs[..i])
        invariant successful == AcceptedIds(specs[..i]) && failed == RejectedSpecs(specs[..i])
        invariant policy == Strict ==> failed == []
      {
        assert specs[..i + 1][..i] == specs[..i];
        var ok := InitializeDevice(specs[i]);
        if ok {
          successful := successful + [specs[i].id];
        } else {
          failed := failed + [Failure(specs[i].id, specs[i].typeName)];
          if policy == Strict {
            RejectionsGrow(specs, i + 1);
            registry := map[];
            return Threw(failed[0]);
          }
        }
      }
      assert specs[..|specs|] == specs;
      forall id | id in registry ensures Initialised(States(), registry[id]) {
        StartupInitialises(old(States()), specs, id);
      }
      configLoaded := true;
      return Returned(Report(policy, Ids(specs), successful, failed));
    }

    /** Every registered entry once. */
    method GetRegisteredDevices() returns (entries: seq<Spec>)
      requires Valid()
      ensures Lists(entries, registry)
    {
      entries := [];
      var rest := registry.Keys;
      while rest != {}
        invariant rest <= registry.Keys
        invariant forall e :: e in entries <==> e.id in registry && e.id !in rest && registry[e.id] == e
        invariant UniqueIds(entries)
        decreases |rest|
      {
        var id :| id in rest;
        assert forall e :: e in entries ==> e.id != id;
        entries := entries + [registry[id]];
        rest := rest - {id};
      }
    }
  }

  lemma InstalledKeepsStates(f: Fleet, spec: Spec)
    ensures forall id, u :: HoldsState(f, id, u) ==> HoldsState(Installed(f, spec), id, u)
    ensures var t := TypeFromString(spec.typeName); t.Some? ==> HoldsState(Installed(f, spec), spec.id, t.value)
  {
  }

  lemma {:induction false} RejectionsGrow(specs: seq<Spec>, i: nat)
    requires i <= |specs|
    ensures RejectedSpecs(specs[..i]) <= RejectedSpecs(specs)
    decreases |specs| - i
  {
    if i == |specs| {
      assert specs[..i] == specs;
    } else {
      RejectionsGrow(specs, i + 1);
      assert specs[..i + 1][..i] == specs[..i];
    }
  }
}
