/**
 * The coordination layer (src/devices/common/device_manager.cpp): listing, reading and calling devices under
 * injected faults, the function-name cache, the physics-owned paths and the actuator snapshot.
 */
module DeviceManager {
  import opened Basics
  import opened SignalPaths
  import opened SignalRegistry
  import opened DeviceFactory
  import opened DeviceAdapter
  import FI = FaultInjection
  import ChaosControl
  import TempCtl
  import MotorCtl
  import RelayIO
  import FC = FluxGraphClient

  const AMBIENT_PATH := "environment/ambient_temp"

  datatype Mode = Inert | NonInteracting | Sim

  // ---------------------------------------------------------------------------------------------
  // Reads and calls under faults
  // ---------------------------------------------------------------------------------------------

  /** The shared state as requests and the ticker see it; the fault store counts by its log. */
  datatype World = World(fleet: Fleet, devices: map<string, Spec>, loaded: bool, driven: set<string>,
                         cache: map<string, real>, log: FI.Log)

  ghost predicate Coherent(w: World) {
    && w.cache.Keys <= w.driven
    && ChaosControl.DEVICE_ID !in w.devices
    && forall id :: id in w.devices ==>
         && w.devices[id].id == id
         && TypeFromString(w.devices[id].typeName).Some?
         && HoldsState(w.fleet, id, TypeFromString(w.devices[id].typeName).value)
  }

  function AdapterIn(w: World, id: string): Option<Adapter> {
    AdapterOf(w.devices, w.loaded, id)
  }

  predicate Unavailable(w: World, dev: string, now: int) {
    FI.DeviceFaulted(w.log, FI.Unavailable, dev, now)
  }

  /** The FAULT quality is stamped on exactly the currently faulted signals; the values stay. */
  function Stamped(values: seq<SignalValue>, log: FI.Log, dev: string, now: int): seq<SignalValue> {
    seq(|values|, i requires 0 <= i < |values| =>
          if FI.SignalFaulted(log, dev, values[i].sig, now) then values[i].(faulty := true) else values[i])
  }

  /** A read of one device at one instant. */
  function ReadAt(w: World, dev: string, ids: seq<string>, now: int, noise: nat -> real): seq<SignalValue> {
    match AdapterIn(w, dev)
    case None => []
    case Some(a) =>
      if Unavailable(w, dev, now) then []
      else Stamped(Readings(w.fleet, a, dev, Requested(a, ids), w.cache, noise), w.log, dev, now)
  }

  /** A device that is unavailable or not known answers nothing. */
  lemma SilentWhenUnavailable(w: World, dev: string, ids: seq<string>, now: int, noise: nat -> real)
    requires AdapterIn(w, dev).None? || FI.DeviceFaulted(w.log, FI.Unavailable, dev, now)
    ensures ReadAt(w, dev, ids, now, noise) == []
  {
  }

  /** Every value that is read shows its own field of the device, or what is published in front of it. */
  lemma ReadShowsFields(w: World, dev: string, ids: seq<string>, now: int, noise: nat -> real, v: SignalValue)
    requires Coherent(w) && TypeIn(w.devices, dev).Some? && v in ReadAt(w, dev, ids, now, noise)
    ensures var t := TypeIn(w.devices, dev).value;
            var asked := Requested(TypeAdapter(t), ids);
            exists i :: 0 <= i < |asked| && asked[i] == v.sig
                        && ShowsField(w.fleet, t, dev, v.sig, v.value, w.cache, noise(i))
  {
    var t := TypeIn(w.devices, dev).value;
    var a := TypeAdapter(t);
    var values := Readings(w.fleet, a, dev, Requested(a, ids), w.cache, noise);
    assert ReadAt(w, dev, ids, now, noise) == Stamped(values, w.log, dev, now);
    var k :| 0 <= k < |values| && Stamped(values, w.log, dev, now)[k] == v;
    var i := ReadingsAnswerRequests(w.fleet, a, dev, Requested(a, ids), w.cache, noise, values[k]);
    ReadingShowsField(w.fleet, t, dev, v.sig, w.cache, noise(i), v.value);
  }

  /**
   * A permitted read returns exactly the known requested signals, in request order, and a value has FAULT
   * quality exactly when its signal is faulted at that instant.
   */
  lemma ReadIsExact(w: World, dev: string, ids: seq<string>, now: int, noise: nat -> real)
    requires AdapterIn(w, dev).Some? && !Unavailable(w, dev, now)
    ensures var out, a := ReadAt(w, dev, ids, now, noise), AdapterIn(w, dev).value;
            && SignalsOf(out) == KnownOnly(a, Requested(a, ids))
            && forall v :: v in out ==> (v.faulty <==> FI.SignalFaulted(w.log, dev, v.sig, now))
  {
    var a := AdapterIn(w, dev).value;
    var values := Readings(w.fleet, a, dev, Requested(a, ids), w.cache, noise);
    var out := ReadAt(w, dev, ids, now, noise);
    ReadsExactlyTheKnown(w.fleet, a, dev, Requested(a, ids), w.cache, noise);
    assert SignalsOf(out) == SignalsOf(values);
    forall i | 0 <= i < |out| ensures out[i].faulty <==> FI.SignalFaulted(w.log, dev, out[i].sig, now) {
      assert values[i] in values;
    }
  }

  /** Chance in one call: how much longer than the injected latency it sleeps, and the sample it draws. */
  datatype Moment = Moment(delay: nat, sample: real)

  /** The world after a call, its status, and the time at which it ends. */
  datatype Effect = Effect(world: World, code: Code, end: int)

  function Wake(log: FI.Log, dev: string, now: int, delay: nat): int {
    var ms := FI.LastLatency(log, dev).GetOr(0);
    if ms > 0 then now + ms * FI.NS_PER_MS + delay else now
  }

  /** The adapter's part of a call. */
  function DispatchAt(w: World, dev: string, functionId: nat, args: Args, now: int): (World, Code) {
    match AdapterIn(w, dev)
    case None => (w, CodeNotFound)
    case Some(ChaosAdapter) =>
      (match ChaosControl.Decode(functionId, args, now)
       case Accepted(e) => (w.(log := w.log + [e]), CodeOk)
       case Rejected(code) => (w, code))
    case Some(TypeAdapter(t)) =>
      var (fleet, code) := Dispatch(w.fleet, t, dev, functionId, args);
      (w.(fleet := fleet), code)
  }

  /** What a call does once it has slept: the failure rule, then the adapter. */
  function FinishAt(w: World, dev: string, functionId: nat, args: Args, now: int, sample: real): (World, Code) {
    if FI.CallFails(w.log, dev, ChaosControl.Decimal(functionId), sample) then (w, CodeInvalidArgument)
    else DispatchAt(w, dev, functionId, args, now)
  }

  /** A whole call during which nothing else happens. */
  function CallAt(w: World, dev: string, functionId: nat, args: Args, now: int, m: Moment): Effect {
    if Unavailable(w, dev, now) then Effect(w, CodeInvalidArgument, now)
    else
      var later := Wake(w.log, dev, now, m.delay);
      var (w', code) := FinishAt(w, dev, functionId, args, later, m.sample);
      Effect(w', code, later)
  }

  /** Every call that ends in another status than OK leaves all devices and all fault answers as they were. */
  lemma FailedCallChangesNothing(w: World, dev: string, functionId: nat, args: Args, now: int,
                                   m: Moment)
    requires Coherent(w)
    ensures var effect := CallAt(w, dev, functionId, args, now, m);
            effect.code != CodeOk ==> effect.world == w
  {
    var a := AdapterIn(w, dev);
    if a.Some? && a.value.TypeAdapter? && Dispatch(w.fleet, a.value.t, dev, functionId, args).1 != CodeOk {
      RejectedCallChangesNothing(w.fleet, a.value.t, dev, functionId, args);
    }
  }

  /** A call changes device states or the fault log, never both, and nothing else. */
  lemma FinishKeepsCoherence(w: World, dev: string, functionId: nat, args: Args, now: int, sample: real)
    requires Coherent(w)
    ensures var w' := FinishAt(w, dev, functionId, args, now, sample).0;
            Coherent(w') && (w' == w.(fleet := w'.fleet) || w' == w.(log := w'.log))
  {
    var a := AdapterIn(w, dev);
    if a.Some? && a.value.TypeAdapter? {
      DispatchKeepsStates(w.fleet, a.value.t, dev, functionId, args);
    }
  }

  lemma CallKeepsCoherence(w: World, dev: string, functionId: nat, args: Args, now: int, m: Moment)
    requires Coherent(w)
    ensures var effect := CallAt(w, dev, functionId, args, now, m);
            && Coherent(effect.world) && effect.end >= now
            && (effect.world == w.(fleet := effect.world.fleet) || effect.world == w.(log := effect.world.log))
  {
    FinishKeepsCoherence(w, dev, functionId, args, Wake(w.log, dev, now, m.delay), m.sample);
  }

  lemma DispatchKeepsStates(f: Fleet, t: DeviceType, dev: string, functionId: nat, args: Args)
    ensures forall id, u :: HoldsState(f, id, u) ==> HoldsState(Dispatch(f, t, dev, functionId, args).0, id, u)
  {
  }

  // ---------------------------------------------------------------------------------------------
  // The function-name cache
  // ---------------------------------------------------------------------------------------------

  /** Filling a table in order: the last entry of a name stays. */
  function TableOf(fns: seq<(string, nat)>): map<string, nat> {
    if fns == [] then map[]
    else TableOf(fns[..|fns| - 1])[fns[|fns| - 1].0 := fns[|fns| - 1].1]
  }

  /** Scanning a list: the first entry of a name is found. */
  function Scan(fns: seq<(string, nat)>, name: string): Option<nat> {
    if fns == [] then None
    else if fns[0].0 == name then Some(fns[0].1)
    else Scan(fns[1..], name)
  }

  function LookUp(table: map<string, nat>, name: string): Option<nat> {
    if name in table then Some(table[name]) else None
  }

  ghost predicate At(fns: seq<(string, nat)>, i: int, name: string) {
    0 <= i < |fns| && fns[i].0 == name
  }

  lemma {:induction false} TableKeepsLast(fns: seq<(string, nat)>, name: string)
    ensures match LookUp(TableOf(fns), name)
            case None => forall i :: !At(fns, i, name)
            case Some(id) => exists i :: At(fns, i, name) && fns[i].1 == id && forall j :: i < j ==> !At(fns, j, name)
  {
    if fns != [] {
      var n := |fns| - 1;
      var front := fns[..n];
      TableKeepsLast(front, name);
      assert forall i :: 0 <= i < n ==> front[i] == fns[i];
      assert forall i :: i < n ==> (At(front, i, name) <==> At(fns, i, name));
      if fns[n].0 == name {
        assert At(fns, n, name);
      } else if LookUp(TableOf(front), name).Some? {
        var i :| At(front, i, name) && front[i].1 == TableOf(front)[name] && forall j :: i < j ==> !At(front, j, name);
        assert At(fns, i, name) && fns[i].1 == TableOf(fns)[name];
        assert forall j :: i < j ==> !At(fns, j, name);
      }
    }
  }

  lemma {:induction false} ScanFindsFirst(fns: seq<(string, nat)>, name: string)
    ensures match Scan(fns, name)
            case None => forall i :: !At(fns, i, name)
            case Some(id) => exists i :: At(fns, i, name) && fns[i].1 == id && forall j :: j < i ==> !At(fns, j, name)
  {
    if fns == [] {
    } else if fns[0].0 == name {
      assert At(fns, 0, name);
    } else {
      var rest := fns[1..];
      ScanFindsFirst(rest, name);
      assert forall i :: At(fns, i, name) <==> At(rest, i - 1, name);
      if Scan(rest, name).Some? {
        var i :| At(rest, i, name) && rest[i].1 == Scan(rest, name).value && forall j :: j < i ==> !At(rest, j, name);
        assert At(fns, i + 1, name) && fns[i + 1].1 == Scan(fns, name).value;
      }
    }
  }

  ghost predicate FirstAt(fns: seq<(string, nat)>, i: int, name: string) {
    At(fns, i, name) && forall j :: j < i ==> !At(fns, j, name)
  }

  ghost predicate LastAt(fns: seq<(string, nat)>, i: int, name: string) {
    At(fns, i, name) && forall j :: i < j ==> !At(fns, j, name)
  }

  lemma ScanIs(fns: seq<(string, nat)>, i: int, name: string)
    requires FirstAt(fns, i, name)
    ensures Scan(fns, name) == Some(fns[i].1)
  {
    ScanFindsFirst(fns, name);
  }

  lemma TableIs(fns: seq<(string, nat)>, i: int, name: string)
    requires LastAt(fns, i, name)
    ensures LookUp(TableOf(fns), name) == Some(fns[i].1)
  {
    TableKeepsLast(fns, name);
  }

  /** Neither finds a name, or it has a first and a last entry. */
  lemma FoundOrAbsent(fns: seq<(string, nat)>, name: string)
    ensures || (Scan(fns, name).None? && LookUp(TableOf(fns), name).None? && forall i :: !At(fns, i, name))
            || exists i, j :: FirstAt(fns, i, name) && LastAt(fns, j, name)
  {
    ScanFindsFirst(fns, name);
    TableKeepsLast(fns, name);
    if Scan(fns, name).Some? {
      var i :| At(fns, i, name) && fns[i].1 == Scan(fns, name).value && forall j :: j < i ==> !At(fns, j, name);
      var j :| At(fns, j, name) && fns[j].1 == LookUp(TableOf(fns), name).value
               && forall k :: j < k ==> !At(fns, k, name);
      assert FirstAt(fns, i, name) && LastAt(fns, j, name);
    }
  }

  /** Table and scan agree on a name exactly when its first and its last entry carry the same id. */
  lemma TableAgreesWithScanIff(fns: seq<(string, nat)>, name: string)
    ensures LookUp(TableOf(fns), name) == Scan(fns, name)
            <==> forall i, j :: FirstAt(fns, i, name) && LastAt(fns, j, name) ==> fns[i].1 == fns[j].1
  {
    FoundOrAbsent(fns, name);
    forall i, j | FirstAt(fns, i, name) && LastAt(fns, j, name)
      ensures Scan(fns, name) == Some(fns[i].1) && LookUp(TableOf(fns), name) == Some(fns[j].1)
    {
      ScanIs(fns, i, name);
      TableIs(fns, j, name);
    }
  }

  /** No device type reuses a function name, and none is empty. */
  lemma NamesAreDistinct(a: Adapter, name: string)
    ensures forall i, j :: At(FunctionsOf(a), i, name) && At(FunctionsOf(a), j, name) ==> i == j
    ensures name == "" ==> Scan(FunctionsOf(a), name).None?
  {
    ScanFindsFirst(FunctionsOf(a), name);
    forall i, j | At(FunctionsOf(a), i, name) && At(FunctionsOf(a), j, name) ensures i == j {
      NamesDiffer(a, i, j);
    }
    if name == "" {
      forall i | At(FunctionsOf(a), i, name) ensures false {
        NamesAreNotEmpty(a, i);
      }
    }
  }

  lemma NamesAreNotEmpty(a: Adapter, i: nat)
    requires i < |FunctionsOf(a)|
    ensures FunctionsOf(a)[i].0 != ""
  {
    var fns := FunctionsOf(a);
    match a {
      case ChaosAdapter => assert i < 6;
      case TypeAdapter(_) => assert i < 4;
    }
  }

  lemma NamesDiffer(a: Adapter, i: nat, j: nat)
    requires i < |FunctionsOf(a)| && j < |FunctionsOf(a)| && FunctionsOf(a)[i].0 == FunctionsOf(a)[j].0
    ensures i == j
  {
    var fns := FunctionsOf(a);
    assert |fns[i].0| == |fns[j].0| && forall k :: 0 <= k < |fns[i].0| ==> fns[i].0[k] == fns[j].0[k];
  }

  // ---------------------------------------------------------------------------------------------
  // Registry reads and the actuator snapshot
  // ---------------------------------------------------------------------------------------------

  function ToNumber(v: Value): Option<real> {
    match v
    case DoubleValue(Finite(r)) => Some(r)
    case Int64Value(i) => Some(i as real)
    case BoolValue(b) => Some(if b then 1.0 else 0.0)
    case _ => None
  }

  /** The device reader: the path is split at its first slash and that one signal is read. */
  function DeviceAnswer(w: World, path: string, now: int, noise: nat -> real): Option<real> {
    match Split(path)
    case None => None
    case Some((dev, sig)) =>
      var out := ReadAt(w, dev, [sig], now, noise);
      if out == [] then None else ToNumber(out[0].value)
  }

  function RegistryAnswer(w: World, path: string, now: int, noise: nat -> real): Option<real> {
    if path in w.driven then Cached(w.cache, path) else DeviceAnswer(w, path, now, noise)
  }

  function TypeIn(devices: map<string, Spec>, id: string): Option<DeviceType> {
    if id in devices then TypeFromString(devices[id].typeName) else None
  }

  /** A device with a plain id is reached, and answers with its own current state while it is available. */
  lemma PlainDeviceAnswersItself(w: World, id: string, sig: string, now: int, noise: nat -> real)
    requires Coherent(w) && w.loaded && id in w.devices && '/' !in id
    ensures AdapterIn(w, id).Some?
    ensures var reading := Reading(w.fleet, AdapterIn(w, id).value, id, sig, Cached(w.cache, Join(id, sig)), noise(0));
            DeviceAnswer(w, Join(id, sig), now, noise)
            == if Unavailable(w, id, now) || reading.None? then None else ToNumber(reading.value)
  {
    SplitUndoesJoinIff(id, sig);
    SingleReading(w.fleet, AdapterIn(w, id).value, id, sig, w.cache, noise);
  }

  lemma SingleReading(f: Fleet, a: Adapter, dev: string, sig: string, cache: map<string, real>, noise: nat -> real)
    ensures Readings(f, a, dev, [sig], cache, noise)
            == match Reading(f, a, dev, sig, Cached(cache, Join(dev, sig)), noise(0))
               case None => []
               case Some(v) => [SignalValue(sig, v, false)]
  {
    var ids := [sig];
    assert ids[..0] == [];
    assert Readings(f, a, dev, ids[..0], cache, noise) == [];
  }

  /** A path of a slashed id splits inside the id and leaves a slash in the signal part. */
  lemma SplitInsideId(id: string, sig: string)
    requires '/' in id
    ensures Split(Join(id, sig)).Some? && '/' in Split(Join(id, sig)).value.1
  {
    var path := Join(id, sig);
    var j :| 0 <= j < |id| && id[j] == '/';
    assert path[j] == '/';
    var at := FirstSlash(path).value;
    assert at <= j;
    assert path[at + 1..][|id| - at - 1] == '/';
  }

  /** A device whose id holds a slash is never reached. */
  lemma SlashedDeviceIsSilent(w: World, id: string, sig: string, now: int, noise: nat -> real)
    requires '/' in id
    ensures DeviceAnswer(w, Join(id, sig), now, noise).None?
  {
    SplitInsideId(id, sig);
    var (dev, rest) := Split(Join(id, sig)).value;
    if AdapterIn(w, dev).Some? {
      var a := AdapterIn(w, dev).value;
      UnknownSignalIsNotRead(w, a, dev, rest, noise);
    }
  }

  lemma UnknownSignalIsNotRead(w: World, a: Adapter, dev: string, sig: string, noise: nat -> real)
    requires '/' in sig
    ensures Readings(w.fleet, a, dev, [sig], w.cache, noise) == []
  {
    if sig in KnownSignals(a) {
      KnownSignalsHaveNoSlash(a, sig);
    }
    SingleReading(w.fleet, a, dev, sig, w.cache, noise);
    ReadableIffKnown(w.fleet, a, dev, sig, Cached(w.cache, Join(dev, sig)), noise(0));
  }

  lemma KnownSignalsHaveNoSlash(a: Adapter, sig: string)
    requires sig in KnownSignals(a)
    ensures '/' !in sig
  {
    var known := KnownSignals(a);
    var k :| 0 <= k < |known| && known[k] == sig;
    match a {
      case ChaosAdapter =>
      case TypeAdapter(Tempctl) => assert k in {0, 1, 2, 3, 4, 5};
      case TypeAdapter(Motorctl) => assert k in {0, 1, 2, 3};
      case TypeAdapter(Relayio) => assert k in {0, 1, 2, 3, 4, 5, 6, 7};
      case TypeAdapter(Analogsensor) => assert k in {0, 1, 2, 3, 4};
    }
  }

  /** The value of an actuator as the simulation wants it. */
  function ActuatorState(f: Fleet, t: DeviceType, id: string, sig: string): real {
    var bit := (on: bool) => if on then 1.0 else 0.0;
    match t
    case Tempctl =>
      var s := TempCtl.Lookup(f.temp, id);
      bit(if sig == "relay1_state" then s.relay1 else s.relay2)
    case Motorctl =>
      var s := MotorCtl.Lookup(f.motor, id);
      if sig == "motor1_duty" then s.duty1 else s.duty2
    case Relayio =>
      var s := RelayIO.Lookup(f.relay, id);
      bit(if sig == "relay_ch1_state" then s.relay1
          else if sig == "relay_ch2_state" then s.relay2
          else if sig == "relay_ch3_state" then s.relay3
          else s.relay4)
    case Analogsensor => 0.0
  }

  lemma ActuatorReadsItsState(f: Fleet, t: DeviceType, id: string, sig: string, noise: real)
    requires sig in ActuatorsOf(t)
    ensures var reading := Reading(f, TypeAdapter(t), id, sig, None, noise);
            reading.Some? && ToNumber(reading.value) == Some(ActuatorState(f, t, id, sig))
  {
  }

  function DevicePaths(spec: Spec): seq<string> {
    match TypeFromString(spec.typeName)
    case None => []
    case Some(t) => seq(|ActuatorsOf(t)|, i requires 0 <= i < |ActuatorsOf(t)| => Join(spec.id, ActuatorsOf(t)[i]))
  }

  function ActuatorPaths(entries: seq<Spec>): seq<string> {
    if entries == [] then [] else ActuatorPaths(entries[..|entries| - 1]) + DevicePaths(entries[|entries| - 1])
  }

  /** maybe_collect_signal: paths the simulation owns are never fed back to it. */
  function Collected(w: World, path: string, now: int, noise: nat -> real): Option<real> {
    if path in w.driven then None else DeviceAnswer(w, path, now, noise)
  }

  function Snapshot(w: World, paths: seq<string>, now: int, noise: nat -> real): map<string, real> {
    map p | p in paths && Collected(w, p, now, noise).Some? :: Collected(w, p, now, noise).value
  }

  ghost predicate IsActuator(w: World, id: string, sig: string) {
    TypeIn(w.devices, id).Some? && sig in ActuatorsOf(TypeIn(w.devices, id).value)
  }

  /** What an actuator needs in order to be part of the snapshot. */
  ghost predicate Contributes(w: World, id: string, sig: string, now: int) {
    IsActuator(w, id, sig) && '/' !in id && Join(id, sig) !in w.driven && !Unavailable(w, id, now)
  }

  /** An actuator's path is collected exactly when it contributes, and then with the device's current state. */
  lemma ActuatorCollectedIff(w: World, id: string, sig: string, now: int, noise: nat -> real)
    requires Coherent(w) && w.loaded && IsActuator(w, id, sig)
    ensures Collected(w, Join(id, sig), now, noise)
            == if Contributes(w, id, sig, now)
               then Some(ActuatorState(w.fleet, TypeIn(w.devices, id).value, id, sig)) else None
  {
    if '/' in id {
      SlashedDeviceIsSilent(w, id, sig, now, noise);
    } else {
      PlainDeviceAnswersItself(w, id, sig, now, noise);
      ActuatorReadsItsState(w.fleet, TypeIn(w.devices, id).value, id, sig, noise(0));
    }
  }

  lemma {:induction false} ActuatorPathOf(entries: seq<Spec>, i: nat, p: string)
    requires i < |entries| && p in DevicePaths(entries[i])
    ensures p in ActuatorPaths(entries)
  {
    if i < |entries| - 1 {
      ActuatorPathOf(entries[..|entries| - 1], i, p);
    }
  }

  lemma {:induction false} ActuatorPathFrom(entries: seq<Spec>, p: string) returns (i: nat)
    requires p in ActuatorPaths(entries)
    ensures i < |entries| && p in DevicePaths(entries[i])
  {
    i := |entries| - 1;
    if p !in DevicePaths(entries[i]) {
      i := ActuatorPathFrom(entries[..i], p);
    }
  }

  lemma DevicePathsMembers(spec: Spec, p: string)
    ensures p in DevicePaths(spec)
            <==> TypeFromString(spec.typeName).Some?
                 && exists sig :: sig in ActuatorsOf(TypeFromString(spec.typeName).value) && p == Join(spec.id, sig)
  {
    var t := TypeFromString(spec.typeName);
    if t.Some? {
      var acts := ActuatorsOf(t.value);
      assert forall k :: 0 <= k < |acts| ==> DevicePaths(spec)[k] == Join(spec.id, acts[k]) && acts[k] in acts;
    }
  }

  /** The paths asked for are those of all actuators of all registered devices. */
  lemma AskedPaths(w: World, entries: seq<Spec>, p: string)
    requires Coherent(w) && Lists(entries, w.devices)
    ensures p in ActuatorPaths(entries) <==> exists id, sig :: IsActuator(w, id, sig) && p == Join(id, sig)
  {
    if p in ActuatorPaths(entries) {
      var i := ActuatorPathFrom(entries, p);
      assert entries[i] in entries;
      DevicePathsMembers(entries[i], p);
      var sig :| sig in ActuatorsOf(TypeFromString(entries[i].typeName).value) && p == Join(entries[i].id, sig);
      assert IsActuator(w, entries[i].id, sig);
    }
    if id, sig :| IsActuator(w, id, sig) && p == Join(id, sig) {
      assert w.devices[id] in entries;
      DevicePathsMembers(w.devices[id], p);
      var i :| 0 <= i < |entries| && entries[i] == w.devices[id];
      ActuatorPathOf(entries, i, p);
    }
  }

  /**
   * The exact snapshot: the path of every contributing actuator, with that actuator's current state, and no
   * other path.
   */
  ghost predicate IsSnapshot(w: World, snapshot: map<string, real>, now: int) {
    && (forall id, sig {:trigger Contributes(w, id, sig, now)} :: Contributes(w, id, sig, now) ==>
          && Join(id, sig) in snapshot
          && snapshot[Join(id, sig)] == ActuatorState(w.fleet, TypeIn(w.devices, id).value, id, sig))
    && (forall p :: p in snapshot ==> exists id, sig :: Contributes(w, id, sig, now) && p == Join(id, sig))
  }

  lemma SnapshotIsExact(w: World, entries: seq<Spec>, now: int, noise: nat -> real)
    requires Coherent(w) && w.loaded && Lists(entries, w.devices)
    ensures IsSnapshot(w, Snapshot(w, ActuatorPaths(entries), now, noise), now)
  {
    var snapshot := Snapshot(w, ActuatorPaths(entries), now, noise);
    forall id, sig | Contributes(w, id, sig, now)
      ensures Join(id, sig) in snapshot
      ensures snapshot[Join(id, sig)] == ActuatorState(w.fleet, TypeIn(w.devices, id).value, id, sig)
    {
      AskedPaths(w, entries, Join(id, sig));
      ActuatorCollectedIff(w, id, sig, now, noise);
    }
    forall p | p in snapshot ensures exists id, sig :: Contributes(w, id, sig, now) && p == Join(id, sig) {
      AskedPaths(w, entries, p);
      var id, sig :| IsActuator(w, id, sig) && p == Join(id, sig);
      ActuatorCollectedIff(w, id, sig, now, noise);
    }
  }

  lemma SnapshotWithin(w: World, a: map<string, real>, b: map<string, real>, now: int)
    requires IsSnapshot(w, a, now) && IsSnapshot(w, b, now)
    ensures Within(a, b)
  {
    forall p | p in a ensures p in b && a[p] == b[p] {
      var id, sig :| Contributes(w, id, sig, now) && p == Join(id, sig);
    }
  }

  predicate Within(a: map<string, real>, b: map<string, real>) {
    forall p :: p in a ==> p in b && a[p] == b[p]
  }

  lemma WithinBothWays(a: map<string, real>, b: map<string, real>)
    requires Within(a, b) && Within(b, a)
    ensures a == b
  {
  }

  /** At most one map is the snapshot of a world. */
  lemma SnapshotIsUnique(w: World, a: map<string, real>, b: map<string, real>, now: int)
    requires IsSnapshot(w, a, now) && IsSnapshot(w, b, now)
    ensures a == b
  {
    SnapshotWithin(w, a, b, now);
    SnapshotWithin(w, b, a, now);
    WithinBothWays(a, b);
  }

  // ---------------------------------------------------------------------------------------------
  // Closed-loop control and commands of the simulation
  // ---------------------------------------------------------------------------------------------

  /** One pass of update_control for a device; only temperature controllers have a loop. */
  function ControlAt(w: World, id: string, now: int, noise: nat -> real): World {
    if TypeIn(w.devices, id) != Some(Tempctl) || TempCtl.Lookup(w.fleet.temp, id).mode == TempCtl.Open then w
    else
      match RegistryAnswer(w, Join(id, "tc1_temp"), now, noise)
      case None => w
      case Some(temp) =>
        w.(fleet := w.fleet.(temp := w.fleet.temp[id := TempCtl.Control(TempCtl.Lookup(w.fleet.temp, id), temp)]))
  }

  /**
   * What the loop acts on: the published temperature where the simulation owns the path; otherwise the device's
   * own first channel, but only for a plain id and while the device is available. In all other cases the loop
   * stands still.
   */
  lemma ControlInput(w: World, id: string, now: int, noise: nat -> real)
    requires Coherent(w) && w.loaded && TypeIn(w.devices, id) == Some(Tempctl)
    ensures RegistryAnswer(w, Join(id, "tc1_temp"), now, noise)
            == if Join(id, "tc1_temp") in w.driven then Cached(w.cache, Join(id, "tc1_temp"))
               else if '/' in id || Unavailable(w, id, now) then None
               else Some(w.fleet.temp[id].tc1)
  {
    if '/' in id {
      SlashedDeviceIsSilent(w, id, "tc1_temp", now, noise);
    } else {
      PlainDeviceAnswersItself(w, id, "tc1_temp", now, noise);
    }
  }

  /** What the control loop of a device sees at one instant. */
  function ControlReading(w: World, id: string, now: int): Option<real>
    requires id in w.fleet.temp
  {
    var path := id + "/tc1_temp";
    if path in w.driven then (if path in w.cache then Some(w.cache[path]) else None)
    else if '/' in id || FI.DeviceFaulted(w.log, FI.Unavailable, id, now) then None
    else Some(w.fleet.temp[id].tc1)
  }

  /**
   * One turn of a device in the control pass: in closed mode the relays are staged for the reading, if there is one.
   * In all other cases, and for all other devices, nothing changes.
   */
  ghost predicate TurnDone(w: World, w': World, id: string, now: int)
    requires Coherent(w)
  {
    if TypeIn(w.devices, id) != Some(Tempctl) then w' == w
    else
      var s, reading := w.fleet.temp[id], ControlReading(w, id, now);
      if s.mode == TempCtl.Open || reading.None? then w' == w
      else
        && id in w'.fleet.temp && TempCtl.StagedFor(s, w'.fleet.temp[id], reading.value)
        && w' == w.(fleet := w.fleet.(temp := w.fleet.temp[id := w'.fleet.temp[id]]))
  }

  lemma TurnStages(w: World, id: string, now: int, noise: nat -> real)
    requires Coherent(w) && w.loaded
    ensures TurnDone(w, ControlAt(w, id, now, noise), id, now)
  {
    if TypeIn(w.devices, id) == Some(Tempctl) {
      assert Join(id, "tc1_temp") == id + "/tc1_temp";
      ControlInput(w, id, now, noise);
      var reading := ControlReading(w, id, now);
      if reading.Some? {
        TempCtl.ControlStages(w.fleet.temp[id], reading.value);
      }
    }
  }

  function ToValue(v: FC.CommandValue): Value {
    match v
    case DoubleVal(d) => DoubleValue(Finite(d))
    case IntVal(i) => Int64Value(i)
    case BoolVal(b) => BoolValue(b)
    case StringVal(s) => StringValue(s)
  }

  function ToArgs(args: map<string, FC.CommandValue>): Args {
    map k | k in args :: ToValue(args[k])
  }

  /** A command's arguments reach the call with the types and values they had on the wire; unset ones do not. */
  lemma ArgumentsArrive(c: FC.WireCommand, key: string)
    ensures FC.Converted(c).device == c.device && FC.Converted(c).function_ == c.function_
    ensures var args := ToArgs(FC.Converted(c).args);
            if key !in c.args || c.args[key].WireNotSet? then key !in args
            else
              match c.args[key]
              case WireDouble(d) => ArgDouble(args, key) == Some(Finite(d))
              case WireInt(i) => ArgInt64(args, key) == Some(i)
              case WireBool(b) => ArgBool(args, key) == Some(b)
              case WireString(s) => ArgString(args, key) == Some(s)
  {
  }

  /** And no command is lost, repeated or moved. */
  lemma {:induction false} CommandsArriveInOrder(cs: seq<FC.WireCommand>, i: nat)
    requires i < |cs|
    ensures |FC.ConvertedAll(cs)| == |cs| && FC.ConvertedAll(cs)[i] == FC.Converted(cs[i])
  {
    var n := |cs| - 1;
    if i < n {
      CommandsArriveInOrder(cs[..n], i);
    } else if n > 0 {
      CommandsArriveInOrder(cs[..n], 0);
    }
  }

  /** The functions of each type, by the names that commands and requests use. */
  lemma FunctionsByName()
    ensures FunctionsOf(TypeAdapter(Tempctl)) == [("set_mode", 1), ("set_setpoint", 2), ("set_relay", 3)]
    ensures FunctionsOf(TypeAdapter(Motorctl)) == [("set_motor_duty", 1)]
    ensures FunctionsOf(TypeAdapter(Relayio))
            == [("set_relay_ch1", 1), ("set_relay_ch2", 2), ("set_relay_ch3", 3), ("set_relay_ch4", 4)]
    ensures FunctionsOf(TypeAdapter(Analogsensor)) == [("calibrate_channel", 1), ("inject_noise", 2)]
    ensures FunctionsOf(ChaosAdapter)
            == [("inject_device_unavailable", 1), ("inject_signal_fault", 2), ("inject_call_latency", 3),
                ("inject_call_failure", 4), ("clear_faults", 5), ("inject_device_unreachable", 6)]
  {
  }

  type NameCache = map<string, map<string, nat>>

  /** A command reaches call_function exactly when its device and function are in the name cache. */
  function CommandAt(w: World, names: NameCache, cmd: FC.Command, now: int, m: Moment): Effect {
    if cmd.device in names && cmd.function_ in names[cmd.device]
    then CallAt(w, cmd.device, names[cmd.device][cmd.function_], ToArgs(cmd.args), now, m)
    else Effect(w, CodeNotFound, now)
  }

  /** The commands of one tick, executed in order, each once. */
  function CommandsAt(w: World, names: NameCache, cmds: seq<FC.Command>, now: int, ms: nat -> Moment): Effect {
    if cmds == [] then Effect(w, CodeOk, now)
    else
      var n := |cmds| - 1;
      var before := CommandsAt(w, names, cmds[..n], now, ms);
      CommandAt(before.world, names, cmds[n], before.end, ms(n))
  }

  // ---------------------------------------------------------------------------------------------
  // The manager
  // ---------------------------------------------------------------------------------------------

  /** Every cached table is the function list of the device it stands for. */
  ghost predicate NamesCurrent(w: World, names: NameCache) {
    forall d :: d in names ==> AdapterIn(w, d).Some? && names[d] == TableOf(FunctionsOf(AdapterIn(w, d).value))
  }

  /** list_devices: the registered, available devices once each, then the control device. */
  ghost predicate ListingOf(w: World, now: int, ids: seq<string>) {
    if !w.loaded then ids == []
    else
      && ids != [] && ids[|ids| - 1] == ChaosControl.DEVICE_ID
      && (forall id :: id in ids[..|ids| - 1] <==> id in w.devices && !Unavailable(w, id, now))
      && forall i, j :: 0 <= i < j < |ids| ==> ids[i] != ids[j]
  }

  /** The loop of list_devices over the registered entries. */
  function AvailableIds(w: World, entries: seq<Spec>, now: int): seq<string> {
    if entries == [] then []
    else
      var front, id := AvailableIds(w, entries[..|entries| - 1], now), entries[|entries| - 1].id;
      if Unavailable(w, id, now) then front else front + [id]
  }

  lemma {:induction false} AvailableIdsMembers(w: World, entries: seq<Spec>, now: int)
    requires UniqueIds(entries)
    ensures forall id :: id in AvailableIds(w, entries, now)
              <==> !Unavailable(w, id, now) && exists i :: 0 <= i < |entries| && entries[i].id == id
    ensures var ids := AvailableIds(w, entries, now); forall i, j :: 0 <= i < j < |ids| ==> ids[i] != ids[j]
  {
    if entries != [] {
      var n := |entries| - 1;
      AvailableIdsMembers(w, entries[..n], now);
      assert forall i :: 0 <= i < n ==> entries[..n][i].id == entries[i].id != entries[n].id;
      assert entries[n].id !in AvailableIds(w, entries[..n], now);
    }
  }

  lemma ListingIsExact(w: World, entries: seq<Spec>, now: int)
    requires Coherent(w) && w.loaded && Lists(entries, w.devices)
    ensures ListingOf(w, now, AvailableIds(w, entries, now) + [ChaosControl.DEVICE_ID])
  {
    var ids := AvailableIds(w, entries, now);
    AvailableIdsMembers(w, entries, now);
    forall id ensures id in ids <==> id in w.devices && !Unavailable(w, id, now) {
      if id in w.devices {
        assert w.devices[id] in entries;
      }
      if id in ids {
        var i :| 0 <= i < |entries| && entries[i].id == id;
        assert entries[i] in entries;
      }
    }
    assert (ids + [ChaosControl.DEVICE_ID])[..|ids|] == ids;
  }

  /** The loop of cache_device_capabilities over the listed ids. */
  function TablesOf(w: World, ids: seq<string>, now: int): NameCache {
    if ids == [] then map[]
    else
      var front, d := TablesOf(w, ids[..|ids| - 1], now), ids[|ids| - 1];
      if FunctionsAt(w, d, now) == [] then front else front[d := TableOf(FunctionsAt(w, d, now))]
  }

  lemma {:induction false} TablesAreCurrent(w: World, ids: seq<string>, now: int)
    ensures NamesCurrent(w, TablesOf(w, ids, now))
    ensures forall d :: d in TablesOf(w, ids, now) <==> d in ids && FunctionsAt(w, d, now) != []
  {
    if ids != [] {
      TablesAreCurrent(w, ids[..|ids| - 1], now);
      assert ids == ids[..|ids| - 1] + [ids[|ids| - 1]];
    }
  }

  function FunctionsAt(w: World, dev: string, now: int): seq<(string, nat)> {
    if Unavailable(w, dev, now) || AdapterIn(w, dev).None? then [] else FunctionsOf(AdapterIn(w, dev).value)
  }

  lemma ListedHaveFunctions(w: World, ids: seq<string>, now: int)
    requires Coherent(w) && ListingOf(w, now, ids)
    ensures forall d :: d in ids && FunctionsAt(w, d, now) != [] <==> w.loaded && FunctionsAt(w, d, now) != []
  {
    if w.loaded {
      var n := |ids| - 1;
      assert ids == ids[..n] + [ids[n]];
      forall d | FunctionsAt(w, d, now) != [] ensures d in ids {
        assert d == ChaosControl.DEVICE_ID || d in w.devices;
      }
    }
  }

  method WriteAll(registry: Registry, sensors: map<string, real>)
    requires registry.Valid()
    modifies registry
    ensures registry.Valid()
    ensures registry.driven == old(registry.driven) + sensors.Keys
    ensures registry.cache == old(registry.cache) + sensors
  {
    var rest := sensors.Keys;
    while rest != {}
      invariant rest <= sensors.Keys && registry.Valid()
      invariant registry.driven == old(registry.driven) + (sensors.Keys - rest)
      invariant registry.cache == old(registry.cache) + (sensors - rest)
      decreases |rest|
    {
      var path :| path in rest;
      WritesOneMore(old(registry.driven), old(registry.cache), sensors, rest, path);
      registry.WriteSignal(path, sensors[path]);
      rest := rest - {path};
    }
    assert sensors - {} == sensors;
  }

  lemma WritesOneMore(driven: set<string>, cache: map<string, real>, sensors: map<string, real>, rest: set<string>,
                      path: string)
    requires path in rest && rest <= sensors.Keys
    ensures driven + (sensors.Keys - rest) + {path} == driven + (sensors.Keys - (rest - {path}))
    ensures (cache + (sensors - rest))[path := sensors[path]] == cache + (sensors - (rest - {path}))
  {
  }

  class Manager {
    const factory: Factory
    const faults: FI.FaultStore
    const registry: Registry
    var functionIds: NameCache
    var physicsOutputs: seq<string>
    var ambient: Option<(string, real)>
    var mode: Mode

    ghost function Shared(): World
      reads factory, factory.temp, factory.motor, factory.relay, factory.analog, faults, registry
    {
      World(factory.States(), factory.registry, factory.configLoaded, registry.driven, registry.cache, faults.log)
    }

    ghost predicate Valid()
      reads this, factory, factory.temp, factory.motor, factory.relay, factory.analog, faults, registry
    {
      Coherent(Shared()) && faults.Valid() && NamesCurrent(Shared(), functionIds)
    }

    constructor (factory: Factory, faults: FI.FaultStore, registry: Registry)
      requires factory.Valid() && faults.Valid() && registry.Valid()
      requires ChaosControl.DEVICE_ID !in factory.registry
      ensures Valid() && functionIds == map[] && physicsOutputs == [] && ambient == None && mode == Inert
      ensures this.factory == factory && this.faults == faults && this.registry == registry
    {
      this.factory, this.faults, this.registry := factory, faults, registry;
      functionIds, physicsOutputs, ambient, mode := map[], [], None, Inert;
    }

    method IsUnavailable(dev: string, now: int) returns (unavailable: bool)
      requires Valid() && faults.clock <= now
      modifies faults
      ensures Valid() && faults.clock <= now && Shared() == old(Shared())
      ensures unavailable == Unavailable(Shared(), dev, now)
    {
      unavailable := faults.IsDeviceUnavailable(dev, now);
    }

    method ListDevices(now: int) returns (ids: seq<string>)
      requires Valid() && faults.clock <= now
      modifies faults
      ensures Valid() && faults.clock <= now && Shared() == old(Shared())
      ensures ListingOf(Shared(), now, ids)
    {
      ids := [];
      if factory.configLoaded {
        var entries := factory.GetRegisteredDevices();
        for i := 0 to |entries|
          invariant Valid() && faults.clock <= now && Shared() == old(Shared())
          invariant ids == AvailableIds(Shared(), entries[..i], now)
        {
          assert entries[i] in entries && entries[..i + 1][..i] == entries[..i];
          var id := entries[i].id;
          var unavailable := IsUnavailable(id, now);
          if !unavailable {
            var adapter := factory.AdapterById(id);
            if adapter.Some? {
              ids := ids + [id];
            }
          }
        }
        assert entries[..|entries|] == entries;
        ListingIsExact(Shared(), entries, now);
        ids := ids + [ChaosControl.DEVICE_ID];
      }
    }

    method DescribeDevice(dev: string, now: int) returns (functions: seq<(string, nat)>)
      requires Valid() && faults.clock <= now
      modifies faults
      ensures Valid() && faults.clock <= now && Shared() == old(Shared())
      ensures functions == FunctionsAt(Shared(), dev, now)
    {
      var unavailable := IsUnavailable(dev, now);
      if unavailable {
        return [];
      }
      var adapter := factory.AdapterById(dev);
      if adapter.None? {
        return [];
      }
      return FunctionsOf(adapter.value);
    }

    /** Afterwards the cache covers exactly the listed devices, each with the table of its functions. */
    method CacheDeviceCapabilities(now: int)
      requires Valid() && faults.clock <= now
      modifies this`functionIds, faults
      ensures Valid() && faults.clock <= now && Shared() == old(Shared())
      ensures forall d :: d in functionIds <==> Shared().loaded && FunctionsAt(Shared(), d, now) != []
    {
      functionIds := map[];
      var ids := ListDevices(now);
      for i := 0 to |ids|
        invariant Valid() && faults.clock <= now && Shared() == old(Shared())
        invariant functionIds == TablesOf(Shared(), ids[..i], now)
      {
        assert ids[..i + 1][..i] == ids[..i];
        TablesAreCurrent(Shared(), ids[..i], now);
        TablesAreCurrent(Shared(), ids[..i + 1], now);
        var functions := DescribeDevice(ids[i], now);
        CacheFunctions(ids[i], functions);
      }
      assert ids[..|ids|] == ids;
      TablesAreCurrent(Shared(), ids, now);
      ListedHaveFunctions(Shared(), ids, now);
    }

    /** The inner loop: the table of one device is filled entry by entry. */
    method CacheFunctions(dev: string, functions: seq<(string, nat)>)
      requires dev !in functionIds
      modifies this`functionIds
      ensures functionIds == if functions == [] then old(functionIds) else old(functionIds)[dev := TableOf(functions)]
    {
      for j := 0 to |functions|
        invariant functionIds == if j == 0 then old(functionIds) else old(functionIds)[dev := TableOf(functions[..j])]
      {
        assert functions[..j + 1][..j] == functions[..j];
        var table := if dev in functionIds then functionIds[dev] else map[];
        functionIds := functionIds[dev := table[functions[j].0 := functions[j].1]];
      }
      assert functions[..|functions|] == functions;
    }

    /**
     * Name resolution agrees with a linear scan of the device's capabilities whenever the device is cached or
     * available; a cached device keeps resolving while it is unavailable.
     */
    method ResolveFunctionId(dev: string, name: string, now: int) returns (id: Option<nat>)
      requires Valid() && faults.clock <= now
      modifies faults
      ensures Valid() && faults.clock <= now && Shared() == old(Shared())
      ensures id == if dev == "" || AdapterIn(Shared(), dev).None? then None
                    else if dev !in functionIds && Unavailable(Shared(), dev, now) then None
                    else Scan(FunctionsOf(AdapterIn(Shared(), dev).value), name)
    {
      if AdapterIn(Shared(), dev).Some? {
        NamesAreDistinct(AdapterIn(Shared(), dev).value, name);
        TableAgreesWithScanIff(FunctionsOf(AdapterIn(Shared(), dev).value), name);
      }
      if dev == "" || name == "" {
        return None;
      }
      if dev in functionIds && name in functionIds[dev] {
        return Some(functionIds[dev][name]);
      }
      var functions := DescribeDevice(dev, now);
      id := ScanFunctions(functions, name);
    }

    method ScanFunctions(functions: seq<(string, nat)>, name: string) returns (id: Option<nat>)
      ensures id == Scan(functions, name)
    {
      for i := 0 to |functions|
        invariant Scan(functions, name) == Scan(functions[i..], name)
      {
        if functions[i].0 == name {
          return Some(functions[i].1);
        }
      }
      return None;
    }

    method ReadSignals(dev: string, ids: seq<string>, now: int, noise: nat -> real) returns (out: seq<SignalValue>)
      requires Valid() && faults.clock <= now
      modifies faults
      ensures Valid() && faults.clock <= now && Shared() == old(Shared())
      ensures out == ReadAt(Shared(), dev, ids, now, noise)
    {
      var unavailable := IsUnavailable(dev, now);
      if unavailable {
        return [];
      }
      var adapter := factory.AdapterById(dev);
      if adapter.None? {
        return [];
      }
      out := DeviceAdapter.ReadSignals(factory, registry, adapter.value, dev, ids, noise);
      out := StampFaults(dev, out, now);
    }

    method StampFaults(dev: string, values: seq<SignalValue>, now: int) returns (out: seq<SignalValue>)
      requires Valid() && faults.clock <= now
      modifies faults
      ensures Valid() && faults.clock <= now && Shared() == old(Shared())
      ensures out == Stamped(values, Shared().log, dev, now)
    {
      out := values;
      for i := 0 to |values|
        invariant Valid() && faults.clock <= now && Shared() == old(Shared())
        invariant |out| == |values|
        invariant out[..i] == Stamped(values, faults.log, dev, now)[..i] && out[i..] == values[i..]
      {
        ghost var before := out;
        assert before[i..] == values[i..];
        var faulted := faults.IsSignalFaulted(dev, out[i].sig, now);
        if faulted {
          out := out[i := out[i].(faulty := true)];
        }
        assert out[i + 1..] == before[i..][1..] == values[i + 1..];
        assert out[..i + 1] == before[..i] + [out[i]];
      }
    }

    /** The device reader that initialize_physics installs in the registry. */
    method ReadDevice(path: string, now: int, noise: nat -> real) returns (value: Option<real>)
      requires Valid() && faults.clock <= now
      modifies faults
      ensures Valid() && faults.clock <= now && Shared() == old(Shared())
      ensures value == DeviceAnswer(Shared(), path, now, noise)
    {
      var parts := Split(path);
      if parts.None? {
        return None;
      }
      var (dev, sig) := parts.value;
      var signals := ReadSignals(dev, [sig], now, noise);
      if signals == [] {
        return None;
      }
      return ToNumber(signals[0].value);
    }

    /** The whole of the registry's read_signal: its locked section, then the device reader where needed. */
    method ReadThrough(path: string, now: int, noise: nat -> real) returns (value: Option<real>)
      requires Valid() && faults.clock <= now
      modifies faults
      ensures Valid() && faults.clock <= now && Shared() == old(Shared())
      ensures value == RegistryAnswer(Shared(), path, now, noise)
    {
      var l := registry.ReadSection(path);
      match l
      case Published(v) => return v;
      case AskDevice => value := ReadDevice(path, now, noise);
    }

    method MaybeCollect(path: string, now: int, noise: nat -> real) returns (value: Option<real>)
      requires Valid() && faults.clock <= now
      modifies faults
      ensures Valid() && faults.clock <= now && Shared() == old(Shared())
      ensures value == Collected(Shared(), path, now, noise)
    {
      var driven := registry.IsPhysicsDriven(path);
      if driven {
        return None;
      }
      value := ReadThrough(path, now, noise);
    }

    method CollectPaths(paths: seq<string>, signals: map<string, real>, now: int, noise: nat -> real,
                        ghost done: seq<string>)
      returns (out: map<string, real>)
      requires Valid() && faults.clock <= now && signals == Snapshot(Shared(), done, now, noise)
      modifies faults
      ensures Valid() && faults.clock <= now && Shared() == old(Shared())
      ensures out == Snapshot(Shared(), done + paths, now, noise)
    {
      out := signals;
      assert done + paths[..0] == done;
      for i := 0 to |paths|
        invariant Valid() && faults.clock <= now && Shared() == old(Shared())
        invariant out == Snapshot(Shared(), done + paths[..i], now, noise)
      {
        var value := MaybeCollect(paths[i], now, noise);
        SnapshotGrows(Shared(), done + paths[..i], paths[i], now, noise);
        assert done + paths[..i + 1] == done + paths[..i] + [paths[i]];
        if value.Some? {
          out := out[paths[i] := value.value];
        }
      }
      assert paths[..|paths|] == paths;
    }

    /** The actuator snapshot, path by path over the registered devices. */
    method CollectActuatorSignals(now: int, noise: nat -> real) returns (signals: map<string, real>)
      requires Valid() && faults.clock <= now
      modifies faults
      ensures Valid() && faults.clock <= now && Shared() == old(Shared())
      ensures factory.configLoaded ==> IsSnapshot(Shared(), signals, now)
    {
      signals := map[];
      var entries := factory.GetRegisteredDevices();
      for i := 0 to |entries|
        invariant Valid() && faults.clock <= now && Shared() == old(Shared())
        invariant signals == Snapshot(Shared(), ActuatorPaths(entries[..i]), now, noise)
      {
        assert entries[..i + 1][..i] == entries[..i];
        signals := CollectPaths(DevicePaths(entries[i]), signals, now, noise, ActuatorPaths(entries[..i]));
      }
      assert entries[..|entries|] == entries;
      if factory.configLoaded {
        SnapshotIsExact(Shared(), entries, now, noise);
      }
    }

    /** First half of call_function: an unavailable device refuses, any other makes the caller sleep its latency. */
    method StartCall(dev: string, now: int, delay: nat) returns (refused: bool, end: int)
      requires Valid() && faults.clock <= now
      modifies faults
      ensures Valid() && faults.clock <= now <= end && Shared() == old(Shared())
      ensures refused <==> Unavailable(Shared(), dev, now)
      ensures end == if refused then now else Wake(Shared().log, dev, now, delay)
    {
      end := now;
      refused := IsUnavailable(dev, now);
      if refused {
        return;
      }
      var latencyMs := faults.GetCallLatency(dev);
      if latencyMs > 0 {
        end := now + latencyMs * FI.NS_PER_MS + delay;
      }
    }

    /** Second half, on whatever state the sleep has left: the failure rule, then the adapter. */
    method FinishCall(dev: string, functionId: nat, args: Args, now: int, sample: real) returns (code: Code)
      requires Valid() && faults.clock <= now
      modifies factory.temp, factory.motor, factory.relay, factory.analog, faults
      ensures Valid() && faults.clock <= now
      ensures (Shared(), code) == FinishAt(old(Shared()), dev, functionId, args, now, sample)
    {
      FinishKeepsCoherence(Shared(), dev, functionId, args, now, sample);
      var fail := faults.ShouldCallFail(dev, ChaosControl.Decimal(functionId), sample);
      if fail {
        return CodeInvalidArgument;
      }
      var adapter := factory.AdapterById(dev);
      match adapter
      case None => return CodeNotFound;
      case Some(ChaosAdapter) => code := ChaosControl.CallFunction(faults, functionId, args, now);
      case Some(TypeAdapter(t)) => code := DeviceAdapter.CallFunction(factory, t, dev, functionId, args);
    }

    method CallFunction(dev: string, functionId: nat, args: Args, now: int, m: Moment) returns (code: Code, end: int)
      requires Valid() && faults.clock <= now
      modifies factory.temp, factory.motor, factory.relay, factory.analog, faults
      ensures Valid() && faults.clock <= end && now <= end
      ensures Effect(Shared(), code, end) == CallAt(old(Shared()), dev, functionId, args, now, m)
    {
      var refused;
      refused, end := StartCall(dev, now, m.delay);
      if refused {
        return CodeInvalidArgument, end;
      }
      code := FinishCall(dev, functionId, args, end, m.sample);
    }

    /** Commands are looked up in the name cache only; an unknown one changes nothing. */
    method ExecuteEngineCommand(cmd: FC.Command, now: int, m: Moment) returns (end: int)
      requires Valid() && faults.clock <= now
      modifies factory.temp, factory.motor, factory.relay, factory.analog, faults
      ensures Valid() && faults.clock <= end
      ensures Shared() == CommandAt(old(Shared()), functionIds, cmd, now, m).world
      ensures end == CommandAt(old(Shared()), functionIds, cmd, now, m).end
    {
      end := now;
      if cmd.device !in functionIds {
        return;
      }
      var names := functionIds[cmd.device];
      if cmd.function_ !in names {
        return;
      }
      var code;
      code, end := CallFunction(cmd.device, names[cmd.function_], ToArgs(cmd.args), now, m);
    }

    /** The commands of a tick, in order, each once. */
    method ExecuteCommands(cmds: seq<FC.Command>, now: int, ms: nat -> Moment) returns (end: int)
      requires Valid() && faults.clock <= now
      modifies factory.temp, factory.motor, factory.relay, factory.analog, faults
      ensures Valid() && faults.clock <= end
      ensures Shared() == CommandsAt(old(Shared()), functionIds, cmds, now, ms).world
      ensures end == CommandsAt(old(Shared()), functionIds, cmds, now, ms).end
    {
      end := now;
      for i := 0 to |cmds|
        invariant Valid() && faults.clock <= end
        invariant Shared() == CommandsAt(old(Shared()), functionIds, cmds[..i], now, ms).world
        invariant end == CommandsAt(old(Shared()), functionIds, cmds[..i], now, ms).end
      {
        assert cmds[..i + 1][..i] == cmds[..i];
        end := ExecuteEngineCommand(cmds[i], end, ms(i));
      }
      assert cmds[..|cmds|] == cmds;
    }

    /** One device's turn in the control pass: mode check, registry read, re-check and write. */
    method UpdateControl(id: string, now: int, noise: nat -> real)
      requires Valid() && faults.clock <= now && id in factory.registry
      modifies factory.temp, faults
      ensures Valid() && faults.clock <= now
      ensures Shared() == ControlAt(old(Shared()), id, now, noise)
      ensures factory.configLoaded ==> TurnDone(old(Shared()), Shared(), id, now)
    {
      if factory.configLoaded {
        TurnStages(Shared(), id, now, noise);
      }
      if TypeIn(factory.registry, id) != Some(Tempctl) {
        return;
      }
      var closed := LoopClosed(id);
      if !closed {
        return;
      }
      var temp := ReadThrough(Join(id, "tc1_temp"), now, noise);
      if temp.None? {
        return;
      }
      ApplyLoop(id, temp.value);
    }

    method LoopClosed(id: string) returns (closed: bool)
      requires Valid() && TypeIn(factory.registry, id) == Some(Tempctl)
      modifies factory.temp
      ensures Valid() && Shared() == old(Shared())
      ensures closed <==> TempCtl.Lookup(Shared().fleet.temp, id).mode == TempCtl.Closed
    {
      closed := factory.temp.ControlEnabled(id);
    }

    method ApplyLoop(id: string, temp: real)
      requires Valid() && TypeIn(factory.registry, id) == Some(Tempctl)
      requires TempCtl.Lookup(Shared().fleet.temp, id).mode == TempCtl.Closed
      modifies factory.temp
      ensures Valid()
      ensures var w := old(Shared());
              Shared() == w.(fleet := w.fleet.(
                temp := w.fleet.temp[id := TempCtl.Control(TempCtl.Lookup(w.fleet.temp, id), temp)]))
    {
      factory.temp.ApplyControl(id, temp);
    }

    /** Every sensor value of a tick enters the registry and makes its path physics-driven. */
    method PublishSensors(sensors: map<string, real>)
      requires Valid()
      modifies registry
      ensures Valid()
      ensures Shared() == old(Shared()).(driven := old(Shared()).driven + sensors.Keys,
                                         cache := old(Shared()).cache + sensors)
    {
      WriteAll(registry, sensors);
    }

    /** Only in sim mode: the paths the engine drives that belong to an active device are marked beforehand. */
    method RebuildPhysicsOutputPaths(enginePaths: seq<string>, activeIds: seq<string>)
      requires Valid()
      modifies this`physicsOutputs, registry
      ensures Valid()
      ensures physicsOutputs == if mode == Sim then OwnedPaths(enginePaths, set id | id in activeIds) else []
      ensures Shared() == old(Shared()).(driven := old(Shared()).driven + set p | p in physicsOutputs)
    {
      physicsOutputs := [];
      if mode != Sim {
        return;
      }
      var known := set id | id in activeIds;
      for i := 0 to |enginePaths|
        invariant registry.Valid() && registry.cache == old(registry.cache)
        invariant physicsOutputs == OwnedPaths(enginePaths[..i], known)
        invariant registry.driven == old(registry.driven) + set p | p in physicsOutputs
      {
        assert enginePaths[..i + 1][..i] == enginePaths[..i];
        var path := enginePaths[i];
        var slash := FirstSlash(path);
        if slash.Some? && path[..slash.value] in known {
          physicsOutputs := physicsOutputs + [path];
          registry.MarkPhysicsDriven(path);
        }
      }
      assert enginePaths[..|enginePaths|] == enginePaths;
    }

    /** The ambient input exists in sim mode only, with a default path; an empty path is a configuration error. */
    method ConfigureInputs(temp: Option<real>, path: Option<string>) returns (ok: bool)
      modifies this`ambient
      ensures ok <==> !(mode == Sim && temp.Some? && path == Some(""))
      ensures ambient == if ok && mode == Sim && temp.Some? then Some((path.GetOr(AMBIENT_PATH), temp.value)) else None
    {
      ambient := None;
      if mode != Sim || temp.None? {
        return true;
      }
      var ambientPath := AMBIENT_PATH;
      if path.Some? {
        ambientPath := path.value;
      }
      if ambientPath == "" {
        return false;
      }
      ambient := Some((ambientPath, temp.value));
      return true;
    }

    /** On a fresh registry; afterwards exactly the engine's paths of active devices are physics-driven. */
    method InitializePhysics(simMode: Mode, ambientTemp: Option<real>, ambientPath: Option<string>,
                             enginePaths: seq<string>, activeIds: seq<string>, now: int)
      returns (ok: bool)
      requires Valid() && faults.clock <= now && registry.driven == {}
      modifies this, registry, faults
      ensures Valid() && faults.clock <= now && mode == simMode
      ensures ok <==> !(simMode == Sim && ambientTemp.Some? && ambientPath == Some(""))
      ensures ok ==> physicsOutputs == if mode == Sim then OwnedPaths(enginePaths, set id | id in activeIds) else []
      ensures ok ==> registry.driven == set p | p in physicsOutputs
      ensures ok ==> forall d :: d in functionIds <==> Shared().loaded && FunctionsAt(Shared(), d, now) != []
      ensures ok && mode == Sim && ambientTemp.Some? ==>
                ambient == Some((ambientPath.GetOr(AMBIENT_PATH), ambientTemp.value))
      ensures !(mode == Sim && ambientTemp.Some?) ==> ambient == None
      ensures Shared() == old(Shared()).(driven := registry.driven)
    {
      mode := simMode;
      ok := ConfigureInputs(ambientTemp, ambientPath);
      if !ok {
        return;
      }
      CacheDeviceCapabilities(now);
      RebuildPhysicsOutputPaths(enginePaths, activeIds);
      assert registry.driven == set p | p in physicsOutputs;
    }
  }

  /** What the ticker sends: the snapshot, overridden unconditionally by the ambient input in sim mode. */
  function WithAmbient(mode: Mode, ambient: Option<(string, real)>, snapshot: map<string, real>): map<string, real> {
    if mode == Sim && ambient.Some? then snapshot[ambient.value.0 := ambient.value.1] else snapshot
  }

  /** The ambient input stands at its path, and every other path is as in the snapshot. */
  ghost predicate Overridden(sent: map<string, real>, snapshot: map<string, real>, ambient: Option<(string, real)>) {
    && (ambient.Some? ==> ambient.value.0 in sent && sent[ambient.value.0] == ambient.value.1)
    && forall p :: ambient.None? || p != ambient.value.0 ==>
         (p in sent <==> p in snapshot) && (p in sent ==> sent[p] == snapshot[p])
  }

  lemma AmbientOverrides(ambient: Option<(string, real)>, snapshot: map<string, real>)
    ensures Overridden(WithAmbient(Sim, ambient, snapshot), snapshot, ambient)
  {
  }

  lemma SnapshotGrows(w: World, paths: seq<string>, path: string, now: int, noise: nat -> real)
    ensures Snapshot(w, paths + [path], now, noise)
            == var value := Collected(w, path, now, noise);
               var before := Snapshot(w, paths, now, noise);
               if value.Some? then before[path := value.value] else before
  {
  }
}