/** The provider runtime (src/core/sim_provider_runtime.cpp): the gates in front of the device manager. */
module SimProviderRuntime {
  import opened Basics
  import opened DeviceFactory
  import opened DeviceAdapter
  import opened DeviceManager
  import FI = FaultInjection
  import AnalogSensor
  import ChaosControl
  import MotorCtl
  import RelayIO
  import TempCtl

  predicate HasDeviceAt(w: World, id: string, now: int) {
    !Unavailable(w, id, now) && AdapterIn(w, id).Some?
  }

  /**
   * The listing and the existence gate agree on every device except the control device, which stays listed
   * while it is itself faulted and answers the gate even without a configuration.
   */
  lemma GatesAgreeExceptOnControl(w: World, now: int, ids: seq<string>, id: string)
    requires Coherent(w) && ListingOf(w, now, ids)
    ensures id != ChaosControl.DEVICE_ID ==> (id in ids <==> HasDeviceAt(w, id, now))
    ensures ChaosControl.DEVICE_ID in ids <==> w.loaded
    ensures HasDeviceAt(w, ChaosControl.DEVICE_ID, now) <==> !Unavailable(w, ChaosControl.DEVICE_ID, now)
  {
    if w.loaded {
      var n := |ids| - 1;
      assert ids == ids[..n] + [ids[n]];
    }
  }

  datatype ReadResult = ReadResult(code: Code, values: seq<SignalValue>)

  predicate Unreachable(w: World, dev: string, now: int) {
    FI.DeviceFaulted(w.log, FI.Unreachable, dev, now)
  }

  function RuntimeCallAt(w: World, dev: string, functionId: nat, args: Args, now: int, m: Moment): Effect {
    if Unreachable(w, dev, now) then Effect(w, CodeUnavailable, now) else CallAt(w, dev, functionId, args, now, m)
  }

  /** What the device of this type answers, and that only its own state changes. */
  ghost predicate AnsweredByDevice(w: World, w': World, code: Code, t: DeviceType, dev: string, functionId: nat,
                                   args: Args)
    requires HoldsState(w.fleet, dev, t)
  {
    var f, f' := w.fleet, w'.fleet;
    && w' == w.(fleet := f')
    && match t
       case Tempctl =>
         var (s, answer) := TempCtl.Call(f.temp[dev], functionId, args);
         code == answer && f' == f.(temp := f.temp[dev := s])
       case Motorctl =>
         var (s, answer) := MotorCtl.Call(f.motor[dev], functionId, args);
         code == answer && f' == f.(motor := f.motor[dev := s])
       case Relayio =>
         var (s, answer) := RelayIO.Call(f.relay[dev], functionId, args);
         code == answer && f' == f.(relay := f.relay[dev := s])
       case Analogsensor =>
         var (s, answer) := AnalogSensor.Call(f.analog[dev], functionId, args);
         code == answer && f' == f.(analog := f.analog[dev := s])
  }

  /** The injected latency in nanoseconds, with whatever the sleep takes longer. */
  function Slept(latency: Option<int>, delay: nat): int {
    if latency.Some? && latency.value > 0 then latency.value * 1_000_000 + delay else 0
  }

  /**
   * Which of the conditions in front of a call decides: unreachability, then unavailability, both at once and without
   * any sleep; then, after the full latency, the failure rule; then the control device or the device itself, and an
   * unknown id last.
   */
  lemma CallByConditions(w: World, dev: string, functionId: nat, args: Args, now: int, m: Moment)
    requires Coherent(w)
    ensures var effect := RuntimeCallAt(w, dev, functionId, args, now, m);
            var unreachable := FI.DeviceFaulted(w.log, FI.Unreachable, dev, now);
            var unavailable := FI.DeviceFaulted(w.log, FI.Unavailable, dev, now);
            var fails := FI.CallFails(w.log, dev, ChaosControl.Decimal(functionId), m.sample);
            var slept := Slept(FI.LastLatency(w.log, dev), m.delay);
            && effect.end == now + (if unreachable || unavailable then 0 else slept)
            && (unreachable <==> effect.code == CodeUnavailable)
            && (!unreachable && (unavailable || fails) ==> effect.code == CodeInvalidArgument)
            && (unreachable || unavailable || fails ==> effect.world == w)
    ensures var effect := RuntimeCallAt(w, dev, functionId, args, now, m);
            && !FI.DeviceFaulted(w.log, FI.Unreachable, dev, now) && !FI.DeviceFaulted(w.log, FI.Unavailable, dev, now)
            && !FI.CallFails(w.log, dev, ChaosControl.Decimal(functionId), m.sample) ==>
              if dev == "chaos_control" then
                match ChaosControl.Decode(functionId, args, effect.end)
                case Accepted(event) => effect.code == CodeOk && effect.world == w.(log := w.log + [event])
                case Rejected(code) => effect.code == code && effect.world == w
              else if w.loaded && dev in w.devices then
                AnsweredByDevice(w, effect.world, effect.code, TypeIn(w.devices, dev).value, dev, functionId, args)
              else effect.code == CodeNotFound && effect.world == w
  {
    DeviceAnswers(w, dev, functionId, args);
  }

  lemma DeviceAnswers(w: World, dev: string, functionId: nat, args: Args)
    requires Coherent(w)
    ensures w.loaded && dev in w.devices ==>
              var t := TypeIn(w.devices, dev).value;
              var (fleet, code) := Dispatch(w.fleet, t, dev, functionId, args);
              AnsweredByDevice(w, w.(fleet := fleet), code, t, dev, functionId, args) && code != CodeUnavailable
  {
  }

  /** A call that does not end OK leaves the devices, the registry and every fault answer unchanged. */
  lemma RefusedCallChangesNothing(w: World, dev: string, functionId: nat, args: Args, now: int,
                                    m: Moment)
    requires Coherent(w)
    ensures var effect := RuntimeCallAt(w, dev, functionId, args, now, m);
            effect.code != CodeOk ==> effect.world == w
  {
    FailedCallChangesNothing(w, dev, functionId, args, now, m);
  }

  /** Nothing is faulted, slowed or failing. */
  ghost predicate FaultFree(log: FI.Log) {
    && (forall kind, dev, now :: !FI.DeviceFaulted(log, kind, dev, now))
    && (forall dev, sig, now :: !FI.SignalFaulted(log, dev, sig, now))
    && (forall dev :: FI.LastLatency(log, dev).None?)
    && (forall dev, fn :: FI.LastRate(log, dev, fn).None?)
  }

  /**
   * clear_faults is not a way out of everything: it works exactly when the control device is itself neither
   * unreachable nor unavailable and its own call 5 is not made to fail. When it works, nothing is faulted any more.
   */
  lemma ClearFaultsWorksIff(w: World, args: Args, now: int, m: Moment)
    ensures var effect := RuntimeCallAt(w, ChaosControl.DEVICE_ID, ChaosControl.FN_CLEAR_FAULTS, args, now, m);
            && (effect.code == CodeOk
                <==> && !Unreachable(w, ChaosControl.DEVICE_ID, now)
                     && !Unavailable(w, ChaosControl.DEVICE_ID, now)
                     && !FI.CallFails(w.log, ChaosControl.DEVICE_ID, "5", m.sample))
            && (effect.code == CodeOk ==> FaultFree(effect.world.log))
            && (effect.code != CodeOk ==> effect.world == w)
  {
    assert ChaosControl.Decimal(5) == "5";
  }

  /**
   * And it can be locked out: the control device accepts a fault on itself, and from the moment the injecting call
   * has ended, clear_faults is refused until that fault expires.
   */
  lemma ControlDeviceCanBeLockedOut(w: World, now: int, ms: int, later: int, args: Args, m: Moment)
    requires ms > 0
    requires RuntimeCallAt(w, ChaosControl.DEVICE_ID, ChaosControl.FN_INJECT_DEVICE_UNREACHABLE,
                           Lockout(ms), now, m).code == CodeOk
    requires var end := RuntimeCallAt(w, ChaosControl.DEVICE_ID, ChaosControl.FN_INJECT_DEVICE_UNREACHABLE,
                                      Lockout(ms), now, m).end;
             end <= later < FI.Expiry(end, ms)
    ensures var w' := RuntimeCallAt(w, ChaosControl.DEVICE_ID, ChaosControl.FN_INJECT_DEVICE_UNREACHABLE,
                                    Lockout(ms), now, m).world;
            RuntimeCallAt(w', ChaosControl.DEVICE_ID, ChaosControl.FN_CLEAR_FAULTS, args, later, m).code
            == CodeUnavailable
  {
    var effect := RuntimeCallAt(w, ChaosControl.DEVICE_ID, ChaosControl.FN_INJECT_DEVICE_UNREACHABLE,
                                Lockout(ms), now, m);
    assert effect.world.log
           == w.log + [FI.DeviceFault(FI.Unreachable, ChaosControl.DEVICE_ID, effect.end, ms)];
    FI.OverlapRules(w.log, FI.Unreachable, ChaosControl.DEVICE_ID, "", effect.end, ms, later);
  }

  function Lockout(ms: int): Args {
    map["device_id" := StringValue(ChaosControl.DEVICE_ID), "duration_ms" := Int64Value(ms)]
  }

  class Runtime {
    const manager: Manager

    constructor (manager: Manager)
      ensures this.manager == manager
    {
      this.manager := manager;
    }

    method ListDeviceIds(now: int) returns (ids: seq<string>)
      requires manager.Valid() && manager.faults.clock <= now
      modifies manager.faults
      ensures manager.Valid() && manager.faults.clock <= now && manager.Shared() == old(manager.Shared())
      ensures ListingOf(manager.Shared(), now, ids)
    {
      ids := manager.ListDevices(now);
    }

    method HasDevice(id: string, now: int) returns (yes: bool)
      requires manager.Valid() && manager.faults.clock <= now
      modifies manager.faults
      ensures manager.Valid() && manager.faults.clock <= now && manager.Shared() == old(manager.Shared())
      ensures yes <==> HasDeviceAt(manager.Shared(), id, now)
    {
      var unavailable := manager.IsUnavailable(id, now);
      if unavailable {
        return false;
      }
      return manager.factory.AdapterById(id).Some?;
    }

    /** The only read that fails is one of an unreachable device. */
    method Read(dev: string, ids: seq<string>, now: int, noise: nat -> real) returns (result: ReadResult)
      requires manager.Valid() && manager.faults.clock <= now
      modifies manager.faults
      ensures manager.Valid() && manager.faults.clock <= now && manager.Shared() == old(manager.Shared())
      ensures result == if Unreachable(manager.Shared(), dev, now) then ReadResult(CodeUnavailable, [])
                        else ReadResult(CodeOk, ReadAt(manager.Shared(), dev, ids, now, noise))
    {
      var unreachable := manager.faults.IsDeviceUnreachable(dev, now);
      if unreachable {
        return ReadResult(CodeUnavailable, []);
      }
      var values := manager.ReadSignals(dev, ids, now, noise);
      return ReadResult(CodeOk, values);
    }

    method Call(dev: string, functionId: nat, args: Args, now: int, m: Moment) returns (code: Code, end: int)
      requires manager.Valid() && manager.faults.clock <= now
      modifies manager.factory.temp, manager.factory.motor, manager.factory.relay, manager.factory.analog,
               manager.faults
      ensures manager.Valid() && manager.faults.clock <= end
      ensures Effect(manager.Shared(), code, end)
              == RuntimeCallAt(old(manager.Shared()), dev, functionId, args, now, m)
      ensures code != CodeOk ==> manager.Shared() == old(manager.Shared())
    {
      RefusedCallChangesNothing(manager.Shared(), dev, functionId, args, now, m);
      var unreachable := manager.faults.IsDeviceUnreachable(dev, now);
      if unreachable {
        return CodeUnavailable, now;
      }
      code, end := manager.CallFunction(dev, functionId, args, now, m);
    }
  }
}
