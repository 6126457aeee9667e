/**
 * The provider as main.cpp wires it, in sim mode and in non-interacting mode: start-up, and the body of the
 * ticker loop (src/core/main.cpp, src/devices/common/device_manager.cpp).
 */
module SimProvider {
  import opened Basics
  import opened SignalPaths
  import opened SignalRegistry
  import opened DeviceFactory
  import opened DeviceManager
  import opened Relaxation
  import FI = FaultInjection
  import FC = FluxGraphClient
  import opened FluxGraphAdapter
  import ChaosControl
  import ConfigHash
  import TempCtl
  import RemoteEngine
  import LocalEngine
  import PR = ProviderRuns
  import SimProviderRuntime

  // ---------------------------------------------------------------------------------------------
  // The control pass over all devices
  // ---------------------------------------------------------------------------------------------

  function Controlled(w: World, id: string, now: int): TempCtl.State
    requires id in w.fleet.temp
  {
    var s := w.fleet.temp[id];
    if TypeIn(w.devices, id) != Some(Tempctl) || s.mode == TempCtl.Open || ControlReading(w, id, now).None? then s
    else TempCtl.Control(s, ControlReading(w, id, now).value)
  }

  function ControlledOnly(w: World, ids: set<string>, now: int): World {
    w.(fleet := w.fleet.(
      temp := map id | id in w.fleet.temp :: if id in ids then Controlled(w, id, now) else w.fleet.temp[id]))
  }

  /** Every registered device has had its turn; no device's turn influences another's. */
  function AfterControl(w: World, now: int): World {
    ControlledOnly(w, w.devices.Keys, now)
  }

  /** The pass stages the relays of every controller in closed mode for its own reading, and changes nothing else. */
  lemma PassStages(w: World, now: int)
    requires Coherent(w)
    ensures var w' := AfterControl(w, now);
            && w' == w.(fleet := w.fleet.(temp := w'.fleet.temp)) && w'.fleet.temp.Keys == w.fleet.temp.Keys
            && forall id :: id in w.fleet.temp ==>
                 var s, s' := w.fleet.temp[id], w'.fleet.temp[id];
                 if TypeIn(w.devices, id) == Some(Tempctl) && s.mode == TempCtl.Closed
                    && ControlReading(w, id, now).Some?
                 then TempCtl.StagedFor(s, s', ControlReading(w, id, now).value) else s' == s
  {
    forall id | id in w.fleet.temp && ControlReading(w, id, now).Some?
      ensures TempCtl.StagedFor(w.fleet.temp[id], TempCtl.Control(w.fleet.temp[id], ControlReading(w, id, now).value),
                                ControlReading(w, id, now).value)
    {
      TempCtl.ControlStages(w.fleet.temp[id], ControlReading(w, id, now).value);
    }
  }

  /** Including one more device in the pass changes at most its own state. */
  lemma PassGrows(w: World, ids: set<string>, id: string, now: int)
    requires id !in ids
    ensures ControlledOnly(w, ids + {id}, now).fleet.temp
            == if id in w.fleet.temp then ControlledOnly(w, ids, now).fleet.temp[id := Controlled(w, id, now)]
               else ControlledOnly(w, ids, now).fleet.temp
  {
  }

  lemma PassKeepsCoherence(w: World, ids: set<string>, id: string, now: int)
    requires Coherent(w) && id !in ids && id in w.fleet.temp
    ensures var w' := ControlledOnly(w, ids, now);
            Coherent(w') && id in w'.fleet.temp && w'.fleet.temp[id] == w.fleet.temp[id]
  {
  }

  lemma ControlsOneMore(w: World, ids: set<string>, id: string, now: int, noise: nat -> real)
    requires Coherent(w) && w.loaded && id in w.devices && id !in ids
    ensures ControlAt(ControlledOnly(w, ids, now), id, now, noise) == ControlledOnly(w, ids + {id}, now)
  {
    var w' := ControlledOnly(w, ids, now);
    PassGrows(w, ids, id, now);
    if id in w.fleet.temp {
      PassKeepsCoherence(w, ids, id, now);
      assert w'.fleet.temp[id := w'.fleet.temp[id]] == w'.fleet.temp;
      if TypeIn(w.devices, id) == Some(Tempctl) {
        assert Join(id, "tc1_temp") == id + "/tc1_temp";
        ControlInput(w', id, now, noise);
      }
    }
  }

  lemma ControlsNone(w: World, now: int)
    ensures ControlledOnly(w, {}, now) == w
  {
    assert ControlledOnly(w, {}, now).fleet.temp == w.fleet.temp;
  }

  /** The loop over the first n entries. */
  function ControlSteps(w: World, entries: seq<Spec>, n: nat, now: int, noise: nat -> real): World
    requires n <= |entries|
  {
    if n == 0 then w else ControlAt(ControlSteps(w, entries, n - 1, now, noise), entries[n - 1].id, now, noise)
  }

  function FirstIds(entries: seq<Spec>, n: nat): set<string>
    requires n <= |entries|
  {
    set i | 0 <= i < n :: entries[i].id
  }

  /** The order of the devices does not matter: the loop leaves what all turns taken at once would leave. */
  lemma {:induction false} ControlOrderIsIrrelevant(w: World, entries: seq<Spec>, n: nat, now: int, noise: nat -> real)
    requires Coherent(w) && w.loaded && n <= |entries|
    requires forall i :: 0 <= i < |entries| ==> entries[i].id in w.devices
    requires UniqueIds(entries)
    ensures ControlSteps(w, entries, n, now, noise) == ControlledOnly(w, FirstIds(entries, n), now)
  {
    if n == 0 {
      ControlsNone(w, now);
    } else {
      ControlOrderIsIrrelevant(w, entries, n - 1, now, noise);
      FirstIdsGrow(entries, n);
      OrderStep(w, entries, n, now, noise);
    }
  }

  lemma OrderStep(w: World, entries: seq<Spec>, n: nat, now: int, noise: nat -> real)
    requires Coherent(w) && w.loaded && 0 < n <= |entries| && entries[n - 1].id in w.devices
    requires ControlSteps(w, entries, n - 1, now, noise) == ControlledOnly(w, FirstIds(entries, n - 1), now)
    requires FirstIds(entries, n) == FirstIds(entries, n - 1) + {entries[n - 1].id}
    requires entries[n - 1].id !in FirstIds(entries, n - 1)
    ensures ControlSteps(w, entries, n, now, noise) == ControlledOnly(w, FirstIds(entries, n), now)
  {
    ControlsOneMore(w, FirstIds(entries, n - 1), entries[n - 1].id, now, noise);
  }

  lemma FirstIdsGrow(entries: seq<Spec>, n: nat)
    requires 0 < n <= |entries|
    requires UniqueIds(entries)
    ensures FirstIds(entries, n) == FirstIds(entries, n - 1) + {entries[n - 1].id}
    ensures entries[n - 1].id !in FirstIds(entries, n - 1)
  {
  }

  lemma {:induction false} ControlPassIsExact(w: World, entries: seq<Spec>, now: int, noise: nat -> real)
    requires Coherent(w) && w.loaded && Lists(entries, w.devices)
    ensures ControlSteps(w, entries, |entries|, now, noise) == AfterControl(w, now)
  {
    forall i | 0 <= i < |entries| ensures entries[i].id in w.devices {
      assert entries[i] in entries;
    }
    ControlOrderIsIrrelevant(w, entries, |entries|, now, noise);
    assert FirstIds(entries, |entries|) == w.devices.Keys by {
      assert forall id :: id in w.devices ==> w.devices[id] in entries;
    }
  }

  method UpdateControls(manager: Manager, now: int, noise: nat -> real)
    requires manager.Valid() && manager.faults.clock <= now && manager.factory.configLoaded
    modifies manager.factory.temp, manager.faults
    ensures manager.Valid() && manager.faults.clock <= now
    ensures manager.Shared() == AfterControl(old(manager.Shared()), now)
  {
    var entries := manager.factory.GetRegisteredDevices();
    ControlPassIsExact(manager.Shared(), entries, now, noise);
    ListedAreRegistered(entries, manager.factory.registry);
    ControlEach(manager, entries, now, noise);
  }

  ghost predicate AllRegistered(entries: seq<Spec>, registry: map<string, Spec>) {
    forall i :: 0 <= i < |entries| ==> entries[i].id in registry
  }

  lemma ListedAreRegistered(entries: seq<Spec>, registry: map<string, Spec>)
    requires Lists(entries, registry)
    ensures AllRegistered(entries, registry)
  {
    assert forall i :: 0 <= i < |entries| ==> entries[i] in entries;
  }

  method ControlEach(manager: Manager, entries: seq<Spec>, now: int, noise: nat -> real)
    requires manager.Valid() && manager.faults.clock <= now
    requires AllRegistered(entries, manager.factory.registry)
    modifies manager.factory.temp, manager.faults
    ensures manager.Valid() && manager.faults.clock <= now
    ensures manager.Shared() == ControlSteps(old(manager.Shared()), entries, |entries|, now, noise)
  {
    ghost var w := manager.Shared();
    for i := 0 to |entries|
      invariant manager.Valid() && manager.faults.clock <= now
      invariant manager.Shared() == ControlSteps(w, entries, i, now, noise)
    {
      ControlNext(manager, entries, i, now, noise, w);
    }
  }

  method ControlNext(manager: Manager, entries: seq<Spec>, i: nat, now: int, noise: nat -> real, ghost w: World)
    requires manager.Valid() && manager.faults.clock <= now
    requires i < |entries| && AllRegistered(entries, manager.factory.registry)
    requires manager.Shared() == ControlSteps(w, entries, i, now, noise)
    modifies manager.factory.temp, manager.faults
    ensures manager.Valid() && manager.faults.clock <= now
    ensures manager.Shared() == ControlSteps(w, entries, i + 1, now, noise)
  {
    manager.UpdateControl(entries[i].id, now, noise);
  }

  // ---------------------------------------------------------------------------------------------
  // Commands leave the registry alone
  // ---------------------------------------------------------------------------------------------

  /** Commands change device states and the fault log at most. */
  lemma {:induction false} CommandsKeepRegistry(w: World, names: NameCache, cmds: seq<FC.Command>, now: int,
                                                ms: nat -> Moment)
    requires Coherent(w)
    ensures var effect := CommandsAt(w, names, cmds, now, ms);
            && Coherent(effect.world) && now <= effect.end
            && effect.world == w.(fleet := effect.world.fleet, log := effect.world.log)
  {
    if cmds != [] {
      var n := |cmds| - 1;
      CommandsKeepRegistry(w, names, cmds[..n], now, ms);
      var before := CommandsAt(w, names, cmds[..n], now, ms);
      var cmd := cmds[n];
      if cmd.device in names && cmd.function_ in names[cmd.device] {
        var functionId := names[cmd.device][cmd.function_];
        CallKeepsCoherence(before.world, cmd.device, functionId, ToArgs(cmd.args), before.end, ms(n));
      }
    }
  }

  // ---------------------------------------------------------------------------------------------
  // Sim mode
  // ---------------------------------------------------------------------------------------------

  /** The world after the sensors of a tick have been published. */
  function Publish(w: World, sensors: map<string, real>): World {
    w.(driven := w.driven + sensors.Keys, cache := w.cache + sensors)
  }

  /** What one successful tick from one state of the provider to the next amounts to. */
  ghost predicate TickDone(w: World, w': World, h: FC.History, h': FC.History, k: int, names: NameCache,
                           snapshot: map<string, real>, ambient: Option<(string, real)>, timeoutMs: int,
                           result: RemoteEngine.TickResult, now: int, resumed: int, ms: nat -> Moment)
  {
    && IsSnapshot(AfterControl(w, now), snapshot, now)
    && RemoteEngine.TickResultAt(h, h', k, WithAmbient(Sim, ambient, snapshot), timeoutMs, result)
    && w' == CommandsAt(Publish(AfterControl(w, now), result.sensors), names, result.commands, resumed, ms).world
  }

  /** First part of a tick: the control pass, then the snapshot of what it left. */
  method Prepare(manager: Manager, now: int, noise: nat -> real) returns (snapshot: map<string, real>)
    requires manager.Valid() && manager.faults.clock <= now && manager.factory.configLoaded
    modifies manager.factory.temp, manager.faults
    ensures manager.Valid() && manager.faults.clock <= now
    ensures manager.Shared() == AfterControl(old(manager.Shared()), now)
    ensures IsSnapshot(manager.Shared(), snapshot, now)
  {
    UpdateControls(manager, now, noise);
    snapshot := manager.CollectActuatorSignals(now, noise);
  }

  /** Last part of a successful tick: its sensors are published, then its commands executed. */
  method Finish(manager: Manager, result: RemoteEngine.TickResult, resumed: int, ms: nat -> Moment) returns (end: int)
    requires manager.Valid() && manager.faults.clock <= resumed
    modifies manager.factory.temp, manager.factory.motor, manager.factory.relay, manager.factory.analog,
             manager.faults, manager.registry
    ensures manager.Valid() && manager.faults.clock <= end
    ensures manager.Shared() == CommandsAt(Publish(old(manager.Shared()), result.sensors), manager.functionIds,
                                           result.commands, resumed, ms).world
  {
    manager.PublishSensors(result.sensors);
    end := manager.ExecuteCommands(result.commands, resumed, ms);
  }

  /** The paths an adapter with these output paths reads for these devices. */
  function ReadPaths(outputs: seq<string>, active: set<string>): set<string> {
    set q | q in OwnedPaths(outputs, active)
  }

  class Provider {
    const manager: Manager
    const engine: RemoteEngine.Engine
    ghost const marked: set<string>  // the physics-driven paths as start-up left them

    ghost predicate Valid()
      reads this, manager, manager.factory, manager.factory.temp, manager.factory.motor, manager.factory.relay,
            manager.factory.analog, manager.faults, manager.registry, engine, engine.adapter, engine.adapter.client
    {
      && manager.Valid() && engine.Valid()
      && manager.mode == Sim && manager.factory.configLoaded
      && manager.registry.driven == marked
      && marked == ReadPaths(engine.adapter.outputPaths, engine.adapter.registeredDeviceIds)
    }

    /** The provider as a state of the step relation, between two actions. */
    ghost function AsRun(): PR.Provider
      reads this, manager, manager.factory, manager.factory.temp, manager.factory.motor, manager.factory.relay,
            manager.factory.analog, manager.faults, manager.registry, engine, engine.adapter
    {
      PR.Provider(manager.Shared(), None, PR.Idle, PR.Idle, manager.functionIds, engine.adapter.outputPaths,
                  engine.adapter.registeredDeviceIds)
    }

    constructor (manager: Manager, engine: RemoteEngine.Engine)
      requires manager.Valid() && engine.Valid() && manager.mode == Sim && manager.factory.configLoaded
      requires manager.registry.driven == ReadPaths(engine.adapter.outputPaths, engine.adapter.registeredDeviceIds)
      ensures Valid() && this.manager == manager && this.engine == engine && marked == manager.registry.driven
    {
      this.manager, this.engine := manager, engine;
      marked := manager.registry.driven;
    }

    /** The middle part of a tick: whatever the server answers, only marked paths come back as sensors. */
    method TickEngine(actuators: map<string, real>) returns (tick: RemoteEngine.TickResult, ghost k: int)
      requires engine.Valid()
      requires marked == ReadPaths(engine.adapter.outputPaths, engine.adapter.registeredDeviceIds)
      modifies engine.adapter.client
      ensures engine.Valid() && tick.sensors.Keys <= marked
      ensures !old(engine.adapter.client.registered) ==> !tick.success && unchanged(engine.adapter.client)
      ensures !tick.success ==>
                RemoteEngine.FailedTick(old(engine.adapter.client.history), engine.adapter.client.history)
      ensures old(engine.adapter.client.registered) ==>
                RemoteEngine.TickMade(old(engine.adapter.client.history), engine.adapter.client.history, k, actuators,
                                      RemoteEngine.TimeoutMs(engine.tickRateHz),
                                      OwnedPaths(engine.adapter.outputPaths, engine.adapter.registeredDeviceIds), tick)
    {
      tick := engine.Tick(actuators);
      k := 0;
      if old(engine.adapter.client.registered) {
        k :| RemoteEngine.TickMade(old(engine.adapter.client.history), engine.adapter.client.history, k, actuators,
                                   RemoteEngine.TimeoutMs(engine.tickRateHz),
                                   OwnedPaths(engine.adapter.outputPaths, engine.adapter.registeredDeviceIds), tick);
      }
    }

    /**
     * One pass of the ticker loop. Whatever the server answers, the set of physics-driven paths stays as
     * start-up left it. A registered client sends exactly the actuator snapshot taken after the control pass, with
     * the ambient input over it, and the pass succeeds exactly when the last answer says that a tick occurred. It
     * then published every marked path that was fetched after that answer and executed exactly its commands, in
     * order; a failed one has run the control pass and nothing else.
     */
    method TickOnce(now: int, resumed: int, noise: nat -> real, ms: nat -> Moment)
      returns (success: bool, end: int, ghost k: int, snapshot: map<string, real>,
               result: RemoteEngine.TickResult)
      requires Valid() && manager.faults.clock <= now <= resumed
      modifies manager.factory.temp, manager.factory.motor, manager.factory.relay, manager.factory.analog,
               manager.faults, manager.registry, engine.adapter.client
      ensures Valid() && manager.faults.clock <= end
      ensures manager.registry.driven == old(manager.registry.driven) && result.sensors.Keys <= marked
      ensures IsSnapshot(AfterControl(old(manager.Shared()), now), snapshot, now) && success == result.success
      ensures !old(engine.adapter.client.registered) ==> !success && unchanged(engine.adapter.client)
      ensures old(engine.adapter.client.registered) ==>
                RemoteEngine.TickMade(old(engine.adapter.client.history), engine.adapter.client.history, k,
                                      WithAmbient(Sim, manager.ambient, snapshot),
                                      RemoteEngine.TimeoutMs(engine.tickRateHz),
                                      OwnedPaths(engine.adapter.outputPaths, engine.adapter.registeredDeviceIds),
                                      result)
      ensures var h, h' := old(engine.adapter.client.history), engine.adapter.client.history;
              forall i :: |h| <= i < |h'| && h'[i].UpdateRpc? ==> Overridden(h'[i].signals, snapshot, manager.ambient)
      ensures !success ==>
                && manager.Shared() == AfterControl(old(manager.Shared()), now)
                && RemoteEngine.FailedTick(old(engine.adapter.client.history), engine.adapter.client.history)
      ensures success ==>
                TickDone(old(manager.Shared()), manager.Shared(), old(engine.adapter.client.history),
                         engine.adapter.client.history, k, manager.functionIds, snapshot, manager.ambient,
                         RemoteEngine.TimeoutMs(engine.tickRateHz), result, now, resumed, ms)
    {
      snapshot := Prepare(manager, now, noise);
      var actuators := WithAmbient(manager.mode, manager.ambient, snapshot);
      AmbientOverrides(manager.ambient, snapshot);
      var tick;
      tick, k := TickEngine(actuators);
      result, success, end := tick, tick.success, now;
      if !success {
        return;
      }
      end := FinishTick(tick, resumed, ms);
    }

    /** A request between two ticks. */
    method Call(ghost w: World, dev: string, functionId: nat, args: Args, now: int, m: Moment)
      returns (code: Code, end: int, ghost effect: Effect)
      requires Valid() && manager.faults.clock <= now && w == manager.Shared()
      modifies manager.factory.temp, manager.factory.motor, manager.factory.relay, manager.factory.analog,
               manager.faults
      ensures Valid() && manager.faults.clock <= end
      ensures effect == SimProviderRuntime.RuntimeCallAt(w, dev, functionId, args, now, m)
      ensures effect == Effect(manager.Shared(), code, end) && AsRun() == old(AsRun()).(w := effect.world)
    {
      effect := SimProviderRuntime.RuntimeCallAt(w, dev, functionId, args, now, m);
      CallKeepsCoherence(w, dev, functionId, args, now, m);
      var runtime := new SimProviderRuntime.Runtime(manager);
      code, end := runtime.Call(dev, functionId, args, now, m);
    }

    /** The last part of a tick; publishing marked paths marks nothing new. */
    method FinishTick(tick: RemoteEngine.TickResult, resumed: int, ms: nat -> Moment) returns (end: int)
      requires manager.Valid() && manager.faults.clock <= resumed
      requires tick.sensors.Keys <= manager.registry.driven
      modifies manager.factory.temp, manager.factory.motor, manager.factory.relay, manager.factory.analog,
               manager.faults, manager.registry
      ensures manager.Valid() && manager.faults.clock <= end
      ensures manager.registry.driven == old(manager.registry.driven)
      ensures manager.Shared() == CommandsAt(Publish(old(manager.Shared()), tick.sensors), manager.functionIds,
                                             tick.commands, resumed, ms).world
    {
      FinishKeepsDriven(manager.Shared(), tick.sensors, manager.functionIds, tick.commands, resumed, ms);
      end := Finish(manager, tick, resumed, ms);
    }
  }

  lemma FinishKeepsDriven(w: World, sensors: map<string, real>, names: NameCache, cmds: seq<FC.Command>,
                          resumed: int, ms: nat -> Moment)
    requires Coherent(w) && sensors.Keys <= w.driven
    ensures CommandsAt(Publish(w, sensors), names, cmds, resumed, ms).world.driven == w.driven
  {
    assert w.driven + sensors.Keys == w.driven;
    CommandsKeepRegistry(Publish(w, sensors), names, cmds, resumed, ms);
  }

  /**
   * main.cpp in sim mode. A provider starts exactly when the devices, the server's configuration, the registration
   * and the ambient input are all accepted; it then owns exactly the paths its ticks will read.
   */
  method StartSim(factory: Factory, faults: FI.FaultStore, registry: Registry, engine: RemoteEngine.Engine,
                  specs: seq<Spec>, policy: Policy, name: string, content: seq<ConfigHash.byte>,
                  targets: seq<Option<string>>, connected: bool, ambientTemp: Option<real>,
                  ambientPath: Option<string>, now: int)
    returns (started: Option<Provider>)
    requires faults.Valid() && faults.clock <= now && registry.cache == map[] && registry.driven == {}
    requires engine.Valid()
    requires forall s :: s in specs ==> s.id != ChaosControl.DEVICE_ID
    modifies factory, factory.temp, factory.motor, factory.relay, factory.analog, faults, registry, engine,
             engine.adapter, engine.adapter.client
    ensures faults.clock <= now
    ensures started.Some? ==>
              var p := started.value;
              && p.Valid() && fresh(p) && fresh(p.manager) && p.engine == engine
              && p.manager.factory == factory && p.manager.faults == faults && p.manager.registry == registry
              && factory.registry == Registered(specs)
              && engine.adapter.client.registered && engine.adapter.client.registeredDeviceIds == AcceptedIds(specs)
              && engine.adapter.client.providerId == (if name == "" then "provider-sim" else name)
              && p.manager.physicsOutputs == OwnedPaths(Dedup(targets), set id | id in AcceptedIds(specs))
              && p.marked == (set q | q in p.manager.physicsOutputs)
              && factory.States() == Started(old(factory.States()), specs)
              && p.manager.ambient == AmbientInput(ambientTemp, ambientPath)
              && PR.Fresh(p.AsRun())
    ensures started.Some?
            <==> && !(policy == Strict && RejectedSpecs(specs) != [])
                 && connected && EngineAccepted(engine.adapter.client.server, old(engine.adapter.client.turn))
                 && !(ambientTemp.Some? && ambientPath == Some(""))
  {
    var outcome := factory.InitializeFromConfig(specs, policy);
    if outcome.Threw? {
      return None;
    }
    StartupPartition(specs);
    var active := outcome.report.successful;
    var ok := ConnectEngine(engine, name, content, targets, connected, active);
    if !ok {
      return None;
    }
    var manager := new Manager(factory, faults, registry);
    var paths := engine.ListSignals();
    ok := manager.InitializePhysics(Sim, ambientTemp, ambientPath, paths, active, now);
    if !ok {
      return None;
    }
    var p := new Provider(manager, engine);
    return Some(p);
  }

  /** The ambient input of sim mode. */
  function AmbientInput(temp: Option<real>, path: Option<string>): Option<(string, real)> {
    if temp.None? then None else Some((path.GetOr("environment/ambient_temp"), temp.value))
  }

  /** The server takes over the configuration, and then the registration that follows it. */
  predicate EngineAccepted(server: FC.Server, turn: nat) {
    ConfigTaken(server, turn) && FC.Accepted(FC.Conclusive(server, FC.TurnAfter(server, turn)))
  }

  method ConnectEngine(engine: RemoteEngine.Engine, name: string, content: seq<ConfigHash.byte>,
                       targets: seq<Option<string>>, connected: bool, active: seq<string>)
    returns (ok: bool)
    requires engine.Valid()
    modifies engine, engine.adapter, engine.adapter.client
    ensures engine.Valid()
    ensures ok <==> connected && EngineAccepted(engine.adapter.client.server, old(engine.adapter.client.turn))
    ensures ok ==> engine.adapter.client.registered && engine.adapter.outputPaths == Dedup(targets)
                   && engine.adapter.registeredDeviceIds == (set id | id in active)
                   && engine.adapter.client.registeredDeviceIds == active
                   && engine.adapter.client.providerId == if name == "" then "provider-sim" else name
  {
    engine.SetProviderId(name);
    ok := engine.Initialize(content, targets, connected);
    if !ok {
      return;
    }
    ok := engine.RegisterDevices(active, connected);
  }

  // ---------------------------------------------------------------------------------------------
  // Non-interacting mode
  // ---------------------------------------------------------------------------------------------

  class LocalProvider {
    const manager: Manager
    const engine: LocalEngine.Engine

    ghost predicate Valid()
      reads this, manager, manager.factory, manager.factory.temp, manager.factory.motor, manager.factory.relay,
            manager.factory.analog, manager.faults, manager.registry, engine
    {
      && manager.Valid() && engine.factory == manager.factory && engine.Valid()
      && manager.mode == NonInteracting && manager.factory.configLoaded && manager.registry.driven == {}
    }

    ghost function AsRun(): PR.Provider
      reads this, manager, manager.factory, manager.factory.temp, manager.factory.motor, manager.factory.relay,
            manager.factory.analog, manager.faults, manager.registry
    {
      PR.Provider(manager.Shared(), None, PR.Idle, PR.Idle, manager.functionIds, [], {})
    }

    constructor (manager: Manager, engine: LocalEngine.Engine)
      requires manager.Valid() && engine.Valid() && engine.factory == manager.factory
      requires manager.mode == NonInteracting && manager.factory.configLoaded && manager.registry.driven == {}
      ensures Valid() && this.manager == manager && this.engine == engine
    {
      this.manager, this.engine := manager, engine;
    }

    /** A request between two ticks. */
    method Call(ghost w: World, dev: string, functionId: nat, args: Args, now: int, m: Moment)
      returns (code: Code, end: int, ghost effect: Effect)
      requires Valid() && manager.faults.clock <= now && w == manager.Shared()
      modifies manager.factory.temp, manager.factory.motor, manager.factory.relay, manager.factory.analog,
               manager.faults
      ensures Valid() && manager.faults.clock <= end
      ensures effect == SimProviderRuntime.RuntimeCallAt(w, dev, functionId, args, now, m)
      ensures effect == Effect(manager.Shared(), code, end) && AsRun() == old(AsRun()).(w := effect.world)
    {
      effect := SimProviderRuntime.RuntimeCallAt(w, dev, functionId, args, now, m);
      CallKeepsCoherence(w, dev, functionId, args, now, m);
      var runtime := new SimProviderRuntime.Runtime(manager);
      code, end := runtime.Call(dev, functionId, args, now, m);
    }

    /** The ticker's pass with the built-in engine, which reports neither sensors nor commands. */
    method Tick(ghost w: World, now: int, noise: nat -> real, e: Decay)
      returns (success: bool, ghost w': World, ghost elapsed: real)
      requires Valid() && manager.faults.clock <= now && w == manager.Shared()
      modifies manager.factory.temp, manager.factory.motor, manager.factory.relay, manager.factory.analog,
               manager.faults, engine
      ensures Valid() && manager.faults.clock <= now
      ensures success <==> now > old(engine.lastUpdate)
      ensures engine.lastUpdate == if success then now else old(engine.lastUpdate)
      ensures elapsed == if success then LocalEngine.StepFor(now - old(engine.lastUpdate)) else 0.0
      ensures engine.simulated == old(engine.simulated) + elapsed
      ensures var controlled := AfterControl(w, now);
              w' == if success
                    then controlled.(fleet := LocalEngine.Stepped(controlled.fleet, controlled.devices, elapsed, e))
                    else controlled
      ensures w' == manager.Shared() && AsRun() == old(AsRun()).(w := w')
    {
      elapsed := if now > engine.lastUpdate then LocalEngine.StepFor(now - engine.lastUpdate) else 0.0;
      success := TickLocal(manager, engine, now, noise, e);
      w' := manager.Shared();
    }
  }

  method TickLocal(manager: Manager, engine: LocalEngine.Engine, now: int, noise: nat -> real, e: Decay)
    returns (success: bool)
    requires manager.Valid() && manager.faults.clock <= now && manager.factory.configLoaded
    requires engine.Valid() && engine.factory == manager.factory
    modifies manager.factory.temp, manager.factory.motor, manager.factory.relay, manager.factory.analog,
             manager.faults, engine
    ensures manager.Valid() && engine.Valid() && manager.faults.clock <= now
    ensures success <==> now > old(engine.lastUpdate)
    ensures engine.lastUpdate == if success then now else old(engine.lastUpdate)
    ensures var dt := LocalEngine.StepFor(now - old(engine.lastUpdate));
            var w := AfterControl(old(manager.Shared()), now);
            && engine.simulated == old(engine.simulated) + (if success then dt else 0.0)
            && manager.Shared()
               == if success then w.(fleet := LocalEngine.Stepped(w.fleet, w.devices, dt, e)) else w
  {
    var snapshot := Prepare(manager, now, noise);
    success := engine.Tick(now, e);
  }

  /** main.cpp in non-interacting mode: nothing can fail but the devices, and no path is physics-driven. */
  method StartLocal(factory: Factory, faults: FI.FaultStore, registry: Registry, specs: seq<Spec>, policy: Policy,
                    now: int)
    returns (started: Option<LocalProvider>)
    requires faults.Valid() && faults.clock <= now && registry.cache == map[] && registry.driven == {}
    requires forall s :: s in specs ==> s.id != ChaosControl.DEVICE_ID
    modifies factory, factory.temp, factory.motor, factory.relay, factory.analog, faults, registry
    ensures faults.clock <= now
    ensures started.None? <==> policy == Strict && RejectedSpecs(specs) != []
    ensures started.Some? ==>
              var p := started.value;
              && p.Valid() && fresh(p) && fresh(p.manager) && fresh(p.engine)
              && p.manager.factory == factory && p.manager.faults == faults && p.manager.registry == registry
              && factory.registry == Registered(specs)
              && factory.States() == Started(old(factory.States()), specs)
              && p.engine.simulated == 0.0 && p.engine.lastUpdate == now
              && PR.Fresh(p.AsRun())
  {
    var outcome := factory.InitializeFromConfig(specs, policy);
    if outcome.Threw? {
      return None;
    }
    StartupPartition(specs);
    var engine := new LocalEngine.Engine(factory, now);
    var manager := new Manager(factory, faults, registry);
    var ok := manager.InitializePhysics(NonInteracting, None, None, [], outcome.report.successful, now);
    assert manager.registry.driven == {};
    var p := new LocalProvider(manager, engine);
    return Some(p);
  }
}
