/**
 * Sequences of ticks and requests on a started provider, against any server. Nothing is assumed about the engine's
 * answers: what a run of `ProviderRuns` needs of them is proved of every tick.
 */
module ProviderActions {
  import opened Basics
  import opened Relaxation
  import opened DeviceFactory
  import opened DeviceManager
  import FI = FaultInjection
  import opened ProviderRuns
  import opened SignalRegistry
  import opened TickRuns
  import AnalogSensor
  import ChaosControl
  import ConfigHash
  import FC = FluxGraphClient
  import FluxGraphAdapter
  import LocalEngine
  import MotorCtl
  import RelayIO
  import RemoteEngine
  import SimProvider
  import SignalPaths
  import SimProviderRuntime
  import TempCtl

  /** The ticker thread passes once, or a request comes in; `wait` is the idle time before, `rpc` the engine's. */
  datatype Action =
    | Tick(wait: nat, rpc: nat, noise: nat -> real, ms: nat -> Moment)
    | Call(dev: string, functionId: nat, args: Args, wait: nat, m: Moment)

  lemma TickCommandsDue(before: FC.History, after: FC.History, k: int, actuators: map<string, real>, timeoutMs: int,
                        result: RemoteEngine.TickResult)
    requires RemoteEngine.TickResultAt(before, after, k, actuators, timeoutMs, result)
    ensures FC.TickCommands(after, |after|) == FC.TickCommands(before, |before|) + result.commands
  {
    RemoteEngine.CompleteTickDue(before, after, k);
    RemoteEngine.DrainingEvent(after, |after| - 1);
  }

  lemma FailedTickDue(before: FC.History, after: FC.History)
    requires RemoteEngine.FailedTick(before, after)
    ensures FC.TickCommands(after, |after|) == FC.TickCommands(before, |before|)
  {
    RemoteEngine.AccountsOfPrefix(before, after, |before|);
    RemoteEngine.QuietEvents(after, |before|, |after|);
  }

  /** A request changes nothing that start-up fixed and is a run of three sections. */
  lemma RequestLeads(p: Provider, dev: string, functionId: nat, args: Args, now: int, m: Moment, e: Decay)
    returns (events: seq<Event>)
    requires Sound(p) && p.request.Idle?
    ensures Leads(p, events, e, p.(w := SimProviderRuntime.RuntimeCallAt(p.w, dev, functionId, args, now, m).world), [],
                  0.0)
  {
    var later := Wake(p.w.log, dev, now, m.delay);
    events := [Request(dev, functionId, args, now), Awake(RequestThread, later, m.sample), Apply(RequestThread, later)];
    RequestIsARun(p, dev, functionId, args, now, m, e);
    SilentEvents(events);
  }

  // ---------------------------------------------------------------------------------------------
  // Sim mode
  // ---------------------------------------------------------------------------------------------

  /** What a successful tick has done, as a run and in the account of commands. */
  lemma TickDoneLeads(p: Provider, w': World, h: FC.History, h': FC.History, k: int, snapshot: map<string, real>,
                      ambient: Option<(string, real)>, timeoutMs: int, result: RemoteEngine.TickResult, now: int,
                      resumed: int, noise: nat -> real, ms: nat -> Moment, e: Decay)
    returns (events: seq<Event>)
    requires Sound(p) && TickerIdle(p) && result.sensors.Keys <= Marked(p)
    requires SimProvider.TickDone(p.w, w', h, h', k, p.names, snapshot, ambient, timeoutMs, result, now, resumed, ms)
    ensures Leads(p, events, e, p.(w := w'), CommandsOf(events), 0.0)
    ensures FC.TickCommands(h', |h'|) == FC.TickCommands(h, |h|) + CommandsOf(events)
  {
    TickCommandsDue(h, h', k, WithAmbient(Sim, ambient, snapshot), timeoutMs, result);
    SimTickIsARun(p, result.sensors, result.commands, now, resumed, noise, ms, e);
    events :| Leads(p, events, e, p.(w := w'), result.commands, 0.0);
  }

  lemma TickFailedLeads(p: Provider, h: FC.History, h': FC.History, now: int, noise: nat -> real, e: Decay)
    returns (events: seq<Event>)
    requires Sound(p) && TickerIdle(p) && RemoteEngine.FailedTick(h, h')
    ensures Leads(p, events, e, p.(w := SimProvider.AfterControl(p.w, now)), CommandsOf(events), 0.0)
    ensures FC.TickCommands(h', |h'|) == FC.TickCommands(h, |h|) + CommandsOf(events)
  {
    FailedTickDue(h, h');
    FailedTickIsARun(p, now, noise, e);
    events :| Leads(p, events, e, p.(w := SimProvider.AfterControl(p.w, now)), [], 0.0);
  }

  /** A sim-mode provider between two actions: its shared state and the history of its client. */
  datatype SimState = SimState(w: World, h: FC.History)

  /** What start-up fixed and a tick depends on. */
  datatype SimSetup = SimSetup(names: NameCache, ambient: Option<(string, real)>, timeoutMs: int, paths: seq<string>)

  /**
   * A pass of the ticker at one time: the control pass, then, for a registered client, an exchange with the server
   * that sends the snapshot and succeeds as the last answer says, then sensors and commands of that answer.
   */
  ghost predicate SimTickDone(s: SimState, s': SimState, setup: SimSetup, now: int, resumed: int, ms: nat -> Moment,
                              k: int, snapshot: map<string, real>, result: RemoteEngine.TickResult)
  {
    var w := SimProvider.AfterControl(s.w, now);
    && IsSnapshot(w, snapshot, now)
    && (if FC.Replay(s.h).registered
        then RemoteEngine.TickMade(s.h, s'.h, k, WithAmbient(Sim, setup.ambient, snapshot), setup.timeoutMs,
                                   setup.paths, result)
        else !result.success && s'.h == s.h)
    && s'.w == if !result.success then w
               else CommandsAt(SimProvider.Publish(w, result.sensors), setup.names, result.commands, resumed, ms).world
  }

  ghost predicate SimPassDone(s: SimState, s': SimState, setup: SimSetup, now: int, resumed: int, ms: nat -> Moment) {
    exists k, snapshot, result :: SimTickDone(s, s', setup, now, resumed, ms, k, snapshot, result)
  }

  ghost predicate SimCallDone(s: SimState, s': SimState, dev: string, functionId: nat, args: Args, now: int, m: Moment,
                              end: int)
  {
    var effect := SimProviderRuntime.RuntimeCallAt(s.w, dev, functionId, args, now, m);
    s' == SimState(effect.world, s.h) && end == effect.end
  }

  /** One action has been performed, from one time to another. */
  ghost predicate SimActionDone(s: SimState, now: int, s': SimState, end: int, setup: SimSetup, action: Action) {
    match action
    case Tick(_, rpc, _, ms) => SimPassDone(s, s', setup, now, now + rpc, ms)
    case Call(dev, functionId, args, _, m) => SimCallDone(s, s', dev, functionId, args, now, m, end)
  }

  /** All actions have been performed, one after the other, each after its wait. */
  ghost predicate SimReaches(s: SimState, start: int, setup: SimSetup, actions: seq<Action>, s': SimState, end: int) {
    if actions == [] then s' == s && end == start
    else
      var n := |actions| - 1;
      exists mid, t, begin ::
        && SimReaches(s, start, setup, actions[..n], mid, t) && begin == t + actions[n].wait
        && SimActionDone(mid, begin, s', end, setup, actions[n])
  }

  lemma SimReachesOn(s: SimState, start: int, setup: SimSetup, actions: seq<Action>, i: nat, mid: SimState, t: int,
                     begin: int, s': SimState, end: int)
    requires i < |actions| && SimReaches(s, start, setup, actions[..i], mid, t) && begin == t + actions[i].wait
    requires SimActionDone(mid, begin, s', end, setup, actions[i])
    ensures SimReaches(s, start, setup, actions[..i + 1], s', end)
  {
    assert actions[..i + 1][..i] == actions[..i] && actions[..i + 1][i] == actions[i];
  }

  ghost function StateOf(provider: SimProvider.Provider): SimState
    reads provider.manager, provider.manager.factory, provider.manager.factory.temp, provider.manager.factory.motor,
          provider.manager.factory.relay, provider.manager.factory.analog, provider.manager.faults,
          provider.manager.registry, provider.engine.adapter.client
  {
    SimState(provider.manager.Shared(), provider.engine.adapter.client.history)
  }

  ghost function SetupOf(provider: SimProvider.Provider): SimSetup
    reads provider.manager, provider.engine.adapter
  {
    SimSetup(provider.manager.functionIds, provider.manager.ambient,
             RemoteEngine.TimeoutMs(provider.engine.tickRateHz),
             SignalPaths.OwnedPaths(provider.engine.adapter.outputPaths, provider.engine.adapter.registeredDeviceIds))
  }

  /** One tick, whatever the server answers, is a legal run that executes exactly the commands of its ticking answer. */
  method SimTick(provider: SimProvider.Provider, ghost s: SimState, ghost setup: SimSetup, action: Action, now: int,
                 ghost e: Decay)
    returns (end: int, ghost events: seq<Event>)
    requires provider.Valid() && provider.manager.faults.clock <= now && action.Tick?
    requires s == StateOf(provider) && setup == SetupOf(provider)
    modifies provider.manager.factory.temp, provider.manager.factory.motor, provider.manager.factory.relay,
             provider.manager.factory.analog, provider.manager.faults, provider.manager.registry,
             provider.engine.adapter.client
    ensures provider.Valid() && provider.manager.faults.clock <= end
    ensures Leads(old(provider.AsRun()), events, e, provider.AsRun(), CommandsOf(events), 0.0)
    ensures var h, h' := old(provider.engine.adapter.client.history), provider.engine.adapter.client.history;
            FC.TickCommands(h', |h'|) == FC.TickCommands(h, |h|) + CommandsOf(events)
    ensures SimActionDone(s, now, StateOf(provider), end, setup, action)
  {
    ghost var p, h := provider.AsRun(), provider.engine.adapter.client.history;
    var resumed := now + action.rpc;
    var success, snapshot, result;
    ghost var k;
    success, end, k, snapshot, result := provider.TickOnce(now, resumed, action.noise, action.ms);
    assert SimTickDone(s, StateOf(provider), setup, now, resumed, action.ms, k, snapshot, result);
    if success {
      events := TickDoneLeads(p, provider.manager.Shared(), h, provider.engine.adapter.client.history, k, snapshot,
                              provider.manager.ambient, RemoteEngine.TimeoutMs(provider.engine.tickRateHz), result,
                              now, resumed, action.noise, action.ms, e);
    } else {
      events := TickFailedLeads(p, h, provider.engine.adapter.client.history, now, action.noise, e);
    }
  }

  method SimRequest(provider: SimProvider.Provider, ghost s: SimState, dev: string, functionId: nat, args: Args,
                    now: int, m: Moment, ghost e: Decay)
    returns (end: int, ghost events: seq<Event>)
    requires provider.Valid() && provider.manager.faults.clock <= now
    requires s == StateOf(provider)
    modifies provider.manager.factory.temp, provider.manager.factory.motor, provider.manager.factory.relay,
             provider.manager.factory.analog, provider.manager.faults
    ensures provider.Valid() && provider.manager.faults.clock <= end
    ensures CommandsOf(events) == []
    ensures Leads(old(provider.AsRun()), events, e, provider.AsRun(), CommandsOf(events), 0.0)
    ensures SimCallDone(s, StateOf(provider), dev, functionId, args, now, m, end)
  {
    ghost var p := provider.AsRun();
    var code;
    ghost var effect;
    code, end, effect := provider.Call(s.w, dev, functionId, args, now, m);
    events := EffectLeads(p, s.w, dev, functionId, args, now, m, effect, e);
  }

  /** A request leads where its effect says. */
  lemma EffectLeads(p: Provider, w: World, dev: string, functionId: nat, args: Args, now: int, m: Moment,
                    effect: Effect, e: Decay)
    returns (events: seq<Event>)
    requires Sound(p) && p.request.Idle? && p.w == w
    requires effect == SimProviderRuntime.RuntimeCallAt(w, dev, functionId, args, now, m)
    ensures Leads(p, events, e, p.(w := effect.world), [], 0.0)
  {
    events := RequestLeads(p, dev, functionId, args, now, m, e);
  }

  /** The account of commands over two stretches. */
  lemma AccountsAdd(a: seq<FC.Command>, b: seq<FC.Command>, c: seq<FC.Command>, x: seq<Event>, y: seq<Event>)
    requires b == a + CommandsOf(x) && c == b + CommandsOf(y)
    ensures c == a + CommandsOf(x + y)
  {
    CommandsOfConcat(x, y);
  }

  /**
   * Any sequence of ticks and requests on a started provider, against any server: every one of them is performed, the
   * set of physics-driven paths stays as start-up left it, the provider's state is reached by a legal run, and the
   * commands that run executes are those of the ticking answers, in order, each once. The provider itself simulates
   * no time.
   */
  method RunSim(provider: SimProvider.Provider, actions: seq<Action>, start: int, ghost e: Decay)
    returns (end: int, ghost events: seq<Event>)
    requires provider.Valid() && provider.manager.faults.clock <= start
    modifies provider.manager.factory.temp, provider.manager.factory.motor, provider.manager.factory.relay,
             provider.manager.factory.analog, provider.manager.faults, provider.manager.registry,
             provider.engine.adapter.client
    ensures provider.Valid() && provider.manager.registry.driven == old(provider.manager.registry.driven)
    ensures Leads(old(provider.AsRun()), events, e, provider.AsRun(), CommandsOf(events), 0.0)
    ensures var h, h' := old(provider.engine.adapter.client.history), provider.engine.adapter.client.history;
            FC.TickCommands(h', |h'|) == FC.TickCommands(h, |h|) + CommandsOf(events)
    ensures SimReaches(old(StateOf(provider)), start, old(SetupOf(provider)), actions, StateOf(provider), end)
  {
    ghost var p0, h0, setup := provider.AsRun(), provider.engine.adapter.client.history, SetupOf(provider);
    ghost var s0 := StateOf(provider);
    events := [];
    end := start;
    for i := 0 to |actions|
      invariant provider.Valid() && provider.manager.faults.clock <= end
      invariant Leads(p0, events, e, provider.AsRun(), CommandsOf(events), 0.0)
      invariant var h := provider.engine.adapter.client.history;
                FC.TickCommands(h, |h|) == FC.TickCommands(h0, |h0|) + CommandsOf(events)
      invariant SimReaches(s0, start, setup, actions[..i], StateOf(provider), end)
    {
      ghost var more;
      ghost var p, h := provider.AsRun(), provider.engine.adapter.client.history;
      ghost var mid, t := StateOf(provider), end;
      var begin := end + actions[i].wait;
      end, more := SimAction(provider, mid, setup, actions[i], begin, e);
      LeadsOn(p0, events, p, more, provider.AsRun(), e, CommandsOf(events), 0.0, CommandsOf(more), 0.0);
      ghost var h' := provider.engine.adapter.client.history;
      AccountsAdd(FC.TickCommands(h0, |h0|), FC.TickCommands(h, |h|), FC.TickCommands(h', |h'|), events, more);
      events := events + more;
      SimReachesOn(s0, start, setup, actions, i, mid, t, begin, StateOf(provider), end);
    }
    assert actions[..|actions|] == actions;
  }

  method SimAction(provider: SimProvider.Provider, ghost s: SimState, ghost setup: SimSetup, action: Action, now: int,
                   ghost e: Decay)
    returns (end: int, ghost events: seq<Event>)
    requires provider.Valid() && provider.manager.faults.clock <= now
    requires s == StateOf(provider) && setup == SetupOf(provider)
    modifies provider.manager.factory.temp, provider.manager.factory.motor, provider.manager.factory.relay,
             provider.manager.factory.analog, provider.manager.faults, provider.manager.registry,
             provider.engine.adapter.client
    ensures provider.Valid() && provider.manager.faults.clock <= end
    ensures Leads(old(provider.AsRun()), events, e, provider.AsRun(), CommandsOf(events), 0.0)
    ensures var h, h' := old(provider.engine.adapter.client.history), provider.engine.adapter.client.history;
            FC.TickCommands(h', |h'|) == FC.TickCommands(h, |h|) + CommandsOf(events)
    ensures SimActionDone(s, now, StateOf(provider), end, setup, action)
  {
    if action.Tick? {
      end, events := SimTick(provider, s, setup, action, now, e);
    } else {
      end, events := SimRequest(provider, s, action.dev, action.functionId, action.args, now, action.m, e);
    }
  }

  // ---------------------------------------------------------------------------------------------
  // Non-interacting mode
  // ---------------------------------------------------------------------------------------------

  /** A non-interacting provider between two actions, with the clock of its engine. */
  datatype LocalState = LocalState(w: World, lastUpdate: int, simulated: real)

  /** A pass of the ticker: the control pass, then one step of physics over the time passed, up to a quarter second. */
  ghost predicate LocalTickDone(s: LocalState, s': LocalState, now: int, e: Decay) {
    var w, dt := SimProvider.AfterControl(s.w, now), LocalEngine.StepFor(now - s.lastUpdate);
    s' == if now <= s.lastUpdate then LocalState(w, s.lastUpdate, s.simulated)
          else LocalState(w.(fleet := LocalEngine.Stepped(w.fleet, w.devices, dt, e)), now, s.simulated + dt)
  }

  ghost predicate LocalCallDone(s: LocalState, s': LocalState, dev: string, functionId: nat, args: Args, now: int,
                                m: Moment, end: int)
  {
    var effect := SimProviderRuntime.RuntimeCallAt(s.w, dev, functionId, args, now, m);
    s' == s.(w := effect.world) && end == effect.end
  }

  ghost predicate LocalActionDone(s: LocalState, now: int, s': LocalState, end: int, action: Action, e: Decay) {
    match action
    case Tick(_, _, _, _) => LocalTickDone(s, s', now, e) && end == now
    case Call(dev, functionId, args, _, m) => LocalCallDone(s, s', dev, functionId, args, now, m, end)
  }

  ghost predicate LocalReaches(s: LocalState, start: int, actions: seq<Action>, s': LocalState, end: int, e: Decay) {
    if actions == [] then s' == s && end == start
    else
      var n := |actions| - 1;
      exists mid, t, begin ::
        && LocalReaches(s, start, actions[..n], mid, t, e) && begin == t + actions[n].wait
        && LocalActionDone(mid, begin, s', end, actions[n], e)
  }

  lemma LocalReachesOn(s: LocalState, start: int, actions: seq<Action>, i: nat, mid: LocalState, t: int, begin: int,
                       s': LocalState, end: int, e: Decay)
    requires i < |actions| && LocalReaches(s, start, actions[..i], mid, t, e) && begin == t + actions[i].wait
    requires LocalActionDone(mid, begin, s', end, actions[i], e)
    ensures LocalReaches(s, start, actions[..i + 1], s', end, e)
  {
    assert actions[..i + 1][..i] == actions[..i] && actions[..i + 1][i] == actions[i];
  }

  ghost function LocalStateOf(provider: SimProvider.LocalProvider): LocalState
    reads provider.manager, provider.manager.factory, provider.manager.factory.temp, provider.manager.factory.motor,
          provider.manager.factory.relay, provider.manager.factory.analog, provider.manager.faults,
          provider.manager.registry, provider.engine
  {
    LocalState(provider.manager.Shared(), provider.engine.lastUpdate, provider.engine.simulated)
  }

  /** A tick of the local engine is a legal run over the simulated time that the engine accounts for. */
  lemma LocalTickLeads(p: Provider, w': World, lastUpdate: int, now: int, elapsed: real, noise: nat -> real, e: Decay)
    returns (events: seq<Event>)
    requires Sound(p) && TickerIdle(p)
    requires var w := SimProvider.AfterControl(p.w, now);
             w' == if now > lastUpdate then w.(fleet := LocalEngine.Stepped(w.fleet, w.devices, elapsed, e)) else w
    requires elapsed == if now > lastUpdate then LocalEngine.StepFor(now - lastUpdate) else 0.0
    ensures Leads(p, events, e, p.(w := w'), [], SimulatedTime(events)) && SimulatedTime(events) == elapsed
  {
    if now > lastUpdate {
      LocalEngine.StepIsPositive(now - lastUpdate, 0);
      LocalTickIsARun(p, now, elapsed, noise, e);
      events :| Leads(p, events, e, p.(w := w'), [], elapsed);
    } else {
      FailedTickIsARun(p, now, noise, e);
      events :| Leads(p, events, e, p.(w := w'), [], 0.0);
    }
  }

  method LocalTick(provider: SimProvider.LocalProvider, ghost s: LocalState, now: int, noise: nat -> real, e: Decay)
    returns (ghost events: seq<Event>, ghost s': LocalState)
    requires provider.Valid() && provider.manager.faults.clock <= now && s == LocalStateOf(provider)
    modifies provider.manager.factory.temp, provider.manager.factory.motor, provider.manager.factory.relay,
             provider.manager.factory.analog, provider.manager.faults, provider.engine
    ensures provider.Valid() && provider.manager.faults.clock <= now
    ensures Leads(old(provider.AsRun()), events, e, provider.AsRun(), [], SimulatedTime(events))
    ensures s' == LocalStateOf(provider) && s'.simulated == s.simulated + SimulatedTime(events)
    ensures LocalTickDone(s, s', now, e)
  {
    ghost var p := provider.AsRun();
    var success;
    ghost var w', elapsed;
    success, w', elapsed := provider.Tick(s.w, now, noise, e);
    s' := LocalState(w', if now > s.lastUpdate then now else s.lastUpdate, s.simulated + elapsed);
    events := LocalTickLeads(p, w', s.lastUpdate, now, elapsed, noise, e);
  }

  method LocalRequest(provider: SimProvider.LocalProvider, ghost s: LocalState, dev: string, functionId: nat,
                      args: Args, now: int, m: Moment, ghost e: Decay)
    returns (end: int, ghost events: seq<Event>)
    requires provider.Valid() && provider.manager.faults.clock <= now && s == LocalStateOf(provider)
    modifies provider.manager.factory.temp, provider.manager.factory.motor, provider.manager.factory.relay,
             provider.manager.factory.analog, provider.manager.faults
    ensures provider.Valid() && provider.manager.faults.clock <= end
    ensures Leads(old(provider.AsRun()), events, e, provider.AsRun(), [], SimulatedTime(events))
    ensures SimulatedTime(events) == 0.0
    ensures LocalCallDone(s, LocalStateOf(provider), dev, functionId, args, now, m, end)
  {
    ghost var p := provider.AsRun();
    var code;
    ghost var effect;
    code, end, effect := provider.Call(s.w, dev, functionId, args, now, m);
    events := EffectLeads(p, s.w, dev, functionId, args, now, m, effect, e);
  }

  method LocalAction(provider: SimProvider.LocalProvider, ghost s: LocalState, action: Action, now: int, e: Decay)
    returns (end: int, ghost events: seq<Event>)
    requires provider.Valid() && provider.manager.faults.clock <= now && s == LocalStateOf(provider)
    modifies provider.manager.factory.temp, provider.manager.factory.motor, provider.manager.factory.relay,
             provider.manager.factory.analog, provider.manager.faults, provider.engine
    ensures provider.Valid() && provider.manager.faults.clock <= end
    ensures Leads(old(provider.AsRun()), events, e, provider.AsRun(), [], SimulatedTime(events))
    ensures provider.engine.simulated == old(provider.engine.simulated) + SimulatedTime(events)
    ensures LocalActionDone(s, now, LocalStateOf(provider), end, action, e)
  {
    if action.Tick? {
      ghost var s';
      end := now;
      events, s' := LocalTick(provider, s, end, action.noise, e);
    } else {
      end, events := LocalRequest(provider, s, action.dev, action.functionId, action.args, now, action.m, e);
    }
  }

  /**
   * Any sequence of ticks and requests in non-interacting mode: every one of them is performed, no path ever becomes
   * physics-driven, no command is executed, and the state is reached by a legal run whose simulated time is the
   * engine's, so at most real time.
   */
  method RunLocal(provider: SimProvider.LocalProvider, actions: seq<Action>, start: int, e: Decay)
    returns (end: int, ghost events: seq<Event>)
    requires provider.Valid() && provider.manager.faults.clock <= start
    modifies provider.manager.factory.temp, provider.manager.factory.motor, provider.manager.factory.relay,
             provider.manager.factory.analog, provider.manager.faults, provider.engine
    ensures provider.Valid() && provider.manager.registry.driven == {}
    ensures Leads(old(provider.AsRun()), events, e, provider.AsRun(), [], SimulatedTime(events))
    ensures provider.engine.simulated == old(provider.engine.simulated) + SimulatedTime(events)
    ensures provider.engine.simulated
            <= LocalEngine.Seconds(provider.engine.lastUpdate - provider.engine.initialized)
    ensures LocalReaches(old(LocalStateOf(provider)), start, actions, LocalStateOf(provider), end, e)
  {
    ghost var p0, s0 := provider.AsRun(), provider.engine.simulated;
    ghost var first := LocalStateOf(provider);
    events := [];
    end := start;
    for i := 0 to |actions|
      invariant provider.Valid() && provider.manager.faults.clock <= end
      invariant Leads(p0, events, e, provider.AsRun(), [], SimulatedTime(events))
      invariant provider.engine.simulated == s0 + SimulatedTime(events)
      invariant LocalReaches(first, start, actions[..i], LocalStateOf(provider), end, e)
    {
      ghost var more;
      ghost var p := provider.AsRun();
      ghost var mid, t := LocalStateOf(provider), end;
      var begin := end + actions[i].wait;
      end, more := LocalAction(provider, mid, actions[i], begin, e);
      LeadsOn(p0, events, p, more, provider.AsRun(), e, [], SimulatedTime(events), [], SimulatedTime(more));
      events := events + more;
      LocalReachesOn(first, start, actions, i, mid, t, begin, LocalStateOf(provider), end, e);
    }
    assert actions[..|actions|] == actions;
  }

  // ---------------------------------------------------------------------------------------------
  // From start-up on
  // ---------------------------------------------------------------------------------------------

  /** After a run every device of the provider is within the guarantees of its type. */
  ghost predicate DevicesWithin(p: Provider, events: seq<Event>, e: Decay) {
    forall id :: id in p.w.devices ==> DeviceWithin(p, events, e, id)
  }

  ghost predicate DeviceWithin(p: Provider, events: seq<Event>, e: Decay, id: string)
    requires id in p.w.devices
  {
    var fleet := Run(p, events, e).w.fleet;
    match TypeIn(p.w.devices, id)
    case Some(Tempctl) =>
      var s := TempCtl.Lookup(fleet.temp, id);
      && TempCtl.WithinBounds(s, TempCtl.InitialState(ConfigOf(p, id)).tc1)
      && s.tc1 - s.tc2 == TempCtl.CHANNEL_OFFSET * (1.0 - e(SimulatedTime(events) / TempCtl.TAU))
    case Some(Motorctl) =>
      var s := MotorCtl.Lookup(fleet.motor, id);
      MotorCtl.WithinLimits(s) && s.maxRpm == MaxSpeed(p.w.devices[id]).GetOr(3200.0)
    case Some(Relayio) => RelaysShow(RelayIO.Lookup(fleet.relay, id), RelayTrace(p, events, e, id))
    case Some(Analogsensor) => AnalogSensor.Consistent(AnalogSensor.Lookup(fleet.analog, id))
    case None => false
  }

  /** Relays show the last calls for their channels that got through, inputs the relays of the last tick. */
  ghost predicate RelaysShow(s: RelayIO.State, trace: seq<RelayIO.Op>) {
    forall k: nat :: RelayIO.IsChannel(k) ==>
      && RelayIO.Relay(s, k) == RelayIO.LastCommand(trace, k).GetOr(false)
      && RelayIO.Input(s, k) == RelayIO.InputAfter(RelayIO.DEFAULT, trace, k)
  }

  lemma FreshRunsStayWithin(p: Provider, events: seq<Event>, e: Decay)
    requires Fresh(p) && Legal(p, events, e) && IsDecay(e)
    ensures DevicesWithin(p, events, e)
  {
    forall id | id in p.w.devices ensures DeviceWithin(p, events, e, id) {
      match TypeIn(p.w.devices, id)
      case Some(Tempctl) => TempGuarantees(p, events, e, id);
      case Some(Motorctl) => MotorGuarantees(p, events, e, id);
      case Some(Relayio) => RelaysStayWithin(p, events, e, id);
      case Some(Analogsensor) => AnalogGuarantees(p, events, e, id);
      case None =>
    }
  }

  lemma RelaysStayWithin(p: Provider, events: seq<Event>, e: Decay, id: string)
    requires Fresh(p) && Legal(p, events, e) && TypeIn(p.w.devices, id) == Some(Relayio)
    ensures RelaysShow(RelayIO.Lookup(Run(p, events, e).w.fleet.relay, id), RelayTrace(p, events, e, id))
  {
    forall k: nat | RelayIO.IsChannel(k)
      ensures RelayIO.Relay(RelayIO.Lookup(Run(p, events, e).w.fleet.relay, id), k)
              == RelayIO.LastCommand(RelayTrace(p, events, e, id), k).GetOr(false)
      ensures RelayIO.Input(RelayIO.Lookup(Run(p, events, e).w.fleet.relay, id), k)
              == RelayIO.InputAfter(RelayIO.DEFAULT, RelayTrace(p, events, e, id), k)
    {
      RelayGuarantees(p, events, e, id, k);
    }
  }

  /**
   * A provider started in non-interacting mode from any configuration, after any sequence of ticks and requests: all
   * its devices are within the guarantees of their types, over the simulated time its engine accounts for.
   */
  method StartAndRunLocal(factory: Factory, faults: FI.FaultStore, registry: Registry, specs: seq<Spec>,
                          policy: Policy, actions: seq<Action>, start: int, e: Decay)
    returns (started: Option<SimProvider.LocalProvider>, ghost p: Provider, ghost events: seq<Event>,
             ghost end: int)
    requires faults.Valid() && faults.clock <= start && registry.cache == map[] && registry.driven == {}
    requires (forall s :: s in specs ==> s.id != ChaosControl.DEVICE_ID) && IsDecay(e)
    modifies factory, factory.temp, factory.motor, factory.relay, factory.analog, faults, registry
    ensures started.None? <==> policy == Strict && RejectedSpecs(specs) != []
    ensures started.Some? ==>
              && started.value.Valid() && Fresh(p) && p.w.devices == Registered(specs)
              && Leads(p, events, e, started.value.AsRun(), [], started.value.engine.simulated)
              && DevicesWithin(p, events, e)
              && LocalReaches(LocalState(p.w, start, 0.0), start, actions, LocalStateOf(started.value), end, e)
  {
    events, end := [], start;
    started := SimProvider.StartLocal(factory, faults, registry, specs, policy, start);
    if started.Some? {
      p := started.value.AsRun();
      end, events := RunLocal(started.value, actions, start, e);
      FreshRunsStayWithin(p, events, e);
    } else {
      p := Provider(World(factory.States(), map[], false, {}, map[], []), None, Idle, Idle, map[], [], {});
    }
  }

  /**
   * The same for a provider started in sim mode, against any server: its devices are within their guarantees, and
   * the physics-driven paths are still the edge targets of the devices that came up.
   */
  method StartAndRunSim(factory: Factory, faults: FI.FaultStore, registry: Registry, engine: RemoteEngine.Engine,
                        specs: seq<Spec>, policy: Policy, name: string, content: seq<ConfigHash.byte>,
                        targets: seq<Option<string>>, connected: bool, ambientTemp: Option<real>,
                        ambientPath: Option<string>, actions: seq<Action>, start: int, ghost e: Decay)
    returns (started: Option<SimProvider.Provider>, ghost p: Provider, ghost events: seq<Event>, ghost h: FC.History,
             ghost end: int)
    requires faults.Valid() && faults.clock <= start && registry.cache == map[] && registry.driven == {}
    requires engine.Valid() && IsDecay(e)
    requires forall s :: s in specs ==> s.id != ChaosControl.DEVICE_ID
    modifies factory, factory.temp, factory.motor, factory.relay, factory.analog, faults, registry, engine,
             engine.adapter, engine.adapter.client
    ensures started.Some?
            <==> && !(policy == Strict && RejectedSpecs(specs) != [])
                 && connected
                 && SimProvider.EngineAccepted(engine.adapter.client.server, old(engine.adapter.client.turn))
                 && !(ambientTemp.Some? && ambientPath == Some(""))
    ensures started.Some? ==>
              && started.value.Valid() && Fresh(p) && p.w.devices == Registered(specs)
              && registry.driven
                 == SimProvider.ReadPaths(FluxGraphAdapter.Dedup(targets), set id | id in AcceptedIds(specs))
              && Leads(p, events, e, started.value.AsRun(), CommandsOf(events), 0.0)
              && DevicesWithin(p, events, e)
              && SimReaches(SimState(p.w, h), start, SetupOf(started.value), actions, StateOf(started.value), end)
  {
    events, h, end := [], [], start;
    started := SimProvider.StartSim(factory, faults, registry, engine, specs, policy, name, content, targets,
                                    connected, ambientTemp, ambientPath, start);
    if started.Some? {
      p := started.value.AsRun();
      h := engine.adapter.client.history;
      end, events := RunSim(started.value, actions, start, e);
      FreshRunsStayWithin(p, events, e);
    } else {
      p := Provider(World(factory.States(), map[], false, {}, map[], []), None, Idle, Idle, map[], [], {});
    }
  }
}
