/**
 * Whole runs of the provider: requests, control sections, physics ticks, published sensors and simulation
 * commands in any interleaving. Each run is shown to be, device by device, a run of that device's own machine,
 * so that what holds of the machines holds of the provider.
 */
module ProviderRuns {
  import opened Basics
  import opened SignalPaths
  import opened Relaxation
  import opened DeviceFactory
  import opened DeviceAdapter
  import opened DeviceManager
  import opened SimProviderRuntime
  import FI = FaultInjection
  import FC = FluxGraphClient
  import ChaosControl
  import LocalEngine
  import TempCtl
  import MotorCtl
  import RelayIO
  import AnalogSensor

  datatype Thread = RequestThread | TickerThread

  /** Where a thread stands inside call_function: asleep for the injected latency, or past the failure rule. */
  datatype Call =
    | Idle
    | Sleeping(dev: string, functionId: nat, args: Args, until: int)
    | Passed(dev: string, functionId: nat, args: Args)

  /**
   * The provider between two critical sections. `turn` is where the ticker thread stands inside update_control,
   * if it does. The name cache, the engine's output paths and the active devices were fixed at start-up.
   */
  datatype Provider = Provider(w: World, turn: Option<(string, TempCtl.Controller)>, request: Call, command: Call,
                               names: NameCache, outputs: seq<string>, active: set<string>)

  datatype Event =
    | Request(dev: string, functionId: nat, args: Args, now: int)
    | Command(cmd: FC.Command, now: int)
    | Awake(thread: Thread, now: int, sample: real)
    | Apply(thread: Thread, now: int)
    | ControlCheck(id: string)
    | ControlRead(now: int, noise: nat -> real)
    | ControlAct
    | Physics(dt: real)
    | Published(path: string, value: real)

  function CallOf(p: Provider, thread: Thread): Call {
    match thread
    case RequestThread => p.request
    case TickerThread => p.command
  }

  function WithCall(p: Provider, thread: Thread, call: Call): Provider {
    match thread
    case RequestThread => p.(request := call)
    case TickerThread => p.(command := call)
  }

  /** The ticker thread does one thing after the other. */
  predicate TickerIdle(p: Provider) {
    p.turn.None? && p.command.Idle?
  }

  /** The paths start-up marks. */
  function Marked(p: Provider): set<string> {
    set q | q in OwnedPaths(p.outputs, p.active)
  }

  /**
   * What an event needs: threads are sequential, a sleep lasts at least the latency, simulated time moves forward,
   * and sensors come from an adapter that reads the output paths owned by an active device.
   */
  predicate Enabled(p: Provider, e: Event) {
    match e
    case Request(_, _, _, _) => p.request.Idle?
    case Awake(thread, now, _) => CallOf(p, thread).Sleeping? ==> CallOf(p, thread).until <= now
    case Command(_, _) => TickerIdle(p)
    case ControlCheck(_) => TickerIdle(p)
    case Physics(dt) => TickerIdle(p) && dt >= 0.0
    case Published(path, _) => TickerIdle(p) && path in OwnedPaths(p.outputs, p.active)
    case _ => true
  }

  function CachedId(names: NameCache, cmd: FC.Command): Option<nat> {
    if cmd.device in names && cmd.function_ in names[cmd.device] then Some(names[cmd.device][cmd.function_]) else None
  }

  /** The fault gates in front of a call: those of the runtime for a request, of the device manager for a command. */
  predicate GateOpen(w: World, thread: Thread, dev: string, now: int) {
    (thread == RequestThread ==> !Unreachable(w, dev, now)) && !Unavailable(w, dev, now)
  }

  function Begin(p: Provider, thread: Thread, dev: string, functionId: nat, args: Args, now: int): Provider {
    if !GateOpen(p.w, thread, dev, now) then p
    else WithCall(p, thread, Sleeping(dev, functionId, args, Wake(p.w.log, dev, now, 0)))
  }

  function Step(p: Provider, event: Event, e: Decay): Provider {
    match event
    case Request(dev, functionId, args, now) => Begin(p, RequestThread, dev, functionId, args, now)
    case Command(cmd, now) =>
      (match CachedId(p.names, cmd)
       case None => p
       case Some(functionId) => Begin(p, TickerThread, cmd.device, functionId, ToArgs(cmd.args), now))
    case Awake(thread, now, sample) =>
      var c := CallOf(p, thread);
      if !c.Sleeping? then p
      else if FI.CallFails(p.w.log, c.dev, ChaosControl.Decimal(c.functionId), sample) then WithCall(p, thread, Idle)
      else WithCall(p, thread, Passed(c.dev, c.functionId, c.args))
    case Apply(thread, now) =>
      var c := CallOf(p, thread);
      if !c.Passed? then p
      else WithCall(p.(w := DispatchAt(p.w, c.dev, c.functionId, c.args, now).0), thread, Idle)
    case ControlCheck(id) =>
      if TypeIn(p.w.devices, id) == Some(Tempctl) && TempCtl.Lookup(p.w.fleet.temp, id).mode == TempCtl.Closed
      then p.(turn := Some((id, TempCtl.SawClosed))) else p
    case ControlRead(now, noise) =>
      if p.turn.None? || p.turn.value.1 != TempCtl.SawClosed then p
      else
        (match RegistryAnswer(p.w, Join(p.turn.value.0, "tc1_temp"), now, noise)
         case None => p.(turn := None)
         case Some(temp) => p.(turn := Some((p.turn.value.0, TempCtl.Holding(temp)))))
    case ControlAct =>
      if p.turn.None? || !p.turn.value.1.Holding? then p
      else
        var id := p.turn.value.0;
        var s := TempCtl.Lookup(p.w.fleet.temp, id);
        var s' := if s.mode == TempCtl.Closed then TempCtl.Control(s, p.turn.value.1.temp) else s;
        p.(turn := None, w := p.w.(fleet := p.w.fleet.(temp := p.w.fleet.temp[id := s'])))
    case Physics(dt) => p.(w := p.w.(fleet := LocalEngine.Stepped(p.w.fleet, p.w.devices, dt, e)))
    case Published(path, value) =>
      p.(w := p.w.(driven := p.w.driven + {path}, cache := p.w.cache[path := value]))
  }

  function Run(p: Provider, events: seq<Event>, e: Decay): Provider {
    if events == [] then p else Step(Run(p, events[..|events| - 1], e), events[|events| - 1], e)
  }

  ghost predicate Legal(p: Provider, events: seq<Event>, e: Decay) {
    events != [] ==>
      && Legal(p, events[..|events| - 1], e)
      && Enabled(Run(p, events[..|events| - 1], e), events[|events| - 1])
  }

  /** A run followed by one more event. */
  lemma RunSteps(p: Provider, a: seq<Event>, event: Event, e: Decay)
    ensures Run(p, a + [event], e) == Step(Run(p, a, e), event, e)
    ensures Legal(p, a + [event], e) <==> Legal(p, a, e) && Enabled(Run(p, a, e), event)
  {
    assert (a + [event])[..|a|] == a;
  }

  lemma {:induction false} RunConcat(p: Provider, a: seq<Event>, b: seq<Event>, e: Decay)
    ensures Run(p, a + b, e) == Run(Run(p, a, e), b, e)
    ensures Legal(p, a + b, e) <==> Legal(p, a, e) && Legal(Run(p, a, e), b, e)
  {
    if b == [] {
      assert a + b == a;
    } else {
      RunConcat(p, a, b[..|b| - 1], e);
      assert (a + b)[..|a + b| - 1] == a + b[..|b| - 1];
    }
  }

  // ---------------------------------------------------------------------------------------------
  // The shared state
  // ---------------------------------------------------------------------------------------------

  /** What start-up established never changes. */
  predicate SameSetup(p: Provider, p': Provider) {
    p'.w.devices == p.w.devices && p'.names == p.names && p'.outputs == p.outputs && p'.active == p.active
  }

  ghost predicate Sound(p: Provider) {
    && Coherent(p.w) && p.w.loaded
    && p.w.driven == Marked(p)
    && (p.turn.Some? ==> TypeIn(p.w.devices, p.turn.value.0) == Some(Tempctl))
  }

  /** A provider as start-up leaves it: nothing in progress, every device in its configured initial state. */
  ghost predicate Fresh(p: Provider) {
    && Sound(p) && p.turn.None? && p.request.Idle? && p.command.Idle?
    && forall id :: id in p.w.devices ==> Accepts(p.w.devices[id]) && Initialised(p.w.fleet, p.w.devices[id])
  }

  lemma DispatchKeepsRegistry(w: World, dev: string, functionId: nat, args: Args, now: int)
    requires Coherent(w)
    ensures var w' := DispatchAt(w, dev, functionId, args, now).0;
            Coherent(w') && w' == w.(fleet := w'.fleet, log := w'.log)
  {
    var a := AdapterIn(w, dev);
    if a.Some? && a.value.TypeAdapter? {
      DispatchKeepsStates(w.fleet, a.value.t, dev, functionId, args);
    }
  }

  lemma CallKeepsSound(p: Provider, event: Event, e: Decay)
    requires Sound(p) && CallEvent(event)
    ensures Sound(Step(p, event, e)) && SameSetup(p, Step(p, event, e))
  {
    if event.Apply? && CallOf(p, event.thread).Passed? {
      var c := CallOf(p, event.thread);
      DispatchKeepsRegistry(p.w, c.dev, c.functionId, c.args, event.now);
    }
  }

  lemma PhysicsKeepsCoherence(w: World, dt: real, e: Decay)
    requires Coherent(w)
    ensures Coherent(w.(fleet := LocalEngine.Stepped(w.fleet, w.devices, dt, e)))
  {
  }

  lemma TickerKeepsSound(p: Provider, event: Event, e: Decay)
    requires Sound(p) && Enabled(p, event) && !CallEvent(event)
    ensures Sound(Step(p, event, e)) && SameSetup(p, Step(p, event, e))
  {
    if event.Physics? {
      PhysicsKeepsCoherence(p.w, event.dt, e);
    } else if event.Published? {
      assert p.w.driven + {event.path} == p.w.driven;
    }
  }

  lemma StepKeepsSound(p: Provider, event: Event, e: Decay)
    requires Sound(p) && Enabled(p, event)
    ensures Sound(Step(p, event, e)) && SameSetup(p, Step(p, event, e))
  {
    if CallEvent(event) {
      CallKeepsSound(p, event, e);
    } else {
      TickerKeepsSound(p, event, e);
    }
  }

  /**
   * On every run, in every mode, the set of physics-driven paths is the one start-up marked, the registry
   * publishes nothing else, and the registered devices keep their states.
   */
  lemma {:induction false} PhysicsPathsAreFixed(p: Provider, events: seq<Event>, e: Decay)
    requires Sound(p) && Legal(p, events, e)
    ensures Sound(Run(p, events, e)) && SameSetup(p, Run(p, events, e)) && Run(p, events, e).w.driven == Marked(p)
  {
    if events != [] {
      var front := events[..|events| - 1];
      PhysicsPathsAreFixed(p, front, e);
      StepKeepsSound(Run(p, front, e), events[|events| - 1], e);
    }
  }

  // ---------------------------------------------------------------------------------------------
  // Gates and sleeps
  // ---------------------------------------------------------------------------------------------

  /** The event with which a thread began the call it is in. */
  ghost predicate Began(p: Provider, event: Event, thread: Thread, dev: string, functionId: nat, args: Args) {
    match event
    case Request(d, f, a, now) =>
      && thread == RequestThread && d == dev && f == functionId && a == args
      && GateOpen(p.w, thread, dev, now)
    case Command(cmd, now) =>
      && thread == TickerThread && cmd.device == dev && CachedId(p.names, cmd) == Some(functionId)
      && ToArgs(cmd.args) == args && GateOpen(p.w, thread, dev, now)
    case _ => false
  }

  predicate SameCall(c: Call, d: Call) {
    !c.Idle? && !d.Idle? && c.dev == d.dev && c.functionId == d.functionId && c.args == d.args
  }

  ghost predicate BeginsAt(p: Provider, events: seq<Event>, e: Decay, i: nat, thread: Thread, c: Call)
    requires i < |events| && !c.Idle?
  {
    Began(Run(p, events[..i], e), events[i], thread, c.dev, c.functionId, c.args)
  }

  /** After i events the thread is in this call. */
  ghost predicate InCallAt(p: Provider, events: seq<Event>, e: Decay, i: nat, thread: Thread, c: Call)
    requires i <= |events|
  {
    SameCall(CallOf(Run(p, events[..i], e), thread), c)
  }

  /** Event i began the call, and the thread has been in that very call ever since. */
  ghost predicate BeganAt(p: Provider, events: seq<Event>, e: Decay, i: int, thread: Thread, c: Call)
    requires !c.Idle?
  {
    && 0 <= i < |events| && BeginsAt(p, events, e, i, thread, c)
    && (forall j :: i < j <= |events| ==> InCallAt(p, events, e, j, thread, c))
    && (forall j :: i < j < |events| ==> !BeginsAt(p, events, e, j, thread, c))
  }

  /** A call in progress was begun by an event at which every fault gate in front of its device stood open. */
  lemma {:induction false} CallsPassedTheirGates(p: Provider, events: seq<Event>, e: Decay, thread: Thread)
    requires CallOf(p, thread).Idle? && !CallOf(Run(p, events, e), thread).Idle?
    ensures exists i :: BeganAt(p, events, e, i, thread, CallOf(Run(p, events, e), thread))
  {
    var n := |events| - 1;
    var front := events[..n];
    var before, c := CallOf(Run(p, front, e), thread), CallOf(Run(p, events, e), thread);
    assert events[..n + 1] == events;
    if SameCall(before, c) && !Began(Run(p, front, e), events[n], thread, c.dev, c.functionId, c.args) {
      CallsPassedTheirGates(p, front, e, thread);
      var i :| BeganAt(p, front, e, i, thread, before);
      BeginningStands(p, events, e, i, thread, before, c);
    } else {
      StartsOnlyThroughGates(Run(p, front, e), events[n], e, thread);
      assert BeganAt(p, events, e, n, thread, c);
    }
  }

  lemma BeginningStands(p: Provider, events: seq<Event>, e: Decay, i: int, thread: Thread, before: Call, c: Call)
    requires events != [] && SameCall(before, c) && InCallAt(p, events, e, |events|, thread, c)
    requires BeganAt(p, events[..|events| - 1], e, i, thread, before)
    requires !BeginsAt(p, events, e, |events| - 1, thread, c)
    ensures BeganAt(p, events, e, i, thread, c)
  {
    var n := |events| - 1;
    var front := events[..n];
    SamePast(p, events, e, i, thread, before, c);
    forall j | i < j <= n ensures InCallAt(p, events, e, j, thread, c) {
      assert InCallAt(p, front, e, j, thread, before);
      SamePast(p, events, e, j, thread, before, c);
    }
    forall j | i < j < n ensures !BeginsAt(p, events, e, j, thread, c) {
      assert !BeginsAt(p, front, e, j, thread, before);
      SamePast(p, events, e, j, thread, before, c);
    }
  }

  lemma SamePast(p: Provider, events: seq<Event>, e: Decay, j: nat, thread: Thread, before: Call, c: Call)
    requires j < |events| && SameCall(before, c)
    ensures var front := events[..|events| - 1];
            && (InCallAt(p, front, e, j, thread, before) <==> InCallAt(p, events, e, j, thread, c))
            && (j < |front| ==> (BeginsAt(p, front, e, j, thread, before) <==> BeginsAt(p, events, e, j, thread, c)))
  {
    assert events[..|events| - 1][..j] == events[..j];
  }

  lemma StartsOnlyThroughGates(p: Provider, event: Event, e: Decay, thread: Thread)
    ensures var before, c := CallOf(p, thread), CallOf(Step(p, event, e), thread);
            c.Idle? || SameCall(before, c) || Began(p, event, thread, c.dev, c.functionId, c.args)
  {
  }

  /** Everything but the thread's own next step in its call. */
  predicate Elsewhere(events: seq<Event>, thread: Thread) {
    forall i :: 0 <= i < |events| ==> !((events[i].Awake? || events[i].Apply?) && events[i].thread == thread)
  }

  lemma {:induction false} CallStands(p: Provider, events: seq<Event>, e: Decay, thread: Thread)
    requires Legal(p, events, e) && Elsewhere(events, thread) && !CallOf(p, thread).Idle?
    ensures CallOf(Run(p, events, e), thread) == CallOf(p, thread)
  {
    if events != [] {
      var front := events[..|events| - 1];
      CallStands(p, front, e, thread);
      StepElsewhere(Run(p, front, e), events[|events| - 1], e, thread);
    }
  }

  lemma StepElsewhere(p: Provider, event: Event, e: Decay, thread: Thread)
    requires Enabled(p, event) && Elsewhere([event], thread) && !CallOf(p, thread).Idle?
    ensures CallOf(Step(p, event, e), thread) == CallOf(p, thread)
  {
    assert !(([event][0].Awake? || [event][0].Apply?) && [event][0].thread == thread);
  }

  lemma TheRuleDecidesAtWakeUp(p: Provider, sleep: seq<Event>, now: int, sample: real, e: Decay, thread: Thread)
    requires CallOf(p, thread).Sleeping? && Elsewhere(sleep, thread)
    requires Legal(p, sleep + [Awake(thread, now, sample)], e)
    ensures var c, woken := CallOf(p, thread), Run(p, sleep + [Awake(thread, now, sample)], e);
            && woken.w == Run(p, sleep, e).w
            && CallOf(woken, thread)
               == (if FI.CallFails(woken.w.log, c.dev, ChaosControl.Decimal(c.functionId), sample) then Idle
                   else Passed(c.dev, c.functionId, c.args))
  {
    RunSteps(p, sleep, Awake(thread, now, sample), e);
    CallStands(p, sleep, e, thread);
  }

  lemma PassedCallIsApplied(p: Provider, later: int, e: Decay, thread: Thread)
    requires Sound(p) && CallOf(p, thread).Passed? && CallOf(p, thread).dev in p.w.devices
    ensures var c := CallOf(p, thread);
            Step(p, Apply(thread, later), e).w.fleet
            == Dispatch(p.w.fleet, TypeIn(p.w.devices, c.dev).value, c.dev, c.functionId, c.args).0
  {
  }

  /**
   * What becomes of a call that sleeps, whatever happens while it does: it passes exactly when the failure rule found
   * at wake-up spares it, and what it is then applied to is the device as it stands, whatever faults are on it.
   */
  lemma OnlyTheFailureRuleStopsACall(p: Provider, sleep: seq<Event>, now: int, sample: real, rest: seq<Event>,
                                     later: int, e: Decay, thread: Thread)
    requires Sound(p) && CallOf(p, thread).Sleeping? && CallOf(p, thread).dev in p.w.devices
    requires Elsewhere(sleep, thread) && Elsewhere(rest, thread)
    requires Legal(p, sleep + [Awake(thread, now, sample)] + rest, e)
    ensures var c, woken := CallOf(p, thread), Run(p, sleep + [Awake(thread, now, sample)], e);
            var fails := FI.CallFails(Run(p, sleep, e).w.log, c.dev, ChaosControl.Decimal(c.functionId), sample);
            && woken.w == Run(p, sleep, e).w
            && CallOf(woken, thread) == (if fails then Idle else Passed(c.dev, c.functionId, c.args))
    ensures var c, q := CallOf(p, thread), Run(p, sleep + [Awake(thread, now, sample)] + rest, e);
            CallOf(Run(p, sleep + [Awake(thread, now, sample)], e), thread).Passed? ==>
              Step(q, Apply(thread, later), e).w.fleet
              == Dispatch(q.w.fleet, TypeIn(p.w.devices, c.dev).value, c.dev, c.functionId, c.args).0
  {
    var front := sleep + [Awake(thread, now, sample)];
    RunConcat(p, front, rest, e);
    TheRuleDecidesAtWakeUp(p, sleep, now, sample, e, thread);
    if CallOf(Run(p, front, e), thread).Passed? {
      CallStands(Run(p, front, e), rest, e, thread);
      PhysicsPathsAreFixed(p, front + rest, e);
      PassedCallIsApplied(Run(p, front + rest, e), later, e, thread);
    }
  }

  lemma {:induction false} LogOnlyGrows(p: Provider, events: seq<Event>, e: Decay)
    ensures p.w.log <= Run(p, events, e).w.log
  {
    if events != [] {
      var front := events[..|events| - 1];
      LogOnlyGrows(p, front, e);
      StepKeepsLog(Run(p, front, e), events[|events| - 1], e);
    }
  }

  lemma StepKeepsLog(p: Provider, event: Event, e: Decay)
    ensures p.w.log <= Step(p, event, e).w.log
  {
  }

  /** In particular no other fault injected during the sleep, and no fault on another device, decides about it. */
  lemma OtherFaultsDoNotStopACall(p: Provider, sleep: seq<Event>, now: int, sample: real, e: Decay, thread: Thread)
    requires CallOf(p, thread).Sleeping? && Elsewhere(sleep, thread)
    requires Legal(p, sleep + [Awake(thread, now, sample)], e)
    requires var c, log := CallOf(p, thread), Run(p, sleep, e).w.log;
             forall i :: |p.w.log| <= i < |log| ==> FI.Besides(log[i], c.dev, ChaosControl.Decimal(c.functionId))
    ensures var c := CallOf(p, thread);
            CallOf(Run(p, sleep + [Awake(thread, now, sample)], e), thread).Passed?
            <==> !FI.CallFails(p.w.log, c.dev, ChaosControl.Decimal(c.functionId), sample)
  {
    var c, log := CallOf(p, thread), Run(p, sleep, e).w.log;
    RunSteps(p, sleep, Awake(thread, now, sample), e);
    CallStands(p, sleep, e, thread);
    LogOnlyGrows(p, sleep, e);
    assert log == p.w.log + log[|p.w.log|..];
    FI.RuleOutlastsOtherFaults(p.w.log, log[|p.w.log|..], c.dev, ChaosControl.Decimal(c.functionId));
  }

  /** The sections of a request, with nothing in between, amount to a call that nothing interrupts. */
  lemma RequestIsARun(p: Provider, dev: string, functionId: nat, args: Args, now: int, m: Moment, e: Decay)
    requires p.request.Idle?
    ensures var later := Wake(p.w.log, dev, now, m.delay);
            var events := [Request(dev, functionId, args, now), Awake(RequestThread, later, m.sample),
                           Apply(RequestThread, later)];
            && Legal(p, events, e)
            && Run(p, events, e) == p.(w := RuntimeCallAt(p.w, dev, functionId, args, now, m).world)
  {
    var later := Wake(p.w.log, dev, now, m.delay);
    ThreeSteps(p, Request(dev, functionId, args, now), Awake(RequestThread, later, m.sample),
               Apply(RequestThread, later), e);
  }

  /** So do the sections of a command. */
  lemma CommandIsARun(p: Provider, cmd: FC.Command, now: int, m: Moment, e: Decay)
    requires TickerIdle(p)
    ensures Legal(p, CommandEvents(p.w.log, cmd, now, m), e)
    ensures Run(p, CommandEvents(p.w.log, cmd, now, m), e) == p.(w := CommandAt(p.w, p.names, cmd, now, m).world)
  {
    var later := Wake(p.w.log, cmd.device, now, m.delay);
    ThreeSteps(p, Command(cmd, now), Awake(TickerThread, later, m.sample), Apply(TickerThread, later), e);
  }

  function CommandEvents(log: FI.Log, cmd: FC.Command, now: int, m: Moment): seq<Event> {
    var later := Wake(log, cmd.device, now, m.delay);
    [Command(cmd, now), Awake(TickerThread, later, m.sample), Apply(TickerThread, later)]
  }

  lemma ThreeSteps(p: Provider, a: Event, b: Event, c: Event, e: Decay)
    ensures Run(p, [a, b, c], e) == Step(Step(Step(p, a, e), b, e), c, e)
    ensures Legal(p, [a, b, c], e)
            <==> Enabled(p, a) && Enabled(Step(p, a, e), b) && Enabled(Step(Step(p, a, e), b, e), c)
  {
    var none: seq<Event> := [];
    RunSteps(p, none, a, e);
    RunSteps(p, [a], b, e);
    RunSteps(p, [a, b], c, e);
    assert none + [a] == [a] && [a] + [b] == [a, b] && [a, b] + [c] == [a, b, c];
  }

  // ---------------------------------------------------------------------------------------------
  // Which step a device takes
  // ---------------------------------------------------------------------------------------------

  /** The function id and arguments of a call that an event applies to device `id`, if it does. */
  function Reaches(p: Provider, event: Event, id: string): Option<(nat, Args)> {
    if event.Apply? && CallOf(p, event.thread).Passed? && CallOf(p, event.thread).dev == id
    then Some((CallOf(p, event.thread).functionId, CallOf(p, event.thread).args)) else None
  }

  predicate SameDevice(f: Fleet, f': Fleet, id: string) {
    && TempCtl.Lookup(f'.temp, id) == TempCtl.Lookup(f.temp, id)
    && MotorCtl.Lookup(f'.motor, id) == MotorCtl.Lookup(f.motor, id)
    && RelayIO.Lookup(f'.relay, id) == RelayIO.Lookup(f.relay, id)
    && AnalogSensor.Lookup(f'.analog, id) == AnalogSensor.Lookup(f.analog, id)
  }

  lemma DispatchStaysLocal(f: Fleet, t: DeviceType, dev: string, functionId: nat, args: Args, id: string)
    requires id != dev
    ensures SameDevice(f, Dispatch(f, t, dev, functionId, args).0, id)
  {
  }

  predicate CallEvent(event: Event) {
    event.Request? || event.Command? || event.Awake? || event.Apply?
  }

  /** A call that gets through to a registered device is dispatched to it; any other step of a call leaves it alone. */
  lemma CallSteps(p: Provider, event: Event, e: Decay, id: string)
    requires Sound(p) && id in p.w.devices && CallEvent(event)
    ensures var f, f' := p.w.fleet, Step(p, event, e).w.fleet;
            match Reaches(p, event, id)
            case Some((functionId, args)) => f' == Dispatch(f, TypeIn(p.w.devices, id).value, id, functionId, args).0
            case None => SameDevice(f, f', id)
    ensures Step(p, event, e).turn == p.turn
  {
    if event.Apply? && CallOf(p, event.thread).Passed? {
      var c := CallOf(p, event.thread);
      var a := AdapterIn(p.w, c.dev);
      if c.dev != id && a.Some? && a.value.TypeAdapter? {
        DispatchStaysLocal(p.w.fleet, a.value.t, c.dev, c.functionId, c.args, id);
      }
    }
  }

  // ---------------------------------------------------------------------------------------------
  // Temperature controllers
  // ---------------------------------------------------------------------------------------------

  function ControllerOf(p: Provider, id: string): TempCtl.Controller {
    if p.turn.Some? && p.turn.value.0 == id then p.turn.value.1 else TempCtl.Idle
  }

  function TempOp(p: Provider, event: Event, id: string): Option<TempCtl.Op> {
    match event
    case Physics(dt) => Some(TempCtl.PhysicsTick(dt))
    case ControlCheck(i) => if i == id then Some(TempCtl.ControlCheck) else None
    case ControlRead(now, noise) =>
      if p.turn.Some? && p.turn.value.0 == id
      then Some(TempCtl.ControlRead(RegistryAnswer(p.w, Join(id, "tc1_temp"), now, noise))) else None
    case ControlAct => if p.turn.Some? && p.turn.value.0 == id then Some(TempCtl.ControlAct) else None
    case Published(_, _) => None
    case _ =>
      match Reaches(p, event, id)
      case None => None
      case Some((functionId, args)) => Some(TempCtl.Request(functionId, args))
  }

  /** The operations of device `id` within a run. */
  function TempTrace(p: Provider, events: seq<Event>, e: Decay, id: string): seq<TempCtl.Op> {
    if events == [] then []
    else
      var front := events[..|events| - 1];
      var op := TempOp(Run(p, front, e), events[|events| - 1], id);
      TempTrace(p, front, e, id) + if op.Some? then [op.value] else []
  }

  ghost predicate Shows(m: TempCtl.Machine, p: Provider, id: string) {
    m.s == TempCtl.Lookup(p.w.fleet.temp, id) && m.controller == ControllerOf(p, id)
  }

  function After(m: TempCtl.Machine, op: Option<TempCtl.Op>, e: Decay): TempCtl.Machine {
    if op.Some? then TempCtl.Step(m, op.value, e) else m
  }

  lemma TempCallRefines(p: Provider, event: Event, e: Decay, id: string, m: TempCtl.Machine)
    requires Sound(p) && TypeIn(p.w.devices, id) == Some(Tempctl) && Shows(m, p, id)
    requires CallEvent(event)
    ensures Shows(After(m, TempOp(p, event, id), e), Step(p, event, e), id)
  {
    CallSteps(p, event, e, id);
  }

  lemma TempCheckRefines(p: Provider, i: string, e: Decay, id: string, m: TempCtl.Machine)
    requires Sound(p) && TickerIdle(p) && TypeIn(p.w.devices, id) == Some(Tempctl) && Shows(m, p, id)
    ensures Shows(After(m, TempOp(p, ControlCheck(i), id), e), Step(p, ControlCheck(i), e), id)
  {
  }

  lemma TempReadRefines(p: Provider, now: int, noise: nat -> real, e: Decay, id: string, m: TempCtl.Machine)
    requires Sound(p) && TypeIn(p.w.devices, id) == Some(Tempctl) && Shows(m, p, id)
    ensures Shows(After(m, TempOp(p, ControlRead(now, noise), id), e), Step(p, ControlRead(now, noise), e), id)
  {
  }

  lemma TempActRefines(p: Provider, e: Decay, id: string, m: TempCtl.Machine)
    requires Sound(p) && TypeIn(p.w.devices, id) == Some(Tempctl) && Shows(m, p, id)
    ensures Shows(After(m, TempOp(p, ControlAct, id), e), Step(p, ControlAct, e), id)
  {
  }

  lemma TempControlRefines(p: Provider, event: Event, e: Decay, id: string, m: TempCtl.Machine)
    requires Sound(p) && Enabled(p, event) && TypeIn(p.w.devices, id) == Some(Tempctl) && Shows(m, p, id)
    requires event.ControlCheck? || event.ControlRead? || event.ControlAct?
    ensures Shows(After(m, TempOp(p, event, id), e), Step(p, event, e), id)
  {
    match event
    case ControlCheck(i) => TempCheckRefines(p, i, e, id, m);
    case ControlRead(now, noise) => TempReadRefines(p, now, noise, e, id, m);
    case ControlAct => TempActRefines(p, e, id, m);
  }

  lemma TempPhysicsRefines(p: Provider, event: Event, e: Decay, id: string, m: TempCtl.Machine)
    requires Sound(p) && TypeIn(p.w.devices, id) == Some(Tempctl) && Shows(m, p, id)
    requires event.Physics? || event.Published?
    ensures Shows(After(m, TempOp(p, event, id), e), Step(p, event, e), id)
  {
    assert id in p.w.fleet.temp;
  }

  /** Every step of the provider is one step of the device's machine, or none. */
  lemma TempStepRefines(p: Provider, event: Event, e: Decay, id: string, m: TempCtl.Machine)
    requires Sound(p) && Enabled(p, event) && TypeIn(p.w.devices, id) == Some(Tempctl) && Shows(m, p, id)
    ensures Shows(After(m, TempOp(p, event, id), e), Step(p, event, e), id)
  {
    if CallEvent(event) {
      TempCallRefines(p, event, e, id, m);
    } else if event.Physics? || event.Published? {
      TempPhysicsRefines(p, event, e, id, m);
    } else {
      TempControlRefines(p, event, e, id, m);
    }
  }

  /** The simulated time of a run. */
  function SimulatedTime(events: seq<Event>): real {
    if events == [] then 0.0
    else
      var last := events[|events| - 1];
      SimulatedTime(events[..|events| - 1]) + if last.Physics? then last.dt else 0.0
  }

  /** The machine of device `id`, run over the device's share of the events. */
  function TempMachine(p: Provider, events: seq<Event>, e: Decay, id: string, config: TempCtl.Config): TempCtl.Machine {
    TempCtl.Run(TempCtl.Start(config), TempTrace(p, events, e, id), e)
  }

  ghost predicate StartsAs(p: Provider, id: string, config: TempCtl.Config) {
    && Sound(p) && p.turn.None? && TypeIn(p.w.devices, id) == Some(Tempctl)
    && p.w.fleet.temp[id] == TempCtl.InitialState(config)
  }

  function ConfigOf(p: Provider, id: string): TempCtl.Config
    requires id in p.w.devices
  {
    TempConfig(p.w.devices[id])
  }

  lemma TempMachineSteps(p: Provider, events: seq<Event>, e: Decay, id: string, config: TempCtl.Config)
    requires events != []
    ensures var front := events[..|events| - 1];
            TempMachine(p, events, e, id, config)
            == After(TempMachine(p, front, e, id, config), TempOp(Run(p, front, e), events[|events| - 1], id), e)
  {
    var front := events[..|events| - 1];
    var trace, op := TempTrace(p, front, e, id), TempOp(Run(p, front, e), events[|events| - 1], id);
    if op.Some? {
      assert TempTrace(p, events, e, id) == trace + [op.value];
      assert (trace + [op.value])[..|trace|] == trace;
    } else {
      assert TempTrace(p, events, e, id) == trace;
    }
  }

  lemma {:induction false} TempTraceMovesForward(p: Provider, events: seq<Event>, e: Decay, id: string)
    requires Legal(p, events, e)
    ensures TempCtl.TimeMovesForward(TempTrace(p, events, e, id))
  {
    if events != [] {
      TempTraceMovesForward(p, events[..|events| - 1], e, id);
    }
  }

  /** The provider refines the machine of every temperature controller, with the provider's own simulated time. */
  lemma {:induction false} TempRunRefines(p: Provider, events: seq<Event>, e: Decay, id: string,
                                          config: TempCtl.Config)
    requires StartsAs(p, id, config) && Legal(p, events, e)
    ensures Shows(TempMachine(p, events, e, id, config), Run(p, events, e), id)
    ensures TempMachine(p, events, e, id, config).elapsed == SimulatedTime(events)
  {
    if events != [] {
      var front, last := events[..|events| - 1], events[|events| - 1];
      TempRunRefines(p, front, e, id, config);
      PhysicsPathsAreFixed(p, front, e);
      TempStepRefines(Run(p, front, e), last, e, id, TempMachine(p, front, e, id, config));
      TempMachineSteps(p, events, e, id, config);
      TempOpTakesTime(Run(p, front, e), last, id, TempMachine(p, front, e, id, config), e);
    }
  }

  lemma TempOpTakesTime(p: Provider, event: Event, id: string, m: TempCtl.Machine, e: Decay)
    ensures After(m, TempOp(p, event, id), e).elapsed == m.elapsed + if event.Physics? then event.dt else 0.0
  {
  }

  /**
   * What every run of the whole provider guarantees for a temperature controller: both channels stay in range,
   * their difference depends on the simulated time alone, and staging holds.
   */
  lemma {:induction false} TempGuarantees(p: Provider, events: seq<Event>, e: Decay, id: string)
    requires Fresh(p) && Legal(p, events, e) && IsDecay(e) && TypeIn(p.w.devices, id) == Some(Tempctl)
    ensures var s := TempCtl.Lookup(Run(p, events, e).w.fleet.temp, id);
            && TempCtl.WithinBounds(s, TempCtl.InitialState(ConfigOf(p, id)).tc1)
            && s.tc1 - s.tc2 == TempCtl.CHANNEL_OFFSET * (1.0 - e(SimulatedTime(events) / TempCtl.TAU))
            && (TempMachine(p, events, e, id, ConfigOf(p, id)).staged && s.relay2 ==> s.relay1)
  {
    var trace, config := TempTrace(p, events, e, id), ConfigOf(p, id);
    TempRunRefines(p, events, e, id, config);
    TempTraceMovesForward(p, events, e, id);
    TempCtl.TemperaturesStayBounded(config, trace, e);
    TempCtl.GapIsIndependentOfControl(config, trace, e);
    TempCtl.StagingHolds(TempCtl.Start(config), trace, e);
  }

  /** In particular all temperature controllers of a provider show the same difference at all times. */
  lemma {:induction false} GapIsShared(p: Provider, events: seq<Event>, e: Decay, id1: string, id2: string)
    requires Fresh(p) && Legal(p, events, e) && IsDecay(e)
    requires TypeIn(p.w.devices, id1) == TypeIn(p.w.devices, id2) == Some(Tempctl)
    ensures var states := Run(p, events, e).w.fleet.temp;
            TempCtl.Lookup(states, id1).tc1 - TempCtl.Lookup(states, id1).tc2
            == TempCtl.Lookup(states, id2).tc1 - TempCtl.Lookup(states, id2).tc2
  {
    TempGuarantees(p, events, e, id1);
    TempGuarantees(p, events, e, id2);
  }

  // --- Staging, over the provider's own events ---

  /** The event is a set_relay on the device that is accepted. */
  predicate AcceptsSetRelay(p: Provider, event: Event, id: string) {
    && SetsRelayOf(p, event, id)
    && TempCtl.Call(TempCtl.Lookup(p.w.fleet.temp, id), TempCtl.FN_SET_RELAY, CallOf(p, event.thread).args).1 == CodeOk
  }

  ghost predicate NoSetRelay(p: Provider, events: seq<Event>, e: Decay, id: string) {
    forall i :: 0 <= i < |events| ==> !AcceptsSetRelay(Run(p, events[..i], e), events[i], id)
  }

  /** What staging amounts to in a machine that shows the device. */
  ghost predicate StagedAs(m: TempCtl.Machine, p: Provider, id: string) {
    Shows(m, p, id) && m.staged && (m.s.relay2 ==> m.s.relay1)
  }

  lemma StepKeepsStaging(p: Provider, event: Event, e: Decay, id: string, m: TempCtl.Machine)
    requires Sound(p) && Enabled(p, event) && TypeIn(p.w.devices, id) == Some(Tempctl) && StagedAs(m, p, id)
    requires !AcceptsSetRelay(p, event, id)
    ensures StagedAs(After(m, TempOp(p, event, id), e), Step(p, event, e), id)
  {
    TempStepRefines(p, event, e, id, m);
    var op := TempOp(p, event, id);
    if op.Some? {
      assert !TempCtl.SetsRelay(m.s, op.value);
      StagedStep(m, op.value, e);
    }
  }

  lemma StagedStep(m: TempCtl.Machine, op: TempCtl.Op, e: Decay)
    requires m.staged && (m.s.relay2 ==> m.s.relay1) && !TempCtl.SetsRelay(m.s, op)
    ensures var m' := TempCtl.Step(m, op, e); m'.staged && (m'.s.relay2 ==> m'.s.relay1)
  {
  }

  lemma {:induction false} StagingOutlastsRuns(p: Provider, events: seq<Event>, e: Decay, id: string,
                                               m: TempCtl.Machine)
    requires Sound(p) && TypeIn(p.w.devices, id) == Some(Tempctl) && StagedAs(m, p, id)
    requires Legal(p, events, e) && NoSetRelay(p, events, e, id)
    ensures exists m' :: StagedAs(m', Run(p, events, e), id)
  {
    if events == [] {
      assert StagedAs(m, Run(p, events, e), id);
    } else {
      var front, last := events[..|events| - 1], events[|events| - 1];
      forall i | 0 <= i < |front| ensures !AcceptsSetRelay(Run(p, front[..i], e), front[i], id) {
        assert front[..i] == events[..i] && front[i] == events[i];
      }
      StagingOutlastsRuns(p, front, e, id, m);
      PhysicsPathsAreFixed(p, front, e);
      var m' :| StagedAs(m', Run(p, front, e), id);
      StepKeepsStaging(Run(p, front, e), last, e, id, m');
      assert StagedAs(After(m', TempOp(Run(p, front, e), last, id), e), Run(p, events, e), id);
    }
  }

  /**
   * Once the controller of a device has acted outside its dead band, relay 2 is on only together with relay 1, however
   * the run goes on, until a set_relay on that device is accepted.
   */
  lemma StagedUntilNextSetRelay(p: Provider, temp: real, events: seq<Event>, e: Decay, id: string)
    requires Sound(p) && TypeIn(p.w.devices, id) == Some(Tempctl) && p.turn == Some((id, TempCtl.Holding(temp)))
    requires var s := TempCtl.Lookup(p.w.fleet.temp, id);
             s.mode == TempCtl.Closed && TempCtl.OutsideDeadBand(s, temp)
    requires Legal(Step(p, ControlAct, e), events, e) && NoSetRelay(Step(p, ControlAct, e), events, e, id)
    ensures var s := TempCtl.Lookup(Run(Step(p, ControlAct, e), events, e).w.fleet.temp, id);
            s.relay2 ==> s.relay1
  {
    var m := TempCtl.Machine(TempCtl.Lookup(p.w.fleet.temp, id), TempCtl.Holding(temp), 0.0, false);
    TempActRefines(p, e, id, m);
    StepKeepsSound(p, ControlAct, e);
    StagingOutlastsRuns(Step(p, ControlAct, e), events, e, id, TempCtl.Step(m, TempCtl.ControlAct, e));
  }

  lemma RelayStepIsAuthorised(p: Provider, event: Event, e: Decay, id: string)
    requires Sound(p) && Enabled(p, event) && TypeIn(p.w.devices, id) == Some(Tempctl)
    requires RelaysDiffer(p, Step(p, event, e), id)
    ensures var s := TempCtl.Lookup(p.w.fleet.temp, id);
            || (s.mode == TempCtl.Open && SetsRelayOf(p, event, id))
            || (s.mode == TempCtl.Closed && event == ControlAct && ControllerOf(p, id).Holding?)
  {
    var m := TempCtl.Machine(TempCtl.Lookup(p.w.fleet.temp, id), ControllerOf(p, id), 0.0, false);
    TempStepRefines(p, event, e, id, m);
    var op := TempOp(p, event, id);
    if op.Some? {
      TempCtl.RelayAuthority(m, op.value, e);
    }
  }

  predicate RelaysDiffer(p: Provider, p': Provider, id: string) {
    var s, s' := TempCtl.Lookup(p.w.fleet.temp, id), TempCtl.Lookup(p'.w.fleet.temp, id);
    (s'.relay1, s'.relay2) != (s.relay1, s.relay2)
  }

  predicate SetsRelayOf(p: Provider, event: Event, id: string) {
    event.Apply? && CallOf(p, event.thread).Passed? && CallOf(p, event.thread).dev == id
    && CallOf(p, event.thread).functionId == TempCtl.FN_SET_RELAY
  }

  /**
   * However requests, sleeps and the sections of the control pass interleave, a relay of a controller changes only
   * by a set_relay in open mode that passed every fault gate when it began, or by the last section of the control
   * pass in closed mode.
   */
  lemma RelayChangesAreAuthorised(p: Provider, events: seq<Event>, event: Event, e: Decay,
                                    id: string)
    requires Sound(p) && p.request.Idle? && p.command.Idle? && TypeIn(p.w.devices, id) == Some(Tempctl)
    requires Legal(p, events, e) && Enabled(Run(p, events, e), event)
    ensures var p' := Run(p, events, e);
            var s := TempCtl.Lookup(p'.w.fleet.temp, id);
            RelaysDiffer(p', Step(p', event, e), id) ==>
              || (&& s.mode == TempCtl.Open && SetsRelayOf(p', event, id)
                  && exists i :: BeganAt(p, events, e, i, event.thread, CallOf(p', event.thread)))
              || (s.mode == TempCtl.Closed && event == ControlAct && ControllerOf(p', id).Holding?)
  {
    PhysicsPathsAreFixed(p, events, e);
    if RelaysDiffer(Run(p, events, e), Step(Run(p, events, e), event, e), id) {
      RelayStepIsAuthorised(Run(p, events, e), event, e, id);
      if SetsRelayOf(Run(p, events, e), event, id) {
        CallsPassedTheirGates(p, events, e, event.thread);
      }
    }
  }

  // ---------------------------------------------------------------------------------------------
  // Motors
  // ---------------------------------------------------------------------------------------------

  function MotorOp(p: Provider, event: Event, id: string): Option<MotorCtl.Op> {
    match event
    case Physics(dt) => Some(MotorCtl.PhysicsTick(dt))
    case _ =>
      match Reaches(p, event, id)
      case None => None
      case Some((functionId, args)) => Some(MotorCtl.Request(functionId, args))
  }

  function MotorTrace(p: Provider, events: seq<Event>, e: Decay, id: string): seq<MotorCtl.Op> {
    if events == [] then []
    else
      var front := events[..|events| - 1];
      var op := MotorOp(Run(p, front, e), events[|events| - 1], id);
      MotorTrace(p, front, e, id) + if op.Some? then [op.value] else []
  }

  function MotorMachine(p: Provider, events: seq<Event>, e: Decay, id: string): MotorCtl.State {
    MotorCtl.Run(MotorCtl.Lookup(p.w.fleet.motor, id), MotorTrace(p, events, e, id), e)
  }

  ghost predicate ShowsMotor(s: MotorCtl.State, p: Provider, id: string) {
    s == MotorCtl.Lookup(p.w.fleet.motor, id)
  }

  function AfterMotor(s: MotorCtl.State, op: Option<MotorCtl.Op>, e: Decay): MotorCtl.State {
    if op.Some? then MotorCtl.Step(s, op.value, e) else s
  }

  lemma MotorStepRefines(p: Provider, event: Event, e: Decay, id: string, s: MotorCtl.State)
    requires Sound(p) && TypeIn(p.w.devices, id) == Some(Motorctl) && ShowsMotor(s, p, id)
    ensures ShowsMotor(AfterMotor(s, MotorOp(p, event, id), e), Step(p, event, e), id)
  {
    if CallEvent(event) {
      CallSteps(p, event, e, id);
    } else if event.Physics? {
      assert id in p.w.fleet.motor;
    }
  }

  lemma MotorMachineSteps(p: Provider, events: seq<Event>, e: Decay, id: string)
    requires events != []
    ensures var front := events[..|events| - 1];
            MotorMachine(p, events, e, id)
            == AfterMotor(MotorMachine(p, front, e, id), MotorOp(Run(p, front, e), events[|events| - 1], id), e)
  {
    var front := events[..|events| - 1];
    var trace, op := MotorTrace(p, front, e, id), MotorOp(Run(p, front, e), events[|events| - 1], id);
    if op.Some? {
      assert MotorTrace(p, events, e, id) == trace + [op.value];
      assert (trace + [op.value])[..|trace|] == trace;
    } else {
      assert MotorTrace(p, events, e, id) == trace;
    }
  }

  lemma {:induction false} MotorTraceMovesForward(p: Provider, events: seq<Event>, e: Decay, id: string)
    requires Legal(p, events, e)
    ensures forall i :: 0 <= i < |MotorTrace(p, events, e, id)| && MotorTrace(p, events, e, id)[i].PhysicsTick?
              ==> MotorTrace(p, events, e, id)[i].dt >= 0.0
  {
    if events != [] {
      MotorTraceMovesForward(p, events[..|events| - 1], e, id);
    }
  }

  /** The provider refines the machine of every such device. */
  lemma {:induction false} MotorRunRefines(p: Provider, events: seq<Event>, e: Decay, id: string)
    requires Sound(p) && Legal(p, events, e) && TypeIn(p.w.devices, id) == Some(Motorctl)
    ensures ShowsMotor(MotorMachine(p, events, e, id), Run(p, events, e), id)
  {
    if events != [] {
      var front, last := events[..|events| - 1], events[|events| - 1];
      MotorRunRefines(p, front, e, id);
      PhysicsPathsAreFixed(p, front, e);
      MotorStepRefines(Run(p, front, e), last, e, id, MotorMachine(p, front, e, id));
      MotorMachineSteps(p, events, e, id);
    }
  }

  /** On every run of the provider a motor's speeds stay between 0 and the maximum configured for it. */
  lemma {:induction false} MotorGuarantees(p: Provider, events: seq<Event>, e: Decay, id: string)
    requires Fresh(p) && Legal(p, events, e) && IsDecay(e) && TypeIn(p.w.devices, id) == Some(Motorctl)
    ensures var s := MotorCtl.Lookup(Run(p, events, e).w.fleet.motor, id);
            MotorCtl.WithinLimits(s) && s.maxRpm == MaxSpeed(p.w.devices[id]).GetOr(3200.0)
  {
    MotorRunRefines(p, events, e, id);
    MotorTraceMovesForward(p, events, e, id);
    MotorCtl.SpeedsStayBounded(MaxSpeed(p.w.devices[id]), MotorTrace(p, events, e, id), e);
  }

  // ---------------------------------------------------------------------------------------------
  // Relay modules
  // ---------------------------------------------------------------------------------------------

  function RelayOp(p: Provider, event: Event, id: string): Option<RelayIO.Op> {
    match event
    case Physics(_) => Some(RelayIO.PhysicsTick)
    case _ =>
      match Reaches(p, event, id)
      case None => None
      case Some((functionId, args)) => Some(RelayIO.Request(functionId, args))
  }

  function RelayTrace(p: Provider, events: seq<Event>, e: Decay, id: string): seq<RelayIO.Op> {
    if events == [] then []
    else
      var front := events[..|events| - 1];
      var op := RelayOp(Run(p, front, e), events[|events| - 1], id);
      RelayTrace(p, front, e, id) + if op.Some? then [op.value] else []
  }

  function RelayMachine(p: Provider, events: seq<Event>, e: Decay, id: string): RelayIO.State {
    RelayIO.Run(RelayIO.Lookup(p.w.fleet.relay, id), RelayTrace(p, events, e, id))
  }

  ghost predicate ShowsRelay(s: RelayIO.State, p: Provider, id: string) {
    s == RelayIO.Lookup(p.w.fleet.relay, id)
  }

  function AfterRelay(s: RelayIO.State, op: Option<RelayIO.Op>): RelayIO.State {
    if op.Some? then RelayIO.Step(s, op.value) else s
  }

  lemma RelayStepRefines(p: Provider, event: Event, e: Decay, id: string, s: RelayIO.State)
    requires Sound(p) && TypeIn(p.w.devices, id) == Some(Relayio) && ShowsRelay(s, p, id)
    ensures ShowsRelay(AfterRelay(s, RelayOp(p, event, id)), Step(p, event, e), id)
  {
    if CallEvent(event) {
      CallSteps(p, event, e, id);
    } else if event.Physics? {
      assert id in p.w.fleet.relay;
    }
  }

  lemma RelayMachineSteps(p: Provider, events: seq<Event>, e: Decay, id: string)
    requires events != []
    ensures var front := events[..|events| - 1];
            RelayMachine(p, events, e, id)
            == AfterRelay(RelayMachine(p, front, e, id), RelayOp(Run(p, front, e), events[|events| - 1], id))
  {
    var front := events[..|events| - 1];
    var trace, op := RelayTrace(p, front, e, id), RelayOp(Run(p, front, e), events[|events| - 1], id);
    if op.Some? {
      assert RelayTrace(p, events, e, id) == trace + [op.value];
      assert (trace + [op.value])[..|trace|] == trace;
    } else {
      assert RelayTrace(p, events, e, id) == trace;
    }
  }

  /** The provider refines the machine of every such device. */
  lemma {:induction false} RelayRunRefines(p: Provider, events: seq<Event>, e: Decay, id: string)
    requires Sound(p) && Legal(p, events, e) && TypeIn(p.w.devices, id) == Some(Relayio)
    ensures ShowsRelay(RelayMachine(p, events, e, id), Run(p, events, e), id)
  {
    if events != [] {
      var front, last := events[..|events| - 1], events[|events| - 1];
      RelayRunRefines(p, front, e, id);
      PhysicsPathsAreFixed(p, front, e);
      RelayStepRefines(Run(p, front, e), last, e, id, RelayMachine(p, front, e, id));
      RelayMachineSteps(p, events, e, id);
    }
  }

  /**
   * On every run of the provider a relay shows the last well-formed call for its channel that got through, and an
   * input shows its relay as of the last tick.
   */
  lemma RelayGuarantees(p: Provider, events: seq<Event>, e: Decay, id: string, k: nat)
    requires Fresh(p) && Legal(p, events, e) && TypeIn(p.w.devices, id) == Some(Relayio) && RelayIO.IsChannel(k)
    ensures var s, trace := RelayIO.Lookup(Run(p, events, e).w.fleet.relay, id), RelayTrace(p, events, e, id);
            && RelayIO.Relay(s, k) == RelayIO.LastCommand(trace, k).GetOr(false)
            && RelayIO.Input(s, k) == RelayIO.InputAfter(RelayIO.DEFAULT, trace, k)
  {
    RelayRunRefines(p, events, e, id);
    RelayIO.RelayShowsLastCommand(RelayIO.DEFAULT, RelayTrace(p, events, e, id), k);
    RelayIO.InputsFollowTicks(RelayIO.DEFAULT, RelayTrace(p, events, e, id), k);
  }

  // ---------------------------------------------------------------------------------------------
  // Analog sensors
  // ---------------------------------------------------------------------------------------------

  function AnalogOp(p: Provider, event: Event, id: string): Option<AnalogSensor.Op> {
    match event
    case Physics(dt) => Some(AnalogSensor.PhysicsTick(dt))
    case _ =>
      match Reaches(p, event, id)
      case None => None
      case Some((functionId, args)) => Some(AnalogSensor.Request(functionId, args))
  }

  function AnalogTrace(p: Provider, events: seq<Event>, e: Decay, id: string): seq<AnalogSensor.Op> {
    if events == [] then []
    else
      var front := events[..|events| - 1];
      var op := AnalogOp(Run(p, front, e), events[|events| - 1], id);
      AnalogTrace(p, front, e, id) + if op.Some? then [op.value] else []
  }

  function AnalogMachine(p: Provider, events: seq<Event>, e: Decay, id: string): AnalogSensor.State {
    AnalogSensor.Run(AnalogSensor.Lookup(p.w.fleet.analog, id), AnalogTrace(p, events, e, id))
  }

  ghost predicate ShowsAnalog(s: AnalogSensor.State, p: Provider, id: string) {
    s == AnalogSensor.Lookup(p.w.fleet.analog, id)
  }

  function AfterAnalog(s: AnalogSensor.State, op: Option<AnalogSensor.Op>): AnalogSensor.State {
    if op.Some? then AnalogSensor.Step(s, op.value) else s
  }

  lemma AnalogStepRefines(p: Provider, event: Event, e: Decay, id: string, s: AnalogSensor.State)
    requires Sound(p) && TypeIn(p.w.devices, id) == Some(Analogsensor) && ShowsAnalog(s, p, id)
    ensures ShowsAnalog(AfterAnalog(s, AnalogOp(p, event, id)), Step(p, event, e), id)
  {
    if CallEvent(event) {
      CallSteps(p, event, e, id);
    } else if event.Physics? {
      assert id in p.w.fleet.analog;
    }
  }

  lemma AnalogMachineSteps(p: Provider, events: seq<Event>, e: Decay, id: string)
    requires events != []
    ensures var front := events[..|events| - 1];
            AnalogMachine(p, events, e, id)
            == AfterAnalog(AnalogMachine(p, front, e, id), AnalogOp(Run(p, front, e), events[|events| - 1], id))
  {
    var front := events[..|events| - 1];
    var trace, op := AnalogTrace(p, front, e, id), AnalogOp(Run(p, front, e), events[|events| - 1], id);
    if op.Some? {
      assert AnalogTrace(p, events, e, id) == trace + [op.value];
      assert (trace + [op.value])[..|trace|] == trace;
    } else {
      assert AnalogTrace(p, events, e, id) == trace;
    }
  }

  lemma {:induction false} AnalogTraceMovesForward(p: Provider, events: seq<Event>, e: Decay, id: string)
    requires Legal(p, events, e)
    ensures AnalogSensor.TimeMovesForward(AnalogTrace(p, events, e, id))
  {
    if events != [] {
      AnalogTraceMovesForward(p, events[..|events| - 1], e, id);
    }
  }

  /** The provider refines the machine of every such device. */
  lemma {:induction false} AnalogRunRefines(p: Provider, events: seq<Event>, e: Decay, id: string)
    requires Sound(p) && Legal(p, events, e) && TypeIn(p.w.devices, id) == Some(Analogsensor)
    ensures ShowsAnalog(AnalogMachine(p, events, e, id), Run(p, events, e), id)
  {
    if events != [] {
      var front, last := events[..|events| - 1], events[|events| - 1];
      AnalogRunRefines(p, front, e, id);
      PhysicsPathsAreFixed(p, front, e);
      AnalogStepRefines(Run(p, front, e), last, e, id, AnalogMachine(p, front, e, id));
      AnalogMachineSteps(p, events, e, id);
    }
  }

  /** On every run of the provider a sensor's quality, drift and timer stay consistent. */
  lemma {:induction false} AnalogGuarantees(p: Provider, events: seq<Event>, e: Decay, id: string)
    requires Fresh(p) && Legal(p, events, e) && TypeIn(p.w.devices, id) == Some(Analogsensor)
    ensures AnalogSensor.Consistent(AnalogSensor.Lookup(Run(p, events, e).w.fleet.analog, id))
  {
    AnalogRunRefines(p, events, e, id);
    AnalogTraceMovesForward(p, events, e, id);
    AnalogSensor.QualityInvariants(AnalogTrace(p, events, e, id));
  }
}
