/**
 * The ticker's own steps as runs: one pass of the ticker loop is a run of the step relation of `ProviderRuns`, so
 * everything proved of runs holds of any sequence of ticks and requests.
 */
module TickRuns {
  import opened Basics
  import opened SignalPaths
  import opened Relaxation
  import opened DeviceFactory
  import opened DeviceManager
  import opened ProviderRuns
  import FC = FluxGraphClient
  import FI = FaultInjection
  import LocalEngine
  import SimProvider

  /** The commands a run executes, in order. */
  function CommandsOf(events: seq<Event>): seq<FC.Command> {
    if events == [] then []
    else
      var last := events[|events| - 1];
      CommandsOf(events[..|events| - 1]) + if last.Command? then [last.cmd] else []
  }

  lemma {:induction false} CommandsOfConcat(a: seq<Event>, b: seq<Event>)
    ensures CommandsOf(a + b) == CommandsOf(a) + CommandsOf(b)
  {
    if b == [] {
      assert a + b == a;
    } else {
      CommandsOfConcat(a, b[..|b| - 1]);
      assert (a + b)[..|a + b| - 1] == a + b[..|b| - 1];
    }
  }

  /** Neither a command nor simulated time. */
  predicate Silent(events: seq<Event>) {
    forall i :: 0 <= i < |events| ==> !events[i].Command? && !events[i].Physics?
  }

  lemma {:induction false} SilentEvents(events: seq<Event>)
    requires Silent(events)
    ensures CommandsOf(events) == [] && SimulatedTime(events) == 0.0
  {
    if events != [] {
      SilentEvents(events[..|events| - 1]);
    }
  }

  lemma {:induction false} SimulatedTimeAdds(a: seq<Event>, b: seq<Event>)
    ensures SimulatedTime(a + b) == SimulatedTime(a) + SimulatedTime(b)
  {
    if b == [] {
      assert a + b == a;
    } else {
      SimulatedTimeAdds(a, b[..|b| - 1]);
      assert (a + b)[..|a + b| - 1] == a + b[..|b| - 1];
    }
  }

  /** A legal run leads to the next state, executes exactly these commands and simulates this much time. */
  ghost predicate Leads(p: Provider, events: seq<Event>, e: Decay, p': Provider, cmds: seq<FC.Command>, elapsed: real) {
    Legal(p, events, e) && Run(p, events, e) == p' && CommandsOf(events) == cmds && SimulatedTime(events) == elapsed
  }

  lemma LeadsOn(p: Provider, a: seq<Event>, q: Provider, b: seq<Event>, r: Provider, e: Decay,
                ca: seq<FC.Command>, ta: real, cb: seq<FC.Command>, tb: real)
    requires Leads(p, a, e, q, ca, ta) && Leads(q, b, e, r, cb, tb)
    ensures Leads(p, a + b, e, r, ca + cb, ta + tb)
  {
    RunConcat(p, a, b, e);
    CommandsOfConcat(a, b);
    SimulatedTimeAdds(a, b);
  }

  // ---------------------------------------------------------------------------------------------
  // The control pass
  // ---------------------------------------------------------------------------------------------

  function TurnEvents(id: string, now: int, noise: nat -> real): seq<Event> {
    [ControlCheck(id), ControlRead(now, noise), ControlAct]
  }

  /** The three sections of update_control, with nothing in between, are one turn of the control pass. */
  lemma TurnIsARun(p: Provider, id: string, now: int, noise: nat -> real, e: Decay)
    requires Sound(p) && TickerIdle(p)
    ensures Legal(p, TurnEvents(id, now, noise), e)
    ensures Run(p, TurnEvents(id, now, noise), e) == p.(w := ControlAt(p.w, id, now, noise))
  {
    ThreeSteps(p, ControlCheck(id), ControlRead(now, noise), ControlAct, e);
  }

  function PassEvents(entries: seq<Spec>, n: nat, now: int, noise: nat -> real): seq<Event>
    requires n <= |entries|
  {
    if n == 0 then [] else PassEvents(entries, n - 1, now, noise) + TurnEvents(entries[n - 1].id, now, noise)
  }

  lemma TurnExtendsRun(p: Provider, front: seq<Event>, id: string, now: int, noise: nat -> real, e: Decay)
    requires Sound(p) && Legal(p, front, e) && TickerIdle(Run(p, front, e))
    ensures Legal(p, front + TurnEvents(id, now, noise), e)
    ensures var p' := Run(p, front, e);
            Run(p, front + TurnEvents(id, now, noise), e) == p'.(w := ControlAt(p'.w, id, now, noise))
  {
    PhysicsPathsAreFixed(p, front, e);
    TurnIsARun(Run(p, front, e), id, now, noise, e);
    RunConcat(p, front, TurnEvents(id, now, noise), e);
  }

  lemma {:induction false} PassIsARun(p: Provider, entries: seq<Spec>, n: nat, now: int, noise: nat -> real, e: Decay)
    requires Sound(p) && TickerIdle(p) && n <= |entries|
    ensures Legal(p, PassEvents(entries, n, now, noise), e)
    ensures Run(p, PassEvents(entries, n, now, noise), e)
            == p.(w := SimProvider.ControlSteps(p.w, entries, n, now, noise))
  {
    if n > 0 {
      PassIsARun(p, entries, n - 1, now, noise, e);
      TurnExtendsRun(p, PassEvents(entries, n - 1, now, noise), entries[n - 1].id, now, noise, e);
    }
  }

  // ---------------------------------------------------------------------------------------------
  // Publication
  // ---------------------------------------------------------------------------------------------

  function PublicationEvents(paths: seq<string>, sensors: map<string, real>): seq<Event>
    requires forall p :: p in paths ==> p in sensors
  {
    seq(|paths|, i requires 0 <= i < |paths| => Published(paths[i], sensors[paths[i]]))
  }

  function Only(sensors: map<string, real>, paths: seq<string>): map<string, real> {
    map p | p in sensors && p in paths :: sensors[p]
  }

  lemma {:induction false} PublicationIsARun(p: Provider, paths: seq<string>, sensors: map<string, real>, e: Decay)
    requires TickerIdle(p) && forall q :: q in paths ==> q in sensors && q in Marked(p)
    ensures Legal(p, PublicationEvents(paths, sensors), e)
    ensures Run(p, PublicationEvents(paths, sensors), e)
            == p.(w := SimProvider.Publish(p.w, Only(sensors, paths)))
  {
    if paths == [] {
      assert SimProvider.Publish(p.w, Only(sensors, [])) == p.w;
    } else {
      var n := |paths| - 1;
      var front := paths[..n];
      PublicationIsARun(p, front, sensors, e);
      assert PublicationEvents(paths, sensors)
             == PublicationEvents(front, sensors) + [Published(paths[n], sensors[paths[n]])];
      RunSteps(p, PublicationEvents(front, sensors), Published(paths[n], sensors[paths[n]]), e);
      PublishesOneMore(p.w, paths, sensors);
    }
  }

  lemma PublishesOneMore(w: World, paths: seq<string>, sensors: map<string, real>)
    requires paths != [] && forall q :: q in paths ==> q in sensors
    ensures var front, path := paths[..|paths| - 1], paths[|paths| - 1];
            var before := SimProvider.Publish(w, Only(sensors, front));
            SimProvider.Publish(w, Only(sensors, paths)) ==
            before.(driven := before.driven + {path}, cache := before.cache[path := sensors[path]])
  {
    var front, path := paths[..|paths| - 1], paths[|paths| - 1];
    assert paths == front + [path];
    assert Only(sensors, paths) == Only(sensors, front)[path := sensors[path]];
    assert Only(sensors, paths).Keys == Only(sensors, front).Keys + {path};
    assert w.cache + Only(sensors, front)[path := sensors[path]]
           == (w.cache + Only(sensors, front))[path := sensors[path]];
  }

  // ---------------------------------------------------------------------------------------------
  // Commands
  // ---------------------------------------------------------------------------------------------

  function BatchEvents(w: World, names: NameCache, cmds: seq<FC.Command>, now: int, ms: nat -> Moment): seq<Event> {
    if cmds == [] then []
    else
      var n := |cmds| - 1;
      var before := CommandsAt(w, names, cmds[..n], now, ms);
      BatchEvents(w, names, cmds[..n], now, ms) + CommandEvents(before.world.log, cmds[n], before.end, ms(n))
  }

  lemma CommandLeads(p: Provider, cmd: FC.Command, now: int, m: Moment, e: Decay)
    requires TickerIdle(p)
    ensures Leads(p, CommandEvents(p.w.log, cmd, now, m), e, p.(w := CommandAt(p.w, p.names, cmd, now, m).world), [cmd],
                  0.0)
  {
    CommandIsARun(p, cmd, now, m, e);
    OneCommand(p.w.log, cmd, now, m);
  }

  lemma {:induction false} BatchLeads(p: Provider, cmds: seq<FC.Command>, now: int, ms: nat -> Moment, e: Decay)
    requires TickerIdle(p)
    ensures Leads(p, BatchEvents(p.w, p.names, cmds, now, ms), e,
                  p.(w := CommandsAt(p.w, p.names, cmds, now, ms).world), cmds, 0.0)
  {
    if cmds == [] {
      assert Leads(p, [], e, p, [], 0.0);
    } else {
      var n := |cmds| - 1;
      var before := CommandsAt(p.w, p.names, cmds[..n], now, ms);
      var q := p.(w := before.world);
      BatchLeads(p, cmds[..n], now, ms, e);
      CommandLeads(q, cmds[n], before.end, ms(n), e);
      LeadsOn(p, BatchEvents(p.w, p.names, cmds[..n], now, ms), q, CommandEvents(q.w.log, cmds[n], before.end, ms(n)),
              q.(w := CommandAt(q.w, q.names, cmds[n], before.end, ms(n)).world), e, cmds[..n], 0.0, [cmds[n]], 0.0);
      assert cmds == cmds[..n] + [cmds[n]];
    }
  }

  lemma OneCommand(log: FI.Log, cmd: FC.Command, now: int, m: Moment)
    ensures CommandsOf(CommandEvents(log, cmd, now, m)) == [cmd]
    ensures SimulatedTime(CommandEvents(log, cmd, now, m)) == 0.0
  {
    var events := CommandEvents(log, cmd, now, m);
    assert events[..2][..1][..0] == [] && events[..2][..1] == [events[0]];
    assert CommandsOf(events[..2][..1]) == [cmd] && SimulatedTime(events[..2][..1]) == 0.0;
    assert CommandsOf(events[..2]) == [cmd] && SimulatedTime(events[..2]) == 0.0;
  }

  // ---------------------------------------------------------------------------------------------
  // Ticks
  // ---------------------------------------------------------------------------------------------

  lemma {:induction false} PassIsSilent(entries: seq<Spec>, n: nat, now: int, noise: nat -> real)
    requires n <= |entries|
    ensures Silent(PassEvents(entries, n, now, noise))
  {
    if n > 0 {
      PassIsSilent(entries, n - 1, now, noise);
    }
  }

  /** The control pass of a tick. */
  lemma PassLeads(p: Provider, entries: seq<Spec>, now: int, noise: nat -> real, e: Decay)
    requires Sound(p) && TickerIdle(p) && Lists(entries, p.w.devices)
    ensures Leads(p, PassEvents(entries, |entries|, now, noise), e, p.(w := SimProvider.AfterControl(p.w, now)), [],
                  0.0)
  {
    PassIsARun(p, entries, |entries|, now, noise, e);
    SimProvider.ControlPassIsExact(p.w, entries, now, noise);
    PassIsSilent(entries, |entries|, now, noise);
    SilentEvents(PassEvents(entries, |entries|, now, noise));
  }

  lemma PublicationLeads(p: Provider, paths: seq<string>, sensors: map<string, real>, e: Decay)
    requires TickerIdle(p) && sensors.Keys <= Marked(p) && forall q :: q in paths <==> q in sensors
    ensures Leads(p, PublicationEvents(paths, sensors), e, p.(w := SimProvider.Publish(p.w, sensors)), [], 0.0)
  {
    PublicationIsARun(p, paths, sensors, e);
    assert Only(sensors, paths) == sensors;
    SilentEvents(PublicationEvents(paths, sensors));
  }

  /** Every finite map of devices, and every finite set of paths, can be listed. */
  lemma Enumerated(devices: map<string, Spec>, ids: set<string>) returns (entries: seq<Spec>)
    requires ids <= devices.Keys && forall id :: id in devices ==> devices[id].id == id
    ensures UniqueIds(entries) && forall s :: s in entries <==> s.id in ids && devices[s.id] == s
    decreases |ids|
  {
    entries := [];
    if ids != {} {
      var id :| id in ids;
      var rest := Enumerated(devices, ids - {id});
      assert forall s :: s in rest ==> s.id != id;
      entries := rest + [devices[id]];
    }
  }

  lemma Listed(paths: set<string>) returns (list: seq<string>)
    ensures forall p :: p in list <==> p in paths
    decreases |paths|
  {
    list := [];
    if paths != {} {
      var p :| p in paths;
      var rest := Listed(paths - {p});
      list := rest + [p];
    }
  }

  /** What a successful sim-mode tick leaves, as `SimProvider.TickDone` has it, is reached by a legal run. */
  lemma SimTickIsARun(p: Provider, sensors: map<string, real>, cmds: seq<FC.Command>, now: int, resumed: int,
                      noise: nat -> real, ms: nat -> Moment, e: Decay)
    requires Sound(p) && TickerIdle(p) && sensors.Keys <= Marked(p)
    ensures var w := SimProvider.Publish(SimProvider.AfterControl(p.w, now), sensors);
            exists events :: Leads(p, events, e, p.(w := CommandsAt(w, p.names, cmds, resumed, ms).world), cmds, 0.0)
  {
    var entries := Enumerated(p.w.devices, p.w.devices.Keys);
    var paths := Listed(sensors.Keys);
    var p1 := p.(w := SimProvider.AfterControl(p.w, now));
    var p2 := p1.(w := SimProvider.Publish(p1.w, sensors));
    var pass, publication := PassEvents(entries, |entries|, now, noise), PublicationEvents(paths, sensors);
    var batch := BatchEvents(p2.w, p2.names, cmds, resumed, ms);
    PassLeads(p, entries, now, noise, e);
    PublicationLeads(p1, paths, sensors, e);
    BatchLeads(p2, cmds, resumed, ms, e);
    LeadsOn(p, pass, p1, publication, p2, e, [], 0.0, [], 0.0);
    LeadsOn(p, pass + publication, p2, batch, Run(p2, batch, e), e, [], 0.0, cmds, 0.0);
    assert Leads(p, pass + publication + batch, e, Run(p2, batch, e), cmds, 0.0);
  }

  /** A failed tick is the run of its control pass. */
  lemma FailedTickIsARun(p: Provider, now: int, noise: nat -> real, e: Decay)
    requires Sound(p) && TickerIdle(p)
    ensures exists events :: Leads(p, events, e, p.(w := SimProvider.AfterControl(p.w, now)), [], 0.0)
  {
    var entries := Enumerated(p.w.devices, p.w.devices.Keys);
    PassLeads(p, entries, now, noise, e);
    assert Leads(p, PassEvents(entries, |entries|, now, noise), e, p.(w := SimProvider.AfterControl(p.w, now)), [],
                 0.0);
  }

  /** So is a tick of the local engine: its control pass and one step of simulated time. */
  lemma LocalTickIsARun(p: Provider, now: int, dt: real, noise: nat -> real, e: Decay)
    requires Sound(p) && TickerIdle(p) && dt >= 0.0
    ensures var w := SimProvider.AfterControl(p.w, now);
            exists events ::
              Leads(p, events, e, p.(w := w.(fleet := LocalEngine.Stepped(w.fleet, w.devices, dt, e))), [], dt)
  {
    FailedTickIsARun(p, now, noise, e);
    var front :| Leads(p, front, e, p.(w := SimProvider.AfterControl(p.w, now)), [], 0.0);
    var events := front + [Physics(dt)];
    RunSteps(p, front, Physics(dt), e);
    assert events[..|front|] == front;
    assert Leads(p, events, e, Run(p, events, e), [], dt);
  }
}
