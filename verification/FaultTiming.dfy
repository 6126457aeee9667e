/**
 * Faults are judged when a call begins: a call that sleeps its injected latency can change a device that has become
 * unavailable in the meantime.
 */
module FaultTiming {
  import opened Basics
  import opened Relaxation
  import opened DeviceFactory
  import opened DeviceManager
  import opened ProviderRuns
  import FI = FaultInjection
  import FC = FluxGraphClient
  import ChaosControl
  import TempCtl

  const SWITCH_ON: Args := map["relay_index" := Int64Value(1), "state" := BoolValue(true)]

  /** The command by which the simulation makes a device unavailable. */
  function Outage(id: string, ms: int): FC.Command {
    FC.Command(ChaosControl.DEVICE_ID, "inject_device_unavailable",
               map["device_id" := FC.StringVal(id), "duration_ms" := FC.IntVal(ms)])
  }

  /** A controller in open mode with its first relay off, slowed by `ms` and free of any other fault. */
  ghost predicate Slowed(p: Provider, id: string, now: int, ms: int) {
    && Sound(p) && p.request.Idle? && TickerIdle(p) && TypeIn(p.w.devices, id) == Some(Tempctl)
    && TempCtl.Lookup(p.w.fleet.temp, id).mode == TempCtl.Open && !TempCtl.Lookup(p.w.fleet.temp, id).relay1
    && GateOpen(p.w, RequestThread, id, now) && FI.LastRate(p.w.log, id, "3").None?
    && ms > 0 && FI.LastLatency(p.w.log, id) == Some(ms)
  }

  /** The ticker thread can make a control device without faults of its own do something. */
  ghost predicate Commandable(p: Provider, cmd: FC.Command, now: int) {
    && cmd.device == ChaosControl.DEVICE_ID && CachedId(p.names, cmd) == Some(1)
    && GateOpen(p.w, TickerThread, ChaosControl.DEVICE_ID, now)
    && FI.LastLatency(p.w.log, ChaosControl.DEVICE_ID).None? && FI.LastRate(p.w.log, ChaosControl.DEVICE_ID, "1").None?
  }

  /** While the request sleeps, the ticker thread injects the outage. */
  function Events(id: string, now: int, ms: int): seq<Event> {
    [Request(id, TempCtl.FN_SET_RELAY, SWITCH_ON, now)] + CommandEvents([], Outage(id, 2 * ms), now, Moment(0, 0.5))
    + [Awake(RequestThread, FI.Expiry(now, ms), 0.5)]
  }

  lemma OutageDecodes(id: string, ms: int, now: int)
    requires ms > 0
    ensures ChaosControl.Decode(1, ToArgs(Outage(id, ms).args), now)
            == ChaosControl.Accepted(FI.DeviceFault(FI.Unavailable, id, now, ms))
  {
    var args := ToArgs(Outage(id, ms).args);
    assert ArgString(args, "device_id") == Some(id) && ArgInt64(args, "duration_ms") == Some(ms);
  }

  /** An unhindered call of the control device. */
  lemma ControlCall(w: World, functionId: nat, args: Args, now: int, event: FI.Event)
    requires GateOpen(w, TickerThread, ChaosControl.DEVICE_ID, now)
    requires FI.LastLatency(w.log, ChaosControl.DEVICE_ID).None?
    requires FI.LastRate(w.log, ChaosControl.DEVICE_ID, ChaosControl.Decimal(functionId)).None?
    requires ChaosControl.Decode(functionId, args, now) == ChaosControl.Accepted(event)
    ensures CallAt(w, ChaosControl.DEVICE_ID, functionId, args, now, Moment(0, 0.5)).world
            == w.(log := w.log + [event])
  {
  }

  lemma OutageIsInjected(p: Provider, id: string, now: int, ms: int, e: Decay)
    requires TickerIdle(p) && ms > 0 && Commandable(p, Outage(id, ms), now)
    ensures Legal(p, CommandEvents([], Outage(id, ms), now, Moment(0, 0.5)), e)
    ensures Run(p, CommandEvents([], Outage(id, ms), now, Moment(0, 0.5)), e)
            == p.(w := p.w.(log := p.w.log + [FI.DeviceFault(FI.Unavailable, id, now, ms)]))
  {
    var cmd := Outage(id, ms);
    CommandIsARun(p, cmd, now, Moment(0, 0.5), e);
    SameSleep([], p.w.log, cmd, now);
    OutageDecodes(id, ms, now);
    assert ChaosControl.Decimal(1) == "1";
    ControlCall(p.w, 1, ToArgs(cmd.args), now, FI.DeviceFault(FI.Unavailable, id, now, ms));
  }

  lemma SameSleep(a: FI.Log, b: FI.Log, cmd: FC.Command, now: int)
    requires FI.LastLatency(a, cmd.device).None? && FI.LastLatency(b, cmd.device).None?
    ensures CommandEvents(a, cmd, now, Moment(0, 0.5)) == CommandEvents(b, cmd, now, Moment(0, 0.5))
  {
  }

  lemma FallsAsleep(p: Provider, id: string, now: int, ms: int, e: Decay)
    requires p.request.Idle? && GateOpen(p.w, RequestThread, id, now)
    requires ms > 0 && FI.LastLatency(p.w.log, id) == Some(ms)
    ensures var request := Request(id, TempCtl.FN_SET_RELAY, SWITCH_ON, now);
            && Legal(p, [request], e)
            && Run(p, [request], e) == p.(request := Sleeping(id, TempCtl.FN_SET_RELAY, SWITCH_ON, FI.Expiry(now, ms)))
  {
    var request, none: seq<Event> := Request(id, TempCtl.FN_SET_RELAY, SWITCH_ON, now), [];
    RunSteps(p, none, request, e);
    assert none + [request] == [request];
  }

  /** First half: the request falls asleep and the outage is injected. */
  lemma AsleepThroughOutage(p: Provider, id: string, now: int, ms: int, e: Decay)
    requires p.request.Idle? && TickerIdle(p) && GateOpen(p.w, RequestThread, id, now)
    requires ms > 0 && FI.LastLatency(p.w.log, id) == Some(ms) && Commandable(p, Outage(id, 2 * ms), now)
    ensures var events := [Request(id, TempCtl.FN_SET_RELAY, SWITCH_ON, now)]
                          + CommandEvents([], Outage(id, 2 * ms), now, Moment(0, 0.5));
            && Legal(p, events, e)
            && Run(p, events, e)
               == p.(request := Sleeping(id, TempCtl.FN_SET_RELAY, SWITCH_ON, FI.Expiry(now, ms)),
                     w := p.w.(log := p.w.log + [FI.DeviceFault(FI.Unavailable, id, now, 2 * ms)]))
  {
    var request := Request(id, TempCtl.FN_SET_RELAY, SWITCH_ON, now);
    FallsAsleep(p, id, now, ms, e);
    OutageIsInjected(Run(p, [request], e), id, now, 2 * ms, e);
    RunConcat(p, [request], CommandEvents([], Outage(id, 2 * ms), now, Moment(0, 0.5)), e);
  }

  /** The sleeping set_relay is applied although its device is unavailable by then. */
  lemma RelayChangesWhileUnavailable(p: Provider, id: string, now: int, ms: int, e: Decay)
    requires Slowed(p, id, now, ms) && Commandable(p, Outage(id, 2 * ms), now)
    ensures var q, later := Run(p, Events(id, now, ms), e), FI.Expiry(now, ms);
            && Legal(p, Events(id, now, ms), e) && Enabled(q, Apply(RequestThread, later))
            && Unavailable(q.w, id, later) && !TempCtl.Lookup(q.w.fleet.temp, id).relay1
            && TempCtl.Lookup(Step(q, Apply(RequestThread, later), e).w.fleet.temp, id).relay1
  {
    var later, fault := FI.Expiry(now, ms), FI.DeviceFault(FI.Unavailable, id, now, 2 * ms);
    var front := [Request(id, TempCtl.FN_SET_RELAY, SWITCH_ON, now)]
                 + CommandEvents([], Outage(id, 2 * ms), now, Moment(0, 0.5));
    AsleepThroughOutage(p, id, now, ms, e);
    RuleIsStillSilent(p.w.log, fault, id);
    RunSteps(p, front, Awake(RequestThread, later, 0.5), e);
    FI.OverlapRules(p.w.log, FI.Unavailable, id, "", now, 2 * ms, later);
    SwitchedOn(Run(p, Events(id, now, ms), e), id, later, e);
  }

  lemma SwitchedOn(q: Provider, id: string, later: int, e: Decay)
    requires q.request == Passed(id, TempCtl.FN_SET_RELAY, SWITCH_ON)
    requires AdapterIn(q.w, id) == Some(TypeAdapter(Tempctl))
    requires TempCtl.Lookup(q.w.fleet.temp, id).mode == TempCtl.Open
    ensures TempCtl.Lookup(Step(q, Apply(RequestThread, later), e).w.fleet.temp, id).relay1
  {
    SwitchesOn(TempCtl.Lookup(q.w.fleet.temp, id));
  }

  lemma RuleIsStillSilent(log: FI.Log, fault: FI.Event, id: string)
    requires FI.LastRate(log, id, "3").None? && fault.DeviceFault?
    ensures !FI.CallFails(log + [fault], id, ChaosControl.Decimal(3), 0.5)
  {
    FI.RuleOutlastsOtherFaults(log, [fault], id, "3");
    assert ChaosControl.Decimal(3) == "3";
  }

  lemma SwitchesOn(s: TempCtl.State)
    requires s.mode == TempCtl.Open
    ensures TempCtl.Call(s, TempCtl.FN_SET_RELAY, SWITCH_ON).0.relay1
  {
  }

  /** This does happen: one controller slowed by 50 ms is enough. */
  lemma SuchAProviderExists(now: int)
    ensures exists p, id, ms :: Slowed(p, id, now, ms) && Commandable(p, Outage(id, 2 * ms), now)
  {
    var fleet := Fleet(map["t0" := TempCtl.DEFAULT], map[], map[], map[]);
    var w := World(fleet, map["t0" := Spec("t0", "tempctl", map[])], true, {}, map[], [FI.Latency("t0", 50)]);
    var names: NameCache := map[ChaosControl.DEVICE_ID := map["inject_device_unavailable" := 1]];
    var p := Provider(w, None, Idle, Idle, names, [], {});
    assert w.log[..0] == [];
    assert Slowed(p, "t0", now, 50);
    assert Commandable(p, Outage("t0", 2 * 50), now);
  }
}
