/**
 * The remote simulation engine (src/simulation/engines/remote_engine.cpp): one tick is an update, a read of the
 * sensors and a drain of the commands, and any failure maps to an empty result.
 */
module RemoteEngine {
  import opened Basics
  import opened SignalPaths
  import opened FluxGraphClient
  import opened FluxGraphAdapter
  import ConfigHash

  datatype TickResult = TickResult(success: bool, sensors: map<string, real>, commands: seq<Command>)

  const FAILED := TickResult(false, map[], [])

  /** Twenty tick periods in whole milliseconds, at least one; two seconds without a rate. */
  function TimeoutMs(rate: real): int {
    if rate > 0.0 then
      var ms := ((20.0 / rate) * 1000.0).Floor;
      if ms > 0 then ms else 1
    else 2000
  }

  /** For the admitted rates the timeout is twenty periods cut to whole milliseconds, 20 ms to 200 s. */
  lemma TimeoutCoversTwentyPeriods(rate: real)
    requires 0.1 <= rate <= 1000.0
    ensures TimeoutMs(rate) == (20_000.0 / rate).Floor
    ensures 20 <= TimeoutMs(rate) <= 200_000
    ensures TimeoutMs(10.0) == 2000
  {
    var periods := 20.0 / rate;
    assert periods * rate == 20.0;
    if periods < 0.02 {
      ScaleStrictly(rate, periods, 0.02);
    }
    if periods > 200.0 {
      ScaleStrictly(rate, 200.0, periods);
    }
    assert 20_000.0 / rate == periods * 1000.0;
  }

  lemma ScaleStrictly(rate: real, a: real, b: real)
    requires rate > 0.0 && a < b
    ensures a * rate < b * rate
  {
  }

  // ---------------------------------------------------------------------------------------------
  // Accounting of commands
  // ---------------------------------------------------------------------------------------------

  /** Everything a tick has ever delivered has been handed out, in order, each command once. */
  ghost predicate Settled(h: History) {
    Delivered(h, |h|) == TickCommands(h, |h|)
  }

  lemma {:induction false} AccountsOfPrefix(h: History, h': History, n: nat)
    requires n <= |h| <= |h'| && h'[..|h|] == h
    ensures Delivered(h', n) == Delivered(h, n)
    ensures TickCommands(h', n) == TickCommands(h, n)
  {
    if n > 0 {
      AccountsOfPrefix(h, h', n - 1);
      assert h'[n - 1] == h'[..|h|][n - 1];
    }
  }

  /** Events that neither deliver nor tick change no account. */
  lemma {:induction false} QuietEvents(h: History, from: nat, to: nat)
    requires from <= to <= |h|
    requires forall i :: from <= i < to ==> !h[i].Drained? && !Ticked(h[i])
    ensures Delivered(h, to) == Delivered(h, from)
    ensures TickCommands(h, to) == TickCommands(h, from)
  {
    if from < to {
      QuietEvents(h, from, to - 1);
    }
  }

  /** One complete tick: a single ticking answer at k, then reads, then the drain of exactly its commands. */
  ghost predicate CompleteTick(before: History, after: History, k: int) {
    && |before| <= k < |after| - 1 && after[..|before|] == before
    && Ticked(after[k])
    && after[|after| - 1] == Drained(ConvertedAll(after[k].reply.commands))
    && (forall i :: |before| <= i < k ==> !after[i].Drained? && !Answered(after[i]))
    && (forall i :: k < i < |after| - 1 ==> ReadsSignals(after[i]))
  }

  /** Up to the final drain, a tick has added its commands to what is due and handed nothing out. */
  lemma CompleteTickDue(before: History, after: History, k: int)
    requires CompleteTick(before, after, k)
    ensures Delivered(after, |after| - 1) == Delivered(before, |before|)
    ensures TickCommands(after, |after| - 1)
            == TickCommands(before, |before|) + ConvertedAll(after[k].reply.commands)
  {
    BeforeAnswer(before, after, k);
    TickingEvent(after, k);
    AfterAnswer(before, after, k);
  }

  lemma BeforeAnswer(before: History, after: History, k: int)
    requires CompleteTick(before, after, k)
    ensures Delivered(after, k) == Delivered(before, |before|)
    ensures TickCommands(after, k) == TickCommands(before, |before|)
  {
    AccountsOfPrefix(before, after, |before|);
    QuietEvents(after, |before|, k);
  }

  lemma AfterAnswer(before: History, after: History, k: int)
    requires CompleteTick(before, after, k)
    ensures Delivered(after, |after| - 1) == Delivered(after, k + 1)
    ensures TickCommands(after, |after| - 1) == TickCommands(after, k + 1)
  {
    QuietEvents(after, k + 1, |after| - 1);
  }

  lemma CompleteTickSettles(before: History, after: History, k: int)
    requires Settled(before) && CompleteTick(before, after, k)
    ensures Settled(after)
  {
    CompleteTickDue(before, after, k);
    DrainingEvent(after, |after| - 1);
  }

  lemma DrainingEvent(h: History, k: nat)
    requires k < |h| && h[k].Drained?
    ensures Delivered(h, k + 1) == Delivered(h, k) + h[k].commands
    ensures TickCommands(h, k + 1) == TickCommands(h, k)
  {
    assert TickedBy(h[k]) == [];
  }

  /** A ticking answer adds its commands to what ticks delivered, and hands nothing out itself. */
  lemma TickingEvent(h: History, k: nat)
    requires k < |h| && Ticked(h[k])
    ensures Delivered(h, k + 1) == Delivered(h, k)
    ensures TickCommands(h, k + 1) == TickCommands(h, k) + ConvertedAll(h[k].reply.commands)
  {
    assert DeliveredBy(h[k]) == [];
  }

  /** A tick that fails leaves no ticking answer and drains nothing. */
  ghost predicate FailedTick(before: History, after: History) {
    && |before| <= |after| && after[..|before|] == before
    && forall i :: |before| <= i < |after| ==> Connects(after[i]) && !Ticked(after[i])
  }

  lemma FailedTickSettles(before: History, after: History)
    requires Settled(before) && FailedTick(before, after)
    ensures Settled(after)
  {
    AccountsOfPrefix(before, after, |before|);
    QuietEvents(after, |before|, |after|);
  }

  lemma QuietSettles(before: History, after: History)
    requires Settled(before) && Quiet(before, after)
    ensures Settled(after)
  {
    AccountsOfPrefix(before, after, |before|);
    QuietEvents(after, |before|, |after|);
  }

  ghost predicate TickStep(before: History, after: History) {
    FailedTick(before, after) || exists k :: CompleteTick(before, after, k)
  }

  /** Over any sequence of ticks, successful or not, every command of every tick is handed out exactly once. */
  lemma {:induction false} RunsSettle(histories: seq<History>)
    requires histories != [] && Settled(histories[0])
    requires forall i :: 0 <= i < |histories| - 1 ==> TickStep(histories[i], histories[i + 1])
    ensures Settled(histories[|histories| - 1])
  {
    var n := |histories| - 1;
    if n > 0 {
      RunsSettle(histories[..n]);
      var before, after := histories[n - 1], histories[n];
      assert TickStep(histories[n - 1], histories[n - 1 + 1]);
      if FailedTick(before, after) {
        FailedTickSettles(before, after);
      } else {
        var k :| CompleteTick(before, after, k);
        CompleteTickSettles(before, after, k);
      }
    }
  }

  // ---------------------------------------------------------------------------------------------
  // Freshness of sensors
  // ---------------------------------------------------------------------------------------------

  /** The value was fetched by an RPC issued after event k. */
  ghost predicate FetchedAfter(h: History, k: int, path: string, value: real) {
    exists i :: 0 <= i < |h| && k < i && Fetches(h[i], path) && h[i].infos[0].value == value
  }

  lemma CachedAfterTickIsFresh(h: History, k: nat, path: string)
    requires k < |h| && Ticked(h[k]) && path in Replay(h).cache
    ensures FetchedAfter(h, k, path, Replay(h).cache[path].value)
  {
    CacheIsFresh(h, |h|, path);
    var i :| FetchedAt(h, |h|, i, path, Replay(h).cache[path]);
    assert i != k && !(i < k);
    assert k < i < |h| && Fetches(h[i], path) && h[i].infos[0].value == Replay(h).cache[path].value;
  }

  // ---------------------------------------------------------------------------------------------
  // The engine
  // ---------------------------------------------------------------------------------------------

  class Engine {
    const adapter: Adapter
    const tickRateHz: real
    var providerId: string
    var deviceIds: seq<string>

    ghost predicate Valid()
      reads this, adapter, adapter.client
    {
      adapter.client.Valid() && Settled(adapter.client.history)
    }

    constructor (adapter: Adapter, rate: real)
      requires adapter.client.Valid() && adapter.client.history == []
      ensures Valid() && this.adapter == adapter && tickRateHz == rate && providerId == "provider-sim"
    {
      this.adapter := adapter;
      tickRateHz := rate;
      providerId := "provider-sim";
      deviceIds := [];
    }

    method SetProviderId(id: string)
      requires Valid()
      modifies this`providerId
      ensures Valid() && providerId == if id == "" then "provider-sim" else id
    {
      providerId := if id == "" then "provider-sim" else id;
    }

    method Initialize(content: seq<ConfigHash.byte>, targets: seq<Option<string>>, connected: bool)
      returns (ok: bool)
      requires Valid()
      modifies adapter`outputPaths, adapter.client
      ensures Valid() && adapter.outputPaths == if ok then Dedup(targets) else old(adapter.outputPaths)
      ensures ok <==> connected && ConfigTaken(adapter.client.server, old(adapter.client.turn))
      ensures connected ==> adapter.client.turn == TurnAfter(adapter.client.server, old(adapter.client.turn))
    {
      ghost var before := adapter.client.history;
      ok := adapter.LoadConfig(content, targets, connected);
      QuietSettles(before, adapter.client.history);
    }

    method RegisterDevices(ids: seq<string>, connected: bool) returns (ok: bool)
      requires Valid()
      modifies this`deviceIds, adapter`registeredDeviceIds, adapter.client
      ensures Valid()
      ensures ok <==> connected && Accepted(Conclusive(adapter.client.server, old(adapter.client.turn)))
      ensures ok ==> adapter.client.registered && adapter.client.providerId == providerId
                     && adapter.client.registeredDeviceIds == ids
      ensures deviceIds == ids && adapter.registeredDeviceIds == set id | id in ids
    {
      ghost var before := adapter.client.history;
      deviceIds := ids;
      ok := adapter.RegisterProvider(providerId, ids, connected);
      QuietSettles(before, adapter.client.history);
    }

    method ListSignals() returns (paths: seq<string>)
      ensures paths == adapter.outputPaths
    {
      return adapter.outputPaths;
    }

    /**
     * A registered tick sends the actuators, and it succeeds exactly when the answer to its last update says that a
     * tick occurred. It then returns the commands of that answer and, of every owned path, the value fetched after it,
     * if a fetch got through. A failed tick returns nothing, and without a registration nothing at all is sent.
     */
    method Tick(actuators: map<string, real>) returns (result: TickResult)
      requires Valid()
      modifies adapter.client
      ensures Valid()
      ensures !old(adapter.client.registered) ==> result == FAILED && unchanged(adapter.client)
      ensures !result.success ==> result == FAILED && FailedTick(old(adapter.client.history), adapter.client.history)
      ensures old(adapter.client.registered) ==>
                exists k :: TickMade(old(adapter.client.history), adapter.client.history, k, actuators,
                                     TimeoutMs(tickRateHz),
                                     OwnedPaths(adapter.outputPaths, adapter.registeredDeviceIds), result)
    {
      var client := adapter.client;
      ghost var before, u := client.history, Update(actuators, "dimensionless", TimeoutMs(tickRateHz));
      ghost var events := UpdateEvents(client.server, client.turn, client.State(), u);
      UpdateEventsShape(client.server, client.turn, client.State(), u);
      var outcome := client.UpdateSignals(actuators, "dimensionless", TimeoutMs(tickRateHz));
      if outcome != Returned(true) {
        UpdateFailed(before, if old(client.registered) then events else [], client.history, u,
                     OwnedPaths(adapter.outputPaths, adapter.registeredDeviceIds));
        return FAILED;
      }
      result := Collect(before, events, u);
    }

    /** The second half of a tick: the sensors are read and the commands drained. */
    method Collect(ghost before: History, ghost events: History, ghost u: Update) returns (result: TickResult)
      requires adapter.client.Valid() && Settled(before) && adapter.client.history == before + events
      requires UpdateShape(events, u) && u.unit == "dimensionless" && OutcomeOf(events) == Returned(true)
      modifies adapter.client
      ensures Valid() && result.success
      ensures exists k :: TickMade(before, adapter.client.history, k, u.signals, u.timeoutMs,
                                   OwnedPaths(adapter.outputPaths, adapter.registeredDeviceIds), result)
    {
      var client := adapter.client;
      CachesDropped(before, events, client.signalCache);
      ghost var updated := client.history;
      var sensors := adapter.ReadSignals([]);
      ghost var readOut := client.history;
      assert forall p :: p in sensors ==> p in client.Cache() && client.Cache()[p].value == sensors[p];
      var commands := adapter.DrainCommands();
      result := TickResult(true, sensors, commands);
      TickDelivers(before, events, u, updated, readOut, client.history,
                   OwnedPaths(adapter.outputPaths, adapter.registeredDeviceIds), result);
    }
  }

  /** The last update of a tick, what all its updates sent, and what decides about success. */
  ghost predicate TickTried(before: History, after: History, k: int, actuators: map<string, real>, timeoutMs: int,
                            success: bool)
  {
    && |before| <= k < |after| && after[..|before|] == before
    && after[k].UpdateRpc? && (forall i :: k < i < |after| ==> !after[i].UpdateRpc?)
    && (forall i :: |before| <= i < |after| && after[i].UpdateRpc? ==> TickSends(after[i], actuators, timeoutMs))
    && (success <==> after[k].status == StatusOk && after[k].reply.tickOccurred)
  }

  /** Every path was asked for after event k and is a sensor exactly if a read of it was accepted. */
  ghost predicate SensorsComplete(after: History, k: int, paths: seq<string>, sensors: map<string, real>) {
    && (forall p :: p in paths ==> AskedSince(after, k + 1, p) && (p in sensors <==> FetchedSince(after, k + 1, p)))
    && (forall p :: p in sensors ==> p in paths)
  }

  ghost predicate TickMade(before: History, after: History, k: int, actuators: map<string, real>, timeoutMs: int,
                           paths: seq<string>, result: TickResult)
  {
    && TickTried(before, after, k, actuators, timeoutMs, result.success)
    && (result.success ==>
          TickResultAt(before, after, k, actuators, timeoutMs, result)
          && SensorsComplete(after, k, paths, result.sensors))
  }

  /** What a successful tick from one history to the next has to show for itself. */
  ghost predicate TickResultAt(before: History, after: History, k: int, actuators: map<string, real>,
                               timeoutMs: int, result: TickResult)
  {
    && CompleteTick(before, after, k)
    && TickSends(after[k], actuators, timeoutMs)
    && result.commands == ConvertedAll(after[k].reply.commands)
    && forall p :: p in result.sensors ==> FetchedAfter(after, k, p, result.sensors[p])
  }

  predicate TickSends(e: Event, actuators: map<string, real>, timeoutMs: int) {
    e.UpdateRpc? && e.signals == actuators && e.unit == "dimensionless" && e.timeoutMs == timeoutMs
  }

  lemma {:induction false} LastUpdateOf(h: History) returns (k: nat)
    requires h != [] && h[0].UpdateRpc?
    ensures k < |h| && h[k].UpdateRpc? && forall i :: k < i < |h| ==> !h[i].UpdateRpc?
  {
    k := |h| - 1;
    if !h[k].UpdateRpc? {
      k := LastUpdateOf(h[..k]);
    }
  }

  lemma UpdateFailed(before: History, events: History, after: History, u: Update, paths: seq<string>)
    requires after == before + events && (events == [] || UpdateShape(events, u))
    requires OutcomeOf(events) != Returned(true)
    requires Settled(before) && u.unit == "dimensionless"
    ensures FailedTick(before, after) && Settled(after)
    ensures events != [] ==> exists k :: TickMade(before, after, k, u.signals, u.timeoutMs, paths, FAILED)
  {
    assert after[..|before|] == before;
    forall i | |before| <= i < |after| ensures Connects(after[i]) && !Ticked(after[i]) {
      assert after[i] == events[i - |before|];
    }
    FailedTickSettles(before, after);
    if events != [] {
      var k := LastUpdateOf(events);
      UpdateTried(before, events, after, u, k);
      assert TickMade(before, after, |before| + k, u.signals, u.timeoutMs, paths, FAILED);
    }
  }

  /** The updates of a tick are those of its update call. */
  lemma UpdateTried(before: History, events: History, after: History, u: Update, k: nat)
    requires UpdateShape(events, u) && u.unit == "dimensionless"
    requires k < |events| && events[k].UpdateRpc? && forall i :: k < i < |events| ==> !events[i].UpdateRpc?
    requires |before + events| <= |after| && after[..|before + events|] == before + events
    requires forall i :: |before + events| <= i < |after| ==> !after[i].UpdateRpc?
    ensures TickTried(before, after, |before| + k, u.signals, u.timeoutMs, Ticked(events[k]))
  {
    forall i | 0 <= i < |before + events| ensures after[i] == (before + events)[i] {
      assert after[i] == after[..|before + events|][i];
    }
    assert after[..|before|] == before;
    forall i | |before| <= i < |before + events| ensures after[i] == events[i - |before|] {
    }
  }

  lemma CachesDropped(before: History, events: History, cache: map<string, real>)
    requires events != [] && Ticked(events[|events| - 1])
    requires cache.Keys == Replay(before + events).cache.Keys
    ensures cache == map[]
  {
    var h := before + events;
    assert h[|h| - 1] == events[|events| - 1];
    assert Replay(h).cache == map[];
  }

  /** Reads after a ticking answer leave its commands pending. */
  lemma {:induction false} PendingTo(h: History, k: nat, n: nat)
    requires k < n <= |h| && Answered(h[k])
    requires forall i :: k < i < n ==> ReadsSignals(h[i])
    ensures ReplayTo(h, n).pending == ConvertedAll(h[k].reply.commands)
  {
    if k + 1 < n {
      PendingTo(h, k, n - 1);
    }
  }

  lemma TickDelivers(before: History, events: History, u: Update, updated: History, readOut: History,
                     after: History, paths: seq<string>, result: TickResult)
    requires Settled(before)
    requires UpdateShape(events, u) && u.unit == "dimensionless" && OutcomeOf(events) == Returned(true)
    requires updated == before + events && ReadsOnly(updated, readOut)
    requires result.success && result.commands == Replay(readOut).pending
    requires after == readOut + [Drained(result.commands)]
    requires forall p :: p in result.sensors ==>
               p in paths && p in Replay(readOut).cache && Replay(readOut).cache[p].value == result.sensors[p]
    requires forall p :: p in paths ==>
               AskedSince(readOut, |updated|, p) && (p in result.sensors <==> FetchedSince(readOut, |updated|, p))
    ensures Settled(after)
    ensures exists k :: TickMade(before, after, k, u.signals, u.timeoutMs, paths, result)
  {
    var k := |updated| - 1;
    assert readOut[k] == readOut[..|updated|][k] == updated[k] == events[|events| - 1];
    PendingTo(readOut, k, |readOut|);
    TickAssembled(before, events, u, updated, readOut, after);
    CompleteTickSettles(before, after, k);
    SensorsAreFresh(readOut, k, after, result.sensors);
    assert TickResultAt(before, after, k, u.signals, u.timeoutMs, result);
    TickAttempted(before, events, u, updated, readOut, after);
    SensorsKeep(readOut, after, k, paths, result.sensors);
    assert TickMade(before, after, k, u.signals, u.timeoutMs, paths, result);
  }

  lemma TickAttempted(before: History, events: History, u: Update, updated: History, readOut: History,
                      after: History)
    requires UpdateShape(events, u) && u.unit == "dimensionless" && OutcomeOf(events) == Returned(true)
    requires updated == before + events && ReadsOnly(updated, readOut)
    requires |after| == |readOut| + 1 && after[..|readOut|] == readOut && after[|readOut|].Drained?
    ensures TickTried(before, after, |updated| - 1, u.signals, u.timeoutMs, true)
  {
    assert after[..|updated|] == readOut[..|updated|];
    forall i | |updated| <= i < |after| ensures !after[i].UpdateRpc? {
      assert i < |readOut| ==> after[i] == after[..|readOut|][i];
    }
    UpdateTried(before, events, after, u, |events| - 1);
  }

  lemma SensorsKeep(readOut: History, after: History, k: nat, paths: seq<string>, sensors: map<string, real>)
    requires k < |readOut| && |after| == |readOut| + 1 && after[..|readOut|] == readOut && after[|readOut|].Drained?
    requires forall p :: p in sensors ==> p in paths
    requires forall p :: p in paths ==>
               AskedSince(readOut, k + 1, p) && (p in sensors <==> FetchedSince(readOut, k + 1, p))
    ensures SensorsComplete(after, k, paths, sensors)
  {
    assert forall i :: 0 <= i < |readOut| ==> after[i] == after[..|readOut|][i] == readOut[i];
  }

  lemma TickAssembled(before: History, events: History, u: Update, updated: History, readOut: History,
                      after: History)
    requires UpdateShape(events, u) && OutcomeOf(events) == Returned(true)
    requires updated == before + events && ReadsOnly(updated, readOut)
    requires after == readOut + [Drained(ConvertedAll(events[|events| - 1].reply.commands))]
    ensures CompleteTick(before, after, |updated| - 1) && after[|updated| - 1] == events[|events| - 1]
  {
    var k := |updated| - 1;
    forall i | 0 <= i < |updated| ensures after[i] == updated[i] {
      assert after[i] == readOut[i] == readOut[..|updated|][i];
    }
    assert after[..|before|] == before;
    forall i | |before| <= i < k ensures !after[i].Drained? && !Answered(after[i]) {
      assert after[i] == events[i - |before|];
    }
  }

  lemma SensorsAreFresh(readOut: History, k: nat, after: History, sensors: map<string, real>)
    requires k < |readOut| && Ticked(readOut[k])
    requires |readOut| <= |after| && after[..|readOut|] == readOut
    requires forall p :: p in sensors ==> p in Replay(readOut).cache && Replay(readOut).cache[p].value == sensors[p]
    ensures forall p :: p in sensors ==> FetchedAfter(after, k, p, sensors[p])
  {
    forall p | p in sensors ensures FetchedAfter(after, k, p, sensors[p]) {
      CachedAfterTickIsFresh(readOut, k, p);
      var i :| 0 <= i < |readOut| && k < i && Fetches(readOut[i], p) && readOut[i].infos[0].value == sensors[p];
      assert after[i] == after[..|readOut|][i];
    }
  }
}
