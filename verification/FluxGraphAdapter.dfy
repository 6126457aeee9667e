/** The adapter between engine and FluxGraph client (src/simulation/adapters/fluxgraph/fluxgraph_adapter.cpp). */
module FluxGraphAdapter {
  import opened Basics
  import opened SignalPaths
  import opened FluxGraphClient
  import ConfigHash

  // ---------------------------------------------------------------------------------------------
  // Edge targets
  // ---------------------------------------------------------------------------------------------

  /** The targets of the graph's edges: first occurrences only, in order. An edge may have no target. */
  function Dedup(targets: seq<Option<string>>): seq<string> {
    if targets == [] then []
    else
      var front, last := Dedup(targets[..|targets| - 1]), targets[|targets| - 1];
      if last.None? || last.value in front then front else front + [last.value]
  }

  ghost predicate Distinct(paths: seq<string>) {
    forall i, j :: 0 <= i < j < |paths| ==> paths[i] != paths[j]
  }

  lemma {:induction false} DedupKeepsEachTargetOnce(targets: seq<Option<string>>)
    ensures forall p :: p in Dedup(targets) <==> Some(p) in targets
    ensures Distinct(Dedup(targets))
  {
    if targets != [] {
      var front := targets[..|targets| - 1];
      DedupKeepsEachTargetOnce(front);
      assert targets == front + [targets[|targets| - 1]];
    }
  }

  // ---------------------------------------------------------------------------------------------
  // What the calls of the client leave in its history
  // ---------------------------------------------------------------------------------------------

  predicate ReadsSignals(e: Event) {
    e.ReadRpc? || e.RegisterRpc?
  }

  /** A read call asks for its path first, asks for nothing else, and ends with the answer it accepts. */
  lemma ReadEventsShape(server: Server, turn: nat, v: View, path: string)
    ensures forall e :: e in ReadEvents(server, turn, v, path) ==> ReadsSignals(e)
    ensures var h := ReadEvents(server, turn, v, path);
            && h[0].ReadRpc? && h[0].path == path
            && forall i, p :: 0 <= i < |h| && Fetches(h[i], p) ==> p == path && i == |h| - 1
  {
  }

  predicate Connects(e: Event) {
    e.UpdateRpc? || e.RegisterRpc? || e.SessionDropped?
  }

  /** An update call hands out nothing, is answered at most once, by its last event, and sends only `u`. */
  ghost predicate UpdateShape(h: History, u: Update) {
    && h != [] && h[0].UpdateRpc?
    && (forall i :: 0 <= i < |h| ==> Connects(h[i]) && (Answered(h[i]) ==> i == |h| - 1))
    && (forall i :: 0 <= i < |h| && h[i].UpdateRpc? ==>
          h[i].signals == u.signals && h[i].unit == u.unit && h[i].timeoutMs == u.timeoutMs)
  }

  lemma UpdateEventsShape(server: Server, turn: nat, v: View, u: Update)
    ensures UpdateShape(UpdateEvents(server, turn, v, u), u)
  {
    var first, h := UpdateAt(server, turn, v.session, u), UpdateEvents(server, turn, v, u);
    ReconnectShape(server, turn + 1, v);
    ReconnectShape(server, turn + 2, v);
    if first.status == StatusUnauthenticated {
      var again := ReconnectEvents(server, turn + 1, v);
      forall i | 0 < i <= |again| ensures h[i] == again[i - 1] {
      }
    } else if IsRetryable(first.status) {
      var second := UpdateAt(server, turn + 1, v.session, u);
      var again := ReconnectEvents(server, turn + 2, v);
      forall i | 1 < i < |h| ensures h[i] == again[i - 2] {
      }
    }
  }

  lemma ReconnectShape(server: Server, turn: nat, v: View)
    ensures var h := ReconnectEvents(server, turn, v);
            forall i :: 0 <= i < |h| ==> Connects(h[i]) && !h[i].UpdateRpc?
  {
  }

  /** From one history to the next nothing but reads and registrations was recorded. */
  ghost predicate ReadsOnly(before: History, after: History) {
    && |before| <= |after| && after[..|before|] == before
    && forall i :: |before| <= i < |after| ==> ReadsSignals(after[i])
  }

  lemma ReadsOnlyIsTransitive(a: History, b: History, c: History)
    requires ReadsOnly(a, b) && ReadsOnly(b, c)
    ensures ReadsOnly(a, c)
  {
    assert c[..|a|] == c[..|b|][..|a|];
    forall i | |a| <= i < |c| ensures ReadsSignals(c[i]) {
      assert i < |b| ==> c[i] == c[..|b|][i];
    }
  }

  /** An RPC asked for the path, from the given event on. */
  ghost predicate AskedSince(h: History, from: int, path: string) {
    exists i :: 0 <= from <= i < |h| && h[i].ReadRpc? && h[i].path == path
  }

  /** And the answer was accepted. */
  ghost predicate FetchedSince(h: History, from: int, path: string) {
    exists i :: 0 <= from <= i < |h| && Fetches(h[i], path)
  }

  /** What is cached afterwards was cached before or has been fetched in between. */
  ghost predicate CacheGrows(before: History, after: History, was: set<string>, now: set<string>) {
    forall p :: p in now <==> p in was || FetchedSince(after, |before|, p)
  }

  lemma SinceIsMonotone(a: History, b: History, c: History, path: string)
    requires ReadsOnly(a, b) && ReadsOnly(b, c)
    ensures AskedSince(b, |a|, path) ==> AskedSince(c, |a|, path)
    ensures FetchedSince(c, |a|, path) <==> FetchedSince(b, |a|, path) || FetchedSince(c, |b|, path)
  {
    assert forall i :: 0 <= i < |b| ==> b[i] == c[..|b|][i] == c[i];
  }

  lemma FetchedIsAsked(h: History, from: int, path: string)
    requires FetchedSince(h, from, path)
    ensures AskedSince(h, from, path)
  {
    var i :| 0 <= from <= i < |h| && Fetches(h[i], path);
    assert h[i].ReadRpc? && h[i].path == path;
  }

  lemma CacheGrowsOn(a: History, b: History, c: History, x: set<string>, y: set<string>, z: set<string>)
    requires ReadsOnly(a, b) && ReadsOnly(b, c) && CacheGrows(a, b, x, y) && CacheGrows(b, c, y, z)
    ensures CacheGrows(a, c, x, z)
  {
    forall p ensures p in z <==> p in x || FetchedSince(c, |a|, p) {
      SinceIsMonotone(a, b, c, p);
    }
  }

  /** One read call, as far as the cache is concerned. */
  lemma ReadCallFetches(h: History, server: Server, turn: nat, v: View, path: string)
    ensures var events := ReadEvents(server, turn, v, path);
            && AskedSince(h + events, |h|, path)
            && forall p :: FetchedSince(h + events, |h|, p) <==> p == path && EndsFetched(events, path)
  {
    var events := ReadEvents(server, turn, v, path);
    ReadEventsShape(server, turn, v, path);
    assert (h + events)[|h|] == events[0];
    assert (h + events)[|h + events| - 1] == events[|events| - 1];
    forall i | |h| <= i < |h + events| ensures (h + events)[i] == events[i - |h|] {
    }
  }

  /** From one history to the next no tick was answered and no command handed out. */
  ghost predicate Quiet(before: History, after: History) {
    && |before| <= |after| && after[..|before|] == before
    && forall i :: |before| <= i < |after| ==> !Ticked(after[i]) && !after[i].Drained?
  }

  lemma RegistrationIsQuiet(h: History, server: Server, turn: nat, provider: string, devices: seq<string>)
    ensures Quiet(h, h) && Quiet(h, h + RegisterEvents(server, turn, provider, devices))
  {
  }

  ghost predicate AllAsked(before: History, after: History, was: set<string>, paths: seq<string>) {
    forall p :: p in paths ==> p in was || AskedSince(after, |before|, p)
  }

  /** The sensors are the cached ones among the paths. */
  ghost predicate Gathered(sensors: map<string, real>, cache: map<string, real>, paths: seq<string>) {
    && (forall p :: p in sensors <==> p in paths && p in cache)
    && (forall p :: p in sensors ==> sensors[p] == cache[p])
  }

  lemma AskedOneMore(a: History, b: History, c: History, x: set<string>, y: set<string>, z: set<string>,
                     paths: seq<string>, i: nat)
    requires i < |paths| && ReadsOnly(a, b) && ReadsOnly(b, c) && CacheGrows(a, b, x, y) && CacheGrows(b, c, y, z)
    requires AllAsked(a, b, x, paths[..i]) && (paths[i] in y || AskedSince(c, |b|, paths[i]))
    ensures CacheGrows(a, c, x, z) && AllAsked(a, c, x, paths[..i + 1])
  {
    CacheGrowsOn(a, b, c, x, y, z);
    assert paths[..i + 1] == paths[..i] + [paths[i]];
    forall p | p in paths[..i + 1] ensures p in x || AskedSince(c, |a|, p) {
      SinceIsMonotone(a, b, c, p);
      if p in y && p !in x {
        FetchedIsAsked(b, |a|, p);
      }
    }
  }

  lemma GatheredOneMore(sensors: map<string, real>, was: map<string, real>, now: map<string, real>,
                        paths: seq<string>, i: nat, value: Option<real>)
    requires i < |paths| && Gathered(sensors, was, paths[..i])
    requires forall p :: p in was ==> p in now && now[p] == was[p]
    requires forall p :: p in now ==> p in was || p == paths[i]
    requires value == if paths[i] in now then Some(now[paths[i]]) else None
    ensures Gathered(if value.Some? then sensors[paths[i] := value.value] else sensors, now, paths[..i + 1])
  {
    assert paths[..i + 1] == paths[..i] + [paths[i]];
  }

  /** The server takes the configuration over. */
  predicate ConfigTaken(server: Server, turn: nat) {
    Conclusive(server, turn).Some? && Conclusive(server, turn).value.success
  }

  class Adapter {
    const client: Client
    var outputPaths: seq<string>
    var registeredDeviceIds: set<string>

    constructor (client: Client)
      ensures this.client == client && outputPaths == [] && registeredDeviceIds == {}
    {
      this.client := client;
      outputPaths := [];
      registeredDeviceIds := {};
    }

    /** A load that fails on the server leaves the known paths alone. */
    method LoadConfig(content: seq<ConfigHash.byte>, targets: seq<Option<string>>, connected: bool)
      returns (ok: bool)
      requires client.Valid()
      modifies this`outputPaths, client
      ensures client.Valid()
      ensures ok <==> connected && ConfigTaken(client.server, old(client.turn))
      ensures connected ==> client.turn == TurnAfter(client.server, old(client.turn))
      ensures outputPaths == if ok then Dedup(targets) else old(outputPaths)
      ensures Quiet(old(client.history), client.history)
    {
      ConfigByStatus(client.server, client.turn, ConfigHash.ConfigHashOf(content));
      ok := client.LoadConfigContent(content, connected);
      if !ok {
        return;
      }
      var paths: seq<string> := [];
      var dedup: set<string> := {};
      for i := 0 to |targets|
        invariant paths == Dedup(targets[..i])
        invariant forall p :: p in dedup <==> p in paths
      {
        assert targets[..i + 1][..i] == targets[..i];
        if targets[i].Some? {
          var target := targets[i].value;
          if target !in dedup {
            dedup := dedup + {target};
            paths := paths + [target];
          }
        }
      }
      assert targets[..|targets|] == targets;
      outputPaths := paths;
    }

    /** The device ids are taken over even when the registration itself fails. */
    method RegisterProvider(name: string, deviceIds: seq<string>, connected: bool) returns (ok: bool)
      requires client.Valid()
      modifies this`registeredDeviceIds, client
      ensures client.Valid()
      ensures ok <==> connected && Accepted(Conclusive(client.server, old(client.turn)))
      ensures ok ==> client.registered && client.providerId == name && client.registeredDeviceIds == deviceIds
      ensures registeredDeviceIds == set id | id in deviceIds
      ensures Quiet(old(client.history), client.history)
    {
      RegisterByStatus(client.server, client.turn, name, deviceIds);
      RegistrationIsQuiet(client.history, client.server, client.turn, name, deviceIds);
      TakeOver(deviceIds);
      ok := client.RegisterProvider(name, deviceIds, connected);
    }

    method TakeOver(deviceIds: seq<string>)
      modifies this`registeredDeviceIds
      ensures registeredDeviceIds == set id | id in deviceIds
    {
      registeredDeviceIds := {};
      for i := 0 to |deviceIds|
        invariant registeredDeviceIds == set id | id in deviceIds[..i]
      {
        registeredDeviceIds := registeredDeviceIds + {deviceIds[i]};
      }
      assert deviceIds[..|deviceIds|] == deviceIds;
    }

    /** With no explicit paths: the output paths owned by a registered device. */
    method PathsToRead(signalPaths: seq<string>) returns (paths: seq<string>)
      ensures paths == if signalPaths == [] then OwnedPaths(outputPaths, registeredDeviceIds) else signalPaths
    {
      paths := signalPaths;
      if paths == [] {
        for i := 0 to |outputPaths|
          invariant paths == OwnedPaths(outputPaths[..i], registeredDeviceIds)
        {
          assert outputPaths[..i + 1][..i] == outputPaths[..i];
          var slash := FirstSlash(outputPaths[i]);
          if slash.Some? {
            var deviceId := outputPaths[i][..slash.value];
            if deviceId in registeredDeviceIds {
              paths := paths + [outputPaths[i]];
            }
          }
        }
        assert outputPaths[..|outputPaths|] == outputPaths;
      }
    }

    /** One read through the client; what is cached already stays as it is, and anything else is asked for. */
    method ReadValue(path: string) returns (value: Option<real>)
      requires client.Valid()
      modifies client
      ensures client.Valid() && ReadsOnly(old(client.history), client.history)
      ensures path in old(client.signalCache) || AskedSince(client.history, |old(client.history)|, path)
      ensures CacheGrows(old(client.history), client.history, old(client.signalCache.Keys), client.signalCache.Keys)
      ensures forall p :: p in old(client.signalCache) ==> client.signalCache[p] == old(client.signalCache)[p]
      ensures forall p :: p in client.signalCache ==> p in old(client.signalCache) || p == path
      ensures value == if path in client.signalCache then Some(client.signalCache[path]) else None
    {
      ReadEventsShape(client.server, client.turn, client.State(), path);
      ReadCallFetches(client.history, client.server, client.turn, client.State(), path);
      value := client.ReadSignalValue(path);
    }

    /**
     * Every path that is not cached is asked for, and is left out exactly when no read of it was accepted; reading
     * sends nothing but reads and registrations.
     */
    method ReadSignals(signalPaths: seq<string>) returns (sensors: map<string, real>)
      requires client.Valid()
      modifies client
      ensures client.Valid() && ReadsOnly(old(client.history), client.history)
      ensures var paths := if signalPaths == [] then OwnedPaths(outputPaths, registeredDeviceIds) else signalPaths;
              && sensors == (map p | p in paths && p in client.signalCache :: client.signalCache[p])
              && forall p :: p in paths ==>
                   && (p in old(client.signalCache) || AskedSince(client.history, |old(client.history)|, p))
                   && (p in sensors
                       <==> p in old(client.signalCache) || FetchedSince(client.history, |old(client.history)|, p))
    {
      var paths := PathsToRead(signalPaths);
      sensors := map[];
      ghost var before, was := client.history, client.signalCache.Keys;
      for i := 0 to |paths|
        invariant client.Valid() && ReadsOnly(before, client.history)
        invariant CacheGrows(before, client.history, was, client.signalCache.Keys)
        invariant AllAsked(before, client.history, was, paths[..i])
        invariant Gathered(sensors, client.signalCache, paths[..i])
      {
        sensors := ReadNext(paths, i, sensors, before, was);
      }
      assert paths[..|paths|] == paths;
      assert AllAsked(before, client.history, was, paths) && Gathered(sensors, client.signalCache, paths);
    }

    /** One turn of the loop. */
    method ReadNext(paths: seq<string>, i: nat, sensors: map<string, real>, ghost before: History,
                    ghost was: set<string>)
      returns (out: map<string, real>)
      requires client.Valid() && i < |paths| && ReadsOnly(before, client.history)
      requires CacheGrows(before, client.history, was, client.signalCache.Keys)
      requires AllAsked(before, client.history, was, paths[..i]) && Gathered(sensors, client.signalCache, paths[..i])
      modifies client
      ensures client.Valid() && ReadsOnly(before, client.history)
      ensures CacheGrows(before, client.history, was, client.signalCache.Keys)
      ensures AllAsked(before, client.history, was, paths[..i + 1])
      ensures Gathered(out, client.signalCache, paths[..i + 1])
    {
      ghost var between, keys, values := client.history, client.signalCache.Keys, client.signalCache;
      var value := ReadValue(paths[i]);
      ReadsOnlyIsTransitive(before, between, client.history);
      AskedOneMore(before, between, client.history, was, keys, client.signalCache.Keys, paths, i);
      out := if value.Some? then sensors[paths[i] := value.value] else sensors;
      GatheredOneMore(sensors, values, client.signalCache, paths, i, value);
    }

    method DrainCommands() returns (out: seq<Command>)
      requires client.Valid()
      modifies client
      ensures client.Valid() && client.pendingCommands == []
      ensures out == old(client.pendingCommands) && client.history == old(client.history) + [Drained(out)]
    {
      var commands := client.DrainCommands();
      out := [];
      for i := 0 to |commands|
        invariant out == commands[..i]
      {
        out := out + [Command(commands[i].device, commands[i].function_, commands[i].args)];
      }
    }
  }
}
