/**
 * The FluxGraph RPC client (src/simulation/adapters/fluxgraph/fluxgraph_client.cpp).
 *
 * The server is an oracle: an arbitrary infinite sequence of turns. The client keeps a ghost history of what it
 * sent and received. Its fields are proved to be exactly the replay of that history, and the properties of
 * sessions, caches and commands are theorems about every history the client can produce.
 */
module FluxGraphClient {
  import opened Basics
  import ConfigHash

  const MAX_RPC_ATTEMPTS := 2
  const DEFAULT_RPC_TIMEOUT_MS := 2000

  datatype StatusCode =
    | StatusOk | StatusUnavailable | StatusDeadlineExceeded | StatusResourceExhausted | StatusAborted
    | StatusUnauthenticated | StatusOther

  predicate IsRetryable(status: StatusCode) {
    status in {StatusUnavailable, StatusDeadlineExceeded, StatusResourceExhausted, StatusAborted}
  }

  // ---------------------------------------------------------------------------------------------
  // Messages
  // ---------------------------------------------------------------------------------------------

  datatype WireArg = WireDouble(d: real) | WireInt(i: int) | WireBool(b: bool) | WireString(s: string) | WireNotSet
  datatype WireCommand = WireCommand(device: string, function_: string, args: map<string, WireArg>)

  datatype CommandValue = DoubleVal(d: real) | IntVal(i: int) | BoolVal(b: bool) | StringVal(s: string)
  datatype Command = Command(device: string, function_: string, args: map<string, CommandValue>)

  datatype SignalInfo = SignalInfo(value: real, unit: string, physicsDriven: bool)

  datatype TickResponse = TickResponse(tickOccurred: bool, simTime: real, commands: seq<WireCommand>)
  datatype Registration = Registration(success: bool, sessionId: string)

  /** One answer of the server; an RPC looks at the parts its response type has. */
  datatype Turn = Turn(status: StatusCode, tick: TickResponse, registration: Registration,
                       signals: seq<SignalInfo>, success: bool, configChanged: bool)

  function ConvertArg(arg: WireArg): CommandValue
    requires !arg.WireNotSet?
  {
    match arg
    case WireDouble(d) => DoubleVal(d)
    case WireInt(i) => IntVal(i)
    case WireBool(b) => BoolVal(b)
    case WireString(s) => StringVal(s)
  }

  /** Arguments keep their type and value; unset ones disappear. */
  function Converted(c: WireCommand): Command {
    Command(c.device, c.function_, map k | k in c.args && !c.args[k].WireNotSet? :: ConvertArg(c.args[k]))
  }

  function ConvertedAll(cs: seq<WireCommand>): seq<Command> {
    if cs == [] then [] else ConvertedAll(cs[..|cs| - 1]) + [Converted(cs[|cs| - 1])]
  }

  method ConvertCommand(c: WireCommand) returns (cmd: Command)
    ensures cmd == Converted(c)
  {
    var args: map<string, CommandValue> := map[];
    var rest := c.args.Keys;
    while rest != {}
      invariant rest <= c.args.Keys
      invariant forall k :: k in args <==> k in c.args && k !in rest && !c.args[k].WireNotSet?
      invariant forall k :: k in args ==> args[k] == ConvertArg(c.args[k])
      decreases |rest|
    {
      var key :| key in rest;
      match c.args[key] {
        case WireDouble(d) => args := args[key := DoubleVal(d)];
        case WireInt(i) => args := args[key := IntVal(i)];
        case WireBool(b) => args := args[key := BoolVal(b)];
        case WireString(s) => args := args[key := StringVal(s)];
        case WireNotSet =>
      }
      rest := rest - {key};
    }
    cmd := Command(c.device, c.function_, args);
  }

  // ---------------------------------------------------------------------------------------------
  // Histories and what they mean
  // ---------------------------------------------------------------------------------------------

  datatype Event =
    | UpdateRpc(session: string, signals: map<string, real>, unit: string, timeoutMs: int,
                status: StatusCode, reply: TickResponse)
    | SessionDropped
    | RegisterRpc(provider: string, devices: seq<string>, status: StatusCode, registration: Registration)
    | ReadRpc(path: string, status: StatusCode, infos: seq<SignalInfo>)
    | ResetRpc(status: StatusCode, success: bool)
    | ConfigRpc(hash: string, status: StatusCode, success: bool, changed: bool)
    | UnregisterRpc(session: string)
    | Drained(commands: seq<Command>)

  type History = seq<Event>

  /** The server is an infinite sequence of answers, one for each RPC. */
  type Server = nat -> Turn

  datatype View = View(registered: bool, session: string, provider: string, devices: seq<string>,
                       simTime: real, lastTick: bool, pending: seq<Command>, cache: map<string, SignalInfo>)

  const EMPTY := View(false, "", "", [], 0.0, false, [], map[])

  predicate Answered(e: Event) {
    e.UpdateRpc? && e.status == StatusOk
  }

  predicate Ticked(e: Event) {
    Answered(e) && e.reply.tickOccurred
  }

  predicate Issues(e: Event) {
    e.RegisterRpc? && e.status == StatusOk && e.registration.success
  }

  predicate Fetches(e: Event, path: string) {
    e.ReadRpc? && e.path == path && e.status == StatusOk && |e.infos| == 1
  }

  predicate Resets(e: Event) {
    || (e.ResetRpc? && e.status == StatusOk && e.success)
    || (e.ConfigRpc? && e.status == StatusOk && e.success && e.changed)
  }

  predicate Invalidates(e: Event) {
    Ticked(e) || Resets(e)
  }

  function Apply(v: View, e: Event): View {
    match e
    case UpdateRpc(_, _, _, _, StatusOk, reply) =>
      v.(lastTick := reply.tickOccurred, simTime := reply.simTime, pending := ConvertedAll(reply.commands),
         cache := if reply.tickOccurred then map[] else v.cache)
    case RegisterRpc(provider, devices, StatusOk, Registration(true, session)) =>
      v.(registered := true, session := session, provider := provider, devices := devices)
    case ReadRpc(path, StatusOk, infos) => if |infos| == 1 then v.(cache := v.cache[path := infos[0]]) else v
    case ResetRpc(StatusOk, true) => v.(simTime := 0.0, lastTick := false, pending := [], cache := map[])
    case ConfigRpc(_, StatusOk, true, true) =>
      EMPTY.(provider := v.provider, devices := v.devices)
    case SessionDropped => v.(registered := false, session := "")
    case UnregisterRpc(_) => v.(registered := false, session := "")
    case Drained(_) => v.(pending := [])
    case _ => v
  }

  /** The view after the first n events. */
  function ReplayTo(h: History, n: nat): View
    requires n <= |h|
  {
    if n == 0 then EMPTY else Apply(ReplayTo(h, n - 1), h[n - 1])
  }

  function Replay(h: History): View {
    ReplayTo(h, |h|)
  }

  /** What the client's own rules say about when it may send or record an event. */
  predicate Allowed(v: View, e: Event) {
    match e
    case UpdateRpc(session, _, _, _, _, _) => v.registered && session == v.session
    case ReadRpc(path, _, _) => path !in v.cache
    case UnregisterRpc(session) => v.registered && session == v.session
    case Drained(commands) => commands == v.pending
    case _ => true
  }

  predicate AllowedAt(h: History, i: nat)
    requires i < |h|
  {
    Allowed(ReplayTo(h, i), h[i])
  }

  ghost predicate Legal(h: History) {
    forall i {:trigger AllowedAt(h, i)} :: 0 <= i < |h| ==> AllowedAt(h, i)
  }

  lemma {:induction false} ReplayOfPrefix(h: History, e: Event, n: nat)
    requires n <= |h|
    ensures ReplayTo(h + [e], n) == ReplayTo(h, n)
  {
    if n > 0 {
      ReplayOfPrefix(h, e, n - 1);
    }
  }

  lemma Appended(h: History, e: Event)
    requires Legal(h) && Allowed(Replay(h), e)
    ensures Replay(h + [e]) == Apply(Replay(h), e) && Legal(h + [e])
  {
    ReplayOfPrefix(h, e, |h|);
    forall i | 0 <= i < |h + [e]| ensures AllowedAt(h + [e], i) {
      ReplayOfPrefix(h, e, i);
      if i < |h| {
        assert AllowedAt(h, i);
      }
    }
  }

  // --- Answers ---

  predicate IsRpc(e: Event) {
    !e.SessionDropped? && !e.Drained?
  }

  /** How many RPCs the first n events hold. */
  function Rpcs(h: History, n: nat): nat
    requires n <= |h|
  {
    if n == 0 then 0 else Rpcs(h, n - 1) + if IsRpc(h[n - 1]) then 1 else 0
  }

  /** The event carries what the server said. */
  predicate Carries(e: Event, t: Turn) {
    match e
    case UpdateRpc(_, _, _, _, status, reply) => status == t.status && reply == t.tick
    case RegisterRpc(_, _, status, registration) => status == t.status && registration == t.registration
    case ReadRpc(_, status, infos) => status == t.status && infos == t.signals
    case ResetRpc(status, success) => status == t.status && success == t.success
    case ConfigRpc(_, status, success, changed) =>
      status == t.status && success == t.success && changed == t.configChanged
    case _ => true
  }

  ghost predicate CarriesAnswerAt(h: History, i: nat, server: Server)
    requires i < |h|
  {
    IsRpc(h[i]) ==> Carries(h[i], server(Rpcs(h, i)))
  }

  /** The n-th RPC of the history carries the n-th answer of the server, and `turn` answers have been given. */
  ghost predicate Answers(h: History, server: Server, turn: nat) {
    && turn == Rpcs(h, |h|)
    && forall i {:trigger CarriesAnswerAt(h, i, server)} :: 0 <= i < |h| ==> CarriesAnswerAt(h, i, server)
  }

  lemma {:induction false} RpcsOfPrefix(h: History, e: Event, n: nat)
    requires n <= |h|
    ensures Rpcs(h + [e], n) == Rpcs(h, n)
  {
    if n > 0 {
      RpcsOfPrefix(h, e, n - 1);
    }
  }

  lemma AnswersGrow(h: History, e: Event, server: Server, turn: nat)
    requires Answers(h, server, turn) && (IsRpc(e) ==> Carries(e, server(turn)))
    ensures Answers(h + [e], server, turn + if IsRpc(e) then 1 else 0)
  {
    RpcsOfPrefix(h, e, |h|);
    forall i | 0 <= i < |h + [e]| ensures CarriesAnswerAt(h + [e], i, server) {
      RpcsOfPrefix(h, e, i);
      if i < |h| {
        assert CarriesAnswerAt(h, i, server);
      }
    }
  }

  // --- Sessions ---

  /** The id in the last successful registration reply among the first n events. */
  function LastIssued(h: History, n: nat): Option<string>
    requires n <= |h|
  {
    if n == 0 then None
    else if Issues(h[n - 1]) then Some(h[n - 1].registration.sessionId)
    else LastIssued(h, n - 1)
  }

  /** Registered means holding the last issued id; not registered means holding none. */
  lemma {:induction false} SessionInvariant(h: History, n: nat)
    requires n <= |h|
    ensures var v := ReplayTo(h, n);
            if v.registered then LastIssued(h, n) == Some(v.session) else v.session == ""
  {
    if n > 0 {
      SessionInvariant(h, n - 1);
    }
  }

  /** Every update ever sent carried the id that was the last issued one at that moment. */
  lemma UpdatesCarryCurrentSession(h: History, i: nat)
    requires Legal(h) && i < |h| && h[i].UpdateRpc?
    ensures LastIssued(h, i) == Some(h[i].session)
  {
    assert AllowedAt(h, i);
    SessionInvariant(h, i);
  }

  // --- Caches ---

  ghost predicate FetchedAt(h: History, n: nat, i: int, path: string, info: SignalInfo)
    requires n <= |h|
  {
    && 0 <= i < n && Fetches(h[i], path) && h[i].infos[0] == info
    && forall j :: i < j < n ==> !Invalidates(h[j]) && !Fetches(h[j], path)
  }

  /** A cache entry is the answer of exactly one fetch, and nothing has invalidated the cache since. */
  lemma {:induction false} CacheIsFresh(h: History, n: nat, path: string)
    requires n <= |h| && path in ReplayTo(h, n).cache
    ensures exists i :: FetchedAt(h, n, i, path, ReplayTo(h, n).cache[path])
  {
    var info, e := ReplayTo(h, n).cache[path], h[n - 1];
    if Fetches(e, path) {
      assert FetchedAt(h, n, n - 1, path, info);
    } else {
      CacheIsFresh(h, n - 1, path);
      var i :| FetchedAt(h, n - 1, i, path, info);
      assert FetchedAt(h, n, i, path, info);
    }
  }

  /** An entry, once fetched, is neither changed nor fetched again until an event invalidates the cache. */
  lemma {:induction false} CacheIsStable(h: History, k: nat, n: nat, path: string)
    requires Legal(h) && k <= n <= |h| && path in ReplayTo(h, k).cache
    requires forall j :: k <= j < n ==> !Invalidates(h[j])
    ensures path in ReplayTo(h, n).cache && ReplayTo(h, n).cache[path] == ReplayTo(h, k).cache[path]
    ensures forall j :: k <= j < n && h[j].ReadRpc? ==> h[j].path != path
  {
    if k < n {
      CacheIsStable(h, k, n - 1, path);
      assert AllowedAt(h, n - 1);
    }
  }

  // --- Commands ---

  /** What one event hands out for execution. */
  function DeliveredBy(e: Event): seq<Command> {
    if e.Drained? then e.commands else []
  }

  /** The commands of an answered update in which a tick occurred. */
  function TickedBy(e: Event): seq<Command> {
    if Ticked(e) then ConvertedAll(e.reply.commands) else []
  }

  /** Every command handed out by the first n events, in order. */
  function Delivered(h: History, n: nat): seq<Command>
    requires n <= |h|
  {
    if n == 0 then [] else Delivered(h, n - 1) + DeliveredBy(h[n - 1])
  }

  /** The commands of all the ticks among the first n events, in order, each once. */
  function TickCommands(h: History, n: nat): seq<Command>
    requires n <= |h|
  {
    if n == 0 then [] else TickCommands(h, n - 1) + TickedBy(h[n - 1])
  }

  // --- RPC counts ---

  datatype RpcKind = Updating | Registering | Reading

  function Counts(e: Event, kind: RpcKind): nat {
    match kind
    case Updating => if e.UpdateRpc? then 1 else 0
    case Registering => if e.RegisterRpc? then 1 else 0
    case Reading => if e.ReadRpc? then 1 else 0
  }

  /** How many RPCs of a kind the first n events hold. */
  function CountUpTo(h: History, n: nat, kind: RpcKind): nat
    requires n <= |h|
  {
    if n == 0 then 0 else CountUpTo(h, n - 1, kind) + Counts(h[n - 1], kind)
  }

  function Count(h: History, kind: RpcKind): nat {
    CountUpTo(h, |h|, kind)
  }

  lemma {:induction false} CountUpToConcat(a: History, b: History, n: nat, kind: RpcKind)
    requires n <= |a + b|
    ensures CountUpTo(a + b, n, kind)
            == if n <= |a| then CountUpTo(a, n, kind) else Count(a, kind) + CountUpTo(b, n - |a|, kind)
  {
    if n > 0 {
      CountUpToConcat(a, b, n - 1, kind);
    }
  }

  lemma CountShort(h: History, kind: RpcKind)
    requires |h| <= 2
    ensures Count(h, kind) == (if |h| >= 1 then Counts(h[0], kind) else 0) + if |h| == 2 then Counts(h[1], kind) else 0
  {
    if |h| > 0 {
      assert CountUpTo(h, 0, kind) == 0;
      assert CountUpTo(h, 1, kind) == Counts(h[0], kind);
    }
  }

  lemma CountOfParts(a: History, b: History, c: History, kind: RpcKind)
    ensures Count(a + b + c, kind) == Count(a, kind) + Count(b, kind) + Count(c, kind)
  {
    CountUpToConcat(a + b, c, |a + b + c|, kind);
    CountUpToConcat(a, b, |a + b|, kind);
  }

  // ---------------------------------------------------------------------------------------------
  // What one call of the client does, against any server
  // ---------------------------------------------------------------------------------------------

  datatype UpdateOutcome = Returned(tick: bool) | Threw
  datatype Round = Answer | TryAgain | GiveUp

  function RegisterAt(server: Server, turn: nat, provider: string, devices: seq<string>): Event {
    RegisterRpc(provider, devices, server(turn).status, server(turn).registration)
  }

  /** One registration attempt, and a second one exactly when the first status is retryable. */
  function RegisterEvents(server: Server, turn: nat, provider: string, devices: seq<string>): History {
    var first := RegisterAt(server, turn, provider, devices);
    if IsRetryable(first.status) then [first, RegisterAt(server, turn + 1, provider, devices)] else [first]
  }

  /** Re-registration needs a provider id; it repeats the registration last accepted. */
  function ReregisterEvents(server: Server, turn: nat, v: View): History {
    if v.provider == "" then [] else RegisterEvents(server, turn, v.provider, v.devices)
  }

  /** The reaction to UNAUTHENTICATED in update_signals: the session is dropped, then registered again. */
  function ReconnectEvents(server: Server, turn: nat, v: View): History {
    [SessionDropped] + ReregisterEvents(server, turn, v)
  }

  predicate EndsRegistered(h: History) {
    h != [] && Issues(h[|h| - 1])
  }

  datatype Update = Update(signals: map<string, real>, unit: string, timeoutMs: int)

  function UpdateAt(server: Server, turn: nat, session: string, u: Update): Event {
    UpdateRpc(session, u.signals, u.unit, u.timeoutMs, server(turn).status, server(turn).tick)
  }

  /**
   * One UpdateSignals call of a registered client. After UNAUTHENTICATED the session is dropped and
   * re-registered once; a second attempt follows a successful re-registration or a retryable first status.
   */
  function UpdateEvents(server: Server, turn: nat, v: View, u: Update): History {
    var first := UpdateAt(server, turn, v.session, u);
    if first.status == StatusUnauthenticated then
      var again := ReconnectEvents(server, turn + 1, v);
      [first] + again
      + if EndsRegistered(again)
        then [UpdateAt(server, turn + |again|, again[|again| - 1].registration.sessionId, u)] else []
    else if IsRetryable(first.status) then
      var second := UpdateAt(server, turn + 1, v.session, u);
      [first] + [second]
      + if second.status == StatusUnauthenticated then ReconnectEvents(server, turn + 2, v) else []
    else [first]
  }

  /** update_signals returns the tick flag of the answer that ended the call, or throws without one. */
  function OutcomeOf(h: History): UpdateOutcome {
    if h != [] && Answered(h[|h| - 1]) then Returned(h[|h| - 1].reply.tickOccurred) else Threw
  }

  function ReadAt(server: Server, turn: nat, path: string): Event {
    ReadRpc(path, server(turn).status, server(turn).signals)
  }

  /** One ReadSignals call for a path that is not cached. */
  function ReadEvents(server: Server, turn: nat, v: View, path: string): History {
    var first := ReadAt(server, turn, path);
    if first.status == StatusUnauthenticated && v.registered then
      var again := ReregisterEvents(server, turn + 1, v);
      [first] + again + if EndsRegistered(again) then [ReadAt(server, turn + 1 + |again|, path)] else []
    else if IsRetryable(first.status) then
      var second := ReadAt(server, turn + 1, path);
      [first] + [second]
      + if second.status == StatusUnauthenticated && v.registered then ReregisterEvents(server, turn + 2, v) else []
    else [first]
  }

  /** The path was fetched by the last event. */
  predicate EndsFetched(h: History, path: string) {
    h != [] && Fetches(h[|h| - 1], path)
  }

  function ResetAt(server: Server, turn: nat): Event {
    ResetRpc(server(turn).status, server(turn).success)
  }

  /** A Reset or LoadConfig call: two attempts at most, the second only after a retryable status. */
  function ResetEvents(server: Server, turn: nat): History {
    var first := ResetAt(server, turn);
    if IsRetryable(first.status) then [first, ResetAt(server, turn + 1)] else [first]
  }

  function ConfigAt(server: Server, turn: nat, hash: string): Event {
    ConfigRpc(hash, server(turn).status, server(turn).success, server(turn).configChanged)
  }

  function ConfigEvents(server: Server, turn: nat, hash: string): History {
    var first := ConfigAt(server, turn, hash);
    if IsRetryable(first.status) then [first, ConfigAt(server, turn + 1, hash)] else [first]
  }

  lemma ReregisterCount(server: Server, turn: nat, v: View, kind: RpcKind)
    ensures var h := ReregisterEvents(server, turn, v);
            Count(h, kind) == (if kind == Registering then |h| else 0) && |h| <= MAX_RPC_ATTEMPTS
  {
    CountShort(ReregisterEvents(server, turn, v), kind);
  }

  /** Whatever the server answers, one update_signals call sends one or two updates and at most two registrations. */
  lemma UpdateIsBounded(server: Server, turn: nat, v: View, u: Update)
    ensures var h := UpdateEvents(server, turn, v, u);
            && 1 <= Count(h, Updating) <= MAX_RPC_ATTEMPTS
            && Count(h, Registering) <= MAX_RPC_ATTEMPTS
            && Count(h, Reading) == 0
  {
    UpdateCount(server, turn, v, u, Updating);
    UpdateCount(server, turn, v, u, Registering);
    UpdateCount(server, turn, v, u, Reading);
  }

  lemma UpdateCount(server: Server, turn: nat, v: View, u: Update, kind: RpcKind)
    ensures var n := Count(UpdateEvents(server, turn, v, u), kind);
            match kind
            case Updating => 1 <= n <= MAX_RPC_ATTEMPTS
            case Registering => n <= MAX_RPC_ATTEMPTS
            case Reading => n == 0
  {
    var first := UpdateAt(server, turn, v.session, u);
    CountShort([first], kind);
    CountShort([], kind);
    if first.status == StatusUnauthenticated {
      var again := ReconnectEvents(server, turn + 1, v);
      ReconnectCount(server, turn + 1, v, kind);
      var tail := if EndsRegistered(again)
        then [UpdateAt(server, turn + |again|, again[|again| - 1].registration.sessionId, u)] else [];
      CountOfParts([first], again, tail, kind);
      CountShort(tail, kind);
    } else if IsRetryable(first.status) {
      var second := UpdateAt(server, turn + 1, v.session, u);
      CountShort([second], kind);
      ReconnectCount(server, turn + 2, v, kind);
      CountOfParts([first], [second], ReconnectEvents(server, turn + 2, v), kind);
      CountOfParts([first], [second], [], kind);
    }
  }

  lemma ReconnectCount(server: Server, turn: nat, v: View, kind: RpcKind)
    ensures var n := Count(ReconnectEvents(server, turn, v), kind);
            if kind == Registering then n <= MAX_RPC_ATTEMPTS else n == 0
  {
    var again := ReregisterEvents(server, turn, v);
    ReregisterCount(server, turn, v, kind);
    CountOfParts([], [SessionDropped], again, kind);
    CountShort([], kind);
    CountShort([SessionDropped], kind);
    assert [] + [SessionDropped] == [SessionDropped];
  }

  /** Likewise one read_signal call: one or two reads and at most two registrations. */
  lemma ReadIsBounded(server: Server, turn: nat, v: View, path: string)
    ensures var h := ReadEvents(server, turn, v, path);
            && 1 <= Count(h, Reading) <= MAX_RPC_ATTEMPTS
            && Count(h, Registering) <= MAX_RPC_ATTEMPTS
            && Count(h, Updating) == 0
  {
    ReadCount(server, turn, v, path, Updating);
    ReadCount(server, turn, v, path, Registering);
    ReadCount(server, turn, v, path, Reading);
  }

  lemma ReadCount(server: Server, turn: nat, v: View, path: string, kind: RpcKind)
    ensures var n := Count(ReadEvents(server, turn, v, path), kind);
            match kind
            case Reading => 1 <= n <= MAX_RPC_ATTEMPTS
            case Registering => n <= MAX_RPC_ATTEMPTS
            case Updating => n == 0
  {
    var first := ReadAt(server, turn, path);
    CountShort([first], kind);
    if first.status == StatusUnauthenticated && v.registered {
      var again := ReregisterEvents(server, turn + 1, v);
      ReregisterCount(server, turn + 1, v, kind);
      var tail := if EndsRegistered(again) then [ReadAt(server, turn + 1 + |again|, path)] else [];
      CountOfParts([first], again, tail, kind);
      CountShort(tail, kind);
    } else if IsRetryable(first.status) {
      var second := ReadAt(server, turn + 1, path);
      var again := if second.status == StatusUnauthenticated && v.registered
        then ReregisterEvents(server, turn + 2, v) else [];
      ReregisterCount(server, turn + 2, v, kind);
      CountOfParts([first], [second], again, kind);
      CountShort([second], kind);
      CountShort([], kind);
    }
  }

  // ---------------------------------------------------------------------------------------------
  // The same calls, status by status
  // ---------------------------------------------------------------------------------------------

  /** A call that may be repeated once: the second attempt follows the transient failures and nothing else. */
  predicate RepeatedIfTransient(h: History, first: Event, second: Event, status: StatusCode) {
    match status
    case StatusUnavailable | StatusDeadlineExceeded | StatusResourceExhausted | StatusAborted => h == [first, second]
    case StatusOk | StatusUnauthenticated | StatusOther => h == [first]
  }

  /** The answer that ends such a call, if it is OK. */
  function Conclusive(server: Server, turn: nat): Option<Turn> {
    match server(turn).status
    case StatusOk => Some(server(turn))
    case StatusUnauthenticated | StatusOther => None
    case StatusUnavailable | StatusDeadlineExceeded | StatusResourceExhausted | StatusAborted =>
      if server(turn + 1).status == StatusOk then Some(server(turn + 1)) else None
  }

  /** The number of the RPC after such a call. */
  function TurnAfter(server: Server, turn: nat): nat {
    match server(turn).status
    case StatusOk | StatusUnauthenticated | StatusOther => turn + 1
    case StatusUnavailable | StatusDeadlineExceeded | StatusResourceExhausted | StatusAborted => turn + 2
  }

  function RegisterWith(provider: string, devices: seq<string>, t: Turn): Event {
    RegisterRpc(provider, devices, t.status, t.registration)
  }

  predicate Accepted(answer: Option<Turn>) {
    answer.Some? && answer.value.registration.success
  }

  /** A registration is repeated after a transient failure only, and stands if the final answer is OK and accepts. */
  lemma RegisterByStatus(server: Server, turn: nat, provider: string, devices: seq<string>)
    ensures var h, answer := RegisterEvents(server, turn, provider, devices), Conclusive(server, turn);
            && RepeatedIfTransient(h, RegisterWith(provider, devices, server(turn)),
                                   RegisterWith(provider, devices, server(turn + 1)), server(turn).status)
            && EndsRegistered(h) == Accepted(answer) && |h| == TurnAfter(server, turn) - turn
            && (Accepted(answer) ==> h[|h| - 1].registration == answer.value.registration)
  {
  }

  lemma ConfigByStatus(server: Server, turn: nat, hash: string)
    ensures var h, answer := ConfigEvents(server, turn, hash), Conclusive(server, turn);
            var first, second := server(turn), server(turn + 1);
            var last := h[|h| - 1];
            && RepeatedIfTransient(h, ConfigRpc(hash, first.status, first.success, first.configChanged),
                                   ConfigRpc(hash, second.status, second.success, second.configChanged), first.status)
            && (last.status == StatusOk && last.success <==> answer.Some? && answer.value.success)
            && |h| == TurnAfter(server, turn) - turn
            && (Resets(last) <==> answer.Some? && answer.value.success && answer.value.configChanged)
  {
  }

  lemma ResetByStatus(server: Server, turn: nat)
    ensures var h, answer := ResetEvents(server, turn), Conclusive(server, turn);
            && RepeatedIfTransient(h, ResetRpc(server(turn).status, server(turn).success),
                                   ResetRpc(server(turn + 1).status, server(turn + 1).success), server(turn).status)
            && (Resets(h[|h| - 1]) <==> answer.Some? && answer.value.success)
  {
  }

  function UpdateWith(session: string, u: Update, t: Turn): Event {
    UpdateRpc(session, u.signals, u.unit, u.timeoutMs, t.status, t.tick)
  }

  /**
   * An update whose first answer is not UNAUTHENTICATED. An OK answer ends it, a transient failure is followed by one
   * more update in the same session whose answer decides, and any other failure ends it at once.
   */
  lemma UpdateByStatus(server: Server, turn: nat, v: View, u: Update)
    requires server(turn).status != StatusUnauthenticated
    ensures var h, t, t' := UpdateEvents(server, turn, v, u), server(turn), server(turn + 1);
            match t.status
            case StatusOk => h == [UpdateWith(v.session, u, t)] && OutcomeOf(h) == Returned(t.tick.tickOccurred)
            case StatusUnavailable | StatusDeadlineExceeded | StatusResourceExhausted | StatusAborted =>
              && |h| >= 2 && h[..2] == [UpdateWith(v.session, u, t), UpdateWith(v.session, u, t')]
              && OutcomeOf(h) == (if t'.status == StatusOk then Returned(t'.tick.tickOccurred) else Threw)
              && (t'.status != StatusUnauthenticated ==> |h| == 2)
            case StatusUnauthenticated | StatusOther => h == [UpdateWith(v.session, u, t)] && OutcomeOf(h) == Threw
  {
    var h := UpdateEvents(server, turn, v, u);
    var first, second := UpdateAt(server, turn, v.session, u), UpdateAt(server, turn + 1, v.session, u);
    if IsRetryable(first.status) && second.status == StatusUnauthenticated {
      var again := ReconnectEvents(server, turn + 2, v);
      assert h == [first, second] + again;
      NotAnswered(server, turn + 2, v);
    }
  }

  lemma NotAnswered(server: Server, turn: nat, v: View)
    ensures var h := ReconnectEvents(server, turn, v); forall i :: 0 <= i < |h| ==> !h[i].UpdateRpc?
  {
  }

  /**
   * An update answered UNAUTHENTICATED drops the session and repeats the last registration. If that is accepted, a
   * second update with the new session id follows and its answer decides; otherwise the call throws.
   */
  lemma UpdateReconnects(server: Server, turn: nat, v: View, u: Update)
    requires server(turn).status == StatusUnauthenticated
    ensures var h, answer := UpdateEvents(server, turn, v, u), Conclusive(server, turn + 1);
            var again := if v.provider == "" then [] else RegisterEvents(server, turn + 1, v.provider, v.devices);
            var dropped := [UpdateWith(v.session, u, server(turn)), SessionDropped] + again;
            if v.provider != "" && Accepted(answer)
            then var t := server(turn + 1 + |again|);
                 && h == dropped + [UpdateWith(answer.value.registration.sessionId, u, t)]
                 && OutcomeOf(h) == if t.status == StatusOk then Returned(t.tick.tickOccurred) else Threw
            else h == dropped && OutcomeOf(h) == Threw
  {
    var first, again := UpdateAt(server, turn, v.session, u), ReconnectEvents(server, turn + 1, v);
    RegisterByStatus(server, turn + 1, v.provider, v.devices);
    assert [first] + again == [first, SessionDropped] + ReregisterEvents(server, turn + 1, v);
    NotAnswered(server, turn + 1, v);
    assert again[|again| - 1] == if v.provider == "" then SessionDropped
                                 else RegisterEvents(server, turn + 1, v.provider, v.devices)[|again| - 2];
  }

  /** A read is fetched by an OK answer with exactly one signal, at once or after one transient failure. */
  lemma ReadByStatus(server: Server, turn: nat, v: View, path: string)
    requires server(turn).status != StatusUnauthenticated
    ensures var h, t, t' := ReadEvents(server, turn, v, path), server(turn), server(turn + 1);
            match t.status
            case StatusOk => h == [ReadRpc(path, StatusOk, t.signals)] && EndsFetched(h, path) == (|t.signals| == 1)
            case StatusUnavailable | StatusDeadlineExceeded | StatusResourceExhausted | StatusAborted =>
              && |h| >= 2 && h[..2] == [ReadRpc(path, t.status, t.signals), ReadRpc(path, t'.status, t'.signals)]
              && EndsFetched(h, path) == (t'.status == StatusOk && |t'.signals| == 1)
              && (t'.status != StatusUnauthenticated ==> |h| == 2)
            case StatusUnauthenticated | StatusOther =>
              h == [ReadRpc(path, t.status, t.signals)] && !EndsFetched(h, path)
  {
    var h, second := ReadEvents(server, turn, v, path), ReadAt(server, turn + 1, path);
    if IsRetryable(server(turn).status) && second.status == StatusUnauthenticated && v.registered {
      var again := ReregisterEvents(server, turn + 2, v);
      assert h == [ReadAt(server, turn, path), second] + again;
    }
  }

  /** A read answered UNAUTHENTICATED is repeated once a registered client has been registered again. */
  lemma ReadReconnects(server: Server, turn: nat, v: View, path: string)
    requires server(turn).status == StatusUnauthenticated
    ensures var h, answer := ReadEvents(server, turn, v, path), Conclusive(server, turn + 1);
            var tried := v.registered && v.provider != "";
            var again := if tried then RegisterEvents(server, turn + 1, v.provider, v.devices) else [];
            var before := [ReadRpc(path, StatusUnauthenticated, server(turn).signals)] + again;
            if tried && Accepted(answer)
            then var t := server(turn + 1 + |again|);
                 && h == before + [ReadRpc(path, t.status, t.signals)]
                 && EndsFetched(h, path) == (t.status == StatusOk && |t.signals| == 1)
            else h == before && !EndsFetched(h, path)
  {
    RegisterByStatus(server, turn + 1, v.provider, v.devices);
  }

  // --- What an update leaves ---

  function ReplayFrom(v: View, h: History): View {
    if h == [] then v else Apply(ReplayFrom(v, h[..|h| - 1]), h[|h| - 1])
  }

  lemma {:induction false} ReplayToConcat(a: History, b: History, n: nat)
    requires n <= |b|
    ensures ReplayTo(a + b, |a| + n) == ReplayFrom(Replay(a), b[..n])
  {
    if n == 0 {
      ReplayToSame(a, a + b, |a|);
    } else {
      ReplayToConcat(a, b, n - 1);
      assert b[..n][..n - 1] == b[..n - 1];
    }
  }

  lemma {:induction false} ReplayToSame(a: History, b: History, n: nat)
    requires n <= |a| <= |b| && b[..|a|] == a
    ensures ReplayTo(b, n) == ReplayTo(a, n)
  {
    if n > 0 {
      ReplayToSame(a, b, n - 1);
      assert b[n - 1] == b[..|a|][n - 1];
    }
  }

  lemma ReplayConcat(a: History, b: History)
    ensures Replay(a + b) == ReplayFrom(Replay(a), b)
  {
    ReplayToConcat(a, b, |b|);
    assert b[..|b|] == b;
  }

  predicate LeavesSignals(e: Event, v: View) {
    || e.SessionDropped? || (e.UpdateRpc? && e.status != StatusOk)
    || (e.RegisterRpc? && e.provider == v.provider && e.devices == v.devices)
  }

  lemma {:induction false} FailuresLeaveSignals(v: View, h: History)
    requires forall i :: 0 <= i < |h| ==> LeavesSignals(h[i], v)
    ensures var v' := ReplayFrom(v, h); v' == v.(registered := v'.registered, session := v'.session)
  {
    if h != [] {
      FailuresLeaveSignals(v, h[..|h| - 1]);
    }
  }

  lemma FrontOfUpdate(server: Server, turn: nat, v: View, u: Update)
    ensures var h := UpdateEvents(server, turn, v, u);
            forall i :: 0 <= i < |h| && (i < |h| - 1 || !Answered(h[i])) ==> LeavesSignals(h[i], v)
  {
  }

  lemma SessionOfUpdate(server: Server, turn: nat, v: View, u: Update)
    requires v.registered
    requires var h := UpdateEvents(server, turn, v, u); |h| > 1 && Answered(h[|h| - 1])
    ensures var h := UpdateEvents(server, turn, v, u);
            var v' := ReplayFrom(v, h[..|h| - 1]);
            v'.registered && v'.session == h[|h| - 1].session
  {
    var h := UpdateEvents(server, turn, v, u);
    var front := h[..|h| - 1];
    assert front[..|front| - 1] + [front[|front| - 1]] == front;
  }

  /**
   * What an update call leaves behind. An answered one takes over tick flag, time and commands of its answer and
   * drops the caches exactly on a tick; one that throws touches the registration at most.
   */
  lemma UpdateLeaves(server: Server, turn: nat, v: View, u: Update)
    requires v.registered
    ensures var h := UpdateEvents(server, turn, v, u);
            var v' := ReplayFrom(v, h);
            match OutcomeOf(h)
            case Threw => v' == v.(registered := v'.registered, session := v'.session)
            case Returned(tick) =>
              var reply := h[|h| - 1].reply;
              v' == v.(session := h[|h| - 1].session, lastTick := tick, simTime := reply.simTime,
                       pending := ConvertedAll(reply.commands), cache := if tick then map[] else v.cache)
  {
    var h := UpdateEvents(server, turn, v, u);
    if Answered(h[|h| - 1]) {
      var front := h[..|h| - 1];
      FrontOfUpdate(server, turn, v, u);
      FailuresLeaveSignals(v, front);
      if |front| > 0 {
        SessionOfUpdate(server, turn, v, u);
      }
    } else {
      FrontOfUpdate(server, turn, v, u);
      FailuresLeaveSignals(v, h);
    }
  }

  // ---------------------------------------------------------------------------------------------
  // The client
  // ---------------------------------------------------------------------------------------------

  class Client {
    const server: Server
    var turn: nat  // how many answers the server has given

    var registered: bool
    var sessionId: string
    var providerId: string
    var registeredDeviceIds: seq<string>
    var simTimeSec: real
    var lastTickOccurred: bool
    var pendingCommands: seq<Command>
    var signalCache: map<string, real>
    var unitCache: map<string, string>
    var physicsDrivenCache: map<string, bool>

    ghost var history: History

    /** The three parallel caches seen as one. */
    ghost function Cache(): (cache: map<string, SignalInfo>)
      requires signalCache.Keys == unitCache.Keys == physicsDrivenCache.Keys
      reads this`signalCache, this`unitCache, this`physicsDrivenCache
      ensures cache.Keys == signalCache.Keys
    {
      map p | p in signalCache :: SignalInfo(signalCache[p], unitCache[p], physicsDrivenCache[p])
    }

    ghost function State(): View
      requires signalCache.Keys == unitCache.Keys == physicsDrivenCache.Keys
      reads this
    {
      View(registered, sessionId, providerId, registeredDeviceIds, simTimeSec, lastTickOccurred, pendingCommands,
           Cache())
    }

    /** The fields are the replay of the history, which is legal and carries the server's answers, one by one. */
    ghost predicate Valid()
      reads this
    {
      && signalCache.Keys == unitCache.Keys == physicsDrivenCache.Keys
      && State() == Replay(history)
      && Legal(history)
      && Answers(history, server, turn)
    }

    constructor (server: Server)
      ensures Valid() && history == [] && this.server == server && turn == 0
    {
      this.server := server;
      turn := 0;
      registered, sessionId, providerId, registeredDeviceIds := false, "", "", [];
      simTimeSec, lastTickOccurred, pendingCommands := 0.0, false, [];
      signalCache, unitCache, physicsDrivenCache := map[], map[], map[];
      history := [];
    }

    method Rpc() returns (t: Turn)
      modifies this`turn
      ensures t == server(old(turn)) && turn == old(turn) + 1
    {
      t := server(turn);
      turn := turn + 1;
    }

    /** An RPC is recorded with the answer just given, anything else without one. */
    ghost method Record(e: Event)
      requires Legal(history) && Allowed(Replay(history), e)
      requires turn >= if IsRpc(e) then 1 else 0
      requires Answers(history, server, turn - if IsRpc(e) then 1 else 0)
      requires IsRpc(e) ==> Carries(e, server(turn - 1))
      modifies this`history
      ensures history == old(history) + [e]
      ensures Replay(history) == Apply(Replay(old(history)), e) && Legal(history) && Answers(history, server, turn)
    {
      Appended(history, e);
      AnswersGrow(history, e, server, turn - if IsRpc(e) then 1 else 0);
      history := history + [e];
    }

    method InvalidateCache()
      modifies this`signalCache, this`unitCache, this`physicsDrivenCache
      ensures signalCache.Keys == unitCache.Keys == physicsDrivenCache.Keys == {}
      ensures Cache() == map[]
    {
      signalCache := map[];
      unitCache := map[];
      physicsDrivenCache := map[];
    }

    /** One RegisterProvider RPC; an accepted registration is taken over. */
    method SendRegister(provider: string, devices: seq<string>) returns (status: StatusCode, accepted: bool)
      requires Valid()
      modifies this`turn, this`history, this`sessionId, this`registered, this`providerId, this`registeredDeviceIds
      ensures Valid() && turn == old(turn) + 1
      ensures var e := RegisterAt(server, old(turn), provider, devices);
              && history == old(history) + [e] && status == e.status && accepted == Issues(e)
              && State() == if accepted
                            then old(State()).(registered := true, session := e.registration.sessionId,
                                               provider := provider, devices := devices)
                            else old(State())
    {
      var t := Rpc();
      Record(RegisterRpc(provider, devices, t.status, t.registration));
      accepted := t.status == StatusOk && t.registration.success;
      if accepted {
        providerId := provider;
        registeredDeviceIds := devices;
        sessionId := t.registration.sessionId;
        registered := true;
      }
      return t.status, accepted;
    }

    method TryReregisterSession() returns (ok: bool)
      requires Valid()
      modifies this`turn, this`history, this`sessionId, this`registered, this`providerId, this`registeredDeviceIds
      ensures Valid()
      ensures var events := ReregisterEvents(server, old(turn), old(State()));
              history == old(history) + events && turn == old(turn) + |events| && ok == EndsRegistered(events)
      ensures State() == if ok then old(State()).(registered := true, session := sessionId) else old(State())
      ensures ok ==> sessionId == history[|history| - 1].registration.sessionId
    {
      if providerId == "" {
        return false;
      }
      ok := RegisterProvider(providerId, registeredDeviceIds, true);
    }

    /**
     * Throws on a lost connection, a final error status or a rejection; only success adopts the registration.
     * Re-registration runs the same attempts without looking at the connection first.
     */
    method RegisterProvider(provider: string, devices: seq<string>, connected: bool) returns (ok: bool)
      requires Valid()
      modifies this`turn, this`history, this`sessionId, this`registered, this`providerId, this`registeredDeviceIds
      ensures Valid()
      ensures !connected ==> !ok && unchanged(this)
      ensures connected ==>
                var events := RegisterEvents(server, old(turn), provider, devices);
                && history == old(history) + events && turn == old(turn) + |events| && ok == EndsRegistered(events)
      ensures State() == if ok then old(State()).(registered := true, session := sessionId,
                                                  provider := provider, devices := devices)
                         else old(State())
      ensures ok ==> sessionId == history[|history| - 1].registration.sessionId
    {
      if !connected {
        return false;
      }
      ghost var first := RegisterAt(server, turn, provider, devices);
      var attempt := 0;
      while attempt < MAX_RPC_ATTEMPTS
        invariant 0 <= attempt <= MAX_RPC_ATTEMPTS - 1
        invariant Valid() && State() == old(State()) && turn == old(turn) + attempt
        invariant attempt == 0 ==> history == old(history)
        invariant attempt == 1 ==> history == old(history) + [first] && IsRetryable(first.status)
      {
        ghost var e := RegisterAt(server, turn, provider, devices);
        var status, accepted := SendRegister(provider, devices);
        assert history == old(history) + if attempt == 0 then [e] else [first, e];
        if status == StatusOk {
          return accepted;
        }
        if !IsRetryable(status) || attempt + 1 >= MAX_RPC_ATTEMPTS {
          return false;
        }
        attempt := attempt + 1;
      }
    }

    /** Takes over an OK answer: tick flag, time, commands in place of the old ones, caches dropped on a tick. */
    method AcceptTick(reply: TickResponse)
      requires signalCache.Keys == unitCache.Keys == physicsDrivenCache.Keys
      modifies this`lastTickOccurred, this`simTimeSec, this`pendingCommands,
               this`signalCache, this`unitCache, this`physicsDrivenCache
      ensures signalCache.Keys == unitCache.Keys == physicsDrivenCache.Keys
      ensures State() == old(State()).(lastTick := reply.tickOccurred, simTime := reply.simTime,
                                       pending := ConvertedAll(reply.commands),
                                       cache := if reply.tickOccurred then map[] else old(State()).cache)
    {
      lastTickOccurred := reply.tickOccurred;
      simTimeSec := reply.simTime;
      pendingCommands := [];
      for i := 0 to |reply.commands|
        modifies this`pendingCommands
        invariant pendingCommands == ConvertedAll(reply.commands[..i])
      {
        assert reply.commands[..i + 1][..i] == reply.commands[..i];
        var cmd := ConvertCommand(reply.commands[i]);
        pendingCommands := pendingCommands + [cmd];
      }
      assert reply.commands[..|reply.commands|] == reply.commands;
      if lastTickOccurred {
        InvalidateCache();
      }
    }

    /** The reaction to UNAUTHENTICATED: drop the session, then register again. */
    method DropAndReregister() returns (ok: bool)
      requires Valid()
      modifies this`turn, this`history, this`sessionId, this`registered, this`providerId, this`registeredDeviceIds
      ensures Valid()
      ensures var again := ReconnectEvents(server, old(turn), old(State()));
              && history == old(history) + again && turn == old(turn) + |again| - 1 && ok == EndsRegistered(again)
              && (ok ==> registered && sessionId == again[|again| - 1].registration.sessionId)
    {
      registered := false;
      sessionId := "";
      Record(SessionDropped);
      ghost var soFar := history;
      ok := TryReregisterSession();
      assert history == soFar + ReregisterEvents(server, old(turn), old(State()));
    }

    /** One UpdateSignals RPC with the current session. */
    method SendUpdate(ghost u: Update, signals: map<string, real>, unit: string, timeoutMs: int)
      returns (status: StatusCode)
      requires Valid() && registered && u == Update(signals, unit, timeoutMs)
      modifies this
      ensures Valid() && turn == old(turn) + 1
      ensures var e := UpdateAt(server, old(turn), old(sessionId), u);
              && history == old(history) + [e] && status == e.status
              && (!Answered(e) ==> State() == old(State()))
              && (Answered(e) ==> lastTickOccurred == e.reply.tickOccurred)
    {
      var t := Rpc();
      Record(UpdateRpc(sessionId, signals, unit, timeoutMs, t.status, t.tick));
      if t.status == StatusOk {
        AcceptTick(t.tick);
      }
      return t.status;
    }

    /** One round of the retry loop: send, and on failure decide between giving up and another round. */
    method UpdateRound(signals: map<string, real>, unit: string, timeoutMs: int, attempt: nat, retried: bool)
      returns (round: Round, retriedAfterUnauth: bool)
      requires Valid() && registered
      modifies this
      ensures Valid()
      ensures var u := Update(signals, unit, timeoutMs);
              var added := UpdateRoundEvents(server, old(turn), old(State()), u, retried);
              && history == old(history) + added
              && round == UpdateVerdict(added, attempt)
              && retriedAfterUnauth == (retried || added[0].status == StatusUnauthenticated)
              && turn == old(turn) + |added| - (if retriedAfterUnauth != retried then 1 else 0)
              && (round.Answer? ==> lastTickOccurred == added[0].reply.tickOccurred)
              && (if EndsRegistered(added) then sessionId == added[|added| - 1].registration.sessionId
                  else |added| == 1 && !Answered(added[0]) ==> State() == old(State()))
              && (round.TryAgain? ==> registered)
    {
      ghost var u := Update(signals, unit, timeoutMs);
      ghost var e := UpdateAt(server, turn, sessionId, u);
      var status := SendUpdate(u, signals, unit, timeoutMs);
      retriedAfterUnauth := retried;
      if status == StatusOk {
        return Answer, retriedAfterUnauth;
      }
      if status == StatusUnauthenticated && !retriedAfterUnauth {
        ghost var reconnect := ReconnectEvents(server, turn, State());
        retriedAfterUnauth := true;
        var ok := DropAndReregister();
        ConcatIsAssociative(old(history), [e], reconnect);
        return if ok then TryAgain else GiveUp, retriedAfterUnauth;
      }
      return if IsRetryable(status) && attempt + 1 < MAX_RPC_ATTEMPTS then TryAgain else GiveUp, retriedAfterUnauth;
    }

    /** A round, as one step of the call that began at RPC number `start` in state `v`. */
    method UpdateAttempt(u: Update, attempt: nat, retried: bool, ghost start: nat, ghost v: View, ghost seg: History)
      returns (round: Round, retriedAfterUnauth: bool, ghost seg': History)
      requires Valid() && registered && attempt < MAX_RPC_ATTEMPTS
      requires UpdateProgress(server, start, v, u, seg, attempt, retried, turn, State())
      modifies this
      ensures Valid() && seg <= seg' && history == old(history) + seg'[|seg|..]
      ensures if round == TryAgain
              then registered && OutcomeOf(seg') == Threw
                   && UpdateProgress(server, start, v, u, seg', attempt + 1, retriedAfterUnauth, turn, State())
              else seg' == UpdateEvents(server, start, v, u)
                   && OutcomeOf(seg') == if round == Answer then Returned(lastTickOccurred) else Threw
    {
      ghost var was, at := State(), turn;
      ghost var added := UpdateRoundEvents(server, at, was, u, retried);
      round, retriedAfterUnauth := UpdateRound(u.signals, u.unit, u.timeoutMs, attempt, retried);
      UpdateStep(server, start, v, u, seg, attempt, retried, at, was, turn, State());
      seg' := seg + added;
    }

    /** Throws without any RPC unless registered; otherwise does exactly what `UpdateEvents` describes. */
    method UpdateSignals(signals: map<string, real>, unit: string, timeoutMs: int) returns (out: UpdateOutcome)
      requires Valid()
      modifies this
      ensures Valid()
      ensures !old(registered) ==> out == Threw && unchanged(this)
      ensures old(registered) ==>
                var u := Update(signals, unit, if timeoutMs > 0 then timeoutMs else 2000);
                var events := UpdateEvents(server, old(turn), old(State()), u);
                && history == old(history) + events
                && out == OutcomeOf(events)
                && State() == ReplayFrom(old(State()), events)
    {
      if !registered {
        return Threw;
      }
      var u := Update(signals, unit, if timeoutMs > 0 then timeoutMs else DEFAULT_RPC_TIMEOUT_MS);
      ghost var v, start, seg := State(), turn, [];
      assert history == old(history) + seg;
      var retriedAfterUnauth := false;
      var attempt := 0;
      while attempt < MAX_RPC_ATTEMPTS
        invariant 0 <= attempt <= MAX_RPC_ATTEMPTS
        invariant Valid() && history == old(history) + seg && registered
        invariant UpdateProgress(server, start, v, u, seg, attempt, retriedAfterUnauth, turn, State())
        invariant OutcomeOf(seg) == Threw
      {
        var round;
        ghost var was := seg;
        round, retriedAfterUnauth, seg := UpdateAttempt(u, attempt, retriedAfterUnauth, start, v, seg);
        ConcatIsAssociative(old(history), was, seg[|was|..]);
        assert seg == was + seg[|was|..];
        if !round.TryAgain? {
          ReplayConcat(old(history), seg);
        }
        if round.Answer? {
          return Returned(lastTickOccurred);
        }
        if round.GiveUp? {
          return Threw;
        }
        attempt := attempt + 1;
      }
      ReplayConcat(old(history), seg);
      return Threw;
    }

    method StoreSignal(path: string, info: SignalInfo)
      requires signalCache.Keys == unitCache.Keys == physicsDrivenCache.Keys
      modifies this`signalCache, this`unitCache, this`physicsDrivenCache
      ensures signalCache.Keys == unitCache.Keys == physicsDrivenCache.Keys
      ensures Cache() == old(Cache())[path := info]
    {
      signalCache := signalCache[path := info.value];
      unitCache := unitCache[path := info.unit];
      physicsDrivenCache := physicsDrivenCache[path := info.physicsDriven];
    }

    /** One ReadSignals RPC for one path; an OK answer with exactly one signal goes into the three caches. */
    method SendRead(path: string) returns (status: StatusCode, fetched: bool)
      requires Valid() && path !in signalCache
      modifies this
      ensures Valid() && turn == old(turn) + 1
      ensures var e := ReadAt(server, old(turn), path);
              && history == old(history) + [e] && status == e.status && fetched == Fetches(e, path)
              && State() == if fetched then old(State()).(cache := old(Cache())[path := e.infos[0]]) else old(State())
    {
      var t := Rpc();
      Record(ReadRpc(path, t.status, t.signals));
      assert State() == old(State());
      fetched := t.status == StatusOk && |t.signals| == 1;
      if fetched {
        StoreSignal(path, t.signals[0]);
        assert State() == old(State()).(cache := old(Cache())[path := t.signals[0]]);
      }
      return t.status, fetched;
    }

    /** One round of the retry loop of read_signal. */
    method ReadRound(path: string, attempt: nat, retried: bool) returns (round: Round, retriedAfterUnauth: bool)
      requires Valid() && path !in signalCache
      modifies this
      ensures Valid()
      ensures var added := ReadRoundEvents(server, old(turn), old(State()), path, retried);
              && history == old(history) + added && turn == old(turn) + |added|
              && round == ReadVerdict(added, path, attempt)
              && retriedAfterUnauth == (retried || (added[0].status == StatusUnauthenticated && old(registered)))
              && (|added| == 1 && !round.Answer? ==> State() == old(State()))
              && Cache() == if round.Answer? then old(Cache())[path := added[0].infos[0]] else old(Cache())
    {
      ghost var e := ReadAt(server, turn, path);
      var status, fetched := SendRead(path);
      retriedAfterUnauth := retried;
      if status == StatusOk {
        return if fetched then Answer else GiveUp, retriedAfterUnauth;
      }
      if status == StatusUnauthenticated && !retriedAfterUnauth && registered {
        ghost var reregister := ReregisterEvents(server, turn, State());
        retriedAfterUnauth := true;
        var ok := TryReregisterSession();
        ConcatIsAssociative(old(history), [e], reregister);
        if ok {
          return TryAgain, retriedAfterUnauth;
        }
      }
      if !IsRetryable(status) || attempt + 1 >= MAX_RPC_ATTEMPTS {
        return GiveUp, retriedAfterUnauth;
      }
      return TryAgain, retriedAfterUnauth;
    }

    /** Answers from the cache without any RPC, or does exactly what `ReadEvents` describes. */
    method ReadSignal(path: string) returns (info: Option<SignalInfo>)
      requires Valid()
      modifies this
      ensures Valid()
      ensures path in old(signalCache) ==> unchanged(this) && info == Some(old(Cache())[path])
      ensures path !in old(signalCache) ==>
                var events := ReadEvents(server, old(turn), old(State()), path);
                && history == old(history) + events
                && info == (if EndsFetched(events, path) then Some(events[|events| - 1].infos[0]) else None)
                && Cache() == if info.Some? then old(Cache())[path := info.value] else old(Cache())
    {
      if path in signalCache {
        return Some(SignalInfo(signalCache[path], unitCache[path], physicsDrivenCache[path]));
      }
      ghost var v, start, seg := State(), turn, [];
      assert history == old(history) + seg;
      var retriedAfterUnauth := false;
      var attempt := 0;
      while attempt < MAX_RPC_ATTEMPTS
        invariant 0 <= attempt <= MAX_RPC_ATTEMPTS
        invariant Valid() && history == old(history) + seg && Cache() == old(Cache())
        invariant ReadProgress(server, start, v, path, seg, attempt, retriedAfterUnauth, turn, State())
        invariant !EndsFetched(seg, path)
      {
        ghost var was, at, retried := State(), turn, retriedAfterUnauth;
        ghost var added := ReadRoundEvents(server, at, was, path, retried);
        var round;
        round, retriedAfterUnauth := ReadRound(path, attempt, retriedAfterUnauth);
        ReadStep(server, start, v, path, seg, attempt, retried, at, was, retriedAfterUnauth, State());
        ConcatIsAssociative(old(history), seg, added);
        seg := seg + added;
        if round.Answer? {
          return Some(SignalInfo(signalCache[path], unitCache[path], physicsDrivenCache[path]));
        }
        if round.GiveUp? {
          return None;
        }
        attempt := attempt + 1;
      }
      return None;
    }

    method ReadSignalValue(path: string) returns (value: Option<real>)
      requires Valid()
      modifies this
      ensures Valid()
      ensures path in old(signalCache) ==> unchanged(this) && value == Some(old(signalCache)[path])
      ensures path !in old(signalCache) ==>
                var events := ReadEvents(server, old(turn), old(State()), path);
                && history == old(history) + events
                && value == (if EndsFetched(events, path) then Some(events[|events| - 1].infos[0].value) else None)
      ensures value.Some? ==> path in signalCache && signalCache[path] == value.value
      ensures forall p :: p in old(signalCache) ==> p in signalCache && signalCache[p] == old(signalCache)[p]
      ensures signalCache.Keys == old(signalCache.Keys) + if value.Some? then {path} else {}
    {
      ghost var was, wasValues := Cache(), signalCache;
      CacheMirrorsValues();
      var info := ReadSignal(path);
      CacheMirrorsValues();
      ValuesGrew(was, wasValues, Cache(), signalCache, path, info);
      if info.None? {
        return None;
      }
      return Some(info.value.value);
    }

    lemma CacheMirrorsValues()
      requires signalCache.Keys == unitCache.Keys == physicsDrivenCache.Keys
      ensures Mirrors(Cache(), signalCache)
    {
    }

    /** Hands out the pending commands and keeps none. */
    method DrainCommands() returns (out: seq<Command>)
      requires Valid()
      modifies this`pendingCommands, this`history
      ensures Valid() && pendingCommands == []
      ensures out == old(pendingCommands) && history == old(history) + [Drained(out)]
    {
      out := pendingCommands;
      pendingCommands := [];
      Record(Drained(out));
    }

    /** What a changed config and a reset have in common. */
    method ForgetSimulation()
      requires signalCache.Keys == unitCache.Keys == physicsDrivenCache.Keys
      modifies this`lastTickOccurred, this`simTimeSec, this`pendingCommands,
               this`signalCache, this`unitCache, this`physicsDrivenCache
      ensures signalCache.Keys == unitCache.Keys == physicsDrivenCache.Keys
      ensures State() == old(State()).(simTime := 0.0, lastTick := false, pending := [], cache := map[])
    {
      simTimeSec := 0.0;
      lastTickOccurred := false;
      pendingCommands := [];
      InvalidateCache();
    }

    /** One LoadConfig RPC; a changed config invalidates the registration, the commands and the caches. */
    method SendConfig(hash: string) returns (status: StatusCode, success: bool)
      requires Valid()
      modifies this
      ensures Valid() && turn == old(turn) + 1
      ensures var e := ConfigAt(server, old(turn), hash);
              && history == old(history) + [e] && status == e.status && success == e.success
              && State() == Apply(old(State()), e)
    {
      var t := Rpc();
      Record(ConfigRpc(hash, t.status, t.success, t.configChanged));
      if t.status == StatusOk && t.success && t.configChanged {
        registered := false;
        sessionId := "";
        ForgetSimulation();
      }
      return t.status, t.success;
    }

    method LoadConfigContent(content: seq<ConfigHash.byte>, connected: bool) returns (ok: bool)
      requires Valid()
      modifies this
      ensures Valid()
      ensures !connected ==> !ok && unchanged(this)
      ensures connected ==>
                var events := ConfigEvents(server, old(turn), ConfigHash.ConfigHashOf(content));
                var last := events[|events| - 1];
                && history == old(history) + events && turn == old(turn) + |events|
                && ok == (last.status == StatusOk && last.success)
                && State() == if Resets(last)
                              then EMPTY.(provider := old(providerId), devices := old(registeredDeviceIds))
                              else old(State())
    {
      if !connected {
        return false;
      }
      var hash := ConfigHash.HashConfig(content);
      ghost var first := ConfigAt(server, turn, hash);
      var attempt := 0;
      while attempt < MAX_RPC_ATTEMPTS
        invariant 0 <= attempt <= MAX_RPC_ATTEMPTS - 1
        invariant Valid() && State() == old(State()) && turn == old(turn) + attempt
        invariant attempt == 0 ==> history == old(history)
        invariant attempt == 1 ==> history == old(history) + [first] && IsRetryable(first.status)
      {
        ghost var e := ConfigAt(server, turn, hash);
        var status, success := SendConfig(hash);
        assert history == old(history) + if attempt == 0 then [e] else [first, e];
        if status == StatusOk {
          return success;
        }
        if !IsRetryable(status) || attempt + 1 >= MAX_RPC_ATTEMPTS {
          return false;
        }
        attempt := attempt + 1;
      }
    }

    /** One Reset RPC; a successful one forgets time, commands and caches, and keeps the session. */
    method SendReset() returns (status: StatusCode, success: bool)
      requires Valid()
      modifies this
      ensures Valid() && turn == old(turn) + 1
      ensures var e := ResetAt(server, old(turn));
              && history == old(history) + [e] && status == e.status && success == e.success
              && State() == if Resets(e)
                            then old(State()).(simTime := 0.0, lastTick := false, pending := [], cache := map[])
                            else old(State())
    {
      var t := Rpc();
      Record(ResetRpc(t.status, t.success));
      if t.status == StatusOk && t.success {
        ForgetSimulation();
      }
      return t.status, t.success;
    }

    method Reset() returns (ok: bool)
      requires Valid()
      modifies this
      ensures Valid()
      ensures var events := ResetEvents(server, old(turn));
              && history == old(history) + events && ok == Resets(events[|events| - 1])
      ensures State() == if ok then old(State()).(simTime := 0.0, lastTick := false, pending := [], cache := map[])
                         else old(State())
    {
      ghost var first := ResetAt(server, turn);
      var attempt := 0;
      while attempt < MAX_RPC_ATTEMPTS
        invariant 0 <= attempt <= MAX_RPC_ATTEMPTS - 1
        invariant Valid() && State() == old(State()) && turn == old(turn) + attempt
        invariant attempt == 0 ==> history == old(history)
        invariant attempt == 1 ==> history == old(history) + [first] && IsRetryable(first.status)
      {
        ghost var e := ResetAt(server, turn);
        var status, success := SendReset();
        assert history == old(history) + if attempt == 0 then [e] else [first, e];
        if status == StatusOk {
          return success;
        }
        if !IsRetryable(status) || attempt + 1 >= MAX_RPC_ATTEMPTS {
          return false;
        }
        attempt := attempt + 1;
      }
    }

    /** Sends the current session back, if there is one; the answer is ignored. */
    method UnregisterProviderNoexcept()
      requires Valid()
      modifies this
      ensures Valid()
      ensures old(registered) && old(sessionId) != "" ==>
                !registered && sessionId == "" && history == old(history) + [UnregisterRpc(old(sessionId))]
      ensures !(old(registered) && old(sessionId) != "") ==> unchanged(this)
    {
      if !registered || sessionId == "" {
        return;
      }
      var t := Rpc();
      Record(UnregisterRpc(sessionId));
      registered := false;
      sessionId := "";
    }
  }

  predicate Mirrors(cache: map<string, SignalInfo>, values: map<string, real>) {
    cache.Keys == values.Keys && forall p :: p in values ==> cache[p].value == values[p]
  }

  /** What a read does to the cache, seen through its values only. */
  lemma ValuesGrew(was: map<string, SignalInfo>, wasValues: map<string, real>, cache: map<string, SignalInfo>,
                   values: map<string, real>, path: string, info: Option<SignalInfo>)
    requires Mirrors(was, wasValues) && Mirrors(cache, values)
    requires if path in was then cache == was && info == Some(was[path])
             else cache == if info.Some? then was[path := info.value] else was
    ensures info.Some? ==> path in values && values[path] == info.value.value
    ensures forall p :: p in wasValues ==> p in values && values[p] == wasValues[p]
    ensures values.Keys == wasValues.Keys + if info.Some? then {path} else {}
  {
    assert forall p :: p in values <==> p in cache;
    assert forall p :: p in wasValues <==> p in was;
  }

  lemma ConcatIsAssociative(a: History, b: History, c: History)
    ensures (a + b) + c == a + (b + c)
  {
  }

  // --- The rounds of the retry loops, as pure facts ---

  /** What one round of update_signals records: the RPC, and a reconnection after the first UNAUTHENTICATED. */
  function UpdateRoundEvents(server: Server, turn: nat, v: View, u: Update, retried: bool): History {
    var e := UpdateAt(server, turn, v.session, u);
    [e] + if e.status == StatusUnauthenticated && !retried then ReconnectEvents(server, turn + 1, v) else []
  }

  function UpdateVerdict(added: History, attempt: nat): Round
    requires added != [] && added[0].UpdateRpc?
  {
    if Answered(added[0]) then Answer
    else if EndsRegistered(added) || (|added| == 1 && IsRetryable(added[0].status) && attempt + 1 < MAX_RPC_ATTEMPTS)
    then TryAgain else GiveUp
  }

  /** The state of an update_signals call before round `attempt`. */
  ghost predicate UpdateProgress(server: Server, start: nat, v: View, u: Update, seg: History, attempt: nat,
                                 retried: bool, turn: nat, now: View)
  {
    var first := UpdateAt(server, start, v.session, u);
    if attempt == 0 then
      seg == [] && !retried && turn == start && now == v
    else if attempt == MAX_RPC_ATTEMPTS then
      seg == UpdateEvents(server, start, v, u)
    else if retried then
      var again := ReconnectEvents(server, start + 1, v);
      && first.status == StatusUnauthenticated && EndsRegistered(again)
      && seg == [first] + again
      && turn == start + |again| && now.session == again[|again| - 1].registration.sessionId
    else
      IsRetryable(first.status) && seg == [first] && turn == start + 1 && now == v
  }

  lemma UpdateStep(server: Server, start: nat, v: View, u: Update, seg: History, attempt: nat, retried: bool,
                   turn: nat, now: View, turn': nat, now': View)
    requires attempt < MAX_RPC_ATTEMPTS && UpdateProgress(server, start, v, u, seg, attempt, retried, turn, now)
    requires var unauthenticated := UpdateAt(server, turn, now.session, u).status == StatusUnauthenticated;
             turn' == turn + |UpdateRoundEvents(server, turn, now, u, retried)|
                      - if unauthenticated && !retried then 1 else 0
    requires var added := UpdateRoundEvents(server, turn, now, u, retried);
             if EndsRegistered(added) then now'.session == added[|added| - 1].registration.sessionId
             else |added| == 1 && !Answered(added[0]) ==> now' == now
    ensures var added := UpdateRoundEvents(server, turn, now, u, retried);
            var retried' := retried || added[0].status == StatusUnauthenticated;
            && (if UpdateVerdict(added, attempt) == TryAgain
                then UpdateProgress(server, start, v, u, seg + added, attempt + 1, retried', turn', now')
                else seg + added == UpdateEvents(server, start, v, u))
            && OutcomeOf(seg + added)
               == (if Answered(added[0]) then Returned(added[0].reply.tickOccurred) else Threw)
  {
    var added := UpdateRoundEvents(server, turn, now, u, retried);
    assert (seg + added)[|seg + added| - 1] == added[|added| - 1];
    if attempt == 1 {
      SecondUpdate(server, start, v, u, seg, retried, turn, now);
    }
  }

  lemma SecondUpdate(server: Server, start: nat, v: View, u: Update, seg: History, retried: bool,
                     turn: nat, now: View)
    requires UpdateProgress(server, start, v, u, seg, 1, retried, turn, now)
    ensures seg + UpdateRoundEvents(server, turn, now, u, retried) == UpdateEvents(server, start, v, u)
  {
    var e := UpdateAt(server, turn, now.session, u);
    if !retried && e.status == StatusUnauthenticated {
      ConcatIsAssociative(seg, [e], ReconnectEvents(server, turn + 1, v));
    }
  }

  function ReadRoundEvents(server: Server, turn: nat, v: View, path: string, retried: bool): History {
    var e := ReadAt(server, turn, path);
    [e] + if e.status == StatusUnauthenticated && !retried && v.registered
          then ReregisterEvents(server, turn + 1, v) else []
  }

  function ReadVerdict(added: History, path: string, attempt: nat): Round
    requires added != [] && added[0].ReadRpc?
  {
    if Fetches(added[0], path) then Answer
    else if EndsRegistered(added) || (IsRetryable(added[0].status) && attempt + 1 < MAX_RPC_ATTEMPTS)
    then TryAgain else GiveUp
  }

  /** The state of a read_signal call before round `attempt`. */
  ghost predicate ReadProgress(server: Server, start: nat, v: View, path: string, seg: History, attempt: nat,
                               retried: bool, turn: nat, now: View)
  {
    var first := ReadAt(server, start, path);
    if attempt == 0 then
      seg == [] && !retried && turn == start && now == v
    else if attempt == MAX_RPC_ATTEMPTS then
      seg == ReadEvents(server, start, v, path)
    else if retried then
      var again := ReregisterEvents(server, start + 1, v);
      && first.status == StatusUnauthenticated && v.registered && EndsRegistered(again)
      && seg == [first] + again && turn == start + 1 + |again|
    else
      IsRetryable(first.status) && seg == [first] && turn == start + 1 && now == v
  }

  lemma ReadStep(server: Server, start: nat, v: View, path: string, seg: History, attempt: nat, retried: bool,
                 turn: nat, now: View, retried': bool, now': View)
    requires retried' == (retried || (server(turn).status == StatusUnauthenticated && now.registered))
    requires attempt < MAX_RPC_ATTEMPTS && ReadProgress(server, start, v, path, seg, attempt, retried, turn, now)
    requires var added := ReadRoundEvents(server, turn, now, path, retried);
             |added| == 1 && !Fetches(added[0], path) ==> now' == now
    ensures var added := ReadRoundEvents(server, turn, now, path, retried);
            && (if ReadVerdict(added, path, attempt) == TryAgain
                then ReadProgress(server, start, v, path, seg + added, attempt + 1, retried', turn + |added|, now')
                else seg + added == ReadEvents(server, start, v, path))
            && EndsFetched(seg + added, path) == Fetches(added[0], path)
            && (Fetches(added[0], path) ==> (seg + added)[|seg + added| - 1] == added[0])
  {
    var added := ReadRoundEvents(server, turn, now, path, retried);
    assert (seg + added)[|seg + added| - 1] == added[|added| - 1];
    if attempt == 1 {
      SecondRead(server, start, v, path, seg, retried, turn, now);
    }
  }

  lemma SecondRead(server: Server, start: nat, v: View, path: string, seg: History, retried: bool,
                   turn: nat, now: View)
    requires ReadProgress(server, start, v, path, seg, 1, retried, turn, now)
    ensures seg + ReadRoundEvents(server, turn, now, path, retried) == ReadEvents(server, start, v, path)
  {
    var e := ReadAt(server, turn, path);
    if !retried && e.status == StatusUnauthenticated && v.registered {
      ConcatIsAssociative(seg, [e], ReregisterEvents(server, turn + 1, v));
    }
  }
}
