/**
 * The process-wide fault store (src/chaos/fault_injection.cpp).
 *
 * The store is a refinement of a plain log of injections. The log is the specification: it never forgets
 * anything and is never touched by a query. `FaultStore` keeps the maps of the original, erases expired
 * entries lazily, and answers every query as the log does.
 */
module FaultInjection {
  import opened Basics

  const NS_PER_MS := 1_000_000

  datatype Kind = Unavailable | Unreachable

  datatype Event =
    | DeviceFault(kind: Kind, dev: string, at: int, ms: int)
    | SignalFault(dev: string, sig: string, at: int, ms: int)
    | Latency(dev: string, ms: int)
    | Failure(dev: string, fn: string, rate: Double)
    | Cleared

  type Log = seq<Event>

  function Expiry(at: int, ms: int): int {
    at + ms * NS_PER_MS
  }

  // ---------------------------------------------------------------------------------------------
  // The specification: what a log answers
  // ---------------------------------------------------------------------------------------------

  /** Expiry of the last injection for `dev` since the last clear. */
  function LastExpiry(log: Log, kind: Kind, dev: string): Option<int> {
    if log == [] then None
    else
      match log[|log| - 1]
      case Cleared => None
      case DeviceFault(k, d, at, ms) =>
        if k == kind && d == dev then Some(Expiry(at, ms)) else LastExpiry(log[..|log| - 1], kind, dev)
      case _ => LastExpiry(log[..|log| - 1], kind, dev)
  }

  predicate DeviceFaulted(log: Log, kind: Kind, dev: string, now: int) {
    var last := LastExpiry(log, kind, dev);
    last.Some? && now < last.value
  }

  /** Some injection for the pair since the last clear has not expired. */
  predicate SignalFaulted(log: Log, dev: string, sig: string, now: int) {
    log != [] &&
    match log[|log| - 1]
    case Cleared => false
    case SignalFault(d, s, at, ms) =>
      (d == dev && s == sig && now < Expiry(at, ms)) || SignalFaulted(log[..|log| - 1], dev, sig, now)
    case _ => SignalFaulted(log[..|log| - 1], dev, sig, now)
  }

  /** The last latency set for `dev` since the last clear. */
  function LastLatency(log: Log, dev: string): Option<int> {
    if log == [] then None
    else
      match log[|log| - 1]
      case Cleared => None
      case Latency(d, ms) => if d == dev then Some(ms) else LastLatency(log[..|log| - 1], dev)
      case _ => LastLatency(log[..|log| - 1], dev)
  }

  /** The last failure rate set for the pair since the last clear. */
  function LastRate(log: Log, dev: string, fn: string): Option<Double> {
    if log == [] then None
    else
      match log[|log| - 1]
      case Cleared => None
      case Failure(d, f, rate) => if d == dev && f == fn then Some(rate) else LastRate(log[..|log| - 1], dev, fn)
      case _ => LastRate(log[..|log| - 1], dev, fn)
  }

  /** A call fails when the sample drawn for it lies below the rule's rate. */
  predicate CallFails(log: Log, dev: string, fn: string, sample: real) {
    var rate := LastRate(log, dev, fn);
    rate.Some? && Finite(sample).Less(rate.value)
  }

  // ---------------------------------------------------------------------------------------------
  // What those answers mean, in terms of positions in the log
  // ---------------------------------------------------------------------------------------------

  ghost predicate NoClearAfter(log: Log, i: nat) {
    forall j :: i < j < |log| ==> !log[j].Cleared?
  }

  ghost predicate Overrides(e: Event, kind: Kind, dev: string) {
    e.Cleared? || (e.DeviceFault? && e.kind == kind && e.dev == dev)
  }

  ghost predicate LastInjectionAt(log: Log, i: int, kind: Kind, dev: string) {
    && 0 <= i < |log|
    && log[i].DeviceFault? && log[i].kind == kind && log[i].dev == dev
    && forall j :: i < j < |log| ==> !Overrides(log[j], kind, dev)
  }

  /** Device faults: the last writer since the last clear decides, and it decides alone. */
  lemma {:induction false} DeviceFaultedIff(log: Log, kind: Kind, dev: string, now: int)
    ensures DeviceFaulted(log, kind, dev, now)
            <==> exists i :: LastInjectionAt(log, i, kind, dev) && now < log[i].at + log[i].ms * 1_000_000
  {
    if log != [] {
      var n := |log| - 1;
      var front := log[..n];
      if Overrides(log[n], kind, dev) {
        if log[n].DeviceFault? {
          assert LastInjectionAt(log, n, kind, dev);
        }
        assert forall i :: LastInjectionAt(log, i, kind, dev) ==> !(i < n);
      } else {
        DeviceFaultedIff(front, kind, dev, now);
        forall i
          ensures LastInjectionAt(front, i, kind, dev) <==> LastInjectionAt(log, i, kind, dev)
          ensures LastInjectionAt(front, i, kind, dev) ==> front[i] == log[i]
        {
          assert forall j :: 0 <= j < n ==> front[j] == log[j];
        }
      }
    }
  }

  ghost predicate LiveSignalInjectionAt(log: Log, i: int, dev: string, sig: string, now: int) {
    && 0 <= i < |log|
    && log[i].SignalFault? && log[i].dev == dev && log[i].sig == sig
    && now < log[i].at + log[i].ms * 1_000_000
    && NoClearAfter(log, i)
  }

  /** Signal faults: the union of all the injected intervals since the last clear. */
  lemma {:induction false} SignalFaultedIff(log: Log, dev: string, sig: string, now: int)
    ensures SignalFaulted(log, dev, sig, now) <==> exists i :: LiveSignalInjectionAt(log, i, dev, sig, now)
  {
    if log != [] {
      var n := |log| - 1;
      var front := log[..n];
      SignalFaultedIff(front, dev, sig, now);
      forall i | 0 <= i < n && !log[n].Cleared?
        ensures LiveSignalInjectionAt(front, i, dev, sig, now) <==> LiveSignalInjectionAt(log, i, dev, sig, now)
      {
        assert NoClearAfter(front, i) <==> NoClearAfter(log, i) by {
          assert forall j :: i < j < n ==> front[j] == log[j];
        }
      }
      assert SignalFaulted(log, dev, sig, now) ==> !log[n].Cleared?;
      assert forall i :: LiveSignalInjectionAt(log, i, dev, sig, now) && i < n ==> !log[n].Cleared?;
      assert LiveSignalInjectionAt(log, n, dev, sig, now)
             <==> log[n].SignalFault? && log[n].dev == dev && log[n].sig == sig && now < Expiry(log[n].at, log[n].ms);
    }
  }

  ghost predicate LastLatencyAt(log: Log, i: int, dev: string) {
    && 0 <= i < |log| && log[i].Latency? && log[i].dev == dev
    && forall j :: i < j < |log| ==> !log[j].Cleared? && !(log[j].Latency? && log[j].dev == dev)
  }

  /** A device has the latency last set for it since the last clear, and without one none. */
  lemma {:induction false} LatencyIff(log: Log, dev: string, ms: int)
    ensures LastLatency(log, dev) == Some(ms) <==> exists i :: LastLatencyAt(log, i, dev) && log[i].ms == ms
  {
    if log != [] {
      var n := |log| - 1;
      var front := log[..n];
      LatencyIff(front, dev, ms);
      if log[n].Latency? && log[n].dev == dev {
        assert LastLatencyAt(log, n, dev);
      }
      forall i | 0 <= i < n && !log[n].Cleared? && !(log[n].Latency? && log[n].dev == dev)
        ensures LastLatencyAt(front, i, dev) <==> LastLatencyAt(log, i, dev)
      {
        assert forall j :: 0 <= j < n ==> front[j] == log[j];
      }
      assert forall i :: LastLatencyAt(log, i, dev) && i < n ==>
        !log[n].Cleared? && !(log[n].Latency? && log[n].dev == dev);
    }
  }

  ghost predicate LastRuleAt(log: Log, i: int, dev: string, fn: string) {
    && 0 <= i < |log| && log[i].Failure? && log[i].dev == dev && log[i].fn == fn
    && forall j :: i < j < |log| ==> Besides(log[j], dev, fn)
  }

  /** A rate above the sample makes a call fail: never NaN, and a number only if it is greater. */
  predicate RateExceeds(rate: Double, sample: real) {
    match rate
    case Finite(r) => sample < r
    case PosInf => true
    case NaN => false
    case NegInf => false
  }

  /** A call fails exactly when the rule last set for its device and function since the last clear says so. */
  lemma {:induction false} CallFailsIff(log: Log, dev: string, fn: string, sample: real)
    ensures CallFails(log, dev, fn, sample)
            <==> exists i :: LastRuleAt(log, i, dev, fn) && RateExceeds(log[i].rate, sample)
  {
    if log != [] {
      var n := |log| - 1;
      var front := log[..n];
      CallFailsIff(front, dev, fn, sample);
      if log[n].Failure? && log[n].dev == dev && log[n].fn == fn {
        assert LastRuleAt(log, n, dev, fn);
      }
      forall i | 0 <= i < n && Besides(log[n], dev, fn)
        ensures LastRuleAt(front, i, dev, fn) <==> LastRuleAt(log, i, dev, fn)
      {
        assert forall j :: 0 <= j < n ==> front[j] == log[j];
      }
      assert forall i :: LastRuleAt(log, i, dev, fn) && i < n ==> Besides(log[n], dev, fn);
    }
  }

  /** The events that can matter to `dev`: its own, and clears. */
  predicate Concerns(e: Event, dev: string) {
    e.Cleared? || e.dev == dev
  }

  function Project(log: Log, dev: string): Log {
    if log == [] then []
    else
      var front := Project(log[..|log| - 1], dev);
      if Concerns(log[|log| - 1], dev) then front + [log[|log| - 1]] else front
  }

  /** Faults injected on one device never change an answer about another. */
  lemma {:induction false} Isolation(log: Log, dev: string, kind: Kind, sig: string, fn: string, now: int)
    ensures LastExpiry(log, kind, dev) == LastExpiry(Project(log, dev), kind, dev)
    ensures SignalFaulted(log, dev, sig, now) == SignalFaulted(Project(log, dev), dev, sig, now)
    ensures LastLatency(log, dev) == LastLatency(Project(log, dev), dev)
    ensures LastRate(log, dev, fn) == LastRate(Project(log, dev), dev, fn)
  {
    if log != [] {
      var n := |log| - 1;
      Isolation(log[..n], dev, kind, sig, fn, now);
      if Concerns(log[n], dev) {
        var p := Project(log, dev);
        assert p[..|p| - 1] == Project(log[..n], dev) && p[|p| - 1] == log[n];
      } else {
        assert Project(log, dev) == Project(log[..n], dev);
      }
    }
  }

  /** Overlap: a second injection replaces a device fault outright, but can only extend a signal fault. */
  lemma OverlapRules(log: Log, kind: Kind, dev: string, sig: string, at: int, ms: int, now: int)
    ensures DeviceFaulted(log + [DeviceFault(kind, dev, at, ms)], kind, dev, now) <==> now < Expiry(at, ms)
    ensures SignalFaulted(log + [SignalFault(dev, sig, at, ms)], dev, sig, now)
            <==> SignalFaulted(log, dev, sig, now) || now < Expiry(at, ms)
  {
    assert (log + [DeviceFault(kind, dev, at, ms)])[..|log|] == log;
    assert (log + [SignalFault(dev, sig, at, ms)])[..|log|] == log;
  }

  /** Events that are no business of the failure rule of a function. */
  predicate Besides(e: Event, dev: string, fn: string) {
    !e.Cleared? && !(e.Failure? && e.dev == dev && e.fn == fn)
  }

  /** A failure rule is touched by no other fault on its device, of whatever kind. */
  lemma {:induction false} RuleOutlastsOtherFaults(log: Log, more: Log, dev: string, fn: string)
    requires forall i :: 0 <= i < |more| ==> Besides(more[i], dev, fn)
    ensures LastRate(log + more, dev, fn) == LastRate(log, dev, fn)
  {
    if more == [] {
      assert log + more == log;
    } else {
      RuleOutlastsOtherFaults(log, more[..|more| - 1], dev, fn);
      assert (log + more)[..|log + more| - 1] == log + more[..|more| - 1];
    }
  }

  /** Timed faults only fade: without a new injection nothing becomes faulted again later. */
  lemma FaultsOnlyFade(log: Log, kind: Kind, dev: string, sig: string, now: int, later: int)
    requires now <= later
    ensures DeviceFaulted(log, kind, dev, later) ==> DeviceFaulted(log, kind, dev, now)
    ensures SignalFaulted(log, dev, sig, later) ==> SignalFaulted(log, dev, sig, now)
  {
    SignalFaultedIff(log, dev, sig, now);
    SignalFaultedIff(log, dev, sig, later);
    if SignalFaulted(log, dev, sig, later) {
      var i :| LiveSignalInjectionAt(log, i, dev, sig, later);
      assert LiveSignalInjectionAt(log, i, dev, sig, now);
    }
  }

  // ---------------------------------------------------------------------------------------------
  // The store
  // ---------------------------------------------------------------------------------------------

  datatype ArmedSignal = ArmedSignal(sig: string, expiresAt: int)
  datatype FailureRule = FailureRule(fn: string, rate: Double)

  function Unexpired(faults: seq<ArmedSignal>, now: int): seq<ArmedSignal> {
    if faults == [] then []
    else
      var front := Unexpired(faults[..|faults| - 1], now);
      var f := faults[|faults| - 1];
      if now >= f.expiresAt then front else front + [f]
  }

  lemma {:induction false} UnexpiredMembers(faults: seq<ArmedSignal>, now: int)
    ensures forall f :: f in Unexpired(faults, now) <==> f in faults && now < f.expiresAt
  {
    if faults != [] {
      var n := |faults| - 1;
      UnexpiredMembers(faults[..n], now);
      assert faults == faults[..n] + [faults[n]];
    }
  }

  /** Erase/remove_if: kept elements are moved down in place over the dropped ones, then the tail is cut. */
  method RemoveExpired(faults: seq<ArmedSignal>, now: int) returns (kept: seq<ArmedSignal>)
    ensures kept == Unexpired(faults, now)
  {
    kept := faults;
    var w := 0;
    for r := 0 to |faults|
      invariant 0 <= w <= r
      invariant |kept| == |faults|
      invariant kept[r..] == faults[r..]
      invariant kept[..w] == Unexpired(faults[..r], now)
    {
      assert faults[..r + 1][..r] == faults[..r];
      assert kept[r] == faults[r];
      if !(now >= kept[r].expiresAt) {
        var previous := kept;
        kept := kept[w := kept[r]];
        assert kept[..w + 1] == previous[..w] + [faults[r]];
        assert kept[r + 1..] == previous[r..][1..];
        w := w + 1;
      }
      assert kept[r + 1..] == faults[r..][1..];
    }
    assert faults[..|faults|] == faults;
    kept := kept[..w];
  }

  ghost predicate TracksDeviceFaults(m: map<string, int>, log: Log, kind: Kind, clock: int) {
    forall dev {:trigger LastExpiry(log, kind, dev)} {:trigger dev in m} ::
      var last := LastExpiry(log, kind, dev);
      if dev in m then last == Some(m[dev]) else last.None? || last.value <= clock
  }

  ghost predicate Armed(m: map<string, seq<ArmedSignal>>, dev: string, sig: string, now: int) {
    dev in m && exists f :: f in m[dev] && f.sig == sig && now < f.expiresAt
  }

  /** From `clock` on, the stored vectors and the log agree about every signal. */
  ghost predicate TracksSignalFaults(m: map<string, seq<ArmedSignal>>, log: Log, clock: int) {
    forall dev, sig, now {:trigger SignalFaulted(log, dev, sig, now)} {:trigger Armed(m, dev, sig, now)} ::
      now >= clock ==> Armed(m, dev, sig, now) == SignalFaulted(log, dev, sig, now)
  }

  ghost predicate TracksLatencies(m: map<string, int>, log: Log) {
    forall dev {:trigger LastLatency(log, dev)} {:trigger dev in m} ::
      LastLatency(log, dev) == if dev in m then Some(m[dev]) else None
  }

  function FindRule(rules: seq<FailureRule>, fn: string): (i: nat)
    ensures i <= |rules|
    ensures i < |rules| ==> rules[i].fn == fn
    ensures forall j :: 0 <= j < i ==> rules[j].fn != fn
  {
    if rules == [] || rules[0].fn == fn then 0 else 1 + FindRule(rules[1..], fn)
  }

  function StoredRate(m: map<string, seq<FailureRule>>, dev: string, fn: string): Option<Double> {
    if dev !in m then None
    else
      var i := FindRule(m[dev], fn);
      if i < |m[dev]| then Some(m[dev][i].rate) else None
  }

  ghost predicate TracksFailures(m: map<string, seq<FailureRule>>, log: Log) {
    && (forall dev, fn {:trigger StoredRate(m, dev, fn)} {:trigger LastRate(log, dev, fn)} ::
          StoredRate(m, dev, fn) == LastRate(log, dev, fn))
    && (forall dev, i, j :: dev in m && 0 <= i < j < |m[dev]| ==> m[dev][i].fn != m[dev][j].fn)
  }

  class FaultStore {
    var unavailable: map<string, int>
    var unreachable: map<string, int>
    var signals: map<string, seq<ArmedSignal>>
    var latencies: map<string, int>
    var failures: map<string, seq<FailureRule>>
    ghost var log: Log
    ghost var clock: int  // the latest time any operation has seen

    /** The refinement invariant. */
    ghost predicate Valid()
      reads this
    {
      && TracksDeviceFaults(unavailable, log, Unavailable, clock)
      && TracksDeviceFaults(unreachable, log, Unreachable, clock)
      && TracksSignalFaults(signals, log, clock)
      && TracksLatencies(latencies, log)
      && TracksFailures(failures, log)
    }

    constructor (ghost start: int)
      ensures Valid() && log == [] && clock == start
    {
      unavailable, unreachable, signals, latencies, failures := map[], map[], map[], map[], map[];
      log, clock := [], start;
    }

    method ClearAllFaults()
      requires Valid()
      modifies this
      ensures Valid() && log == old(log) + [Cleared] && clock == old(clock)
    {
      unavailable := map[];
      unreachable := map[];
      signals := map[];
      latencies := map[];
      failures := map[];
      log := log + [Cleared];
    }

    method InjectDeviceUnavailable(dev: string, durationMs: int, now: int)
      requires Valid() && clock <= now
      modifies this
      ensures Valid() && log == old(log) + [DeviceFault(Unavailable, dev, now, durationMs)] && clock == now
    {
      unavailable := unavailable[dev := now + durationMs * NS_PER_MS];
      ghost var was := log;
      log, clock := log + [DeviceFault(Unavailable, dev, now, durationMs)], now;
      assert log[..|log| - 1] == was;
    }

    method InjectDeviceUnreachable(dev: string, durationMs: int, now: int)
      requires Valid() && clock <= now
      modifies this
      ensures Valid() && log == old(log) + [DeviceFault(Unreachable, dev, now, durationMs)] && clock == now
    {
      unreachable := unreachable[dev := now + durationMs * NS_PER_MS];
      ghost var was := log;
      log, clock := log + [DeviceFault(Unreachable, dev, now, durationMs)], now;
      assert log[..|log| - 1] == was;
    }

    /** Answers as the log does; an expired entry disappears with the first query that sees it. */
    method IsDeviceUnavailable(dev: string, now: int) returns (faulted: bool)
      requires Valid() && clock <= now
      modifies this
      ensures Valid() && log == old(log) && clock == now
      ensures faulted == DeviceFaulted(log, Unavailable, dev, now)
      ensures faulted <==> dev in unavailable
    {
      clock := now;
      if dev !in unavailable {
        return false;
      }
      if now >= unavailable[dev] {
        unavailable := unavailable - {dev};
        return false;
      }
      return true;
    }

    method IsDeviceUnreachable(dev: string, now: int) returns (faulted: bool)
      requires Valid() && clock <= now
      modifies this
      ensures Valid() && log == old(log) && clock == now
      ensures faulted == DeviceFaulted(log, Unreachable, dev, now)
      ensures faulted <==> dev in unreachable
    {
      clock := now;
      if dev !in unreachable {
        return false;
      }
      if now >= unreachable[dev] {
        unreachable := unreachable - {dev};
        return false;
      }
      return true;
    }

    method InjectSignalFault(dev: string, sig: string, durationMs: int, now: int)
      requires Valid() && clock <= now
      modifies this
      ensures Valid() && log == old(log) + [SignalFault(dev, sig, now, durationMs)] && clock == now
    {
      ghost var was, wasSignals := log, signals;
      var armed := ArmedSignal(sig, now + durationMs * NS_PER_MS);
      signals := signals[dev := (if dev in signals then signals[dev] else []) + [armed]];
      log, clock := log + [SignalFault(dev, sig, now, durationMs)], now;
      assert log[..|log| - 1] == was;
      forall d, s, t | t >= clock ensures Armed(signals, d, s, t) == SignalFaulted(log, d, s, t) {
        assert Armed(wasSignals, d, s, t) == SignalFaulted(was, d, s, t);
        if d == dev && s == sig && t < armed.expiresAt {
          assert armed in signals[dev];
        }
      }
    }

    /** Answers as the log does; afterwards no expired entry of this device is stored any more. */
    method IsSignalFaulted(dev: string, sig: string, now: int) returns (faulted: bool)
      requires Valid() && clock <= now
      modifies this
      ensures Valid() && log == old(log) && clock == now
      ensures faulted == SignalFaulted(log, dev, sig, now)
      ensures dev in signals ==> forall f :: f in signals[dev] ==> now < f.expiresAt
    {
      clock := now;
      if dev !in signals {
        assert !Armed(signals, dev, sig, now);
        return false;
      }
      ghost var wasSignals := signals;
      var kept := RemoveExpired(signals[dev], now);
      UnexpiredMembers(signals[dev], now);
      signals := signals[dev := kept];
      assert forall d, s, t :: t >= now ==> Armed(signals, d, s, t) == Armed(wasSignals, d, s, t);
      for i := 0 to |kept|
        invariant forall j :: 0 <= j < i ==> kept[j].sig != sig
      {
        if kept[i].sig == sig {
          assert Armed(signals, dev, sig, now);
          return true;
        }
      }
      assert !Armed(signals, dev, sig, now);
      return false;
    }

    method InjectCallLatency(dev: string, ms: int)
      requires Valid()
      modifies this
      ensures Valid() && log == old(log) + [Latency(dev, ms)] && clock == old(clock)
    {
      latencies := latencies[dev := ms];
      ghost var was := log;
      log := log + [Latency(dev, ms)];
      assert log[..|log| - 1] == was;
    }

    method GetCallLatency(dev: string) returns (ms: int)
      requires Valid()
      ensures ms == LastLatency(log, dev).GetOr(0)
    {
      if dev !in latencies {
        return 0;
      }
      return latencies[dev];
    }

    /** One rule per device and function: a new rate replaces the old one where it stands. */
    method InjectCallFailure(dev: string, fn: string, rate: Double)
      requires Valid()
      modifies this
      ensures Valid() && log == old(log) + [Failure(dev, fn, rate)] && clock == old(clock)
    {
      ghost var was, wasFailures := log, failures;
      var rules := if dev in failures then failures[dev] else [];
      var i := 0;
      while i < |rules| && rules[i].fn != fn
        invariant 0 <= i <= |rules|
        invariant forall j :: 0 <= j < i ==> rules[j].fn != fn
      {
        i := i + 1;
      }
      failures := failures[dev := Updated(rules, i, fn, rate)];
      log := log + [Failure(dev, fn, rate)];
      RuleRecorded(wasFailures, was, dev, rules, i, fn, rate);
    }

    method ShouldCallFail(dev: string, fn: string, sample: real) returns (fail: bool)
      requires Valid()
      ensures fail == CallFails(log, dev, fn, sample)
    {
      assert StoredRate(failures, dev, fn) == LastRate(log, dev, fn);
      if dev !in failures {
        return false;
      }
      var rules := failures[dev];
      for i := 0 to |rules|
        invariant forall j :: 0 <= j < i ==> rules[j].fn != fn
      {
        if rules[i].fn == fn {
          return Finite(sample).Less(rules[i].rate);
        }
      }
      return false;
    }
  }

  lemma RuleReplaced(rules: seq<FailureRule>, i: nat, fn: string, rate: Double, f: string)
    requires i <= |rules| && (i < |rules| ==> rules[i].fn == fn)
    requires forall j :: 0 <= j < i ==> rules[j].fn != fn
    ensures var updated := Updated(rules, i, fn, rate);
            var at, was := FindRule(updated, f), FindRule(rules, f);
            if f == fn then at == i && updated[i].rate == rate
            else (at < |updated| <==> was < |rules|) && (was < |rules| ==> at == was && updated[at] == rules[was])
  {
    var updated := Updated(rules, i, fn, rate);
    var at, was := FindRule(updated, f), FindRule(rules, f);
    assert f == fn ==> updated[i].fn == f;
    assert f != fn && was < |rules| ==> updated[was] == rules[was];
    assert f != fn && at < |updated| ==> at < |rules| && updated[at] == rules[at];
  }

  function Updated(rules: seq<FailureRule>, i: nat, fn: string, rate: Double): seq<FailureRule>
    requires i <= |rules|
  {
    if i < |rules| then rules[i := FailureRule(fn, rate)] else rules + [FailureRule(fn, rate)]
  }

  lemma RateRecorded(m: map<string, seq<FailureRule>>, log: Log, dev: string, rules: seq<FailureRule>, i: nat,
                     fn: string, rate: Double, d: string, f: string)
    requires StoredRate(m, d, f) == LastRate(log, d, f)
    requires rules == if dev in m then m[dev] else []
    requires i <= |rules| && (i < |rules| ==> rules[i].fn == fn)
    requires forall j :: 0 <= j < i ==> rules[j].fn != fn
    ensures StoredRate(m[dev := Updated(rules, i, fn, rate)], d, f) == LastRate(log + [Failure(dev, fn, rate)], d, f)
  {
    assert (log + [Failure(dev, fn, rate)])[..|log|] == log;
    if d == dev {
      RuleReplaced(rules, i, fn, rate, f);
    }
  }

  lemma RulesStayDistinct(rules: seq<FailureRule>, i: nat, fn: string, rate: Double)
    requires i <= |rules| && (i < |rules| ==> rules[i].fn == fn)
    requires forall j :: 0 <= j < i ==> rules[j].fn != fn
    requires forall j, k :: 0 <= j < k < |rules| ==> rules[j].fn != rules[k].fn
    ensures var updated := Updated(rules, i, fn, rate);
            forall j, k :: 0 <= j < k < |updated| ==> updated[j].fn != updated[k].fn
  {
  }

  lemma RuleRecorded(m: map<string, seq<FailureRule>>, log: Log, dev: string, rules: seq<FailureRule>, i: nat,
                     fn: string, rate: Double)
    requires TracksFailures(m, log)
    requires rules == if dev in m then m[dev] else []
    requires i <= |rules| && (i < |rules| ==> rules[i].fn == fn)
    requires forall j :: 0 <= j < i ==> rules[j].fn != fn
    ensures TracksFailures(m[dev := Updated(rules, i, fn, rate)], log + [Failure(dev, fn, rate)])
  {
    RulesStayDistinct(rules, i, fn, rate);
    forall d, f
      ensures StoredRate(m[dev := Updated(rules, i, fn, rate)], d, f)
              == LastRate(log + [Failure(dev, fn, rate)], d, f)
    {
      RateRecorded(m, log, dev, rules, i, fn, rate, d, f);
    }
  }
}
