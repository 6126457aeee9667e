/** The built-in chaos_control device (src/chaos/chaos_control_device.cpp): argument checks in front of the store. */
module ChaosControl {
  import opened Basics
  import opened FaultInjection

  const DEVICE_ID := "chaos_control"

  const FN_INJECT_DEVICE_UNAVAILABLE := 1
  const FN_INJECT_SIGNAL_FAULT := 2
  const FN_INJECT_CALL_LATENCY := 3
  const FN_INJECT_CALL_FAILURE := 4
  const FN_CLEAR_FAULTS := 5
  const FN_INJECT_DEVICE_UNREACHABLE := 6

  const UINT32_LIMIT := 0x1_0000_0000

  // ---------------------------------------------------------------------------------------------
  // Function ids as text
  // ---------------------------------------------------------------------------------------------

  predicate IsDigit(c: char) {
    '0' <= c <= '9'
  }

  predicate IsNumericFunctionId(s: string) {
    s != "" && forall i :: 0 <= i < |s| ==> IsDigit(s[i])
  }

  function DigitChar(n: nat): char
    requires n < 10
  {
    '0' + n as char
  }

  /** std::to_string of an unsigned number. */
  function Decimal(n: nat): string {
    if n < 10 then [DigitChar(n)] else Decimal(n / 10) + [DigitChar(n % 10)]
  }

  function NumericValue(s: string): nat
    requires forall i :: 0 <= i < |s| ==> IsDigit(s[i])
  {
    if s == "" then 0
    else
      assert IsDigit(s[|s| - 1]);
      10 * NumericValue(s[..|s| - 1]) + (s[|s| - 1] as int - '0' as int)
  }

  /** The only numerals std::to_string ever writes. */
  predicate IsCanonical(s: string) {
    IsNumericFunctionId(s) && (s == "0" || s[0] != '0')
  }

  lemma {:induction false} DecimalIsCanonical(n: nat)
    ensures IsCanonical(Decimal(n))
    ensures NumericValue(Decimal(n)) == n
    ensures n > 0 ==> Decimal(n)[0] != '0'
  {
    if n < 10 {
      assert Decimal(n)[..0] == "";
    } else {
      DecimalIsCanonical(n / 10);
      assert Decimal(n)[..|Decimal(n)| - 1] == Decimal(n / 10);
    }
  }

  lemma {:induction false} CanonicalIsDecimal(s: string)
    requires IsCanonical(s)
    ensures Decimal(NumericValue(s)) == s
  {
    var front, d := s[..|s| - 1], s[|s| - 1] as int - '0' as int;
    if |s| == 1 {
      assert front == "";
      assert NumericValue(s) == d;
      assert s == [DigitChar(d)];
    } else {
      assert front[0] == s[0];
      CanonicalIsDecimal(front);
      LeadingDigitIsPositive(front);
      assert NumericValue(s) / 10 == NumericValue(front) && NumericValue(s) % 10 == d;
      assert s == front + [DigitChar(d)];
    }
  }

  lemma {:induction false} LeadingDigitIsPositive(s: string)
    requires IsNumericFunctionId(s) && s[0] != '0'
    ensures NumericValue(s) > 0
  {
    if |s| > 1 {
      LeadingDigitIsPositive(s[..|s| - 1]);
    }
  }

  /**
   * A stored rule is compared with the to_string of the called id, so an accepted id fires for some call
   * exactly when it is canonical and fits the 32-bit id type: "01" is accepted and never fires.
   */
  lemma RuleCanFireIff(fn: string)
    ensures (exists id: nat :: id < UINT32_LIMIT && Decimal(id) == fn)
            <==> IsCanonical(fn) && NumericValue(fn) < UINT32_LIMIT
  {
    if id: nat :| id < UINT32_LIMIT && Decimal(id) == fn {
      DecimalIsCanonical(id);
    }
    if IsCanonical(fn) {
      CanonicalIsDecimal(fn);
    }
  }

  lemma LeadingZeroNeverFires(id: nat)
    ensures IsNumericFunctionId("01") && Decimal(id) != "01"
  {
    DecimalIsCanonical(id);
  }

  // ---------------------------------------------------------------------------------------------
  // Calls
  // ---------------------------------------------------------------------------------------------

  datatype Outcome = Accepted(event: Event) | Rejected(code: Code)

  /** What a call at time `now` means for the fault log. */
  function Decode(functionId: nat, args: Args, now: int): Outcome {
    var dev, sig, fn := ArgString(args, "device_id"), ArgString(args, "signal_id"), ArgString(args, "function_id");
    var duration, latency := ArgInt64(args, "duration_ms"), ArgInt64(args, "latency_ms");
    var rate := ArgDouble(args, "failure_rate");
    var bad := Rejected(CodeInvalidArgument);
    match functionId
    case 1 =>
      if dev.Some? && duration.Some? && duration.value > 0
      then Accepted(DeviceFault(Unavailable, dev.value, now, duration.value)) else bad
    case 6 =>
      if dev.Some? && duration.Some? && duration.value > 0
      then Accepted(DeviceFault(Unreachable, dev.value, now, duration.value)) else bad
    case 2 =>
      if dev.Some? && sig.Some? && duration.Some? && duration.value > 0
      then Accepted(SignalFault(dev.value, sig.value, now, duration.value)) else bad
    case 3 =>
      if dev.Some? && latency.Some? && latency.value >= 0 then Accepted(Latency(dev.value, latency.value)) else bad
    case 4 =>
      if dev.Some? && fn.Some? && IsNumericFunctionId(fn.value) && fn.value != "0" && rate.Some?
         && !rate.value.Less(Finite(0.0)) && !Finite(1.0).Less(rate.value)
      then Accepted(Failure(dev.value, fn.value, rate.value)) else bad
    case 5 => Accepted(Cleared)
    case _ => Rejected(CodeNotFound)
  }

  predicate InUnitInterval(rate: Double) {
    rate.Finite? && 0.0 <= rate.r <= 1.0
  }

  /** The documented argument rules, except that the rate test as written also lets NaN through. */
  predicate WellFormed(e: Event) {
    match e
    case DeviceFault(_, _, _, ms) => ms > 0
    case SignalFault(_, _, _, ms) => ms > 0
    case Latency(_, ms) => ms >= 0
    case Failure(_, fn, rate) => IsNumericFunctionId(fn) && fn != "0" && (InUnitInterval(rate) || rate == NaN)
    case Cleared => true
  }

  function CallId(e: Event): nat {
    match e
    case DeviceFault(Unavailable, _, _, _) => FN_INJECT_DEVICE_UNAVAILABLE
    case DeviceFault(Unreachable, _, _, _) => FN_INJECT_DEVICE_UNREACHABLE
    case SignalFault(_, _, _, _) => FN_INJECT_SIGNAL_FAULT
    case Latency(_, _) => FN_INJECT_CALL_LATENCY
    case Failure(_, _, _) => FN_INJECT_CALL_FAILURE
    case Cleared => FN_CLEAR_FAULTS
  }

  function CallArgs(e: Event): Args {
    match e
    case DeviceFault(_, dev, _, ms) => map["device_id" := StringValue(dev), "duration_ms" := Int64Value(ms)]
    case SignalFault(dev, sig, _, ms) =>
      map["device_id" := StringValue(dev), "signal_id" := StringValue(sig), "duration_ms" := Int64Value(ms)]
    case Latency(dev, ms) => map["device_id" := StringValue(dev), "latency_ms" := Int64Value(ms)]
    case Failure(dev, fn, rate) =>
      map["device_id" := StringValue(dev), "function_id" := StringValue(fn), "failure_rate" := DoubleValue(rate)]
    case Cleared => map[]
  }

  function Timestamped(e: Event, now: int): Event {
    match e
    case DeviceFault(kind, dev, _, ms) => DeviceFault(kind, dev, now, ms)
    case SignalFault(dev, sig, _, ms) => SignalFault(dev, sig, now, ms)
    case _ => e
  }

  /** The calls that reach the store are exactly the well-formed ones, and the encoding loses nothing. */
  lemma CallsReachExactlyWellFormedEvents(e: Event, functionId: nat, args: Args, now: int)
    ensures Decode(CallId(e), CallArgs(e), now) == Accepted(Timestamped(e, now)) <==> WellFormed(e)
    ensures Decode(functionId, args, now).Accepted?
            ==> var e' := Decode(functionId, args, now).event;
                WellFormed(e') && CallId(e') == functionId && Timestamped(e', now) == e'
  {
  }

  /** An accepted rate lies in [0, 1] exactly when it is not NaN, and an accepted NaN rule never fails a call. */
  lemma AcceptedRate(functionId: nat, args: Args, now: int, log: Log, sample: real)
    requires Decode(functionId, args, now).Accepted? && Decode(functionId, args, now).event.Failure?
    ensures var e := Decode(functionId, args, now).event;
            && (InUnitInterval(e.rate) <==> e.rate != NaN)
            && (e.rate == NaN ==> !CallFails(log + [e], e.dev, e.fn, sample))
  {
    var e := Decode(functionId, args, now).event;
    assert (log + [e])[..|log|] == log;
  }

  lemma NaNRateIsAccepted(now: int)
    ensures Decode(FN_INJECT_CALL_FAILURE, CallArgs(Failure("tempctl0", "2", NaN)), now)
            == Accepted(Failure("tempctl0", "2", NaN))
  {
  }

  /** A rejected call leaves the whole store as it was; an accepted one adds exactly its event to the log. */
  method CallFunction(store: FaultStore, functionId: nat, args: Args, now: int) returns (code: Code)
    requires store.Valid() && store.clock <= now
    modifies store
    ensures store.Valid() && store.clock <= now
    ensures match Decode(functionId, args, now)
            case Accepted(e) => code == CodeOk && store.log == old(store.log) + [e]
            case Rejected(c) => code == c && c != CodeOk && unchanged(store)
  {
    var dev := ArgString(args, "device_id");
    if functionId == FN_INJECT_DEVICE_UNAVAILABLE {
      if dev.None? {
        return CodeInvalidArgument;
      }
      var duration := ArgInt64(args, "duration_ms");
      if duration.None? || duration.value <= 0 {
        return CodeInvalidArgument;
      }
      store.InjectDeviceUnavailable(dev.value, duration.value, now);
      return CodeOk;
    }
    if functionId == FN_INJECT_SIGNAL_FAULT {
      var sig := ArgString(args, "signal_id");
      if dev.None? || sig.None? {
        return CodeInvalidArgument;
      }
      var duration := ArgInt64(args, "duration_ms");
      if duration.None? || duration.value <= 0 {
        return CodeInvalidArgument;
      }
      store.InjectSignalFault(dev.value, sig.value, duration.value, now);
      return CodeOk;
    }
    if functionId == FN_INJECT_CALL_LATENCY {
      var latency := ArgInt64(args, "latency_ms");
      if dev.None? || latency.None? || latency.value < 0 {
        return CodeInvalidArgument;
      }
      store.InjectCallLatency(dev.value, latency.value);
      return CodeOk;
    }
    if functionId == FN_INJECT_CALL_FAILURE {
      var fn := ArgString(args, "function_id");
      if dev.None? || fn.None? || !IsNumericFunctionId(fn.value) || fn.value == "0" {
        return CodeInvalidArgument;
      }
      var rate := ArgDouble(args, "failure_rate");
      if rate.None? || rate.value.Less(Finite(0.0)) || Finite(1.0).Less(rate.value) {
        return CodeInvalidArgument;
      }
      store.InjectCallFailure(dev.value, fn.value, rate.value);
      return CodeOk;
    }
    if functionId == FN_INJECT_DEVICE_UNREACHABLE {
      if dev.None? {
        return CodeInvalidArgument;
      }
      var duration := ArgInt64(args, "duration_ms");
      if duration.None? || duration.value <= 0 {
        return CodeInvalidArgument;
      }
      store.InjectDeviceUnreachable(dev.value, duration.value, now);
      return CodeOk;
    }
    if functionId == FN_CLEAR_FAULTS {
      store.ClearAllFaults();
      return CodeOk;
    }
    return CodeNotFound;
  }
}
