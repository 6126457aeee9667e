/** The relay and digital input module (src/devices/relayio/relayio_device.cpp). */
module RelayIO {
  import opened Basics

  const FN_SET_RELAY_CH1 := 1
  const FN_SET_RELAY_CH2 := 2
  const FN_SET_RELAY_CH3 := 3
  const FN_SET_RELAY_CH4 := 4

  datatype State = State(relay1: bool, relay2: bool, relay3: bool, relay4: bool,
                         gpio1: bool, gpio2: bool, gpio3: bool, gpio4: bool)

  const DEFAULT := State(false, false, false, false, false, false, false, false)

  const ACTUATORS := ["relay_ch1_state", "relay_ch2_state", "relay_ch3_state", "relay_ch4_state"]
  const DEFAULT_SIGNALS := ACTUATORS + ["gpio_input_1", "gpio_input_2", "gpio_input_3", "gpio_input_4"]
  const FUNCTIONS := [("set_relay_ch1", FN_SET_RELAY_CH1), ("set_relay_ch2", FN_SET_RELAY_CH2),
                      ("set_relay_ch3", FN_SET_RELAY_CH3), ("set_relay_ch4", FN_SET_RELAY_CH4)]

  function Lookup(states: map<string, State>, id: string): State {
    if id in states then states[id] else DEFAULT
  }

  function Physics(s: State): State {
    s.(gpio1 := s.relay1, gpio2 := !s.relay2, gpio3 := s.relay3, gpio4 := !s.relay4)
  }

  function Call(s: State, functionId: nat, args: Args): (State, Code) {
    var on := ArgBool(args, "enabled");
    if !(1 <= functionId <= 4) then (s, CodeNotFound)
    else if on.None? then (s, CodeInvalidArgument)
    else if functionId == FN_SET_RELAY_CH1 then (s.(relay1 := on.value), CodeOk)
    else if functionId == FN_SET_RELAY_CH2 then (s.(relay2 := on.value), CodeOk)
    else if functionId == FN_SET_RELAY_CH3 then (s.(relay3 := on.value), CodeOk)
    else (s.(relay4 := on.value), CodeOk)
  }

  function Bit(state: bool, published: Option<real>): Option<Value> {
    Some(BoolValue(match published case Some(v) => v >= 0.5 case None => state))
  }

  function Reading(s: State, sig: string, published: Option<real>): Option<Value> {
    if sig == "relay_ch1_state" then Bit(s.relay1, published)
    else if sig == "relay_ch2_state" then Bit(s.relay2, published)
    else if sig == "relay_ch3_state" then Bit(s.relay3, published)
    else if sig == "relay_ch4_state" then Bit(s.relay4, published)
    else if sig == "gpio_input_1" then Bit(s.gpio1, published)
    else if sig == "gpio_input_2" then Bit(s.gpio2, published)
    else if sig == "gpio_input_3" then Bit(s.gpio3, published)
    else if sig == "gpio_input_4" then Bit(s.gpio4, published)
    else None
  }

  class Module {
    var states: map<string, State>

    constructor ()
      ensures states == map[]
    {
      states := map[];
    }

    method Init(id: string)
      modifies this
      ensures states == old(states)[id := DEFAULT]
    {
      states := states[id := DEFAULT];
    }

    method UpdatePhysics(id: string)
      modifies this
      ensures states == old(states)[id := Physics(Lookup(old(states), id))]
    {
      var s := Lookup(states, id);
      s := s.(gpio1 := s.relay1);
      s := s.(gpio2 := !s.relay2);
      s := s.(gpio3 := s.relay3);
      s := s.(gpio4 := !s.relay4);
      states := states[id := s];
    }

    method CallFunction(id: string, functionId: nat, args: Args) returns (code: Code)
      modifies this
      ensures code == Call(Lookup(old(states), id), functionId, args).1
      ensures states == old(states)[id := Call(Lookup(old(states), id), functionId, args).0]
    {
      var s := Lookup(states, id);
      states := states[id := s];
      if !(1 <= functionId <= 4) {
        return CodeNotFound;
      }
      var on := ArgBool(args, "enabled");
      if on.None? {
        return CodeInvalidArgument;
      }
      match functionId {
        case 1 => s := s.(relay1 := on.value);
        case 2 => s := s.(relay2 := on.value);
        case 3 => s := s.(relay3 := on.value);
        case _ => s := s.(relay4 := on.value);
      }
      states := states[id := s];
      return CodeOk;
    }
  }

  // ---------------------------------------------------------------------------------------------
  // What calls and ticks mean, channel by channel
  // ---------------------------------------------------------------------------------------------

  predicate IsChannel(k: nat) {
    1 <= k <= 4
  }

  predicate Relay(s: State, k: nat)
    requires IsChannel(k)
  {
    if k == 1 then s.relay1 else if k == 2 then s.relay2 else if k == 3 then s.relay3 else s.relay4
  }

  predicate Input(s: State, k: nat)
    requires IsChannel(k)
  {
    if k == 1 then s.gpio1 else if k == 2 then s.gpio2 else if k == 3 then s.gpio3 else s.gpio4
  }

  /** Call k sets relay k and touches no other channel and no input; a call that is not OK touches nothing. */
  lemma CallSetsOneRelay(s: State, functionId: nat, args: Args, k: nat)
    requires IsChannel(k)
    ensures var (s', code) := Call(s, functionId, args);
            && (code == CodeOk <==> IsChannel(functionId) && ArgBool(args, "enabled").Some?)
            && (code == CodeNotFound <==> !IsChannel(functionId))
            && Relay(s', k)
               == (if code == CodeOk && k == functionId then ArgBool(args, "enabled").value else Relay(s, k))
            && Input(s', k) == Input(s, k)
  {
    if IsChannel(functionId) && ArgBool(args, "enabled").Some? {
      var on := ArgBool(args, "enabled").value;
      CallSwitches(s, functionId, args, on);
      SwitchingTouchesOne(s, functionId, on, k);
    }
  }

  function Switched(s: State, k: nat, on: bool): State {
    State(if k == 1 then on else s.relay1, if k == 2 then on else s.relay2, if k == 3 then on else s.relay3,
          if k == 4 then on else s.relay4, s.gpio1, s.gpio2, s.gpio3, s.gpio4)
  }

  lemma SwitchingTouchesOne(s: State, k: nat, on: bool, j: nat)
    requires IsChannel(k) && IsChannel(j)
    ensures Relay(Switched(s, k, on), j) == if j == k then on else Relay(s, j)
    ensures Input(Switched(s, k, on), j) == Input(s, j)
  {
  }

  lemma CallSwitches(s: State, functionId: nat, args: Args, on: bool)
    requires IsChannel(functionId) && ArgBool(args, "enabled") == Some(on)
    ensures Call(s, functionId, args) == (Switched(s, functionId, on), CodeOk)
  {
  }

  datatype Op = Request(functionId: nat, args: Args) | PhysicsTick

  function Step(s: State, op: Op): State {
    match op
    case Request(functionId, args) => Call(s, functionId, args).0
    case PhysicsTick => Physics(s)
  }

  function Run(s: State, ops: seq<Op>): State {
    if ops == [] then s else Step(Run(s, ops[..|ops| - 1]), ops[|ops| - 1])
  }

  /** The value in the last well-formed call for channel k. */
  function LastCommand(ops: seq<Op>, k: nat): Option<bool> {
    if ops == [] then None
    else
      match ops[|ops| - 1]
      case PhysicsTick => LastCommand(ops[..|ops| - 1], k)
      case Request(functionId, args) =>
        if functionId == k && ArgBool(args, "enabled").Some? then ArgBool(args, "enabled")
        else LastCommand(ops[..|ops| - 1], k)
  }

  /** Over any run a relay shows the last well-formed call for its own channel, whatever else was called. */
  lemma {:induction false} RelayShowsLastCommand(s: State, ops: seq<Op>, k: nat)
    requires IsChannel(k)
    ensures Relay(Run(s, ops), k) == LastCommand(ops, k).GetOr(Relay(s, k))
  {
    if ops != [] {
      var front, last := ops[..|ops| - 1], ops[|ops| - 1];
      RelayShowsLastCommand(s, front, k);
      if last.Request? {
        CallSetsOneRelay(Run(s, front), last.functionId, last.args, k);
      }
    }
  }

  /** Until the next tick the inputs show the relays of the last one, the even channels inverted. */
  lemma {:induction false} InputsShowLastTick(s: State, calls: seq<Op>, k: nat)
    requires IsChannel(k) && forall i :: 0 <= i < |calls| ==> calls[i].Request?
    ensures Input(Run(Physics(s), calls), k) == if k % 2 == 1 then Relay(s, k) else !Relay(s, k)
  {
    if calls != [] {
      var front, last := calls[..|calls| - 1], calls[|calls| - 1];
      InputsShowLastTick(s, front, k);
      CallSetsOneRelay(Run(Physics(s), front), last.functionId, last.args, k);
    }
  }

  /** What an input shows after a run: its relay at the last tick, the even channels inverted. */
  predicate InputAfter(s: State, ops: seq<Op>, k: nat)
    requires IsChannel(k)
  {
    if ops == [] then Input(s, k)
    else
      var front := ops[..|ops| - 1];
      match ops[|ops| - 1]
      case PhysicsTick => LastCommand(front, k).GetOr(Relay(s, k)) == (k % 2 == 1)
      case Request(_, _) => InputAfter(s, front, k)
  }

  lemma {:induction false} InputsFollowTicks(s: State, ops: seq<Op>, k: nat)
    requires IsChannel(k)
    ensures Input(Run(s, ops), k) == InputAfter(s, ops, k)
  {
    if ops != [] {
      var front, last := ops[..|ops| - 1], ops[|ops| - 1];
      if last.Request? {
        InputsFollowTicks(s, front, k);
        CallSetsOneRelay(Run(s, front), last.functionId, last.args, k);
      } else {
        RelayShowsLastCommand(s, front, k);
        TickMirrors(Run(s, front), k);
      }
    }
  }

  lemma TickMirrors(s: State, k: nat)
    requires IsChannel(k)
    ensures Input(Physics(s), k) == (Relay(s, k) == (k % 2 == 1))
  {
  }
}
