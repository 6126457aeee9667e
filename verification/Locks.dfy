/**
 * Locking across the signal registry, the device modules and the fault store. An operation is a program of lock
 * actions that branches on what it finds in the registry, and the physics-driven set is part of the state that all
 * threads share. Since that set only grows, no operation locks a mutex it holds, all nesting follows one order, and
 * no interleaving of threads can deadlock.
 */
module Locks {
  import opened Basics
  import opened SignalPaths
  import opened DeviceFactory
  import AnalogSensor
  import DeviceAdapter

  datatype Lock = StateLock(t: DeviceType) | RegistryLock | FaultLock

  /** Locks are nested in this order only. */
  function Rank(l: Lock): nat {
    match l
    case StateLock(_) => 0
    case RegistryLock => 1
    case FaultLock => 2
  }

  const MAX_RANK := 2

  /** What a thread has still to do. `Look` branches on whether a path is physics-driven, `Mark` makes it so. */
  datatype Program =
    | Done
    | Acquire(l: Lock, next: Program)
    | Release(l: Lock, next: Program)
    | Look(path: string, driven: Program, other: Program)
    | Mark(path: string, next: Program)
    | Overflow  // more recursion than was provided for

  // ---------------------------------------------------------------------------------------------
  // Operations
  // ---------------------------------------------------------------------------------------------

  /** The type of the device that answers a read, if one does. */
  type Router = string -> Option<DeviceType>

  function Section(l: Lock, next: Program): Program {
    Acquire(l, Release(l, next))
  }

  /** A section under the registry mutex that looks a path up. */
  function LookUp(path: string, driven: Program, other: Program): Program {
    Acquire(RegistryLock, Look(path, Release(RegistryLock, driven), Release(RegistryLock, other)))
  }

  /** The signals for which a device asks the registry first. */
  predicate Consults(t: DeviceType, sig: string) {
    match t
    case Analogsensor => AnalogSensor.Base(sig).Some?
    case Tempctl => sig in ["tc1_temp", "tc2_temp", "relay1_state", "relay2_state"]
    case _ => sig in DeviceAdapter.KnownSignals(TypeAdapter(t))
  }

  /** read_signal: only a path found not to be driven goes on to the device reader. */
  function RegistryRead(router: Router, path: string, depth: nat, next: Program): Program
    decreases depth, 0
  {
    LookUp(path, next,
           match Split(path)
           case None => next
           case Some((dev, sig)) => if depth == 0 then Overflow else DeviceRead(router, dev, [sig], depth - 1, next))
  }

  /**
   * read_signals of the device manager. The analog sensor holds its state mutex across its registry calls, the
   * other modules copy their state and release the mutex first. Every value is then checked for a fault.
   */
  function DeviceRead(router: Router, dev: string, ids: seq<string>, depth: nat, next: Program): Program
    decreases depth, 2
  {
    Section(FaultLock,
            match router(dev)
            case None => next
            case Some(t) =>
              var signals := DeviceAdapter.Requested(TypeAdapter(t), ids);
              var checks := FaultChecks(|DeviceAdapter.KnownOnly(TypeAdapter(t), signals)|, next);
              if t == Analogsensor
              then Acquire(StateLock(t), SignalReads(router, t, dev, signals, depth, Release(StateLock(t), checks)))
              else Section(StateLock(t), SignalReads(router, t, dev, signals, depth, checks)))
  }

  function FaultChecks(n: nat, next: Program): Program {
    if n == 0 then next else Section(FaultLock, FaultChecks(n - 1, next))
  }

  /** For every signal: is_physics_driven, and read_signal if it said yes. */
  function SignalReads(router: Router, t: DeviceType, dev: string, ids: seq<string>, depth: nat, next: Program): Program
    decreases depth, 1, |ids|
  {
    if ids == [] then next
    else
      var rest := SignalReads(router, t, dev, ids[1..], depth, next);
      if !Consults(t, ids[0]) then rest
      else LookUp(Join(dev, ids[0]), RegistryRead(router, Join(dev, ids[0]), depth, rest), rest)
  }

  datatype Operation =
    | Read(dev: string, ids: seq<string>)              // a read request, behind its unreachable check
    | Collect(path: string)                            // maybe_collect_signal
    | Control(id: string)                              // update_control, with its registry read
    | Call(checks: nat, target: Option<DeviceType>)    // call_function: fault checks, then the device's own mutex
    | Physics(t: DeviceType)                           // update_physics
    | WriteSignal(path: string)                        // publication
    | MarkDriven(path: string)                         // start-up

  function ProgramOf(router: Router, op: Operation, next: Program): Program {
    match op
    case Read(dev, ids) => Section(FaultLock, DeviceRead(router, dev, ids, 1, next))
    case Collect(path) => LookUp(path, next, RegistryRead(router, path, 1, next))
    case Control(id) =>
      Section(StateLock(Tempctl),
              RegistryRead(router, Join(id, "tc1_temp"), 1, Section(StateLock(Tempctl), next)))
    case Call(checks, target) =>
      FaultChecks(checks, match target case None => next case Some(t) => Section(StateLock(t), next))
    case Physics(t) => Section(StateLock(t), next)
    case WriteSignal(path) => Acquire(RegistryLock, Mark(path, Release(RegistryLock, next)))
    case MarkDriven(path) => Acquire(RegistryLock, Mark(path, Release(RegistryLock, next)))
  }

  // ---------------------------------------------------------------------------------------------
  // Discipline
  // ---------------------------------------------------------------------------------------------

  /** A lock may be acquired only above everything held, so never twice. */
  ghost predicate Above(held: set<Lock>, l: Lock) {
    forall h :: h in held ==> Rank(h) < Rank(l)
  }

  /**
   * Whatever the program meets, it nests its locks in order, uses the driven set only under the registry mutex and
   * ends holding nothing. `known` are paths it has seen driven: a look at one of them has one outcome only.
   */
  ghost predicate Disciplined(held: set<Lock>, known: set<string>, program: Program)
    decreases program
  {
    match program
    case Done => held == {}
    case Acquire(l, next) => Above(held, l) && Disciplined(held + {l}, known, next)
    case Release(l, next) => l in held && Disciplined(held - {l}, known, next)
    case Look(path, driven, other) =>
      && RegistryLock in held
      && Disciplined(held, known + {path}, driven)
      && (path !in known ==> Disciplined(held, known, other))
    case Mark(path, next) => RegistryLock in held && Disciplined(held, known + {path}, next)
    case Overflow => false
  }

  /** Knowing more leaves fewer outcomes. */
  lemma {:induction false} KnowingMore(held: set<Lock>, known: set<string>, more: set<string>, program: Program)
    requires Disciplined(held, known, program) && known <= more
    ensures Disciplined(held, more, program)
    decreases program
  {
    match program
    case Done =>
    case Acquire(l, next) => KnowingMore(held + {l}, known, more, next);
    case Release(l, next) => KnowingMore(held - {l}, known, more, next);
    case Look(path, driven, other) =>
      KnowingMore(held, known + {path}, more + {path}, driven);
      if path !in more {
        KnowingMore(held, known, more, other);
      }
    case Mark(path, next) => KnowingMore(held, known + {path}, more + {path}, next);
    case Overflow =>
  }

  lemma SectionIsDisciplined(held: set<Lock>, known: set<string>, l: Lock, next: Program)
    requires Above(held, l) && Disciplined(held, known, next)
    ensures Disciplined(held, known, Section(l, next))
  {
    assert l !in held;
    assert held + {l} - {l} == held;
  }

  lemma LookUpIsDisciplined(held: set<Lock>, known: set<string>, path: string, driven: Program, other: Program)
    requires Above(held, RegistryLock)
    requires Disciplined(held, known + {path}, driven)
    requires path !in known ==> Disciplined(held, known, other)
    ensures Disciplined(held, known, LookUp(path, driven, other))
  {
    assert RegistryLock !in held;
    assert held + {RegistryLock} - {RegistryLock} == held;
  }

  lemma {:induction false} FaultChecksAreDisciplined(known: set<string>, n: nat, next: Program)
    requires Disciplined({}, known, next)
    ensures Disciplined({}, known, FaultChecks(n, next))
  {
    if n > 0 {
      FaultChecksAreDisciplined(known, n - 1, next);
      SectionIsDisciplined({}, known, FaultLock, FaultChecks(n - 1, next));
    }
  }

  /** A path that was driven is still driven, so the second registry call never reaches the device. */
  lemma {:induction false} SignalReadsAreDisciplined(router: Router, t: DeviceType, dev: string, ids: seq<string>,
                                                     depth: nat, next: Program, held: set<Lock>, known: set<string>)
    requires held <= {StateLock(t)} && Disciplined(held, known, next)
    ensures Disciplined(held, known, SignalReads(router, t, dev, ids, depth, next))
    decreases |ids|
  {
    if ids != [] {
      var rest, path := SignalReads(router, t, dev, ids[1..], depth, next), Join(dev, ids[0]);
      SignalReadsAreDisciplined(router, t, dev, ids[1..], depth, next, held, known);
      KnowingMore(held, known, known + {path}, rest);
      assert known + {path} + {path} == known + {path};
      KnownReadIsDisciplined(router, path, depth, rest, held, known + {path});
      LookUpIsDisciplined(held, known, path, RegistryRead(router, path, depth, rest), rest);
    }
  }

  /** Reading a path known to be driven is one registry section. */
  lemma KnownReadIsDisciplined(router: Router, path: string, depth: nat, next: Program, held: set<Lock>,
                               known: set<string>)
    requires path in known && Above(held, RegistryLock) && Disciplined(held, known, next)
    ensures Disciplined(held, known, RegistryRead(router, path, depth, next))
  {
    assert known + {path} == known;
    var other :=
      match Split(path)
      case None => next
      case Some((dev, sig)) => if depth == 0 then Overflow else DeviceRead(router, dev, [sig], depth - 1, next);
    LookUpIsDisciplined(held, known, path, next, other);
  }

  lemma DeviceReadIsDisciplined(router: Router, dev: string, ids: seq<string>, depth: nat, next: Program,
                                known: set<string>)
    requires Disciplined({}, known, next)
    ensures Disciplined({}, known, DeviceRead(router, dev, ids, depth, next))
  {
    match router(dev)
    case None => SectionIsDisciplined({}, known, FaultLock, next);
    case Some(t) =>
      var signals, state := DeviceAdapter.Requested(TypeAdapter(t), ids), StateLock(t);
      var n := |DeviceAdapter.KnownOnly(TypeAdapter(t), signals)|;
      var checks := FaultChecks(n, next);
      FaultChecksAreDisciplined(known, n, next);
      if t == Analogsensor {
        assert {state} - {state} == {};
        assert Disciplined({state}, known, Release(state, checks));
        SignalReadsAreDisciplined(router, t, dev, signals, depth, Release(state, checks), {state}, known);
        var device := Acquire(state, SignalReads(router, t, dev, signals, depth, Release(state, checks)));
        assert {} + {state} == {state};
        assert Disciplined({}, known, device);
        SectionIsDisciplined({}, known, FaultLock, device);
      } else {
        SignalReadsAreDisciplined(router, t, dev, signals, depth, checks, {}, known);
        var program := SignalReads(router, t, dev, signals, depth, checks);
        SectionIsDisciplined({}, known, state, program);
        SectionIsDisciplined({}, known, FaultLock, Section(state, program));
      }
  }

  /** One level of recursion into the device reader is all any registry read needs. */
  lemma RegistryReadIsDisciplined(router: Router, path: string, depth: nat, next: Program, known: set<string>)
    requires depth >= 1 && Disciplined({}, known, next)
    ensures Disciplined({}, known, RegistryRead(router, path, depth, next))
  {
    KnowingMore({}, known, known + {path}, next);
    match Split(path)
    case None => LookUpIsDisciplined({}, known, path, next, next);
    case Some((dev, sig)) =>
      DeviceReadIsDisciplined(router, dev, [sig], depth - 1, next, known);
      LookUpIsDisciplined({}, known, path, next, DeviceRead(router, dev, [sig], depth - 1, next));
  }

  lemma MarkIsDisciplined(path: string, next: Program, known: set<string>)
    requires Disciplined({}, known, next)
    ensures Disciplined({}, known, Acquire(RegistryLock, Mark(path, Release(RegistryLock, next))))
  {
    KnowingMore({}, known, known + {path}, next);
    assert {} + {RegistryLock} == {RegistryLock} && {RegistryLock} - {RegistryLock} == {};
  }

  /**
   * Every operation keeps the order, touches the driven set only under the registry mutex and gives back every
   * lock, whatever the other threads publish meanwhile.
   */
  lemma OperationsAreDisciplined(router: Router, op: Operation, next: Program, known: set<string>)
    requires Disciplined({}, known, next)
    ensures Disciplined({}, known, ProgramOf(router, op, next))
  {
    match op
    case Read(dev, ids) =>
      DeviceReadIsDisciplined(router, dev, ids, 1, next, known);
      SectionIsDisciplined({}, known, FaultLock, DeviceRead(router, dev, ids, 1, next));
    case Collect(path) =>
      RegistryReadIsDisciplined(router, path, 1, next, known);
      KnowingMore({}, known, known + {path}, next);
      LookUpIsDisciplined({}, known, path, next, RegistryRead(router, path, 1, next));
    case Control(id) =>
      var path, act := Join(id, "tc1_temp"), Section(StateLock(Tempctl), next);
      SectionIsDisciplined({}, known, StateLock(Tempctl), next);
      RegistryReadIsDisciplined(router, path, 1, act, known);
      SectionIsDisciplined({}, known, StateLock(Tempctl), RegistryRead(router, path, 1, act));
    case Call(checks, None) => FaultChecksAreDisciplined(known, checks, next);
    case Call(checks, Some(t)) =>
      SectionIsDisciplined({}, known, StateLock(t), next);
      FaultChecksAreDisciplined(known, checks, Section(StateLock(t), next));
    case Physics(t) => SectionIsDisciplined({}, known, StateLock(t), next);
    case WriteSignal(path) => MarkIsDisciplined(path, next, known);
    case MarkDriven(path) => MarkIsDisciplined(path, next, known);
  }

  // ---------------------------------------------------------------------------------------------
  // Which locks the operations take
  // ---------------------------------------------------------------------------------------------

  /** The locks a program acquires, in order, on a driven set that nobody else changes. */
  function Acquired(program: Program, driven: set<string>): seq<Lock> {
    match program
    case Done => []
    case Overflow => []
    case Acquire(l, next) => [l] + Acquired(next, driven)
    case Release(_, next) => Acquired(next, driven)
    case Look(path, yes, no) => if path in driven then Acquired(yes, driven) else Acquired(no, driven)
    case Mark(path, next) => Acquired(next, driven + {path})
  }

  lemma {:induction false} FaultChecksAcquire(n: nat, next: Program, driven: set<string>)
    ensures Acquired(FaultChecks(n, next), driven) == seq(n, _ => FaultLock) + Acquired(next, driven)
  {
    if n > 0 {
      FaultChecksAcquire(n - 1, next, driven);
    }
  }

  lemma SectionAcquires(l: Lock, next: Program, driven: set<string>)
    ensures Acquired(Section(l, next), driven) == [l] + Acquired(next, driven)
  {
  }

  lemma LookUpAcquires(path: string, yes: Program, no: Program, driven: set<string>)
    ensures Acquired(LookUp(path, yes, no), driven)
            == [RegistryLock] + Acquired(if path in driven then yes else no, driven)
  {
    assert Acquired(Release(RegistryLock, yes), driven) == Acquired(yes, driven);
    assert Acquired(Release(RegistryLock, no), driven) == Acquired(no, driven);
    var look := Look(path, Release(RegistryLock, yes), Release(RegistryLock, no));
    assert Acquired(look, driven) == Acquired(if path in driven then yes else no, driven);
  }

  /** Calls, physics and publication each lock what they touch once. */
  lemma SimpleOperationsLock(router: Router, driven: set<string>, t: DeviceType, path: string, checks: nat)
    ensures Acquired(ProgramOf(router, Physics(t), Done), driven) == [StateLock(t)]
    ensures Acquired(ProgramOf(router, WriteSignal(path), Done), driven) == [RegistryLock]
    ensures Acquired(ProgramOf(router, MarkDriven(path), Done), driven) == [RegistryLock]
    ensures Acquired(ProgramOf(router, Call(checks, Some(t)), Done), driven)
            == seq(checks, _ => FaultLock) + [StateLock(t)]
  {
    SectionAcquires(StateLock(t), Done, driven);
    FaultChecksAcquire(checks, Section(StateLock(t), Done), driven);
    assert Acquired(Release(RegistryLock, Done), driven + {path}) == [];
    assert Acquired(Mark(path, Release(RegistryLock, Done)), driven) == [];
  }

  lemma TemperatureIsKnown()
    ensures DeviceAdapter.KnownOnly(TypeAdapter(Tempctl), ["tc1_temp"]) == ["tc1_temp"]
  {
    var ids := ["tc1_temp"];
    DeviceAdapter.SignalsOfTypes("tc1_temp");
    assert DeviceAdapter.KnownOnly(TypeAdapter(Tempctl), ids)
           == DeviceAdapter.KnownOnly(TypeAdapter(Tempctl), ids[..0]) + ids;
  }

  /** What a read of the temperature does after the fault check. */
  lemma TemperatureProgram(router: Router, dev: string, next: Program)
    requires router(dev) == Some(Tempctl)
    ensures var checks, path := FaultChecks(1, next), Join(dev, "tc1_temp");
            DeviceRead(router, dev, ["tc1_temp"], 0, next)
            == Section(FaultLock, Section(StateLock(Tempctl),
                                          LookUp(path, RegistryRead(router, path, 0, checks), checks)))
  {
    var ids := ["tc1_temp"];
    TemperatureIsKnown();
    assert ids[1..] == [];
    assert SignalReads(router, Tempctl, dev, ids[1..], 0, FaultChecks(1, next)) == FaultChecks(1, next);
  }

  /** Read through the device manager, the temperature takes the locks of fault store, device and registry in turn. */
  lemma TemperatureLocks(router: Router, dev: string, next: Program, driven: set<string>)
    requires router(dev) == Some(Tempctl) && Join(dev, "tc1_temp") !in driven
    ensures Acquired(DeviceRead(router, dev, ["tc1_temp"], 0, next), driven)
            == [FaultLock, StateLock(Tempctl), RegistryLock, FaultLock] + Acquired(next, driven)
  {
    var checks, path := FaultChecks(1, next), Join(dev, "tc1_temp");
    var look := LookUp(path, RegistryRead(router, path, 0, checks), checks);
    TemperatureProgram(router, dev, next);
    FaultChecksAcquire(1, next, driven);
    LookUpAcquires(path, RegistryRead(router, path, 0, checks), checks, driven);
    SectionAcquires(StateLock(Tempctl), look, driven);
    SectionAcquires(FaultLock, Section(StateLock(Tempctl), look), driven);
  }

  /**
   * A turn of the control pass takes the device mutex twice, with the registry, and where the path is not driven the
   * device's own read, in between and never under it.
   */
  lemma ControlLocks(router: Router, id: string, driven: set<string>)
    requires '/' !in id && router(id) == Some(Tempctl)
    ensures Acquired(ProgramOf(router, Control(id), Done), driven)
            == if Join(id, "tc1_temp") in driven then [StateLock(Tempctl), RegistryLock, StateLock(Tempctl)]
               else [StateLock(Tempctl), RegistryLock, FaultLock, StateLock(Tempctl), RegistryLock, FaultLock,
                     StateLock(Tempctl)]
  {
    var path, act := Join(id, "tc1_temp"), Section(StateLock(Tempctl), Done);
    SplitUndoesJoinIff(id, "tc1_temp");
    SectionAcquires(StateLock(Tempctl), Done, driven);
    SectionAcquires(StateLock(Tempctl), RegistryRead(router, path, 1, act), driven);
    LookUpAcquires(path, act, DeviceRead(router, id, ["tc1_temp"], 0, act), driven);
    if path !in driven {
      TemperatureLocks(router, id, act, driven);
    }
  }

  // ---------------------------------------------------------------------------------------------
  // What withdrawing a path would break
  // ---------------------------------------------------------------------------------------------

  /** The program nests its locks in order when its k-th look sees `views(k)`, growing or not. */
  ghost predicate Orderly(held: set<Lock>, views: nat -> set<string>, k: nat, program: Program)
    decreases program
  {
    match program
    case Done => held == {}
    case Acquire(l, next) => Above(held, l) && Orderly(held + {l}, views, k, next)
    case Release(l, next) => l in held && Orderly(held - {l}, views, k, next)
    case Look(path, driven, other) => Orderly(held, views, k + 1, if path in views(k) then driven else other)
    case Mark(_, next) => Orderly(held, views, k, next)
    case Overflow => false
  }

  lemma SectionIsOrderlyIff(held: set<Lock>, views: nat -> set<string>, k: nat, l: Lock, next: Program)
    requires Above(held, l)
    ensures Orderly(held, views, k, Section(l, next)) <==> Orderly(held, views, k, next)
  {
    assert l !in held;
    assert held + {l} - {l} == held;
  }

  lemma LookUpIsOrderlyIff(held: set<Lock>, views: nat -> set<string>, k: nat, path: string, driven: Program,
                           other: Program)
    requires Above(held, RegistryLock)
    ensures Orderly(held, views, k, LookUp(path, driven, other))
            <==> Orderly(held, views, k + 1, if path in views(k) then driven else other)
  {
    var taken, branch := held + {RegistryLock}, if path in views(k) then driven else other;
    assert RegistryLock !in held && taken - {RegistryLock} == held;
    assert Orderly(taken, views, k + 1, Release(RegistryLock, branch)) <==> Orderly(held, views, k + 1, branch);
    assert Orderly(taken, views, k, Look(path, Release(RegistryLock, driven), Release(RegistryLock, other)))
           <==> Orderly(taken, views, k + 1, Release(RegistryLock, branch));
  }

  lemma {:induction false} FaultChecksAreOrderly(views: nat -> set<string>, k: nat, n: nat)
    ensures Orderly({}, views, k, FaultChecks(n, Done))
  {
    if n > 0 {
      FaultChecksAreOrderly(views, k, n - 1);
      SectionIsOrderlyIff({}, views, k, FaultLock, FaultChecks(n - 1, Done));
    }
  }

  /** What a read of one voltage does under the state mutex, and what follows it. */
  function SensorBody(router: Router, path: string, depth: nat, rest: Program): Program {
    LookUp(path, RegistryRead(router, path, depth, rest), rest)
  }

  function SensorRest(sig: string, next: Program): Program {
    Release(StateLock(Analogsensor), FaultChecks(|DeviceAdapter.KnownOnly(TypeAdapter(Analogsensor), [sig])|, next))
  }

  lemma SensorProgram(router: Router, dev: string, sig: string, depth: nat, next: Program)
    requires router(dev) == Some(Analogsensor) && AnalogSensor.Base(sig).Some?
    ensures DeviceRead(router, dev, [sig], depth, next)
            == Section(FaultLock, Acquire(StateLock(Analogsensor),
                                          SensorBody(router, Join(dev, sig), depth, SensorRest(sig, next))))
  {
    var ids, rest, empty := [sig], SensorRest(sig, next), [sig][1..];
    assert empty == [] && DeviceAdapter.Requested(TypeAdapter(Analogsensor), ids) == ids;
    assert SignalReads(router, Analogsensor, dev, empty, depth, rest) == rest;
    assert SignalReads(router, Analogsensor, dev, ids, depth, rest) == SensorBody(router, Join(dev, sig), depth, rest);
  }

  lemma SensorRestIsOrderly(views: nat -> set<string>, k: nat, sig: string)
    ensures Orderly({StateLock(Analogsensor)}, views, k, SensorRest(sig, Done))
  {
    FaultChecksAreOrderly(views, k, |DeviceAdapter.KnownOnly(TypeAdapter(Analogsensor), [sig])|);
    assert {StateLock(Analogsensor)} - {StateLock(Analogsensor)} == {};
  }

  /** A second read of the sensor from within the first one does not get past the state mutex. */
  lemma NestedReadIsNotOrderly(router: Router, views: nat -> set<string>, k: nat, dev: string, sig: string,
                               next: Program)
    requires router(dev) == Some(Analogsensor) && AnalogSensor.Base(sig).Some?
    ensures !Orderly({StateLock(Analogsensor)}, views, k, DeviceRead(router, dev, [sig], 0, next))
  {
    var state := StateLock(Analogsensor);
    SensorProgram(router, dev, sig, 0, next);
    var device := Acquire(state, SensorBody(router, Join(dev, sig), 0, SensorRest(sig, next)));
    SectionIsOrderlyIff({state}, views, k, FaultLock, device);
    assert !Above({state}, state);
  }

  lemma FirstLook(router: Router, views: nat -> set<string>, dev: string, sig: string)
    requires router(dev) == Some(Analogsensor) && AnalogSensor.Base(sig).Some?
    ensures var path, rest := Join(dev, sig), SensorRest(sig, Done);
            Orderly({}, views, 0, DeviceRead(router, dev, [sig], 1, Done))
            <==> Orderly({StateLock(Analogsensor)}, views, 1,
                         if path in views(0) then RegistryRead(router, path, 1, rest) else rest)
  {
    var path, rest := Join(dev, sig), SensorRest(sig, Done);
    SensorProgram(router, dev, sig, 1, Done);
    LookUnderState(views, StateLock(Analogsensor), path, RegistryRead(router, path, 1, rest), rest);
  }

  lemma LookUnderState(views: nat -> set<string>, state: Lock, path: string, driven: Program, other: Program)
    requires state.StateLock?
    ensures Orderly({}, views, 0, Section(FaultLock, Acquire(state, LookUp(path, driven, other))))
            <==> Orderly({state}, views, 1, if path in views(0) then driven else other)
  {
    SectionIsOrderlyIff({}, views, 0, FaultLock, Acquire(state, LookUp(path, driven, other)));
    assert {} + {state} == {state};
    LookUpIsOrderlyIff({state}, views, 0, path, driven, other);
  }

  lemma SecondLook(router: Router, views: nat -> set<string>, dev: string, sig: string, rest: Program)
    requires '/' !in dev
    ensures Orderly({StateLock(Analogsensor)}, views, 1, RegistryRead(router, Join(dev, sig), 1, rest))
            <==> Orderly({StateLock(Analogsensor)}, views, 2,
                         if Join(dev, sig) in views(1) then rest else DeviceRead(router, dev, [sig], 0, rest))
  {
    SplitUndoesJoinIff(dev, sig);
    LookUpIsOrderlyIff({StateLock(Analogsensor)}, views, 1, Join(dev, sig), rest,
                       DeviceRead(router, dev, [sig], 0, rest));
  }

  /**
   * That the driven set only grows is what all this rests on: a read of the analog sensor locks the sensor's mutex
   * a second time exactly when the path is driven at the first look and no longer at the second.
   */
  lemma SensorRelocksIffPathIsWithdrawn(router: Router, views: nat -> set<string>, dev: string, sig: string)
    requires '/' !in dev && router(dev) == Some(Analogsensor) && AnalogSensor.Base(sig).Some?
    ensures Orderly({}, views, 0, DeviceRead(router, dev, [sig], 1, Done))
            <==> !(Join(dev, sig) in views(0) && Join(dev, sig) !in views(1))
  {
    var rest := SensorRest(sig, Done);
    FirstLook(router, views, dev, sig);
    SecondLook(router, views, dev, sig, rest);
    SensorRestIsOrderly(views, 1, sig);
    SensorRestIsOrderly(views, 2, sig);
    NestedReadIsNotOrderly(router, views, 2, dev, sig, rest);
  }

  // ---------------------------------------------------------------------------------------------
  // Threads
  // ---------------------------------------------------------------------------------------------

  /** What a thread holds, which paths it has seen driven, and what it has still to do. */
  datatype Thread = Thread(held: set<Lock>, known: set<string>, program: Program)

  /** All threads and the driven set they share. */
  datatype System = System(threads: seq<Thread>, driven: set<string>)

  ghost predicate Holds(s: System, j: int, l: Lock) {
    0 <= j < |s.threads| && l in s.threads[j].held
  }

  ghost predicate Blocked(s: System, i: nat)
    requires i < |s.threads|
  {
    s.threads[i].program.Acquire? && exists j :: Holds(s, j, s.threads[i].program.l)
  }

  ghost predicate Runnable(s: System, i: int) {
    0 <= i < |s.threads| && s.threads[i].program != Done && !Blocked(s, i)
  }

  /** One action of a thread. */
  function Do(t: Thread, driven: set<string>): (Thread, set<string>) {
    match t.program
    case Acquire(l, next) => (Thread(t.held + {l}, t.known, next), driven)
    case Release(l, next) => (Thread(t.held - {l}, t.known, next), driven)
    case Look(path, yes, no) =>
      (if path in driven then Thread(t.held, t.known + {path}, yes) else Thread(t.held, t.known, no), driven)
    case Mark(path, next) => (Thread(t.held, t.known + {path}, next), driven + {path})
    case _ => (t, driven)
  }

  function Step(s: System, i: nat): System
    requires i < |s.threads|
  {
    var (t, driven) := Do(s.threads[i], s.driven);
    System(s.threads[i := t], driven)
  }

  /** What a thread has seen driven is driven, and every lock has one holder. */
  ghost predicate Invariant(s: System) {
    && (forall i :: 0 <= i < |s.threads| ==>
          Disciplined(s.threads[i].held, s.threads[i].known, s.threads[i].program) && s.threads[i].known <= s.driven)
    && (forall i, j, l :: Holds(s, i, l) && Holds(s, j, l) ==> i == j)
  }

  lemma DoKeepsDiscipline(t: Thread, driven: set<string>)
    requires Disciplined(t.held, t.known, t.program) && t.known <= driven
    ensures var (t', driven') := Do(t, driven);
            && Disciplined(t'.held, t'.known, t'.program) && t'.known <= driven' && driven <= driven'
            && (forall l :: l in t'.held ==> l in t.held || (t.program.Acquire? && t.program.l == l))
  {
  }

  /** Discipline, mutual exclusion and what threads know survive every step; the driven set only grows. */
  lemma StepKeepsInvariant(s: System, i: nat)
    requires Invariant(s) && Runnable(s, i)
    ensures Invariant(Step(s, i)) && s.driven <= Step(s, i).driven
  {
    var s' := Step(s, i);
    DoKeepsDiscipline(s.threads[i], s.driven);
    forall a, b, l | Holds(s', a, l) && Holds(s', b, l) ensures a == b {
      HeldBefore(s, i, a, l);
      HeldBefore(s, i, b, l);
    }
  }

  lemma HeldBefore(s: System, i: nat, a: int, l: Lock)
    requires Invariant(s) && Runnable(s, i) && Holds(Step(s, i), a, l)
    ensures Holds(s, a, l) || (a == i && s.threads[i].program == Acquire(l, s.threads[i].program.next)
                               && forall b :: !Holds(s, b, l))
  {
    DoKeepsDiscipline(s.threads[i], s.driven);
  }

  function WaitRank(t: Thread): nat {
    if t.program.Acquire? then Rank(t.program.l) else MAX_RANK + 1
  }

  /** Follow the holders: each waits for a higher lock than the one before, so the chain ends at a thread that runs. */
  lemma FindRunnable(s: System, i: nat) returns (j: nat)
    requires Invariant(s) && i < |s.threads| && s.threads[i].program != Done
    ensures Runnable(s, j)
    decreases MAX_RANK + 1 - WaitRank(s.threads[i])
  {
    j := i;
    if Blocked(s, i) {
      var l := s.threads[i].program.l;
      var h :| Holds(s, h, l);
      assert Rank(l) < WaitRank(s.threads[h]);
      j := FindRunnable(s, h);
    }
  }

  function RunThreads(s: System, schedule: seq<nat>): (s': System)
    requires forall i :: 0 <= i < |schedule| ==> schedule[i] < |s.threads|
    ensures |s'.threads| == |s.threads|
  {
    if schedule == [] then s else Step(RunThreads(s, schedule[..|schedule| - 1]), schedule[|schedule| - 1])
  }

  /** Every scheduled thread could run when it was chosen. */
  ghost predicate Possible(s: System, schedule: seq<nat>) {
    && (forall i :: 0 <= i < |schedule| ==> schedule[i] < |s.threads|)
    && (schedule != [] ==>
          && Possible(s, schedule[..|schedule| - 1])
          && Runnable(RunThreads(s, schedule[..|schedule| - 1]), schedule[|schedule| - 1]))
  }

  lemma {:induction false} RunsKeepInvariant(s: System, schedule: seq<nat>)
    requires Invariant(s) && Possible(s, schedule)
    ensures Invariant(RunThreads(s, schedule)) && s.driven <= RunThreads(s, schedule).driven
  {
    if schedule != [] {
      var front := schedule[..|schedule| - 1];
      RunsKeepInvariant(s, front);
      StepKeepsInvariant(RunThreads(s, front), schedule[|schedule| - 1]);
    }
  }

  /** An operation together with what answers the reads inside it. */
  datatype Job = Job(op: Operation, router: Router)

  function Work(jobs: seq<Job>): Program {
    if jobs == [] then Done else ProgramOf(jobs[0].router, jobs[0].op, Work(jobs[1..]))
  }

  lemma {:induction false} WorkIsDisciplined(jobs: seq<Job>)
    ensures Disciplined({}, {}, Work(jobs))
  {
    if jobs != [] {
      WorkIsDisciplined(jobs[1..]);
      OperationsAreDisciplined(jobs[0].router, jobs[0].op, Work(jobs[1..]), {});
    }
  }

  /** Threads that have yet to start, each with a list of operations, on any driven set. */
  ghost predicate Fresh(work: seq<seq<Job>>, s: System) {
    && |s.threads| == |work|
    && forall i :: 0 <= i < |work| ==> s.threads[i] == Thread({}, {}, Work(work[i]))
  }

  /** No interleaving of any number of threads ever deadlocks: while one has work left, one can run. */
  lemma NoDeadlock(work: seq<seq<Job>>, s: System, schedule: seq<nat>, i: nat)
    requires Fresh(work, s) && Possible(s, schedule)
    requires i < |s.threads| && RunThreads(s, schedule).threads[i].program != Done
    ensures exists j :: Runnable(RunThreads(s, schedule), j)
  {
    forall a | 0 <= a < |work| ensures Disciplined({}, {}, Work(work[a])) {
      WorkIsDisciplined(work[a]);
    }
    assert forall a, l :: !Holds(s, a, l);
    RunsKeepInvariant(s, schedule);
    var j := FindRunnable(RunThreads(s, schedule), i);
  }

  function Size(program: Program): nat {
    match program
    case Done => 0
    case Overflow => 0
    case Acquire(_, next) => 1 + Size(next)
    case Release(_, next) => 1 + Size(next)
    case Mark(_, next) => 1 + Size(next)
    case Look(_, driven, other) => 1 + Size(driven) + Size(other)
  }

  function Remaining(threads: seq<Thread>): nat {
    if threads == [] then 0 else Remaining(threads[1..]) + Size(threads[0].program)
  }

  lemma {:induction false} RemainingAfter(threads: seq<Thread>, i: nat, t: Thread)
    requires i < |threads|
    ensures Remaining(threads[i := t]) == Remaining(threads) - Size(threads[i].program) + Size(t.program)
  {
    if i == 0 {
      assert threads[i := t][1..] == threads[1..];
    } else {
      RemainingAfter(threads[1..], i - 1, t);
      assert threads[i := t][1..] == threads[1..][i - 1 := t];
    }
  }

  /** Every action uses up a part of its program, so together the threads finish after finitely many actions. */
  lemma {:induction false} SchedulesAreFinite(s: System, schedule: seq<nat>)
    requires Invariant(s) && Possible(s, schedule)
    ensures |schedule| + Remaining(RunThreads(s, schedule).threads) <= Remaining(s.threads)
  {
    if schedule != [] {
      var front, i := schedule[..|schedule| - 1], schedule[|schedule| - 1];
      var before := RunThreads(s, front);
      SchedulesAreFinite(s, front);
      RunsKeepInvariant(s, front);
      RemainingAfter(before.threads, i, Do(before.threads[i], before.driven).0);
    }
  }
}
