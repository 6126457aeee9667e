/**
 * The phase-locked scheduler of the ticker thread (src/devices/common/device_manager.cpp, ticker_thread_func).
 * Times are nanoseconds. The environment decides how long each tick works, how late a sleep wakes up and after
 * how many looks at the running flag the ticker is stopped.
 */
module Ticker {
  import opened Basics

  const NS_PER_SECOND := 1_000_000_000

  /** The period is cut to whole nanoseconds. */
  function PeriodNs(rate: real): int
    requires rate > 0.0
  {
    (NS_PER_SECOND as real / rate).Floor
  }

  /** The catch-up loop needs a positive period, which every rate up to 1 GHz has; admitted rates are far below. */
  lemma PeriodIsPositiveIff(rate: real)
    requires rate > 0.0
    ensures PeriodNs(rate) > 0 <==> rate <= NS_PER_SECOND as real
    ensures 0.1 <= rate <= 1000.0 ==> 1_000_000 <= PeriodNs(rate) <= 10_000_000_000
  {
    var x := NS_PER_SECOND as real / rate;
    assert x * rate == NS_PER_SECOND as real;
    QuotientBound(x, rate, 1.0);
    if 0.1 <= rate <= 1000.0 {
      QuotientBound(x, rate, 1_000_000.0);
      QuotientBound(x, rate, 10_000_000_000.0);
      assert 1_000_000.0 * rate <= NS_PER_SECOND as real <= 10_000_000_000.0 * rate;
      if x > 10_000_000_000.0 {
        assert x * rate > 10_000_000_000.0 * rate;
      }
    }
  }

  /** The period is the rate's inverse in nanoseconds, short by less than one of them. */
  lemma PeriodInvertsRate(rate: real)
    requires rate > 0.0
    ensures PeriodNs(rate) as real <= 1_000_000_000.0 / rate < PeriodNs(rate) as real + 1.0
  {
  }

  lemma QuotientBound(x: real, rate: real, bound: real)
    requires rate > 0.0
    ensures x >= bound <==> x * rate >= bound * rate
  {
    if x >= bound {
      assert (x - bound) * rate >= 0.0;
    } else {
      assert (bound - x) * rate > 0.0;
    }
  }

  // ---------------------------------------------------------------------------------------------
  // Slots
  // ---------------------------------------------------------------------------------------------

  /** The k-th slot boundary. */
  function Boundary(start: int, period: int, k: nat): int {
    if k == 0 then start else Boundary(start, period, k - 1) + period
  }

  lemma {:induction false} BoundaryIsMultiple(start: int, period: int, k: nat)
    ensures Boundary(start, period, k) == start + k * period
  {
    if k > 0 {
      BoundaryIsMultiple(start, period, k - 1);
    }
  }

  function Max(a: int, b: int): int {
    if a < b then b else a
  }

  /** The slot the schedule moves to: the following one, or the first one still in the future. */
  function NextSlot(slot: nat, start: int, period: int, now: int): nat
    requires period > 0
  {
    Max(slot + 1, (now - start) / period + 1)
  }

  lemma QuotientOrder(elapsed: int, period: int, k: int)
    requires period > 0
    ensures k <= elapsed / period <==> k * period <= elapsed
  {
    var q := elapsed / period;
    DivisionBounds(elapsed, period);
    if k <= q {
      MultipleOrder(k, q, period);
    } else {
      MultipleOrder(q + 1, k, period);
    }
  }

  lemma DivisionBounds(elapsed: int, period: int)
    requires period > 0
    ensures elapsed / period * period <= elapsed < (elapsed / period + 1) * period
  {
    assert elapsed == elapsed / period * period + elapsed % period;
  }

  lemma MultipleOrder(a: int, b: int, period: int)
    requires period > 0 && a <= b
    ensures a * period <= b * period
  {
    assert (b - a) * period >= 0;
  }

  lemma {:induction false} BoundariesAreOrdered(start: int, period: int, i: nat, j: nat)
    requires period > 0 && i <= j
    ensures Boundary(start, period, i) + (j - i) <= Boundary(start, period, j)
  {
    if i < j {
      BoundariesAreOrdered(start, period, i, j - 1);
    }
  }

  /** NextSlot is the least slot after the current one whose boundary lies in the future. */
  lemma NextSlotIsLeast(slot: nat, start: int, period: int, now: int, k: nat)
    requires period > 0
    ensures var next := NextSlot(slot, start, period, now);
            && next > slot && Boundary(start, period, next) > now
            && (k > slot && Boundary(start, period, k) > now ==> next <= k)
  {
    BoundaryOrder(start, period, now, NextSlot(slot, start, period, now));
    BoundaryOrder(start, period, now, k);
  }

  lemma BoundaryOrder(start: int, period: int, now: int, k: nat)
    requires period > 0
    ensures k <= (now - start) / period <==> Boundary(start, period, k) <= now
  {
    BoundaryIsMultiple(start, period, k);
    QuotientOrder(now - start, period, k);
  }

  /** Skipping only past boundaries that are behind cannot overshoot NextSlot. */
  lemma SkippingStopsInTime(slot: nat, start: int, period: int, now: int, reached: nat)
    requires period > 0 && reached > slot
    requires reached == slot + 1 || Boundary(start, period, reached - 1) <= now
    ensures reached <= NextSlot(slot, start, period, now)
    ensures Boundary(start, period, reached) > now ==> reached == NextSlot(slot, start, period, now)
  {
    BoundaryOrder(start, period, now, reached);
    BoundaryOrder(start, period, now, reached - 1);
  }

  // ---------------------------------------------------------------------------------------------
  // The thread
  // ---------------------------------------------------------------------------------------------

  /** One iteration as the environment sees it: the work done in the tick and the delay of the wake-up. */
  datatype Iteration = Iteration(work: nat, oversleep: nat)

  class Thread {
    const start: int
    const period: int
    var nextTick: int
    var looksLeft: Option<nat>  // how often the running flag still reads true; None: for ever
    ghost var slot: nat

    ghost predicate Valid()
      reads this`nextTick, this`slot
    {
      period > 0 && nextTick == Boundary(start, period, slot)
    }

    constructor (start: int, period: int, looksLeft: Option<nat>)
      requires period > 0
      ensures Valid() && this.start == start && this.period == period && slot == 0 && this.looksLeft == looksLeft
    {
      this.start, this.period, this.looksLeft := start, period, looksLeft;
      nextTick := start;
      slot := 0;
    }

    /** g_ticker_running.load(): once it reads false it stays false. */
    method Running() returns (yes: bool)
      modifies this`looksLeft
      ensures yes <==> old(looksLeft) != Some(0)
      ensures looksLeft == LooksAfter(old(looksLeft), if yes then 1 else 0)
    {
      match looksLeft {
        case None => yes := true;
        case Some(n) =>
          yes := n > 0;
          if yes {
            looksLeft := Some(n - 1);
          }
      }
    }

    /**
     * Advance by one period, then skip ahead while behind. Unless the ticker is stopped in between, the schedule
     * is at NextSlot; stopped or not, it never leaves the boundaries and never passes NextSlot. Every slot skipped
     * takes one look at the running flag.
     */
    method Advance(now: int) returns (stopped: bool)
      requires Valid()
      modifies this`nextTick, this`slot, this`looksLeft
      ensures Valid() && (stopped ==> looksLeft == Some(0))
      ensures !stopped ==> slot == NextSlot(old(slot), start, period, now) && nextTick > now
      ensures old(slot) < slot <= NextSlot(old(slot), start, period, now)
      ensures looksLeft == LooksAfter(old(looksLeft), slot - old(slot) - 1)
    {
      nextTick := nextTick + period;
      slot := slot + 1;
      stopped := false;
      while nextTick <= now && !stopped
        invariant Valid() && slot > old(slot)
        invariant slot == old(slot) + 1 || Boundary(start, period, slot - 1) <= now
        invariant stopped ==> looksLeft == Some(0)
        invariant looksLeft == LooksAfter(old(looksLeft), slot - old(slot) - 1)
        decreases now - nextTick, !stopped
      {
        var running := Running();
        if running {
          nextTick := nextTick + period;
          slot := slot + 1;
        } else {
          stopped := true;
        }
      }
      SkippingStopsInTime(old(slot), start, period, now, slot);
    }

    /**
     * The ticker loop over any environment: `starts[n]` is when tick n began and `slots[n]` the slot its sleep
     * aimed at. It ticks until it is stopped, on the schedule of `OnSchedule`.
     */
    method Run(env: seq<Iteration>) returns (starts: seq<int>, ghost slots: seq<nat>)
      requires Valid() && slot == 0
      modifies this
      ensures Valid() && |starts| == |slots| <= |env|
      ensures |starts| < |env| ==> looksLeft == Some(0)
      ensures slot == SlotBefore(slots, |slots|) && looksLeft == LooksAfter(old(looksLeft), slot)
      ensures OnSchedule(env, starts, slots, start, period, looksLeft != Some(0))
      ensures PhaseLocked(starts, slots, start, period)
    {
      starts, slots := [], [];
      var clock := start;
      var i := 0;
      while i < |env|
        invariant 0 <= i <= |env|
        invariant Valid() && |starts| == |slots| == i
        invariant slot == SlotBefore(slots, i) && looksLeft == LooksAfter(old(looksLeft), slot)
        invariant OnSchedule(env, starts, slots, start, period, looksLeft != Some(0))
        invariant clock == NextStart(env, starts, slots, start, period)
      {
        var running := Running();
        if !running {
          break;
        }
        var tickStart := clock;
        clock := clock + env[i].work;
        ghost var aim := slot;
        var stopped := Advance(clock);
        NextSlotIsFirst(aim, start, period, clock);
        ScheduleExtends(env, starts, slots, start, period, slot, !stopped, looksLeft != Some(0));
        starts := starts + [tickStart];
        slots := slots + [slot];
        clock := (if clock < nextTick then nextTick else clock) + env[i].oversleep;
        i := i + 1;
      }
      SchedulePhaseLocks(env, starts, slots, start, period, looksLeft != Some(0));
    }
  }

  /** What is left of the looks at the running flag after n of them. */
  function LooksAfter(looks: Option<nat>, n: int): Option<int> {
    if looks.Some? then Some(looks.value - n) else None
  }

  /** When the tick after those recorded begins: when work and sleep of the last one are over. */
  function NextStart(env: seq<Iteration>, starts: seq<int>, slots: seq<nat>, start: int, period: int): int
    requires |starts| == |slots| <= |env|
  {
    var n := |starts|;
    if n == 0 then start
    else Max(starts[n - 1] + env[n - 1].work, Boundary(start, period, slots[n - 1])) + env[n - 1].oversleep
  }

  /** The slot the schedule stands at when tick n begins. */
  function SlotBefore(slots: seq<nat>, n: nat): nat
    requires n <= |slots|
  {
    if n == 0 then 0 else slots[n - 1]
  }

  /** The boundary lies after `now`, and that of every slot between `from` and it does not. */
  ghost predicate FirstAfter(slot: nat, from: nat, start: int, period: int, now: int) {
    Boundary(start, period, slot) > now && forall k: nat :: from < k < slot ==> Boundary(start, period, k) <= now
  }

  /** Tick n began when the one before was over, and aims at a later slot. */
  ghost predicate StartsOnTime(env: seq<Iteration>, starts: seq<int>, slots: seq<nat>, start: int, period: int, n: nat)
    requires n < |starts| == |slots| <= |env|
  {
    starts[n] == NextStart(env, starts[..n], slots[..n], start, period) && slots[n] > SlotBefore(slots, n)
  }

  /** It sleeps until the first slot still to come when its work is done. */
  ghost predicate AimsAtNext(env: seq<Iteration>, starts: seq<int>, slots: seq<nat>, start: int, period: int, n: nat)
    requires n < |starts| == |slots| <= |env|
  {
    FirstAfter(slots[n], SlotBefore(slots, n), start, period, starts[n] + env[n].work)
  }

  /** All ticks are on schedule; only the last one can have been stopped while it skipped slots. */
  ghost predicate OnSchedule(env: seq<Iteration>, starts: seq<int>, slots: seq<nat>, start: int, period: int,
                             running: bool)
  {
    && |starts| == |slots| <= |env|
    && (forall n :: 0 <= n < |starts| ==> StartsOnTime(env, starts, slots, start, period, n))
    && (forall n :: 0 <= n < |starts| && (n < |starts| - 1 || running) ==>
          AimsAtNext(env, starts, slots, start, period, n))
  }

  lemma NextSlotIsFirst(slot: nat, start: int, period: int, now: int)
    requires period > 0
    ensures FirstAfter(NextSlot(slot, start, period, now), slot, start, period, now)
  {
    NextSlotIsLeast(slot, start, period, now, slot + 1);
    forall k: nat | slot < k < NextSlot(slot, start, period, now) ensures Boundary(start, period, k) <= now {
      NextSlotIsLeast(slot, start, period, now, k);
    }
  }

  lemma ScheduleExtends(env: seq<Iteration>, starts: seq<int>, slots: seq<nat>, start: int, period: int, slot: nat,
                        unstopped: bool, running: bool)
    requires |starts| < |env| && OnSchedule(env, starts, slots, start, period, true)
    requires (running ==> unstopped) && slot > SlotBefore(slots, |slots|)
    requires unstopped ==> FirstAfter(slot, SlotBefore(slots, |slots|), start, period,
                                      NextStart(env, starts, slots, start, period) + env[|starts|].work)
    ensures OnSchedule(env, starts + [NextStart(env, starts, slots, start, period)], slots + [slot], start, period,
                       running)
  {
    var n := |starts|;
    var starts', slots' := starts + [NextStart(env, starts, slots, start, period)], slots + [slot];
    assert starts'[..n] == starts && slots'[..n] == slots;
    forall m | 0 <= m <= n ensures StartsOnTime(env, starts', slots', start, period, m) {
      if m < n {
        assert StartsOnTime(env, starts, slots, start, period, m);
        assert starts'[..m] == starts[..m] && slots'[..m] == slots[..m];
      }
    }
    forall m | 0 <= m <= n && (m < n || running) ensures AimsAtNext(env, starts', slots', start, period, m) {
      assert m < n ==> AimsAtNext(env, starts, slots, start, period, m);
    }
  }

  /** A schedule of this kind is phase-locked. */
  lemma {:induction false} SchedulePhaseLocks(env: seq<Iteration>, starts: seq<int>, slots: seq<nat>, start: int,
                                              period: int, running: bool)
    requires period > 0 && OnSchedule(env, starts, slots, start, period, running)
    ensures PhaseLocked(starts, slots, start, period)
  {
    if starts != [] {
      var n := |starts| - 1;
      var front, frontSlots := starts[..n], slots[..n];
      FrontOnSchedule(env, starts, slots, start, period, running);
      SchedulePhaseLocks(env, front, frontSlots, start, period, true);
      assert StartsOnTime(env, starts, slots, start, period, n);
      assert n > 0 ==> AimsAtNext(env, starts, slots, start, period, n - 1);
      PhaseLockExtends(front, frontSlots, start, period, starts[n], slots[n]);
      assert front + [starts[n]] == starts && frontSlots + [slots[n]] == slots;
    }
  }

  lemma FrontOnSchedule(env: seq<Iteration>, starts: seq<int>, slots: seq<nat>, start: int, period: int, running: bool)
    requires starts != [] && OnSchedule(env, starts, slots, start, period, running)
    ensures OnSchedule(env, starts[..|starts| - 1], slots[..|starts| - 1], start, period, true)
  {
    var n := |starts| - 1;
    forall m | 0 <= m < n ensures StartsOnTime(env, starts[..n], slots[..n], start, period, m) {
      assert StartsOnTime(env, starts, slots, start, period, m);
      assert starts[..n][..m] == starts[..m] && slots[..n][..m] == slots[..m];
    }
    forall m | 0 <= m < n ensures AimsAtNext(env, starts[..n], slots[..n], start, period, m) {
      assert AimsAtNext(env, starts, slots, start, period, m);
    }
  }

  /**
   * Tick n never starts before its own slot, slots only grow, and between the starts of two consecutive ticks
   * lies the boundary of the slot in between, so a late tick is never followed by a burst.
   */
  ghost predicate TickAt(starts: seq<int>, slots: seq<nat>, start: int, period: int, n: nat)
    requires n < |starts| == |slots|
  {
    && starts[n] >= Boundary(start, period, n) && slots[n] > n
    && (n > 0 ==> slots[n - 1] < slots[n] && starts[n - 1] < Boundary(start, period, slots[n - 1]) <= starts[n])
  }

  ghost predicate PhaseLocked(starts: seq<int>, slots: seq<nat>, start: int, period: int) {
    |starts| == |slots|
    && forall n {:trigger TickAt(starts, slots, start, period, n)} ::
         0 <= n < |starts| ==> TickAt(starts, slots, start, period, n)
  }

  lemma PhaseLockExtends(starts: seq<int>, slots: seq<nat>, start: int, period: int, tickStart: int, slot: nat)
    requires period > 0 && PhaseLocked(starts, slots, start, period)
    requires var n := |starts|;
             if n == 0 then tickStart >= start && slot > 0
             else slots[n - 1] < slot && starts[n - 1] < Boundary(start, period, slots[n - 1]) <= tickStart
    ensures PhaseLocked(starts + [tickStart], slots + [slot], start, period)
  {
    var n := |starts|;
    if n > 0 {
      assert TickAt(starts, slots, start, period, n - 1);
      BoundariesAreOrdered(start, period, n, slots[n - 1]);
    }
    forall m | 0 <= m <= n ensures TickAt(starts + [tickStart], slots + [slot], start, period, m) {
      assert m < n ==> TickAt(starts, slots, start, period, m);
    }
  }

  /** Consecutive starts are separated by a boundary each, so n ticks need at least n - 1 periods of real time. */
  lemma NoBurst(starts: seq<int>, slots: seq<nat>, start: int, period: int, i: nat, j: nat)
    requires period > 0 && PhaseLocked(starts, slots, start, period)
    requires i < j < |starts|
    ensures starts[j] - starts[i] > (j - i - 1) * period
  {
    assert TickAt(starts, slots, start, period, i + 1);
    assert TickAt(starts, slots, start, period, j);
    SlotsAdvance(starts, slots, start, period, i, j - 1);
    BoundariesAreOrdered(start, period, slots[i] + (j - 1 - i), slots[j - 1]);
    BoundariesAreApart(start, period, slots[i], j - 1 - i);
  }

  lemma {:induction false} BoundariesAreApart(start: int, period: int, k: nat, d: nat)
    ensures Boundary(start, period, k + d) == Boundary(start, period, k) + d * period
  {
    if d > 0 {
      BoundariesAreApart(start, period, k, d - 1);
      OneMorePeriod(d, period);
    }
  }

  lemma OneMorePeriod(d: int, period: int)
    ensures (d - 1) * period + period == d * period
  {
  }

  /** Tick n never starts before its own slot. */
  lemma TickIsNeverEarly(starts: seq<int>, slots: seq<nat>, start: int, period: int, n: nat)
    requires PhaseLocked(starts, slots, start, period) && n < |starts|
    ensures starts[n] >= start + n * period
  {
    assert TickAt(starts, slots, start, period, n);
    BoundaryIsMultiple(start, period, n);
  }

  lemma {:induction false} SlotsAdvance(starts: seq<int>, slots: seq<nat>, start: int, period: int, i: nat, j: nat)
    requires PhaseLocked(starts, slots, start, period) && i <= j < |starts|
    ensures slots[j] >= slots[i] + (j - i)
  {
    if i < j {
      SlotsAdvance(starts, slots, start, period, i, j - 1);
      assert TickAt(starts, slots, start, period, j);
    }
  }
}
