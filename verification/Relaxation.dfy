/**
 * First-order lag, the dynamics shared by the thermal and the motor model.
 *
 * A decay function stands for x => exp(-x). What the proofs need of it is a hypothesis (`IsDecay`), not an axiom.
 */
module Relaxation {
  type Decay = real -> real

  ghost predicate Splits(e: Decay, a: real, b: real) {
    e(a + b) == e(a) * e(b)
  }

  ghost predicate IsFraction(e: Decay, x: real) {
    0.0 < e(x) <= 1.0
  }

  ghost predicate IsDecay(e: Decay) {
    && e(0.0) == 1.0
    && (forall x {:trigger IsFraction(e, x)} :: x >= 0.0 ==> IsFraction(e, x))
    && (forall a, b {:trigger Splits(e, a, b)} :: a >= 0.0 && b >= 0.0 ==> Splits(e, a, b))
  }

  /** The update as the devices compute it: move by the fraction `alpha` of the distance to the target. */
  function Approach(v: real, target: real, alpha: real): real {
    v + alpha * (target - v)
  }

  /** The same update in closed form: the distance to the target shrinks by `factor`. */
  function Relax(v: real, target: real, factor: real): real {
    target + factor * (v - target)
  }

  lemma RelaxDistance(v: real, target: real, factor: real)
    ensures Relax(v, target, factor) - target == factor * (v - target)
  {
  }

  lemma ApproachIsRelax(v: real, target: real, factor: real)
    ensures Approach(v, target, 1.0 - factor) == Relax(v, target, factor)
  {
  }

  /** A value between two bounds stays there when its target lies between them. */
  lemma RelaxStaysBetween(v: real, target: real, factor: real, lo: real, hi: real)
    requires 0.0 <= factor <= 1.0
    requires lo <= v <= hi && lo <= target <= hi
    ensures lo <= Relax(v, target, factor) <= hi
  {
    var rest := 1.0 - factor;
    var below, above := factor * (v - lo), factor * (hi - v);
    var below', above' := rest * (target - lo), rest * (hi - target);
    NonNegativeProduct(factor, v - lo);
    NonNegativeProduct(factor, hi - v);
    NonNegativeProduct(rest, target - lo);
    NonNegativeProduct(rest, hi - target);
    assert Relax(v, target, factor) - lo == below + below';
    assert hi - Relax(v, target, factor) == above + above';
  }

  function Total(dts: seq<real>): real {
    if dts == [] then 0.0 else Total(dts[..|dts| - 1]) + dts[|dts| - 1]
  }

  predicate NonNegative(dts: seq<real>) {
    forall i :: 0 <= i < |dts| ==> dts[i] >= 0.0
  }

  lemma {:induction false} TotalIsNonNegative(dts: seq<real>)
    requires NonNegative(dts)
    ensures Total(dts) >= 0.0
  {
    if dts != [] {
      TotalIsNonNegative(dts[..|dts| - 1]);
    }
  }

  /** The decay accumulated step by step. */
  function Decayed(dts: seq<real>, tau: real, e: Decay): real
    requires tau > 0.0
  {
    if dts == [] then 1.0 else Decayed(dts[..|dts| - 1], tau, e) * e(dts[|dts| - 1] / tau)
  }

  /** It depends on the total alone. */
  lemma {:induction false} DecayedIsExact(dts: seq<real>, tau: real, e: Decay)
    requires IsDecay(e) && NonNegative(dts) && tau > 0.0
    ensures Decayed(dts, tau, e) == e(Total(dts) / tau)
  {
    if dts == [] {
      assert Total(dts) / tau == 0.0;
    } else {
      var front, dt := dts[..|dts| - 1], dts[|dts| - 1];
      DecayedIsExact(front, tau, e);
      TotalIsNonNegative(front);
      var sofar := Total(front);
      ScaledSplit(sofar, dt, tau, e);
      assert Total(dts) == sofar + dt;
    }
  }

  /** One update per time step, with the target held. */
  function Follow(v: real, target: real, dts: seq<real>, tau: real, e: Decay): real
    requires tau > 0.0
  {
    if dts == [] then v
    else Approach(Follow(v, target, dts[..|dts| - 1], tau, e), target, 1.0 - e(dts[|dts| - 1] / tau))
  }

  /** Exactness: how the time is cut into steps does not matter, only its total does. */
  lemma FollowIsExact(v: real, target: real, dts: seq<real>, tau: real, e: Decay)
    requires IsDecay(e) && NonNegative(dts) && tau > 0.0
    ensures Follow(v, target, dts, tau, e) == Relax(v, target, e(Total(dts) / tau))
  {
    FollowByDecay(v, target, dts, tau, e);
    DecayedIsExact(dts, tau, e);
  }

  lemma {:induction false} FollowByDecay(v: real, target: real, dts: seq<real>, tau: real, e: Decay)
    requires tau > 0.0
    ensures Follow(v, target, dts, tau, e) == Relax(v, target, Decayed(dts, tau, e))
  {
    if dts != [] {
      var front, dt := dts[..|dts| - 1], dts[|dts| - 1];
      FollowByDecay(v, target, front, tau, e);
      var f, g := Decayed(front, tau, e), e(dt / tau);
      RelaxComposes(v, target, f, g);
      ApproachIsRelax(Relax(v, target, f), target, g);
    }
  }

  lemma RelaxComposes(v: real, target: real, f: real, g: real)
    ensures Relax(Relax(v, target, f), target, g) == Relax(v, target, f * g)
  {
    assert g * (f * (v - target)) == f * g * (v - target);
  }

  lemma ScaledSplit(a: real, b: real, tau: real, e: Decay)
    requires IsDecay(e) && a >= 0.0 && b >= 0.0 && tau > 0.0
    ensures e((a + b) / tau) == e(a / tau) * e(b / tau)
  {
    DecayIsFraction(a, tau, e);
    DecayIsFraction(b, tau, e);
    assert (a + b) / tau == a / tau + b / tau;
    assert Splits(e, a / tau, b / tau);
  }

  lemma DecayIsFraction(dt: real, tau: real, e: Decay)
    requires IsDecay(e) && dt >= 0.0 && tau > 0.0
    ensures dt / tau >= 0.0
    ensures 0.0 < e(dt / tau) <= 1.0
  {
    assert IsFraction(e, dt / tau);
  }

  /** The distance to a held target shrinks by exactly e(total) and never changes sign. */
  lemma ErrorShrinksExactly(v: real, target: real, dts: seq<real>, tau: real, e: Decay)
    requires IsDecay(e) && NonNegative(dts) && tau > 0.0
    ensures Follow(v, target, dts, tau, e) - target == e(Total(dts) / tau) * (v - target)
    ensures v < target ==> v <= Follow(v, target, dts, tau, e) < target
    ensures v > target ==> v >= Follow(v, target, dts, tau, e) > target
    ensures v == target ==> Follow(v, target, dts, tau, e) == target
  {
    FollowIsExact(v, target, dts, tau, e);
    TotalIsNonNegative(dts);
    DecayIsFraction(Total(dts), tau, e);
    RelaxKeepsSide(v, target, e(Total(dts) / tau));
  }

  lemma RelaxKeepsSide(v: real, target: real, f: real)
    requires 0.0 < f <= 1.0
    ensures v < target ==> v <= Relax(v, target, f) < target
    ensures v > target ==> v >= Relax(v, target, f) > target
    ensures v == target ==> Relax(v, target, f) == target
  {
    var d := v - target;
    var shrunk := f * d;
    Shrink(f, d);
    assert Relax(v, target, f) == target + shrunk;
  }

  lemma Shrink(f: real, d: real)
    requires 0.0 < f <= 1.0
    ensures d > 0.0 ==> 0.0 < f * d <= d
    ensures d < 0.0 ==> d <= f * d < 0.0
    ensures d == 0.0 ==> f * d == 0.0
  {
    if d > 0.0 {
      NonNegativeProduct(1.0 - f, d);
      assert (1.0 - f) * d == d - f * d;
    } else {
      NonNegativeProduct(1.0 - f, -d);
      assert (1.0 - f) * -d == f * d - d;
    }
  }

  lemma NonNegativeProduct(a: real, b: real)
    requires a >= 0.0 && b >= 0.0
    ensures a * b >= 0.0
  {
  }
}
