/**
 * `simulate` (script.js:31-52): fixed-step forward Euler over the competition
 * model, clamping each population at zero after every step.
 *
 * The method fills three freshly allocated arrays as the source does; the
 * functions `StepCount`, `EulerStep` and `Orbit` say what it computes, and the
 * lemmas below state what follows for the whole trajectory.
 */
module Integrator {
  import opened Competition
  import opened RealArith

  /** The `1e-6` floor on the time step used only to size the arrays. */
  const MinStep: real := 0.000001

  /** The pair of populations at one sample. */
  datatype Populations = Populations(n1: real, n2: real)

  /**
   * `Math.max(2, Math.floor(tMax / Math.max(dt, 1e-6)) + 1)`: the number of
   * samples. There are always at least two; beyond two, the last sample index
   * `n - 1` is the number of whole (floored) steps that fit in `tMax`.
   */
  function StepCount(p: Params): (n: nat)
    ensures n >= 2
    ensures n == 2 ==> p.tMax / Max(p.dt, MinStep) < 2.0
    ensures n > 2 ==> (n - 1) as real <= p.tMax / Max(p.dt, MinStep) < n as real
  {
    var steps := (p.tMax / Max(p.dt, MinStep)).Floor + 1;
    if steps > 2 then steps else 2
  }

  /** `i * dt`: the time of sample `i`, using the raw `dt`, not the floored one. */
  function TimeStamp(p: Params, i: nat): real
  {
    i as real * p.dt
  }

  /** The first sample: each initial population clamped at zero. */
  function Initial(p: Params): (s: Populations)
    ensures s.n1 >= 0.0 && s.n2 >= 0.0
    ensures p.n10 >= 0.0 ==> s.n1 == p.n10
    ensures p.n20 >= 0.0 ==> s.n2 == p.n20
    ensures p.n10 <= 0.0 ==> s.n1 == 0.0
    ensures p.n20 <= 0.0 ==> s.n2 == 0.0
  {
    Populations(Max(0.0, p.n10), Max(0.0, p.n20))
  }

  /**
   * One Euler step of length `dt` (the raw `dt`, not the floored one),
   * clamped at zero. It never yields a negative population, and an extinct
   * species stays extinct.
   */
  function EulerStep(p: Params, s: Populations): (s': Populations)
    ensures s'.n1 >= 0.0 && s'.n2 >= 0.0
    ensures s.n1 == 0.0 ==> s'.n1 == 0.0
    ensures s.n2 == 0.0 ==> s'.n2 == 0.0
  {
    var d := Derivatives(p, s.n1, s.n2);
    Populations(ClampedUpdate(s.n1, p.dt, d.d1), ClampedUpdate(s.n2, p.dt, d.d2))
  }

  /** `Math.max(0, n + dt * rate)`: one Euler update of one population, floored at zero. */
  function ClampedUpdate(n: real, dt: real, rate: real): (m: real)
    ensures m >= 0.0
    ensures n == 0.0 && rate == 0.0 ==> m == 0.0
  {
    Max(0.0, n + dt * rate)
  }

  /** The sample at index `k`: `k` Euler steps from the initial sample. */
  function Orbit(p: Params, k: nat): (s: Populations)
    ensures s.n1 >= 0.0 && s.n2 >= 0.0
  {
    if k == 0 then Initial(p) else EulerStep(p, Orbit(p, k - 1))
  }

  /**
   * `simulate(p)`: time stamps and both population series, indexed in
   * lockstep, of length `StepCount(p)`. Each sample is the Euler step of the
   * previous one, so the series is the orbit of the initial sample;
   * populations are never negative and zero is absorbing.
   */
  method Simulate(p: Params) returns (t: array<real>, n1: array<real>, n2: array<real>)
    ensures t != n1 && t != n2 && n1 != n2
    ensures t.Length == StepCount(p) && n1.Length == t.Length && n2.Length == t.Length
    ensures t[0] == 0.0 && Populations(n1[0], n2[0]) == Initial(p)
    ensures forall i :: 1 <= i < t.Length ==> t[i] == TimeStamp(p, i)
    ensures forall i :: 1 <= i < n1.Length ==>
              Populations(n1[i], n2[i]) == EulerStep(p, Populations(n1[i - 1], n2[i - 1]))
    ensures forall i :: 0 <= i < n1.Length ==> Populations(n1[i], n2[i]) == Orbit(p, i)
    ensures forall i :: 0 <= i < n1.Length ==> n1[i] >= 0.0 && n2[i] >= 0.0
    ensures forall i, j :: 0 <= i <= j < n1.Length && n1[i] == 0.0 ==> n1[j] == 0.0
    ensures forall i, j :: 0 <= i <= j < n2.Length && n2[i] == 0.0 ==> n2[j] == 0.0
  {
    var n := StepCount(p);
    t := new real[n];
    n1 := new real[n];
    n2 := new real[n];

    t[0] := 0.0;
    n1[0] := Max(0.0, p.n10);
    n2[0] := Max(0.0, p.n20);

    for i := 1 to n
      invariant t[0] == 0.0
      invariant forall k :: 1 <= k < i ==> t[k] == TimeStamp(p, k)
      invariant forall k {:trigger Orbit(p, k)} :: 0 <= k < i ==> Populations(n1[k], n2[k]) == Orbit(p, k)
    {
      var x := n1[i - 1];
      var y := n2[i - 1];
      var next := EulerStep(p, Populations(x, y));

      t[i] := TimeStamp(p, i);
      n1[i] := next.n1;
      n2[i] := next.n2;
    }

    OrbitSeries(p, n1, n2);
  }

  /**
   * Two series that agree with the orbit index by index start at the initial
   * sample, advance by one Euler step per index, are never negative, and keep
   * an extinct species extinct.
   */
  lemma OrbitSeries(p: Params, s1: array<real>, s2: array<real>)
    requires s1.Length == s2.Length > 0
    requires forall i {:trigger Orbit(p, i)} :: 0 <= i < s1.Length ==> Populations(s1[i], s2[i]) == Orbit(p, i)
    ensures Populations(s1[0], s2[0]) == Initial(p)
    ensures forall i :: 1 <= i < s1.Length ==>
              Populations(s1[i], s2[i]) == EulerStep(p, Populations(s1[i - 1], s2[i - 1]))
    ensures forall i :: 0 <= i < s1.Length ==> Populations(s1[i], s2[i]) == Orbit(p, i)
    ensures forall i :: 0 <= i < s1.Length ==> s1[i] >= 0.0 && s2[i] >= 0.0
    ensures forall i, j :: 0 <= i <= j < s1.Length && s1[i] == 0.0 ==> s1[j] == 0.0
    ensures forall i, j :: 0 <= i <= j < s2.Length && s2[i] == 0.0 ==> s2[j] == 0.0
  {
    assert Populations(s1[0], s2[0]) == Orbit(p, 0);
    forall i | 1 <= i < s1.Length
      ensures Populations(s1[i], s2[i]) == EulerStep(p, Populations(s1[i - 1], s2[i - 1]))
    {
      assert Populations(s1[i - 1], s2[i - 1]) == Orbit(p, i - 1);
      assert Populations(s1[i], s2[i]) == Orbit(p, i);
    }
    forall i | 0 <= i < s1.Length
      ensures Populations(s1[i], s2[i]) == Orbit(p, i) && s1[i] >= 0.0 && s2[i] >= 0.0
    {
      assert Populations(s1[i], s2[i]) == Orbit(p, i);
    }
    forall i, j | 0 <= i <= j < s1.Length
      ensures s1[i] == 0.0 ==> s1[j] == 0.0
      ensures s2[i] == 0.0 ==> s2[j] == 0.0
    {
      assert Populations(s1[i], s2[i]) == Orbit(p, i);
      assert Populations(s1[j], s2[j]) == Orbit(p, j);
      ExtinctionIsPermanent(p, i, j);
    }
  }

  /** Once a species is extinct at some sample it is extinct at every later one. */
  lemma {:induction false} ExtinctionIsPermanent(p: Params, i: nat, j: nat)
    requires i <= j
    ensures Orbit(p, i).n1 == 0.0 ==> Orbit(p, j).n1 == 0.0
    ensures Orbit(p, i).n2 == 0.0 ==> Orbit(p, j).n2 == 0.0
  {
    if i < j {
      ExtinctionIsPermanent(p, i, j - 1);
    }
  }

  /** A species that starts at or below zero is zero at every sample. */
  lemma NoGrowthFromNothing(p: Params, k: nat)
    ensures p.n10 <= 0.0 ==> Orbit(p, k).n1 == 0.0
    ensures p.n20 <= 0.0 ==> Orbit(p, k).n2 == 0.0
  {
    ExtinctionIsPermanent(p, 0, k);
  }

  /** Scaling a non-negative real by a factor in `[0, 1]` does not increase it. */
  lemma MulAtMostOne(h: real, w: real)
    requires 0.0 <= h <= 1.0 && w >= 0.0
    ensures h * w <= w
  {
    MulNonNegative(1.0 - h, w);
    assert (1.0 - h) * w == w - h * w;
  }

  /** Below a positive capacity, the crowding fraction `x / cap` is at most one. */
  lemma FractionAtMostOne(x: real, cap: real)
    requires cap > 0.0 && 0.0 <= x <= cap
    ensures 0.0 <= x / cap <= 1.0
  {
    assert x / cap * cap == x;
  }

  /** A full logistic increment from `x` lands at most on `cap`: `cap - x - x(1 - u) == cap (1 - u)^2`. */
  lemma LogisticPeak(x: real, cap: real, u: real)
    requires cap > 0.0 && u == x / cap
    ensures x + x * (1.0 - u) <= cap
  {
    assert x == u * cap;
    MulNonNegative(cap, (1.0 - u) * (1.0 - u));
    assert cap * ((1.0 - u) * (1.0 - u)) == cap - 2.0 * (u * cap) + u * (u * cap);
    assert x * (1.0 - u) == u * cap - u * (u * cap);
  }

  /**
   * With a non-negative relative step `h <= 1`, the logistic increment never
   * moves a population in `[0, cap]` down or past `cap`.
   */
  lemma LogisticIncrement(h: real, x: real, cap: real)
    requires cap > 0.0 && 0.0 <= h <= 1.0 && 0.0 <= x <= cap
    ensures x <= x + h * (x * (1.0 - x / cap)) <= cap
  {
    FractionAtMostOne(x, cap);
    MulNonNegative(x, 1.0 - x / cap);
    MulNonNegative(h, x * (1.0 - x / cap));
    MulAtMostOne(h, x * (1.0 - x / cap));
    LogisticPeak(x, cap, x / cap);
  }

  /** One clamped Euler step of a logistic rate from a population in `[0, cap]`. */
  lemma LogisticEulerStep(r: real, dt: real, x: real, cap: real, rate: real)
    requires cap > 0.0 && dt >= 0.0 && r >= 0.0 && r * dt <= 1.0 && 0.0 <= x <= cap
    requires rate == r * x * (1.0 - x / cap)
    ensures x <= ClampedUpdate(x, dt, rate) <= cap
  {
    assert dt * rate == (r * dt) * (x * (1.0 - x / cap));
    LogisticIncrement(r * dt, x, cap);
  }

  /** One Euler step of two uncompeting species below capacity stays below it. */
  lemma NoCompetitionStep(p: Params, s: Populations)
    requires p.a12 == 0.0 && p.a21 == 0.0
    requires p.dt >= 0.0 && p.r1 >= 0.0 && p.r2 >= 0.0
    requires p.r1 * p.dt <= 1.0 && p.r2 * p.dt <= 1.0
    requires 0.0 <= s.n1 <= Floored(p.k1) && 0.0 <= s.n2 <= Floored(p.k2)
    ensures s.n1 <= EulerStep(p, s).n1 <= Floored(p.k1)
    ensures s.n2 <= EulerStep(p, s).n2 <= Floored(p.k2)
  {
    var d := Derivatives(p, s.n1, s.n2);
    NoCompetitionRates(p, s.n1, s.n2);
    LogisticEulerStep(p.r1, p.dt, s.n1, Floored(p.k1), d.d1);
    LogisticEulerStep(p.r2, p.dt, s.n2, Floored(p.k2), d.d2);
  }

  /**
   * Without competition (`a12 == a21 == 0`), with non-negative growth rates,
   * a non-negative step with `r * dt <= 1`, and each species starting at or
   * below its capacity, each population series is non-decreasing and never
   * exceeds the capacity: discrete logistic growth without overshoot.
   */
  lemma {:induction false} NoCompetitionLogisticGrowth(p: Params, k: nat)
    requires p.a12 == 0.0 && p.a21 == 0.0
    requires p.dt >= 0.0 && p.r1 >= 0.0 && p.r2 >= 0.0
    requires p.r1 * p.dt <= 1.0 && p.r2 * p.dt <= 1.0
    requires p.n10 <= Floored(p.k1) && p.n20 <= Floored(p.k2)
    ensures Orbit(p, k).n1 <= Orbit(p, k + 1).n1 <= Floored(p.k1)
    ensures Orbit(p, k).n2 <= Orbit(p, k + 1).n2 <= Floored(p.k2)
  {
    if k > 0 {
      NoCompetitionLogisticGrowth(p, k - 1);
    }
    NoCompetitionStep(p, Orbit(p, k));
  }

  /**
   * With a step of at least `1e-6` that fits in the horizon, the sample count
   * is `floor(tMax / dt) + 1`, and the last time stamp lies within the
   * horizon while one more step would pass it.
   */
  lemma StepCountForOrdinaryStep(p: Params)
    requires p.dt >= MinStep && p.tMax >= p.dt
    ensures StepCount(p) == (p.tMax / p.dt).Floor + 1
    ensures TimeStamp(p, StepCount(p) - 1) <= p.tMax < TimeStamp(p, StepCount(p))
  {
    var q := p.tMax / p.dt;
    QuotientVersusOne(p.tMax, p.dt);
    assert q * p.dt == p.tMax;
    var n := StepCount(p);
    assert n == q.Floor + 1;
    MulLeq((n - 1) as real, q, p.dt);
    MulLess(q, n as real, p.dt);
  }

  /**
   * A horizon shorter than one positive step still yields two samples, the
   * second of which lies beyond the horizon.
   */
  lemma ShortHorizon(p: Params)
    requires p.dt > 0.0 && p.tMax < p.dt
    ensures StepCount(p) == 2
    ensures TimeStamp(p, 1) > p.tMax
  {
    QuotientVersusOne(p.tMax, Max(p.dt, MinStep));
  }
}
