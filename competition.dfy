/**
 * The two-species Lotka-Volterra competition model: its ten parameters and
 * the right-hand side that every other component evaluates (script.js:25-29).
 * Numbers are exact reals; the source's IEEE doubles are not modelled.
 */
module Competition {
  import opened RealArith

  /** The ten scalar inputs read from the form (script.js:1), immutable. */
  datatype Params = Params(
    r1: real, r2: real,     // intrinsic growth rates
    k1: real, k2: real,     // carrying capacities
    a12: real, a21: real,   // competition coefficients
    n10: real, n20: real,   // initial populations
    tMax: real, dt: real)   // horizon and time step

  /** Instantaneous growth rates of species 1 and 2. */
  datatype Rates = Rates(d1: real, d2: real)

  /** The `1e-9` floor that keeps a capacity (or a12 as a divisor) away from zero. */
  const Epsilon: real := 0.000000001

  function Max(a: real, b: real): (m: real)
    ensures m >= a && m >= b
    ensures m == a || m == b
  {
    if a >= b then a else b
  }

  /** `Math.max(k, 1e-9)`: a strictly positive stand-in for `k`. */
  function Floored(k: real): (f: real)
    ensures f > 0.0 && f >= k
  {
    Max(k, Epsilon)
  }

  /**
   * `derivatives(p, n1, n2)`: logistic growth of each species, reduced by
   * the crowding of the other.
   */
  function Derivatives(p: Params, n1: real, n2: real): (r: Rates)
  {
    var d1 := p.r1 * n1 * (1.0 - (n1 + p.a12 * n2) / Floored(p.k1));
    var d2 := p.r2 * n2 * (1.0 - (n2 + p.a21 * n1) / Floored(p.k2));
    Rates(d1, d2)
  }

  /**
   * The shape of either species' rate, `r * n * (1 - c / cap)`, with `c` the
   * crowding the species feels: zero exactly when a factor is, and, for a
   * present species with a positive growth rate, positive exactly below
   * capacity.
   */
  lemma LogisticRate(r: real, n: real, c: real, cap: real)
    requires cap > 0.0
    ensures r * n * (1.0 - c / cap) == 0.0 <==> (r == 0.0 || n == 0.0 || c == cap)
    ensures r > 0.0 && n > 0.0 ==> (r * n * (1.0 - c / cap) > 0.0 <==> c < cap)
  {
    var g := 1.0 - c / cap;
    QuotientVersusOne(c, cap);
    if r != 0.0 && n != 0.0 {
      assert r * n != 0.0;
      if g != 0.0 {
        assert r * n * g != 0.0;
      }
    }
    if r > 0.0 && n > 0.0 {
      assert r * n > 0.0;
      if g <= 0.0 {
        assert r * n * g <= 0.0;
      } else {
        assert r * n * g > 0.0;
      }
    }
  }

  /**
   * Species 1 stops changing exactly when it has no growth rate, is extinct,
   * or sits on its zero-growth isocline `n1 + a12 n2 == K1`; when present and
   * with a positive growth rate it grows exactly below that isocline.
   */
  lemma Species1Rate(p: Params, n1: real, n2: real)
    ensures Derivatives(p, n1, n2).d1 == 0.0 <==>
            (p.r1 == 0.0 || n1 == 0.0 || n1 + p.a12 * n2 == Floored(p.k1))
    ensures p.r1 > 0.0 && n1 > 0.0 ==>
              (Derivatives(p, n1, n2).d1 > 0.0 <==> n1 + p.a12 * n2 < Floored(p.k1))
  {
    LogisticRate(p.r1, n1, n1 + p.a12 * n2, Floored(p.k1));
  }

  /** The mirror image of Species1Rate for species 2. */
  lemma Species2Rate(p: Params, n1: real, n2: real)
    ensures Derivatives(p, n1, n2).d2 == 0.0 <==>
            (p.r2 == 0.0 || n2 == 0.0 || n2 + p.a21 * n1 == Floored(p.k2))
    ensures p.r2 > 0.0 && n2 > 0.0 ==>
              (Derivatives(p, n1, n2).d2 > 0.0 <==> n2 + p.a21 * n1 < Floored(p.k2))
  {
    LogisticRate(p.r2, n2, n2 + p.a21 * n1, Floored(p.k2));
  }

  /** Without competition each species follows its own logistic law. */
  lemma NoCompetitionRates(p: Params, n1: real, n2: real)
    requires p.a12 == 0.0 && p.a21 == 0.0
    ensures Derivatives(p, n1, n2).d1 == p.r1 * n1 * (1.0 - n1 / Floored(p.k1))
    ensures Derivatives(p, n1, n2).d2 == p.r2 * n2 * (1.0 - n2 / Floored(p.k2))
  {
    assert n1 + p.a12 * n2 == n1;
    assert n2 + p.a21 * n1 == n2;
  }
}
