/**
 * The zero net growth isoclines overlaid on the phase plane
 * (script.js:87-108): for each species, the straight line in the
 * `(N1, N2)` plane on which that species stops changing.
 */
module Isoclines {
  import opened Competition
  import opened RealArith

  /**
   * One plotted line: its x and y samples, its legend name and its dash
   * style. The source's constant `mode: "lines"` is not modelled.
   */
  datatype Trace = Trace(x: seq<real>, y: seq<real>, name: string, dash: string)

  /** Species 1's isocline `N2 = (K1 - N1) / a12`, with `a12` floored at `1e-9`. */
  function Isocline1(p: Params, n1: real): real
  {
    (p.k1 - n1) / Max(p.a12, Epsilon)
  }

  /** Species 2's isocline `N2 = K2 - a21 N1`. */
  function Isocline2(p: Params, n1: real): real
  {
    p.k2 - p.a21 * n1
  }

  /**
   * `zngiTraces`: both isoclines sampled at the ends of the plotted range
   * `[0, xMax]`, species 1 dashed and species 2 dotted.
   */
  function ZngiTraces(p: Params, xMax: real): (r: seq<Trace>)
    ensures |r| == 2
    ensures r[0].x == r[1].x == [0.0, xMax]
    ensures forall k :: 0 <= k < 2 ==> |r[k].y| == 2
    ensures forall k :: 0 <= k < 2 ==> r[0].y[k] == Isocline1(p, r[0].x[k])
    ensures forall k :: 0 <= k < 2 ==> r[1].y[k] == Isocline2(p, r[1].x[k])
    ensures r[0].name != r[1].name && r[0].dash != r[1].dash
  {
    var x := [0.0, xMax];
    var y1 := [Isocline1(p, x[0]), Isocline1(p, x[1])];
    var y2 := [Isocline2(p, x[0]), Isocline2(p, x[1])];
    [Trace(x, y1, "dN\U{2081}/dt = 0", "dash"), Trace(x, y2, "dN\U{2082}/dt = 0", "dot")]
  }

  /**
   * With a capacity and a competition coefficient above the floor, a point
   * `(n1, n2)` lies on species 1's isocline exactly when `n1 + a12 n2 == K1`.
   */
  lemma OnIsocline1(p: Params, n1: real, n2: real)
    requires p.k1 >= Epsilon && p.a12 >= Epsilon
    ensures n2 == Isocline1(p, n1) <==> n1 + p.a12 * n2 == Floored(p.k1)
  {
    assert Max(p.a12, Epsilon) == p.a12;
    assert Floored(p.k1) == p.k1;
    QuotientIff(p.k1 - n1, p.a12, n2);
  }

  /**
   * With a capacity and a competition coefficient above the floor, and for
   * a present species 1 with a non-zero growth rate, species 1 stops
   * changing exactly on its isocline.
   */
  lemma Isocline1IsZeroGrowth(p: Params, n1: real, n2: real)
    requires p.k1 >= Epsilon && p.a12 >= Epsilon && p.r1 != 0.0 && n1 != 0.0
    ensures Derivatives(p, n1, n2).d1 == 0.0 <==> n2 == Isocline1(p, n1)
  {
    OnIsocline1(p, n1, n2);
    Species1Rate(p, n1, n2);
  }

  /**
   * Below the floor the trace need not lie on the zero-growth set at all.
   * With `a12 = -0.5` the trace is divided by the floored `1e-9` instead of
   * `a12`; with `K1 = -50` it is the line `n1 + n2 = -50` while the rate
   * vanishes on `n1 + n2 = 1e-9`. In both cases species 1 still changes at
   * a sample of the trace.
   */
  lemma Isocline1OffZeroSet()
    ensures var p := Params(1.0, 1.0, 100.0, 100.0, -0.5, 1.0, 1.0, 1.0, 1.0, 1.0);
            Isocline1(p, 150.0) == -50000000000.0 &&
            Derivatives(p, 150.0, Isocline1(p, 150.0)).d1 != 0.0
    ensures var p := Params(1.0, 1.0, -50.0, 100.0, 1.0, 1.0, 1.0, 1.0, 1.0, 1.0);
            Isocline1(p, 10.0) == -60.0 &&
            Derivatives(p, 10.0, Isocline1(p, 10.0)).d1 != 0.0
  {
    var p := Params(1.0, 1.0, 100.0, 100.0, -0.5, 1.0, 1.0, 1.0, 1.0, 1.0);
    assert Max(p.a12, Epsilon) == Epsilon;
    Species1Rate(p, 150.0, Isocline1(p, 150.0));
    var q := Params(1.0, 1.0, -50.0, 100.0, 1.0, 1.0, 1.0, 1.0, 1.0, 1.0);
    assert Floored(q.k1) == Epsilon;
    Species1Rate(q, 10.0, Isocline1(q, 10.0));
  }

  /**
   * With a capacity above the floor, and for a present species 2 with a
   * non-zero growth rate, species 2 stops changing exactly on its isocline.
   */
  lemma Isocline2IsZeroGrowth(p: Params, n1: real, n2: real)
    requires p.k2 >= Epsilon && p.r2 != 0.0 && n2 != 0.0
    ensures Derivatives(p, n1, n2).d2 == 0.0 <==> n2 == Isocline2(p, n1)
  {
    assert Floored(p.k2) == p.k2;
    Species2Rate(p, n1, n2);
  }

  /**
   * Every sample of the first trace is a point where species 1 stops
   * changing, and every sample of the second one where species 2 does.
   */
  lemma TracesAreZeroGrowth(p: Params, xMax: real)
    requires p.k1 >= Epsilon && p.a12 >= Epsilon && p.k2 >= Epsilon
    ensures var r := ZngiTraces(p, xMax);
            forall k :: 0 <= k < 2 ==>
              Derivatives(p, r[0].x[k], r[0].y[k]).d1 == 0.0 &&
              Derivatives(p, r[1].x[k], r[1].y[k]).d2 == 0.0
  {
    var r := ZngiTraces(p, xMax);
    forall k | 0 <= k < 2
      ensures Derivatives(p, r[0].x[k], r[0].y[k]).d1 == 0.0
      ensures Derivatives(p, r[1].x[k], r[1].y[k]).d2 == 0.0
    {
      OnIsocline1(p, r[0].x[k], r[0].y[k]);
      Species1Rate(p, r[0].x[k], r[0].y[k]);
      assert Floored(p.k2) == p.k2;
      Species2Rate(p, r[1].x[k], r[1].y[k]);
    }
  }

  /**
   * The straight segments Plotly draws between the two samples of each
   * trace are the isoclines themselves: the point a fraction `t` of the way
   * along a segment lies on its isocline.
   */
  lemma SegmentsAreIsoclines(p: Params, xMax: real, t: real)
    ensures Isocline1(p, t * xMax) == (1.0 - t) * Isocline1(p, 0.0) + t * Isocline1(p, xMax)
    ensures Isocline2(p, t * xMax) == (1.0 - t) * Isocline2(p, 0.0) + t * Isocline2(p, xMax)
  {
    var a := Max(p.a12, Epsilon);
    var q0 := p.k1 / a;
    var q1 := (p.k1 - xMax) / a;
    assert q0 * a == p.k1;
    assert q1 * a == p.k1 - xMax;
    var z := (1.0 - t) * q0 + t * q1;
    assert z * a == (1.0 - t) * (q0 * a) + t * (q1 * a);
    QuotientIff(p.k1 - t * xMax, a, z);
  }
}
