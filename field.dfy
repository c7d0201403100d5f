/**
 * The direction field drawn over the phase plane (script.js:54-85): a
 * 15 x 15 grid of arrows, each starting at a grid point and pointing along
 * the normalised growth vector there.
 */
module FieldSampler {
  import opened Competition
  import opened RealArith

  /** Number of grid points along each axis. */
  const Grid: nat := 15

  /** Fraction of the axis extent covered by one arrow. */
  const Scale: real := 0.07

  /**
   * One annotation: the point `(x, y)`, the grid point moved along the
   * scaled direction, and the grid point `(ax, ay)` it is drawn from. The
   * fixed styling fields of the source are not modelled.
   */
  datatype Arrow = Arrow(x: real, y: real, ax: real, ay: real)

  /** What the model relies on about `Math.hypot`: non-negative, zero at the origin. */
  ghost predicate IsHypot(hypot: (real, real) -> real)
  {
    (forall a, b :: hypot(a, b) >= 0.0) && hypot(0.0, 0.0) == 0.0
  }

  /**
   * A `hypot` that is the Euclidean norm: non-negative, positive away from
   * the origin, and squaring to the sum of the squares.
   */
  ghost predicate IsEuclidean(hypot: (real, real) -> real)
  {
    forall a, b ::
      hypot(a, b) >= 0.0 && (hypot(a, b) > 0.0 <==> a != 0.0 || b != 0.0) &&
      hypot(a, b) * hypot(a, b) == a * a + b * b
  }

  /** `i * (extent / grid)`: the coordinate of the `i`-th grid line. */
  function GridCoord(i: int, extent: real): (c: real)
    ensures extent > 0.0 && 1 <= i <= Grid ==> 0.0 < c <= extent
    ensures extent > 0.0 && 1 <= i <= Grid ==> (c == extent <==> i == Grid)
  {
    var step := extent / Grid as real;
    assert step * Grid as real == extent;
    i as real * step
  }

  /** `Math.hypot(d1, d2) || 1`: the norm, replaced by one when it is zero. */
  function Length(hypot: (real, real) -> real, d1: real, d2: real): (len: real)
    ensures len != 0.0
    ensures IsHypot(hypot) ==> len > 0.0
  {
    var h := hypot(d1, d2);
    if h == 0.0 then 1.0 else h
  }

  /** `(d / len) * extent * scale`: one component of the arrow. */
  function Offset(d: real, len: real, extent: real): real
    requires len != 0.0
  {
    (d / len) * extent * Scale
  }

  /**
   * The arrow the inner loop body builds at the point `(x, y)`: anchored at
   * the point, and pointing along the growth vector there.
   */
  function ArrowFrom(p: Params, xMax: real, yMax: real, hypot: (real, real) -> real, x: real, y: real): Arrow
  {
    var d := Derivatives(p, x, y);
    var len := Length(hypot, d.d1, d.d2);
    Arrow(x + Offset(d.d1, len, xMax), y + Offset(d.d2, len, yMax), x, y)
  }

  /** The arrow for grid point `(i, j)`. */
  function ArrowAt(p: Params, xMax: real, yMax: real, hypot: (real, real) -> real, i: int, j: int): Arrow
  {
    ArrowFrom(p, xMax, yMax, hypot, GridCoord(i, xMax), GridCoord(j, yMax))
  }

  /** Position of grid point `(i, j)` in the row-major order of the loops. */
  lemma GridIndex(i: int, j: int)
    requires 1 <= i <= Grid && 1 <= j <= Grid
    ensures ((i - 1) * Grid + (j - 1)) / Grid == i - 1
    ensures ((i - 1) * Grid + (j - 1)) % Grid == j - 1
  {
  }

  /**
   * `buildFieldArrows`: the arrows for all grid points, columns `i` outer,
   * rows `j` inner.
   */
  method BuildFieldArrows(p: Params, xMax: real, yMax: real, hypot: (real, real) -> real)
    returns (arrows: seq<Arrow>)
    ensures |arrows| == Grid * Grid
    ensures forall k :: 0 <= k < |arrows| ==>
              arrows[k] == ArrowAt(p, xMax, yMax, hypot, k / Grid + 1, k % Grid + 1)
  {
    arrows := [];
    for i := 1 to Grid + 1
      invariant |arrows| == (i - 1) * Grid
      invariant forall k :: 0 <= k < |arrows| ==>
                  arrows[k] == ArrowAt(p, xMax, yMax, hypot, k / Grid + 1, k % Grid + 1)
    {
      for j := 1 to Grid + 1
        invariant |arrows| == (i - 1) * Grid + (j - 1)
        invariant forall k :: 0 <= k < |arrows| ==>
                    arrows[k] == ArrowAt(p, xMax, yMax, hypot, k / Grid + 1, k % Grid + 1)
      {
        var x := GridCoord(i, xMax);
        var y := GridCoord(j, yMax);
        var d := Derivatives(p, x, y);
        var len := Length(hypot, d.d1, d.d2);
        GridIndex(i, j);
        arrows := arrows + [Arrow(x + Offset(d.d1, len, xMax), y + Offset(d.d2, len, yMax), x, y)];
      }
    }
  }

  /**
   * Every arrow starts inside the plotted box `(0, xMax] x (0, yMax]`, on
   * the grid point of its position, and the last column and row lie on the
   * box's edges.
   */
  lemma ArrowBases(p: Params, xMax: real, yMax: real, hypot: (real, real) -> real, i: int, j: int)
    requires xMax > 0.0 && yMax > 0.0 && 1 <= i <= Grid && 1 <= j <= Grid
    ensures 0.0 < ArrowAt(p, xMax, yMax, hypot, i, j).ax <= xMax
    ensures 0.0 < ArrowAt(p, xMax, yMax, hypot, i, j).ay <= yMax
    ensures ArrowAt(p, xMax, yMax, hypot, i, j).ax == xMax <==> i == Grid
    ensures ArrowAt(p, xMax, yMax, hypot, i, j).ay == yMax <==> j == Grid
  {
  }

  /** A non-zero component survives scaling by a non-zero norm and extent. */
  lemma OffsetZero(d: real, len: real, extent: real)
    requires len != 0.0 && extent != 0.0
    ensures Offset(d, len, extent) == 0.0 <==> d == 0.0
  {
    if d != 0.0 {
      var u := d / len;
      assert u * len == d;
      assert u != 0.0;
      assert u * extent != 0.0;
      assert u * extent * Scale != 0.0;
    }
  }

  /**
   * With a positive norm and extent, a component points the way its
   * derivative does.
   */
  lemma OffsetSign(d: real, len: real, extent: real)
    requires len > 0.0 && extent > 0.0
    ensures Offset(d, len, extent) > 0.0 <==> d > 0.0
    ensures Offset(d, len, extent) < 0.0 <==> d < 0.0
  {
    var u := d / len;
    assert u * len == d;
    if d > 0.0 {
      assert u > 0.0;
      assert u * extent > 0.0;
    } else if d < 0.0 {
      assert u < 0.0;
      assert u * extent < 0.0;
    } else {
      assert u == 0.0;
    }
  }

  /**
   * On a non-degenerate box, an arrow has zero length exactly at a point
   * where both species stop changing, whatever `hypot` is.
   */
  lemma StillArrow(p: Params, xMax: real, yMax: real, hypot: (real, real) -> real, x: real, y: real)
    requires xMax != 0.0 && yMax != 0.0
    ensures var a := ArrowFrom(p, xMax, yMax, hypot, x, y);
            (a.x == x && a.y == y) <==> Derivatives(p, x, y) == Rates(0.0, 0.0)
  {
    var d := Derivatives(p, x, y);
    var len := Length(hypot, d.d1, d.d2);
    OffsetZero(d.d1, len, xMax);
    OffsetZero(d.d2, len, yMax);
  }

  /**
   * With a positive box and a `hypot` that is non-negative, an arrow
   * points right exactly where species 1 grows and up exactly where
   * species 2 grows (and left, down where they decline).
   */
  lemma ArrowDirection(p: Params, xMax: real, yMax: real, hypot: (real, real) -> real, x: real, y: real)
    requires IsHypot(hypot) && xMax > 0.0 && yMax > 0.0
    ensures var a := ArrowFrom(p, xMax, yMax, hypot, x, y);
            var d := Derivatives(p, x, y);
            (a.x > x <==> d.d1 > 0.0) && (a.x < x <==> d.d1 < 0.0) &&
            (a.y > y <==> d.d2 > 0.0) && (a.y < y <==> d.d2 < 0.0)
  {
    var d := Derivatives(p, x, y);
    var len := Length(hypot, d.d1, d.d2);
    OffsetSign(d.d1, len, xMax);
    OffsetSign(d.d2, len, yMax);
  }

  /**
   * Where species 1 is present and has a positive growth rate, its arrow
   * points right exactly below its zero-growth isocline `n1 + a12 n2 == K1`.
   */
  lemma ArrowRightBelowIsocline1(p: Params, xMax: real, yMax: real, hypot: (real, real) -> real, x: real, y: real)
    requires IsHypot(hypot) && xMax > 0.0 && yMax > 0.0 && p.r1 > 0.0 && x > 0.0
    ensures ArrowFrom(p, xMax, yMax, hypot, x, y).x > x <==> x + p.a12 * y < Floored(p.k1)
  {
    ArrowDirection(p, xMax, yMax, hypot, x, y);
    Species1Rate(p, x, y);
  }

  /**
   * Where species 2 is present and has a positive growth rate, its arrow
   * points up exactly below its zero-growth isocline `n2 + a21 n1 == K2`.
   */
  lemma ArrowUpBelowIsocline2(p: Params, xMax: real, yMax: real, hypot: (real, real) -> real, x: real, y: real)
    requires IsHypot(hypot) && xMax > 0.0 && yMax > 0.0 && p.r2 > 0.0 && y > 0.0
    ensures ArrowFrom(p, xMax, yMax, hypot, x, y).y > y <==> y + p.a21 * x < Floored(p.k2)
  {
    ArrowDirection(p, xMax, yMax, hypot, x, y);
    Species2Rate(p, x, y);
  }

  /** Components `u1, u2` of a vector of norm `len`, scaled by `1 / len`, have unit norm. */
  lemma UnitScaled(u1: real, u2: real, len: real, d1: real, d2: real)
    requires len > 0.0 && d1 == u1 * len && d2 == u2 * len
    requires len * len == d1 * d1 + d2 * d2
    ensures u1 * u1 + u2 * u2 == 1.0
  {
    var e := u1 * u1 + u2 * u2 - 1.0;
    assert d1 * d1 == (u1 * u1) * len * len;
    assert d2 * d2 == (u2 * u2) * len * len;
    assert e * len * len == 0.0;
    MulPositiveSign(e * len, len);
    MulPositiveSign(e, len);
  }

  /** The squared Euclidean length of `(u1, u2)`. */
  function SquaredNorm(u1: real, u2: real): real
  {
    u1 * u1 + u2 * u2
  }

  /** `(d1 / len, d2 / len)` has unit length when `len` is the norm of `(d1, d2)`. */
  lemma UnitComponents(d1: real, d2: real, len: real)
    requires len > 0.0 && len * len == d1 * d1 + d2 * d2
    ensures SquaredNorm(d1 / len, d2 / len) == 1.0
  {
    UnitScaled(d1 / len, d2 / len, len, d1, d2);
  }

  /**
   * With the Euclidean `hypot`, every arrow away from an equilibrium has
   * the same length once each component is divided by its axis' share
   * `extent * scale`: the field shows direction only.
   */
  lemma ArrowsHaveUnitLength(p: Params, xMax: real, yMax: real, hypot: (real, real) -> real, x: real, y: real)
    requires IsEuclidean(hypot) && xMax > 0.0 && yMax > 0.0
    requires Derivatives(p, x, y) != Rates(0.0, 0.0)
    ensures var a := ArrowFrom(p, xMax, yMax, hypot, x, y);
            SquaredNorm((a.x - x) / (xMax * Scale), (a.y - y) / (yMax * Scale)) == 1.0
  {
    var d := Derivatives(p, x, y);
    var h := hypot(d.d1, d.d2);
    assert h > 0.0 && h * h == d.d1 * d.d1 + d.d2 * d.d2;
    var len := Length(hypot, d.d1, d.d2);
    assert len == h;
    UnitComponents(d.d1, d.d2, len);
    OffsetQuotient(d.d1, len, xMax);
    OffsetQuotient(d.d2, len, yMax);
  }

  /** Dividing an offset by its axis share gives back `d / len`. */
  lemma OffsetQuotient(d: real, len: real, extent: real)
    requires len != 0.0 && extent > 0.0
    ensures Offset(d, len, extent) / (extent * Scale) == d / len
  {
    var u := d / len;
    var s := extent * Scale;
    assert u * extent * Scale == u * s;
    assert u * s / s == u;
  }
}
