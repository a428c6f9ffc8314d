/** The two-point linear interpolant `interp.interp1d(x, y)` that the editor
    builds from the lower and upper (height, value) pairs, with scipy's
    default `bounds_error`: asking for a height outside the two abscissae is
    an error, not an extrapolation. */
module Interpolation {
  import opened Outcomes

  datatype Point = Point(x: real, y: real)

  function Min(a: real, b: real): (m: real) { if a <= b then a else b }
  function Max(a: real, b: real): (m: real) { if a <= b then b else a }

  /** The value at `x` of the straight line through `p` and `q`. */
  function Line(p: Point, q: Point, x: real): (y: real)
    requires p.x != q.x
  {
    p.y + (q.y - p.y) * (x - p.x) / (q.x - p.x)
  }

  /** `x` lies between the two abscissae, ends included: interp1d accepts it. */
  predicate InRange(p: Point, q: Point, x: real) {
    Min(p.x, q.x) <= x <= Max(p.x, q.x)
  }

  /** Evaluation of the interpolant at every height of `xs`.  scipy checks
      the whole array first, below-range before above-range, and raises
      before computing anything.  With two equal abscissae the interpolant
      is never evaluated here, because the caller's selection is then
      empty. */
  function Interp1d(p: Point, q: Point, xs: seq<real>): (r: Result<seq<real>>)
    requires p.x != q.x || |xs| == 0
    ensures r.Ok? <==> forall k :: 0 <= k < |xs| ==> InRange(p, q, xs[k])
    ensures r == Err(BelowInterpolationRange) <==> exists k :: 0 <= k < |xs| && xs[k] < Min(p.x, q.x)
    ensures r.Err? ==> r.fault in {BelowInterpolationRange, AboveInterpolationRange}
    ensures r.Ok? ==> |r.value| == |xs|
    ensures r.Ok? ==> forall k :: 0 <= k < |xs| ==> r.value[k] == Line(p, q, xs[k])
  {
    if exists k :: 0 <= k < |xs| && xs[k] < Min(p.x, q.x) then Err(BelowInterpolationRange)
    else if exists k :: 0 <= k < |xs| && xs[k] > Max(p.x, q.x) then Err(AboveInterpolationRange)
    else Ok(seq(|xs|, k requires 0 <= k < |xs| => Line(p, q, xs[k])))
  }

  /** The interpolant passes through both of its defining points. */
  lemma LineThroughEnds(p: Point, q: Point)
    requires p.x != q.x
    ensures Line(p, q, p.x) == p.y
    ensures Line(p, q, q.x) == q.y
  {
  }

  /** The order of the two points does not matter (scipy sorts them). */
  lemma LineSymmetric(p: Point, q: Point, x: real)
    requires p.x != q.x
    ensures Line(p, q, x) == Line(q, p, x)
  {
  }

  lemma FractionInUnit(n: real, d: real)
    requires 0.0 <= n <= d
    requires d > 0.0
    ensures 0.0 <= n / d <= 1.0
  {
    var t := n / d;
    assert t * d == n;
    assert (1.0 - t) * d == d - n;
  }

  lemma MulNonneg(u: real, t: real)
    requires 0.0 <= u && 0.0 <= t
    ensures 0.0 <= u * t
  {
  }

  /** A point of the segment from `a` to `b` lies between them. */
  lemma ConvexBetween(a: real, b: real, t: real)
    requires 0.0 <= t <= 1.0
    ensures Min(a, b) <= a + (b - a) * t <= Max(a, b)
  {
    assert (b - a) * t + (b - a) * (1.0 - t) == b - a;
    if a <= b {
      MulNonneg(b - a, t);
      MulNonneg(b - a, 1.0 - t);
    } else {
      MulNonneg(a - b, t);
      MulNonneg(a - b, 1.0 - t);
      assert (a - b) * t == -((b - a) * t);
      assert (a - b) * (1.0 - t) == -((b - a) * (1.0 - t));
    }
  }

  /** Inside its range the interpolant never overshoots: its value lies
      between the two ordinates. */
  lemma LineBetween(p: Point, q: Point, x: real)
    requires p.x != q.x
    requires InRange(p, q, x)
    ensures Min(p.y, q.y) <= Line(p, q, x) <= Max(p.y, q.y)
  {
    var d := q.x - p.x;
    var t := (x - p.x) / d;
    if d > 0.0 {
      FractionInUnit(x - p.x, d);
    } else {
      assert t == (p.x - x) / (-d);
      FractionInUnit(p.x - x, -d);
    }
    assert Line(p, q, x) == p.y + (q.y - p.y) * t;
    ConvexBetween(p.y, q.y, t);
    assert Line(p, q, x) == (1.0 - t) * p.y + t * q.y;
  }
}
