/** What an x-axis stores when the slider callbacks call `set_xlim(v0, v1)`.
    matplotlib passes the pair through its locator's `nonsingular` guard:
    a pair too close together to draw is widened by 5% of each end's
    magnitude (or replaced by (-0.05, 0.05) near zero). The stored pair is
    what a later `get_xlim` reads back. Any other pair is stored as given,
    reversed or not. */
module AxisLimits {
  import opened Nearest
  import opened Interpolation

  /** The widening factor of `nonsingular` as the default locator calls it. */
  const Expander: real := 0.05
  /** Two limits at most this far apart, relative to their size, count as identical. */
  const Tiny: real := 1e-15
  /** Limits smaller in magnitude than this count as zero: `(1e6 / Tiny)`
      times the smallest normal float64. */
  const NearZero: real := 2.2250738585072014e-287

  /** The pair is one matplotlib will not draw as given. */
  predicate Singular(v0: real, v1: real) {
    var m := Max(Abs(v0), Abs(v1));
    m < NearZero || Abs(v1 - v0) <= m * Tiny
  }

  /** The limits stored by `set_xlim(v0, v1)`. */
  function StoredLimits(v0: real, v1: real): (r: (real, real))
    ensures !Singular(v0, v1) ==> r == (v0, v1)
    ensures !Singular(r.0, r.1)
    ensures v0 <= v1 <==> r.0 <= r.1
    ensures Min(r.0, r.1) <= Min(v0, v1) && Max(v0, v1) <= Max(r.0, r.1)
  {
    if !Singular(v0, v1) then (v0, v1)
    else
      var lo, hi := Min(v0, v1), Max(v0, v1);
      var w := if Max(Abs(v0), Abs(v1)) < NearZero then (-Expander, Expander)
               else Widen(lo, hi);
      if v0 > v1 then (w.1, w.0) else w
  }

  /** `nonsingular`'s widening of an ordered pair away from zero: each end
      moves out by `Expander` times its own magnitude. */
  function Widen(lo: real, hi: real): (w: (real, real))
    requires lo <= hi
    requires NearZero <= Max(Abs(lo), Abs(hi))
    ensures w.0 <= lo && hi <= w.1
    ensures !Singular(w.0, w.1)
  {
    var w := (lo - Expander * Abs(lo), hi + Expander * Abs(hi));
    WidenNonsingular(lo, hi);
    w
  }

  /** The widened pair is wide enough: its gap grows by a twentieth of the
      larger magnitude while that magnitude grows by at most 5%. */
  lemma WidenNonsingular(lo: real, hi: real)
    requires lo <= hi
    requires NearZero <= Max(Abs(lo), Abs(hi))
    ensures var w0, w1 := lo - Expander * Abs(lo), hi + Expander * Abs(hi);
      !Singular(w0, w1)
  {
    var m := Max(Abs(lo), Abs(hi));
    var w0, w1 := lo - Expander * Abs(lo), hi + Expander * Abs(hi);
    var m' := Max(Abs(w0), Abs(w1));
    assert Abs(w0) == if lo < 0.0 then 1.05 * Abs(lo) else 0.95 * Abs(lo);
    assert Abs(w1) == if hi < 0.0 then 0.95 * Abs(hi) else 1.05 * Abs(hi);
    assert NearZero <= m <= m' <= 1.05 * m;
    assert w1 - w0 >= 0.05 * m;
  }

  /** Setting the stored limits again changes nothing. */
  lemma StoredLimitsIdempotent(v0: real, v1: real)
    ensures var r := StoredLimits(v0, v1);
      StoredLimits(r.0, r.1) == r
  {
  }

  /** Identical limits are always widened: the stored pair lies strictly
      around the requested point. */
  lemma IdenticalLimitsWiden(v: real)
    ensures var r := StoredLimits(v, v);
      r.0 < v < r.1
  {
    assert Singular(v, v);
    if Max(Abs(v), Abs(v)) >= NearZero {
      assert v != 0.0;
      assert StoredLimits(v, v) == Widen(v, v);
    }
  }
}
