/** CSS-style cubic bezier easing (section 2.2 of CSS Easing Functions Level 1), in exact reals. */
module Bezier {
  import opened RealFacts

  const EPSILON := 0.0000001
  const NEWTON_ITERATIONS := 8
  const BISECTION_ITERATIONS := 40

  /** One axis of a cubic bezier anchored at 0 and 1. */
  function Component(t: real, p1: real, p2: real): real {
    var inv := 1.0 - t;
    3.0 * inv * inv * t * p1 + 3.0 * inv * t * t * p2 + t * t * t
  }

  function Slope(t: real, p1: real, p2: real): real {
    var inv := 1.0 - t;
    3.0 * inv * inv * p1 + 6.0 * inv * t * (p2 - p1) + 3.0 * t * t * (1.0 - p2)
  }

  function Abs(x: real): (r: real)
    ensures r >= 0.0 && (r == x || r == -x)
  {
    if x < 0.0 then -x else x
  }

  /** The point a share `t` of the way from `a` to `b`. */
  function Between(a: real, b: real, t: real): real {
    a + (b - a) * t
  }

  /** The curve as section 2.2 draws it: de Casteljau's construction on the points 0, `p1`, `p2` and 1. */
  lemma ComponentIsCasteljau(t: real, p1: real, p2: real)
    ensures var a, b, c := Between(0.0, p1, t), Between(p1, p2, t), Between(p2, 1.0, t);
            Component(t, p1, p2) == Between(Between(a, b, t), Between(b, c, t), t)
  {
    var a, b, c := Between(0.0, p1, t), Between(p1, p2, t), Between(p2, 1.0, t);
    ComponentIsPoly(t, p1, p2);
    BetweenTwice(t, 0.0, p1, p2);
    BetweenTwice(t, p1, p2, 1.0);
    var d, e := Between(a, b, t), Between(b, c, t);
    Cubed(t, p1, p2, d, e);
  }

  /** Two steps of the construction, in powers of `t`. */
  lemma BetweenTwice(t: real, x: real, y: real, z: real)
    ensures Between(Between(x, y, t), Between(y, z, t), t) == x + 2.0 * (y - x) * t + (z - 2.0 * y + x) * (t * t)
  {
  }

  lemma Cubed(t: real, p1: real, p2: real, d: real, e: real)
    requires d == 2.0 * p1 * t + (p2 - 2.0 * p1) * (t * t)
    requires e == p1 + 2.0 * (p2 - p1) * t + (1.0 - 2.0 * p2 + p1) * (t * t)
    ensures Between(d, e, t) == Poly(t, p1, p2)
  {
  }

  // -- the curve in powers of t --

  /** The same curve with its coefficients collected. */
  function Poly(t: real, p1: real, p2: real): real {
    3.0 * p1 * t + (3.0 * p2 - 6.0 * p1) * (t * t) + (1.0 + 3.0 * p1 - 3.0 * p2) * (t * t * t)
  }

  lemma ComponentIsPoly(t: real, p1: real, p2: real)
    ensures Component(t, p1, p2) == Poly(t, p1, p2)
  {
    var s, c := t * t, t * t * t;
    assert (1.0 - t) * (1.0 - t) == 1.0 - 2.0 * t + s;
    assert (1.0 - t) * (1.0 - t) * t == t - 2.0 * s + c;
    assert (1.0 - t) * t * t == s - c;
    var u, v := t - 2.0 * s + c, s - c;
    assert 3.0 * (1.0 - t) * (1.0 - t) * t * p1 == 3.0 * (u * p1);
    assert 3.0 * (1.0 - t) * t * t * p2 == 3.0 * (v * p2);
    assert u * p1 == t * p1 - 2.0 * (s * p1) + c * p1;
    assert v * p2 == s * p2 - c * p2;
  }

  /** Rise between two points, divided by their distance. */
  function Quotient(a: real, b: real, p1: real, p2: real): real {
    3.0 * p1 + (3.0 * p2 - 6.0 * p1) * (a + b) + (1.0 + 3.0 * p1 - 3.0 * p2) * (a * a + a * b + b * b)
  }

  lemma PolyRise(a: real, b: real, p1: real, p2: real)
    ensures Poly(b, p1, p2) - Poly(a, p1, p2) == (b - a) * Quotient(a, b, p1, p2)
  {
    var k2, k3 := 3.0 * p2 - 6.0 * p1, 1.0 + 3.0 * p1 - 3.0 * p2;
    var d := b - a;
    var q2, q3 := a + b, a * a + a * b + b * b;
    assert b * b - a * a == d * q2;
    assert b * b * b - a * a * a == d * q3 by {
      assert d * q3 == b * (a * a) + b * (a * b) + b * (b * b) - a * (a * a) - a * (a * b) - a * (b * b);
    }
    assert k2 * (b * b) - k2 * (a * a) == k2 * (d * q2);
    assert k3 * (b * b * b) - k3 * (a * a * a) == k3 * (d * q3);
    assert k2 * (d * q2) == d * (k2 * q2);
    assert k3 * (d * q3) == d * (k3 * q3);
    assert 3.0 * p1 * b - 3.0 * p1 * a == d * (3.0 * p1);
    assert d * Quotient(a, b, p1, p2) == d * (3.0 * p1) + d * (k2 * q2) + d * (k3 * q3);
  }

  /** The slope function is the derivative: the rise over a step `h` is `h` times the slope, up to `h` squared. */
  lemma SlopeIsDerivative(t: real, h: real, p1: real, p2: real)
    ensures Component(t + h, p1, p2) ==
              Component(t, p1, p2) + h * Slope(t, p1, p2) + (h * h) * Curvature(t, h, p1, p2)
  {
    ComponentIsPoly(t, p1, p2);
    ComponentIsPoly(t + h, p1, p2);
    SlopeIsQuotient(t, p1, p2);
    PolyStep(t, h, p1, p2);
  }

  lemma PolyStep(t: real, h: real, p1: real, p2: real)
    ensures Poly(t + h, p1, p2) ==
              Poly(t, p1, p2) + h * Quotient(t, t, p1, p2) + (h * h) * Curvature(t, h, p1, p2)
  {
    PolyRise(t, t + h, p1, p2);
    QuotientStep(t, h, p1, p2);
    StepProduct(h, Quotient(t, t, p1, p2), Curvature(t, h, p1, p2));
    assert t + h - t == h;
  }

  function Curvature(t: real, h: real, p1: real, p2: real): real {
    (3.0 * p2 - 6.0 * p1) + (1.0 + 3.0 * p1 - 3.0 * p2) * (3.0 * t + h)
  }

  lemma StepProduct(h: real, q0: real, extra: real)
    ensures h * (q0 + h * extra) == h * q0 + (h * h) * extra
  {
    assert h * (q0 + h * extra) == h * q0 + h * (h * extra);
  }

  lemma QuotientStep(t: real, h: real, p1: real, p2: real)
    ensures Quotient(t, t + h, p1, p2) == Quotient(t, t, p1, p2) + h * Curvature(t, h, p1, p2)
  {
    var k2, k3 := 3.0 * p2 - 6.0 * p1, 1.0 + 3.0 * p1 - 3.0 * p2;
    var s, w := t * t, 3.0 * t + h;
    assert t * t + t * (t + h) + (t + h) * (t + h) == 3.0 * s + h * w by {
      assert t * (t + h) == s + h * t;
      assert (t + h) * (t + h) == s + 2.0 * (h * t) + h * h;
      assert h * w == 3.0 * (h * t) + h * h;
    }
    assert k3 * (3.0 * s + h * w) == k3 * (s + s + s) + k3 * (h * w);
    assert k3 * (h * w) == h * (k3 * w);
    assert k2 * (t + (t + h)) == k2 * (t + t) + h * k2;
    assert h * (k2 + k3 * w) == h * k2 + h * (k3 * w);
  }

  lemma SlopeIsQuotient(t: real, p1: real, p2: real)
    ensures Slope(t, p1, p2) == Quotient(t, t, p1, p2)
  {
    var s := t * t;
    assert (1.0 - t) * (1.0 - t) == 1.0 - 2.0 * t + s;
    assert (1.0 - t) * t == t - s;
    var u, v := 1.0 - 2.0 * t + s, t - s;
    assert 3.0 * (1.0 - t) * (1.0 - t) * p1 == 3.0 * (u * p1);
    assert 6.0 * (1.0 - t) * t * (p2 - p1) == 6.0 * (v * (p2 - p1));
    assert 3.0 * t * t * (1.0 - p2) == 3.0 * (s * (1.0 - p2));
    assert u * p1 == p1 - 2.0 * (t * p1) + s * p1;
    assert v * (p2 - p1) == t * p2 - t * p1 - s * p2 + s * p1;
    assert s * (1.0 - p2) == s - s * p2;
    assert (3.0 * p2 - 6.0 * p1) * (t + t) == 6.0 * (t * p2) - 12.0 * (t * p1);
    assert (1.0 + 3.0 * p1 - 3.0 * p2) * (s + s + s) == 3.0 * s + 9.0 * (s * p1) - 9.0 * (s * p2);
  }

  /** With control points in [0, 1] the curve never climbs faster than 3: the quotient is affine in the
      control points, and at most 3 at the four corners. */
  lemma QuotientBound(a: real, b: real, p1: real, p2: real)
    requires 0.0 <= a <= 1.0 && 0.0 <= b <= 1.0 && 0.0 <= p1 <= 1.0 && 0.0 <= p2 <= 1.0
    ensures Quotient(a, b, p1, p2) <= 3.0
  {
    var s, q := a + b, a * a + a * b + b * b;
    Corners(a, b, a * a, a * b, b * b);
    BoundFromCorners(s, q, p1, p2);
  }

  lemma Corners(a: real, b: real, aa: real, ab: real, bb: real)
    requires 0.0 <= a <= 1.0 && 0.0 <= b <= 1.0 && aa == a * a && ab == a * b && bb == b * b
    ensures var s, q := a + b, aa + ab + bb;
            q <= 3.0 && 3.0 - 6.0 * s + 4.0 * q <= 3.0 && 3.0 * s - 2.0 * q <= 3.0 && 3.0 - 3.0 * s + q <= 3.0
  {
    UnitProducts(a, b, aa, ab, bb);
    Corner01(a, b, aa, ab, bb);
    CornersOf(a, b, aa, ab, bb);
  }

  lemma CornersOf(a: real, b: real, aa: real, ab: real, bb: real)
    requires 0.0 <= a <= 1.0 && 0.0 <= b <= 1.0 && aa <= a && bb <= b && ab <= a && ab <= b
    ensures var s, q := a + b, aa + ab + bb;
            q <= 3.0 && 3.0 - 6.0 * s + 4.0 * q <= 3.0 && 3.0 - 3.0 * s + q <= 3.0
  {
  }

  lemma BoundFromCorners(s: real, q: real, p1: real, p2: real)
    requires q <= 3.0 && 3.0 - 6.0 * s + 4.0 * q <= 3.0 && 3.0 * s - 2.0 * q <= 3.0 && 3.0 - 3.0 * s + q <= 3.0
    requires 0.0 <= p1 <= 1.0 && 0.0 <= p2 <= 1.0
    ensures 3.0 * p1 + (3.0 * p2 - 6.0 * p1) * s + (1.0 + 3.0 * p1 - 3.0 * p2) * q <= 3.0
  {
    Affine(s, q, p1, p2);
    var f10, f01 := 3.0 - 6.0 * s + 4.0 * q, 3.0 * s - 2.0 * q;
    assert f10 + f01 - q == 3.0 - 3.0 * s + q;
    AffineBound(q, f10, f01, p1, p2);
  }

  lemma Affine(s: real, q: real, p1: real, p2: real)
    ensures 3.0 * p1 + (3.0 * p2 - 6.0 * p1) * s + (1.0 + 3.0 * p1 - 3.0 * p2) * q ==
              q + p1 * ((3.0 - 6.0 * s + 4.0 * q) - q) + p2 * ((3.0 * s - 2.0 * q) - q)
  {
    assert (3.0 * p2 - 6.0 * p1) * s == 3.0 * (p2 * s) - 6.0 * (p1 * s);
    assert (1.0 + 3.0 * p1 - 3.0 * p2) * q == q + 3.0 * (p1 * q) - 3.0 * (p2 * q);
    assert p1 * ((3.0 - 6.0 * s + 4.0 * q) - q) == 3.0 * p1 - 6.0 * (p1 * s) + 3.0 * (p1 * q);
    assert p2 * ((3.0 * s - 2.0 * q) - q) == 3.0 * (p2 * s) - 3.0 * (p2 * q);
  }

  lemma AffineBound(f00: real, f10: real, f01: real, p1: real, p2: real)
    requires f00 <= 3.0 && f10 <= 3.0 && f01 <= 3.0 && f10 + f01 - f00 <= 3.0
    requires 0.0 <= p1 <= 1.0 && 0.0 <= p2 <= 1.0
    ensures f00 + p1 * (f10 - f00) + p2 * (f01 - f00) <= 3.0
  {
    var rise := p1 * (f10 - f00);
    Convex(f00, f10, p1);
    Convex(f01, f10 + f01 - f00, p1);
    assert f10 + f01 - f00 - f01 == f10 - f00;
    Convex(f00 + rise, f01 + rise, p2);
    assert (f01 + rise) - (f00 + rise) == f01 - f00;
  }

  lemma Convex(x: real, y: real, p: real)
    requires x <= 3.0 && y <= 3.0 && 0.0 <= p <= 1.0
    ensures x + p * (y - x) <= 3.0
  {
    ProductSign(1.0 - p, 3.0 - x);
    ProductSign(p, 3.0 - y);
    assert (1.0 - p) * (3.0 - x) == 3.0 - x - 3.0 * p + p * x;
    assert p * (3.0 - y) == 3.0 * p - p * y;
    assert p * (y - x) == p * y - p * x;
  }

  lemma UnitProducts(a: real, b: real, aa: real, ab: real, bb: real)
    requires 0.0 <= a <= 1.0 && 0.0 <= b <= 1.0 && aa == a * a && ab == a * b && bb == b * b
    ensures aa <= a && bb <= b && ab <= a && ab <= b
  {
    ProductSign(a, 1.0 - a);
    ProductSign(b, 1.0 - b);
    ProductSign(a, 1.0 - b);
    ProductSign(b, 1.0 - a);
    assert a * (1.0 - a) == a - aa && b * (1.0 - b) == b - bb;
    assert a * (1.0 - b) == a - ab && b * (1.0 - a) == b - ab;
  }

  lemma Corner01(a: real, b: real, aa: real, ab: real, bb: real)
    requires aa == a * a && ab == a * b && bb == b * b
    ensures 3.0 * (a + b) - 2.0 * (aa + ab + bb) <= 3.0
  {
    Square(a - b);
    Square(a + b - 1.0);
    assert (a - b) * (a - b) == aa - 2.0 * ab + bb;
    assert (a + b - 1.0) * (a + b - 1.0) == aa + 2.0 * ab + bb - 2.0 * a - 2.0 * b + 1.0;
  }

  lemma Square(x: real)
    ensures x * x >= 0.0
  {
    if x >= 0.0 { ProductSign(x, x); } else { ProductSign(-x, -x); assert (-x) * (-x) == x * x; }
  }

  /** Between two points of [0, 1] the horizontal position moves at most three times as far. */
  lemma ComponentLipschitz(a: real, b: real, p1: real, p2: real)
    requires 0.0 <= a <= b <= 1.0 && 0.0 <= p1 <= 1.0 && 0.0 <= p2 <= 1.0
    ensures Component(b, p1, p2) - Component(a, p1, p2) <= 3.0 * (b - a)
  {
    ComponentIsPoly(a, p1, p2);
    ComponentIsPoly(b, p1, p2);
    PolyLipschitz(a, b, p1, p2);
  }

  lemma PolyLipschitz(a: real, b: real, p1: real, p2: real)
    requires 0.0 <= a <= b <= 1.0 && 0.0 <= p1 <= 1.0 && 0.0 <= p2 <= 1.0
    ensures Poly(b, p1, p2) - Poly(a, p1, p2) <= 3.0 * (b - a)
  {
    PolyRise(a, b, p1, p2);
    QuotientBound(a, b, p1, p2);
    ScaledBound(b - a, Quotient(a, b, p1, p2));
  }

  lemma ScaledBound(d: real, q: real)
    requires 0.0 <= d && q <= 3.0
    ensures d * q <= 3.0 * d
  {
    ProductSign(d, 3.0 - q);
    assert d * (3.0 - q) == 3.0 * d - d * q;
  }

  // -- solving for the parameter --

  /** 1 halved `n` times. */
  function Halved(n: nat): real {
    if n == 0 then 1.0 else Halved(n - 1) / 2.0
  }

  lemma HalvedValues()
    ensures Halved(23) >= EPSILON && Halved(24) < EPSILON
  {
    assert Halved(8) == 1.0 / 256.0;
    assert Halved(16) == 1.0 / 65536.0;
    assert Halved(23) == 1.0 / 8388608.0;
    assert Halved(24) == 1.0 / 16777216.0;
  }

  lemma {:induction false} HalvedDecreases(m: nat, n: nat)
    requires m <= n
    ensures 0.0 < Halved(n) <= Halved(m)
  {
    if m < n { HalvedDecreases(m, n - 1); } else { HalvedPositive(n); }
  }

  lemma {:induction false} HalvedPositive(n: nat)
    ensures Halved(n) > 0.0
  {
    if n > 0 { HalvedPositive(n - 1); }
  }

  datatype How = Newton | Bisection(steps: nat)

  /** `next` is where the tangent of the curve at `t` reaches `x`. */
  ghost predicate TangentReaches(t: real, next: real, x: real, x1: real, x2: real) {
    Component(t, x1, x2) + Slope(t, x1, x2) * (next - t) == x
  }

  lemma NewtonStep(t: real, next: real, x: real, x1: real, x2: real)
    requires Slope(t, x1, x2) != 0.0 && next == t - (Component(t, x1, x2) - x) / Slope(t, x1, x2)
    ensures TangentReaches(t, next, x, x1, x2)
  {
    var error, slope := Component(t, x1, x2) - x, Slope(t, x1, x2);
    assert slope * (error / slope) == error;
  }

  /** The guesses of Newton's method: from the linear one on, each is where the last one's tangent led. */
  ghost predicate Guesses(ts: seq<real>, x: real, x1: real, x2: real) {
    |ts| > 0 && ts[0] == x && forall i :: 0 < i < |ts| ==> TangentReaches(ts[i - 1], ts[i], x, x1, x2)
  }

  ghost predicate Close(t: real, x: real, x1: real, x2: real) {
    -0.0000001 < Component(t, x1, x2) - x < 0.0000001
  }

  /** Newton's method answers with its first close guess; it gives up on a flat slope or after its iterations. */
  method NewtonSolve(x: real, x1: real, x2: real) returns (t: real, found: bool, ghost ts: seq<real>)
    ensures Guesses(ts, x, x1, x2) && t == ts[|ts| - 1] && |ts| <= 9
    ensures found ==> |ts| <= 8 && Close(t, x, x1, x2)
    ensures !found ==> |ts| == 9 || -0.000001 < Slope(t, x1, x2) < 0.000001
    ensures forall i :: 0 <= i < |ts| - 1 ==> !Close(ts[i], x, x1, x2)
  {
    t := x;
    ts := [x];
    for i := 0 to NEWTON_ITERATIONS
      invariant |ts| == i + 1 && Guesses(ts, x, x1, x2) && t == ts[i]
      invariant forall j :: 0 <= j < i ==> !Close(ts[j], x, x1, x2)
    {
      var error := Component(t, x1, x2) - x;
      if Abs(error) < EPSILON {
        return t, true, ts;
      }
      var slope := Slope(t, x1, x2);
      if Abs(slope) < 0.000001 {
        return t, false, ts;
      }
      var next := t - error / slope;
      NewtonStep(t, next, x, x1, x2);
      t := next;
      ts := ts + [next];
    }
    return t, false, ts;
  }

  /** Bisection on [0, 1]: the bracket halves until it is narrower than epsilon, which takes 24 of the
      40 iterations allowed. */
  method Bisect(x: real, x1: real, x2: real) returns (t: real, steps: nat)
    requires 0.0 <= x1 <= 1.0 && 0.0 <= x2 <= 1.0 && 0.0 < x < 1.0
    ensures 0.0 <= t <= 1.0 && Abs(Component(t, x1, x2) - x) <= 3.0 * EPSILON
    ensures steps == 24 < BISECTION_ITERATIONS
  {
    var lo, hi := 0.0, 1.0;
    t := x;
    steps := 0;
    HalvedValues();
    while steps < BISECTION_ITERATIONS
      invariant steps <= 23 && hi - lo == Halved(steps) && 0.0 <= lo < hi <= 1.0
      invariant Component(lo, x1, x2) < x <= Component(hi, x1, x2)
      decreases BISECTION_ITERATIONS - steps
    {
      HalvedPositive(steps + 1);
      t := (lo + hi) / 2.0;
      if Component(t, x1, x2) < x {
        lo := t;
      } else {
        hi := t;
      }
      steps := steps + 1;
      if hi - lo < EPSILON {
        if steps <= 23 { HalvedDecreases(steps, 23); }
        ComponentLipschitz(lo, hi, x1, x2);
        return;
      }
      if steps == 24 { assert false; }
    }
  }

  method SolveT(x: real, x1: real, x2: real) returns (t: real, how: How)
    requires 0.0 <= x1 <= 1.0 && 0.0 <= x2 <= 1.0 && 0.0 < x < 1.0
    ensures -0.0000003 <= Component(t, x1, x2) - x <= 0.0000003
    ensures how.Bisection? ==> how.steps < BISECTION_ITERATIONS && 0.0 <= t <= 1.0
    ensures how.Newton? ==> Close(t, x, x1, x2)
  {
    var found;
    ghost var ts;
    t, found, ts := NewtonSolve(x, x1, x2);
    if found {
      return t, Newton;
    }
    var steps;
    t, steps := Bisect(x, x1, x2);
    return t, Bisection(steps);
  }

  /** The eased value lies on the curve, above a point within 3e-7 of the progress; the ends are exact,
      and so is the shortcut for control points on the diagonal. */
  method Evaluate(progress: real, x1: real, y1: real, x2: real, y2: real) returns (y: real, ghost t: real)
    requires 0.0 <= x1 <= 1.0 && 0.0 <= x2 <= 1.0
    ensures progress <= 0.0 ==> y == 0.0
    ensures progress >= 1.0 ==> y == 1.0
    ensures 0.0 < progress < 1.0 && !(x1 == y1 && x2 == y2) ==>
              -0.0000003 <= Component(t, x1, x2) - progress <= 0.0000003 && y == Component(t, y1, y2)
    ensures 0.0 < progress < 1.0 && x1 == y1 && x2 == y2 ==>
              y == progress && forall s :: Component(s, x1, x2) == progress ==> y == Component(s, y1, y2)
  {
    t := 0.0;
    if x1 == y1 && x2 == y2 {
      y := if progress < 0.0 then 0.0 else if progress > 1.0 then 1.0 else progress;
      return;
    }
    if progress <= 0.0 {
      return 0.0, 0.0;
    }
    if progress >= 1.0 {
      return 1.0, 1.0;
    }
    var s, how := SolveT(progress, x1, x2);
    return Component(s, y1, y2), s;
  }
}
