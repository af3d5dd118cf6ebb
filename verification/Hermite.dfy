/**
 The cubic Hermite a span is played with, and when it is shape-preserving.
 Arithmetic is over the reals.
 */
module Hermite {

  /** Value at fraction `s` of a span of length `h` from `y0` to `y1` with end tangents `d0` and `d1`. */
  function Cubic(y0: real, y1: real, h: real, d0: real, d1: real, s: real): real {
    (2.0 * s * s * s - 3.0 * s * s + 1.0) * y0
    + (s * s * s - 2.0 * s * s + s) * h * d0
    + (3.0 * s * s - 2.0 * s * s * s) * y1
    + (s * s * s - s * s) * h * d1
  }

  ghost predicate Monotone(y0: real, y1: real, h: real, d0: real, d1: real) {
    forall a, b {:trigger Cubic(y0, y1, h, d0, d1, a), Cubic(y0, y1, h, d0, d1, b)} | 0.0 <= a <= b <= 1.0 ::
      if y0 <= y1 then Cubic(y0, y1, h, d0, d1, a) <= Cubic(y0, y1, h, d0, d1, b)
      else Cubic(y0, y1, h, d0, d1, a) >= Cubic(y0, y1, h, d0, d1, b)
  }

  /** The curve never leaves the interval between the span's two values. */
  ghost predicate StaysBetween(y0: real, y1: real, h: real, d0: real, d1: real) {
    forall s | 0.0 <= s <= 1.0 ::
      var y := Cubic(y0, y1, h, d0, d1, s); if y0 <= y1 then y0 <= y <= y1 else y1 <= y <= y0
  }

  function Abs(x: real): real { if x < 0.0 then -x else x }

  /** Both tangents are at most 1.5 times the chord. */
  predicate Capped(y0: real, y1: real, h: real, d0: real, d1: real) {
    h * Abs(d0) <= 1.5 * Abs(y1 - y0) && h * Abs(d1) <= 1.5 * Abs(y1 - y0)
  }

  /** Neither tangent points against the direction of travel. */
  predicate Along(y0: real, y1: real, d0: real, d1: real) {
    if y0 < y1 then d0 >= 0.0 && d1 >= 0.0
    else if y1 < y0 then d0 <= 0.0 && d1 <= 0.0
    else d0 == 0.0 && d1 == 0.0
  }

  function Square(x: real): real { x * x }

  /** Tangents, in units of the chord, with which the unit shape rises throughout. */
  predicate RisingRegion(p: real, q: real) {
    p >= 0.0 && q >= 0.0 && (p + q <= 3.0 || Square(p + q - 3.0) <= p * q)
  }

  /** Tangents, in units of the chord, with which the unit shape stays between 0 and 1. */
  predicate InsideRegion(p: real, q: real) {
    Above(p, q) && Above(q, p)
  }

  predicate Above(p: real, q: real) {
    p >= 0.0 && (q <= 3.0 || Square(q - 3.0) <= 4.0 * p)
  }

  /** A tangent in units of the chord. */
  function Units(y0: real, y1: real, h: real, d: real): real
    requires y0 != y1
  {
    h * d / (y1 - y0)
  }

  predicate RisingSpan(y0: real, y1: real, h: real, d0: real, d1: real) {
    if y0 == y1 then d0 == 0.0 && d1 == 0.0 else RisingRegion(Units(y0, y1, h, d0), Units(y0, y1, h, d1))
  }

  predicate InsideSpan(y0: real, y1: real, h: real, d0: real, d1: real) {
    if y0 == y1 then d0 == 0.0 && d1 == 0.0 else InsideRegion(Units(y0, y1, h, d0), Units(y0, y1, h, d1))
  }

  // ---- arithmetic -------------------------------------------------------------------

  /** A product to be reasoned about by name. */
  function Times(x: real, y: real): real { x * y }

  lemma Product(x: real, y: real)
    requires x >= 0.0 && y >= 0.0
    ensures x * y >= 0.0
  {
  }

  lemma PositiveProduct(x: real, y: real)
    requires x > 0.0 && y > 0.0
    ensures x * y > 0.0
  {
  }

  lemma ZeroProduct(h: real, d: real)
    requires h > 0.0 && h * Abs(d) <= 0.0
    ensures d == 0.0
  {
    if d != 0.0 {
      PositiveProduct(h, Abs(d));
    }
  }

  lemma ZeroFactor(h: real, x: real)
    requires h > 0.0 && h * x == 0.0
    ensures x == 0.0
  {
    assert h * -x == -(h * x);
    if x != 0.0 { PositiveProduct(h, Abs(x)); }
  }

  lemma ScaledAbs(h: real, d: real)
    requires h > 0.0
    ensures Abs(h * d) == h * Abs(d)
    ensures d >= 0.0 ==> h * d >= 0.0
    ensures d <= 0.0 ==> h * d <= 0.0
  {
    if d > 0.0 {
      PositiveProduct(h, d);
    } else if d < 0.0 {
      PositiveProduct(h, -d);
      assert h * -d == -(h * d);
    }
  }

  lemma Away(D: real, e: real)
    requires D != 0.0 && e < 0.0
    ensures D > 0.0 ==> D * e < 0.0
    ensures D < 0.0 ==> D * e > 0.0
  {
    PositiveProduct(Abs(D), -e);
    assert D * -e == -(D * e);
  }

  lemma SquareNonNegative(x: real)
    ensures Square(x) >= 0.0
  {
    if x >= 0.0 { Product(x, x); } else { Product(-x, -x); assert (-x) * (-x) == x * x; }
  }

  // ---- quadratic forms on the quadrant -------------------------------------------------

  function Form(a: real, b: real, c: real, t: real, s: real): real {
    a * Square(t) + b * (t * s) + c * Square(s)
  }

  /** The form is nowhere negative where neither argument is. */
  predicate Definite(a: real, b: real, c: real) {
    a >= 0.0 && c >= 0.0 && (b >= 0.0 || Square(b) <= 4.0 * (a * c))
  }

  lemma CompleteSquare(a: real, b: real, c: real, t: real, s: real)
    ensures 4.0 * c * Form(a, b, c, t, s) == Square(2.0 * c * s + b * t) + (4.0 * (a * c) - Square(b)) * Square(t)
  {
    var x, y := 2.0 * c * s, b * t;
    assert Square(x + y) == x * x + 2.0 * (x * y) + y * y;
    assert x * x == 4.0 * c * (c * Square(s));
    assert 2.0 * (x * y) == 4.0 * c * (b * (t * s));
    assert y * y == Square(b) * Square(t);
    assert (4.0 * (a * c) - Square(b)) * Square(t) == 4.0 * c * (a * Square(t)) - Square(b) * Square(t);
  }

  lemma DefiniteForm(a: real, b: real, c: real, t: real, s: real)
    requires Definite(a, b, c) && t >= 0.0 && s >= 0.0
    ensures Form(a, b, c, t, s) >= 0.0
  {
    hide Square;
    SquareNonNegative(t);
    SquareNonNegative(s);
    Product(t, s);
    if b >= 0.0 {
      Product(a, Square(t));
      Product(b, t * s);
      Product(c, Square(s));
    } else {
      NonzeroSquare(b);
      assert c == 0.0 ==> a * c == 0.0;
      if c != 0.0 {
        CompleteSquare(a, b, c, t, s);
        SquareNonNegative(2.0 * c * s + b * t);
        Product(4.0 * (a * c) - Square(b), Square(t));
        if Form(a, b, c, t, s) < 0.0 {
          Away(4.0 * c, Form(a, b, c, t, s));
        }
      }
    }
  }

  lemma NonzeroSquare(b: real)
    requires b != 0.0
    ensures Square(b) > 0.0
  {
    if b > 0.0 {
      SquareOver(b, b / 2.0);
    } else {
      SquareOver(-b, -b / 2.0);
      NegatedSquare(b);
    }
  }

  lemma SquareOver(b: real, k: real)
    requires 0.0 < k < b
    ensures Square(b) > 0.0
  {
    PositiveProduct(b, k);
    PositiveProduct(b, b - k);
    assert b * (b - k) == Square(b) - b * k;
  }

  lemma NegatedSquare(b: real)
    ensures Square(-b) == Square(b)
  {
  }

  lemma Homogeneous(a: real, b: real, c: real, t: real, s: real, k: real)
    requires k != 0.0
    ensures Form(a, b, c, t, s) == Square(k) * Form(a, b, c, t / k, s / k)
  {
    var u, v := t / k, s / k;
    assert u * k == t && v * k == s;
    assert Square(t) == Square(k) * Square(u);
    assert Square(s) == Square(k) * Square(v);
    assert t * s == Square(k) * (u * v);
    Distribute3(Square(k), a, Square(u), b, u * v, c, Square(v));
  }

  lemma Distribute3(k: real, a: real, x: real, b: real, y: real, c: real, z: real)
    ensures a * (k * x) + b * (k * y) + c * (k * z) == k * (a * x + b * y + c * z)
  {
    assert a * (k * x) == k * (a * x);
    assert b * (k * y) == k * (b * y);
    assert c * (k * z) == k * (c * z);
  }

  /** A direction in which a form that is not definite is negative. */
  lemma NegativeDirection(a: real, b: real, c: real) returns (t: real, s: real)
    requires !Definite(a, b, c)
    ensures t >= 0.0 && s >= 0.0 && t + s > 0.0 && Form(a, b, c, t, s) < 0.0
  {
    if a < 0.0 {
      t, s := 1.0, 0.0;
    } else if c < 0.0 {
      t, s := 0.0, 1.0;
    } else if c > 0.0 {
      t, s := 2.0 * c, -b;
      SteepForm(a, b, c);
    } else if a > 0.0 {
      t, s := -b, 2.0 * a;
      SteepForm(c, b, a);
      assert Form(a, b, c, t, s) == Form(c, b, a, s, t);
    } else {
      t, s := 1.0, 1.0;
    }
  }

  lemma SteepForm(a: real, b: real, c: real)
    requires c > 0.0 && Square(b) > 4.0 * (a * c)
    ensures Form(a, b, c, 2.0 * c, -b) < 0.0
  {
    var r := 4.0 * (a * c) - Square(b);
    assert a * Square(2.0 * c) == c * (4.0 * (a * c));
    assert b * (2.0 * c * -b) == c * (-2.0 * Square(b));
    assert c * Square(-b) == c * Square(b);
    assert c * (4.0 * (a * c)) + c * (-2.0 * Square(b)) + c * Square(b) == c * r;
    Away(c, r);
  }

  // ---- the unit shape -----------------------------------------------------------

  /** Progress along the span, with tangents in units of the chord. */
  function Shape(p: real, q: real, s: real): real {
    3.0 * s * s - 2.0 * s * s * s + p * (s * s * s - 2.0 * s * s + s) + q * (s * s * s - s * s)
  }

  lemma CubicIsShape(y0: real, y1: real, h: real, d0: real, d1: real, p: real, q: real, s: real)
    requires h * d0 == p * (y1 - y0) && h * d1 == q * (y1 - y0)
    ensures Cubic(y0, y1, h, d0, d1, s) == y0 + (y1 - y0) * Shape(p, q, s)
  {
    var u, v := s * s * s - 2.0 * s * s + s, s * s * s - s * s;
    assert u * h * d0 == u * (p * (y1 - y0));
    assert v * h * d1 == v * (q * (y1 - y0));
  }

  /** Read from the other end, the shape is the shape with its tangents exchanged. */
  lemma ShapeMirror(p: real, q: real, s: real)
    ensures Shape(p, q, 1.0 - s) == 1.0 - Shape(q, p, s)
  {
    var r := 1.0 - s;
    assert r * r == 1.0 - 2.0 * s + s * s;
    assert r * r * r == 1.0 - 3.0 * s + 3.0 * (s * s) - s * s * s;
    assert p * (r * r * r - 2.0 * (r * r) + r) == -(p * (s * s * s - s * s));
    assert q * (r * r * r - r * r) == -(q * (s * s * s - 2.0 * (s * s) + s));
  }

  /** The slope of the chord of Shape between `a` and `b`. */
  function Rise(p: real, q: real, a: real, b: real): real {
    var u, w := a + b, a * a + a * b + b * b;
    3.0 * u - 2.0 * w + p * (1.0 - 2.0 * u + w) + q * (w - u)
  }

  lemma PowersRise(a: real, b: real)
    ensures b * b - a * a == (b - a) * (a + b)
    ensures b * b * b - a * a * a == (b - a) * (a * a + a * b + b * b)
  {
  }

  lemma ShapeRise(p: real, q: real, a: real, b: real)
    ensures Shape(p, q, b) - Shape(p, q, a) == (b - a) * Rise(p, q, a, b)
  {
    hide Shape, Rise;
    PowersRise(a, b);
    ShapeDifference(p, q, a, b);
    Collect(p, q, b - a, a + b, a * a + a * b + b * b, b * b - a * a, b * b * b - a * a * a);
    RiseValue(p, q, a, b);
  }

  lemma RiseValue(p: real, q: real, a: real, b: real)
    ensures var u, w := a + b, a * a + a * b + b * b;
            Rise(p, q, a, b) == 3.0 * u - 2.0 * w + p * (1.0 - 2.0 * u + w) + q * (w - u)
  {
  }

  lemma ShapeDifference(p: real, q: real, a: real, b: real)
    ensures var s2, s3 := b * b - a * a, b * b * b - a * a * a;
            Shape(p, q, b) - Shape(p, q, a) == 3.0 * s2 - 2.0 * s3 + p * (s3 - 2.0 * s2 + (b - a)) + q * (s3 - s2)
  {
    var a2, a3, b2, b3 := a * a, a * a * a, b * b, b * b * b;
    assert p * (b3 - 2.0 * b2 + b) - p * (a3 - 2.0 * a2 + a) == p * ((b3 - a3) - 2.0 * (b2 - a2) + (b - a));
    assert q * (b3 - b2) - q * (a3 - a2) == q * ((b3 - a3) - (b2 - a2));
  }

  lemma Collect(p: real, q: real, k: real, u: real, w: real, s2: real, s3: real)
    requires s2 == k * u && s3 == k * w
    ensures 3.0 * s2 - 2.0 * s3 + p * (s3 - 2.0 * s2 + k) + q * (s3 - s2)
         == k * (3.0 * u - 2.0 * w + p * (1.0 - 2.0 * u + w) + q * (w - u))
  {
    assert s3 - 2.0 * s2 + k == k * (1.0 - 2.0 * u + w);
    assert p * (k * (1.0 - 2.0 * u + w)) == k * (p * (1.0 - 2.0 * u + w));
    assert s3 - s2 == k * (w - u);
    assert q * (k * (w - u)) == k * (q * (w - u));
  }

  lemma RestSquared(s: real)
    ensures (1.0 - s) * (1.0 - s) == 1.0 - 2.0 * s + s * s
  {
  }

  /** From the start, the chord's slope is a quadratic form in what is left and what is done. */
  lemma RiseFromStart(p: real, q: real, s: real)
    ensures Rise(p, q, 0.0, s) == Form(p, 3.0 - q, 1.0, 1.0 - s, s)
  {
    var t := 1.0 - s;
    RestSquared(s);
    assert t * s == s - s * s;
    assert (3.0 - q) * (s - s * s) == 3.0 * (s - s * s) + q * (s * s - s);
  }

  /** So is the slope of the curve itself. */
  lemma RiseAtPoint(p: real, q: real, s: real)
    ensures Rise(p, q, s, s) == Form(p, 6.0 - 2.0 * (p + q), q, 1.0 - s, s)
  {
    var t := 1.0 - s;
    RestSquared(s);
    var r := s - s * s;
    assert t * s == r;
    assert (6.0 - 2.0 * (p + q)) * r == 6.0 * r - 2.0 * (p * r) - 2.0 * (q * r);
    assert p * (1.0 - 2.0 * (s + s) + (s * s + s * s + s * s)) == p * (t * t) - 2.0 * (p * r);
    assert q * ((s * s + s * s + s * s) - (s + s)) == q * (s * s) - 2.0 * (q * r);
  }

  /** The chord's slope is the mean that Simpson's rule gives of the curve's own. */
  lemma RiseIsMean(p: real, q: real, a: real, b: real)
    ensures var m := (a + b) / 2.0;
            6.0 * Rise(p, q, a, b) == Rise(p, q, a, a) + 4.0 * Rise(p, q, m, m) + Rise(p, q, b, b)
  {
    var m := (a + b) / 2.0;
    var u, w := a + b, a * a + a * b + b * b;
    var wa, wb, wm := a * a + a * a + a * a, b * b + b * b + b * b, m * m + m * m + m * m;
    assert 4.0 * (m * m) == a * a + 2.0 * (a * b) + b * b;
    assert wa + 4.0 * wm + wb == 6.0 * w;
    assert p * (1.0 - 2.0 * (a + a) + wa) + 4.0 * (p * (1.0 - 2.0 * (m + m) + wm)) + p * (1.0 - 2.0 * (b + b) + wb)
        == p * (6.0 * (1.0 - 2.0 * u + w));
    assert q * (wa - (a + a)) + 4.0 * (q * (wm - (m + m))) + q * (wb - (b + b)) == q * (6.0 * (w - u));
  }

  // ---- where the shape rises ---------------------------------------------------------

  lemma RisingIsDefinite(p: real, q: real)
    ensures RisingRegion(p, q) <==> Definite(p, 6.0 - 2.0 * (p + q), q)
  {
    var r := p + q - 3.0;
    assert Square(6.0 - 2.0 * (p + q)) == 4.0 * Square(r);
  }

  lemma RisingRises(p: real, q: real, a: real, b: real)
    requires RisingRegion(p, q) && 0.0 <= a <= b <= 1.0
    ensures Shape(p, q, a) <= Shape(p, q, b)
  {
    hide Shape, Rise, Form, RisingRegion, Definite;
    RisingIsDefinite(p, q);
    PointRises(p, q, a);
    PointRises(p, q, b);
    PointRises(p, q, (a + b) / 2.0);
    RiseIsMean(p, q, a, b);
    ShapeRise(p, q, a, b);
    Product(b - a, Rise(p, q, a, b));
  }

  lemma PointRises(p: real, q: real, s: real)
    requires Definite(p, 6.0 - 2.0 * (p + q), q) && 0.0 <= s <= 1.0
    ensures Rise(p, q, s, s) >= 0.0
  {
    hide Rise, Form, Definite;
    RiseAtPoint(p, q, s);
    DefiniteForm(p, 6.0 - 2.0 * (p + q), q, 1.0 - s, s);
  }

  lemma LinearChange(p: real, q: real, u: real, w: real, du: real, dw: real)
    ensures 3.0 * (u + du) - 2.0 * (w + dw) + p * (1.0 - 2.0 * (u + du) + (w + dw)) + q * ((w + dw) - (u + du))
         == (3.0 * u - 2.0 * w + p * (1.0 - 2.0 * u + w) + q * (w - u)) + (3.0 * du - 2.0 * dw + p * (dw - 2.0 * du) + q * (dw - du))
  {
    assert p * (1.0 - 2.0 * (u + du) + (w + dw)) == p * (1.0 - 2.0 * u + w) + p * (dw - 2.0 * du);
    assert q * ((w + dw) - (u + du)) == q * (w - u) + q * (dw - du);
  }

  lemma FactorChange(p: real, q: real, e: real, k: real, dw: real)
    requires dw == e * k
    ensures 3.0 * e - 2.0 * dw + p * (dw - 2.0 * e) + q * (dw - e) == e * (3.0 - 2.0 * k + p * (k - 2.0) + q * (k - 1.0))
  {
    assert dw - 2.0 * e == e * (k - 2.0);
    assert dw - e == e * (k - 1.0);
    assert p * (e * (k - 2.0)) == e * (p * (k - 2.0));
    assert q * (e * (k - 1.0)) == e * (q * (k - 1.0));
  }

  lemma SquaresChange(a: real, b: real)
    ensures a * a + a * b + b * b == (a * a + a * a + a * a) + (b - a) * (2.0 * a + b)
  {
  }

  /** How far the chord's slope is from the slope at its start. */
  lemma RiseChange(p: real, q: real, a: real, b: real)
    ensures Rise(p, q, a, b) == Rise(p, q, a, a) + Times(b - a, Change(p, q, a, b))
  {
    hide Rise, Change, Times;
    var e, k := b - a, 2.0 * a + b;
    var w0, dw := a * a + a * a + a * a, e * k;
    SquaresChange(a, b);
    RiseValue(p, q, a, b);
    RiseValue(p, q, a, a);
    LinearChange(p, q, a + a, w0, e, dw);
    FactorChange(p, q, e, k, dw);
    ChangeValue(p, q, a, b);
  }

  lemma ChangeValue(p: real, q: real, a: real, b: real)
    ensures var k := 2.0 * a + b;
            Times(b - a, Change(p, q, a, b)) == (b - a) * (3.0 - 2.0 * k + p * (k - 2.0) + q * (k - 1.0))
  {
  }

  function Change(p: real, q: real, a: real, b: real): real {
    var k := 2.0 * a + b;
    3.0 - 2.0 * k + p * (k - 2.0) + q * (k - 1.0)
  }

  lemma ChangeBound(p: real, q: real, a: real, b: real)
    requires 0.0 <= a <= 1.0 && 0.0 <= b <= 1.0
    ensures Abs(Change(p, q, a, b)) <= 3.0 + 2.0 * Abs(p) + 2.0 * Abs(q)
  {
    hide Change, Times, Abs;
    var k := 2.0 * a + b;
    var x, y := Times(p, k - 2.0), Times(q, k - 1.0);
    ScaledBound(p, k - 2.0, 2.0);
    ScaledBound(q, k - 1.0, 2.0);
    Twice(Abs(p));
    Twice(Abs(q));
    ChangeParts(p, q, a, b, k, x, y);
    Triangle(Change(p, q, a, b), k, x, y, Abs(p), Abs(q));
  }

  lemma ChangeParts(p: real, q: real, a: real, b: real, k: real, x: real, y: real)
    requires k == 2.0 * a + b && x == Times(p, k - 2.0) && y == Times(q, k - 1.0)
    ensures Change(p, q, a, b) == 3.0 - 2.0 * k + x + y
  {
  }

  lemma Twice(x: real)
    ensures Times(2.0, x) == 2.0 * x
  {
  }

  lemma Triangle(c: real, k: real, x: real, y: real, m: real, n: real)
    requires c == 3.0 - 2.0 * k + x + y && 0.0 <= k <= 3.0 && Abs(x) <= 2.0 * m && Abs(y) <= 2.0 * n
    ensures Abs(c) <= 3.0 + 2.0 * m + 2.0 * n
  {
  }

  lemma ScaledBound(p: real, x: real, m: real)
    requires -m <= x <= m
    ensures Abs(Times(p, x)) <= Times(m, Abs(p))
  {
    Product(Abs(p), m - x);
    Product(Abs(p), m + x);
    assert Abs(p) * (m - x) == m * Abs(p) - Abs(p) * x;
    assert Abs(p) * (m + x) == m * Abs(p) + Abs(p) * x;
    assert p >= 0.0 ==> Abs(p) * x == p * x;
    assert p < 0.0 ==> Abs(p) * x == -(p * x);
  }

  /** Where the curve itself falls, some chord from there falls too. */
  lemma FallsNear(p: real, q: real, a: real) returns (b: real)
    requires 0.0 <= a <= 1.0 && Rise(p, q, a, a) < 0.0
    ensures 0.0 <= b <= 1.0 && b != a && Rise(p, q, a, b) < 0.0
  {
    hide Rise, Change, Times;
    var e, bound := -Rise(p, q, a, a), 3.0 + 2.0 * Abs(p) + 2.0 * Abs(q);
    var step := e / (2.0 * (bound + e));
    SmallStep(e, bound);
    b := if a <= 0.5 then a + step else a - step;
    RiseChange(p, q, a, b);
    ChangeBound(p, q, a, b);
    ScaledBound(b - a, Change(p, q, a, b), bound);
  }

  lemma PositiveQuotient(x: real, k: real)
    requires x > 0.0 && k > 0.0
    ensures x / k > 0.0
  {
  }

  lemma QuotientIs(x: real, k: real, z: real)
    requires k > 0.0 && z * k == x
    ensures x / k == z
  {
    var d := x / k - z;
    assert x / k * k == x;
    assert k * d == x / k * k - z * k;
    ZeroFactor(k, d);
  }

  lemma SmallStep(e: real, bound: real)
    requires e > 0.0 && bound > 0.0
    ensures var step := e / (2.0 * (bound + e)); 0.0 < step <= 0.5 && Times(bound, step) < e
  {
    var k := 2.0 * (bound + e);
    var step := e / k;
    assert step * k == e;
    PositiveQuotient(e, k);
    assert (step - 0.5) * k == step * k - 0.5 * k;
    if step > 0.5 { PositiveProduct(step - 0.5, k); }
    PositiveProduct(step, e);
    PositiveProduct(step, bound);
    assert step * k == 2.0 * (step * bound) + 2.0 * (step * e);
  }

  /** Outside the rising region the shape falls somewhere. */
  lemma FallsOutside(p: real, q: real) returns (a: real, b: real)
    requires !RisingRegion(p, q)
    ensures 0.0 <= a < b <= 1.0 && Shape(p, q, a) > Shape(p, q, b)
  {
    hide Shape, Rise, Form, RisingRegion, Definite;
    RisingIsDefinite(p, q);
    var t, s := NegativeDirection(p, 6.0 - 2.0 * (p + q), q);
    var at := NegativePoint(p, 6.0 - 2.0 * (p + q), q, t, s);
    RiseAtPoint(p, q, at);
    var other := FallsNear(p, q, at);
    if at < other {
      a, b := at, other;
    } else {
      a, b := other, at;
      RiseSymmetric(p, q, a, b);
    }
    ShapeRise(p, q, a, b);
    Away(b - a, Rise(p, q, a, b));
  }

  lemma RiseSymmetric(p: real, q: real, a: real, b: real)
    ensures Rise(p, q, a, b) == Rise(p, q, b, a)
  {
    assert a * b == b * a;
  }

  /** A direction scaled to a point of the unit interval. */
  lemma NegativePoint(a: real, b: real, c: real, t: real, s: real) returns (at: real)
    requires t >= 0.0 && s >= 0.0 && t + s > 0.0 && Form(a, b, c, t, s) < 0.0
    ensures 0.0 <= at <= 1.0 && Form(a, b, c, 1.0 - at, at) < 0.0
    ensures s > 0.0 ==> at > 0.0
  {
    hide Form;
    var k := t + s;
    at := s / k;
    assert at * k == s;
    assert (1.0 - at) * k == k - at * k;
    QuotientIs(t, k, 1.0 - at);
    if at < 0.0 { Away(k, at); }
    assert (at - 1.0) * k == at * k - k;
    if at > 1.0 { PositiveProduct(at - 1.0, k); }
    Homogeneous(a, b, c, t, s, k);
    SquareNonNegative(k);
    if Form(a, b, c, 1.0 - at, at) >= 0.0 { Product(Square(k), Form(a, b, c, 1.0 - at, at)); }
  }

  // ---- where the shape stays inside -----------------------------------------------------

  lemma AboveIsDefinite(p: real, q: real)
    ensures Above(p, q) <==> Definite(p, 3.0 - q, 1.0)
  {
    assert Square(3.0 - q) == Square(q - 3.0);
  }

  lemma AboveStays(p: real, q: real, s: real)
    requires Above(p, q) && 0.0 <= s <= 1.0
    ensures Shape(p, q, s) >= 0.0
  {
    hide Shape, Rise, Form, Above, Definite;
    AboveIsDefinite(p, q);
    DefiniteForm(p, 3.0 - q, 1.0, 1.0 - s, s);
    RiseFromStart(p, q, s);
    FromStart(p, q, s);
    Product(s, Rise(p, q, 0.0, s));
  }

  lemma FromStart(p: real, q: real, s: real)
    ensures Shape(p, q, s) == s * Rise(p, q, 0.0, s)
  {
    hide Rise;
    ShapeRise(p, q, 0.0, s);
    assert Shape(p, q, 0.0) == 0.0;
  }

  /** Unless it is above, the shape dips below its start. */
  lemma DipsBelow(p: real, q: real) returns (s: real)
    requires !Above(p, q)
    ensures 0.0 <= s <= 1.0 && Shape(p, q, s) < 0.0
  {
    hide Shape, Rise, Form;
    if p < 0.0 {
      RiseValue(p, q, 0.0, 0.0);
      s := FallsNear(p, q, 0.0);
    } else {
      NegatedSquare(q - 3.0);
      SteepForm(p, 3.0 - q, 1.0);
      s := NegativePoint(p, 3.0 - q, 1.0, 2.0, q - 3.0);
      RiseFromStart(p, q, s);
    }
    FromStart(p, q, s);
    Away(s, Rise(p, q, 0.0, s));
  }

  // ---- spans ---------------------------------------------------------------------------------

  lemma UnitsTimes(y0: real, y1: real, h: real, d: real)
    requires y0 != y1
    ensures h * d == Units(y0, y1, h, d) * (y1 - y0)
  {
  }

  lemma CubicEnds(y0: real, y1: real, h: real, d0: real, d1: real)
    ensures Cubic(y0, y1, h, d0, d1, 0.0) == y0
    ensures Cubic(y0, y1, h, d0, d1, 1.0) == y1
  {
  }

  lemma MonotoneStays(y0: real, y1: real, h: real, d0: real, d1: real)
    requires Monotone(y0, y1, h, d0, d1)
    ensures StaysBetween(y0, y1, h, d0, d1)
  {
    hide Cubic;
    CubicEnds(y0, y1, h, d0, d1);
  }

  /** The curve between two points of a span, in terms of the unit shape. */
  lemma CubicStep(y0: real, y1: real, h: real, d0: real, d1: real, a: real, b: real)
    requires y0 != y1
    ensures var p, q := Units(y0, y1, h, d0), Units(y0, y1, h, d1);
            var ya, yb := Cubic(y0, y1, h, d0, d1, a), Cubic(y0, y1, h, d0, d1, b);
            && (Shape(p, q, a) <= Shape(p, q, b) <==> if y0 <= y1 then ya <= yb else ya >= yb)
  {
    hide Cubic, Shape, Units;
    var p, q, D := Units(y0, y1, h, d0), Units(y0, y1, h, d1), y1 - y0;
    UnitsTimes(y0, y1, h, d0);
    UnitsTimes(y0, y1, h, d1);
    CubicIsShape(y0, y1, h, d0, d1, p, q, a);
    CubicIsShape(y0, y1, h, d0, d1, p, q, b);
    var x := Shape(p, q, a) - Shape(p, q, b);
    assert D * Shape(p, q, a) - D * Shape(p, q, b) == D * x;
    if x < 0.0 {
      Away(D, x);
    } else if x > 0.0 {
      Away(D, -x);
      assert D * -x == -(D * x);
    }
  }

  /** The exact tangents with which a span of any length and direction is monotone. */
  lemma MonotoneExactly(y0: real, y1: real, h: real, d0: real, d1: real)
    requires h > 0.0
    ensures Monotone(y0, y1, h, d0, d1) <==> RisingSpan(y0, y1, h, d0, d1)
  {
    hide Cubic, Shape, Units, RisingRegion;
    if y0 == y1 {
      FlatSpan(y0, h, d0, d1);
      if Monotone(y0, y1, h, d0, d1) {
        MonotoneStays(y0, y1, h, d0, d1);
      }
    } else {
      var p, q := Units(y0, y1, h, d0), Units(y0, y1, h, d1);
      if RisingRegion(p, q) {
        forall a, b | 0.0 <= a <= b <= 1.0
          ensures if y0 <= y1 then Cubic(y0, y1, h, d0, d1, a) <= Cubic(y0, y1, h, d0, d1, b)
                  else Cubic(y0, y1, h, d0, d1, a) >= Cubic(y0, y1, h, d0, d1, b)
        {
          RisingRises(p, q, a, b);
          CubicStep(y0, y1, h, d0, d1, a, b);
        }
      } else {
        var a, b := FallsOutside(p, q);
        CubicStep(y0, y1, h, d0, d1, a, b);
        var ya, yb := Cubic(y0, y1, h, d0, d1, a), Cubic(y0, y1, h, d0, d1, b);
        assert !(if y0 <= y1 then ya <= yb else ya >= yb);
      }
    }
  }

  lemma ShapeEnds(p: real, q: real)
    ensures Shape(p, q, 0.0) == 0.0 && Shape(p, q, 1.0) == 1.0
  {
  }

  /** A point of the span is between the span's values exactly when the shape is between 0 and 1 there. */
  lemma PointInside(y0: real, y1: real, h: real, d0: real, d1: real, s: real)
    requires y0 != y1
    ensures var p, q, y := Units(y0, y1, h, d0), Units(y0, y1, h, d1), Cubic(y0, y1, h, d0, d1, s);
            0.0 <= Shape(p, q, s) <= 1.0 <==> if y0 <= y1 then y0 <= y <= y1 else y1 <= y <= y0
  {
    hide Cubic, Shape, Units;
    ShapeEnds(Units(y0, y1, h, d0), Units(y0, y1, h, d1));
    CubicEnds(y0, y1, h, d0, d1);
    CubicStep(y0, y1, h, d0, d1, 0.0, s);
    CubicStep(y0, y1, h, d0, d1, s, 1.0);
  }

  /** The exact tangents with which a span of any length and direction stays between its values. */
  lemma StaysExactly(y0: real, y1: real, h: real, d0: real, d1: real)
    requires h > 0.0
    ensures StaysBetween(y0, y1, h, d0, d1) <==> InsideSpan(y0, y1, h, d0, d1)
  {
    hide Cubic, Shape, Units, Above;
    if y0 == y1 {
      FlatSpan(y0, h, d0, d1);
    } else {
      var p, q := Units(y0, y1, h, d0), Units(y0, y1, h, d1);
      if InsideRegion(p, q) {
        forall s | 0.0 <= s <= 1.0
          ensures var y := Cubic(y0, y1, h, d0, d1, s); if y0 <= y1 then y0 <= y <= y1 else y1 <= y <= y0
        {
          AboveStays(p, q, s);
          AboveStays(q, p, 1.0 - s);
          ShapeMirror(q, p, s);
          PointInside(y0, y1, h, d0, d1, s);
        }
      } else {
        var s: real;
        if !Above(p, q) {
          s := DipsBelow(p, q);
        } else {
          var r := DipsBelow(q, p);
          ShapeMirror(p, q, r);
          s := 1.0 - r;
        }
        PointInside(y0, y1, h, d0, d1, s);
        var y := Cubic(y0, y1, h, d0, d1, s);
        assert !(if y0 <= y1 then y0 <= y <= y1 else y1 <= y <= y0);
      }
    }
  }

  /** Capped tangents are at most 1.5 in units of the chord, and positive exactly along it. */
  lemma CappedUnits(y0: real, y1: real, h: real, d: real)
    requires y0 != y1 && h > 0.0 && h * Abs(d) <= 1.5 * Abs(y1 - y0)
    ensures var p := Units(y0, y1, h, d); p <= 1.5 && (p >= 0.0 <==> if y0 < y1 then d >= 0.0 else d <= 0.0)
  {
    hide Units;
    var p, D := Units(y0, y1, h, d), y1 - y0;
    UnitsTimes(y0, y1, h, d);
    ScaledAbs(h, d);
    if d != 0.0 { PositiveProduct(h, Abs(d)); }
    var x := h * d;
    assert Abs(x) <= 1.5 * Abs(D);
    RatioSign(x, D, p);
    AtMost(Abs(x), Abs(p), 1.5, Abs(D));
  }

  lemma RatioSign(x: real, D: real, p: real)
    requires D != 0.0 && x == p * D
    ensures p >= 0.0 <==> if D > 0.0 then x >= 0.0 else x <= 0.0
    ensures Abs(x) == Abs(p) * Abs(D)
  {
    var m, n := Abs(D), Abs(p);
    assert x == if (D > 0.0) == (p >= 0.0) then n * m else -(n * m);
    if n > 0.0 { PositiveProduct(n, m); }
  }

  lemma AtMost(z: real, x: real, y: real, k: real)
    requires k > 0.0 && z == x * k && z <= y * k
    ensures x <= y
  {
    assert (x - y) * k == x * k - y * k;
    if x > y { PositiveProduct(x - y, k); }
  }

  /**
   For a span whose tangents are capped at 1.5 chords, three things are one: the
   curve is monotone, it never leaves the interval between the span's values,
   and neither tangent opposes the chord.
   */
  lemma ShapePreservedExactly(y0: real, y1: real, h: real, d0: real, d1: real)
    requires h > 0.0 && Capped(y0, y1, h, d0, d1)
    ensures Monotone(y0, y1, h, d0, d1) <==> Along(y0, y1, d0, d1)
    ensures StaysBetween(y0, y1, h, d0, d1) <==> Along(y0, y1, d0, d1)
  {
    hide Monotone, StaysBetween, Units, Square;
    MonotoneExactly(y0, y1, h, d0, d1);
    StaysExactly(y0, y1, h, d0, d1);
    if y0 != y1 {
      CappedUnits(y0, y1, h, d0);
      CappedUnits(y0, y1, h, d1);
    }
  }

  /** On a span whose two values coincide, only resting tangents keep the curve there. */
  lemma FlatSpan(y: real, h: real, d0: real, d1: real)
    requires h > 0.0
    ensures StaysBetween(y, y, h, d0, d1) <==> d0 == 0.0 && d1 == 0.0
    ensures d0 == 0.0 && d1 == 0.0 ==> Monotone(y, y, h, d0, d1)
  {
    var third, two := 1.0 / 3.0, 2.0 / 3.0;
    FlatPoint(y, h, d0, d1);
    if StaysBetween(y, y, h, d0, d1) {
      assert Cubic(y, y, h, d0, d1, third) == y && Cubic(y, y, h, d0, d1, two) == y;
      ZeroFactor(h, 2.0 * d0 - d1);
      ZeroFactor(h, d0 - 2.0 * d1);
    }
    if d0 == 0.0 && d1 == 0.0 {
      forall s | 0.0 <= s <= 1.0 ensures Cubic(y, y, h, 0.0, 0.0, s) == y {
      }
    }
  }

  lemma FlatPoint(y: real, h: real, d0: real, d1: real)
    ensures Cubic(y, y, h, d0, d1, 1.0 / 3.0) == y + (h * (2.0 * d0 - d1)) * (2.0 / 27.0)
    ensures Cubic(y, y, h, d0, d1, 2.0 / 3.0) == y + (h * (d0 - 2.0 * d1)) * (2.0 / 27.0)
  {
  }
}
