/** End-velocity handoff of the segment emitter in clients/mfp/SlopSync.cs, over the reals. */
module Handoff {
  import opened Wire
  import opened Hermite

  datatype Keyframe = Keyframe(pos: real, value: real)

  datatype Interpolation = Stepped | Linear | Spline

  /** Keyframes with strictly increasing positions. */
  predicate Sorted(kf: seq<Keyframe>) {
    forall i, j | 0 <= i < j < |kf| :: kf[i].pos < kf[j].pos
  }

  const CHORD_FACTOR := 1.5
  const MIN_SPACING := 0.000000001
  const MAX_END_VEL := 32.767

  function Dt(kf: seq<Keyframe>, i: nat): real
    requires i + 1 < |kf|
  {
    kf[i + 1].pos - kf[i].pos
  }

  function Dv(kf: seq<Keyframe>, i: nat): real
    requires i + 1 < |kf|
  {
    kf[i + 1].value - kf[i].value
  }

  function Min(a: real, b: real): real { if a <= b then a else b }

  /** Cap the tangent at knot `i + 1` by the smaller of the two chords that meet there. */
  function LimitHandoffSlope(kf: seq<Keyframe>, i: nat, slope: real): real
    requires i + 2 < |kf|
  {
    if !(Dt(kf, i) > MIN_SPACING) || !(Dt(kf, i + 1) > MIN_SPACING) then 0.0
    else
      var mIn, mOut := Abs(Dv(kf, i) / Dt(kf, i)), Abs(Dv(kf, i + 1) / Dt(kf, i + 1));
      var limit := CHORD_FACTOR * Min(mIn, mOut);
      if Abs(slope) <= limit then slope else if slope < 0.0 then -limit else limit
  }

  /** The script's own tangent at the end of span `i`; a spline may fail to give one. */
  function RawSlope(kf: seq<Keyframe>, i: nat, interp: Interpolation, spline: Option<real>): real
    requires i + 1 < |kf|
  {
    if interp == Stepped then 0.0
    else if interp == Spline && spline.Some? then spline.value
    else if Dt(kf, i) > MIN_SPACING then Dv(kf, i) / Dt(kf, i) else 0.0
  }

  /** The setup of one axis: playback speed, ScriptScale, InvertScript, and the axis default. */
  datatype Axis = Axis(speed: real, scale: real, invert: bool, default: real) {
    predicate Valid() { speed > 0.0 && scale > 0.0 }

    function Sign(): real { if invert then -1.0 else 1.0 }
  }

  datatype EndVel = Sentinel | Velocity(v: real)

  function Clamp(x: real, lo: real, hi: real): real { if x < lo then lo else if x > hi then hi else x }

  /** A limited slope as an end velocity: wall-clock units, scaled, turned over, clamped. */
  function WireVelocity(axis: Axis, limited: real): real {
    Clamp(WallSlope(axis, limited), -MAX_END_VEL, MAX_END_VEL)
  }

  function WallSlope(axis: Axis, limited: real): real { limited * axis.speed * axis.scale * axis.Sign() }

  function ComputeEndVel(kf: seq<Keyframe>, gap: nat -> bool, i: nat, slope: real, axis: Axis): EndVel
    requires i + 1 < |kf|
  {
    if i + 2 >= |kf| || gap(i + 1) then Sentinel
    else Velocity(WireVelocity(axis, LimitHandoffSlope(kf, i, slope)))
  }

  /** ScriptScale spreads a value about the axis default. */
  function Scaled(axis: Axis, raw: real): real { axis.default + (raw - axis.default) * axis.scale }

  function TransformValue(axis: Axis, raw: real): real {
    var v := Clamp(Scaled(axis, raw), 0.0, 1.0);
    if axis.invert then 1.0 - v else v
  }

  /** ScriptScale keeps the value inside the travel, so the 0..1 clamp leaves it alone. */
  predicate Unsaturated(axis: Axis, raw: real) {
    0.0 <= Scaled(axis, raw) <= 1.0
  }

  // ---- the limiter ------------------------------------------------------------------

  lemma ChordTimes(dv: real, dt: real, x: real)
    requires dt > 0.0 && x <= 1.5 * Abs(dv / dt)
    ensures dt * x <= 1.5 * Abs(dv)
  {
    var m := dv / dt;
    assert m * dt == dv;
    ScaledAbs(dt, m);
    Product(dt, 1.5 * Abs(m) - x);
    assert dt * (1.5 * Abs(m) - x) == 1.5 * (dt * Abs(m)) - dt * x;
  }

  lemma LimitMagnitude(kf: seq<Keyframe>, i: nat, slope: real)
    requires i + 2 < |kf| && Dt(kf, i) > MIN_SPACING && Dt(kf, i + 1) > MIN_SPACING
    ensures Abs(LimitHandoffSlope(kf, i, slope)) <= 1.5 * Abs(Dv(kf, i) / Dt(kf, i))
    ensures Abs(LimitHandoffSlope(kf, i, slope)) <= 1.5 * Abs(Dv(kf, i + 1) / Dt(kf, i + 1))
  {
  }

  /** The limited tangent respects the cap of the span it ends and of the span it starts. */
  lemma LimitCaps(kf: seq<Keyframe>, i: nat, slope: real)
    requires i + 2 < |kf| && Dt(kf, i) > 0.0 && Dt(kf, i + 1) > 0.0
    ensures Dt(kf, i) * Abs(LimitHandoffSlope(kf, i, slope)) <= 1.5 * Abs(Dv(kf, i))
    ensures Dt(kf, i + 1) * Abs(LimitHandoffSlope(kf, i, slope)) <= 1.5 * Abs(Dv(kf, i + 1))
  {
    hide LimitHandoffSlope, Abs;
    var r := LimitHandoffSlope(kf, i, slope);
    if Dt(kf, i) > MIN_SPACING && Dt(kf, i + 1) > MIN_SPACING {
      LimitMagnitude(kf, i, slope);
      ChordTimes(Dv(kf, i), Dt(kf, i), Abs(r));
      ChordTimes(Dv(kf, i + 1), Dt(kf, i + 1), Abs(r));
    } else {
      DegenerateRests(kf, i, slope);
    }
  }

  /** At a span too short to measure the limiter rests, which fits every cap. */
  lemma DegenerateRests(kf: seq<Keyframe>, i: nat, slope: real)
    requires i + 2 < |kf| && !(Dt(kf, i) > MIN_SPACING && Dt(kf, i + 1) > MIN_SPACING)
    ensures Dt(kf, i) * Abs(LimitHandoffSlope(kf, i, slope)) <= 1.5 * Abs(Dv(kf, i))
    ensures Dt(kf, i + 1) * Abs(LimitHandoffSlope(kf, i, slope)) <= 1.5 * Abs(Dv(kf, i + 1))
  {
    assert LimitHandoffSlope(kf, i, slope) == 0.0;
  }

  /** A knot can carry motion: both spans at it move, and neither is degenerate. */
  predicate Free(kf: seq<Keyframe>, i: nat)
    requires i + 2 < |kf|
  {
    && Dt(kf, i) > MIN_SPACING && Dt(kf, i + 1) > MIN_SPACING
    && Dv(kf, i) != 0.0 && Dv(kf, i + 1) != 0.0
  }

  lemma QuotientNonzero(dv: real, dt: real)
    requires dt > 0.0
    ensures dv == 0.0 <==> dv / dt == 0.0
    ensures dv > 0.0 <==> dv / dt > 0.0
  {
    var m := dv / dt;
    assert m * dt == dv;
    if m > 0.0 { PositiveProduct(m, dt); } else if m < 0.0 { PositiveProduct(-m, dt); assert -m * dt == -(m * dt); }
  }

  /** The limiter never turns a tangent round: it keeps the sign, or rests at a knot that is not free. */
  lemma LimitSign(kf: seq<Keyframe>, i: nat, slope: real)
    requires i + 2 < |kf| && Dt(kf, i) > 0.0 && Dt(kf, i + 1) > 0.0
    ensures var r := LimitHandoffSlope(kf, i, slope);
            && (r > 0.0 <==> slope > 0.0 && Free(kf, i))
            && (r < 0.0 <==> slope < 0.0 && Free(kf, i))
            && Abs(r) <= Abs(slope)
  {
    QuotientNonzero(Dv(kf, i), Dt(kf, i));
    QuotientNonzero(Dv(kf, i + 1), Dt(kf, i + 1));
  }

  lemma ChordAdmits(dv: real, dt: real, x: real)
    requires dt > 0.0 && dt * x <= 1.5 * Abs(dv)
    ensures x <= 1.5 * Abs(dv / dt)
  {
    var m := dv / dt;
    assert m * dt == dv;
    ScaledAbs(dt, m);
    if x > 1.5 * Abs(m) {
      PositiveProduct(dt, x - 1.5 * Abs(m));
    }
  }

  /** Of all the tangents within 1.5 chords of both spans the limiter takes the one nearest to the script's own. */
  lemma LimitNearest(kf: seq<Keyframe>, i: nat, slope: real, v: real)
    requires i + 2 < |kf| && Dt(kf, i) > 0.000000001 && Dt(kf, i + 1) > 0.000000001
    requires Dt(kf, i) * Abs(v) <= 1.5 * Abs(Dv(kf, i)) && Dt(kf, i + 1) * Abs(v) <= 1.5 * Abs(Dv(kf, i + 1))
    ensures Abs(LimitHandoffSlope(kf, i, slope) - slope) <= Abs(v - slope)
  {
    ChordAdmits(Dv(kf, i), Dt(kf, i), Abs(v));
    ChordAdmits(Dv(kf, i + 1), Dt(kf, i + 1), Abs(v));
  }

  // ---- on the wire --------------------------------------------------------------------

  lemma WireVelocityFacts(axis: Axis, limited: real)
    requires axis.Valid()
    ensures Abs(WireVelocity(axis, limited)) <= Abs(limited) * (axis.speed * axis.scale)
    ensures WireVelocity(axis, limited) > 0.0 <==> if axis.invert then limited < 0.0 else limited > 0.0
    ensures WireVelocity(axis, limited) < 0.0 <==> if axis.invert then limited > 0.0 else limited < 0.0
  {
    hide Clamp, WallSlope;
    WallSlopeFacts(axis, limited);
    ClampFacts(WallSlope(axis, limited));
  }

  lemma WallSlopeFacts(axis: Axis, limited: real)
    requires axis.Valid()
    ensures Abs(WallSlope(axis, limited)) == Abs(limited) * (axis.speed * axis.scale)
    ensures WallSlope(axis, limited) > 0.0 <==> if axis.invert then limited < 0.0 else limited > 0.0
    ensures WallSlope(axis, limited) < 0.0 <==> if axis.invert then limited > 0.0 else limited < 0.0
  {
    var k := axis.speed * axis.scale;
    PositiveProduct(axis.speed, axis.scale);
    ScaledAbs(k, limited);
    if limited > 0.0 {
      PositiveProduct(k, limited);
    } else if limited < 0.0 {
      PositiveProduct(k, -limited);
      assert k * -limited == -(k * limited);
    }
    assert WallSlope(axis, limited) == if axis.invert then -(k * limited) else k * limited;
    assert Abs(limited) * k == k * Abs(limited);
  }

  lemma ClampFacts(z: real)
    ensures var w := Clamp(z, -MAX_END_VEL, MAX_END_VEL);
            Abs(w) <= Abs(z) && (w > 0.0 <==> z > 0.0) && (w < 0.0 <==> z < 0.0)
  {
  }

  /** The tangent is the spline's where there is one, none for a stepped script or a span too short, else the chord. */
  lemma TangentIs(kf: seq<Keyframe>, i: nat, interp: Interpolation, spline: Option<real>)
    requires i + 1 < |kf|
    ensures var m := RawSlope(kf, i, interp, spline);
            && (interp == Spline && spline.Some? ==> m == spline.value)
            && (interp == Stepped ==> m == 0.0)
            && (interp == Linear || (interp == Spline && spline.None?) ==>
                  if Dt(kf, i) > 0.000000001 then m * Dt(kf, i) == Dv(kf, i) else m == 0.0)
  {
  }

  /**
   The last span and a span before a gap leave the end free; any other hands over the
   limited tangent per second of wall clock, scaled and turned over with the targets,
   as far as 32.767 allows. A stepped script hands over rest.
   */
  lemma EndVelExactly(kf: seq<Keyframe>, gap: nat -> bool, i: nat, interp: Interpolation, spline: Option<real>, axis: Axis)
    requires i + 1 < |kf|
    ensures var slope := RawSlope(kf, i, interp, spline);
            var r := ComputeEndVel(kf, gap, i, slope, axis);
            && (r.Sentinel? <==> i + 2 == |kf| || gap(i + 1))
            && (r.Velocity? ==>
                  var x := LimitHandoffSlope(kf, i, slope) * axis.speed * axis.scale * (if axis.invert then -1.0 else 1.0);
                  && (-32.767 <= x <= 32.767 ==> r.v == x) && (x > 32.767 ==> r.v == 32.767) && (x < -32.767 ==> r.v == -32.767))
            && (r.Velocity? && interp == Stepped && Sorted(kf) ==> r.v == 0.0)
  {
    hide LimitHandoffSlope;
    if interp == Stepped && Sorted(kf) && i + 2 < |kf| { LimitSign(kf, i, 0.0); }
  }

  /** Targets lie in 0..1, the axis default stays where it is, and InvertScript is a reflection. */
  lemma TargetFacts(axis: Axis, raw: real)
    ensures 0.0 <= TransformValue(axis, raw) <= 1.0
    ensures 0.0 <= axis.default <= 1.0 && !axis.invert ==> TransformValue(axis, axis.default) == axis.default
    ensures TransformValue(axis.(invert := true), raw) == 1.0 - TransformValue(axis.(invert := false), raw)
  {
    assert Scaled(axis.(invert := true), raw) == Scaled(axis.(invert := false), raw);
  }

  lemma WireChord(axis: Axis, a: real, b: real)
    requires Unsaturated(axis, a) && Unsaturated(axis, b)
    ensures TransformValue(axis, b) - TransformValue(axis, a) == axis.Sign() * (axis.scale * (b - a))
  {
    assert (b - axis.default) * axis.scale - (a - axis.default) * axis.scale == axis.scale * (b - a);
  }

  lemma WireCap(axis: Axis, dt: real, dv: real, limited: real)
    requires axis.Valid() && dt > 0.0 && dt * Abs(limited) <= 1.5 * Abs(dv)
    ensures dt / axis.speed * Abs(WireVelocity(axis, limited)) <= 1.5 * Abs(axis.Sign() * (axis.scale * dv))
  {
    hide WireVelocity, Abs;
    WireVelocityFacts(axis, limited);
    PositiveQuotient(dt, axis.speed);
    CapChain(dt / axis.speed, Abs(WireVelocity(axis, limited)), Abs(limited), axis.speed, axis.scale, dt, Abs(dv));
    SignedAbs(axis, dv);
  }

  lemma SignedAbs(axis: Axis, dv: real)
    requires axis.Valid()
    ensures Abs(axis.Sign() * (axis.scale * dv)) == axis.scale * Abs(dv)
  {
    ScaledAbs(axis.scale, dv);
  }

  lemma CapChain(h: real, w: real, l: real, speed: real, scale: real, dt: real, m: real)
    requires h >= 0.0 && scale >= 0.0 && h * speed == dt && w <= l * (speed * scale) && dt * l <= 1.5 * m
    ensures h * w <= 1.5 * (scale * m)
  {
    Ordered(h, w, l * (speed * scale));
    Regroup(h, l, speed, scale, dt);
    Ordered(scale, dt * l, 1.5 * m);
  }

  lemma Ordered(k: real, x: real, y: real)
    requires k >= 0.0 && x <= y
    ensures k * x <= k * y
  {
    Product(k, y - x);
    assert k * (y - x) == k * y - k * x;
  }

  lemma Regroup(h: real, l: real, speed: real, scale: real, dt: real)
    requires h * speed == dt
    ensures h * (l * (speed * scale)) == scale * (dt * l)
  {
    assert h * (l * (speed * scale)) == (h * speed) * (l * scale);
    assert dt * (l * scale) == scale * (dt * l);
  }

  /** A tangent at the knot that opens or closes span `i` runs against the span and is not held at rest. */
  predicate Opposes(kf: seq<Keyframe>, i: nat, knot: nat, slope: real)
    requires i + 1 < |kf| && knot + 2 < |kf|
  {
    Free(kf, knot) && ((Dv(kf, i) > 0.0 && slope < 0.0) || (Dv(kf, i) < 0.0 && slope > 0.0))
  }

  lemma AlongSign(axis: Axis, dv: real, y0: real, y1: real, l0: real, l1: real)
    requires axis.Valid() && y1 - y0 == axis.Sign() * (axis.scale * dv)
    requires dv == 0.0 ==> l0 == 0.0 && l1 == 0.0
    ensures Along(y0, y1, WireVelocity(axis, l0), WireVelocity(axis, l1))
       <==> !(dv > 0.0 && (l0 < 0.0 || l1 < 0.0)) && !(dv < 0.0 && (l0 > 0.0 || l1 > 0.0))
  {
    hide WireVelocity;
    WireVelocityFacts(axis, l0);
    WireVelocityFacts(axis, l1);
    ScaledAbs(axis.scale, dv);
    if dv > 0.0 { PositiveProduct(axis.scale, dv); } else if dv < 0.0 { PositiveProduct(axis.scale, -dv); assert axis.scale * -dv == -(axis.scale * dv); }
  }

  /** The two values of a played span, its length, and the two velocities handed over at its ends. */
  datatype Span = Span(y0: real, y1: real, h: real, v0: real, v1: real)

  function Played(kf: seq<Keyframe>, i: nat, slope0: real, slope1: real, axis: Axis): Span
    requires axis.Valid() && 1 <= i && i + 2 < |kf|
  {
    Span(TransformValue(axis, kf[i].value), TransformValue(axis, kf[i + 1].value), Dt(kf, i) / axis.speed,
         WireVelocity(axis, LimitHandoffSlope(kf, i - 1, slope0)), WireVelocity(axis, LimitHandoffSlope(kf, i, slope1)))
  }

  /**
   The span the device plays from one sent segment to the next, whatever tangents
   the script has, whatever speed, scale and direction, and wherever the 0..1
   clamp touches it: the exact tangents, in units of the chord between the two
   clamped targets, for which it is monotone and for which it stays between them.
   Where the clamp leaves both targets alone the two velocities fit the span's
   cap, and both come down to neither tangent opposing the span.
   */
  lemma WireSpanPreserved(kf: seq<Keyframe>, gap: nat -> bool, i: nat, slope0: real, slope1: real, axis: Axis)
    requires Sorted(kf) && axis.Valid()
    requires 1 <= i && i + 2 < |kf| && !gap(i) && !gap(i + 1)
    ensures var w := Played(kf, i, slope0, slope1, axis);
            && ComputeEndVel(kf, gap, i - 1, slope0, axis) == Velocity(w.v0)
            && ComputeEndVel(kf, gap, i, slope1, axis) == Velocity(w.v1)
            && (Monotone(w.y0, w.y1, w.h, w.v0, w.v1) <==> RisingSpan(w.y0, w.y1, w.h, w.v0, w.v1))
            && (StaysBetween(w.y0, w.y1, w.h, w.v0, w.v1) <==> InsideSpan(w.y0, w.y1, w.h, w.v0, w.v1))
    ensures var w := Played(kf, i, slope0, slope1, axis);
            var kept := !Opposes(kf, i, i - 1, slope0) && !Opposes(kf, i, i, slope1);
            Unsaturated(axis, kf[i].value) && Unsaturated(axis, kf[i + 1].value) ==>
              && Capped(w.y0, w.y1, w.h, w.v0, w.v1)
              && (Monotone(w.y0, w.y1, w.h, w.v0, w.v1) <==> kept)
              && (StaysBetween(w.y0, w.y1, w.h, w.v0, w.v1) <==> kept)
  {
    hide Monotone, StaysBetween, LimitHandoffSlope, TransformValue, WireVelocity, Capped, Unsaturated, RisingSpan, InsideSpan, Opposes;
    var w := Played(kf, i, slope0, slope1, axis);
    PositiveQuotient(Dt(kf, i), axis.speed);
    MonotoneExactly(w.y0, w.y1, w.h, w.v0, w.v1);
    StaysExactly(w.y0, w.y1, w.h, w.v0, w.v1);
    if Unsaturated(axis, kf[i].value) && Unsaturated(axis, kf[i + 1].value) {
      UnclampedSpanPreserved(kf, i, slope0, slope1, axis);
    }
  }

  lemma UnclampedSpanPreserved(kf: seq<Keyframe>, i: nat, slope0: real, slope1: real, axis: Axis)
    requires Sorted(kf) && axis.Valid() && 1 <= i && i + 2 < |kf|
    requires Unsaturated(axis, kf[i].value) && Unsaturated(axis, kf[i + 1].value)
    ensures var w := Played(kf, i, slope0, slope1, axis);
            var kept := !Opposes(kf, i, i - 1, slope0) && !Opposes(kf, i, i, slope1);
            && Capped(w.y0, w.y1, w.h, w.v0, w.v1)
            && (Monotone(w.y0, w.y1, w.h, w.v0, w.v1) <==> kept)
            && (StaysBetween(w.y0, w.y1, w.h, w.v0, w.v1) <==> kept)
  {
    hide Monotone, StaysBetween, LimitHandoffSlope, TransformValue, WireVelocity, Capped, Unsaturated;
    LimitCaps(kf, i - 1, slope0);
    LimitCaps(kf, i, slope1);
    LimitSign(kf, i - 1, slope0);
    LimitSign(kf, i, slope1);
    SpanPreserved(axis, Dt(kf, i), kf[i].value, kf[i + 1].value,
                  LimitHandoffSlope(kf, i - 1, slope0), LimitHandoffSlope(kf, i, slope1));
  }

  lemma SpanPreserved(axis: Axis, dt: real, a: real, b: real, l0: real, l1: real)
    requires axis.Valid() && dt > 0.0 && Unsaturated(axis, a) && Unsaturated(axis, b)
    requires dt * Abs(l0) <= 1.5 * Abs(b - a) && dt * Abs(l1) <= 1.5 * Abs(b - a)
    ensures var y0, y1, h := TransformValue(axis, a), TransformValue(axis, b), dt / axis.speed;
            var v0, v1 := WireVelocity(axis, l0), WireVelocity(axis, l1);
            var kept := !(b > a && (l0 < 0.0 || l1 < 0.0)) && !(b < a && (l0 > 0.0 || l1 > 0.0));
            && Capped(y0, y1, h, v0, v1)
            && (Monotone(y0, y1, h, v0, v1) <==> kept)
            && (StaysBetween(y0, y1, h, v0, v1) <==> kept)
  {
    hide Monotone, StaysBetween, TransformValue, WireVelocity, Along, Unsaturated;
    var y0, y1 := TransformValue(axis, a), TransformValue(axis, b);
    WireChord(axis, a, b);
    WireCap(axis, dt, b - a, l0);
    WireCap(axis, dt, b - a, l1);
    PositiveQuotient(dt, axis.speed);
    ZeroCap(dt, b - a, l0);
    ZeroCap(dt, b - a, l1);
    AlongSign(axis, b - a, y0, y1, l0, l1);
    ShapePreservedExactly(y0, y1, dt / axis.speed, WireVelocity(axis, l0), WireVelocity(axis, l1));
  }

  lemma ZeroCap(dt: real, dv: real, l: real)
    requires dt > 0.0 && dt * Abs(l) <= 1.5 * Abs(dv)
    ensures dv == 0.0 ==> l == 0.0
  {
    if dv == 0.0 { ZeroProduct(dt, l); }
  }

  /** The transform keeps the order of two values, or turns it round, though the clamp may make them equal. */
  lemma TransformOrder(axis: Axis, a: real, b: real)
    requires axis.Valid() && a <= b
    ensures if axis.invert then TransformValue(axis, b) <= TransformValue(axis, a) else TransformValue(axis, a) <= TransformValue(axis, b)
  {
    hide Scaled;
    ScaledOrder(axis, a, b);
  }

  lemma ScaledOrder(axis: Axis, a: real, b: real)
    requires axis.scale >= 0.0 && a <= b
    ensures Scaled(axis, a) <= Scaled(axis, b)
  {
    Product(b - a, axis.scale);
    assert (b - a) * axis.scale == (b - axis.default) * axis.scale - (a - axis.default) * axis.scale;
  }

  lemma OpposingUnits(y0: real, y1: real, h: real, v: real)
    requires h > 0.0 && ((y0 < y1 && v < 0.0) || (y1 < y0 && v > 0.0))
    ensures Units(y0, y1, h, v) < 0.0
  {
    hide Units;
    UnitsTimes(y0, y1, h, v);
    ScaledAbs(h, v);
    PositiveProduct(h, Abs(v));
    RatioSign(h * v, y1 - y0, Units(y0, y1, h, v));
  }

  /**
   With linear interpolation every knot where the script turns round hands over
   the incoming speed, so the span after it overshoots the knot's value, whether
   or not the 0..1 clamp touches it.
   */
  lemma LinearReversalOvershoots(kf: seq<Keyframe>, i: nat, slope1: real, axis: Axis)
    requires Sorted(kf) && axis.Valid() && 1 <= i && i + 2 < |kf|
    requires Free(kf, i - 1) && (Dv(kf, i - 1) > 0.0 <==> Dv(kf, i) < 0.0)
    ensures var w := Played(kf, i, RawSlope(kf, i - 1, Linear, None), slope1, axis);
            !StaysBetween(w.y0, w.y1, w.h, w.v0, w.v1)
  {
    hide StaysBetween, TransformValue, LimitHandoffSlope, WireVelocity, Units;
    var slope0 := RawSlope(kf, i - 1, Linear, None);
    var w := Played(kf, i, slope0, slope1, axis);
    QuotientNonzero(Dv(kf, i - 1), Dt(kf, i - 1));
    LimitSign(kf, i - 1, slope0);
    WireVelocityFacts(axis, LimitHandoffSlope(kf, i - 1, slope0));
    PositiveQuotient(Dt(kf, i), axis.speed);
    var lo, hi := Min(kf[i].value, kf[i + 1].value), if Dv(kf, i) > 0.0 then kf[i + 1].value else kf[i].value;
    TransformOrder(axis, lo, hi);
    if w.y0 == w.y1 {
      FlatSpan(w.y0, w.h, w.v0, w.v1);
    } else {
      OpposingUnits(w.y0, w.y1, w.h, w.v0);
      StaysExactly(w.y0, w.y1, w.h, w.v0, w.v1);
    }
  }

  /**
   When the 0..1 clamp puts both ends of a span at the same stop, the span has no
   travel but is handed the script's velocities: it stays at the stop exactly when
   at each end the script's tangent is zero or the knot cannot carry motion.
   */
  lemma SaturatedSpanLeaves(kf: seq<Keyframe>, i: nat, slope0: real, slope1: real, axis: Axis)
    requires Sorted(kf) && axis.Valid() && 1 <= i && i + 2 < |kf|
    requires TransformValue(axis, kf[i].value) == TransformValue(axis, kf[i + 1].value)
    ensures var w := Played(kf, i, slope0, slope1, axis);
            StaysBetween(w.y0, w.y1, w.h, w.v0, w.v1) <==>
              (slope0 == 0.0 || !Free(kf, i - 1)) && (slope1 == 0.0 || !Free(kf, i))
  {
    hide StaysBetween, TransformValue, LimitHandoffSlope, WireVelocity;
    var w := Played(kf, i, slope0, slope1, axis);
    LimitSign(kf, i - 1, slope0);
    LimitSign(kf, i, slope1);
    WireVelocityFacts(axis, LimitHandoffSlope(kf, i - 1, slope0));
    WireVelocityFacts(axis, LimitHandoffSlope(kf, i, slope1));
    PositiveQuotient(Dt(kf, i), axis.speed);
    FlatSpan(w.y0, w.h, w.v0, w.v1);
  }

  /** A script in which only the upper end of one span meets the stop. */
  const RAMP: seq<Keyframe> := [Keyframe(0.0, 0.4), Keyframe(1.0, 0.7), Keyframe(2.0, 1.0), Keyframe(3.0, 0.7)]

  const DOUBLED := Axis(1.0, 2.0, false, 0.5)

  /**
   One end at the stop is enough to break the guarantee, though no tangent opposes
   its span: at double scale the ramp's second span has a sixth of its travel left
   and is entered at its full speed, six chords' worth, so it overshoots the stop.
   */
  lemma OneStopOvershoots()
    ensures Sorted(RAMP) && DOUBLED.Valid()
    ensures Unsaturated(DOUBLED, RAMP[1].value) && !Unsaturated(DOUBLED, RAMP[2].value)
    ensures !Opposes(RAMP, 1, 0, 0.3) && !Opposes(RAMP, 1, 1, 0.0)
    ensures var w := Played(RAMP, 1, 0.3, 0.0, DOUBLED); !StaysBetween(w.y0, w.y1, w.h, w.v0, w.v1)
  {
    hide StaysBetween;
    var w := Played(RAMP, 1, 0.3, 0.0, DOUBLED);
    assert w == Span(0.9, 1.0, 1.0, 0.6, 0.0);
    assert Units(0.9, 1.0, 1.0, 0.6) == 6.0 && Units(0.9, 1.0, 1.0, 0.0) == 0.0;
    assert !InsideRegion(6.0, 0.0);
    StaysExactly(0.9, 1.0, 1.0, 0.6, 0.0);
  }
}
