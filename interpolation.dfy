/** Moreland's diverging interpolation in Msh (MshColorMap.adjust_hue and
    MshColorMap.interpolate_color): white is placed between two saturated
    endpoints of distant hue, an unsaturated endpoint borrows a hue, and
    the control points are then mixed linearly. Msh triples are [M, s, h]. */
module Interpolation {
  import opened Numerics
  import opened MshSpace

  /** Saturation angle that separates unsaturated from saturated colours;
      a colour with exactly this angle counts as neither. */
  const SaturationLimit: real := 0.05

  /** Smallest magnitude of the white placed in the middle. */
  const WhiteMagnitudeFloor: real := 88.0

  /** Both endpoints saturated and their hues more than pi/3 apart. */
  predicate Diverges(p1: Vec3, p2: Vec3) {
    p1[1] > SaturationLimit && p2[1] > SaturationLimit && Abs(p1[2] - p2[2]) > Pi / 3.0
  }

  /** Mmid = max([m1, m2, 88.]) */
  function MidMagnitude(m1: real, m2: real): real {
    Max(Max(m1, m2), WhiteMagnitudeFloor)
  }

  /** The divergence rule: the two control points and the fraction between
      them. For diverging endpoints the half containing t runs between one
      endpoint and the white (Mmid, 0, 0). */
  function Anchor(p1: Vec3, p2: Vec3, t: real): (Vec3, Vec3, real) {
    if Diverges(p1, p2) then
      var white := [MidMagnitude(p1[0], p2[0]), 0.0, 0.0];
      if t < 0.5 then (p1, white, 2.0 * t) else (white, p2, 2.0 * t - 1.0)
    else
      (p1, p2, t)
  }

  /** adjust_hue divides by M sin(s) unless the saturated colour is at
      least as large as the unsaturated one. */
  predicate AdjustDefined(lib: Libm, sat: Vec3, mUnsat: real) {
    sat[0] >= mUnsat || sat[0] * lib.sin(sat[1]) != 0.0
  }

  /** adjust_hue: the hue given to an unsaturated colour of magnitude
      mUnsat that is mixed with the saturated colour sat. */
  function AdjustHue(lib: Libm, sat: Vec3, mUnsat: real): real
    requires AdjustDefined(lib, sat, mUnsat)
  {
    var m, s, h := sat[0], sat[1], sat[2];
    if m >= mUnsat then h
    else if h > -Pi / 3.0 then h + Spin(lib, m, s, mUnsat)
    else h - Spin(lib, m, s, mUnsat)
  }

  /** The angle adjust_hue turns the hue by: s sqrt(mUnsat^2 - M^2) / (M sin(s)). */
  function Spin(lib: Libm, m: real, s: real, mUnsat: real): real
    requires m * lib.sin(s) != 0.0
  {
    s * lib.sqrt(mUnsat * mUnsat - m * m) / (m * lib.sin(s))
  }

  predicate HueAdjustDefined(lib: Libm, q1: Vec3, q2: Vec3) {
    && (q1[1] < SaturationLimit && q2[1] > SaturationLimit ==> AdjustDefined(lib, q2, q1[0]))
    && (q2[1] < SaturationLimit && q1[1] > SaturationLimit ==> AdjustDefined(lib, q1, q2[0]))
  }

  /** The hue-adjustment step of interpolate_color. */
  function HueAdjust(lib: Libm, q1: Vec3, q2: Vec3): (Vec3, Vec3)
    requires HueAdjustDefined(lib, q1, q2)
  {
    if q1[1] < SaturationLimit && q2[1] > SaturationLimit then
      ([q1[0], q1[1], AdjustHue(lib, q2, q1[0])], q2)
    else if q2[1] < SaturationLimit && q1[1] > SaturationLimit then
      (q1, [q2[0], q2[1], AdjustHue(lib, q1, q2[0])])
    else
      (q1, q2)
  }

  /** (1 - t) p + t q, componentwise. */
  function Lerp(p: Vec3, q: Vec3, t: real): (r: Vec3)
    ensures t == 0.0 ==> r == p
    ensures t == 1.0 ==> r == q
  {
    var r := [(1.0 - t) * p[0] + t * q[0], (1.0 - t) * p[1] + t * q[1], (1.0 - t) * p[2] + t * q[2]];
    assert t == 0.0 ==> r[0] == p[0] && r[1] == p[1] && r[2] == p[2];
    assert t == 1.0 ==> r[0] == q[0] && r[1] == q[1] && r[2] == q[2];
    r
  }

  predicate InterpolationDefined(lib: Libm, p1: Vec3, p2: Vec3, t: real) {
    var a := Anchor(p1, p2, t);
    HueAdjustDefined(lib, a.0, a.1)
  }

  /** The Msh point interpolate_color converts back to RGB, for the Msh
      endpoints p1, p2 and the fraction t. */
  function InterpolateMsh(lib: Libm, p1: Vec3, p2: Vec3, t: real): Vec3
    requires InterpolationDefined(lib, p1, p2, t)
  {
    var a := Anchor(p1, p2, t);
    var c := HueAdjust(lib, a.0, a.1);
    Lerp(c.0, c.1, a.2)
  }

  predicate ColorsDefined(lib: Libm, white: Vec3, rgb1: Vec3, rgb2: Vec3, t: real) {
    && MshDefined(lib, white, rgb1)
    && MshDefined(lib, white, rgb2)
    && InterpolationDefined(lib, RgbToMsh(lib, white, rgb1), RgbToMsh(lib, white, rgb2), t)
  }

  /** interpolate_color(rgb1, rgb2, t) for the reference white `white`. */
  function InterpolatedRgb(lib: Libm, white: Vec3, rgb1: Vec3, rgb2: Vec3, t: real): Vec3
    requires ColorsDefined(lib, white, rgb1, rgb2, t)
  {
    MshToRgb(lib, white, InterpolateMsh(lib, RgbToMsh(lib, white, rgb1), RgbToMsh(lib, white, rgb2), t))
  }

  /** The divergence rule: the white's magnitude is max(m1, m2, 88); below
      t = 0.5 the path runs from the first endpoint to the white with the
      fraction doubled, from t = 0.5 on from the white to the second
      endpoint with the fraction 2t - 1, and either rescaled fraction lies
      in [0, 1] when t does. Without divergence nothing is replaced. */
  lemma DivergenceRule(p1: Vec3, p2: Vec3, t: real)
    ensures var a := Anchor(p1, p2, t);
      var mid := MidMagnitude(p1[0], p2[0]);
      && p1[0] <= mid && p2[0] <= mid && WhiteMagnitudeFloor <= mid
      && (mid == p1[0] || mid == p2[0] || mid == WhiteMagnitudeFloor)
      && (Diverges(p1, p2) && t < 0.5 ==> a == (p1, [mid, 0.0, 0.0], 2.0 * t))
      && (Diverges(p1, p2) && t >= 0.5 ==> a == ([mid, 0.0, 0.0], p2, 2.0 * t - 1.0))
      && (!Diverges(p1, p2) ==> a == (p1, p2, t))
      && (0.0 <= t <= 1.0 ==> 0.0 <= a.2 <= 1.0)
  {
  }

  /** adjust_hue keeps the saturated hue when the saturated colour is at
      least as large, and otherwise moves it by a spin that does not depend
      on the hue: a colour that differs from sat only in hue gets a result
      turned by the same angle, as long as both hues lie on the same side
      of -pi/3 (strict comparison, so -pi/3 itself spins downward). */
  lemma AdjustHueTurnsWithHue(lib: Libm, sat: Vec3, turned: Vec3, mUnsat: real)
    requires AdjustDefined(lib, sat, mUnsat)
    requires turned[0] == sat[0] && turned[1] == sat[1]
    requires (sat[2] > -Pi / 3.0) == (turned[2] > -Pi / 3.0)
    ensures sat[0] >= mUnsat ==> AdjustHue(lib, sat, mUnsat) == sat[2]
    ensures AdjustDefined(lib, turned, mUnsat)
    ensures AdjustHue(lib, turned, mUnsat) == AdjustHue(lib, sat, mUnsat) + (turned[2] - sat[2])
  {
    var m, s := sat[0], sat[1];
    if m < mUnsat {
      assert lib.sin(turned[1]) == lib.sin(s);
      var spin := Spin(lib, m, s, mUnsat);
      assert AdjustHue(lib, sat, mUnsat) == if sat[2] > -Pi / 3.0 then sat[2] + spin else sat[2] - spin;
      assert AdjustHue(lib, turned, mUnsat) == if turned[2] > -Pi / 3.0 then turned[2] + spin else turned[2] - spin;
    }
  }

  /** The spin is positive for a saturated colour of positive magnitude
      smaller than the unsaturated one, with 0 < s and sin(s) > 0. */
  lemma SpinPositive(lib: Libm, m: real, s: real, mUnsat: real)
    requires Laws(lib) && 0.0 < m < mUnsat && 0.0 < s && 0.0 < lib.sin(s)
    ensures m * lib.sin(s) != 0.0 && 0.0 < Spin(lib, m, s, mUnsat)
  {
    SquareIncreasing(m, mUnsat);
    var radicand := mUnsat * mUnsat - m * m;
    var root := lib.sqrt(radicand);
    assert 0.0 <= root && root * root == radicand;
    assert root != 0.0;
    var denominator := m * lib.sin(s);
    assert 0.0 < denominator;
    assert 0.0 < s * root;
    assert Spin(lib, m, s, mUnsat) == s * root / denominator;
  }

  /** Which way adjust_hue turns: a hue above -pi/3 is increased by the
      spin, one at or below -pi/3 (the comparison is strict) is decreased. */
  lemma AdjustHueDirection(lib: Libm, sat: Vec3, mUnsat: real)
    requires Laws(lib) && 0.0 < sat[0] < mUnsat && 0.0 < sat[1] && 0.0 < lib.sin(sat[1])
    ensures AdjustDefined(lib, sat, mUnsat)
    ensures sat[2] > -Pi / 3.0 ==> AdjustHue(lib, sat, mUnsat) > sat[2]
    ensures sat[2] <= -Pi / 3.0 ==> AdjustHue(lib, sat, mUnsat) < sat[2]
  {
    SpinPositive(lib, sat[0], sat[1], mUnsat);
  }

  /** The hue-adjustment step changes nothing but the hue of the endpoint
      that is unsaturated (s < 0.05) while the other is saturated (s > 0.05);
      that hue becomes adjust_hue of the saturated endpoint. */
  lemma HueAdjustOnlyTouchesUnsaturatedHue(lib: Libm, q1: Vec3, q2: Vec3)
    requires HueAdjustDefined(lib, q1, q2)
    ensures var c := HueAdjust(lib, q1, q2);
      && c.0[0] == q1[0] && c.0[1] == q1[1] && c.1[0] == q2[0] && c.1[1] == q2[1]
      && (c.0 != q1 ==> q1[1] < SaturationLimit && q2[1] > SaturationLimit)
      && (c.1 != q2 ==> q2[1] < SaturationLimit && q1[1] > SaturationLimit)
      && (q1[1] < SaturationLimit && q2[1] > SaturationLimit ==> c.0[2] == AdjustHue(lib, q2, q1[0]))
      && (q2[1] < SaturationLimit && q1[1] > SaturationLimit ==> c.1[2] == AdjustHue(lib, q1, q2[0]))
  {
  }

  /** At t = 0 the result is the first endpoint, except that an unsaturated
      first endpoint may have borrowed a hue: without divergence it is the
      first hue-adjusted control point exactly, and for diverging endpoints
      it is the first endpoint exactly. */
  lemma StartsAtFirstEndpoint(lib: Libm, p1: Vec3, p2: Vec3)
    requires InterpolationDefined(lib, p1, p2, 0.0)
    ensures var r := InterpolateMsh(lib, p1, p2, 0.0);
      && r[0] == p1[0] && r[1] == p1[1]
      && (r[2] == p1[2] || (p1[1] < SaturationLimit && p2[1] > SaturationLimit))
      && (Diverges(p1, p2) ==> r == p1)
      && (!Diverges(p1, p2) ==> HueAdjustDefined(lib, p1, p2) && r == HueAdjust(lib, p1, p2).0)
  {
    var a := Anchor(p1, p2, 0.0);
    var c := HueAdjust(lib, a.0, a.1);
    HueAdjustOnlyTouchesUnsaturatedHue(lib, a.0, a.1);
    assert a.2 == 0.0 && a.0 == p1;
    assert Lerp(c.0, c.1, 0.0) == c.0;
  }

  /** At t = 1 the result is the second endpoint, except that an
      unsaturated second endpoint may have borrowed a hue: without
      divergence it is the second hue-adjusted control point exactly, and
      for diverging endpoints it is the second endpoint exactly. */
  lemma EndsAtSecondEndpoint(lib: Libm, p1: Vec3, p2: Vec3)
    requires InterpolationDefined(lib, p1, p2, 1.0)
    ensures var r := InterpolateMsh(lib, p1, p2, 1.0);
      && r[0] == p2[0] && r[1] == p2[1]
      && (r[2] == p2[2] || (p2[1] < SaturationLimit && p1[1] > SaturationLimit))
      && (Diverges(p1, p2) ==> r == p2)
      && (!Diverges(p1, p2) ==> HueAdjustDefined(lib, p1, p2) && r == HueAdjust(lib, p1, p2).1)
  {
    var a := Anchor(p1, p2, 1.0);
    var c := HueAdjust(lib, a.0, a.1);
    HueAdjustOnlyTouchesUnsaturatedHue(lib, a.0, a.1);
    assert a.2 == 1.0 && a.1 == p2;
    assert Lerp(c.0, c.1, 1.0) == c.1;
  }

  /** Diverging endpoints: magnitude and saturation run linearly from the
      first endpoint to the white (Mmid, 0) over [0, 0.5) and from the white
      to the second endpoint over [0.5, 1], so the saturation falls to 0 in
      the middle. */
  lemma DivergentPath(lib: Libm, p1: Vec3, p2: Vec3, t: real)
    requires Diverges(p1, p2) && InterpolationDefined(lib, p1, p2, t)
    ensures var r := InterpolateMsh(lib, p1, p2, t);
      var mid := MidMagnitude(p1[0], p2[0]);
      && (t < 0.5 ==> r[0] == (1.0 - 2.0 * t) * p1[0] + 2.0 * t * mid && r[1] == (1.0 - 2.0 * t) * p1[1])
      && (t >= 0.5 ==> r[0] == (2.0 - 2.0 * t) * mid + (2.0 * t - 1.0) * p2[0] && r[1] == (2.0 * t - 1.0) * p2[1])
  {
    var a := Anchor(p1, p2, t);
    HueAdjustOnlyTouchesUnsaturatedHue(lib, a.0, a.1);
  }

  /** Diverging endpoints meet in a neutral colour: at t = 0.5 the Msh point
      is (Mmid, 0, h), which is (Mmid, 0, 0) in Lab. */
  lemma NeutralMidpoint(lib: Libm, p1: Vec3, p2: Vec3)
    requires Laws(lib) && Diverges(p1, p2) && InterpolationDefined(lib, p1, p2, 0.5)
    ensures InterpolateMsh(lib, p1, p2, 0.5)[0] == MidMagnitude(p1[0], p2[0])
    ensures InterpolateMsh(lib, p1, p2, 0.5)[1] == 0.0
    ensures MshToLab(lib, InterpolateMsh(lib, p1, p2, 0.5)) == [MidMagnitude(p1[0], p2[0]), 0.0, 0.0]
  {
    var r := InterpolateMsh(lib, p1, p2, 0.5);
    DivergentPath(lib, p1, p2, 0.5);
    assert r == [r[0], 0.0, r[2]];
    NeutralMshToLab(lib, r[0], r[2]);
  }
}
