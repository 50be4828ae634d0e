/** CIE XYZ to CIELAB relative to a reference white (MshColorMap.convert_rgb2lab
    with its helper_func) and back (MshColorMap.convert_lab2rgb with finverse). */
module Cielab {
  import opened Numerics
  import opened Tristimulus

  /** Ratio to the white point at or below which helper_func is linear. */
  const Limit: real := 0.008856

  /** Slope of the linear segment. */
  const Slope: real := 7.787

  const Offset: real := 16.0 / 116.0

  /** Value of helper_func at Limit: finverse is linear at or below it. */
  const InverseLimit: real := Slope * Limit + Offset

  /** CIELAB of the reference white. */
  const LabWhite: Vec3 := [100.0, 0.0, 0.0]

  /** The reference white (xn, yn, zn) can be divided by. */
  predicate ValidWhite(white: Vec3) {
    white[0] != 0.0 && white[1] != 0.0 && white[2] != 0.0
  }

  /** helper_func: cube root above Limit, straight line at or below it. */
  function HelperFunc(lib: Libm, t: real): real {
    if t > Limit then lib.power(t, 1.0 / 3.0) else Slope * t + Offset
  }

  /** finverse: cube above InverseLimit, straight line at or below it. */
  function FInverse(x: real): real {
    if x > InverseLimit then x * x * x else (x - Offset) / Slope
  }

  /** XYZ to (L, a, b) against the white point. */
  function XyzToLab(lib: Libm, white: Vec3, xyz: Vec3): Vec3
    requires ValidWhite(white)
  {
    var fx := HelperFunc(lib, xyz[0] / white[0]);
    var fy := HelperFunc(lib, xyz[1] / white[1]);
    var fz := HelperFunc(lib, xyz[2] / white[2]);
    [116.0 * (fy - Offset), 500.0 * (fx - fy), 200.0 * (fy - fz)]
  }

  /** (L, a, b) to XYZ against the white point. */
  function LabToXyz(white: Vec3, lab: Vec3): Vec3 {
    var l, a, b := lab[0], lab[1], lab[2];
    [ white[0] * FInverse(a / 500.0 + (l + 16.0) / 116.0),
      white[1] * FInverse((l + 16.0) / 116.0),
      white[2] * FInverse((l + 16.0) / 116.0 - b / 200.0) ]
  }

  /** convert_rgb2lab */
  function RgbToLab(lib: Libm, white: Vec3, rgb: Vec3): Vec3
    requires ValidWhite(white)
  {
    XyzToLab(lib, white, RgbToXyz(lib, rgb))
  }

  /** convert_lab2rgb */
  function LabToRgb(lib: Libm, white: Vec3, lab: Vec3): Vec3 {
    XyzToRgb(lib, LabToXyz(white, lab))
  }

  /** On the linear segment (t at most Limit, the limit included) finverse
      undoes helper_func exactly. */
  lemma FInverseUndoesHelper(lib: Libm, t: real)
    requires t <= Limit
    ensures HelperFunc(lib, t) <= InverseLimit
    ensures FInverse(HelperFunc(lib, t)) == t
  {
  }

  /** On the linear segment (x at most InverseLimit) helper_func undoes
      finverse exactly. */
  lemma HelperUndoesFInverse(lib: Libm, x: real)
    requires x <= InverseLimit
    ensures FInverse(x) <= Limit
    ensures HelperFunc(lib, FInverse(x)) == x
  {
    assert (x - Offset) / Slope <= (InverseLimit - Offset) / Slope;
  }

  /** LabToXyz hands finverse exactly the helper_func values that XyzToLab
      computed, channel by channel: the Lab step itself loses nothing. */
  lemma LabKeepsHelperValues(lib: Libm, white: Vec3, xyz: Vec3)
    requires ValidWhite(white)
    ensures var lab := XyzToLab(lib, white, xyz);
      && lab[1] / 500.0 + (lab[0] + 16.0) / 116.0 == HelperFunc(lib, xyz[0] / white[0])
      && (lab[0] + 16.0) / 116.0 == HelperFunc(lib, xyz[1] / white[1])
      && (lab[0] + 16.0) / 116.0 - lab[2] / 200.0 == HelperFunc(lib, xyz[2] / white[2])
  {
    var fy := HelperFunc(lib, xyz[1] / white[1]);
    assert 116.0 * (fy - Offset) + 16.0 == 116.0 * fy;
  }

  /** Dark colours (every ratio to the white point at most Limit) survive
      XYZ -> Lab -> XYZ exactly. */
  lemma DarkLabRoundTrip(lib: Libm, white: Vec3, xyz: Vec3)
    requires ValidWhite(white)
    requires xyz[0] / white[0] <= Limit && xyz[1] / white[1] <= Limit && xyz[2] / white[2] <= Limit
    ensures LabToXyz(white, XyzToLab(lib, white, xyz)) == xyz
  {
    LabKeepsHelperValues(lib, white, xyz);
    FInverseUndoesHelper(lib, xyz[0] / white[0]);
    FInverseUndoesHelper(lib, xyz[1] / white[1]);
    FInverseUndoesHelper(lib, xyz[2] / white[2]);
    assert white[0] * (xyz[0] / white[0]) == xyz[0];
    assert white[1] * (xyz[1] / white[1]) == xyz[1];
    assert white[2] * (xyz[2] / white[2]) == xyz[2];
    var back := LabToXyz(white, XyzToLab(lib, white, xyz));
    assert back[0] == xyz[0] && back[1] == xyz[1] && back[2] == xyz[2];
  }

  /** The reference white is (100, 0, 0) in CIELAB. */
  lemma WhitePointIsNeutral(lib: Libm, white: Vec3)
    requires Laws(lib) && ValidWhite(white)
    ensures XyzToLab(lib, white, white) == LabWhite
  {
    assert white[0] / white[0] == 1.0 && white[1] / white[1] == 1.0 && white[2] / white[2] == 1.0;
    assert lib.power(1.0, 1.0 / 3.0) == 1.0;
    assert HelperFunc(lib, 1.0) == 1.0;
  }

  /** finverse maps (100 + 16) / 116 = 1 to 1, so (100, 0, 0) is the
      reference white in XYZ, whatever that white is. */
  lemma NeutralIsWhitePoint(white: Vec3)
    ensures LabToXyz(white, LabWhite) == white
  {
    assert (100.0 + 16.0) / 116.0 == 1.0;
    assert FInverse(1.0) == 1.0;
    var back := LabToXyz(white, LabWhite);
    assert back[0] == white[0] && back[1] == white[1] && back[2] == white[2];
  }

  /** Black (all zero) is (0, 0, 0) in CIELAB, and back. */
  lemma BlackIsNeutral(lib: Libm, white: Vec3)
    requires ValidWhite(white)
    ensures XyzToLab(lib, white, Origin) == Origin
    ensures LabToXyz(white, Origin) == Origin
  {
    assert HelperFunc(lib, 0.0) == Offset;
    assert FInverse(16.0 / 116.0) == 0.0;
  }
}
