/** CIELAB to its polar form Msh: magnitude M, saturation angle s and hue
    angle h (MshColorMap.convert_lab2msh), and back (MshColorMap.convert_msh2lab). */
module MshSpace {
  import opened Numerics
  import opened Cielab

  /** The Euclidean norm of a Lab triple, the M of Msh. */
  function Magnitude(lib: Libm, lab: Vec3): real {
    lib.sqrt(lab[0] * lab[0] + lab[1] * lab[1] + lab[2] * lab[2])
  }

  /** convert_lab2msh; divides by M, so a zero magnitude is excluded. */
  function LabToMsh(lib: Libm, lab: Vec3): Vec3
    requires Magnitude(lib, lab) != 0.0
  {
    var m := Magnitude(lib, lab);
    [m, lib.arccos(lab[0] / m), lib.arctan2(lab[2], lab[1])]
  }

  /** convert_msh2lab */
  function MshToLab(lib: Libm, msh: Vec3): Vec3 {
    var m, s, h := msh[0], msh[1], msh[2];
    [m * lib.cos(s), m * lib.sin(s) * lib.cos(h), m * lib.sin(s) * lib.sin(h)]
  }

  /** convert_rgb2msh is defined exactly where the colour's Lab is not zero. */
  predicate MshDefined(lib: Libm, white: Vec3, rgb: Vec3) {
    ValidWhite(white) && Magnitude(lib, RgbToLab(lib, white, rgb)) != 0.0
  }

  /** convert_rgb2msh */
  function RgbToMsh(lib: Libm, white: Vec3, rgb: Vec3): Vec3
    requires MshDefined(lib, white, rgb)
  {
    LabToMsh(lib, RgbToLab(lib, white, rgb))
  }

  /** convert_msh2rgb */
  function MshToRgb(lib: Libm, white: Vec3, msh: Vec3): Vec3 {
    LabToRgb(lib, white, MshToLab(lib, msh))
  }

  /** M is a norm: never negative, its square is the sum of squares, and it
      is zero exactly for the zero triple, the one Lab value that
      convert_lab2msh cannot take. */
  lemma MagnitudeIsNorm(lib: Libm, lab: Vec3)
    requires Laws(lib)
    ensures 0.0 <= Magnitude(lib, lab)
    ensures Magnitude(lib, lab) * Magnitude(lib, lab) == lab[0] * lab[0] + lab[1] * lab[1] + lab[2] * lab[2]
    ensures Magnitude(lib, lab) == 0.0 <==> lab == Origin
  {
    var l, a, b := lab[0], lab[1], lab[2];
    var sum := l * l + a * a + b * b;
    assert l * l >= 0.0 && a * a >= 0.0 && b * b >= 0.0;
    if Magnitude(lib, lab) == 0.0 {
      assert sum == 0.0;
      assert l * l == 0.0 && a * a == 0.0 && b * b == 0.0;
      SquareZero(l);
      SquareZero(a);
      SquareZero(b);
    } else if lab == Origin {
      assert sum == 0.0;
      SqrtOfZeroAndOne(lib);
    }
  }

  /** A point with saturation angle 0 is neutral in Lab whatever its hue:
      (M, 0, h) is (M, 0, 0). */
  lemma NeutralMshToLab(lib: Libm, m: real, h: real)
    requires Laws(lib)
    ensures MshToLab(lib, [m, 0.0, h]) == [m, 0.0, 0.0]
  {
  }

  /** A neutral Lab colour (L, 0, 0) with L > 0 has Msh (L, 0, atan2(0, 0))
      and converts back to itself exactly. */
  lemma NeutralLabRoundTrip(lib: Libm, lab: Vec3)
    requires Laws(lib) && 0.0 < lab[0] && lab[1] == 0.0 && lab[2] == 0.0
    ensures Magnitude(lib, lab) == lab[0]
    ensures LabToMsh(lib, lab)[0] == lab[0] && LabToMsh(lib, lab)[1] == 0.0
    ensures MshToLab(lib, LabToMsh(lib, lab)) == lab
  {
    var sum := lab[0] * lab[0] + lab[1] * lab[1] + lab[2] * lab[2];
    assert Magnitude(lib, lab) == lib.sqrt(sum);
    SqrtOfSquare(lib, lab[0], sum);
    assert lab[0] / lab[0] == 1.0;
    NeutralMshToLab(lib, lab[0], lib.arctan2(0.0, 0.0));
  }
}
