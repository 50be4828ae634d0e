/** skew_scale: rescales a colormap fraction about 0.5 to change emphasis. */
module Skew {
  import opened Numerics
  import opened Outcomes

  datatype SkewError = UnsupportedMode

  predicate KnownMode(mode: string) {
    mode == "linear" || mode == "square" || mode == "cubic" || mode == "power" || mode == "sqrt"
  }

  /** The side of 0.5 the fraction lies on; 0.5 itself counts as the upper side. */
  function Side(fraction: real): (sign: real)
    ensures sign == 1.0 <==> fraction >= 0.5
    ensures sign == 1.0 || sign == -1.0
  {
    if fraction >= 0.5 then 1.0 else -1.0
  }

  /** The distance from 0.5 as a share of the half-width 0.5. */
  function Distance(fraction: real): (d: real)
    ensures 0.0 <= d
    ensures 0.0 <= fraction <= 1.0 ==> d <= 1.0
    ensures d == 0.0 <==> fraction == 0.5
  {
    Abs(fraction - 0.5) / 0.5
  }

  /** The signed offset from 0.5 as a share of the half-width 0.5. */
  function Offset(fraction: real): (c: real)
    ensures c == Side(fraction) * Distance(fraction)
    ensures 0.0 <= fraction <= 1.0 ==> -1.0 <= c <= 1.0
  {
    (fraction - 0.5) / 0.5
  }

  /** skew_scale(fraction, mode, power); an unknown mode fails its assertion. */
  function SkewScale(lib: Libm, fraction: real, mode: string := "linear", power: real := 1.0): (r: Result<real, SkewError>)
    ensures r.Failure? <==> !KnownMode(mode)
    ensures mode == "linear" ==> r == Success(fraction)
  {
    if !KnownMode(mode) then Failure(UnsupportedMode)
    else
      var sign := Side(fraction);
      if mode == "linear" then Success(fraction)
      else if mode == "square" then Success(Distance(fraction) * Distance(fraction) * sign * 0.5 + 0.5)
      else if mode == "cubic" then Success(Offset(fraction) * Offset(fraction) * Offset(fraction) * 0.5 + 0.5)
      else if mode == "power" then Success(lib.power(Distance(fraction), power) * sign * 0.5 + 0.5)
      else Success(lib.sqrt(Distance(fraction)) * sign * 0.5 + 0.5)
  }

  /** Every mode fixes 0, 0.5 and 1 (the power mode for a positive power). */
  lemma SkewFixesEndsAndMiddle(lib: Libm, mode: string, power: real)
    requires Laws(lib) && KnownMode(mode) && (mode == "power" ==> 0.0 < power)
    ensures SkewScale(lib, 0.0, mode, power) == Success(0.0)
    ensures SkewScale(lib, 0.5, mode, power) == Success(0.5)
    ensures SkewScale(lib, 1.0, mode, power) == Success(1.0)
  {
    SqrtOfZeroAndOne(lib);
    assert Distance(0.0) == 1.0 && Distance(1.0) == 1.0 && Distance(0.5) == 0.0;
    if mode == "power" {
      assert lib.power(1.0, power) == 1.0 && lib.power(0.0, power) == 0.0;
    }
  }

  /** A real in [-1, 1] has its cube in [-1, 1] as well. */
  lemma CubeInUnitRange(c: real)
    requires -1.0 <= c <= 1.0
    ensures -1.0 <= c * c * c <= 1.0
  {
    var a := Abs(c);
    assert 0.0 <= a <= 1.0;
    assert a * a <= 1.0 by {
      assert a * a <= a * 1.0;
    }
    assert a * a * a <= 1.0 by {
      assert 0.0 <= a * a;
      assert a * a * a <= a * a * 1.0;
    }
    assert c * c * c == a * a * a || c * c * c == -(a * a * a);
  }

  /** A magnitude in [0, 1] mapped back about 0.5 with either sign stays in [0, 1]. */
  lemma AboutHalfInUnitInterval(x: real, sign: real)
    requires 0.0 <= x <= 1.0 && (sign == 1.0 || sign == -1.0)
    ensures 0.0 <= x * sign * 0.5 + 0.5 <= 1.0
  {
  }

  /** For a fraction in [0, 1] the linear, square and cubic modes stay in
      [0, 1], and so does the sqrt mode. */
  lemma SkewStaysInUnitInterval(lib: Libm, fraction: real, mode: string, power: real)
    requires Laws(lib) && 0.0 <= fraction <= 1.0
    requires mode == "linear" || mode == "square" || mode == "cubic" || mode == "sqrt"
    ensures SkewScale(lib, fraction, mode, power).Success?
    ensures 0.0 <= SkewScale(lib, fraction, mode, power).value <= 1.0
  {
    var sign, d, c := Side(fraction), Distance(fraction), Offset(fraction);
    if mode == "square" {
      assert 0.0 <= d * d <= 1.0 by {
        assert d * d <= d * 1.0;
      }
      AboutHalfInUnitInterval(d * d, sign);
    } else if mode == "cubic" {
      CubeInUnitRange(c);
    } else if mode == "sqrt" {
      var root := lib.sqrt(d);
      assert 0.0 <= root && root * root == d;
      if root > 1.0 {
        SquareIncreasing(1.0, root);
      }
      AboutHalfInUnitInterval(root, sign);
    }
  }

  /** Every mode is point-symmetric about (0.5, 0.5): skew(1 - f) = 1 - skew(f).
      At f = 0.5 itself this needs skew(0.5) = 0.5, which the power mode
      only has for a positive power (Python gives 0.0 ** 0 = 1). */
  lemma SkewIsSymmetric(lib: Libm, fraction: real, mode: string, power: real)
    requires KnownMode(mode)
    requires fraction == 0.5 ==> Laws(lib) && (mode == "power" ==> 0.0 < power)
    ensures SkewScale(lib, 1.0 - fraction, mode, power).Success?
    ensures SkewScale(lib, 1.0 - fraction, mode, power).value == 1.0 - SkewScale(lib, fraction, mode, power).value
  {
    var c, c' := Offset(fraction), Offset(1.0 - fraction);
    assert Distance(1.0 - fraction) == Distance(fraction);
    assert c' == -c;
    assert c' * c' * c' == -(c * c * c);
    if fraction == 0.5 {
      SkewFixesEndsAndMiddle(lib, mode, power);
    } else {
      assert Side(1.0 - fraction) == -Side(fraction);
    }
  }
}
