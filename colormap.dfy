/** MshColorMap: validates its arguments, then builds a diverging colormap
    either by Moreland's Msh interpolation (generate_colormap) or by two
    straight CIELAB segments through white (generate_colormap_lab). */
module ColorMaps {
  import opened Numerics
  import opened Outcomes
  import opened Cielab
  import opened MshSpace
  import opened Interpolation

  /** Why construction fails: the two assertions of __init__, the
      ValueError numpy raises for a negative number of samples, and the
      ValueError of a slice assignment whose shapes cannot be broadcast. */
  datatype ConfigError = EvenBinCount | UnknownMethod | NegativeBinCount | ShapeMismatch

  /** The known methods 'moreland' and 'lab'. */
  datatype Method = Moreland | CieLab

  /** Reference white used when no ref_point is given. */
  const DefaultWhite: Vec3 := [95.047, 100.0, 108.883]

  function ReferenceWhite(refPoint: Option<Vec3>): Vec3 {
    match refPoint
    case None => DefaultWhite
    case Some(w) => w
  }

  /** The assertions of __init__: the bin count must be odd (Python's %,
      so -3 counts as odd), then the method must be known. */
  function Validate(numBins: int, methodName: string): (r: Result<Method, ConfigError>)
    ensures r.Success? <==> numBins % 2 == 1 && (methodName == "moreland" || methodName == "lab")
    ensures r == Failure(EvenBinCount) <==> numBins % 2 != 1
    ensures r == Failure(UnknownMethod) <==> numBins % 2 == 1 && methodName != "moreland" && methodName != "lab"
    ensures r.Success? ==> (r.value == Moreland <==> methodName == "moreland")
  {
    if numBins % 2 != 1 then Failure(EvenBinCount)
    else if methodName == "moreland" then Success(Moreland)
    else if methodName == "lab" then Success(CieLab)
    else Failure(UnknownMethod)
  }

  /** The first `count` terms start, start + step, start + 2 step, ... */
  function Ramp(start: real, step: real, count: nat): (r: seq<real>)
    ensures |r| == count
  {
    if count == 0 then [] else Ramp(start, step, count - 1) + [start + (count - 1) as real * step]
  }

  /** Term k of a ramp is start + k step. */
  lemma {:induction false} RampAt(start: real, step: real, count: nat, k: nat)
    requires k < count
    ensures Ramp(start, step, count)[k] == start + k as real * step
    decreases count
  {
    if k < count - 1 {
      RampAt(start, step, count - 1, k);
    }
  }

  /** np.linspace(start, stop, num): num values from start to stop
      inclusive; a single value is start. */
  function Linspace(start: real, stop: real, num: nat): (r: seq<real>)
    ensures |r| == num
    ensures 1 <= num ==> r[0] == start
    ensures 2 <= num ==> r[num - 1] == stop
  {
    if num == 1 then [start]
    else
      var step := (stop - start) / (num - 1) as real;
      var r := Ramp(start, step, num);
      assert 1 <= num ==> r[0] == start by {
        if 1 <= num {
          RampAt(start, step, num, 0);
        }
      }
      assert 2 <= num ==> r[num - 1] == stop by {
        if 2 <= num {
          RampAt(start, step, num, num - 1);
          assert (num - 1) as real * step == stop - start;
        }
      }
      r
  }

  /** The values of np.linspace are evenly spaced: each step is the
      distance divided by num - 1. */
  lemma LinspaceEvenlySpaced(start: real, stop: real, num: nat, k: nat)
    requires k + 1 < num
    ensures Linspace(start, stop, num)[k + 1] - Linspace(start, stop, num)[k] == (stop - start) / (num - 1) as real
  {
    var step := (stop - start) / (num - 1) as real;
    RampAt(start, step, num, k);
    RampAt(start, step, num, k + 1);
    assert (k + 1) as real * step - k as real * step == step;
  }

  /** An odd number of samples from 0 to 1 puts 0.5 in the middle. */
  lemma MiddleSampleIsHalf(n: nat)
    requires n % 2 == 1 && 3 <= n
    ensures Linspace(0.0, 1.0, n)[n / 2] == 0.5
  {
    var h := n / 2;
    RampAt(0.0, 1.0 / (n - 1) as real, n, h);
    assert (n - 1) as real == 2.0 * h as real;
    assert h as real * (1.0 / (2.0 * h as real)) == 0.5;
  }

  /** RGBs / divide, for one row. */
  function Scaled(v: Vec3, divide: real): Vec3
    requires divide != 0.0
  {
    [v[0] / divide, v[1] / divide, v[2] / divide]
  }

  /** RGBs / divide: every row scaled, so that multiplying back by divide
      gives the rows. */
  function ScaledRows(rows: seq<Vec3>, divide: real): (r: seq<Vec3>)
    requires rows != [] ==> divide != 0.0
    ensures |r| == |rows|
    ensures forall k :: 0 <= k < |r| ==>
      r[k][0] * divide == rows[k][0] && r[k][1] * divide == rows[k][1] && r[k][2] * divide == rows[k][2]
  {
    seq(|rows|, k requires 0 <= k < |rows| => Scaled(rows[k], divide))
  }

  /** Every sample of generate_colormap avoids the divisions by zero. */
  predicate MorelandDefined(lib: Libm, white: Vec3, rgb1: Vec3, rgb2: Vec3, n: nat) {
    forall i :: 0 <= i < n ==> ColorsDefined(lib, white, rgb1, rgb2, Linspace(0.0, 1.0, n)[i])
  }

  /** The first `count` rows generate_colormap fills before dividing: row i
      is interpolate_color at the i-th of n evenly spaced fractions. */
  function MorelandRows(lib: Libm, white: Vec3, rgb1: Vec3, rgb2: Vec3, n: nat, count: nat): (rows: seq<Vec3>)
    requires count <= n && MorelandDefined(lib, white, rgb1, rgb2, n)
    ensures |rows| == count
  {
    if count == 0 then []
    else MorelandRows(lib, white, rgb1, rgb2, n, count - 1) + [InterpolatedRgb(lib, white, rgb1, rgb2, Linspace(0.0, 1.0, n)[count - 1])]
  }

  /** Row i of the Moreland rows is interpolate_color at sample i. */
  lemma {:induction false} MorelandRowAt(lib: Libm, white: Vec3, rgb1: Vec3, rgb2: Vec3, n: nat, count: nat, i: nat)
    requires i < count <= n && MorelandDefined(lib, white, rgb1, rgb2, n)
    ensures MorelandRows(lib, white, rgb1, rgb2, n, count)[i] == InterpolatedRgb(lib, white, rgb1, rgb2, Linspace(0.0, 1.0, n)[i])
    decreases count
  {
    var prefix := MorelandRows(lib, white, rgb1, rgb2, n, count - 1);
    if i < count - 1 {
      MorelandRowAt(lib, white, rgb1, rgb2, n, count - 1, i);
      assert MorelandRows(lib, white, rgb1, rgb2, n, count)[i] == prefix[i];
    }
  }

  /** Column i of generate_colormap_lab's lab array (n = 2 n2 + 1): rows
      0..n2 are written from lab1 to white, then rows n2..2 n2 are
      overwritten from white to lab2, so the first segment keeps n2 rows. */
  function LabColumn(lab1: Vec3, lab2: Vec3, n2: nat, i: nat): (column: seq<real>)
    requires i < 3
    ensures |column| == 2 * n2 + 1
  {
    Linspace(lab1[i], LabWhite[i], n2 + 1)[..n2] + Linspace(LabWhite[i], lab2[i], n2 + 1)
  }

  /** The lab array of generate_colormap_lab, with n2 = n / 2. */
  function LabPath(lab1: Vec3, lab2: Vec3, n: nat): (path: seq<Vec3>)
    requires n % 2 == 1
    ensures |path| == n
  {
    var n2 := n / 2;
    var c0, c1, c2 := LabColumn(lab1, lab2, n2, 0), LabColumn(lab1, lab2, n2, 1), LabColumn(lab1, lab2, n2, 2);
    seq(n, k requires 0 <= k < n => [c0[k], c1[k], c2[k]])
  }

  /** Row k of the Lab path takes channel i from column i. */
  lemma LabPathColumn(lab1: Vec3, lab2: Vec3, n: nat, k: nat, i: nat)
    requires n % 2 == 1 && k < n && i < 3
    ensures LabPath(lab1, lab2, n)[k][i] == LabColumn(lab1, lab2, n / 2, i)[k]
  {
  }

  /** Channel i of row k of the Lab path: the first segment before row
      n / 2, the second from it on. */
  lemma LabPathAt(lab1: Vec3, lab2: Vec3, n: nat, k: nat, i: nat)
    requires n % 2 == 1 && k < n && i < 3
    ensures LabPath(lab1, lab2, n)[k][i] ==
      if k < n / 2 then Linspace(lab1[i], LabWhite[i], n / 2 + 1)[k]
      else Linspace(LabWhite[i], lab2[i], n / 2 + 1)[k - n / 2]
  {
    var n2 := n / 2;
    var column := LabColumn(lab1, lab2, n2, i);
    assert LabPath(lab1, lab2, n)[k][i] == column[k];
  }

  /** Each Lab row converted back to RGB, in order. */
  function LabToRgbRows(lib: Libm, white: Vec3, path: seq<Vec3>): (rows: seq<Vec3>)
    ensures |rows| == |path|
  {
    if |path| == 0 then []
    else LabToRgbRows(lib, white, path[..|path| - 1]) + [LabToRgb(lib, white, path[|path| - 1])]
  }

  /** Row k of the converted rows is Lab row k converted. */
  lemma {:induction false} LabToRgbRowsAt(lib: Libm, white: Vec3, path: seq<Vec3>, k: nat)
    requires k < |path|
    ensures LabToRgbRows(lib, white, path)[k] == LabToRgb(lib, white, path[k])
    decreases |path|
  {
    var prefix := path[..|path| - 1];
    if k < |path| - 1 {
      LabToRgbRowsAt(lib, white, prefix, k);
      assert LabToRgbRows(lib, white, path)[k] == LabToRgbRows(lib, white, prefix)[k];
    }
  }

  /** The rows generate_colormap_lab fills before dividing. */
  function LabRows(lib: Libm, white: Vec3, rgb1: Vec3, rgb2: Vec3, n: nat): seq<Vec3>
    requires ValidWhite(white) && n % 2 == 1
  {
    LabToRgbRows(lib, white, LabPath(RgbToLab(lib, white, rgb1), RgbToLab(lib, white, rgb2), n))
  }

  /** The shape of the Lab path: n rows, white in row n / 2, lab1 first and
      lab2 last (a single row is white). */
  lemma LabPathShape(lab1: Vec3, lab2: Vec3, n: nat)
    requires n % 2 == 1
    ensures |LabPath(lab1, lab2, n)| == n
    ensures LabPath(lab1, lab2, n)[n / 2] == LabWhite
    ensures 3 <= n ==> LabPath(lab1, lab2, n)[0] == lab1 && LabPath(lab1, lab2, n)[n - 1] == lab2
  {
    var path := LabPath(lab1, lab2, n);
    LabPathAt(lab1, lab2, n, n / 2, 0);
    LabPathAt(lab1, lab2, n, n / 2, 1);
    LabPathAt(lab1, lab2, n, n / 2, 2);
    if 3 <= n {
      LabPathAt(lab1, lab2, n, 0, 0);
      LabPathAt(lab1, lab2, n, 0, 1);
      LabPathAt(lab1, lab2, n, 0, 2);
      LabPathAt(lab1, lab2, n, n - 1, 0);
      LabPathAt(lab1, lab2, n, n - 1, 1);
      LabPathAt(lab1, lab2, n, n - 1, 2);
    }
  }

  /** Rows 0 to n / 2 of the Lab path run from lab1 to the white (row n / 2
      is also the start of the second segment, which is the same white; a
      single row has no first segment). */
  lemma LabFirstSegment(lab1: Vec3, lab2: Vec3, n: nat, k: nat, i: nat)
    requires n % 2 == 1 && 3 <= n && k <= n / 2 && i < 3
    ensures LabPath(lab1, lab2, n)[k][i] == Linspace(lab1[i], LabWhite[i], n / 2 + 1)[k]
  {
    var n2 := n / 2;
    LabPathAt(lab1, lab2, n, k, i);
    if k == n2 {
      assert Linspace(LabWhite[i], lab2[i], n2 + 1)[0] == LabWhite[i] == Linspace(lab1[i], LabWhite[i], n2 + 1)[n2];
    }
  }

  /** Rows n / 2 to n - 1 of the Lab path run from the white to lab2. */
  lemma LabSecondSegment(lab1: Vec3, lab2: Vec3, n: nat, k: nat, i: nat)
    requires n % 2 == 1 && n / 2 <= k < n && i < 3
    ensures LabPath(lab1, lab2, n)[k][i] == Linspace(LabWhite[i], lab2[i], n / 2 + 1)[k - n / 2]
  {
    LabPathAt(lab1, lab2, n, k, i);
  }

  /** Up to row n2 = n / 2 every channel of the Lab path moves in equal
      steps of (white - lab1) / n2. */
  lemma LabFirstSteps(lab1: Vec3, lab2: Vec3, n: nat, k: nat, i: nat)
    requires n % 2 == 1 && k < n / 2 && i < 3
    ensures LabPath(lab1, lab2, n)[k + 1][i] - LabPath(lab1, lab2, n)[k][i] == (LabWhite[i] - lab1[i]) / (n / 2) as real
  {
    LabFirstSegment(lab1, lab2, n, k, i);
    LabFirstSegment(lab1, lab2, n, k + 1, i);
    LinspaceEvenlySpaced(lab1[i], LabWhite[i], n / 2 + 1, k);
  }

  /** From row n2 = n / 2 on every channel of the Lab path moves in equal
      steps of (lab2 - white) / n2. */
  lemma LabSecondSteps(lab1: Vec3, lab2: Vec3, n: nat, k: nat, i: nat)
    requires n % 2 == 1 && n / 2 <= k && k + 1 < n && i < 3
    ensures LabPath(lab1, lab2, n)[k + 1][i] - LabPath(lab1, lab2, n)[k][i] == (lab2[i] - LabWhite[i]) / (n / 2) as real
  {
    LabSecondSegment(lab1, lab2, n, k, i);
    LabSecondSegment(lab1, lab2, n, k + 1, i);
    LinspaceEvenlySpaced(LabWhite[i], lab2[i], n / 2 + 1, k - n / 2);
  }

  /** generate_colormap's middle row (an odd count of at least 3) is taken
      at fraction 0.5; for diverging endpoints it is, before dividing, the
      RGB of the neutral Lab colour (Mmid, 0, 0). */
  lemma MorelandMiddleRowIsNeutral(lib: Libm, white: Vec3, rgb1: Vec3, rgb2: Vec3, n: nat)
    requires Laws(lib) && n % 2 == 1 && 3 <= n
    requires MorelandDefined(lib, white, rgb1, rgb2, n)
    requires MshDefined(lib, white, rgb1) && MshDefined(lib, white, rgb2)
    requires Diverges(RgbToMsh(lib, white, rgb1), RgbToMsh(lib, white, rgb2))
    ensures var p1, p2 := RgbToMsh(lib, white, rgb1), RgbToMsh(lib, white, rgb2);
      MorelandRows(lib, white, rgb1, rgb2, n, n)[n / 2] == LabToRgb(lib, white, [MidMagnitude(p1[0], p2[0]), 0.0, 0.0])
  {
    var p1, p2 := RgbToMsh(lib, white, rgb1), RgbToMsh(lib, white, rgb2);
    MorelandMiddleRow(lib, white, rgb1, rgb2, n);
    var mid := InterpolateMsh(lib, p1, p2, 0.5);
    NeutralMidpoint(lib, p1, p2);
    assert InterpolatedRgb(lib, white, rgb1, rgb2, 0.5) == LabToRgb(lib, white, MshToLab(lib, mid));
  }

  /** generate_colormap's middle row (an odd count of at least 3) is
      interpolate_color at fraction 0.5. */
  lemma MorelandMiddleRow(lib: Libm, white: Vec3, rgb1: Vec3, rgb2: Vec3, n: nat)
    requires n % 2 == 1 && 3 <= n && MorelandDefined(lib, white, rgb1, rgb2, n)
    ensures ColorsDefined(lib, white, rgb1, rgb2, 0.5)
    ensures MorelandRows(lib, white, rgb1, rgb2, n, n)[n / 2] == InterpolatedRgb(lib, white, rgb1, rgb2, 0.5)
  {
    MiddleSampleIsHalf(n);
    assert ColorsDefined(lib, white, rgb1, rgb2, Linspace(0.0, 1.0, n)[n / 2]);
    MorelandRowAt(lib, white, rgb1, rgb2, n, n, n / 2);
  }

  /** generate_colormap_lab's middle row is, before dividing, the
      reference white itself converted back to RGB. */
  lemma LabMiddleRowIsWhite(lib: Libm, white: Vec3, rgb1: Vec3, rgb2: Vec3, n: nat)
    requires ValidWhite(white) && n % 2 == 1
    ensures LabRows(lib, white, rgb1, rgb2, n)[n / 2] == Tristimulus.XyzToRgb(lib, white)
  {
    var lab1, lab2 := RgbToLab(lib, white, rgb1), RgbToLab(lib, white, rgb2);
    LabPathShape(lab1, lab2, n);
    LabToRgbRowsAt(lib, white, LabPath(lab1, lab2, n), n / 2);
    NeutralIsWhitePoint(white);
  }

  /** Lerp written out on the components, as interpolate_color computes it. */
  lemma MixComponents(m1: real, s1: real, h1: real, m2: real, s2: real, h2: real, t: real)
    ensures Lerp([m1, s1, h1], [m2, s2, h2], t) == [(1.0 - t) * m1 + t * m2, (1.0 - t) * s1 + t * s2, (1.0 - t) * h1 + t * h2]
  {
    var r := Lerp([m1, s1, h1], [m2, s2, h2], t);
    var e := [(1.0 - t) * m1 + t * m2, (1.0 - t) * s1 + t * s2, (1.0 - t) * h1 + t * h2];
    assert r[0] == e[0] && r[1] == e[1] && r[2] == e[2] && |r| == |e|;
  }

  /** The two slice assignments of generate_colormap_lab for channel i:
      lab[0:n2 + 1, i] = first, then lab[n2:, i] = second, where both
      segments have n2 + 1 values and the array has 2 n2 + 1 rows. */
  method FillColumn(lab: array2<real>, i: nat, first: seq<real>, second: seq<real>)
    requires 1 <= |first| == |second| && lab.Length0 == 2 * |first| - 1 && i < lab.Length1
    modifies lab
    ensures forall k :: 0 <= k < lab.Length0 ==> lab[k, i] == (first[..|first| - 1] + second)[k]
    ensures forall k, j :: 0 <= k < lab.Length0 && 0 <= j < lab.Length1 && j != i ==> lab[k, j] == old(lab[k, j])
  {
    var n2 := |first| - 1;
    for k := 0 to n2 + 1
      invariant forall k', j :: 0 <= k' < lab.Length0 && 0 <= j < lab.Length1 && j != i ==> lab[k', j] == old(lab[k', j])
      invariant forall k' :: 0 <= k' < k ==> lab[k', i] == first[k']
    {
      lab[k, i] := first[k];
    }
    for k := n2 to lab.Length0
      invariant forall k', j :: 0 <= k' < lab.Length0 && 0 <= j < lab.Length1 && j != i ==> lab[k', j] == old(lab[k', j])
      invariant forall k' :: 0 <= k' < n2 ==> lab[k', i] == first[k']
      invariant forall k' :: n2 <= k' < k ==> lab[k', i] == second[k' - n2]
    {
      lab[k, i] := second[k - n2];
    }
  }

  /** The lab array of generate_colormap_lab: for each channel, rows
      0..n2 get np.linspace(lab1, white, n2 + 1), then rows n2..n - 1 get
      np.linspace(white, lab2, n2 + 1), with n2 = n / 2. */
  method FillLabPath(lab1: Vec3, lab2: Vec3, n: nat) returns (lab: array2<real>)
    requires n % 2 == 1
    ensures fresh(lab) && lab.Length0 == n && lab.Length1 == 3
    ensures forall k, i :: 0 <= k < n && 0 <= i < 3 ==> lab[k, i] == LabPath(lab1, lab2, n)[k][i]
  {
    lab := new real[n, 3]((_, _) => 0.0);
    var n2 := n / 2;
    for i := 0 to 3
      invariant forall k, j :: 0 <= k < n && 0 <= j < i ==> lab[k, j] == LabColumn(lab1, lab2, n2, j)[k]
    {
      var first := Linspace(lab1[i], LabWhite[i], n2 + 1);
      var second := Linspace(LabWhite[i], lab2[i], n2 + 1);
      FillColumn(lab, i, first, second);
    }
    forall k, i | 0 <= k < n && 0 <= i < 3
      ensures lab[k, i] == LabPath(lab1, lab2, n)[k][i]
    {
      LabPathColumn(lab1, lab2, n, k, i);
    }
  }

  /** The second loop of generate_colormap_lab: every row of the lab array
      converted back to RGB, in order. */
  method ConvertLabRows(lib: Libm, white: Vec3, lab: array2<real>, ghost path: seq<Vec3>) returns (rgbs: seq<Vec3>)
    requires lab.Length0 == |path| && lab.Length1 == 3
    requires forall k, i :: 0 <= k < |path| && 0 <= i < 3 ==> lab[k, i] == path[k][i]
    ensures rgbs == LabToRgbRows(lib, white, path)
  {
    var n := lab.Length0;
    var out := new Vec3[n](_ => Origin);
    for k := 0 to n
      invariant out[..k] == LabToRgbRows(lib, white, path[..k])
    {
      var row := [lab[k, 0], lab[k, 1], lab[k, 2]];
      assert row[0] == path[k][0] && row[1] == path[k][1] && row[2] == path[k][2];
      assert row == path[k];
      out[k] := LabToRgb(lib, white, row);
      ghost var done := path[..k + 1];
      assert done[..k] == path[..k] && done[k] == path[k];
      assert LabToRgbRows(lib, white, done) == LabToRgbRows(lib, white, path[..k]) + [LabToRgb(lib, white, path[k])];
      assert out[..k + 1] == out[..k] + [out[k]];
    }
    assert out[..] == out[..n] && path == path[..n];
    rgbs := out[..];
  }

  class MshColorMap {
    var numColors: int
    var xn: real
    var yn: real
    var zn: real
    var colorMap: seq<Vec3>
    const lib: Libm

    /** The first part of __init__: the bin count and the reference white. */
    constructor (numBins: int, white: Vec3, lib: Libm)
      ensures numColors == numBins && White() == white && this.lib == lib && colorMap == []
    {
      numColors := numBins;
      xn, yn, zn := white[0], white[1], white[2];
      colorMap := [];
      this.lib := lib;
    }

    function White(): Vec3
      reads this
    {
      var w: seq<real> := [xn, yn, zn];
      assert |w| == 3;
      w
    }

    /** get_colormap */
    function GetColormap(): seq<Vec3>
      reads this
    {
      colorMap
    }

    /** interpolate_color: converts both colours to Msh, applies the
        divergence and hue-adjustment rules to its locals, mixes the
        control points and converts back. */
    method InterpolateColor(rgb1: Vec3, rgb2: Vec3, interp: real) returns (rgb: Vec3)
      requires ColorsDefined(lib, White(), rgb1, rgb2, interp)
      ensures rgb == InterpolatedRgb(lib, White(), rgb1, rgb2, interp)
    {
      var white := White();
      var msh1 := RgbToMsh(lib, white, rgb1);
      var m1, s1, h1 := msh1[0], msh1[1], msh1[2];
      var msh2 := RgbToMsh(lib, white, rgb2);
      var m2, s2, h2 := msh2[0], msh2[1], msh2[2];
      var t := interp;

      // place white in the middle of saturated, distinct endpoints
      if s1 > SaturationLimit && s2 > SaturationLimit && Abs(h1 - h2) > Pi / 3.0 {
        var mMid := MidMagnitude(m1, m2);
        if t < 0.5 {
          m2, s2, h2 := mMid, 0.0, 0.0;
          t := 2.0 * t;
        } else {
          m1, s1, h1 := mMid, 0.0, 0.0;
          t := 2.0 * t - 1.0;
        }
      }
      ghost var anchor := Anchor(msh1, msh2, interp);
      assert anchor == ([m1, s1, h1], [m2, s2, h2], t);

      // adjust the hue of an unsaturated endpoint
      if s1 < SaturationLimit && s2 > SaturationLimit {
        h1 := AdjustHue(lib, [m2, s2, h2], m1);
      } else if s2 < SaturationLimit && s1 > SaturationLimit {
        h2 := AdjustHue(lib, [m1, s1, h1], m2);
      }
      ghost var adjusted := HueAdjust(lib, anchor.0, anchor.1);
      assert adjusted == ([m1, s1, h1], [m2, s2, h2]);

      var mshMid := [(1.0 - t) * m1 + t * m2, (1.0 - t) * s1 + t * s2, (1.0 - t) * h1 + t * h2];
      MixComponents(m1, s1, h1, m2, s2, h2, t);
      assert mshMid == Lerp(adjusted.0, adjusted.1, anchor.2);
      assert mshMid == InterpolateMsh(lib, msh1, msh2, interp);
      rgb := MshToRgb(lib, white, mshMid);
    }

    /** generate_colormap: interpolate_color at num_colors evenly spaced
        fractions, row by row, then every row divided by `divide`. */
    method GenerateColormap(rgb1: Vec3, rgb2: Vec3, divide: real) returns (r: Result<seq<Vec3>, ConfigError>)
      requires 0 < numColors ==> divide != 0.0
      requires 0 <= numColors ==> MorelandDefined(lib, White(), rgb1, rgb2, numColors)
      ensures r.Failure? <==> numColors < 0
      ensures r.Failure? ==> r.error == NegativeBinCount
      ensures r.Success? ==> 0 <= numColors && |r.value| == numColors
      ensures r.Success? ==> r.value == ScaledRows(MorelandRows(lib, White(), rgb1, rgb2, numColors, numColors), divide)
    {
      if numColors < 0 {
        // np.linspace refuses a negative number of samples
        return Failure(NegativeBinCount);
      }
      var n := numColors;
      ghost var white := White();
      var scalars := Linspace(0.0, 1.0, n);
      var rgbs := new Vec3[n](_ => Origin);
      for i := 0 to n
        invariant rgbs[..i] == MorelandRows(lib, white, rgb1, rgb2, n, i)
      {
        var rgb := InterpolateColor(rgb1, rgb2, scalars[i]);
        rgbs[i] := rgb;
        assert rgbs[..i + 1] == rgbs[..i] + [rgb];
      }
      assert rgbs[..] == rgbs[..n];
      r := Success(ScaledRows(rgbs[..], divide));
    }

    /** generate_colormap_lab: fills the lab array column by column with the
        two linspace segments, converts each row back to RGB and divides.
        For an even count of at least 2 the second slice has one row fewer
        than its linspace and numpy refuses the assignment; for a count of 0
        both slices are empty and the colormap is empty. */
    method GenerateColormapLab(rgb1: Vec3, rgb2: Vec3, divide: real) returns (r: Result<seq<Vec3>, ConfigError>)
      requires ValidWhite(White())
      requires 0 < numColors && numColors % 2 == 1 ==> divide != 0.0
      ensures r.Failure? <==> numColors < 0 || (0 < numColors && numColors % 2 == 0)
      ensures numColors < 0 ==> r == Failure(NegativeBinCount)
      ensures 0 < numColors && numColors % 2 == 0 ==> r == Failure(ShapeMismatch)
      ensures r.Success? ==> 0 <= numColors && |r.value| == numColors
      ensures r.Success? && numColors % 2 == 1 ==> r.value == ScaledRows(LabRows(lib, White(), rgb1, rgb2, numColors), divide)
    {
      var white := White();
      var lab1 := RgbToLab(lib, white, rgb1);
      var lab2 := RgbToLab(lib, white, rgb2);
      if numColors < 0 {
        // np.zeros refuses a negative dimension
        return Failure(NegativeBinCount);
      }
      var n := numColors;
      if n == 0 {
        return Success([]);
      }
      if n % 2 == 0 {
        // lab[n2:, i] has n2 rows, the linspace n2 + 1 values
        return Failure(ShapeMismatch);
      }
      var lab := FillLabPath(lab1, lab2, n);
      var rgbs := ConvertLabRows(lib, white, lab, LabPath(lab1, lab2, n));
      r := Success(ScaledRows(rgbs, divide));
    }

    /** __init__: sets the bin count and the reference white, checks that the
        bin count is odd and the method known, then builds the colormap with
        the chosen method. A failure builds no colormap. */
    static method Create(lib: Libm, rgb1: Vec3, rgb2: Vec3, numBins: int := 33, divide: real := 255.0,
                         methodName: string := "moreland", refPoint: Option<Vec3> := None)
      returns (r: Result<MshColorMap, ConfigError>)
      requires Validate(numBins, methodName).Success? && 0 <= numBins ==> divide != 0.0
      requires Validate(numBins, methodName).Success? && (0 <= numBins || methodName == "lab") ==>
        ValidWhite(ReferenceWhite(refPoint))
      requires Validate(numBins, methodName).Success? && methodName == "moreland" && 0 <= numBins ==>
        MorelandDefined(lib, ReferenceWhite(refPoint), rgb1, rgb2, numBins)
      ensures Validate(numBins, methodName).Failure? ==> r == Failure(Validate(numBins, methodName).error)
      ensures Validate(numBins, methodName).Success? && numBins < 0 ==> r == Failure(NegativeBinCount)
      ensures r.Success? <==> Validate(numBins, methodName).Success? && 0 <= numBins
      ensures r.Success? ==> fresh(r.value) && r.value.lib == lib
      ensures r.Success? ==> r.value.numColors == numBins && r.value.White() == ReferenceWhite(refPoint)
      ensures r.Success? && methodName == "moreland" ==>
        r.value.colorMap == ScaledRows(MorelandRows(lib, ReferenceWhite(refPoint), rgb1, rgb2, numBins, numBins), divide)
      ensures r.Success? && methodName == "lab" ==>
        r.value.colorMap == ScaledRows(LabRows(lib, ReferenceWhite(refPoint), rgb1, rgb2, numBins), divide)
    {
      var cmap := new MshColorMap(numBins, ReferenceWhite(refPoint), lib);
      var chosen := Validate(numBins, methodName);
      if chosen.Failure? {
        return Failure(chosen.error);
      }
      var built: Result<seq<Vec3>, ConfigError>;
      if chosen.value == Moreland {
        built := cmap.GenerateColormap(rgb1, rgb2, divide);
      } else {
        built := cmap.GenerateColormapLab(rgb1, rgb2, divide);
      }
      if built.Failure? {
        return Failure(built.error);
      }
      cmap.colorMap := built.value;
      r := Success(cmap);
    }
  }
}
