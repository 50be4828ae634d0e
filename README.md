# coloripy: diverging colormaps in Msh space

coloripy builds diverging colormaps with Kenneth Moreland's method. Its
class `MshColorMap` takes two RGB end colours, an odd number of bins, a
divisor and a method name. On construction it fills its colormap in one of
two ways:

- **moreland**: `interpolate_color` at evenly spaced fractions. This
  interpolates in the polar form Msh of CIELAB, places a neutral white
  between saturated endpoints of distinct hue, and adjusts the hue of an
  unsaturated endpoint.
- **lab**: two straight CIELAB segments through the white (100, 0, 0).

The conversions behind both are:

- sRGB companding (`linearize_rgb`, `get_srgb`);
- a fixed RGB to XYZ matrix and its inverse;
- XYZ to CIELAB against a reference white (`helper_func`, `finverse`);
- CIELAB to Msh and back.

The free function `skew_scale` rescales a fraction about 0.5.

The model is organised by stage of that pipeline:

- `numerics.dfy`: triples, Python's `round`, and the numpy functions as parameters.
- `companding.dfy`: the sRGB companding.
- `tristimulus.dfy`: the XYZ matrix.
- `cielab.dfy`: CIELAB.
- `msh.dfy`: Msh.
- `interpolation.dfy`: the divergence rule, `adjust_hue` and the interpolation.
- `skew.dfy`: `skew_scale`.
- `colormap.dfy`: validation, the two builders and the class `MshColorMap`.

How the model is written:

- **Pure code** is datatypes, functions and lemmas. This covers the conversions, `adjust_hue` and `skew_scale`.
- **Loops** are methods proved against specification functions: the channel loops of `linearize_rgb` and `get_srgb`, the row loop of `generate_colormap`, and the slice fills and row conversions of `generate_colormap_lab`.
- **`interpolate_color`** is a method that reassigns its locals the way the source does.
- **`__init__`** is a static `Create` method over the class. It returns a `Result`: a failed assertion or numpy's `ValueError` becomes a `Failure`, and no colormap is built.

The numpy functions `power`, `sqrt`, `sin`, `cos`, `arccos` and `arctan2`, and the matrix inverse, are fields of a `Libm` value passed in as a parameter. The predicate `Laws` states the only facts the proofs use about them:

- cos 0 = 1, sin 0 = 0 and arccos 1 = 0;
- sqrt returns the non-negative square root of a non-negative number;
- for a positive p, 0^p = 0 and 1^p = 1.

The round trips through XYZ take as a premise that the inverse delivered is a right inverse of the transfer matrix.

## Model

All source paths are in `coloripy/coloripy.py`.

| member | source | states |
|---|---|---|
| Numerics.Round | coloripy/coloripy.py:98 | Python 3 `round`: the result is within 0.5 of x, and a tie goes to the even integer |
| Numerics.Max | coloripy/coloripy.py:230 | `max` is an upper bound of both arguments and equals one of them |
| Numerics.Abs | coloripy/coloripy.py:229 | `np.abs` is non-negative and equals x or -x |
| Companding.LinearChannel | coloripy/coloripy.py:74-79 | one channel of `linearize_rgb`: c/255, the power branch strictly above 0.04045, else /12.92, times 100; its round trip is Companding.DarkChannelRoundTrip |
| Companding.DeviceChannel | coloripy/coloripy.py:91-98 | one `get_srgb` channel always yields a whole number (the rounded value, not clamped to 0..255) |
| Companding.LinearizeRgb | coloripy/coloripy.py:64-80 | the loop over a zeroed array sets channel i to the linearised value of channel i: the power branch strictly above 0.04045, otherwise c/12.92, times 100 |
| Companding.GetSrgb | coloripy/coloripy.py:82-100 | the loop sets channel i to the encoded, rounded value of linear channel i, with the power branch strictly above 0.0031308… |
| Companding.Linearized | coloripy/coloripy.py:64-80 | `linearize_rgb` on all three channels, the function that Companding.LinearizeRgb is proved equal to |
| Companding.Encoded | coloripy/coloripy.py:82-100 | `get_srgb` on all three channels, the function that Companding.GetSrgb is proved equal to; Companding.DarkRoundTrip makes it undo Linearized |
| Companding.DarkChannelRoundTrip | coloripy/coloripy.py:64-100 | a whole device value at or below the knee (the knee included, since the test is a strict >) is linearised by c/255/12.92·100 and `get_srgb` brings it back exactly |
| Companding.DarkRoundTrip | coloripy/coloripy.py:64-100 | `get_srgb(linearize_rgb(rgb)) == rgb` for every dark whole-number colour |
| Companding.CompandingEndpoints | coloripy/coloripy.py:64-100 | 0 maps to 0 and 255 maps to 100, and `get_srgb` maps 0 and 100 back to 0 and 255 |
| Tristimulus.Dot | coloripy/coloripy.py:106 | `np.dot` of a row vector with a 3×3 matrix; its algebra is Tristimulus.DotAssociates |
| Tristimulus.RgbToXyz | coloripy/coloripy.py:102-106 | `convert_rgb2xyz`: linearize, then the transfer matrix of lines 38-40 |
| Tristimulus.XyzToRgb | coloripy/coloripy.py:108-118 | `convert_xyz2rgb`: the inverse matrix, then `get_srgb`; Tristimulus.DarkRgbXyzRoundTrip makes it undo RgbToXyz |
| Tristimulus.DotAssociates | coloripy/coloripy.py:102-118 | applying the matrix a and then b equals applying their product a·b |
| Tristimulus.LinearXyzRoundTrip | coloripy/coloripy.py:102-118 | with a right inverse, the inverse matrix undoes the transfer matrix on linear RGB |
| Tristimulus.DarkRgbXyzRoundTrip | coloripy/coloripy.py:102-118 | `convert_xyz2rgb(convert_rgb2xyz(rgb)) == rgb` for dark whole-number colours |
| Cielab.HelperFunc | coloripy/coloripy.py:127-132 | `helper_func`: cube root strictly above 0.008856, else 7.787·a + 16/116 |
| Cielab.FInverse | coloripy/coloripy.py:147-155 | `finverse`: cube strictly above 7.787·0.008856 + 16/116, else (x − 16/116)/7.787; it undoes HelperFunc on the linear branch (Cielab.FInverseUndoesHelper) |
| Cielab.XyzToLab | coloripy/coloripy.py:125-138 | L, a, b from the three `helper_func` values of x/xn, y/yn, z/zn |
| Cielab.LabToXyz | coloripy/coloripy.py:145-159 | x, y, z as the white times `finverse`; Cielab.DarkLabRoundTrip makes it undo XyzToLab |
| Cielab.RgbToLab | coloripy/coloripy.py:120-138 | `convert_rgb2lab`: RgbToXyz, then XyzToLab against the white |
| Cielab.LabToRgb | coloripy/coloripy.py:140-161 | `convert_lab2rgb`: LabToXyz, then XyzToRgb |
| Cielab.FInverseUndoesHelper | coloripy/coloripy.py:127-155 | on the linear branch (t ≤ 0.008856, the limit included) `helper_func` lands on `finverse`'s linear branch and `finverse` undoes it exactly |
| Cielab.HelperUndoesFInverse | coloripy/coloripy.py:127-155 | on `finverse`'s linear branch (x ≤ 7.787·0.008856 + 16/116) `helper_func` undoes `finverse` exactly |
| Cielab.LabKeepsHelperValues | coloripy/coloripy.py:134-159 | `convert_lab2rgb` hands `finverse` exactly the three `helper_func` values that `convert_rgb2lab` computed |
| Cielab.DarkLabRoundTrip | coloripy/coloripy.py:120-161 | XYZ with every ratio to the white at most 0.008856 comes back exactly from Lab |
| Cielab.WhitePointIsNeutral | coloripy/coloripy.py:134-136 | the reference white itself has Lab (100, 0, 0) |
| Cielab.NeutralIsWhitePoint | coloripy/coloripy.py:157-159 | Lab (100, 0, 0) is the reference white in XYZ, whatever the white |
| Cielab.BlackIsNeutral | coloripy/coloripy.py:120-161 | XYZ (0, 0, 0) has Lab (0, 0, 0), and back |
| MshSpace.LabToMsh | coloripy/coloripy.py:163-174 | `convert_lab2msh`: M the norm, s = arccos(L/M), h = arctan2(b, a), for a non-zero Lab |
| MshSpace.MshToLab | coloripy/coloripy.py:176-188 | `convert_msh2lab`: (M cos s, M sin s cos h, M sin s sin h); MshSpace.NeutralLabRoundTrip makes it undo LabToMsh on neutral colours |
| MshSpace.RgbToMsh | coloripy/coloripy.py:190-192 | `convert_rgb2msh`: RgbToLab, then LabToMsh |
| MshSpace.MshToRgb | coloripy/coloripy.py:194-196 | `convert_msh2rgb`: MshToLab, then LabToRgb |
| MshSpace.MagnitudeIsNorm | coloripy/coloripy.py:171 | M, the helper `MshSpace.Magnitude`, is non-negative, its square is L²+a²+b², and it is 0 exactly for Lab (0, 0, 0), the input `convert_lab2msh` cannot divide by |
| MshSpace.NeutralMshToLab | coloripy/coloripy.py:176-188 | any Msh point with s = 0 is the neutral Lab (M, 0, 0), whatever its hue |
| MshSpace.NeutralLabRoundTrip | coloripy/coloripy.py:163-188 | a neutral Lab (L, 0, 0) with L > 0 has M = L and s = 0, and `convert_msh2lab(convert_lab2msh(lab)) == lab` |
| Interpolation.Anchor | coloripy/coloripy.py:228-240 | the control points and fraction after the divergence rule; its properties are Interpolation.DivergenceRule |
| Interpolation.AdjustHue | coloripy/coloripy.py:198-215 | `adjust_hue`: the saturated hue, turned by Spin when the saturated colour is smaller; its properties are Interpolation.AdjustHueTurnsWithHue and Interpolation.AdjustHueDirection |
| Interpolation.Spin | coloripy/coloripy.py:210-211 | `h_spin` = s·sqrt(mUnsat² − M²)/(M sin s); Interpolation.SpinPositive makes it positive |
| Interpolation.HueAdjust | coloripy/coloripy.py:242-246 | the hue step of `interpolate_color`; its properties are Interpolation.HueAdjustOnlyTouchesUnsaturatedHue |
| Interpolation.Lerp | coloripy/coloripy.py:248-250 | (1 − t)·p + t·q gives p at t = 0 and q at t = 1 |
| Interpolation.InterpolateMsh | coloripy/coloripy.py:217-250 | the Msh point `interpolate_color` converts back: Lerp of the hue-adjusted anchored control points |
| Interpolation.InterpolatedRgb | coloripy/coloripy.py:217-252 | `interpolate_color`: RgbToMsh of both colours, InterpolateMsh, MshToRgb |
| Interpolation.DivergenceRule | coloripy/coloripy.py:228-240 | the test of line 229 is the predicate `Interpolation.Diverges`, and Mmid, the helper `Interpolation.MidMagnitude` of line 230, is ≥ m1, m2 and 88 and equals one of them. Diverging endpoints with t < 0.5 run from p1 to (Mmid, 0, 0) at 2t, and with t ≥ 0.5 from the white to p2 at 2t − 1. Otherwise nothing changes. The rescaled fraction stays in [0, 1] |
| Interpolation.AdjustHueTurnsWithHue | coloripy/coloripy.py:198-215 | a saturated colour at least as large keeps its hue. Otherwise the spin does not depend on the hue: a colour differing only in hue, on the same side of the strict −π/3 test, is turned by the same angle |
| Interpolation.SpinPositive | coloripy/coloripy.py:210-211 | for 0 < M < mUnsat, 0 < s and sin s > 0 the spin is defined and strictly positive |
| Interpolation.AdjustHueDirection | coloripy/coloripy.py:210-215 | under those conditions a hue strictly above −π/3 is increased and a hue at or below −π/3 is decreased |
| Interpolation.HueAdjustOnlyTouchesUnsaturatedHue | coloripy/coloripy.py:242-246 | the hue step changes only the hue of the endpoint with s < 0.05 when the other has s > 0.05, and sets it to `adjust_hue` of the saturated one |
| Interpolation.StartsAtFirstEndpoint | coloripy/coloripy.py:217-250 | at t = 0 the Msh result is the first hue-adjusted control point exactly: p1's M and s, p1's hue unless p1 borrowed `adjust_hue(p2, m1)`, and p1 itself for diverging endpoints |
| Interpolation.EndsAtSecondEndpoint | coloripy/coloripy.py:217-250 | at t = 1 the Msh result is the second hue-adjusted control point exactly: p2's M and s, p2's hue unless p2 borrowed `adjust_hue(p1, m2)`, and p2 itself for diverging endpoints |
| Interpolation.DivergentPath | coloripy/coloripy.py:228-250 | for diverging endpoints, M and s run linearly from p1 to (Mmid, 0) on [0, 0.5) and from (Mmid, 0) to p2 on [0.5, 1] |
| Interpolation.NeutralMidpoint | coloripy/coloripy.py:228-250 | for diverging endpoints the t = 0.5 Msh point has M = Mmid and s = 0, and its Lab is (Mmid, 0, 0) |
| Skew.Side | coloripy/coloripy.py:307-310 | sign is 1 exactly when fraction ≥ 0.5, otherwise −1 |
| Skew.Distance | coloripy/coloripy.py:315 | \|f − 0.5\|/0.5 is non-negative, at most 1 on [0, 1], and 0 only at 0.5 |
| Skew.Offset | coloripy/coloripy.py:317 | (f − 0.5)/0.5 is sign times distance and lies in [−1, 1] on [0, 1] |
| Skew.SkewScale | coloripy/coloripy.py:296-321 | fails exactly for a mode outside the five known ones (the predicate `Skew.KnownMode` of line 304); the linear mode returns the fraction |
| Skew.SkewFixesEndsAndMiddle | coloripy/coloripy.py:296-321 | every known mode maps 0, 0.5 and 1 to themselves (the power mode for a positive power) |
| Skew.SkewStaysInUnitInterval | coloripy/coloripy.py:312-321 | the linear, square, cubic and sqrt modes map [0, 1] into [0, 1] |
| Skew.SkewIsSymmetric | coloripy/coloripy.py:307-321 | every known mode is point-symmetric about 0.5: skew(1 − f) = 1 − skew(f) |
| ColorMaps.Validate | coloripy/coloripy.py:46-50 | success iff the bin count is odd under Python's % and the method is 'moreland' or 'lab'. The even-count error comes first, the unknown-method error only for an odd count, and the method chosen matches the name |
| ColorMaps.Ramp | coloripy/coloripy.py:264 | the first count terms of an arithmetic progression, count of them (ColorMaps.RampAt gives term k) |
| ColorMaps.RampAt | coloripy/coloripy.py:264 | term k of the progression is start + k·step |
| ColorMaps.Linspace | coloripy/coloripy.py:264 | `np.linspace` gives num values, the first is start, and the last is stop when num ≥ 2 |
| ColorMaps.LinspaceEvenlySpaced | coloripy/coloripy.py:264 | consecutive `np.linspace` values differ by (stop − start)/(num − 1) |
| ColorMaps.MiddleSampleIsHalf | coloripy/coloripy.py:264 | for an odd count of at least 3 the middle fraction is 0.5 |
| ColorMaps.ScaledRows | coloripy/coloripy.py:268 | `RGBs / divide` keeps the row count, and each entry times divide gives the entry back; an empty colormap needs no non-zero divisor |
| ColorMaps.MorelandRows | coloripy/coloripy.py:264-267 | the first count rows of `generate_colormap` before dividing, count of them |
| ColorMaps.MorelandRowAt | coloripy/coloripy.py:264-267 | row i of the Moreland rows is `interpolate_color` at the i-th `linspace(0, 1, n)` fraction |
| ColorMaps.MorelandMiddleRow | coloripy/coloripy.py:264-267 | the middle row of an odd colormap is `interpolate_color` at 0.5 |
| ColorMaps.MorelandMiddleRowIsNeutral | coloripy/coloripy.py:217-267 | for diverging endpoints the middle row of the Moreland colormap, before dividing, is the RGB of the neutral Lab (Mmid, 0, 0) |
| ColorMaps.LabColumn | coloripy/coloripy.py:287-289 | one channel of the lab array has 2·n2 + 1 values |
| ColorMaps.LabPath | coloripy/coloripy.py:283-289 | the lab array has n rows |
| ColorMaps.LabPathAt | coloripy/coloripy.py:287-289 | row k takes the first linspace (lab1 → white) before n2 and the second (white → lab2) from n2 on, the second assignment overwriting row n2 |
| ColorMaps.LabPathShape | coloripy/coloripy.py:279-289 | the lab array has n rows and row n2 is [100, 0, 0]. For n ≥ 3 the first row is lab1 and the last lab2 |
| ColorMaps.LabFirstSegment | coloripy/coloripy.py:288 | rows 0..n2 follow `linspace(lab1, white, n2 + 1)` |
| ColorMaps.LabSecondSegment | coloripy/coloripy.py:289 | rows n2..n−1 follow `linspace(white, lab2, n2 + 1)` |
| ColorMaps.LabFirstSteps | coloripy/coloripy.py:288 | up to row n2 every channel moves by (white − lab1)/n2 per row |
| ColorMaps.LabSecondSteps | coloripy/coloripy.py:289 | from row n2 on every channel moves by (lab2 − white)/n2 per row |
| ColorMaps.LabToRgbRows | coloripy/coloripy.py:290-291 | the Lab rows converted in order, one per Lab row |
| ColorMaps.LabRows | coloripy/coloripy.py:279-291 | `generate_colormap_lab` before dividing: the Lab path between the two colours' Lab values, converted row by row |
| ColorMaps.LabToRgbRowsAt | coloripy/coloripy.py:290-291 | row k of the converted rows is `convert_lab2rgb` of Lab row k |
| ColorMaps.LabMiddleRowIsWhite | coloripy/coloripy.py:279-291 | the middle row of the Lab colormap, before dividing, is the reference white converted to RGB |
| ColorMaps.FillColumn | coloripy/coloripy.py:287-289 | after the two slice assignments channel i holds the first segment without its last value, then the whole second segment; other channels are unchanged |
| ColorMaps.FillLabPath | coloripy/coloripy.py:283-289 | returns a fresh n×3 array equal to the lab path |
| ColorMaps.ConvertLabRows | coloripy/coloripy.py:290-291 | the conversion loop returns every Lab row converted to RGB, in order |
| ColorMaps.MshColorMap.constructor | coloripy/coloripy.py:35-44 | sets the bin count and the reference white (xn, yn, zn), with no colormap yet |
| ColorMaps.MshColorMap.InterpolateColor | coloripy/coloripy.py:217-252 | the local reassignments compute the RGB of the hue-adjusted, divergence-anchored Msh mixture |
| ColorMaps.MshColorMap.GenerateColormap | coloripy/coloripy.py:254-268 | fails with the ValueError case exactly for a negative count. Otherwise it returns num_colors rows, row i being `interpolate_color` at the i-th linspace fraction, all divided by `divide` |
| ColorMaps.MshColorMap.GenerateColormapLab | coloripy/coloripy.py:270-293 | fails exactly for a negative count (the np.zeros ValueError) or an even count of at least 2 (the broadcast ValueError of line 289). A count of 0 gives no rows; an odd count gives the Lab path converted to RGB row by row and divided by `divide` |
| ColorMaps.MshColorMap.Create | coloripy/coloripy.py:25-55 | fails with the first failing assertion, or with the ValueError case for a negative odd count, and then builds nothing. Otherwise it returns a fresh object with the bin count, the white of lines 41-44 (`ColorMaps.ReferenceWhite`: the `ref_point` if given, else `ColorMaps.DefaultWhite` = 95.047, 100, 108.883) and the colormap of the chosen method. The defaults are num_bins 33, divide 255 and 'moreland'. The preconditions apply only once validation succeeds, and only to the divisions the source reaches: none for a negative count under 'moreland', only the white for a negative count under 'lab' |

## Left out

- **Floating point.** Every number is an exact real. The model does not capture rounding error, NaN, infinities or the float comparisons near the thresholds. Every comparison is modelled as the source writes it: the strict `>` of the thresholds, the `< 0.05` and `< 0.5` of `interpolate_color`, and the `>=` of `adjust_hue` and `skew_scale`.
- **numpy functions.** `power`, `sqrt`, `sin`, `cos`, `arccos`, `arctan2` and the matrix inverse are parameters, with only the laws listed above. The round trips are therefore proved on the linear branches only: dark colours for companding and CIELAB, and neutral colours for Msh. The power and cube-root branches would need exact inverses of floating-point powers.
- **Divisions that cannot be carried out become preconditions.** These are:
  - a zero component of the reference white (`ValidWhite`);
  - a Lab colour (0, 0, 0) in `convert_lab2msh` (`MshDefined`);
  - M·sin(s) = 0 in `adjust_hue` (`AdjustDefined`);
  - `divide` = 0.

  For the reference white the source raises ZeroDivisionError: x, y and z are Python floats from `.tolist()`, and so is a `ref_point` given as a tuple of floats. In `convert_lab2msh` and `adjust_hue` numpy produces NaN or an infinite spin instead. That value reaches `get_srgb` as NaN (the cosine of an infinite angle is NaN), fails the `>` test, and `round` of it raises ValueError at coloripy/coloripy.py:98. Only `divide` = 0 leaves inf or NaN in the stored colormap, with a numpy warning. These preconditions apply only after validation succeeds, and only where the source reaches the division. A negative count raises numpy's ValueError before any division under 'moreland' (coloripy/coloripy.py:264), and after the division by the white but before `/ divide` under 'lab' (coloripy/coloripy.py:279-283). An empty colormap is divided without error, and an even 'lab' count fails at the slice assignment before `/ divide`, so `divide` = 0 is excluded only when rows are actually divided.
- ColorMaps.MshColorMap.GenerateColormapLab: the source computes n2 = `np.floor(num_colors / 2.)` as a float and slices with it. Current numpy rejects float slice indices, so the model uses the integer n / 2 that the code evidently intends.
- ColorMaps.MshColorMap.Create: once validation succeeds with 'moreland', it requires every sample of the Moreland path to avoid the divisions above (`MorelandDefined`). On the excluded inputs the source raises ValueError at coloripy/coloripy.py:98 and builds nothing. A black endpoint is one: its Lab is (0, 0, 0), so M = 0 and s = arccos(0/0) is NaN, every interpolated sample carries that NaN, and `round` of it fails.
- ColorMaps.MorelandMiddleRowIsNeutral: stated on the rows before division by `divide`. ColorMaps.LabMiddleRowIsWhite is stated the same way. The divided rows are `ScaledRows` of these.
- Skew.SkewStaysInUnitInterval: leaves out the power mode. Its range depends on `np.power` beyond the laws assumed, and a power ≤ 0 can leave [0, 1].
- Skew.SkewFixesEndsAndMiddle: the power mode is covered only for a positive power. Python gives 0.0 ** 0 = 1, which maps 0.5 to 1.
- `int(num_bins)` is taken as already an integer. `ref_point` is taken as a triple.
- Default arguments are Dafny parameter defaults: `Create` has num_bins 33, divide 255, 'moreland' and no ref_point, and `SkewScale` has mode 'linear' and power 1. `Create` takes the numpy functions as its first parameter, so its other parameters keep the source's order.
- `get_colormap` returns the stored field (`GetColormap`) and states nothing further.
- The plotting wrapper `get_msh_cmap`, saving and printing, and the packaging in `setup.py` are not part of this model.
