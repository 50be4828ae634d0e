/** sRGB companding (IEC 61966-2-1): device channels 0..255 to linear
    channels 0..100 (MshColorMap.linearize_rgb) and back
    (MshColorMap.get_srgb). */
module Companding {
  import opened Numerics

  /** Normalised device value at or below which the linear segment applies. */
  const DeviceKnee: real := 0.04045

  /** Normalised linear value at or below which the linear segment applies. */
  const LinearKnee: real := 0.00313080495356037152

  /** One channel of linearize_rgb: device value c (0..255) to linear light (0..100). */
  function LinearChannel(lib: Libm, c: real): real {
    var v := c / 255.0;
    (if v > DeviceKnee then lib.power((v + 0.055) / 1.055, 2.4) else v / 12.92) * 100.0
  }

  /** One channel of get_srgb: linear light (0..100) to a device value,
      rounded by Python's round and never clamped. */
  function DeviceChannel(lib: Libm, c: real): (r: real)
    ensures r == r.Floor as real
  {
    var v := c / 100.0;
    var e := if v > LinearKnee then 1.055 * lib.power(v, 1.0 / 2.4) - 0.055 else v * 12.92;
    Round(e * 255.0) as real
  }

  function Linearized(lib: Libm, rgb: Vec3): Vec3 {
    [LinearChannel(lib, rgb[0]), LinearChannel(lib, rgb[1]), LinearChannel(lib, rgb[2])]
  }

  function Encoded(lib: Libm, linear: Vec3): Vec3 {
    [DeviceChannel(lib, linear[0]), DeviceChannel(lib, linear[1]), DeviceChannel(lib, linear[2])]
  }

  /** linearize_rgb: fills a zeroed array of three channels in a loop. */
  method LinearizeRgb(lib: Libm, rgb: Vec3) returns (linear: Vec3)
    ensures forall i :: 0 <= i < 3 ==> linear[i] == LinearChannel(lib, rgb[i])
    ensures linear == Linearized(lib, rgb)
  {
    var out := new real[3](_ => 0.0);
    for i := 0 to 3
      invariant forall k :: 0 <= k < i ==> out[k] == LinearChannel(lib, rgb[k])
    {
      var value := rgb[i] / 255.0;
      if value > DeviceKnee {
        value := lib.power((value + 0.055) / 1.055, 2.4);
      } else {
        value := value / 12.92;
      }
      out[i] := value * 100.0;
    }
    linear := out[..];
  }

  /** get_srgb: fills a zeroed array of three channels in a loop. */
  method GetSrgb(lib: Libm, linear: Vec3) returns (srgb: Vec3)
    ensures forall i :: 0 <= i < 3 ==> srgb[i] == DeviceChannel(lib, linear[i])
    ensures srgb == Encoded(lib, linear)
  {
    var out := new real[3](_ => 0.0);
    for i := 0 to 3
      invariant forall k :: 0 <= k < i ==> out[k] == DeviceChannel(lib, linear[k])
    {
      var value := linear[i] / 100.0;
      if value > LinearKnee {
        value := 1.055 * lib.power(value, 1.0 / 2.4) - 0.055;
      } else {
        value := value * 12.92;
      }
      out[i] := Round(value * 255.0) as real;
    }
    srgb := out[..];
  }

  /** A dark device value (c / 255 at most 0.04045, the knee included)
      takes the linear segment both ways, so get_srgb undoes
      linearize_rgb exactly on it. */
  lemma DarkChannelRoundTrip(lib: Libm, c: int)
    requires c as real / 255.0 <= DeviceKnee
    ensures LinearChannel(lib, c as real) == c as real / 255.0 / 12.92 * 100.0
    ensures DeviceChannel(lib, LinearChannel(lib, c as real)) == c as real
  {
    var lin := LinearChannel(lib, c as real);
    assert lin / 100.0 == c as real / 255.0 / 12.92;
    assert lin / 100.0 <= DeviceKnee / 12.92;
    assert DeviceKnee / 12.92 < LinearKnee;
    assert lin / 100.0 * 12.92 * 255.0 == c as real;
    RoundWhole(c);
  }

  /** Every channel of a dark whole-number colour survives the round trip. */
  lemma DarkRoundTrip(lib: Libm, rgb: Vec3)
    requires forall i :: 0 <= i < 3 ==> rgb[i] == rgb[i].Floor as real && rgb[i] / 255.0 <= DeviceKnee
    ensures Encoded(lib, Linearized(lib, rgb)) == rgb
  {
    DarkChannelRoundTrip(lib, rgb[0].Floor);
    DarkChannelRoundTrip(lib, rgb[1].Floor);
    DarkChannelRoundTrip(lib, rgb[2].Floor);
  }

  /** Black maps to 0 and full intensity to 100, and back. */
  lemma CompandingEndpoints(lib: Libm)
    requires Laws(lib)
    ensures LinearChannel(lib, 0.0) == 0.0 && LinearChannel(lib, 255.0) == 100.0
    ensures DeviceChannel(lib, 0.0) == 0.0 && DeviceChannel(lib, 100.0) == 255.0
  {
    assert (255.0 / 255.0 + 0.055) / 1.055 == 1.0;
    assert lib.power(1.0, 2.4) == 1.0;
    assert lib.power(1.0, 1.0 / 2.4) == 1.0;
    assert (1.055 * 1.0 - 0.055) * 255.0 == 255.0;
    RoundWhole(0);
    RoundWhole(255);
  }
}
