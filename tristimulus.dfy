/** Linear RGB to CIE XYZ by a fixed matrix (MshColorMap.convert_rgb2xyz)
    and back by numpy's inverse of that matrix (MshColorMap.convert_xyz2rgb). */
module Tristimulus {
  import opened Numerics
  import opened Companding

  /** The transfer matrix of MshColorMap.__init__, applied to row vectors. */
  const TransferMatrix: Mat3 := [
    [0.4124564, 0.2126729, 0.0193339],
    [0.3575761, 0.7151522, 0.1191920],
    [0.1804375, 0.0721750, 0.9503041]]

  const Identity: Mat3 := [[1.0, 0.0, 0.0], [0.0, 1.0, 0.0], [0.0, 0.0, 1.0]]

  /** np.dot(v, m) for a row vector v. */
  function Dot(v: Vec3, m: Mat3): Vec3 {
    [ v[0] * m[0][0] + v[1] * m[1][0] + v[2] * m[2][0],
      v[0] * m[0][1] + v[1] * m[1][1] + v[2] * m[2][1],
      v[0] * m[0][2] + v[1] * m[1][2] + v[2] * m[2][2] ]
  }

  /** The matrix product a b. */
  function MatMul(a: Mat3, b: Mat3): Mat3 {
    [Dot(a[0], b), Dot(a[1], b), Dot(a[2], b)]
  }

  /** What numpy's matrix inverse is taken to deliver in the round-trip lemmas. */
  predicate IsRightInverse(m: Mat3, inv: Mat3) {
    MatMul(m, inv) == Identity
  }

  /** convert_rgb2xyz */
  function RgbToXyz(lib: Libm, rgb: Vec3): Vec3 {
    Dot(Linearized(lib, rgb), TransferMatrix)
  }

  /** convert_xyz2rgb: the inverse matrix, then get_srgb. */
  function XyzToRgb(lib: Libm, xyz: Vec3): Vec3 {
    Encoded(lib, Dot(xyz, lib.inverse(TransferMatrix)))
  }

  /** Component j of Dot(v, m) as a sum. */
  lemma DotAt(v: Vec3, m: Mat3, j: int)
    requires 0 <= j < 3
    ensures Dot(v, m)[j] == v[0] * m[0][j] + v[1] * m[1][j] + v[2] * m[2][j]
  {
  }

  /** One entry of (v a) b = v (a b): w = v a and c = a b column j. */
  lemma SumsRegroup(v0: real, v1: real, v2: real,
                    a00: real, a01: real, a02: real,
                    a10: real, a11: real, a12: real,
                    a20: real, a21: real, a22: real,
                    b0: real, b1: real, b2: real,
                    w0: real, w1: real, w2: real,
                    c0: real, c1: real, c2: real)
    requires w0 == v0 * a00 + v1 * a10 + v2 * a20
    requires w1 == v0 * a01 + v1 * a11 + v2 * a21
    requires w2 == v0 * a02 + v1 * a12 + v2 * a22
    requires c0 == a00 * b0 + a01 * b1 + a02 * b2
    requires c1 == a10 * b0 + a11 * b1 + a12 * b2
    requires c2 == a20 * b0 + a21 * b1 + a22 * b2
    ensures w0 * b0 + w1 * b1 + w2 * b2 == v0 * c0 + v1 * c1 + v2 * c2
  {
  }

  /** (v a) . bcol = v . (a bcol), for one column bcol of b and c = a bcol. */
  lemma RegroupAt(v: Vec3, a: Mat3, b0: real, b1: real, b2: real, c0: real, c1: real, c2: real)
    requires c0 == a[0][0] * b0 + a[0][1] * b1 + a[0][2] * b2
    requires c1 == a[1][0] * b0 + a[1][1] * b1 + a[1][2] * b2
    requires c2 == a[2][0] * b0 + a[2][1] * b1 + a[2][2] * b2
    ensures Dot(v, a)[0] * b0 + Dot(v, a)[1] * b1 + Dot(v, a)[2] * b2 == v[0] * c0 + v[1] * c1 + v[2] * c2
  {
    var w := Dot(v, a);
    DotAt(v, a, 0);
    DotAt(v, a, 1);
    DotAt(v, a, 2);
    SumsRegroup(v[0], v[1], v[2], a[0][0], a[0][1], a[0][2], a[1][0], a[1][1], a[1][2],
                a[2][0], a[2][1], a[2][2], b0, b1, b2, w[0], w[1], w[2], c0, c1, c2);
  }

  /** Multiplying by a then by b is multiplying by a b. */
  lemma DotAssociates(v: Vec3, a: Mat3, b: Mat3)
    ensures Dot(Dot(v, a), b) == Dot(v, MatMul(a, b))
  {
    var ab := MatMul(a, b);
    var r0, r1, r2 := Dot(a[0], b), Dot(a[1], b), Dot(a[2], b);
    RegroupAt(v, a, b[0][0], b[1][0], b[2][0], r0[0], r1[0], r2[0]);
    RegroupAt(v, a, b[0][1], b[1][1], b[2][1], r0[1], r1[1], r2[1]);
    RegroupAt(v, a, b[0][2], b[1][2], b[2][2], r0[2], r1[2], r2[2]);
    assert ab == [r0, r1, r2];
    var lhs, rhs := Dot(Dot(v, a), b), Dot(v, ab);
    assert lhs[0] == rhs[0] && lhs[1] == rhs[1] && lhs[2] == rhs[2];
  }

  /** Given a right inverse, the inverse matrix undoes the transfer matrix
      on every linear colour. */
  lemma LinearXyzRoundTrip(lib: Libm, linear: Vec3)
    requires IsRightInverse(TransferMatrix, lib.inverse(TransferMatrix))
    ensures Dot(Dot(linear, TransferMatrix), lib.inverse(TransferMatrix)) == linear
  {
    DotAssociates(linear, TransferMatrix, lib.inverse(TransferMatrix));
    assert Dot(linear, Identity) == linear;
  }

  /** A dark whole-number colour survives RGB -> XYZ -> RGB exactly,
      given a right inverse. */
  lemma DarkRgbXyzRoundTrip(lib: Libm, rgb: Vec3)
    requires IsRightInverse(TransferMatrix, lib.inverse(TransferMatrix))
    requires forall i :: 0 <= i < 3 ==> rgb[i] == rgb[i].Floor as real && rgb[i] / 255.0 <= DeviceKnee
    ensures XyzToRgb(lib, RgbToXyz(lib, rgb)) == rgb
  {
    LinearXyzRoundTrip(lib, Linearized(lib, rgb));
    DarkRoundTrip(lib, rgb);
  }
}
