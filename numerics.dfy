/** Success/failure values for the places where the colormap code raises. */
module Outcomes {
  datatype Option<T> = None | Some(value: T)

  datatype Result<T, E> = Success(value: T) | Failure(error: E)
}

/** The numbers the colormap code works with: numpy vectors of three
    components, the numpy functions it calls (kept uninterpreted), and
    Python's round. Floating point is modelled by exact reals. */
module Numerics {
  /** A numpy array of shape (3,): an RGB, XYZ, CIELAB or Msh triple. */
  type Vec3 = v: seq<real> | |v| == 3 witness [0.0, 0.0, 0.0]

  const Origin: Vec3 := [0.0, 0.0, 0.0]

  /** A numpy array of shape (3, 3), as its three rows. */
  type Mat3 = m: seq<Vec3> | |m| == 3 witness [Origin, Origin, Origin]

  /** numpy.pi, as Python prints it. */
  const Pi: real := 3.141592653589793

  /** The transcendental functions and the matrix inverse that the code
      takes from numpy. They are parameters of the model: nothing is
      assumed of them beyond what `Laws` states. */
  datatype Libm = Libm(
    power: (real, real) -> real,   // np.power, and ** on floats
    sqrt: real -> real,            // np.sqrt
    sin: real -> real,             // np.sin
    cos: real -> real,             // np.cos
    arccos: real -> real,          // np.arccos
    arctan2: (real, real) -> real, // np.arctan2(y, x)
    inverse: Mat3 -> Mat3)         // np.matrix(m).I

  /** The only facts about the numpy functions that the proofs use. */
  ghost predicate Laws(lib: Libm) {
    && lib.cos(0.0) == 1.0
    && lib.sin(0.0) == 0.0
    && lib.arccos(1.0) == 0.0
    && (forall x :: 0.0 <= x ==> 0.0 <= lib.sqrt(x) && lib.sqrt(x) * lib.sqrt(x) == x)
    && (forall p :: 0.0 < p ==> lib.power(0.0, p) == 0.0 && lib.power(1.0, p) == 1.0)
  }

  function Abs(x: real): (r: real)
    ensures 0.0 <= r && (r == x || r == -x)
  {
    if x < 0.0 then -x else x
  }

  /** Python's max of two numbers. */
  function Max(x: real, y: real): (r: real)
    ensures x <= r && y <= r && (r == x || r == y)
  {
    if x >= y then x else y
  }

  /** Python 3's round(x): the nearest integer, and on a tie the even one. */
  function Round(x: real): (r: int)
    ensures -0.5 <= x - r as real <= 0.5
    ensures x - r as real == 0.5 || r as real - x == 0.5 ==> r % 2 == 0
  {
    var f := x.Floor;
    var d := x - f as real;
    if d < 0.5 then f
    else if d > 0.5 then f + 1
    else if f % 2 == 0 then f
    else f + 1
  }

  /** Rounding a whole number gives it back. */
  lemma RoundWhole(n: int)
    ensures Round(n as real) == n
  {
  }

  /** Squaring is strictly increasing on the non-negative reals. */
  lemma SquareIncreasing(a: real, b: real)
    requires 0.0 <= a < b
    ensures a * a < b * b
  {
    assert a * (b - a) >= 0.0;
    assert a * (b - a) == a * b - a * a;
    assert b * (b - a) > 0.0;
    assert b * (b - a) == b * b - a * b;
  }

  /** Two non-negative reals with the same square are equal. */
  lemma NonNegativeRootUnique(a: real, b: real)
    requires 0.0 <= a && 0.0 <= b && a * a == b * b
    ensures a == b
  {
    if a < b {
      SquareIncreasing(a, b);
    } else if b < a {
      SquareIncreasing(b, a);
    }
  }

  /** Only zero squares to zero. */
  lemma SquareZero(x: real)
    ensures x * x == 0.0 <==> x == 0.0
  {
    if x != 0.0 {
      SquareIncreasing(0.0, Abs(x));
      assert Abs(x) * Abs(x) == x * x;
    }
  }

  /** Laws(lib) yields sqrt 0 = 0 and sqrt 1 = 1. */
  lemma SqrtOfZeroAndOne(lib: Libm)
    requires Laws(lib)
    ensures lib.sqrt(0.0) == 0.0 && lib.sqrt(1.0) == 1.0
  {
    NonNegativeRootUnique(lib.sqrt(0.0), 0.0);
    NonNegativeRootUnique(lib.sqrt(1.0), 1.0);
  }

  /** The square root of a square is the absolute value. */
  lemma SqrtOfSquare(lib: Libm, x: real, square: real)
    requires Laws(lib) && square == x * x
    ensures lib.sqrt(square) == Abs(x)
  {
    assert Abs(x) * Abs(x) == square;
    NonNegativeRootUnique(lib.sqrt(square), Abs(x));
  }
}
