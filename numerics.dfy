/** The host's numeric primitives that the geometry engine calls: Math.sqrt, Math.atan2,
    Math.sin, Math.cos, Math.PI, and the IEEE test "not an infinity". They are passed to
    every operation that needs them as one record holding a table of values per primitive;
    the laws real arithmetic gives them are stated as predicates that lemmas take as
    hypotheses. */
module Numerics {

  /** A real function of one real argument, as a table holding every argument. */
  type RealFn = f: imap<real, real> | forall x :: x in f
    ghost witness imap x: real :: 0.0

  /** A real function of two real arguments, as a table holding every pair. */
  type RealFn2 = f: imap<(real, real), real> | forall p :: p in f
    ghost witness imap p: (real, real) :: 0.0

  /** A test on reals, as a table holding every argument. */
  type RealTest = f: imap<real, bool> | forall x :: x in f
    ghost witness imap x: real :: true

  datatype Maths = Maths(
    sqrtTable: RealFn,
    atan2Table: RealFn2,     // atan2(y, x), as Math.atan2
    sinTable: RealFn,
    cosTable: RealFn,
    pi: real,
    finiteTable: RealTest    // false exactly for the IEEE infinities
  )

  function Sqrt(m: Maths, x: real): real
  {
    m.sqrtTable[x]
  }

  function Atan2(m: Maths, y: real, x: real): real
  {
    m.atan2Table[(y, x)]
  }

  function Sin(m: Maths, t: real): real
  {
    m.sinTable[t]
  }

  function Cos(m: Maths, t: real): real
  {
    m.cosTable[t]
  }

  function IsFinite(m: Maths, x: real): bool
  {
    m.finiteTable[x]
  }

  /** Math.sqrt returns the non-negative square root of a non-negative argument. */
  ghost predicate IsSqrt(m: Maths)
  {
    forall x :: 0.0 <= x ==> 0.0 <= Sqrt(m, x) && Sqrt(m, x) * Sqrt(m, x) == x
  }

  /** Adding a quarter turn to an angle: cos(t + pi/2) = -sin t and sin(t + pi/2) = cos t. */
  predicate QuarterTurn(m: Maths, t: real)
  {
    Cos(m, t + m.pi * 0.5) == -Sin(m, t) && Sin(m, t + m.pi * 0.5) == Cos(m, t)
  }

  /** atan2(y, x) is the polar angle of a non-zero vector (x, y). */
  predicate Polar(m: Maths, x: real, y: real)
  {
    (x != 0.0 || y != 0.0) ==>
      Cos(m, Atan2(m, y, x)) * Sqrt(m, x * x + y * y) == x &&
      Sin(m, Atan2(m, y, x)) * Sqrt(m, x * x + y * y) == y
  }

  /** The sine is positive strictly between 0 and pi. */
  predicate SinPositive(m: Maths, t: real)
  {
    0.0 < t < m.pi ==> 0.0 < Sin(m, t)
  }

  /** atan2 is 0 on the positive x axis and positive in the upper half plane. */
  predicate Atan2Sign(m: Maths, y: real, x: real)
  {
    (y == 0.0 && 0.0 < x ==> Atan2(m, y, x) == 0.0) &&
    (0.0 < y ==> 0.0 < Atan2(m, y, x))
  }

  /** sin t * sin t + cos t * cos t == 1, and the sine is odd. */
  predicate Pythagoras(m: Maths, t: real)
  {
    Sin(m, t) * Sin(m, t) + Cos(m, t) * Cos(m, t) == 1.0 && Sin(m, -t) == -Sin(m, t)
  }

  /** The trigonometric facts the model relies on; all hold of the real functions. */
  ghost predicate IsTrig(m: Maths)
  {
    && 0.0 < m.pi
    && Sin(m, 0.0) == 0.0 && Cos(m, 0.0) == 1.0
    && (forall t :: Pythagoras(m, t))
    && (forall t :: QuarterTurn(m, t))
    && (forall x, y :: Polar(m, x, y))
    && (forall t :: SinPositive(m, t))
    && (forall y, x :: Atan2Sign(m, y, x))
  }

  lemma SquareNonNegative(p: real)
    ensures 0.0 <= p * p
  {
  }

  lemma ProductNonNegative(a: real, b: real)
    requires 0.0 <= a && 0.0 <= b
    ensures 0.0 <= a * b
  {
  }

  /** Two non-negative numbers with the same square are equal. */
  lemma SquareRootUnique(t: real, u: real)
    requires 0.0 <= t && 0.0 <= u && t * t == u * u
    ensures t == u
  {
    assert (u - t) * (u + t) == u * u - t * t == 0.0;
    if u + t != 0.0 {
      assert u - t == 0.0;
    }
  }

  /** The square root scales: if y == r * r * x for non-negative r and x, then
      sqrt(y) == r * sqrt(x). */
  lemma SqrtScale(m: Maths, r: real, x: real, y: real)
    requires IsSqrt(m) && 0.0 <= r && 0.0 <= x && y == r * r * x
    ensures Sqrt(m, y) == r * Sqrt(m, x)
  {
    var s := Sqrt(m, x);
    assert 0.0 <= s && s * s == x;
    SquareNonNegative(r);
    assert 0.0 <= r * r * x by { ProductNonNegative(r * r, x); }
    var t := Sqrt(m, y);
    assert 0.0 <= t && t * t == y;
    assert (r * s) * (r * s) == r * r * (s * s);
    SquareRootUnique(t, r * s);
  }

  /** sqrt(0) == 0, sqrt(1) == 1, and sqrt is positive on positive arguments. */
  lemma SqrtValues(m: Maths, x: real)
    requires IsSqrt(m)
    ensures Sqrt(m, 0.0) == 0.0 && Sqrt(m, 1.0) == 1.0
    ensures 0.0 < x ==> 0.0 < Sqrt(m, x)
  {
    SquareRootUnique(Sqrt(m, 0.0), 0.0);
    SquareRootUnique(Sqrt(m, 1.0), 1.0);
    if 0.0 < x {
      assert Sqrt(m, x) * Sqrt(m, x) == x;
    }
  }
}
