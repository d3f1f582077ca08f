/** Rotations as six numbers, decoded by Gram-Schmidt, and rigid transforms with body-frame deltas. */
module Rot6d {
  import opened RealSums
  import opened Options

  datatype Vec3 = Vec3(x: real, y: real, z: real)

  /** A 3x3 matrix by its columns. */
  datatype Mat3 = Mat3(c0: Vec3, c1: Vec3, c2: Vec3)

  /** The first two columns. */
  datatype Rot6 = Rot6(r1: Vec3, r2: Vec3)

  datatype Decoded = Matrix(m: Mat3) | Degenerate

  function Dot(a: Vec3, b: Vec3): real {
    a.x * b.x + a.y * b.y + a.z * b.z
  }

  function Cross(a: Vec3, b: Vec3): Vec3 {
    Vec3(a.y * b.z - a.z * b.y, a.z * b.x - a.x * b.z, a.x * b.y - a.y * b.x)
  }

  function Scale(k: real, a: Vec3): Vec3 {
    Vec3(k * a.x, k * a.y, k * a.z)
  }

  function Minus(a: Vec3, b: Vec3): Vec3 {
    Vec3(a.x - b.x, a.y - b.y, a.z - b.z)
  }

  function Determinant(m: Mat3): real {
    Dot(Cross(m.c0, m.c1), m.c2)
  }

  /** Orthonormal columns and determinant 1. */
  ghost predicate IsRotation(m: Mat3) {
    && Dot(m.c0, m.c0) == 1.0 && Dot(m.c1, m.c1) == 1.0 && Dot(m.c2, m.c2) == 1.0
    && Dot(m.c0, m.c1) == 0.0 && Dot(m.c0, m.c2) == 0.0 && Dot(m.c1, m.c2) == 0.0
    && Determinant(m) == 1.0
  }

  const TINY: real := 0.00000001

  /** `matrix_to_rot6d`. */
  function Encode(m: Mat3): Rot6 {
    Rot6(m.c0, m.c1)
  }

  /** `rot6d_to_matrix`. */
  function Decode(r: Rot6, sqrt: real -> real): Decoded {
    var n1 := sqrt(Dot(r.r1, r.r1));
    if n1 < TINY then Degenerate
    else
      var b1 := Scale(1.0 / n1, r.r1);
      var perp := Minus(r.r2, Scale(Dot(b1, r.r2), b1));
      var n2 := sqrt(Dot(perp, perp));
      if n2 < TINY then Degenerate
      else
        var b2 := Scale(1.0 / n2, perp);
        Matrix(Mat3(b1, b2, Cross(b1, b2)))
  }

  // ---------- vector identities ----------

  lemma DotScale(k: real, a: Vec3, b: Vec3)
    ensures Dot(Scale(k, a), b) == k * Dot(a, b)
    ensures Dot(b, Scale(k, a)) == k * Dot(a, b)
  {
    Distribute(k, a.x * b.x, a.y * b.y, a.z * b.z);
    Regroup(k, a.x, b.x);
    Regroup(k, a.y, b.y);
    Regroup(k, a.z, b.z);
  }

  lemma Distribute(k: real, x: real, y: real, z: real)
    ensures k * (x + y + z) == k * x + k * y + k * z
  {
  }

  lemma Regroup(k: real, a: real, b: real)
    ensures (k * a) * b == k * (a * b) && b * (k * a) == k * (a * b)
  {
  }

  lemma DotMinus(a: Vec3, b: Vec3, c: Vec3)
    ensures Dot(a, Minus(b, c)) == Dot(a, b) - Dot(a, c)
  {
  }

  lemma DotCommutes(a: Vec3, b: Vec3)
    ensures Dot(a, b) == Dot(b, a)
  {
  }

  lemma DotNonNegative(a: Vec3)
    ensures Dot(a, a) >= 0.0
  {
    assert a.x * a.x >= 0.0 && a.y * a.y >= 0.0 && a.z * a.z >= 0.0;
  }

  lemma SquareNonNegative(x: real)
    ensures x * x >= 0.0 && (x * x == 0.0 ==> x == 0.0)
  {
    if x != 0.0 {
      assert x * (x * (1.0 / x)) == x;
    }
  }

  lemma DotZero(a: Vec3)
    requires Dot(a, a) == 0.0
    ensures a == Vec3(0.0, 0.0, 0.0)
  {
    SquareNonNegative(a.x);
    SquareNonNegative(a.y);
    SquareNonNegative(a.z);
  }

  lemma CrossOrthogonal(a: Vec3, b: Vec3)
    ensures Dot(a, Cross(a, b)) == 0.0 && Dot(b, Cross(a, b)) == 0.0
  {
    Cyclic(a.x, a.y, a.z, b.x, b.y, b.z);
    Cyclic(b.x, b.y, b.z, a.x, a.y, a.z);
  }

  lemma Cyclic(x: real, y: real, z: real, u: real, v: real, w: real)
    ensures x * (y * w - z * v) + y * (z * u - x * w) + z * (x * v - y * u) == 0.0
  {
  }

  /** Lagrange's identity. */
  lemma CrossNorm(a: Vec3, b: Vec3)
    ensures Dot(Cross(a, b), Cross(a, b)) == Dot(a, a) * Dot(b, b) - Dot(a, b) * Dot(a, b)
  {
    Lagrange(a.x, a.y, a.z, b.x, b.y, b.z);
  }

  lemma Lagrange(x: real, y: real, z: real, u: real, v: real, w: real)
    ensures (y * w - z * v) * (y * w - z * v) + (z * u - x * w) * (z * u - x * w) + (x * v - y * u) * (x * v - y * u)
         == (x * x + y * y + z * z) * (u * u + v * v + w * w) - (x * u + y * v + z * w) * (x * u + y * v + z * w)
  {
  }

  lemma UnitRoot(sqrt: real -> real)
    requires IsRoot(sqrt)
    ensures sqrt(1.0) == 1.0
  {
    var r := sqrt(1.0);
    assert r * r == 1.0;
    assert (r * r - 1.0) * (1.0 / (r + 1.0)) == r - 1.0;
  }

  // ---------- decoding gives a rotation ----------

  /** Dividing a vector by its norm. */
  lemma Normalizes(v: Vec3, n: real)
    requires n > 0.0 && n * n == Dot(v, v)
    ensures Dot(Scale(1.0 / n, v), Scale(1.0 / n, v)) == 1.0
  {
    hide Dot;
    hide Scale;
    var k := 1.0 / n;
    DotScale(k, v, Scale(k, v));
    DotScale(k, v, v);
    assert k * n == 1.0;
    assert k * (k * (n * n)) == (k * n) * (k * n);
  }

  lemma PerpendicularPart(b: Vec3, v: Vec3)
    requires Dot(b, b) == 1.0
    ensures Dot(b, Minus(v, Scale(Dot(b, v), b))) == 0.0
    ensures var p := Minus(v, Scale(Dot(b, v), b)); Dot(p, p) == Dot(v, v) - Dot(b, v) * Dot(b, v)
  {
    hide Dot;
    hide Minus;
    hide Scale;
    var d := Dot(b, v);
    var p := Minus(v, Scale(d, b));
    DotMinus(b, v, Scale(d, b));
    DotScale(d, b, b);
    DotMinus(p, v, Scale(d, b));
    DotScale(d, b, p);
    DotCommutes(p, v);
    DotMinus(v, v, Scale(d, b));
    DotScale(d, b, v);
  }

  lemma OrthonormalFrame(b1: Vec3, b2: Vec3)
    requires Dot(b1, b1) == 1.0 && Dot(b2, b2) == 1.0 && Dot(b1, b2) == 0.0
    ensures IsRotation(Mat3(b1, b2, Cross(b1, b2)))
  {
    hide Dot;
    hide Cross;
    CrossOrthogonal(b1, b2);
    CrossNorm(b1, b2);
  }

  lemma RootNonNegative(sqrt: real -> real, x: real)
    requires IsRoot(sqrt) && x >= 0.0
    ensures sqrt(x) >= 0.0 && sqrt(x) * sqrt(x) == x
  {
  }

  /** Whatever decodes, decodes to a rotation. */
  lemma DecodeIsRotation(r: Rot6, sqrt: real -> real)
    requires IsRoot(sqrt) && Decode(r, sqrt).Matrix?
    ensures IsRotation(Decode(r, sqrt).m)
  {
    hide Dot;
    hide Minus;
    hide Scale;
    hide Cross;
    hide IsRoot;
    hide IsRotation;
    DotNonNegative(r.r1);
    var n1 := sqrt(Dot(r.r1, r.r1));
    RootNonNegative(sqrt, Dot(r.r1, r.r1));
    Normalizes(r.r1, n1);
    var b1 := Scale(1.0 / n1, r.r1);
    PerpendicularPart(b1, r.r2);
    var perp := Minus(r.r2, Scale(Dot(b1, r.r2), b1));
    DotNonNegative(perp);
    var n2 := sqrt(Dot(perp, perp));
    RootNonNegative(sqrt, Dot(perp, perp));
    Normalizes(perp, n2);
    var b2 := Scale(1.0 / n2, perp);
    DotCommutes(b1, perp);
    DotScale(1.0 / n2, perp, b1);
    OrthonormalFrame(b1, b2);
  }

  function Plus(a: Vec3, b: Vec3): Vec3 {
    Vec3(a.x + b.x, a.y + b.y, a.z + b.z)
  }

  /** r1 is k times the first column, k > 0; r2 is a combination of the first two with a positive part of the second. */
  ghost predicate Spans(m: Mat3, r: Rot6, k: real, a: real, b: real) {
    k > 0.0 && b > 0.0 && r.r1 == Scale(k, m.c0) && r.r2 == Plus(Scale(a, m.c0), Scale(b, m.c1))
  }

  lemma ScaleUndone(v: Vec3, n: real)
    requires n != 0.0
    ensures Scale(n, Scale(1.0 / n, v)) == v && Scale(1.0 / n, Scale(n, v)) == v
  {
    ProductUndone(v.x, n);
    ProductUndone(v.y, n);
    ProductUndone(v.z, n);
  }

  lemma ProductUndone(x: real, n: real)
    requires n != 0.0
    ensures n * (1.0 / n * x) == x && 1.0 / n * (n * x) == x
  {
    assert n * (1.0 / n) == 1.0;
    assert n * (1.0 / n * x) == (n * (1.0 / n)) * x;
    assert 1.0 / n * (n * x) == (n * (1.0 / n)) * x;
  }

  lemma PlusMinus(v: Vec3, w: Vec3)
    ensures Plus(w, Minus(v, w)) == v && Minus(Plus(w, v), w) == v
  {
  }

  /** Decoding keeps the directions: the columns come from r1 and r2 by orthogonalization. */
  lemma DecodeSpans(r: Rot6, sqrt: real -> real)
    requires Decode(r, sqrt).Matrix?
    ensures exists k, a, b :: Spans(Decode(r, sqrt).m, r, k, a, b)
  {
    hide Dot;
    hide Minus;
    hide Plus;
    hide Scale;
    hide Cross;
    var n1 := sqrt(Dot(r.r1, r.r1));
    ScaleUndone(r.r1, n1);
    var b1 := Scale(1.0 / n1, r.r1);
    var along := Scale(Dot(b1, r.r2), b1);
    var perp := Minus(r.r2, along);
    PlusMinus(r.r2, along);
    var n2 := sqrt(Dot(perp, perp));
    ScaleUndone(perp, n2);
    assert Spans(Decode(r, sqrt).m, r, n1, Dot(b1, r.r2), n2);
  }

  lemma DotPlus(a: Vec3, b: Vec3, c: Vec3)
    ensures Dot(a, Plus(b, c)) == Dot(a, b) + Dot(a, c)
  {
  }

  lemma RootUnique(sqrt: real -> real, k: real, x: real)
    requires IsRoot(sqrt) && k > 0.0 && x == k * k
    ensures sqrt(x) == k
  {
    RootNonNegative(sqrt, x);
    var s := sqrt(x);
    SquaresCompare(s, k);
    if s > 0.0 {
      SquaresCompare(k, s);
    }
  }

  /** ... and only one rotation has these directions. */
  lemma SpansUnique(m: Mat3, r: Rot6, sqrt: real -> real, k: real, a: real, b: real)
    requires IsRoot(sqrt) && IsRotation(m) && Spans(m, r, k, a, b) && Decode(r, sqrt).Matrix?
    ensures Decode(r, sqrt).m == m
  {
    hide Dot;
    hide Minus;
    hide Plus;
    hide Scale;
    hide Cross;
    hide IsRoot;
    ThirdColumn(m);
    DotScale(k, m.c0, m.c0);
    DotScale(k, m.c0, r.r1);
    assert Dot(r.r1, r.r1) == k * k;
    RootUnique(sqrt, k, k * k);
    ScaleUndone(m.c0, k);
    DotPlus(m.c0, Scale(a, m.c0), Scale(b, m.c1));
    DotScale(a, m.c0, m.c0);
    DotScale(b, m.c1, m.c0);
    DotCommutes(m.c0, m.c1);
    assert Dot(m.c0, r.r2) == a;
    var perp := Scale(b, m.c1);
    PlusMinus(perp, Scale(a, m.c0));
    DotScale(b, m.c1, perp);
    DotScale(b, m.c1, m.c1);
    assert Dot(perp, perp) == b * b;
    RootUnique(sqrt, b, b * b);
    ScaleUndone(m.c1, b);
  }

  /** In a rotation the third column is the cross product of the others. */
  lemma ThirdColumn(m: Mat3)
    requires IsRotation(m)
    ensures m.c2 == Cross(m.c0, m.c1)
  {
    hide Dot;
    hide Cross;
    hide Minus;
    var c, d := Cross(m.c0, m.c1), Minus(Cross(m.c0, m.c1), m.c2);
    CrossNorm(m.c0, m.c1);
    DotMinus(d, c, m.c2);
    DotCommutes(d, c);
    DotCommutes(d, m.c2);
    DotMinus(c, c, m.c2);
    DotMinus(m.c2, c, m.c2);
    DotCommutes(m.c2, c);
    DotZero(d);
    MinusZero(c, m.c2);
  }

  lemma MinusZero(a: Vec3, b: Vec3)
    requires Minus(a, b) == Vec3(0.0, 0.0, 0.0)
    ensures a == b
  {
  }

  lemma ScaleUnits(a: Vec3, b: Vec3)
    ensures Scale(1.0 / 1.0, a) == a && Minus(a, Scale(0.0, b)) == a
  {
  }

  /** Decoding inverts encoding on every rotation. */
  lemma DecodeInvertsEncode(m: Mat3, sqrt: real -> real)
    requires IsRoot(sqrt) && IsRotation(m)
    ensures Decode(Encode(m), sqrt) == Matrix(m)
  {
    hide Dot;
    hide Cross;
    hide Minus;
    hide Scale;
    hide IsRoot;
    UnitRoot(sqrt);
    ThirdColumn(m);
    ScaleUnits(m.c0, m.c0);
    ScaleUnits(m.c1, m.c0);
  }

  // ---------- when decoding fails ----------

  /** Squared norm of r1, and of r2 less its component along r1, below 1e-16. */
  ghost predicate NearlyDegenerate(r: Rot6) {
    var s1 := Dot(r.r1, r.r1);
    s1 < TINY * TINY ||
    Dot(r.r2, r.r2) - Dot(r.r1, r.r2) * Dot(r.r1, r.r2) / s1 < TINY * TINY
  }

  lemma PositiveProduct(x: real, y: real)
    requires x > 0.0 && y > 0.0
    ensures x * y > 0.0
  {
  }

  lemma SquaresCompare(r: real, t: real)
    requires r >= 0.0 && t > 0.0
    ensures r < t <==> r * r < t * t
  {
    if r < t {
      PositiveProduct(t - r, t + r);
      assert (t - r) * (t + r) == t * t - r * r;
    } else {
      assert (r - t) * (t + r) >= 0.0;
      assert (r - t) * (t + r) == r * r - t * t;
    }
  }

  lemma RootBelow(sqrt: real -> real, x: real)
    requires IsRoot(sqrt) && x >= 0.0
    ensures sqrt(x) < TINY <==> x < TINY * TINY
  {
    RootNonNegative(sqrt, x);
    SquaresCompare(sqrt(x), TINY);
  }

  lemma ProjectionLength(r: Rot6, n: real)
    requires n > 0.0 && n * n == Dot(r.r1, r.r1)
    ensures var d := Dot(Scale(1.0 / n, r.r1), r.r2);
            d * d == Dot(r.r1, r.r2) * Dot(r.r1, r.r2) / Dot(r.r1, r.r1)
  {
    hide Dot;
    hide Scale;
    DotScale(1.0 / n, r.r1, r.r2);
    SquarePositive(n);
    var d, x := Dot(Scale(1.0 / n, r.r1), r.r2), Dot(r.r1, r.r2);
    assert d == 1.0 / n * x;
    SquareOfQuotient(x, n, d, Dot(r.r1, r.r1));
  }

  lemma SquareOfQuotient(x: real, n: real, y: real, s: real)
    requires n > 0.0 && s > 0.0 && n * n == s && y == 1.0 / n * x
    ensures y * y == x * x / s
  {
    assert y * n == x;
    assert y * y * s == (y * n) * (y * n);
  }

  lemma SquarePositive(n: real)
    requires n > 0.0
    ensures n * n > 0.0
  {
  }

  /** Decoding fails exactly on vectors that are nearly zero or nearly collinear. */
  lemma DecodeFailsIff(r: Rot6, sqrt: real -> real)
    requires IsRoot(sqrt)
    ensures Decode(r, sqrt).Degenerate? <==> NearlyDegenerate(r)
  {
    hide Dot;
    hide Minus;
    hide Scale;
    hide Cross;
    hide IsRoot;
    DotNonNegative(r.r1);
    var s1 := Dot(r.r1, r.r1);
    var n1 := sqrt(s1);
    RootBelow(sqrt, s1);
    if n1 >= TINY {
      RootNonNegative(sqrt, s1);
      Normalizes(r.r1, n1);
      var b1 := Scale(1.0 / n1, r.r1);
      PerpendicularPart(b1, r.r2);
      var perp := Minus(r.r2, Scale(Dot(b1, r.r2), b1));
      DotNonNegative(perp);
      RootBelow(sqrt, Dot(perp, perp));
      ProjectionLength(r, n1);
    }
  }

  // ---------- rigid transforms ----------

  datatype Vec4 = Vec4(x: real, y: real, z: real, w: real)

  /** A 4x4 matrix by its rows. */
  datatype Mat4 = Mat4(r0: Vec4, r1: Vec4, r2: Vec4, r3: Vec4)

  function Times(x: real, y: real): real {
    x * y
  }

  function Dot4(a: Vec4, b: Vec4): real {
    Times(a.x, b.x) + Times(a.y, b.y) + Times(a.z, b.z) + Times(a.w, b.w)
  }

  function Column(m: Mat4, j: nat): Vec4
    requires j < 4
  {
    if j == 0 then Vec4(m.r0.x, m.r1.x, m.r2.x, m.r3.x)
    else if j == 1 then Vec4(m.r0.y, m.r1.y, m.r2.y, m.r3.y)
    else if j == 2 then Vec4(m.r0.z, m.r1.z, m.r2.z, m.r3.z)
    else Vec4(m.r0.w, m.r1.w, m.r2.w, m.r3.w)
  }

  /** Row vector times matrix. */
  function RowMul(v: Vec4, m: Mat4): Vec4 {
    Vec4(Dot4(v, Column(m, 0)), Dot4(v, Column(m, 1)), Dot4(v, Column(m, 2)), Dot4(v, Column(m, 3)))
  }

  /** `a @ b`. */
  function Mul(a: Mat4, b: Mat4): Mat4 {
    Mat4(RowMul(a.r0, b), RowMul(a.r1, b), RowMul(a.r2, b), RowMul(a.r3, b))
  }

  const IDENTITY: Mat4 := Mat4(Vec4(1.0, 0.0, 0.0, 0.0), Vec4(0.0, 1.0, 0.0, 0.0),
                               Vec4(0.0, 0.0, 1.0, 0.0), Vec4(0.0, 0.0, 0.0, 1.0))

  lemma Dot4Mul(v: Vec4, b: Mat4, c: Vec4)
    ensures Dot4(RowMul(v, b), c) == Dot4(v, Vec4(Dot4(b.r0, c), Dot4(b.r1, c), Dot4(b.r2, c), Dot4(b.r3, c)))
  {
    hide Times;
    Scale4(v.x, b.r0, c);
    Scale4(v.y, b.r1, c);
    Scale4(v.z, b.r2, c);
    Scale4(v.w, b.r3, c);
    Collect4(v, b, 0, c.x);
    Collect4(v, b, 1, c.y);
    Collect4(v, b, 2, c.z);
    Collect4(v, b, 3, c.w);
  }

  lemma Scale4(k: real, a: Vec4, c: Vec4)
    ensures Times(k, Dot4(a, c)) ==
      Times(k, Times(a.x, c.x)) + Times(k, Times(a.y, c.y)) + Times(k, Times(a.z, c.z)) + Times(k, Times(a.w, c.w))
  {
  }

  lemma Collect4(v: Vec4, b: Mat4, j: nat, c: real)
    requires j < 4
    ensures var u := Column(b, j);
            Times(Dot4(v, u), c) ==
              Times(v.x, Times(u.x, c)) + Times(v.y, Times(u.y, c)) +
              Times(v.z, Times(u.z, c)) + Times(v.w, Times(u.w, c))
  {
    hide Column;
    var u := Column(b, j);
    Associate(v.x, u.x, c);
    Associate(v.y, u.y, c);
    Associate(v.z, u.z, c);
    Associate(v.w, u.w, c);
    Spread4(Times(v.x, u.x), Times(v.y, u.y), Times(v.z, u.z), Times(v.w, u.w), c);
  }

  lemma Associate(x: real, y: real, z: real)
    ensures Times(Times(x, y), z) == Times(x, Times(y, z))
  {
  }

  lemma Spread4(k: real, l: real, m: real, n: real, c: real)
    ensures Times(k + l + m + n, c) == Times(k, c) + Times(l, c) + Times(m, c) + Times(n, c)
  {
  }

  lemma RowMulAssociates(v: Vec4, b: Mat4, c: Mat4)
    ensures RowMul(RowMul(v, b), c) == RowMul(v, Mul(b, c))
  {
    hide Dot4;
    Dot4Mul(v, b, Column(c, 0));
    Dot4Mul(v, b, Column(c, 1));
    Dot4Mul(v, b, Column(c, 2));
    Dot4Mul(v, b, Column(c, 3));
  }

  lemma MulAssociates(a: Mat4, b: Mat4, c: Mat4)
    ensures Mul(Mul(a, b), c) == Mul(a, Mul(b, c))
  {
    hide RowMul;
    RowMulAssociates(a.r0, b, c);
    RowMulAssociates(a.r1, b, c);
    RowMulAssociates(a.r2, b, c);
    RowMulAssociates(a.r3, b, c);
  }

  lemma MulIdentity(a: Mat4)
    ensures Mul(IDENTITY, a) == a && Mul(a, IDENTITY) == a
  {
    RowIdentity(a.r0);
    RowIdentity(a.r1);
    RowIdentity(a.r2);
    RowIdentity(a.r3);
    IdentityRows(a);
  }

  lemma RowIdentity(v: Vec4)
    ensures RowMul(v, IDENTITY) == v
  {
  }

  lemma IdentityRows(a: Mat4)
    ensures RowMul(Vec4(1.0, 0.0, 0.0, 0.0), a) == a.r0 && RowMul(Vec4(0.0, 1.0, 0.0, 0.0), a) == a.r1
    ensures RowMul(Vec4(0.0, 0.0, 1.0, 0.0), a) == a.r2 && RowMul(Vec4(0.0, 0.0, 0.0, 1.0), a) == a.r3
  {
  }

  ghost predicate Inverts(a: Mat4, b: Mat4) {
    Mul(a, b) == IDENTITY && Mul(b, a) == IDENTITY
  }

  lemma InverseUnique(a: Mat4, b: Mat4, c: Mat4)
    requires Inverts(a, b) && Inverts(a, c)
    ensures b == c
  {
    hide Mul;
    MulAssociates(b, a, c);
    MulIdentity(b);
    MulIdentity(c);
  }

  /** `np.linalg.inv`: the inverse if there is one. */
  ghost function Invert(a: Mat4): (r: Option<Mat4>)
    ensures r.Some? ==> Inverts(a, r.value)
    ensures r.None? ==> forall b :: !Inverts(a, b)
  {
    if exists b :: Inverts(a, b) then
      var b :| Inverts(a, b);
      Some(b)
    else None
  }

  /** `se3_body_delta`. */
  ghost function BodyDelta(state: Mat4, target: Mat4): Option<Mat4> {
    var i := Invert(state);
    if i.Some? then Some(Mul(i.value, target)) else None
  }

  /** `se3_body_compose`. */
  function BodyCompose(state: Mat4, delta: Mat4): Mat4 {
    Mul(state, delta)
  }

  /**
    Composing an invertible pose with its delta to a target gives the target, and the delta of a composition is
    the delta.
  */
  lemma ComposeInvertsDelta(state: Mat4, other: Mat4)
    requires Invert(state).Some?
    ensures BodyDelta(state, other).Some? && BodyCompose(state, BodyDelta(state, other).value) == other
    ensures BodyDelta(state, BodyCompose(state, other)) == Some(other)
  {
    hide Mul;
    var i := Invert(state).value;
    MulAssociates(state, i, other);
    MulAssociates(i, state, other);
    MulIdentity(other);
  }

  // ---------- poses ----------

  datatype Pose = Pose(xyz: Vec3, r6: Rot6)

  function Rigid(m: Mat3, t: Vec3): Mat4 {
    Mat4(Vec4(m.c0.x, m.c1.x, m.c2.x, t.x), Vec4(m.c0.y, m.c1.y, m.c2.y, t.y), Vec4(m.c0.z, m.c1.z, m.c2.z, t.z),
         Vec4(0.0, 0.0, 0.0, 1.0))
  }

  /** `pose_to_SE3`. */
  function PoseToSE3(p: Pose, sqrt: real -> real): Option<Mat4> {
    var m := Decode(p.r6, sqrt);
    if m.Matrix? then Some(Rigid(m.m, p.xyz)) else None
  }

  /** `SE3_to_pose`. */
  function SE3ToPose(a: Mat4): Pose {
    Pose(Vec3(a.r0.w, a.r1.w, a.r2.w),
         Encode(Mat3(Vec3(a.r0.x, a.r1.x, a.r2.x), Vec3(a.r0.y, a.r1.y, a.r2.y), Vec3(a.r0.z, a.r1.z, a.r2.z))))
  }

  /** Unpacking a rigid transform and packing it again gives it back. */
  lemma PackInvertsUnpack(m: Mat3, t: Vec3, sqrt: real -> real)
    requires IsRoot(sqrt) && IsRotation(m)
    ensures PoseToSE3(SE3ToPose(Rigid(m, t)), sqrt) == Some(Rigid(m, t))
  {
    hide Decode;
    DecodeInvertsEncode(m, sqrt);
  }

  /**
    Packing a pose that decodes and unpacking it gives back its position and the orthonormal form of its rotation,
    and from then on packing and unpacking change nothing.
  */
  lemma UnpackInvertsPack(p: Pose, sqrt: real -> real)
    requires IsRoot(sqrt) && PoseToSE3(p, sqrt).Some?
    ensures var a := PoseToSE3(p, sqrt).value;
            SE3ToPose(a).xyz == p.xyz && SE3ToPose(a).r6 == Encode(Decode(p.r6, sqrt).m) &&
            PoseToSE3(SE3ToPose(a), sqrt) == Some(a)
  {
    hide Decode;
    DecodeIsRotation(p.r6, sqrt);
    PackInvertsUnpack(Decode(p.r6, sqrt).m, p.xyz, sqrt);
  }

  function Transposed(m: Mat3): Mat3 {
    Mat3(Vec3(m.c0.x, m.c1.x, m.c2.x), Vec3(m.c0.y, m.c1.y, m.c2.y), Vec3(m.c0.z, m.c1.z, m.c2.z))
  }

  /** The transpose of the rotation, and the translation rotated back and negated. */
  function RigidInverse(m: Mat3, t: Vec3): Mat4 {
    Rigid(Transposed(m), Vec3(-Dot(m.c0, t), -Dot(m.c1, t), -Dot(m.c2, t)))
  }

  lemma LeftInverseRow(c: Vec3, m: Mat3, t: Vec3)
    ensures RowMul(Vec4(c.x, c.y, c.z, -Dot(c, t)), Rigid(m, t)) == Vec4(Dot(c, m.c0), Dot(c, m.c1), Dot(c, m.c2), 0.0)
  {
  }

  lemma LastRow(m: Mat3, t: Vec3)
    ensures RowMul(Vec4(0.0, 0.0, 0.0, 1.0), Rigid(m, t)) == Vec4(0.0, 0.0, 0.0, 1.0)
  {
  }

  lemma RigidLeftInverse(m: Mat3, t: Vec3)
    requires IsRotation(m)
    ensures Mul(RigidInverse(m, t), Rigid(m, t)) == IDENTITY
  {
    hide RowMul;
    hide Dot;
    LeftInverseRow(m.c0, m, t);
    LeftInverseRow(m.c1, m, t);
    LeftInverseRow(m.c2, m, t);
    LastRow(m, t);
    DotCommutes(m.c0, m.c1);
    DotCommutes(m.c0, m.c2);
    DotCommutes(m.c1, m.c2);
  }

  // ---------- every pose can be inverted ----------

  lemma CyclicRotation(m: Mat3)
    requires IsRotation(m)
    ensures IsRotation(Mat3(m.c1, m.c2, m.c0))
  {
    hide Dot;
    hide Cross;
    DotCommutes(m.c0, m.c1);
    DotCommutes(m.c0, m.c2);
    TripleProduct(m.c0, m.c1, m.c2);
  }

  lemma TripleProduct(a: Vec3, b: Vec3, c: Vec3)
    ensures Dot(Cross(b, c), a) == Dot(Cross(a, b), c)
  {
    Triple(a.x, a.y, a.z, b.x, b.y, b.z, c.x, c.y, c.z);
  }

  lemma Triple(x: real, y: real, z: real, u: real, v: real, w: real, p: real, q: real, r: real)
    ensures (v * r - w * q) * x + (w * p - u * r) * y + (u * q - v * p) * z
         == (y * w - z * v) * p + (z * u - x * w) * q + (x * v - y * u) * r
  {
  }

  /** The columns are the cross products of the others, in cyclic order. */
  lemma ColumnsAreCrosses(m: Mat3)
    requires IsRotation(m)
    ensures m.c0 == Cross(m.c1, m.c2) && m.c1 == Cross(m.c2, m.c0) && m.c2 == Cross(m.c0, m.c1)
  {
    hide IsRotation;
    hide Cross;
    CyclicRotation(m);
    var n := Mat3(m.c1, m.c2, m.c0);
    CyclicRotation(n);
    ThirdColumn(m);
    ThirdColumn(n);
    ThirdColumn(Mat3(n.c1, n.c2, n.c0));
  }

  /** Pairing the columns with the cross products of the others, row by row, gives the determinant or zero. */
  lemma AdjugateRows(a: Vec3, b: Vec3, c: Vec3)
    ensures a.x * Cross(b, c).x + b.x * Cross(c, a).x + c.x * Cross(a, b).x == Dot(Cross(a, b), c)
    ensures a.y * Cross(b, c).y + b.y * Cross(c, a).y + c.y * Cross(a, b).y == Dot(Cross(a, b), c)
    ensures a.z * Cross(b, c).z + b.z * Cross(c, a).z + c.z * Cross(a, b).z == Dot(Cross(a, b), c)
  {
    AdjugateX(a, b, c);
    AdjugateY(a, b, c);
    AdjugateZ(a, b, c);
  }

  function Product(a: real, b: real, c: real): real {
    a * b * c
  }

  lemma Permute(a: real, b: real, c: real)
    ensures Product(a, b, c) == Product(b, c, a) == Product(c, a, b)
    ensures Product(a, b, c) == Product(a, c, b) == Product(b, a, c)
  {
  }

  lemma TimesCross(k: real, b: Vec3, c: Vec3)
    ensures k * Cross(b, c).x == Product(k, b.y, c.z) - Product(k, b.z, c.y)
    ensures k * Cross(b, c).y == Product(k, b.z, c.x) - Product(k, b.x, c.z)
    ensures k * Cross(b, c).z == Product(k, b.x, c.y) - Product(k, b.y, c.x)
  {
    TimesDifference(k, b.y, c.z, b.z, c.y);
    TimesDifference(k, b.z, c.x, b.x, c.z);
    TimesDifference(k, b.x, c.y, b.y, c.x);
  }

  lemma TimesDifference(k: real, a: real, b: real, c: real, d: real)
    ensures k * (a * b - c * d) == Product(k, a, b) - Product(k, c, d)
  {
  }

  /** The determinant as six products. */
  lemma SixProducts(a: Vec3, b: Vec3, c: Vec3)
    ensures Dot(Cross(a, b), c) ==
      Product(c.x, a.y, b.z) - Product(c.x, a.z, b.y) + Product(c.y, a.z, b.x) - Product(c.y, a.x, b.z)
      + Product(c.z, a.x, b.y) - Product(c.z, a.y, b.x)
  {
    hide Product;
    hide Cross;
    TimesCross(c.x, a, b);
    TimesCross(c.y, a, b);
    TimesCross(c.z, a, b);
    DotIs(Cross(a, b), c);
  }

  lemma DotIs(a: Vec3, b: Vec3)
    ensures Dot(a, b) == b.x * a.x + b.y * a.y + b.z * a.z
  {
  }

  lemma AdjugateX(a: Vec3, b: Vec3, c: Vec3)
    ensures a.x * Cross(b, c).x + b.x * Cross(c, a).x + c.x * Cross(a, b).x == Dot(Cross(a, b), c)
  {
    hide Product;
    hide Cross;
    hide Dot;
    SixProducts(a, b, c);
    TimesCross(a.x, b, c);
    TimesCross(b.x, c, a);
    TimesCross(c.x, a, b);
    Permute(a.x, b.y, c.z);
    Permute(a.x, b.z, c.y);
    Permute(b.x, c.y, a.z);
    Permute(b.x, c.z, a.y);
  }

  function Turned(a: Vec3): Vec3 {
    Vec3(a.y, a.z, a.x)
  }

  lemma TurnedFrame(a: Vec3, b: Vec3, c: Vec3)
    ensures Cross(Turned(a), Turned(b)) == Turned(Cross(a, b)) && Dot(Turned(a), Turned(c)) == Dot(a, c)
  {
  }

  lemma AdjugateY(a: Vec3, b: Vec3, c: Vec3)
    ensures a.y * Cross(b, c).y + b.y * Cross(c, a).y + c.y * Cross(a, b).y == Dot(Cross(a, b), c)
  {
    hide Cross;
    hide Dot;
    AdjugateX(Turned(a), Turned(b), Turned(c));
    TurnedFrame(b, c, a);
    TurnedFrame(c, a, b);
    TurnedFrame(a, b, c);
    TurnedFrame(Cross(a, b), a, c);
  }

  lemma AdjugateZ(a: Vec3, b: Vec3, c: Vec3)
    ensures a.z * Cross(b, c).z + b.z * Cross(c, a).z + c.z * Cross(a, b).z == Dot(Cross(a, b), c)
  {
    hide Cross;
    hide Dot;
    AdjugateY(Turned(a), Turned(b), Turned(c));
    TurnedFrame(b, c, a);
    TurnedFrame(c, a, b);
    TurnedFrame(a, b, c);
    TurnedFrame(Cross(a, b), a, c);
  }

  lemma AdjugateOff(a: Vec3, b: Vec3, c: Vec3)
    ensures a.x * Cross(b, c).y + b.x * Cross(c, a).y + c.x * Cross(a, b).y == 0.0
    ensures a.x * Cross(b, c).z + b.x * Cross(c, a).z + c.x * Cross(a, b).z == 0.0
    ensures a.y * Cross(b, c).z + b.y * Cross(c, a).z + c.y * Cross(a, b).z == 0.0
  {
    hide Cross;
    AdjugateXY(a, b, c);
    AdjugateXZ(a, b, c);
    AdjugateXY(Turned(a), Turned(b), Turned(c));
    TurnedFrame(b, c, a);
    TurnedFrame(c, a, b);
    TurnedFrame(a, b, c);
  }

  lemma AdjugateXY(a: Vec3, b: Vec3, c: Vec3)
    ensures a.x * Cross(b, c).y + b.x * Cross(c, a).y + c.x * Cross(a, b).y == 0.0
  {
    hide Product;
    hide Cross;
    TimesCross(a.x, b, c);
    TimesCross(b.x, c, a);
    TimesCross(c.x, a, b);
    Permute(a.x, b.z, c.x);
    Permute(b.x, c.z, a.x);
    Permute(c.x, a.z, b.x);
  }

  lemma AdjugateXZ(a: Vec3, b: Vec3, c: Vec3)
    ensures a.x * Cross(b, c).z + b.x * Cross(c, a).z + c.x * Cross(a, b).z == 0.0
  {
    hide Product;
    hide Cross;
    TimesCross(a.x, b, c);
    TimesCross(b.x, c, a);
    TimesCross(c.x, a, b);
    Permute(a.x, b.x, c.y);
    Permute(b.x, c.x, a.y);
    Permute(c.x, a.x, b.y);
  }

  /** The transpose of a rotation has orthonormal columns too. */
  lemma TransposeOrthonormal(m: Mat3)
    requires IsRotation(m)
    ensures var n := Transposed(m);
            Dot(n.c0, n.c0) == 1.0 && Dot(n.c1, n.c1) == 1.0 && Dot(n.c2, n.c2) == 1.0 &&
            Dot(n.c0, n.c1) == 0.0 && Dot(n.c0, n.c2) == 0.0 && Dot(n.c1, n.c2) == 0.0
  {
    hide Cross;
    ColumnsAreCrosses(m);
    AdjugateRows(m.c0, m.c1, m.c2);
    AdjugateOff(m.c0, m.c1, m.c2);
  }

  /** Row i of a rigid transform times its inverse. */
  lemma RightInverseRow(x: Vec3, tx: real, m: Mat3, t: Vec3)
    ensures RowMul(Vec4(x.x, x.y, x.z, tx), RigidInverse(m, t)) ==
      Vec4(Dot(x, Transposed(m).c0), Dot(x, Transposed(m).c1), Dot(x, Transposed(m).c2),
           tx - Dot(x, Vec3(Dot(m.c0, t), Dot(m.c1, t), Dot(m.c2, t))))
  {
    hide Dot;
    var s := Vec3(-Dot(m.c0, t), -Dot(m.c1, t), -Dot(m.c2, t));
    RigidRow(x, tx, m, s);
    DotNegated(x, Vec3(Dot(m.c0, t), Dot(m.c1, t), Dot(m.c2, t)), s);
  }

  lemma RigidRow(x: Vec3, tx: real, m: Mat3, s: Vec3)
    ensures RowMul(Vec4(x.x, x.y, x.z, tx), Rigid(Transposed(m), s)) ==
      Vec4(Dot(x, Transposed(m).c0), Dot(x, Transposed(m).c1), Dot(x, Transposed(m).c2), Dot(x, s) + tx)
  {
  }

  lemma DotNegated(x: Vec3, u: Vec3, s: Vec3)
    requires s == Vec3(-u.x, -u.y, -u.z)
    ensures Dot(x, s) == -Dot(x, u)
  {
  }

  /** Multiplying by a matrix and its transpose, component by component: x . (M^T t) == t . (M x). */
  lemma DotTransposed(x: Vec3, m: Mat3, t: Vec3)
    ensures Dot(x, Vec3(Dot(m.c0, t), Dot(m.c1, t), Dot(m.c2, t)))
         == t.x * Dot(x, Transposed(m).c0) + t.y * Dot(x, Transposed(m).c1) + t.z * Dot(x, Transposed(m).c2)
  {
    Swap3(x.x, m.c0.x, m.c0.y, m.c0.z, t);
    Swap3(x.y, m.c1.x, m.c1.y, m.c1.z, t);
    Swap3(x.z, m.c2.x, m.c2.y, m.c2.z, t);
    Swap3(t.x, m.c0.x, m.c1.x, m.c2.x, x);
    Swap3(t.y, m.c0.y, m.c1.y, m.c2.y, x);
    Swap3(t.z, m.c0.z, m.c1.z, m.c2.z, x);
  }

  lemma Swap3(k: real, a: real, b: real, c: real, t: Vec3)
    ensures k * (a * t.x + b * t.y + c * t.z) == k * a * t.x + k * b * t.y + k * c * t.z
  {
  }

  lemma RigidRightInverse(m: Mat3, t: Vec3)
    requires IsRotation(m)
    ensures Mul(Rigid(m, t), RigidInverse(m, t)) == IDENTITY
  {
    hide RowMul;
    hide Dot;
    TransposeOrthonormal(m);
    var n := Transposed(m);
    DotCommutes(n.c0, n.c1);
    DotCommutes(n.c0, n.c2);
    DotCommutes(n.c1, n.c2);
    RightInverseRow(n.c0, t.x, m, t);
    RightInverseRow(n.c1, t.y, m, t);
    RightInverseRow(n.c2, t.z, m, t);
    DotTransposed(n.c0, m, t);
    DotTransposed(n.c1, m, t);
    DotTransposed(n.c2, m, t);
    LastRowInverse(m, t);
  }

  lemma LastRowInverse(m: Mat3, t: Vec3)
    ensures RowMul(Vec4(0.0, 0.0, 0.0, 1.0), RigidInverse(m, t)) == Vec4(0.0, 0.0, 0.0, 1.0)
  {
    hide Dot;
    LastRow(Transposed(m), Vec3(-Dot(m.c0, t), -Dot(m.c1, t), -Dot(m.c2, t)));
  }

  /** Every transform packed from a pose is invertible, its inverse is the rigid one, and deltas from it round-trip. */
  lemma PosesHaveDeltas(p: Pose, sqrt: real -> real, target: Mat4)
    requires IsRoot(sqrt) && PoseToSE3(p, sqrt).Some?
    ensures var a := PoseToSE3(p, sqrt).value;
            Invert(a) == Some(RigidInverse(Decode(p.r6, sqrt).m, p.xyz)) &&
            BodyDelta(a, target).Some? && BodyCompose(a, BodyDelta(a, target).value) == target
  {
    hide Mul;
    hide Decode;
    hide RigidInverse;
    DecodeIsRotation(p.r6, sqrt);
    var m := Decode(p.r6, sqrt).m;
    var a, b := Rigid(m, p.xyz), RigidInverse(m, p.xyz);
    RigidLeftInverse(m, p.xyz);
    RigidRightInverse(m, p.xyz);
    assert Inverts(a, b);
    InverseUnique(a, b, Invert(a).value);
    ComposeInvertsDelta(a, target);
  }
}
