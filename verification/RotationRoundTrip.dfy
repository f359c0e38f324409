/**
 Both round trips between unit quaternions and rotation matrices
 (tools/tracker_camera_calibration/src/vt_tracker_camera_calib/transforms.py, lines 39-110).
 */
module RotationRoundTrip {
  import opened Rotations

  // ----- Square roots and division -----

  lemma ZeroProduct(a: real, b: real)
    requires a * b == 0.0 && b != 0.0
    ensures a == 0.0
  {
  }

  lemma QuotientIs(n: real, d: real, q: real)
    requires d != 0.0 && n == q * d
    ensures n / d == q
  {
    var p := n / d;
    assert p * d == n;
    assert (p - q) * d == p * d - q * d;
    ZeroProduct(p - q, d);
  }

  lemma RootIsUnique(r: real, s: real)
    requires r >= 0.0 && s >= 0.0 && r * r == s * s
    ensures r == s
  {
    assert (r - s) * (r + s) == r * r - s * s;
    if r + s != 0.0 {
      ZeroProduct(r - s, r + s);
    }
  }

  lemma DivideProduct(a: real, b: real, d: real)
    requires d != 0.0
    ensures d * d != 0.0
    ensures (a / d) * (b / d) == (a * b) / (d * d)
  {
    var x, y := a / d, b / d;
    assert a == x * d && b == y * d;
    assert (x * d) * (y * d) == (x * y) * (d * d);
    if d * d == 0.0 {
      ZeroProduct(d, d);
    }
    QuotientIs(a * b, d * d, x * y);
  }

  // ----- From a quaternion to a matrix -----

  lemma PositiveProduct(a: real, b: real)
    requires a > 0.0 && b > 0.0
    ensures a * b > 0.0
  {
  }

  lemma ScaledSquare(a: real, n: real, x: real, m: real)
    requires a * n == x && n * n == m
    ensures x * x == (a * a) * m
  {
    assert (a * n) * (a * n) == (a * a) * (n * n);
  }

  lemma SumIsOne(a: real, b: real, c: real, d: real, p: real, q: real, r: real, s: real, m: real)
    requires m != 0.0 && p == a * m && q == b * m && r == c * m && s == d * m && p + q + r + s == m
    ensures a + b + c + d == 1.0
  {
    var rest := a + b + c + d - 1.0;
    assert rest * m == a * m + b * m + c * m + d * m - m;
    ZeroProduct(rest, m);
  }

  /** Dividing by the root of the sum of squares makes the squares add up to one. */
  lemma DividedSquares(q: Quaternion, u: Quaternion, n: real, m: real)
    requires n * n == m && m > 0.0 && q.Dot() == m
    requires u.x * n == q.x && u.y * n == q.y && u.z * n == q.z && u.w * n == q.w
    ensures u.Dot() == 1.0
  {
    ScaledSquare(u.x, n, q.x, m);
    ScaledSquare(u.y, n, q.y, m);
    ScaledSquare(u.z, n, q.z, m);
    ScaledSquare(u.w, n, q.w, m);
    SumIsOne(u.x * u.x, u.y * u.y, u.z * u.z, u.w * u.w, q.x * q.x, q.y * q.y, q.z * q.z, q.w * q.w, m);
  }

  lemma OverTimes(q: Quaternion, n: real)
    requires n != 0.0
    ensures var u := q.Over(n); u.x * n == q.x && u.y * n == q.y && u.z * n == q.z && u.w * n == q.w
  {
  }

  lemma NormalizedIsUnit(q: Quaternion, norm: real)
    requires IsRoot(norm, q.Dot()) && norm >= EPSILON
    ensures var u := Normalized(q, norm).value;
            u.Dot() == 1.0 && u.w >= 0.0 && (u == q.Over(norm) || u == q.Over(norm).Negated())
  {
    var u := q.Over(norm);
    OverTimes(q, norm);
    PositiveProduct(norm, norm);
    DividedSquares(q, u, norm, q.Dot());
    assert u.Negated().Dot() == u.Dot();
  }

  // In the four lemmas below a, b, c, d stand for x*x, y*y, z*z, w*w, and e to j for the mixed products.

  lemma ColumnUnit(a: real, b: real, c: real, d: real, e: real, j: real, f: real, i: real)
    requires a + b + c + d == 1.0
    requires e * e == a * b && j * j == c * d && f * f == a * c && i * i == b * d && e * j == f * i
    ensures (1.0 - 2.0 * (b + c)) * (1.0 - 2.0 * (b + c)) + (2.0 * (e + j)) * (2.0 * (e + j))
            + (2.0 * (f - i)) * (2.0 * (f - i)) == 1.0
  {
    var k := b + c;
    assert (1.0 - 2.0 * k) * (1.0 - 2.0 * k) == 1.0 - 4.0 * k + 4.0 * (k * k);
    assert (2.0 * (e + j)) * (2.0 * (e + j)) == 4.0 * (e * e) + 8.0 * (e * j) + 4.0 * (j * j);
    assert (2.0 * (f - i)) * (2.0 * (f - i)) == 4.0 * (f * f) - 8.0 * (f * i) + 4.0 * (i * i);
    assert k * k + a * b + c * d + a * c + b * d == k * (a + b + c + d) ;
  }

  lemma ColumnsOrthogonal(a: real, b: real, c: real, d: real, e: real, j: real, f: real, i: real, h: real, g: real)
    requires a + b + c + d == 1.0
    requires f * h == c * e && f * g == a * j && i * h == b * j && i * g == d * e
    ensures (1.0 - 2.0 * (b + c)) * (2.0 * (e - j)) + (2.0 * (e + j)) * (1.0 - 2.0 * (a + c))
            + (2.0 * (f - i)) * (2.0 * (h + g)) == 0.0
  {
    assert (1.0 - 2.0 * (b + c)) * (2.0 * (e - j)) == 2.0 * (e - j) - 4.0 * (b * e + c * e - b * j - c * j);
    assert (2.0 * (e + j)) * (1.0 - 2.0 * (a + c)) == 2.0 * (e + j) - 4.0 * (a * e + a * j + c * e + c * j);
    assert (2.0 * (f - i)) * (2.0 * (h + g)) == 4.0 * (f * h + f * g - i * h - i * g);
    assert a * e + b * e + c * e + d * e == (a + b + c + d) * e;
  }

  lemma CrossOff(a: real, b: real, c: real, d: real, e: real, j: real, f: real, i: real, h: real, g: real)
    requires a + b + c + d == 1.0
    requires e * h == b * f && e * g == a * i && j * h == c * i && j * g == d * f
    ensures (2.0 * (e + j)) * (2.0 * (h + g)) - (1.0 - 2.0 * (a + c)) * (2.0 * (f - i)) == 2.0 * (f + i)
  {
    assert (2.0 * (e + j)) * (2.0 * (h + g)) == 4.0 * (e * h + e * g + j * h + j * g);
    assert (1.0 - 2.0 * (a + c)) * (2.0 * (f - i)) == 2.0 * (f - i) - 4.0 * (a * f - a * i + c * f - c * i);
    assert a * f + b * f + c * f + d * f == (a + b + c + d) * f;
  }

  lemma CrossDiag(a: real, b: real, c: real, d: real, e: real, j: real)
    requires a + b + c + d == 1.0
    requires e * e == a * b && j * j == c * d
    ensures (1.0 - 2.0 * (b + c)) * (1.0 - 2.0 * (a + c)) - (2.0 * (e - j)) * (2.0 * (e + j)) == 1.0 - 2.0 * (a + b)
  {
    assert (2.0 * (e - j)) * (2.0 * (e + j)) == 4.0 * (e * e) - 4.0 * (j * j);
    assert (1.0 - 2.0 * (b + c)) * (1.0 - 2.0 * (a + c))
           == 1.0 - 2.0 * (a + b) - 4.0 * c + 4.0 * (a * b + b * c + a * c + c * c);
    assert a * c + b * c + c * c + d * c == (a + b + c + d) * c;
  }

  /** The three ways to pair four factors. */
  lemma Shuffle(p: real, q: real, r: real, s: real)
    ensures (p * q) * (r * s) == (p * r) * (q * s) == (p * s) * (q * r)
  {
  }

  /** How products of two coordinates multiply. */
  ghost predicate Products(a: real, b: real, c: real, d: real, e: real, f: real, g: real, h: real, i: real, j: real) {
    && e * e == a * b && f * f == a * c && g * g == a * d && h * h == b * c && i * i == b * d && j * j == c * d
    && e * j == f * i == g * h
    && e * f == a * h && e * h == b * f && f * h == c * e
    && e * g == a * i && e * i == b * g && g * i == d * e
    && f * g == a * j && f * j == c * g && g * j == d * f
    && h * i == b * j && h * j == c * i && i * j == d * h
  }

  lemma MixedProducts(x: real, y: real, z: real, w: real)
    ensures Products(x * x, y * y, z * z, w * w, x * y, x * z, x * w, y * z, y * w, z * w)
  {
    Shuffle(x, y, x, y);
    Shuffle(x, z, x, z);
    Shuffle(x, w, x, w);
    Shuffle(y, z, y, z);
    Shuffle(y, w, y, w);
    Shuffle(z, w, z, w);
    Shuffle(x, y, z, w);
    Shuffle(x, y, x, z);
    Shuffle(x, y, y, z);
    Shuffle(x, z, y, z);
    Shuffle(x, y, x, w);
    Shuffle(x, y, y, w);
    Shuffle(x, w, y, w);
    Shuffle(x, z, x, w);
    Shuffle(x, z, z, w);
    Shuffle(x, w, z, w);
    Shuffle(y, z, y, w);
    Shuffle(y, z, z, w);
    Shuffle(y, w, z, w);
  }

  /** The matrix in terms of squares and products. */
  function MatrixFrom(a: real, b: real, c: real, d: real, e: real, f: real, g: real, h: real, i: real,
                      j: real): Matrix {
    Matrix(
      1.0 - 2.0 * (b + c), 2.0 * (e - j), 2.0 * (f + i),
      2.0 * (e + j), 1.0 - 2.0 * (a + c), 2.0 * (h - g),
      2.0 * (f - i), 2.0 * (h + g), 1.0 - 2.0 * (a + b))
  }

  lemma UnitColumn0(a: real, b: real, c: real, d: real, e: real, f: real, g: real, h: real, i: real, j: real)
    requires a + b + c + d == 1.0
    requires e * e == a * b && j * j == c * d && f * f == a * c && i * i == b * d && e * j == f * i
    ensures var m := MatrixFrom(a, b, c, d, e, f, g, h, i, j); m.m00 * m.m00 + m.m10 * m.m10 + m.m20 * m.m20 == 1.0
  {
    ColumnUnit(a, b, c, d, e, j, f, i);
  }

  lemma UnitColumn1(a: real, b: real, c: real, d: real, e: real, f: real, g: real, h: real, i: real, j: real)
    requires a + b + c + d == 1.0
    requires e * e == a * b && j * j == c * d && h * h == b * c && g * g == a * d && e * j == g * h
    ensures var m := MatrixFrom(a, b, c, d, e, f, g, h, i, j); m.m01 * m.m01 + m.m11 * m.m11 + m.m21 * m.m21 == 1.0
  {
    ColumnUnit(b, a, c, d, e, -j, h, -g);
  }

  lemma UnitColumn2(a: real, b: real, c: real, d: real, e: real, f: real, g: real, h: real, i: real, j: real)
    requires a + b + c + d == 1.0
    requires h * h == b * c && g * g == a * d && f * f == a * c && i * i == b * d && f * i == g * h
    ensures var m := MatrixFrom(a, b, c, d, e, f, g, h, i, j); m.m02 * m.m02 + m.m12 * m.m12 + m.m22 * m.m22 == 1.0
  {
    ColumnUnit(c, b, a, d, h, -g, f, -i);
  }

  lemma Orthogonal01(a: real, b: real, c: real, d: real, e: real, f: real, g: real, h: real, i: real, j: real)
    requires a + b + c + d == 1.0
    requires f * h == c * e && f * g == a * j && h * i == b * j && g * i == d * e
    ensures var m := MatrixFrom(a, b, c, d, e, f, g, h, i, j); m.m00 * m.m01 + m.m10 * m.m11 + m.m20 * m.m21 == 0.0
  {
    ColumnsOrthogonal(a, b, c, d, e, j, f, i, h, g);
  }

  lemma Orthogonal02(a: real, b: real, c: real, d: real, e: real, f: real, g: real, h: real, i: real, j: real)
    requires a + b + c + d == 1.0
    requires e * h == b * f && e * g == a * i && h * j == c * i && g * j == d * f
    ensures var m := MatrixFrom(a, b, c, d, e, f, g, h, i, j); m.m00 * m.m02 + m.m10 * m.m12 + m.m20 * m.m22 == 0.0
  {
    ColumnsOrthogonal(a, c, b, d, f, -i, e, -j, h, -g);
  }

  lemma Orthogonal12(a: real, b: real, c: real, d: real, e: real, f: real, g: real, h: real, i: real, j: real)
    requires a + b + c + d == 1.0
    requires e * f == a * h && f * j == c * g && e * i == b * g && i * j == d * h
    ensures var m := MatrixFrom(a, b, c, d, e, f, g, h, i, j); m.m01 * m.m02 + m.m11 * m.m12 + m.m21 * m.m22 == 0.0
  {
    ColumnsOrthogonal(c, b, a, d, h, -g, f, -i, e, -j);
  }

  lemma Cross0(a: real, b: real, c: real, d: real, e: real, f: real, g: real, h: real, i: real, j: real)
    requires a + b + c + d == 1.0
    requires e * h == b * f && e * g == a * i && h * j == c * i && g * j == d * f
    ensures var m := MatrixFrom(a, b, c, d, e, f, g, h, i, j); m.m02 == m.m10 * m.m21 - m.m11 * m.m20
  {
    CrossOff(a, b, c, d, e, j, f, i, h, g);
  }

  lemma Cross1(a: real, b: real, c: real, d: real, e: real, f: real, g: real, h: real, i: real, j: real)
    requires a + b + c + d == 1.0
    requires e * f == a * h && f * j == c * g && e * i == b * g && i * j == d * h
    ensures var m := MatrixFrom(a, b, c, d, e, f, g, h, i, j); m.m12 == m.m01 * m.m20 - m.m00 * m.m21
  {
    CrossOff(c, a, b, d, f, -i, h, -g, e, -j);
  }

  lemma Cross2(a: real, b: real, c: real, d: real, e: real, f: real, g: real, h: real, i: real, j: real)
    requires a + b + c + d == 1.0
    requires e * e == a * b && j * j == c * d
    ensures var m := MatrixFrom(a, b, c, d, e, f, g, h, i, j); m.m22 == m.m00 * m.m11 - m.m01 * m.m10
  {
    CrossDiag(a, b, c, d, e, j);
  }

  lemma DeterminantByLastColumn(m: Matrix)
    ensures m.Determinant()
            == m.m02 * (m.m10 * m.m21 - m.m11 * m.m20)
               + m.m12 * (m.m01 * m.m20 - m.m00 * m.m21)
               + m.m22 * (m.m00 * m.m11 - m.m01 * m.m10)
  {
  }

  lemma UnitDeterminant(m: Matrix)
    requires m.m02 == m.m10 * m.m21 - m.m11 * m.m20
    requires m.m12 == m.m01 * m.m20 - m.m00 * m.m21
    requires m.m22 == m.m00 * m.m11 - m.m01 * m.m10
    requires m.m02 * m.m02 + m.m12 * m.m12 + m.m22 * m.m22 == 1.0
    ensures m.Determinant() == 1.0
  {
    DeterminantByLastColumn(m);
  }

  lemma GramOfColumns(m: Matrix)
    requires m.m00 * m.m00 + m.m10 * m.m10 + m.m20 * m.m20 == 1.0
    requires m.m01 * m.m01 + m.m11 * m.m11 + m.m21 * m.m21 == 1.0
    requires m.m02 * m.m02 + m.m12 * m.m12 + m.m22 * m.m22 == 1.0
    requires m.m00 * m.m01 + m.m10 * m.m11 + m.m20 * m.m21 == 0.0
    requires m.m00 * m.m02 + m.m10 * m.m12 + m.m20 * m.m22 == 0.0
    requires m.m01 * m.m02 + m.m11 * m.m12 + m.m21 * m.m22 == 0.0
    ensures m.Gram() == IDENTITY
  {
  }

  lemma RotationIsAccepted(m: Matrix)
    requires m.IsRotation()
    ensures m.Accepted()
  {
  }

  /** Orthonormal columns, the last being the cross product of the others. */
  ghost predicate RightHandedFrame(m: Matrix) {
    && m.m00 * m.m00 + m.m10 * m.m10 + m.m20 * m.m20 == 1.0
    && m.m01 * m.m01 + m.m11 * m.m11 + m.m21 * m.m21 == 1.0
    && m.m02 * m.m02 + m.m12 * m.m12 + m.m22 * m.m22 == 1.0
    && m.m00 * m.m01 + m.m10 * m.m11 + m.m20 * m.m21 == 0.0
    && m.m00 * m.m02 + m.m10 * m.m12 + m.m20 * m.m22 == 0.0
    && m.m01 * m.m02 + m.m11 * m.m12 + m.m21 * m.m22 == 0.0
    && m.m02 == m.m10 * m.m21 - m.m11 * m.m20
    && m.m12 == m.m01 * m.m20 - m.m00 * m.m21
    && m.m22 == m.m00 * m.m11 - m.m01 * m.m10
  }

  lemma FrameIsRotation(m: Matrix)
    requires RightHandedFrame(m)
    ensures m.IsRotation() && m.Accepted()
  {
    GramOfColumns(m);
    UnitDeterminant(m);
    RotationIsAccepted(m);
  }

  lemma MatrixFromIsFrame(a: real, b: real, c: real, d: real, e: real, f: real, g: real, h: real, i: real, j: real)
    requires a + b + c + d == 1.0 && Products(a, b, c, d, e, f, g, h, i, j)
    ensures RightHandedFrame(MatrixFrom(a, b, c, d, e, f, g, h, i, j))
  {
    UnitColumn0(a, b, c, d, e, f, g, h, i, j);
    UnitColumn1(a, b, c, d, e, f, g, h, i, j);
    UnitColumn2(a, b, c, d, e, f, g, h, i, j);
    Orthogonal01(a, b, c, d, e, f, g, h, i, j);
    Orthogonal02(a, b, c, d, e, f, g, h, i, j);
    Orthogonal12(a, b, c, d, e, f, g, h, i, j);
    Cross0(a, b, c, d, e, f, g, h, i, j);
    Cross1(a, b, c, d, e, f, g, h, i, j);
    Cross2(a, b, c, d, e, f, g, h, i, j);
  }

  /** The matrix of a unit quaternion is an exact rotation. */
  lemma MatrixOfUnitIsRotation(q: Quaternion)
    requires q.Dot() == 1.0
    ensures MatrixOf(q).IsRotation() && MatrixOf(q).Accepted()
  {
    var Quaternion(x, y, z, w) := q;
    MixedProducts(x, y, z, w);
    MatrixFromIsFrame(x * x, y * y, z * z, w * w, x * y, x * z, x * w, y * z, y * w, z * w);
    MatrixOfIsMatrixFrom(x, y, z, w);
    FrameIsRotation(MatrixOf(q));
  }

  lemma MatrixOfIsMatrixFrom(x: real, y: real, z: real, w: real)
    ensures MatrixOf(Quaternion(x, y, z, w))
            == MatrixFrom(x * x, y * y, z * z, w * w, x * y, x * z, x * w, y * z, y * w, z * w)
  {
  }
}
