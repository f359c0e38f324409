/**
 What follows from being an exact rotation: equal cofactors, orthonormal rows, and the
 products behind the branches of the matrix-to-quaternion conversion.
 */
module RotationFacts {
  import opened Rotations

  /** Cofactors equal entries. */
  ghost predicate SelfCofactor(m: Matrix) {
    && m.m00 == m.m11 * m.m22 - m.m12 * m.m21
    && m.m01 == m.m12 * m.m20 - m.m10 * m.m22
    && m.m02 == m.m10 * m.m21 - m.m11 * m.m20
    && m.m10 == m.m02 * m.m21 - m.m01 * m.m22
    && m.m11 == m.m00 * m.m22 - m.m02 * m.m20
    && m.m12 == m.m01 * m.m20 - m.m00 * m.m21
    && m.m20 == m.m01 * m.m12 - m.m02 * m.m11
    && m.m21 == m.m02 * m.m10 - m.m00 * m.m12
    && m.m22 == m.m00 * m.m11 - m.m01 * m.m10
  }

  ghost predicate OrthonormalColumns(m: Matrix) {
    && m.m00 * m.m00 + m.m10 * m.m10 + m.m20 * m.m20 == 1.0
    && m.m01 * m.m01 + m.m11 * m.m11 + m.m21 * m.m21 == 1.0
    && m.m02 * m.m02 + m.m12 * m.m12 + m.m22 * m.m22 == 1.0
    && m.m00 * m.m01 + m.m10 * m.m11 + m.m20 * m.m21 == 0.0
    && m.m00 * m.m02 + m.m10 * m.m12 + m.m20 * m.m22 == 0.0
    && m.m01 * m.m02 + m.m11 * m.m12 + m.m21 * m.m22 == 0.0
  }

  ghost predicate OrthonormalRows(m: Matrix) {
    && m.m00 * m.m00 + m.m01 * m.m01 + m.m02 * m.m02 == 1.0
    && m.m10 * m.m10 + m.m11 * m.m11 + m.m12 * m.m12 == 1.0
    && m.m20 * m.m20 + m.m21 * m.m21 + m.m22 * m.m22 == 1.0
    && m.m00 * m.m10 + m.m01 * m.m11 + m.m02 * m.m12 == 0.0
    && m.m00 * m.m20 + m.m01 * m.m21 + m.m02 * m.m22 == 0.0
    && m.m10 * m.m20 + m.m11 * m.m21 + m.m12 * m.m22 == 0.0
  }

  lemma RotationColumns(m: Matrix)
    requires m.IsRotation()
    ensures OrthonormalColumns(m)
  {
  }

  /** Three vectors' entries combined: distributes one unknown over a dot product. */
  lemma DotTimes(u0: real, u1: real, u2: real, v0: real, v1: real, v2: real, t: real)
    ensures (u0 * v0 + u1 * v1 + u2 * v2) * t == u0 * (v0 * t) + u1 * (v1 * t) + u2 * (v2 * t)
  {
  }

  /** If the columns are orthonormal and M a = b, the first entry of a is the first column dotted with b. */
  lemma SolveFirst(c00: real, c10: real, c20: real, c01: real, c11: real, c21: real, c02: real, c12: real, c22: real,
                   a0: real, a1: real, a2: real, b0: real, b1: real, b2: real)
    requires c00 * c00 + c10 * c10 + c20 * c20 == 1.0
    requires c00 * c01 + c10 * c11 + c20 * c21 == 0.0
    requires c00 * c02 + c10 * c12 + c20 * c22 == 0.0
    requires c00 * a0 + c01 * a1 + c02 * a2 == b0
    requires c10 * a0 + c11 * a1 + c12 * a2 == b1
    requires c20 * a0 + c21 * a1 + c22 * a2 == b2
    ensures a0 == c00 * b0 + c10 * b1 + c20 * b2
  {
    DotTimes(c00, c10, c20, c00, c10, c20, a0);
    DotTimes(c00, c10, c20, c01, c11, c21, a1);
    DotTimes(c00, c10, c20, c02, c12, c22, a2);
    assert c00 * b0 == c00 * (c00 * a0) + c00 * (c01 * a1) + c00 * (c02 * a2);
    assert c10 * b1 == c10 * (c10 * a0) + c10 * (c11 * a1) + c10 * (c12 * a2);
    assert c20 * b2 == c20 * (c20 * a0) + c20 * (c21 * a1) + c20 * (c22 * a2);
  }

  /** A vector perpendicular to both factors of a cross product. */
  lemma CrossIsPerpendicular(q0: real, q1: real, q2: real, s0: real, s1: real, s2: real)
    ensures var a0, a1, a2 := q1 * s2 - q2 * s1, q2 * s0 - q0 * s2, q0 * s1 - q1 * s0;
            q0 * a0 + q1 * a1 + q2 * a2 == 0.0 && s0 * a0 + s1 * a1 + s2 * a2 == 0.0
  {
  }

  /** The first of three rows with orthonormal columns and unit determinant is the cross product of the others. */
  lemma FirstRowIsCross(p0: real, p1: real, p2: real, q0: real, q1: real, q2: real, s0: real, s1: real, s2: real)
    requires p0 * p0 + q0 * q0 + s0 * s0 == 1.0
    requires p1 * p1 + q1 * q1 + s1 * s1 == 1.0
    requires p2 * p2 + q2 * q2 + s2 * s2 == 1.0
    requires p0 * p1 + q0 * q1 + s0 * s1 == 0.0
    requires p0 * p2 + q0 * q2 + s0 * s2 == 0.0
    requires p1 * p2 + q1 * q2 + s1 * s2 == 0.0
    requires p0 * (q1 * s2 - q2 * s1) + p1 * (q2 * s0 - q0 * s2) + p2 * (q0 * s1 - q1 * s0) == 1.0
    ensures p0 == q1 * s2 - q2 * s1 && p1 == q2 * s0 - q0 * s2 && p2 == q0 * s1 - q1 * s0
  {
    CrossIsPerpendicular(q0, q1, q2, s0, s1, s2);
    CrossRow(p0, p1, p2, q0, q1, q2, s0, s1, s2, q1 * s2 - q2 * s1, q2 * s0 - q0 * s2, q0 * s1 - q1 * s0);
  }

  lemma CrossRow(p0: real, p1: real, p2: real, q0: real, q1: real, q2: real, s0: real, s1: real, s2: real,
                 a0: real, a1: real, a2: real)
    requires p0 * p0 + q0 * q0 + s0 * s0 == 1.0
    requires p1 * p1 + q1 * q1 + s1 * s1 == 1.0
    requires p2 * p2 + q2 * q2 + s2 * s2 == 1.0
    requires p0 * p1 + q0 * q1 + s0 * s1 == 0.0
    requires p0 * p2 + q0 * q2 + s0 * s2 == 0.0
    requires p1 * p2 + q1 * q2 + s1 * s2 == 0.0
    requires p0 * a0 + p1 * a1 + p2 * a2 == 1.0
    requires q0 * a0 + q1 * a1 + q2 * a2 == 0.0
    requires s0 * a0 + s1 * a1 + s2 * a2 == 0.0
    ensures a0 == p0 && a1 == p1 && a2 == p2
  {
    SolveFirst(p0, q0, s0, p1, q1, s1, p2, q2, s2, a0, a1, a2, 1.0, 0.0, 0.0);
    SolveFirst(p1, q1, s1, p0, q0, s0, p2, q2, s2, a1, a0, a2, 1.0, 0.0, 0.0);
    SolveFirst(p2, q2, s2, p0, q0, s0, p1, q1, s1, a2, a0, a1, 1.0, 0.0, 0.0);
  }

  lemma DeterminantByRows(m: Matrix)
    ensures m.Determinant()
            == m.m10 * (m.m21 * m.m02 - m.m22 * m.m01) + m.m11 * (m.m22 * m.m00 - m.m20 * m.m02)
               + m.m12 * (m.m20 * m.m01 - m.m21 * m.m00)
    ensures m.Determinant()
            == m.m20 * (m.m01 * m.m12 - m.m02 * m.m11) + m.m21 * (m.m02 * m.m10 - m.m00 * m.m12)
               + m.m22 * (m.m00 * m.m11 - m.m01 * m.m10)
  {
  }

  lemma RotationCofactors(m: Matrix)
    requires m.IsRotation()
    ensures SelfCofactor(m)
  {
    RotationColumns(m);
    FirstRowCofactors(m);
    SecondRowCofactors(m);
    ThirdRowCofactors(m);
  }

  lemma FirstRowCofactors(m: Matrix)
    requires OrthonormalColumns(m) && m.Determinant() == 1.0
    ensures m.m00 == m.m11 * m.m22 - m.m12 * m.m21
    ensures m.m01 == m.m12 * m.m20 - m.m10 * m.m22
    ensures m.m02 == m.m10 * m.m21 - m.m11 * m.m20
  {
    FirstRowIsCross(m.m00, m.m01, m.m02, m.m10, m.m11, m.m12, m.m20, m.m21, m.m22);
  }

  lemma SecondRowCofactors(m: Matrix)
    requires OrthonormalColumns(m) && m.Determinant() == 1.0
    ensures m.m10 == m.m02 * m.m21 - m.m01 * m.m22
    ensures m.m11 == m.m00 * m.m22 - m.m02 * m.m20
    ensures m.m12 == m.m01 * m.m20 - m.m00 * m.m21
  {
    DeterminantByRows(m);
    FirstRowIsCross(m.m10, m.m11, m.m12, m.m20, m.m21, m.m22, m.m00, m.m01, m.m02);
  }

  lemma ThirdRowCofactors(m: Matrix)
    requires OrthonormalColumns(m) && m.Determinant() == 1.0
    ensures m.m20 == m.m01 * m.m12 - m.m02 * m.m11
    ensures m.m21 == m.m02 * m.m10 - m.m00 * m.m12
    ensures m.m22 == m.m00 * m.m11 - m.m01 * m.m10
  {
    DeterminantByRows(m);
    FirstRowIsCross(m.m20, m.m21, m.m22, m.m00, m.m01, m.m02, m.m10, m.m11, m.m12);
  }

  /** Rows of a rotation are orthonormal too: each is the cross product of the others, and expands the determinant. */
  lemma RotationRows(m: Matrix)
    requires m.Determinant() == 1.0 && SelfCofactor(m)
    ensures OrthonormalRows(m)
  {
    DeterminantByRows(m);
    CrossIsPerpendicular(m.m10, m.m11, m.m12, m.m20, m.m21, m.m22);
    CrossIsPerpendicular(m.m20, m.m21, m.m22, m.m00, m.m01, m.m02);
  }

  // Four times the products of the quaternion's components, read off the matrix.

  function KWW(m: Matrix): real { 1.0 + m.m00 + m.m11 + m.m22 }

  function KXX(m: Matrix): real { 1.0 + m.m00 - m.m11 - m.m22 }

  function KYY(m: Matrix): real { 1.0 + m.m11 - m.m00 - m.m22 }

  function KZZ(m: Matrix): real { 1.0 + m.m22 - m.m00 - m.m11 }

  function KWX(m: Matrix): real { m.m21 - m.m12 }

  function KWY(m: Matrix): real { m.m02 - m.m20 }

  function KWZ(m: Matrix): real { m.m10 - m.m01 }

  function KXY(m: Matrix): real { m.m01 + m.m10 }

  function KXZ(m: Matrix): real { m.m02 + m.m20 }

  function KYZ(m: Matrix): real { m.m12 + m.m21 }

  datatype Axis = First | Second | Third

  /** The column of one axis and the rows of the others are unit vectors, and its diagonal entry is its own cofactor. */
  ghost predicate UnitAt(m: Matrix, axis: Axis) {
    match axis
    case First =>
      && m.m00 * m.m00 + m.m10 * m.m10 + m.m20 * m.m20 == 1.0
      && m.m10 * m.m10 + m.m11 * m.m11 + m.m12 * m.m12 == 1.0
      && m.m20 * m.m20 + m.m21 * m.m21 + m.m22 * m.m22 == 1.0
      && m.m00 == m.m11 * m.m22 - m.m12 * m.m21
    case Second =>
      && m.m01 * m.m01 + m.m11 * m.m11 + m.m21 * m.m21 == 1.0
      && m.m00 * m.m00 + m.m01 * m.m01 + m.m02 * m.m02 == 1.0
      && m.m20 * m.m20 + m.m21 * m.m21 + m.m22 * m.m22 == 1.0
      && m.m11 == m.m00 * m.m22 - m.m02 * m.m20
    case Third =>
      && m.m02 * m.m02 + m.m12 * m.m12 + m.m22 * m.m22 == 1.0
      && m.m00 * m.m00 + m.m01 * m.m01 + m.m02 * m.m02 == 1.0
      && m.m10 * m.m10 + m.m11 * m.m11 + m.m12 * m.m12 == 1.0
      && m.m22 == m.m00 * m.m11 - m.m01 * m.m10
  }

  /** The rows and the columns of the other two axes are perpendicular, and their shared entries their own cofactors. */
  ghost predicate PerpendicularAt(m: Matrix, axis: Axis) {
    match axis
    case First =>
      && m.m10 * m.m20 + m.m11 * m.m21 + m.m12 * m.m22 == 0.0
      && m.m01 * m.m02 + m.m11 * m.m12 + m.m21 * m.m22 == 0.0
      && m.m12 == m.m01 * m.m20 - m.m00 * m.m21 && m.m21 == m.m02 * m.m10 - m.m00 * m.m12
    case Second =>
      && m.m00 * m.m20 + m.m01 * m.m21 + m.m02 * m.m22 == 0.0
      && m.m00 * m.m02 + m.m10 * m.m12 + m.m20 * m.m22 == 0.0
      && m.m02 == m.m10 * m.m21 - m.m11 * m.m20 && m.m20 == m.m01 * m.m12 - m.m02 * m.m11
    case Third =>
      && m.m00 * m.m10 + m.m01 * m.m11 + m.m02 * m.m12 == 0.0
      && m.m00 * m.m01 + m.m10 * m.m11 + m.m20 * m.m21 == 0.0
      && m.m01 == m.m12 * m.m20 - m.m10 * m.m22 && m.m10 == m.m02 * m.m21 - m.m01 * m.m22
  }

  ghost predicate Lengths(m: Matrix) {
    forall axis :: UnitAt(m, axis)
  }

  ghost predicate Angles(m: Matrix) {
    forall axis :: PerpendicularAt(m, axis)
  }

  /** A rotation has everything the conversion needs. */
  lemma RotationIsProper(m: Matrix)
    requires m.IsRotation()
    ensures Lengths(m) && Angles(m)
  {
    RotationColumns(m);
    RotationCofactors(m);
    RotationRows(m);
    FamiliesByAxis(m);
  }

  lemma FamiliesByAxis(m: Matrix)
    requires OrthonormalColumns(m) && OrthonormalRows(m) && SelfCofactor(m)
    ensures Lengths(m) && Angles(m)
  {
    LengthsByAxis(m);
    AnglesByAxis(m);
  }

  lemma LengthsByAxis(m: Matrix)
    requires OrthonormalColumns(m) && OrthonormalRows(m) && SelfCofactor(m)
    ensures Lengths(m)
  {
    assert UnitAt(m, First);
    assert UnitAt(m, Second);
    assert UnitAt(m, Third);
  }

  lemma AnglesByAxis(m: Matrix)
    requires OrthonormalColumns(m) && OrthonormalRows(m) && SelfCofactor(m)
    ensures Angles(m)
  {
    assert PerpendicularAt(m, First);
    assert PerpendicularAt(m, Second);
    assert PerpendicularAt(m, Third);
  }

  /** The product of two off-diagonal differences. */
  lemma MixedProduct(m00: real, m01: real, m02: real, m10: real, m11: real, m12: real, m20: real, m21: real, m22: real)
    requires m01 == m12 * m20 - m10 * m22 && m10 == m02 * m21 - m01 * m22
    requires m00 * m01 + m10 * m11 + m20 * m21 == 0.0
    requires m00 * m10 + m01 * m11 + m02 * m12 == 0.0
    ensures (m21 - m12) * (m02 - m20) == (1.0 + m00 + m11 + m22) * (m01 + m10)
  {
    assert (m21 - m12) * (m02 - m20) == m02 * m21 + m12 * m20 - (m20 * m21 + m02 * m12);
    assert (1.0 + m00 + m11 + m22) * (m01 + m10)
           == m01 + m10 + (m00 * m01 + m10 * m11) + (m00 * m10 + m01 * m11) + (m01 * m22 + m10 * m22);
  }

  /** The square of an off-diagonal difference. */
  lemma SquareProduct(m00: real, m01: real, m02: real, m10: real, m11: real, m12: real, m20: real, m21: real, m22: real)
    requires m00 == m11 * m22 - m12 * m21
    requires m00 * m00 + m10 * m10 + m20 * m20 == 1.0
    requires m10 * m10 + m11 * m11 + m12 * m12 == 1.0
    requires m20 * m20 + m21 * m21 + m22 * m22 == 1.0
    ensures (m21 - m12) * (m21 - m12) == (1.0 + m00 + m11 + m22) * (1.0 + m00 - m11 - m22)
  {
    assert (m21 - m12) * (m21 - m12) == m21 * m21 + m12 * m12 - 2.0 * (m12 * m21);
    assert (1.0 + m00 + m11 + m22) * (1.0 + m00 - m11 - m22)
           == 1.0 + 2.0 * m00 + m00 * m00 - m11 * m11 - m22 * m22 - 2.0 * (m11 * m22);
  }

  lemma SquareWX(m: Matrix)
    requires Lengths(m)
    ensures KWX(m) * KWX(m) == KWW(m) * KXX(m)
  {
    assert UnitAt(m, First);
    SquareProduct(m.m00, m.m01, m.m02, m.m10, m.m11, m.m12, m.m20, m.m21, m.m22);
  }

  lemma SquareWY(m: Matrix)
    requires Lengths(m)
    ensures KWY(m) * KWY(m) == KWW(m) * KYY(m)
  {
    assert UnitAt(m, Second);
    SquareProduct(m.m11, m.m10, m.m12, m.m01, m.m00, m.m02, m.m21, m.m20, m.m22);
  }

  lemma SquareWZ(m: Matrix)
    requires Lengths(m)
    ensures KWZ(m) * KWZ(m) == KWW(m) * KZZ(m)
  {
    assert UnitAt(m, Third);
    SquareProduct(m.m22, m.m21, m.m20, m.m12, m.m11, m.m10, m.m02, m.m01, m.m00);
  }

  lemma MixedWXY(m: Matrix)
    requires Angles(m)
    ensures KWX(m) * KWY(m) == KWW(m) * KXY(m)
  {
    assert PerpendicularAt(m, Third);
    MixedProduct(m.m00, m.m01, m.m02, m.m10, m.m11, m.m12, m.m20, m.m21, m.m22);
  }

  lemma MixedWXZ(m: Matrix)
    requires Angles(m)
    ensures KWX(m) * KWZ(m) == KWW(m) * KXZ(m)
  {
    assert PerpendicularAt(m, Second);
    MixedProduct(m.m00, m.m02, m.m01, m.m20, m.m22, m.m21, m.m10, m.m12, m.m11);
  }

  lemma MixedWYZ(m: Matrix)
    requires Angles(m)
    ensures KWY(m) * KWZ(m) == KWW(m) * KYZ(m)
  {
    assert PerpendicularAt(m, First);
    MixedProduct(m.m11, m.m12, m.m10, m.m21, m.m22, m.m20, m.m01, m.m02, m.m00);
  }

  lemma SquareXZ(m: Matrix)
    requires Lengths(m)
    ensures KXZ(m) * KXZ(m) == KXX(m) * KZZ(m)
  {
    assert UnitAt(m, Second);
    SquareProduct(-m.m11, m.m10, -m.m12, -m.m01, m.m00, -m.m02, -m.m21, m.m20, -m.m22);
  }

  lemma SquareXY(m: Matrix)
    requires Lengths(m)
    ensures KXY(m) * KXY(m) == KXX(m) * KYY(m)
  {
    assert UnitAt(m, Third);
    SquareProduct(-m.m22, -m.m21, m.m20, -m.m12, -m.m11, m.m10, -m.m02, -m.m01, m.m00);
  }

  lemma MixedXWZ(m: Matrix)
    requires Angles(m)
    ensures KWX(m) * KXZ(m) == KXX(m) * KWZ(m)
  {
    assert PerpendicularAt(m, Third);
    MixedProduct(m.m00, -m.m01, -m.m02, m.m10, -m.m11, -m.m12, m.m20, -m.m21, -m.m22);
  }

  lemma MixedXWY(m: Matrix)
    requires Angles(m)
    ensures KWX(m) * KXY(m) == KXX(m) * KWY(m)
  {
    assert PerpendicularAt(m, Second);
    MixedProduct(m.m00, -m.m02, -m.m01, m.m20, -m.m22, -m.m21, m.m10, -m.m12, -m.m11);
  }

  lemma MixedXYZ(m: Matrix)
    requires Angles(m)
    ensures KXZ(m) * KXY(m) == KXX(m) * KYZ(m)
  {
    assert PerpendicularAt(m, First);
    MixedProduct(-m.m11, -m.m12, m.m10, -m.m21, -m.m22, m.m20, -m.m01, -m.m02, m.m00);
  }

  lemma SquareYZ(m: Matrix)
    requires Lengths(m)
    ensures KYZ(m) * KYZ(m) == KYY(m) * KZZ(m)
  {
    assert UnitAt(m, First);
    SquareProduct(-m.m00, m.m01, -m.m02, -m.m10, m.m11, -m.m12, -m.m20, m.m21, -m.m22);
  }

  lemma MixedYWZ(m: Matrix)
    requires Angles(m)
    ensures KYZ(m) * KWY(m) == KYY(m) * KWZ(m)
  {
    assert PerpendicularAt(m, Third);
    MixedProduct(-m.m00, m.m01, -m.m02, -m.m10, m.m11, -m.m12, -m.m20, m.m21, -m.m22);
  }

  lemma MixedYXZ(m: Matrix)
    requires Angles(m)
    ensures KYZ(m) * KXY(m) == KYY(m) * KXZ(m)
  {
    assert PerpendicularAt(m, Second);
    MixedProduct(-m.m00, -m.m02, m.m01, -m.m20, -m.m22, m.m21, -m.m10, -m.m12, m.m11);
  }

  lemma MixedYWX(m: Matrix)
    requires Angles(m)
    ensures KWY(m) * KXY(m) == KYY(m) * KWX(m)
  {
    assert PerpendicularAt(m, First);
    MixedProduct(m.m11, -m.m12, -m.m10, m.m21, -m.m22, -m.m20, m.m01, -m.m02, -m.m00);
  }

  lemma MixedZXY(m: Matrix)
    requires Angles(m)
    ensures KYZ(m) * KXZ(m) == KZZ(m) * KXY(m)
  {
    assert PerpendicularAt(m, Third);
    MixedProduct(-m.m00, -m.m01, m.m02, -m.m10, -m.m11, m.m12, -m.m20, -m.m21, m.m22);
  }

  lemma MixedZWY(m: Matrix)
    requires Angles(m)
    ensures KYZ(m) * KWZ(m) == KZZ(m) * KWY(m)
  {
    assert PerpendicularAt(m, Second);
    MixedProduct(-m.m00, m.m02, -m.m01, -m.m20, m.m22, -m.m21, -m.m10, m.m12, -m.m11);
  }

  lemma MixedZWX(m: Matrix)
    requires Angles(m)
    ensures KXZ(m) * KWZ(m) == KZZ(m) * KWX(m)
  {
    assert PerpendicularAt(m, First);
    MixedProduct(-m.m11, m.m12, -m.m10, -m.m21, m.m22, -m.m20, -m.m01, m.m02, -m.m00);
  }
}
