/**
 What the tolerance check admits, and which of two opposite quaternions comes back
 (tools/tracker_camera_calibration/src/vt_tracker_camera_calib/transforms.py, lines 24-110).
 */
module RotationMeaning {
  import opened Prelude
  import opened Rotations
  import opened RotationRoundTrip
  import opened QuaternionRoundTrip

  function Inner(x: real, y: real, z: real, x': real, y': real, z': real): real {
    x * x' + y * y' + z * z'
  }

  predicate Within(a: real, b: real, tolerance: real) {
    b - tolerance <= a <= b + tolerance
  }

  /** Columns of about unit length. */
  predicate AboutUnit(m: Matrix) {
    && Within(Inner(m.m00, m.m10, m.m20, m.m00, m.m10, m.m20), 1.0, 0.0000101)
    && Within(Inner(m.m01, m.m11, m.m21, m.m01, m.m11, m.m21), 1.0, 0.0000101)
    && Within(Inner(m.m02, m.m12, m.m22, m.m02, m.m12, m.m22), 1.0, 0.0000101)
  }

  /** Columns about perpendicular. */
  predicate AboutPerpendicular(m: Matrix) {
    && Within(Inner(m.m00, m.m10, m.m20, m.m01, m.m11, m.m21), 0.0, 0.0000001)
    && Within(Inner(m.m00, m.m10, m.m20, m.m02, m.m12, m.m22), 0.0, 0.0000001)
    && Within(Inner(m.m01, m.m11, m.m21, m.m02, m.m12, m.m22), 0.0, 0.0000001)
  }

  /** The signed sum of products over the permutations of the columns. */
  function Permutations(m: Matrix): real {
    m.m00 * (m.m11 * m.m22) + m.m01 * (m.m12 * m.m20) + m.m02 * (m.m10 * m.m21)
    - m.m02 * (m.m11 * m.m20) - m.m01 * (m.m10 * m.m22) - m.m00 * (m.m12 * m.m21)
  }

  lemma Distribute(a: real, b: real, c: real, d: real, e: real)
    ensures a * (b * c - d * e) == a * (b * c) - a * (d * e)
  {
  }

  lemma DeterminantIs(m: Matrix)
    ensures m.Determinant() == Permutations(m)
  {
    Distribute(m.m00, m.m11, m.m22, m.m12, m.m21);
    Distribute(m.m01, m.m12, m.m20, m.m10, m.m22);
    Distribute(m.m02, m.m10, m.m21, m.m11, m.m20);
  }

  lemma NearIs(x: real, y: real)
    ensures y == 1.0 ==> (Near(x, y) <==> Within(x, y, 0.0000101))
    ensures y == 0.0 ==> (Near(x, y) <==> Within(x, y, 0.0000001))
  {
  }

  // The entries of the Gram matrix, one at a time.

  lemma FirstLength(m: Matrix)
    ensures m.Gram().m00 == Inner(m.m00, m.m10, m.m20, m.m00, m.m10, m.m20)
  {
  }

  lemma SecondLength(m: Matrix)
    ensures m.Gram().m11 == Inner(m.m01, m.m11, m.m21, m.m01, m.m11, m.m21)
  {
  }

  lemma ThirdLength(m: Matrix)
    ensures m.Gram().m22 == Inner(m.m02, m.m12, m.m22, m.m02, m.m12, m.m22)
  {
  }

  lemma FirstWithSecond(m: Matrix)
    ensures m.Gram().m01 == Inner(m.m00, m.m10, m.m20, m.m01, m.m11, m.m21)
  {
  }

  lemma FirstWithThird(m: Matrix)
    ensures m.Gram().m02 == Inner(m.m00, m.m10, m.m20, m.m02, m.m12, m.m22)
  {
  }

  lemma SecondWithThird(m: Matrix)
    ensures m.Gram().m12 == Inner(m.m01, m.m11, m.m21, m.m02, m.m12, m.m22)
  {
  }

  lemma GramIsSymmetric(m: Matrix)
    ensures m.Gram().m10 == m.Gram().m01 && m.Gram().m20 == m.Gram().m02 && m.Gram().m21 == m.Gram().m12
  {
  }

  /** The part of the tolerance check on the Gram matrix. */
  predicate GramNear(g: Matrix) {
    && Near(g.m00, 1.0) && Near(g.m11, 1.0) && Near(g.m22, 1.0)
    && Near(g.m01, 0.0) && Near(g.m02, 0.0) && Near(g.m10, 0.0)
    && Near(g.m12, 0.0) && Near(g.m20, 0.0) && Near(g.m21, 0.0)
  }

  lemma GramWithin(g: Matrix)
    requires g.m10 == g.m01 && g.m20 == g.m02 && g.m21 == g.m12
    ensures GramNear(g)
            <==> && Within(g.m00, 1.0, 0.0000101) && Within(g.m11, 1.0, 0.0000101) && Within(g.m22, 1.0, 0.0000101)
                 && Within(g.m01, 0.0, 0.0000001) && Within(g.m02, 0.0, 0.0000001) && Within(g.m12, 0.0, 0.0000001)
  {
    NearIs(g.m00, 1.0);
    NearIs(g.m11, 1.0);
    NearIs(g.m22, 1.0);
    NearIs(g.m01, 0.0);
    NearIs(g.m02, 0.0);
    NearIs(g.m12, 0.0);
  }

  lemma DeterminantWithin(m: Matrix)
    ensures RealAbs(m.Determinant() - 1.0) <= ORTHONORMAL_TOLERANCE <==> Within(Permutations(m), 1.0, 0.0000001)
  {
    DeterminantIs(m);
  }

  /** The tolerance check passes exactly for columns about orthonormal, of determinant about one. */
  lemma AcceptedIff(m: Matrix)
    ensures m.Accepted()
            <==> AboutUnit(m) && AboutPerpendicular(m) && Within(Permutations(m), 1.0, 0.0000001)
  {
    FirstLength(m);
    SecondLength(m);
    ThirdLength(m);
    FirstWithSecond(m);
    FirstWithThird(m);
    SecondWithThird(m);
    GramIsSymmetric(m);
    GramWithin(m.Gram());
    DeterminantWithin(m);
    assert m.Accepted() <==> GramNear(m.Gram()) && RealAbs(m.Determinant() - 1.0) <= ORTHONORMAL_TOLERANCE;
  }

  /** Of x, y and z the one furthest from zero, the first of several. */
  function Leading(q: Quaternion): real {
    if q.x * q.x >= q.y * q.y && q.x * q.x >= q.z * q.z then q.x
    else if q.y * q.y >= q.z * q.z then q.y
    else q.z
  }

  lemma LeadingOfNegated(q: Quaternion)
    ensures Leading(q.Negated()) == -Leading(q)
  {
    assert (-q.x) * (-q.x) == q.x * q.x && (-q.y) * (-q.y) == q.y * q.y && (-q.z) * (-q.z) == q.z * q.z;
  }

  lemma BranchReadsLeading(u: Quaternion)
    requires u.Dot() == 1.0 && u.w == 0.0
    ensures Component(BranchOf(MatrixOf(u)), u) == Leading(u)
  {
    var m := MatrixOf(u);
    assert m.m00 == 2.0 * (u.x * u.x) - 1.0 && m.m11 == 2.0 * (u.y * u.y) - 1.0 && m.m22 == 2.0 * (u.z * u.z) - 1.0;
  }

  /**
   Through its matrix a quaternion comes back as the unit quaternion of its direction with w positive, or,
   when w is zero, with the first of its largest components positive; a negligible norm is refused.
   */
  lemma SignThatComesBack(q: Quaternion, length: real, m: Matrix, root: real, norm: real)
    requires IsRoot(length, q.Dot()) && length >= EPSILON
    requires m == MatrixOf(Normalized(q, length).value)
    requires IsRoot(root, Radicand(m)) && IsRoot(norm, RawQuaternion(m, root).Dot())
    ensures var back := ToQuaternion(m, root, norm);
            && back.Ok? && (back.value == q.Over(length) || back.value == q.Over(length).Negated())
            && (back.value.w > 0.0 || (back.value.w == 0.0 && Leading(back.value) > 0.0))
  {
    NormalizedIsUnit(q, length);
    var u := Normalized(q, length).value;
    MatrixOfUnitIsRotation(u);
    RowOfUnit(BranchOf(m), u);
    UnitRoundTrip(u, m, Component(BranchOf(m), u), root, norm);
    if u.w == 0.0 {
      BranchReadsLeading(u);
      LeadingOfNegated(u);
    }
    assert q.Over(length).Negated().Negated() == q.Over(length);
  }

  /** A quaternion is refused exactly for a negligible norm. */
  lemma RefusedIff(q: Quaternion, length: real)
    requires IsRoot(length, q.Dot())
    ensures ToRotation(q, length) == Err(ZeroNorm) <==> length < 0.000000000001
    ensures ToRotation(q, length).Err? ==> ToRotation(q, length) == Err(ZeroNorm)
  {
    if length >= EPSILON {
      NormalizedIsUnit(q, length);
      MatrixOfUnitIsRotation(Normalized(q, length).value);
    }
  }

  // ----- What the matrix does to a vector -----

  /**
   The first component of (p, q, r) turned by the quaternion of axis part a = (x, y, z) and scalar part w:
   v + 2w (a x v) + 2a x (a x v), after Euler and Rodrigues. The others follow by turning the axes around.
   */
  function Turned(x: real, y: real, z: real, w: real, p: real, q: real, r: real): real {
    p + 2.0 * (w * (y * r - z * q)) + 2.0 * (y * (x * q - y * p) - z * (z * p - x * r))
  }

  lemma TurnedIs(x: real, y: real, z: real, w: real, p: real, q: real, r: real)
    ensures Inner(1.0 - 2.0 * (y * y + z * z), 2.0 * (x * y - z * w), 2.0 * (x * z + y * w), p, q, r)
            == Turned(x, y, z, w, p, q, r)
  {
    assert (1.0 - 2.0 * (y * y + z * z)) * p == p - 2.0 * (y * (y * p)) - 2.0 * (z * (z * p));
    assert 2.0 * (x * y - z * w) * q == 2.0 * (y * (x * q)) - 2.0 * (w * (z * q));
    assert 2.0 * (x * z + y * w) * r == 2.0 * (z * (x * r)) + 2.0 * (w * (y * r));
    assert w * (y * r - z * q) == w * (y * r) - w * (z * q);
    assert y * (x * q - y * p) == y * (x * q) - y * (y * p);
    assert z * (z * p - x * r) == z * (z * p) - z * (x * r);
  }

  lemma RowsOf(u: Quaternion)
    ensures var m, x, y, z, w := MatrixOf(u), u.x, u.y, u.z, u.w;
            && m.m00 == 1.0 - 2.0 * (y * y + z * z) && m.m01 == 2.0 * (x * y - z * w) && m.m02 == 2.0 * (x * z + y * w)
            && m.m11 == 1.0 - 2.0 * (z * z + x * x) && m.m12 == 2.0 * (y * z - x * w) && m.m10 == 2.0 * (y * x + z * w)
            && m.m22 == 1.0 - 2.0 * (x * x + y * y) && m.m20 == 2.0 * (z * x - y * w) && m.m21 == 2.0 * (z * y + x * w)
  {
  }

  /** The matrix of a quaternion turns every vector as the quaternion does. */
  lemma MatrixTurns(u: Quaternion, p: real, q: real, r: real)
    ensures var m := MatrixOf(u);
            && Inner(m.m00, m.m01, m.m02, p, q, r) == Turned(u.x, u.y, u.z, u.w, p, q, r)
            && Inner(m.m11, m.m12, m.m10, q, r, p) == Turned(u.y, u.z, u.x, u.w, q, r, p)
            && Inner(m.m22, m.m20, m.m21, r, p, q) == Turned(u.z, u.x, u.y, u.w, r, p, q)
  {
    RowsOf(u);
    TurnedIs(u.x, u.y, u.z, u.w, p, q, r);
    TurnedIs(u.y, u.z, u.x, u.w, q, r, p);
    TurnedIs(u.z, u.x, u.y, u.w, r, p, q);
  }
}
