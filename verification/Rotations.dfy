/**
 Rotation matrices and unit quaternions over exact reals
 (tools/tracker_camera_calibration/src/vt_tracker_camera_calib/transforms.py, lines 24-110).
 Square roots are not computed: wherever the source takes one, the model takes any
 nonnegative number whose square is the radicand.
 */
module Rotations {
  import opened Prelude

  const EPSILON: real := 0.000000000001
  const ORTHONORMAL_TOLERANCE: real := 0.0000001
  const RELATIVE_TOLERANCE: real := 0.00001

  datatype Quaternion = Quaternion(x: real, y: real, z: real, w: real) {
    function Dot(): real {
      x * x + y * y + z * z + w * w
    }

    function Negated(): Quaternion {
      Quaternion(-x, -y, -z, -w)
    }

    function Over(d: real): Quaternion
      requires d != 0.0
    {
      Quaternion(x / d, y / d, z / d, w / d)
    }
  }

  /** Entries by row and column. */
  datatype Matrix = Matrix(
    m00: real, m01: real, m02: real,
    m10: real, m11: real, m12: real,
    m20: real, m21: real, m22: real)
  {
    function Trace(): real {
      m00 + m11 + m22
    }

    function Determinant(): real {
      m00 * (m11 * m22 - m12 * m21) + m01 * (m12 * m20 - m10 * m22) + m02 * (m10 * m21 - m11 * m20)
    }

    /** The Gram matrix of the columns: transpose times matrix. */
    function Gram(): Matrix {
      Matrix(
        m00 * m00 + m10 * m10 + m20 * m20, m00 * m01 + m10 * m11 + m20 * m21, m00 * m02 + m10 * m12 + m20 * m22,
        m01 * m00 + m11 * m10 + m21 * m20, m01 * m01 + m11 * m11 + m21 * m21, m01 * m02 + m11 * m12 + m21 * m22,
        m02 * m00 + m12 * m10 + m22 * m20, m02 * m01 + m12 * m11 + m22 * m21, m02 * m02 + m12 * m12 + m22 * m22)
    }

    /** An exact rotation. */
    predicate IsRotation() {
      Gram() == IDENTITY && Determinant() == 1.0
    }

    /** What `_as_rotation` accepts, tolerances included. */
    predicate Accepted() {
      var g := Gram();
      && Near(g.m00, 1.0) && Near(g.m11, 1.0) && Near(g.m22, 1.0)
      && Near(g.m01, 0.0) && Near(g.m02, 0.0) && Near(g.m10, 0.0)
      && Near(g.m12, 0.0) && Near(g.m20, 0.0) && Near(g.m21, 0.0)
      && RealAbs(Determinant() - 1.0) <= ORTHONORMAL_TOLERANCE
    }
  }

  const IDENTITY := Matrix(1.0, 0.0, 0.0, 0.0, 1.0, 0.0, 0.0, 0.0, 1.0)

  function RealAbs(x: real): real {
    if x < 0.0 then -x else x
  }

  predicate Near(a: real, b: real) {
    RealAbs(a - b) <= ORTHONORMAL_TOLERANCE + RELATIVE_TOLERANCE * RealAbs(b)
  }

  /** `root` is the square root of `x`. */
  predicate IsRoot(root: real, x: real) {
    root >= 0.0 && root * root == x
  }

  datatype RotationError = ZeroNorm | NotARotation

  /** `_normalized_quaternion_xyzw`, given the norm. */
  function Normalized(q: Quaternion, norm: real): Result<Quaternion, RotationError>
    requires IsRoot(norm, q.Dot())
  {
    if norm < EPSILON then Err(ZeroNorm)
    else
      var unit := q.Over(norm);
      Ok(if unit.w < 0.0 then unit.Negated() else unit)
  }

  /** The matrix of a unit quaternion. */
  function MatrixOf(q: Quaternion): Matrix {
    var Quaternion(x, y, z, w) := q;
    Matrix(
      1.0 - 2.0 * (y * y + z * z), 2.0 * (x * y - z * w), 2.0 * (x * z + y * w),
      2.0 * (x * y + z * w), 1.0 - 2.0 * (x * x + z * z), 2.0 * (y * z - x * w),
      2.0 * (x * z - y * w), 2.0 * (y * z + x * w), 1.0 - 2.0 * (x * x + y * y))
  }

  /** `quaternion_xyzw_to_rotation`, given the norm of `q`. */
  function ToRotation(q: Quaternion, norm: real): Result<Matrix, RotationError>
    requires IsRoot(norm, q.Dot())
  {
    var n := Normalized(q, norm);
    if n.Err? then Err(n.error)
    else
      var m := MatrixOf(n.value);
      if m.Accepted() then Ok(m) else Err(NotARotation)
  }

  datatype Branch = TraceBranch | XBranch | YBranch | ZBranch

  /** The branch taken: by the trace, else by the first largest diagonal entry. */
  function BranchOf(m: Matrix): Branch {
    if m.Trace() > 0.0 then TraceBranch
    else if m.m00 >= m.m11 && m.m00 >= m.m22 then XBranch
    else if m.m11 >= m.m22 then YBranch
    else ZBranch
  }

  function Radicand(m: Matrix): real {
    match BranchOf(m)
    case TraceBranch => m.Trace() + 1.0
    case XBranch => 1.0 + m.m00 - m.m11 - m.m22
    case YBranch => 1.0 + m.m11 - m.m00 - m.m22
    case ZBranch => 1.0 + m.m22 - m.m00 - m.m11
  }

  /** The divisor never vanishes, whatever the matrix. */
  lemma ScaleIsPositive(m: Matrix, root: real)
    requires IsRoot(root, Radicand(m))
    ensures Radicand(m) >= 1.0 && root >= 1.0
  {
    assert root < 1.0 ==> root * root <= root * 1.0;
  }

  /** The quaternion before its final normalisation. */
  function RawQuaternion(m: Matrix, root: real): Quaternion
    requires IsRoot(root, Radicand(m))
  {
    ScaleIsPositive(m, root);
    var scale := root * 2.0;
    match BranchOf(m)
    case TraceBranch =>
      Quaternion((m.m21 - m.m12) / scale, (m.m02 - m.m20) / scale, (m.m10 - m.m01) / scale, 0.25 * scale)
    case XBranch =>
      Quaternion(0.25 * scale, (m.m01 + m.m10) / scale, (m.m02 + m.m20) / scale, (m.m21 - m.m12) / scale)
    case YBranch =>
      Quaternion((m.m01 + m.m10) / scale, 0.25 * scale, (m.m12 + m.m21) / scale, (m.m02 - m.m20) / scale)
    case ZBranch =>
      Quaternion((m.m02 + m.m20) / scale, (m.m12 + m.m21) / scale, 0.25 * scale, (m.m10 - m.m01) / scale)
  }

  /** `rotation_to_quaternion_xyzw`, given the root of the radicand and the norm of the raw quaternion. */
  function ToQuaternion(m: Matrix, root: real, norm: real): Result<Quaternion, RotationError>
    requires IsRoot(root, Radicand(m)) && IsRoot(norm, RawQuaternion(m, root).Dot())
  {
    if !m.Accepted() then Err(NotARotation) else Normalized(RawQuaternion(m, root), norm)
  }
}
