/**
 The two conversions of tools/tracker_camera_calibration/src/vt_tracker_camera_calib/transforms.py
 (lines 39-110) undo each other over exact reals, in all four branches.
 */
module QuaternionRoundTrip {
  import opened Prelude
  import opened Rotations
  import opened RotationFacts
  import opened RotationRoundTrip

  // ----- Products of components, read off a matrix -----

  /** Four times the ten products of a quaternion's components. */
  datatype Table = Table(
    ww: real, xx: real, yy: real, zz: real, wx: real, wy: real, wz: real, xy: real, xz: real, yz: real)
  {
    /** The products of one component with all of them. */
    function Row(b: Branch): Quaternion {
      match b
      case TraceBranch => Quaternion(wx, wy, wz, ww)
      case XBranch => Quaternion(xx, xy, xz, wx)
      case YBranch => Quaternion(xy, yy, yz, wy)
      case ZBranch => Quaternion(xz, yz, zz, wz)
    }

    /** The row of one component determines every product: squares, and mixed products. */
    ghost predicate Minors(b: Branch) {
      Squares(b) && Mixed(b)
    }

    ghost predicate Squares(b: Branch) {
      match b
      case TraceBranch => wx * wx == ww * xx && wy * wy == ww * yy && wz * wz == ww * zz
      case XBranch => wx * wx == xx * ww && xy * xy == xx * yy && xz * xz == xx * zz
      case YBranch => wy * wy == yy * ww && xy * xy == yy * xx && yz * yz == yy * zz
      case ZBranch => wz * wz == zz * ww && xz * xz == zz * xx && yz * yz == zz * yy
    }

    ghost predicate Mixed(b: Branch) {
      match b
      case TraceBranch => wx * wy == ww * xy && wx * wz == ww * xz && wy * wz == ww * yz
      case XBranch => wx * xy == xx * wy && wx * xz == xx * wz && xy * xz == xx * yz
      case YBranch => wy * xy == yy * wx && wy * yz == yy * wz && xy * yz == yy * xz
      case ZBranch => wz * xz == zz * wx && wz * yz == zz * wy && xz * yz == zz * xy
    }

    /** The products of `q`'s components are the ones in the table. */
    ghost predicate HoldsOf(q: Quaternion) {
      && q.w * q.w == ww / 4.0 && q.x * q.x == xx / 4.0 && q.y * q.y == yy / 4.0 && q.z * q.z == zz / 4.0
      && q.w * q.x == wx / 4.0 && q.w * q.y == wy / 4.0 && q.w * q.z == wz / 4.0
      && q.x * q.y == xy / 4.0 && q.x * q.z == xz / 4.0 && q.y * q.z == yz / 4.0
    }
  }

  function TableOf(m: Matrix): Table {
    Table(KWW(m), KXX(m), KYY(m), KZZ(m), KWX(m), KWY(m), KWZ(m), KXY(m), KXZ(m), KYZ(m))
  }

  /** The component a branch reads from the diagonal. */
  function Component(b: Branch, q: Quaternion): real {
    match b
    case TraceBranch => q.w
    case XBranch => q.x
    case YBranch => q.y
    case ZBranch => q.z
  }

  lemma RawIsRow(m: Matrix, root: real)
    requires IsRoot(root, Radicand(m))
    ensures Component(BranchOf(m), TableOf(m).Row(BranchOf(m))) == Radicand(m) >= 1.0 && root >= 1.0
    ensures RawQuaternion(m, root) == TableOf(m).Row(BranchOf(m)).Over(root * 2.0)
  {
    ScaleIsPositive(m, root);
    QuotientIs(Radicand(m), root * 2.0, 0.25 * (root * 2.0));
  }

  // ----- Quaternion to matrix and back -----

  lemma TableOfMatrixFrom(a: real, b: real, c: real, d: real, e: real, f: real, g: real, h: real, i: real, j: real)
    requires a + b + c + d == 1.0
    ensures TableOf(MatrixFrom(a, b, c, d, e, f, g, h, i, j))
            == TableOfProducts(a, b, c, d, e, f, g, h, i, j)
  {
  }

  /** `u` times `c`. */
  function Times(u: Quaternion, c: real): Quaternion {
    Quaternion(u.x * c, u.y * c, u.z * c, u.w * c)
  }

  /** The table of the ten products of four reals. */
  function TableOfProducts(a: real, b: real, c: real, d: real,
                           e: real, f: real, g: real, h: real, i: real, j: real): Table {
    Table(4.0 * d, 4.0 * a, 4.0 * b, 4.0 * c, 4.0 * g, 4.0 * i, 4.0 * j, 4.0 * e, 4.0 * f, 4.0 * h)
  }

  /** The products of one component with all of them. */
  function ProductRow(k: Branch, a: real, b: real, c: real, d: real,
                      e: real, f: real, g: real, h: real, i: real, j: real): Quaternion {
    match k
    case TraceBranch => Quaternion(g, i, j, d)
    case XBranch => Quaternion(a, e, f, g)
    case YBranch => Quaternion(e, b, h, i)
    case ZBranch => Quaternion(f, h, c, j)
  }

  lemma RowOfMatrixFrom(k: Branch, a: real, b: real, c: real, d: real,
                        e: real, f: real, g: real, h: real, i: real, j: real)
    requires a + b + c + d == 1.0
    ensures TableOf(MatrixFrom(a, b, c, d, e, f, g, h, i, j)).Row(k)
            == Times(ProductRow(k, a, b, c, d, e, f, g, h, i, j), 4.0)
  {
    TableOfMatrixFrom(a, b, c, d, e, f, g, h, i, j);
  }

  lemma ProductRowIsMultiple(k: Branch, x: real, y: real, z: real, w: real)
    ensures ProductRow(k, x * x, y * y, z * z, w * w, x * y, x * z, x * w, y * z, y * w, z * w)
            == Times(Quaternion(x, y, z, w), Component(k, Quaternion(x, y, z, w)))
  {
    match k
    case TraceBranch =>
    case XBranch =>
    case YBranch =>
    case ZBranch =>
  }

  lemma RowOfUnit(b: Branch, u: Quaternion)
    requires u.Dot() == 1.0
    ensures TableOf(MatrixOf(u)).Row(b) == Times(Times(u, Component(b, u)), 4.0)
  {
    var Quaternion(x, y, z, w) := u;
    MatrixOfIsMatrixFrom(x, y, z, w);
    RowOfMatrixFrom(b, x * x, y * y, z * z, w * w, x * y, x * z, x * w, y * z, y * w, z * w);
    ProductRowIsMultiple(b, x, y, z, w);
  }

  /** If root squared is four times c squared, dividing 4ac by twice the root gives a, up to the sign of c. */
  lemma DivideByRoot(a: real, c: real, root: real)
    requires root >= 1.0 && root * root == 4.0 * (c * c)
    ensures c != 0.0 && ((a * c) * 4.0) / (root * 2.0) == (if c > 0.0 then a else -a)
  {
    if c >= 0.0 {
      assert (2.0 * c) * (2.0 * c) == 4.0 * (c * c);
      RootIsUnique(root, 2.0 * c);
      assert a * (root * 2.0) == a * (4.0 * c) == (a * c) * 4.0;
      QuotientIs((a * c) * 4.0, root * 2.0, a);
    } else {
      assert (-2.0 * c) * (-2.0 * c) == 4.0 * (c * c);
      RootIsUnique(root, -2.0 * c);
      assert (-a) * (root * 2.0) == (-a) * (-4.0 * c) == (a * c) * 4.0;
      QuotientIs((a * c) * 4.0, root * 2.0, -a);
    }
  }

  lemma DivideRow(row: Quaternion, u: Quaternion, c: real, root: real)
    requires row == Times(Times(u, c), 4.0)
    requires root >= 1.0 && root * root == 4.0 * (c * c)
    ensures c != 0.0 && row.Over(root * 2.0) == (if c > 0.0 then u else u.Negated())
  {
    DivideByRoot(u.x, c, root);
    DivideByRoot(u.y, c, root);
    DivideByRoot(u.z, c, root);
    DivideByRoot(u.w, c, root);
  }

  lemma DiagonalOfRow(b: Branch, u: Quaternion, c: real)
    requires c == Component(b, u)
    ensures Component(b, Times(Times(u, c), 4.0)) == 4.0 * (c * c)
  {
  }

  lemma DivideRowByRoot(b: Branch, row: Quaternion, u: Quaternion, c: real, root: real)
    requires c == Component(b, u) && row == Times(Times(u, c), 4.0)
    requires root >= 1.0 && root * root == Component(b, row)
    ensures c != 0.0 && row.Over(root * 2.0) == (if c > 0.0 then u else u.Negated())
  {
    DiagonalOfRow(b, u, c);
    DivideRow(row, u, c, root);
  }

  lemma RawOfRow(m: Matrix, u: Quaternion, c: real, root: real)
    requires IsRoot(root, Radicand(m)) && c == Component(BranchOf(m), u)
    requires TableOf(m).Row(BranchOf(m)) == Times(Times(u, c), 4.0)
    ensures c != 0.0 && RawQuaternion(m, root) == (if c > 0.0 then u else u.Negated())
  {
    RawIsRow(m, root);
    DivideRowByRoot(BranchOf(m), TableOf(m).Row(BranchOf(m)), u, c, root);
  }

  lemma NormalizedUnit(v: Quaternion, norm: real)
    requires v.Dot() == 1.0 && IsRoot(norm, v.Dot())
    ensures Normalized(v, norm) == Ok(if v.w < 0.0 then v.Negated() else v)
  {
    RootIsUnique(norm, 1.0);
    assert v.Over(1.0) == v;
  }

  lemma NegatedDot(v: Quaternion)
    ensures v.Negated().Dot() == v.Dot() && v.Negated().Negated() == v
  {
  }

  lemma UnitRoundTrip(u: Quaternion, m: Matrix, c: real, root: real, norm: real)
    requires u.Dot() == 1.0 && u.w >= 0.0 && m.Accepted() && c == Component(BranchOf(m), u)
    requires TableOf(m).Row(BranchOf(m)) == Times(Times(u, c), 4.0)
    requires IsRoot(root, Radicand(m)) && IsRoot(norm, RawQuaternion(m, root).Dot())
    ensures ToQuaternion(m, root, norm) == Ok(if u.w == 0.0 && c < 0.0 then u.Negated() else u)
    ensures c != 0.0
  {
    RawOfRow(m, u, c, root);
    NegatedDot(u);
    NormalizedUnit(RawQuaternion(m, root), norm);
  }

  /** The unit quaternion `u` that normalisation made of direction `v` comes back as itself or negated. */
  lemma BackToDirection(v: Quaternion, u: Quaternion, m: Matrix, c: real, root: real, norm: real)
    requires u.Dot() == 1.0 && u.w >= 0.0 && (u == v || u == v.Negated()) && m.Accepted()
    requires c == Component(BranchOf(m), u) && TableOf(m).Row(BranchOf(m)) == Times(Times(u, c), 4.0)
    requires IsRoot(root, Radicand(m)) && IsRoot(norm, RawQuaternion(m, root).Dot())
    ensures var back := ToQuaternion(m, root, norm);
            && back.Ok? && back.value.w >= 0.0 && back.value.Dot() == 1.0
            && (back.value == v || back.value == v.Negated())
            && (back.value == u <==> u.w > 0.0 || c > 0.0)
  {
    UnitRoundTrip(u, m, c, root, norm);
    NegatedDot(u);
    NegatedDot(v);
    assert Component(BranchOf(m), u.Negated()) == -c;
  }

  /**
   Every quaternion whose norm is not negligible survives the trip through its matrix: the matrix is
   accepted, and what comes back is the unit quaternion of the same direction, with w >= 0. When w is
   zero it may come back negated, exactly if the component the branch reads is negative.
   */
  lemma QuaternionToMatrixAndBack(q: Quaternion, length: real, m: Matrix, root: real, norm: real)
    requires IsRoot(length, q.Dot()) && length >= EPSILON
    requires m == MatrixOf(Normalized(q, length).value)
    requires IsRoot(root, Radicand(m)) && IsRoot(norm, RawQuaternion(m, root).Dot())
    ensures ToRotation(q, length) == Ok(m) && m.IsRotation()
    ensures var u := Normalized(q, length).value;
            var back := ToQuaternion(m, root, norm);
            && back.Ok? && back.value.w >= 0.0 && back.value.Dot() == 1.0
            && (back.value == q.Over(length) || back.value == q.Over(length).Negated())
            && (back.value == u <==> u.w > 0.0 || Component(BranchOf(m), u) > 0.0)
  {
    NormalizedIsUnit(q, length);
    var u := Normalized(q, length).value;
    MatrixOfUnitIsRotation(u);
    RowOfUnit(BranchOf(m), u);
    BackToDirection(q.Over(length), u, m, Component(BranchOf(m), u), root, norm);
  }

  // ----- Matrix to quaternion and back -----

  lemma TableDeterminesMatrix(q: Quaternion, m: Matrix)
    requires TableOf(m).HoldsOf(q)
    ensures MatrixOf(q) == m && q.Dot() == 1.0
  {
  }

  lemma HoldsOfNegated(t: Table, q: Quaternion)
    requires t.HoldsOf(q)
    ensures t.HoldsOf(q.Negated())
  {
  }

  lemma QuarterRatio(n: real, d: real, k: real, t: real)
    requires k > 0.0 && d == 4.0 * k && n == k * t
    ensures n / d == t / 4.0
  {
    var r := t / 4.0;
    assert t == 4.0 * r;
    calc {
      n;
      k * t;
      k * (4.0 * r);
      r * (4.0 * k);
      r * d;
    }
    QuotientIs(n, d, r);
  }

  lemma ScaledProduct(p: real, q: real, k: real, t: real, s: real)
    requires k > 0.0 && s != 0.0 && s * s == 4.0 * k && p * q == k * t
    ensures (p / s) * (q / s) == t / 4.0
  {
    QuarterRatio(p * q, s * s, k, t);
    DivideProduct(p, q, s);
  }

  /** One row of products, scaled, gives all of them; a, b, c, d are the components in any order. */
  lemma RowProducts(aa: real, ab: real, ac: real, ad: real, bb: real, cc: real, dd: real,
                    bc: real, bd: real, cd: real, s: real, a: real, b: real, c: real, d: real)
    requires aa > 0.0 && s != 0.0 && s * s == 4.0 * aa
    requires ab * ab == aa * bb && ac * ac == aa * cc && ad * ad == aa * dd
    requires ab * ac == aa * bc && ab * ad == aa * bd && ac * ad == aa * cd
    requires a == aa / s && b == ab / s && c == ac / s && d == ad / s
    ensures a * a == aa / 4.0 && b * b == bb / 4.0 && c * c == cc / 4.0 && d * d == dd / 4.0
    ensures a * b == ab / 4.0 && a * c == ac / 4.0 && a * d == ad / 4.0
    ensures b * c == bc / 4.0 && b * d == bd / 4.0 && c * d == cd / 4.0
  {
    ScaledProduct(aa, aa, aa, aa, s);
    ScaledProduct(ab, ab, aa, bb, s);
    ScaledProduct(ac, ac, aa, cc, s);
    ScaledProduct(ad, ad, aa, dd, s);
    ScaledProduct(aa, ab, aa, ab, s);
    ScaledProduct(aa, ac, aa, ac, s);
    ScaledProduct(aa, ad, aa, ad, s);
    ScaledProduct(ab, ac, aa, bc, s);
    ScaledProduct(ab, ad, aa, bd, s);
    ScaledProduct(ac, ad, aa, cd, s);
  }

  lemma ScaledRow(t: Table, b: Branch, s: real)
    requires t.Minors(b) && Component(b, t.Row(b)) > 0.0 && s != 0.0 && s * s == 4.0 * Component(b, t.Row(b))
    ensures t.HoldsOf(t.Row(b).Over(s))
  {
    match b
    case TraceBranch => ScaledTraceRow(t, s, t.Row(b).Over(s));
    case XBranch => ScaledXRow(t, s, t.Row(b).Over(s));
    case YBranch => ScaledYRow(t, s, t.Row(b).Over(s));
    case ZBranch => ScaledZRow(t, s, t.Row(b).Over(s));
  }

  lemma ScaledTraceRow(t: Table, s: real, q: Quaternion)
    requires t.Minors(TraceBranch) && t.ww > 0.0 && s != 0.0 && s * s == 4.0 * t.ww && q == t.Row(TraceBranch).Over(s)
    ensures t.HoldsOf(q)
  {
    RowProducts(t.ww, t.wx, t.wy, t.wz, t.xx, t.yy, t.zz, t.xy, t.xz, t.yz, s, q.w, q.x, q.y, q.z);
  }

  lemma ScaledXRow(t: Table, s: real, q: Quaternion)
    requires t.Minors(XBranch) && t.xx > 0.0 && s != 0.0 && s * s == 4.0 * t.xx && q == t.Row(XBranch).Over(s)
    ensures t.HoldsOf(q)
  {
    RowProducts(t.xx, t.wx, t.xy, t.xz, t.ww, t.yy, t.zz, t.wy, t.wz, t.yz, s, q.x, q.w, q.y, q.z);
  }

  lemma ScaledYRow(t: Table, s: real, q: Quaternion)
    requires t.Minors(YBranch) && t.yy > 0.0 && s != 0.0 && s * s == 4.0 * t.yy && q == t.Row(YBranch).Over(s)
    ensures t.HoldsOf(q)
  {
    RowProducts(t.yy, t.wy, t.xy, t.yz, t.ww, t.xx, t.zz, t.wx, t.wz, t.xz, s, q.y, q.w, q.x, q.z);
  }

  lemma ScaledZRow(t: Table, s: real, q: Quaternion)
    requires t.Minors(ZBranch) && t.zz > 0.0 && s != 0.0 && s * s == 4.0 * t.zz && q == t.Row(ZBranch).Over(s)
    ensures t.HoldsOf(q)
  {
    RowProducts(t.zz, t.wz, t.xz, t.yz, t.ww, t.xx, t.yy, t.wx, t.wy, t.xy, s, q.z, q.w, q.x, q.y);
  }

  lemma RotationMinors(m: Matrix, b: Branch)
    requires Lengths(m) && Angles(m)
    ensures TableOf(m).Minors(b)
  {
    RotationSquares(m, b);
    RotationMixed(m, b);
  }

  lemma RotationSquares(m: Matrix, b: Branch)
    requires Lengths(m)
    ensures TableOf(m).Squares(b)
  {
    match b
    case TraceBranch => TraceSquares(m);
    case XBranch => XSquares(m);
    case YBranch => YSquares(m);
    case ZBranch => ZSquares(m);
  }

  lemma RotationMixed(m: Matrix, b: Branch)
    requires Angles(m)
    ensures TableOf(m).Mixed(b)
  {
    match b
    case TraceBranch => TraceMixed(m);
    case XBranch => XMixed(m);
    case YBranch => YMixed(m);
    case ZBranch => ZMixed(m);
  }

  lemma TraceSquares(m: Matrix)
    requires Lengths(m)
    ensures TableOf(m).Squares(TraceBranch)
  {
    SquareWX(m);
    SquareWY(m);
    SquareWZ(m);
  }

  lemma TraceMixed(m: Matrix)
    requires Angles(m)
    ensures TableOf(m).Mixed(TraceBranch)
  {
    MixedWXY(m);
    MixedWXZ(m);
    MixedWYZ(m);
  }

  lemma XSquares(m: Matrix)
    requires Lengths(m)
    ensures TableOf(m).Squares(XBranch)
  {
    SquareWX(m);
    SquareXY(m);
    SquareXZ(m);
  }

  lemma XMixed(m: Matrix)
    requires Angles(m)
    ensures TableOf(m).Mixed(XBranch)
  {
    MixedXWY(m);
    MixedXWZ(m);
    MixedXYZ(m);
  }

  lemma YSquares(m: Matrix)
    requires Lengths(m)
    ensures TableOf(m).Squares(YBranch)
  {
    SquareWY(m);
    SquareXY(m);
    SquareYZ(m);
  }

  lemma YMixed(m: Matrix)
    requires Angles(m)
    ensures TableOf(m).Mixed(YBranch)
  {
    MixedYWX(m);
    MixedYWZ(m);
    MixedYXZ(m);
  }

  lemma ZSquares(m: Matrix)
    requires Lengths(m)
    ensures TableOf(m).Squares(ZBranch)
  {
    SquareWZ(m);
    SquareXZ(m);
    SquareYZ(m);
  }

  lemma ZMixed(m: Matrix)
    requires Angles(m)
    ensures TableOf(m).Mixed(ZBranch)
  {
    MixedZWX(m);
    MixedZWY(m);
    MixedZXY(m);
  }

  lemma ScaledByRoot(t: Table, b: Branch, root: real, raw: Quaternion)
    requires t.Minors(b) && root >= 1.0 && root * root == Component(b, t.Row(b))
    requires raw == t.Row(b).Over(root * 2.0)
    ensures t.HoldsOf(raw)
  {
    var s := root * 2.0;
    assert s * s == 4.0 * (root * root);
    assert root * root >= 1.0;
    ScaledRow(t, b, s);
  }

  lemma RawHasProducts(m: Matrix, root: real)
    requires IsRoot(root, Radicand(m)) && TableOf(m).Minors(BranchOf(m))
    ensures TableOf(m).HoldsOf(RawQuaternion(m, root))
  {
    RawIsRow(m, root);
    ScaledByRoot(TableOf(m), BranchOf(m), root, RawQuaternion(m, root));
  }

  lemma RawGivesMatrix(m: Matrix, raw: Quaternion, norm: real, length: real)
    requires TableOf(m).HoldsOf(raw) && IsRoot(norm, raw.Dot()) && m.Accepted()
    ensures Normalized(raw, norm).Ok?
    ensures var q := Normalized(raw, norm).value;
            && q.Dot() == 1.0 && q.w >= 0.0
            && (IsRoot(length, q.Dot()) ==> ToRotation(q, length) == Ok(m))
  {
    TableDeterminesMatrix(raw, m);
    NormalizedUnit(raw, norm);
    HoldsOfNegated(TableOf(m), raw);
    TableDeterminesMatrix(raw.Negated(), m);
    var q := Normalized(raw, norm).value;
    if IsRoot(length, q.Dot()) {
      NormalizedUnit(q, length);
    }
  }

  /** The component its branch reads keeps a raw quaternion away from zero. */
  lemma RawIsLong(m: Matrix, root: real, norm: real)
    requires IsRoot(root, Radicand(m)) && IsRoot(norm, RawQuaternion(m, root).Dot())
    ensures norm >= 0.5
  {
    ScaleIsPositive(m, root);
    var raw := RawQuaternion(m, root);
    var read := 0.25 * (root * 2.0);
    assert read in {raw.x, raw.y, raw.z, raw.w};
    DotDominates(raw, read);
    SquareMonotone(read, 0.5);
    if norm < 0.5 {
      SquareBelow(norm);
    }
  }

  lemma DotDominates(q: Quaternion, c: real)
    requires c in {q.x, q.y, q.z, q.w}
    ensures q.Dot() >= c * c
  {
  }

  lemma SquareMonotone(a: real, b: real)
    requires a >= b >= 0.0
    ensures a * a >= b * b
  {
    assert a * a >= a * b;
    assert a * b >= b * b;
  }

  lemma SquareBelow(a: real)
    requires 0.0 <= a < 0.5
    ensures a * a < 0.25
  {
    assert a * a <= a * 0.5;
  }

  /** Exactly the matrices accepted, within tolerance or exact, give a quaternion: a unit one with w at least zero. */
  lemma AcceptedGivesUnit(m: Matrix, root: real, norm: real)
    requires IsRoot(root, Radicand(m)) && IsRoot(norm, RawQuaternion(m, root).Dot())
    ensures ToQuaternion(m, root, norm).Ok? <==> m.Accepted()
    ensures m.Accepted() ==>
              var q := ToQuaternion(m, root, norm).value;
              q.Dot() == 1.0 && q.w >= 0.0
  {
    RawIsLong(m, root, norm);
    NormalizedIsUnit(RawQuaternion(m, root), norm);
  }

  /** Every exact rotation comes back from its quaternion, whichever branch produced it. */
  lemma MatrixToQuaternionAndBack(m: Matrix, root: real, norm: real, length: real)
    requires m.IsRotation() && IsRoot(root, Radicand(m)) && IsRoot(norm, RawQuaternion(m, root).Dot())
    ensures ToQuaternion(m, root, norm).Ok?
    ensures var q := ToQuaternion(m, root, norm).value;
            && q.Dot() == 1.0 && q.w >= 0.0
            && (IsRoot(length, q.Dot()) ==> ToRotation(q, length) == Ok(m))
  {
    RotationIsAccepted(m);
    RotationIsProper(m);
    RotationMinors(m, BranchOf(m));
    RawHasProducts(m, root);
    RawGivesMatrix(m, RawQuaternion(m, root), norm, length);
  }
}
