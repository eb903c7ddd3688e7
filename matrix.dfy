/**
 * The 4×4 matrix helpers of the renderer (src/animations/platonic-solids.ts),
 * over exact reals instead of 32-bit floats. A matrix is 16 numbers in
 * column-major order: the entry in row `row` and column `col` sits at index
 * `col * 4 + row`. Cosines, sines and `1 / tan(fov / 2)` are passed in as
 * numbers, since they are not computed here.
 */
module Matrix {

  type Mat4 = m: seq<real> | |m| == 16 witness seq(16, i => 0.0)

  type Vec4 = v: seq<real> | |v| == 4 witness [0.0, 0.0, 0.0, 0.0]

  /** The entry in row `row`, column `col` of a column-major matrix. */
  function At(m: Mat4, row: nat, col: nat): real
    requires row < 4 && col < 4
  {
    m[col * 4 + row]
  }

  const Identity: Mat4 := [1.0, 0.0, 0.0, 0.0,
                           0.0, 1.0, 0.0, 0.0,
                           0.0, 0.0, 1.0, 0.0,
                           0.0, 0.0, 0.0, 1.0]

  /** x · y for two 4-vectors given by their components. */
  function Dot4(x0: real, x1: real, x2: real, x3: real, y0: real, y1: real, y2: real, y3: real): real {
    x0 * y0 + x1 * y1 + x2 * y2 + x3 * y3
  }

  /** Row `row` of `a` times column `col` of `b`. */
  function Entry(a: Mat4, b: Mat4, row: nat, col: nat): real
    requires row < 4 && col < 4
  {
    Dot4(At(a, row, 0), At(a, row, 1), At(a, row, 2), At(a, row, 3),
         At(b, 0, col), At(b, 1, col), At(b, 2, col), At(b, 3, col))
  }

  /** The matrix product a · b, stored column-major. */
  function Mul(a: Mat4, b: Mat4): Mat4 {
    seq(16, i requires 0 <= i < 16 => Entry(a, b, i % 4, i / 4))
  }

  /** Entry (row, col) of the product is row `row` of `a` times column `col` of `b`. */
  lemma MulAt(a: Mat4, b: Mat4, row: nat, col: nat)
    requires row < 4 && col < 4
    ensures At(Mul(a, b), row, col) == Entry(a, b, row, col)
  {
    var i := col * 4 + row;
    assert i % 4 == row && i / 4 == col;
  }

  /** Two matrices that agree entry by entry are equal. */
  lemma Ext(l: Mat4, r: Mat4)
    requires forall row: nat, col: nat :: row < 4 && col < 4 ==> At(l, row, col) == At(r, row, col)
    ensures l == r
  {
    forall i | 0 <= i < 16
      ensures l[i] == r[i]
    {
      assert i == (i / 4) * 4 + i % 4;
      assert l[i] == At(l, i % 4, i / 4);
    }
  }

  /**
   * `mulMat4(a, b)`: fills a fresh 16-entry buffer row by row, column by
   * column, with r[col·4 + row] = Σₖ a[k·4 + row] · b[col·4 + k].
   */
  method MulMat4(a: Mat4, b: Mat4) returns (r: Mat4)
    ensures r == Mul(a, b)
  {
    var buf := new real[16];
    for row := 0 to 4
      invariant forall rr: nat, cc: nat :: rr < row && cc < 4 ==> buf[cc * 4 + rr] == Entry(a, b, rr, cc)
    {
      for col := 0 to 4
        invariant forall rr: nat, cc: nat :: rr < row && cc < 4 ==> buf[cc * 4 + rr] == Entry(a, b, rr, cc)
        invariant forall cc: nat :: cc < col ==> buf[cc * 4 + row] == Entry(a, b, row, cc)
      {
        var v := a[row] * b[col * 4] + a[row + 4] * b[col * 4 + 1]
                 + a[row + 8] * b[col * 4 + 2] + a[row + 12] * b[col * 4 + 3];
        assert v == Entry(a, b, row, col);
        ghost var before := buf[..];
        buf[col * 4 + row] := v;
        assert forall i :: 0 <= i < 16 && i != col * 4 + row ==> buf[i] == before[i];
      }
    }
    forall i | 0 <= i < 16
      ensures buf[i] == Entry(a, b, i % 4, i / 4)
    {
      assert i == (i / 4) * 4 + i % 4;
    }
    r := buf[..];
  }

  lemma IdentityAt(row: nat, col: nat)
    requires row < 4 && col < 4
    ensures At(Identity, row, col) == if row == col then 1.0 else 0.0
  {
  }

  lemma IdentityLeftAt(a: Mat4, row: nat, col: nat)
    requires row < 4 && col < 4
    ensures At(Mul(Identity, a), row, col) == At(a, row, col)
  {
    MulAt(Identity, a, row, col);
    IdentityAt(row, 0); IdentityAt(row, 1); IdentityAt(row, 2); IdentityAt(row, 3);
  }

  lemma IdentityRightAt(a: Mat4, row: nat, col: nat)
    requires row < 4 && col < 4
    ensures At(Mul(a, Identity), row, col) == At(a, row, col)
  {
    MulAt(a, Identity, row, col);
    IdentityAt(0, col); IdentityAt(1, col); IdentityAt(2, col); IdentityAt(3, col);
  }

  /** The identity is neutral on both sides of the product. */
  lemma MulIdentity(a: Mat4)
    ensures Mul(Identity, a) == a
    ensures Mul(a, Identity) == a
  {
    forall row: nat, col: nat | row < 4 && col < 4
      ensures At(Mul(Identity, a), row, col) == At(a, row, col)
      ensures At(Mul(a, Identity), row, col) == At(a, row, col)
    {
      IdentityLeftAt(a, row, col);
      IdentityRightAt(a, row, col);
    }
    Ext(Mul(Identity, a), a);
    Ext(Mul(a, Identity), a);
  }

  /** (x · B) · y == x · (B · y) for a row x, a 4×4 block B and a column y. */
  lemma SumSwap(a0: real, a1: real, a2: real, a3: real,
                b00: real, b01: real, b02: real, b03: real,
                b10: real, b11: real, b12: real, b13: real,
                b20: real, b21: real, b22: real, b23: real,
                b30: real, b31: real, b32: real, b33: real,
                c0: real, c1: real, c2: real, c3: real)
    ensures Dot4(Dot4(a0, a1, a2, a3, b00, b10, b20, b30), Dot4(a0, a1, a2, a3, b01, b11, b21, b31),
                 Dot4(a0, a1, a2, a3, b02, b12, b22, b32), Dot4(a0, a1, a2, a3, b03, b13, b23, b33),
                 c0, c1, c2, c3)
         == Dot4(a0, a1, a2, a3,
                 Dot4(b00, b01, b02, b03, c0, c1, c2, c3), Dot4(b10, b11, b12, b13, c0, c1, c2, c3),
                 Dot4(b20, b21, b22, b23, c0, c1, c2, c3), Dot4(b30, b31, b32, b33, c0, c1, c2, c3))
  {
    Dot4Additive(a0 * b00, a0 * b01, a0 * b02, a0 * b03, a1 * b10, a1 * b11, a1 * b12, a1 * b13,
                 a2 * b20, a2 * b21, a2 * b22, a2 * b23, a3 * b30, a3 * b31, a3 * b32, a3 * b33,
                 c0, c1, c2, c3);
    Dot4Scale(a0, b00, b01, b02, b03, c0, c1, c2, c3);
    Dot4Scale(a1, b10, b11, b12, b13, c0, c1, c2, c3);
    Dot4Scale(a2, b20, b21, b22, b23, c0, c1, c2, c3);
    Dot4Scale(a3, b30, b31, b32, b33, c0, c1, c2, c3);
  }

  /** `Dot4` is additive in its first vector. */
  lemma Dot4Additive(u0: real, u1: real, u2: real, u3: real, v0: real, v1: real, v2: real, v3: real,
                     w0: real, w1: real, w2: real, w3: real, z0: real, z1: real, z2: real, z3: real,
                     c0: real, c1: real, c2: real, c3: real)
    ensures Dot4(u0 + v0 + w0 + z0, u1 + v1 + w1 + z1, u2 + v2 + w2 + z2, u3 + v3 + w3 + z3, c0, c1, c2, c3)
         == Dot4(u0, u1, u2, u3, c0, c1, c2, c3) + Dot4(v0, v1, v2, v3, c0, c1, c2, c3)
          + Dot4(w0, w1, w2, w3, c0, c1, c2, c3) + Dot4(z0, z1, z2, z3, c0, c1, c2, c3)
  {
  }

  /** A scalar factor moves into the first vector of `Dot4`. */
  lemma Dot4Scale(k: real, b0: real, b1: real, b2: real, b3: real, c0: real, c1: real, c2: real, c3: real)
    ensures k * Dot4(b0, b1, b2, b3, c0, c1, c2, c3) == Dot4(k * b0, k * b1, k * b2, k * b3, c0, c1, c2, c3)
  {
  }

  lemma EntryAssociative(a: Mat4, b: Mat4, c: Mat4, row: nat, col: nat)
    requires row < 4 && col < 4
    ensures At(Mul(Mul(a, b), c), row, col) == At(Mul(a, Mul(b, c)), row, col)
  {
    MulAt(Mul(a, b), c, row, col);
    MulAt(a, Mul(b, c), row, col);
    MulAt(a, b, row, 0); MulAt(a, b, row, 1); MulAt(a, b, row, 2); MulAt(a, b, row, 3);
    MulAt(b, c, 0, col); MulAt(b, c, 1, col); MulAt(b, c, 2, col); MulAt(b, c, 3, col);
    SumSwap(At(a, row, 0), At(a, row, 1), At(a, row, 2), At(a, row, 3),
            At(b, 0, 0), At(b, 0, 1), At(b, 0, 2), At(b, 0, 3),
            At(b, 1, 0), At(b, 1, 1), At(b, 1, 2), At(b, 1, 3),
            At(b, 2, 0), At(b, 2, 1), At(b, 2, 2), At(b, 2, 3),
            At(b, 3, 0), At(b, 3, 1), At(b, 3, 2), At(b, 3, 3),
            At(c, 0, col), At(c, 1, col), At(c, 2, col), At(c, 3, col));
  }

  /**
   * The product is associative (over exact reals), so the renderer's
   * proj · (view · (translate · rotate)) is the same transform however it is grouped.
   */
  lemma MulAssociative(a: Mat4, b: Mat4, c: Mat4)
    ensures Mul(Mul(a, b), c) == Mul(a, Mul(b, c))
  {
    forall row: nat, col: nat | row < 4 && col < 4
      ensures At(Mul(Mul(a, b), c), row, col) == At(Mul(a, Mul(b, c)), row, col)
    {
      EntryAssociative(a, b, c, row, col);
    }
    Ext(Mul(Mul(a, b), c), Mul(a, Mul(b, c)));
  }

  /** `translate(tx, ty, tz)`: the identity with the translation in its last column. */
  function Translate(tx: real, ty: real, tz: real): Mat4 {
    [1.0, 0.0, 0.0, 0.0,  0.0, 1.0, 0.0, 0.0,  0.0, 0.0, 1.0, 0.0,  tx, ty, tz, 1.0]
  }

  /** Every entry of a translation: the identity outside column 3, (tx, ty, tz, 1) in it. */
  lemma TranslateAt(tx: real, ty: real, tz: real, row: nat, col: nat)
    requires row < 4 && col < 4
    ensures At(Translate(tx, ty, tz), row, col)
         == if col == 3 && row == 0 then tx
            else if col == 3 && row == 1 then ty
            else if col == 3 && row == 2 then tz
            else if row == col then 1.0 else 0.0
  {
  }

  /** Composing two translations translates by their sum; no translation is the identity. */
  lemma TranslateCompose(ax: real, ay: real, az: real, bx: real, dy: real, bz: real)
    ensures Mul(Translate(ax, ay, az), Translate(bx, dy, bz)) == Translate(ax + bx, ay + dy, az + bz)
    ensures Translate(0.0, 0.0, 0.0) == Identity
  {
    var l, r, sum := Translate(ax, ay, az), Translate(bx, dy, bz), Translate(ax + bx, ay + dy, az + bz);
    forall row: nat, col: nat | row < 4 && col < 4
      ensures At(Mul(l, r), row, col) == At(sum, row, col)
    {
      TranslateComposeAt(ax, ay, az, bx, dy, bz, row, col);
    }
    Ext(Mul(l, r), sum);
  }

  /** One entry of the product of two translations. */
  lemma TranslateComposeAt(ax: real, ay: real, az: real, bx: real, dy: real, bz: real, row: nat, col: nat)
    requires row < 4 && col < 4
    ensures At(Mul(Translate(ax, ay, az), Translate(bx, dy, bz)), row, col) == At(Translate(ax + bx, ay + dy, az + bz), row, col)
  {
    var l, r := Translate(ax, ay, az), Translate(bx, dy, bz);
    MulAt(l, r, row, col);
    TranslateAt(ax, ay, az, row, 0); TranslateAt(ax, ay, az, row, 1);
    TranslateAt(ax, ay, az, row, 2); TranslateAt(ax, ay, az, row, 3);
    TranslateAt(bx, dy, bz, 0, col); TranslateAt(bx, dy, bz, 1, col);
    TranslateAt(bx, dy, bz, 2, col); TranslateAt(bx, dy, bz, 3, col);
    TranslateAt(ax + bx, ay + dy, az + bz, row, col);
  }

  /** `m · v` for a column vector `v`. */
  function Apply(m: Mat4, v: Vec4): Vec4 {
    seq(4, row requires 0 <= row < 4 =>
      Dot4(At(m, row, 0), At(m, row, 1), At(m, row, 2), At(m, row, 3), v[0], v[1], v[2], v[3]))
  }

  /** A translation moves a point (w = 1) by (tx, ty, tz) and leaves a direction (w = 0) alone. */
  lemma TranslateMovesPoint(tx: real, ty: real, tz: real, x: real, y: real, z: real, w: real)
    ensures Apply(Translate(tx, ty, tz), [x, y, z, w]) == [x + tx * w, y + ty * w, z + tz * w, w]
  {
    var v: Vec4 := [x, y, z, w];
    assert v[0] == x && v[1] == y && v[2] == z && v[3] == w;
    var r := Apply(Translate(tx, ty, tz), v);
    assert r[0] == Dot4(1.0, 0.0, 0.0, tx, x, y, z, w);
    assert r[1] == Dot4(0.0, 1.0, 0.0, ty, x, y, z, w);
    assert r[2] == Dot4(0.0, 0.0, 1.0, tz, x, y, z, w);
    assert r[3] == Dot4(0.0, 0.0, 0.0, 1.0, x, y, z, w);
    assert r[0] == x + tx * w && r[1] == y + ty * w && r[2] == z + tz * w && r[3] == w;
  }

  /**
   * `rotateAxis(ax, ay, az, angle)` (Rodrigues' formula), given `c = cos(angle)`
   * and `s = sin(angle)`.
   */
  function RotateAxis(ax: real, ay: real, az: real, c: real, s: real): Mat4 {
    var t := 1.0 - c;
    [ax * ax * t + c,      ay * ax * t + az * s, az * ax * t - ay * s, 0.0,
     ax * ay * t - az * s, ay * ay * t + c,      az * ay * t + ax * s, 0.0,
     ax * az * t + ay * s, ay * az * t - ax * s, az * az * t + c,      0.0,
     0.0,                  0.0,                  0.0,                  1.0]
  }

  /** At angle 0 (cosine 1, sine 0) the rotation is the identity, whatever the axis. */
  lemma RotateZeroAngle(ax: real, ay: real, az: real)
    ensures RotateAxis(ax, ay, az, 1.0, 0.0) == Identity
  {
  }

  /** The dot product of two 3-vectors given by their components. */
  function Dot(a0: real, a1: real, a2: real, b0: real, b1: real, b2: real): real {
    a0 * b0 + a1 * b1 + a2 * b2
  }

  /** The three spatial rows of `RotateAxis(ax, ay, az, c, s)` applied to (x, y, z, w). */
  function RotX(ax: real, ay: real, az: real, c: real, s: real, x: real, y: real, z: real, w: real): real {
    Dot4(ax * ax * (1.0 - c) + c, ax * ay * (1.0 - c) - az * s, ax * az * (1.0 - c) + ay * s, 0.0, x, y, z, w)
  }

  function RotY(ax: real, ay: real, az: real, c: real, s: real, x: real, y: real, z: real, w: real): real {
    Dot4(ay * ax * (1.0 - c) + az * s, ay * ay * (1.0 - c) + c, ay * az * (1.0 - c) - ax * s, 0.0, x, y, z, w)
  }

  function RotZ(ax: real, ay: real, az: real, c: real, s: real, x: real, y: real, z: real, w: real): real {
    Dot4(az * ax * (1.0 - c) - ay * s, az * ay * (1.0 - c) + ax * s, az * az * (1.0 - c) + c, 0.0, x, y, z, w)
  }

  /** The rotation matrix applied to a vector, row by row; the homogeneous coordinate is kept. */
  lemma ApplyRotation(ax: real, ay: real, az: real, c: real, s: real, v: Vec4)
    ensures var r := Apply(RotateAxis(ax, ay, az, c, s), v);
            && r[0] == RotX(ax, ay, az, c, s, v[0], v[1], v[2], v[3])
            && r[1] == RotY(ax, ay, az, c, s, v[0], v[1], v[2], v[3])
            && r[2] == RotZ(ax, ay, az, c, s, v[0], v[1], v[2], v[3])
            && r[3] == v[3]
  {
  }

  /**
   * Rodrigues' vector form of the rotation: c·v + s·(k × v) + t·k with
   * t = (1 − c)(k · v), for the axis k and the cross product k × v = (cx, cy, cz).
   */
  lemma RodriguesForm(ax: real, ay: real, az: real, c: real, s: real, x: real, y: real, z: real, w: real,
                      t: real, cx: real, cy: real, cz: real)
    requires t == (1.0 - c) * Dot(ax, ay, az, x, y, z)
    requires cx == ay * z - az * y && cy == az * x - ax * z && cz == ax * y - ay * x
    ensures RotX(ax, ay, az, c, s, x, y, z, w) == c * x + s * cx + t * ax
    ensures RotY(ax, ay, az, c, s, x, y, z, w) == c * y + s * cy + t * ay
    ensures RotZ(ax, ay, az, c, s, x, y, z, w) == c * z + s * cz + t * az
  {
    RodriguesRowX(ax, ay, az, c, s, x, y, z, w, t, cx);
    RodriguesRowY(ax, ay, az, c, s, x, y, z, w, t, cy);
    RodriguesRowZ(ax, ay, az, c, s, x, y, z, w, t, cz);
  }

  lemma RodriguesRowX(ax: real, ay: real, az: real, c: real, s: real, x: real, y: real, z: real, w: real, t: real, cx: real)
    requires t == (1.0 - c) * Dot(ax, ay, az, x, y, z) && cx == ay * z - az * y
    ensures RotX(ax, ay, az, c, s, x, y, z, w) == c * x + s * cx + t * ax
  {
    assert RotX(ax, ay, az, c, s, x, y, z, w)
        == (ax * ax * (1.0 - c) + c) * x + (ax * ay * (1.0 - c) - az * s) * y + (ax * az * (1.0 - c) + ay * s) * z;
  }

  lemma RodriguesRowY(ax: real, ay: real, az: real, c: real, s: real, x: real, y: real, z: real, w: real, t: real, cy: real)
    requires t == (1.0 - c) * Dot(ax, ay, az, x, y, z) && cy == az * x - ax * z
    ensures RotY(ax, ay, az, c, s, x, y, z, w) == c * y + s * cy + t * ay
  {
    assert RotY(ax, ay, az, c, s, x, y, z, w)
        == (ay * ax * (1.0 - c) + az * s) * x + (ay * ay * (1.0 - c) + c) * y + (ay * az * (1.0 - c) - ax * s) * z;
  }

  lemma RodriguesRowZ(ax: real, ay: real, az: real, c: real, s: real, x: real, y: real, z: real, w: real, t: real, cz: real)
    requires t == (1.0 - c) * Dot(ax, ay, az, x, y, z) && cz == ax * y - ay * x
    ensures RotZ(ax, ay, az, c, s, x, y, z, w) == c * z + s * cz + t * az
  {
    assert RotZ(ax, ay, az, c, s, x, y, z, w)
        == (az * ax * (1.0 - c) - ay * s) * x + (az * ay * (1.0 - c) + ax * s) * y + (az * az * (1.0 - c) + c) * z;
  }

  /** Equal factors give equal products. */
  lemma MulCongruence(a: real, b: real, c: real, d: real)
    requires a == c && b == d
    ensures a * b == c * d
  {
  }

  /** k × v is orthogonal to k and to v, and |k × v|² + (k · v)² = |k|²|v|² (Lagrange's identity). */
  lemma CrossProductFacts(ax: real, ay: real, az: real, x: real, y: real, z: real, cx: real, cy: real, cz: real)
    requires cx == ay * z - az * y && cy == az * x - ax * z && cz == ax * y - ay * x
    ensures Dot(cx, cy, cz, cx, cy, cz) + Dot(ax, ay, az, x, y, z) * Dot(ax, ay, az, x, y, z)
            == Dot(ax, ay, az, ax, ay, az) * Dot(x, y, z, x, y, z)
    ensures Dot(x, y, z, cx, cy, cz) == 0.0 && Dot(cx, cy, cz, ax, ay, az) == 0.0
    ensures Dot(x, y, z, ax, ay, az) == Dot(ax, ay, az, x, y, z)
  {
  }

  /** |αp + βq + γu|² written with the six dot products of p, q and u. */
  function Expansion(al: real, be: real, ga: real, pp: real, qq: real, uu: real, pq: real, pu: real, qu: real): real {
    al * al * pp + be * be * qq + ga * ga * uu + 2.0 * al * be * pq + 2.0 * al * ga * pu + 2.0 * be * ga * qu
  }

  lemma SquareOfSum(al: real, be: real, ga: real, p0: real, p1: real, p2: real,
                    q0: real, q1: real, q2: real, u0: real, u1: real, u2: real, e0: real, e1: real, e2: real)
    requires e0 == al * p0 + be * q0 + ga * u0
    requires e1 == al * p1 + be * q1 + ga * u1
    requires e2 == al * p2 + be * q2 + ga * u2
    ensures Dot(e0, e1, e2, e0, e1, e2)
         == Expansion(al, be, ga, Dot(p0, p1, p2, p0, p1, p2), Dot(q0, q1, q2, q0, q1, q2), Dot(u0, u1, u2, u0, u1, u2),
                      Dot(p0, p1, p2, q0, q1, q2), Dot(p0, p1, p2, u0, u1, u2), Dot(q0, q1, q2, u0, u1, u2))
  {
  }

  /** The expansion collapses to |v|² once k is a unit vector orthogonal to k × v and c² + s² = 1. */
  lemma NormCollapse(c: real, s: real, t: real, kv: real, vv: real, ww: real, kk: real, vw: real, vk: real, wk: real)
    requires kk == 1.0 && vw == 0.0 && wk == 0.0 && vk == kv && ww + kv * kv == kk * vv
    requires c * c + s * s == 1.0 && t == (1.0 - c) * kv
    ensures Expansion(c, s, t, vv, ww, kk, vw, vk, wk) == vv
  {
    assert t * t + 2.0 * c * t * kv == (1.0 - c * c) * kv * kv;
  }

  lemma SameDot(r0: real, r1: real, r2: real, e0: real, e1: real, e2: real)
    requires r0 == e0 && r1 == e1 && r2 == e2
    ensures Dot(r0, r1, r2, r0, r1, r2) == Dot(e0, e1, e2, e0, e1, e2)
  {
  }

  /** A rotation about a unit axis moves (x, y, z) to a point at the same distance from the origin. */
  lemma RotationPreservesLengthScalar(ax: real, ay: real, az: real, c: real, s: real, x: real, y: real, z: real, w: real)
    requires Dot(ax, ay, az, ax, ay, az) == 1.0
    requires c * c + s * s == 1.0
    ensures var r0, r1, r2 := RotX(ax, ay, az, c, s, x, y, z, w), RotY(ax, ay, az, c, s, x, y, z, w),
                              RotZ(ax, ay, az, c, s, x, y, z, w);
            Dot(r0, r1, r2, r0, r1, r2) == Dot(x, y, z, x, y, z)
  {
    var t := (1.0 - c) * Dot(ax, ay, az, x, y, z);
    var cx, cy, cz := ay * z - az * y, az * x - ax * z, ax * y - ay * x;
    var e0, e1, e2 := c * x + s * cx + t * ax, c * y + s * cy + t * ay, c * z + s * cz + t * az;
    var r0, r1, r2 := RotX(ax, ay, az, c, s, x, y, z, w), RotY(ax, ay, az, c, s, x, y, z, w),
                      RotZ(ax, ay, az, c, s, x, y, z, w);
    RodriguesForm(ax, ay, az, c, s, x, y, z, w, t, cx, cy, cz);
    assert r0 == e0 && r1 == e1 && r2 == e2;
    SameDot(r0, r1, r2, e0, e1, e2);
    CrossProductFacts(ax, ay, az, x, y, z, cx, cy, cz);
    SquareOfSum(c, s, t, x, y, z, cx, cy, cz, ax, ay, az, e0, e1, e2);
    NormCollapse(c, s, t, Dot(ax, ay, az, x, y, z), Dot(x, y, z, x, y, z), Dot(cx, cy, cz, cx, cy, cz),
                 Dot(ax, ay, az, ax, ay, az), Dot(x, y, z, cx, cy, cz), Dot(x, y, z, ax, ay, az),
                 Dot(cx, cy, cz, ax, ay, az));
  }

  /**
   * `rotateAxis` with a unit axis and c² + s² = 1 (a true cosine and sine)
   * preserves the length of every vector and leaves the homogeneous coordinate alone.
   */
  lemma RotationPreservesLength(ax: real, ay: real, az: real, c: real, s: real, v: Vec4)
    requires Dot(ax, ay, az, ax, ay, az) == 1.0
    requires c * c + s * s == 1.0
    ensures var r := Apply(RotateAxis(ax, ay, az, c, s), v);
            Dot(r[0], r[1], r[2], r[0], r[1], r[2]) == Dot(v[0], v[1], v[2], v[0], v[1], v[2]) && r[3] == v[3]
  {
    ApplyRotation(ax, ay, az, c, s, v);
    RotationPreservesLengthScalar(ax, ay, az, c, s, v[0], v[1], v[2], v[3]);
  }

  lemma AxisFixedScalar(ax: real, ay: real, az: real, c: real, s: real)
    requires Dot(ax, ay, az, ax, ay, az) == 1.0
    ensures RotX(ax, ay, az, c, s, ax, ay, az, 0.0) == ax
    ensures RotY(ax, ay, az, c, s, ax, ay, az, 0.0) == ay
    ensures RotZ(ax, ay, az, c, s, ax, ay, az, 0.0) == az
  {
    assert (1.0 - c) * Dot(ax, ay, az, ax, ay, az) == 1.0 - c;
    RodriguesForm(ax, ay, az, c, s, ax, ay, az, 0.0, 1.0 - c, 0.0, 0.0, 0.0);
  }

  /** A rotation about a unit axis leaves the axis itself where it is. */
  lemma RotationFixesAxis(ax: real, ay: real, az: real, c: real, s: real)
    requires Dot(ax, ay, az, ax, ay, az) == 1.0
    ensures Apply(RotateAxis(ax, ay, az, c, s), [ax, ay, az, 0.0]) == [ax, ay, az, 0.0]
  {
    var v: Vec4 := [ax, ay, az, 0.0];
    assert v[0] == ax && v[1] == ay && v[2] == az && v[3] == 0.0;
    ApplyRotation(ax, ay, az, c, s, v);
    AxisFixedScalar(ax, ay, az, c, s);
  }

  /**
   * `perspective(fov, aspect, near, far)` as the source writes it, given
   * `f = 1 / tan(fov / 2)`: the depth row uses (near + far) / (near − far) and
   * 2 · near · far / (near − far), the convention whose depth range is [−w, w].
   */
  function PerspectiveAsWritten(f: real, aspect: real, near: real, far: real): Mat4
    requires aspect != 0.0 && near != far
  {
    var rangeInv := 1.0 / (near - far);
    [f / aspect, 0.0, 0.0, 0.0,
     0.0, f, 0.0, 0.0,
     0.0, 0.0, (near + far) * rangeInv, -1.0,
     0.0, 0.0, near * far * rangeInv * 2.0, 0.0]
  }

  /**
   * The perspective projection with the depth range [0, w] that the renderer's
   * depth test expects (depth cleared to 1.0, compared with "less"):
   * far / (near − far) and near · far / (near − far) in the depth row.
   */
  function Perspective(f: real, aspect: real, near: real, far: real): Mat4
    requires aspect != 0.0 && near != far
  {
    var rangeInv := 1.0 / (near - far);
    [f / aspect, 0.0, 0.0, 0.0,
     0.0, f, 0.0, 0.0,
     0.0, 0.0, far * rangeInv, -1.0,
     0.0, 0.0, near * far * rangeInv, 0.0]
  }

  /** The clip-space point `m` makes of the on-axis view-space point at distance d in front of the camera. */
  function ClipOf(m: Mat4, d: real): Vec4 {
    Apply(m, [0.0, 0.0, -d, 1.0])
  }

  /** Its depth z and its w come from the last two entries of rows 2 and 3. */
  lemma ClipDepthRows(m: Mat4, d: real)
    ensures ClipOf(m, d)[2] == At(m, 2, 2) * -d + At(m, 2, 3)
    ensures ClipOf(m, d)[3] == At(m, 3, 2) * -d + At(m, 3, 3)
  {
    var v: Vec4 := [0.0, 0.0, -d, 1.0];
    assert v[0] == 0.0 && v[1] == 0.0 && v[2] == -d && v[3] == 1.0;
    var r := Apply(m, v);
    assert r[2] == Dot4(At(m, 2, 0), At(m, 2, 1), At(m, 2, 2), At(m, 2, 3), 0.0, 0.0, -d, 1.0);
    assert r[3] == Dot4(At(m, 3, 0), At(m, 3, 1), At(m, 3, 2), At(m, 3, 3), 0.0, 0.0, -d, 1.0);
  }

  /**
   * The written matrix sends the near plane to normalised depth −1 (z = −w)
   * and the far plane to +1. WebGPU keeps only 0 ≤ z ≤ w, so the near plane
   * itself is clipped.
   */
  lemma PerspectiveAsWrittenDepths(f: real, aspect: real, near: real, far: real)
    requires aspect != 0.0 && 0.0 < near < far
    ensures ClipOf(PerspectiveAsWritten(f, aspect, near, far), near)[2] == -near
    ensures ClipOf(PerspectiveAsWritten(f, aspect, near, far), near)[3] == near
    ensures ClipOf(PerspectiveAsWritten(f, aspect, near, far), far)[2] == far
    ensures ClipOf(PerspectiveAsWritten(f, aspect, near, far), far)[3] == far
  {
    var p := PerspectiveAsWritten(f, aspect, near, far);
    ClipDepthRows(p, near);
    ClipDepthRows(p, far);
    var ri := 1.0 / (near - far);
    assert At(p, 2, 2) == (near + far) * ri && At(p, 2, 3) == near * far * ri * 2.0;
    assert At(p, 3, 2) == -1.0 && At(p, 3, 3) == 0.0;
    assert ri * (near - far) == 1.0;
    assert (near + far) * ri * -near + near * far * ri * 2.0 == -near * (ri * (near - far));
    assert (near + far) * ri * -far + near * far * ri * 2.0 == far * (ri * (near - far));
  }

  /**
   * With the renderer's own constants (near 0.1, far 100) the point at
   * distance 0.15, inside the frustum the camera means to show, gets a
   * negative clip depth under the written matrix and is clipped away.
   */
  lemma PerspectiveAsWrittenClipsInsideFrustum(f: real, aspect: real)
    requires aspect != 0.0
    ensures 0.1 < 0.15 < 100.0
    ensures ClipOf(PerspectiveAsWritten(f, aspect, 0.1, 100.0), 0.15)[2] < 0.0
    ensures ClipOf(PerspectiveAsWritten(f, aspect, 0.1, 100.0), 0.15)[3] == 0.15
  {
    var p := PerspectiveAsWritten(f, aspect, 0.1, 100.0);
    ClipDepthRows(p, 0.15);
    assert At(p, 2, 2) == 100.1 * (1.0 / -99.9) && At(p, 2, 3) == 20.0 * (1.0 / -99.9);
  }

  /** The corrected matrix sends the near plane to depth 0 and the far plane to depth 1 (z = w). */
  lemma PerspectiveDepths(f: real, aspect: real, near: real, far: real)
    requires aspect != 0.0 && 0.0 < near < far
    ensures ClipOf(Perspective(f, aspect, near, far), near)[2] == 0.0
    ensures ClipOf(Perspective(f, aspect, near, far), near)[3] == near
    ensures ClipOf(Perspective(f, aspect, near, far), far)[2] == far
    ensures ClipOf(Perspective(f, aspect, near, far), far)[3] == far
  {
    var p := Perspective(f, aspect, near, far);
    ClipDepthRows(p, near);
    ClipDepthRows(p, far);
    var ri := 1.0 / (near - far);
    assert At(p, 2, 2) == far * ri && At(p, 2, 3) == near * far * ri;
    assert At(p, 3, 2) == -1.0 && At(p, 3, 3) == 0.0;
    assert ri * (near - far) == 1.0;
    assert far * ri * -far + near * far * ri == far * (ri * (near - far));
  }

  /**
   * Under the corrected matrix every on-axis point from the near plane to the
   * far plane lands in WebGPU's depth range 0 ≤ z ≤ w, and depth grows with distance.
   */
  lemma PerspectiveKeepsFrustum(f: real, aspect: real, near: real, far: real, d: real, e: real)
    requires aspect != 0.0 && 0.0 < near < far
    requires near <= d < e <= far
    ensures 0.0 <= ClipOf(Perspective(f, aspect, near, far), d)[2] <= ClipOf(Perspective(f, aspect, near, far), d)[3]
    ensures ClipOf(Perspective(f, aspect, near, far), d)[3] == d
    ensures ClipOf(Perspective(f, aspect, near, far), d)[2] < ClipOf(Perspective(f, aspect, near, far), e)[2]
  {
    var ri := 1.0 / (near - far);
    var zd, ze := ClipOf(Perspective(f, aspect, near, far), d)[2], ClipOf(Perspective(f, aspect, near, far), e)[2];
    PerspectiveClip(f, aspect, near, far, d);
    PerspectiveClip(f, aspect, near, far, e);
    DepthGrows(near, far, d, e, ri, zd, ze);
  }

  /** The corrected matrix's clip depth and w for one on-axis point between the planes. */
  lemma PerspectiveClip(f: real, aspect: real, near: real, far: real, d: real)
    requires aspect != 0.0 && 0.0 < near < far
    requires near <= d <= far
    ensures var ri := 1.0 / (near - far);
            ri * (near - far) == 1.0 &&
            ClipOf(Perspective(f, aspect, near, far), d)[2] == far * -ri * (d - near)
    ensures 0.0 <= ClipOf(Perspective(f, aspect, near, far), d)[2] <= d
    ensures ClipOf(Perspective(f, aspect, near, far), d)[3] == d
  {
    var p := Perspective(f, aspect, near, far);
    ClipDepthRows(p, d);
    var ri := 1.0 / (near - far);
    assert At(p, 2, 2) == far * ri && At(p, 2, 3) == near * far * ri;
    assert At(p, 3, 2) == -1.0 && At(p, 3, 3) == 0.0;
    assert ri * (near - far) == 1.0;
    DepthInRange(near, far, d, ri, At(p, 2, 2), At(p, 2, 3));
  }

  /**
   * The depth a22 · (−d) + a23 of the corrected matrix, with ri = 1 / (near − far),
   * equals far · (d − near) / (far − near): it lies in [0, d] and grows with d.
   */
  lemma DepthInRange(near: real, far: real, d: real, ri: real, a22: real, a23: real)
    requires 0.0 < near < far && near <= d <= far
    requires ri * (near - far) == 1.0
    requires a22 == far * ri && a23 == near * far * ri
    ensures 0.0 <= a22 * -d + a23 <= d
    ensures a22 * -d + a23 == far * -ri * (d - near)
  {
    var q := -ri;
    var z := a22 * -d + a23;
    assert q * (far - near) == 1.0;
    assert q > 0.0;
    assert z == far * q * (d - near);
    assert d == d * (q * (far - near));
    assert d - z == q * near * (far - d);
    MulNonneg(q * near, far - d);
    MulNonneg(far * q, d - near);
  }

  lemma DepthGrows(near: real, far: real, d: real, e: real, ri: real, zd: real, ze: real)
    requires 0.0 < near < far && d < e
    requires ri * (near - far) == 1.0
    requires zd == far * -ri * (d - near) && ze == far * -ri * (e - near)
    ensures zd < ze
  {
    var q := -ri;
    assert q * (far - near) == 1.0;
    assert q > 0.0;
    MulPos(far, q);
    MulPos(far * q, e - d);
    assert ze - zd == far * q * (e - d);
  }

  lemma MulPos(a: real, b: real)
    requires a > 0.0 && b > 0.0
    ensures a * b > 0.0
  {
  }

  lemma MulNonneg(a: real, b: real)
    requires a >= 0.0 && b >= 0.0
    ensures a * b >= 0.0
  {
  }
}
