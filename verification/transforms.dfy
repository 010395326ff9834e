/**
  The placement algebra of src/transform.rs, over the reals.

  A `Transform` is a 4x4 affine matrix together with an independent colour
  state (hue, saturation, brightness, alpha).  Composition multiplies the
  matrices, adds the hues and multiplies the other three colour channels; the
  default transform is the identity of that composition.  Matrices follow
  nalgebra's mathematical convention: `m.r0 .. m.r3` are the rows, points are
  column vectors, and `MatMul(a, b)` applied to a point applies `b` first.
 */
module Transforms {

  datatype Vec4 = Vec4(x: real, y: real, z: real, w: real)

  /** A 4x4 matrix given by its four rows. */
  datatype Mat4 = Mat4(r0: Vec4, r1: Vec4, r2: Vec4, r3: Vec4)

  function Dot(a: Vec4, b: Vec4): real {
    a.x * b.x + a.y * b.y + a.z * b.z + a.w * b.w
  }

  /** The row vector `r` times the matrix `b`. */
  function RowTimes(r: Vec4, b: Mat4): Vec4 {
    Vec4(r.x * b.r0.x + r.y * b.r1.x + r.z * b.r2.x + r.w * b.r3.x,
         r.x * b.r0.y + r.y * b.r1.y + r.z * b.r2.y + r.w * b.r3.y,
         r.x * b.r0.z + r.y * b.r1.z + r.z * b.r2.z + r.w * b.r3.z,
         r.x * b.r0.w + r.y * b.r1.w + r.z * b.r2.w + r.w * b.r3.w)
  }

  /** The matrix product `a * b` (nalgebra's `Matrix4 * Matrix4`). */
  function MatMul(a: Mat4, b: Mat4): Mat4 {
    Mat4(RowTimes(a.r0, b), RowTimes(a.r1, b), RowTimes(a.r2, b), RowTimes(a.r3, b))
  }

  /** The matrix applied to a column vector. */
  function Apply(m: Mat4, v: Vec4): Vec4 {
    Vec4(Dot(m.r0, v), Dot(m.r1, v), Dot(m.r2, v), Dot(m.r3, v))
  }

  const Identity: Mat4 :=
    Mat4(Vec4(1.0, 0.0, 0.0, 0.0), Vec4(0.0, 1.0, 0.0, 0.0), Vec4(0.0, 0.0, 1.0, 0.0), Vec4(0.0, 0.0, 0.0, 1.0))

  /** The homogeneous coordinates of the point (x, y, z). */
  function Point(x: real, y: real, z: real): Vec4 {
    Vec4(x, y, z, 1.0)
  }

  /** A row times a matrix, dotted with a vector, is the row dotted with the transformed vector. */
  lemma DotRowTimes(r: Vec4, b: Mat4, v: Vec4)
    ensures Dot(RowTimes(r, b), v) == Dot(r, Apply(b, v))
  {
    ProductTerms(r.x, r.y, r.z, r.w,
                 b.r0.x, b.r0.y, b.r0.z, b.r0.w, b.r1.x, b.r1.y, b.r1.z, b.r1.w,
                 b.r2.x, b.r2.y, b.r2.z, b.r2.w, b.r3.x, b.r3.y, b.r3.z, b.r3.w,
                 v.x, v.y, v.z, v.w);
  }

  /** `DotRowTimes` on vectors and a matrix given entry by entry. */
  lemma ProductTerms(r0: real, r1: real, r2: real, r3: real,
                     b00: real, b01: real, b02: real, b03: real, b10: real, b11: real, b12: real, b13: real,
                     b20: real, b21: real, b22: real, b23: real, b30: real, b31: real, b32: real, b33: real,
                     v0: real, v1: real, v2: real, v3: real)
    ensures var r, v := Vec4(r0, r1, r2, r3), Vec4(v0, v1, v2, v3);
      var b := Mat4(Vec4(b00, b01, b02, b03), Vec4(b10, b11, b12, b13), Vec4(b20, b21, b22, b23), Vec4(b30, b31, b32, b33));
      Dot(RowTimes(r, b), v) == Dot(r, Apply(b, v))
  {
    LeftSide(r0, r1, r2, r3, b00, b01, b02, b03, b10, b11, b12, b13, b20, b21, b22, b23, b30, b31, b32, b33, v0, v1, v2, v3);
    RightSide(r0, r1, r2, r3, b00, b01, b02, b03, b10, b11, b12, b13, b20, b21, b22, b23, b30, b31, b32, b33, v0, v1, v2, v3);
    TripleProducts(r0, r1, r2, r3, b00, b01, b02, b03, b10, b11, b12, b13, b20, b21, b22, b23, b30, b31, b32, b33, v0, v1, v2, v3);
  }

  lemma LeftSide(r0: real, r1: real, r2: real, r3: real,
                     b00: real, b01: real, b02: real, b03: real, b10: real, b11: real, b12: real, b13: real,
                     b20: real, b21: real, b22: real, b23: real, b30: real, b31: real, b32: real, b33: real,
                     v0: real, v1: real, v2: real, v3: real)
    ensures Dot(RowTimes(Vec4(r0, r1, r2, r3), Mat4(Vec4(b00, b01, b02, b03), Vec4(b10, b11, b12, b13), Vec4(b20, b21, b22, b23), Vec4(b30, b31, b32, b33))), Vec4(v0, v1, v2, v3))
         == (r0 * b00 + r1 * b10 + r2 * b20 + r3 * b30) * v0 + (r0 * b01 + r1 * b11 + r2 * b21 + r3 * b31) * v1
          + (r0 * b02 + r1 * b12 + r2 * b22 + r3 * b32) * v2 + (r0 * b03 + r1 * b13 + r2 * b23 + r3 * b33) * v3
  {
    RowTimesEntries(r0, r1, r2, r3, b00, b01, b02, b03, b10, b11, b12, b13, b20, b21, b22, b23, b30, b31, b32, b33);
    DotEntries(r0 * b00 + r1 * b10 + r2 * b20 + r3 * b30, r0 * b01 + r1 * b11 + r2 * b21 + r3 * b31,
               r0 * b02 + r1 * b12 + r2 * b22 + r3 * b32, r0 * b03 + r1 * b13 + r2 * b23 + r3 * b33, v0, v1, v2, v3);
  }

  lemma RightSide(r0: real, r1: real, r2: real, r3: real,
                     b00: real, b01: real, b02: real, b03: real, b10: real, b11: real, b12: real, b13: real,
                     b20: real, b21: real, b22: real, b23: real, b30: real, b31: real, b32: real, b33: real,
                     v0: real, v1: real, v2: real, v3: real)
    ensures Dot(Vec4(r0, r1, r2, r3), Apply(Mat4(Vec4(b00, b01, b02, b03), Vec4(b10, b11, b12, b13), Vec4(b20, b21, b22, b23), Vec4(b30, b31, b32, b33)), Vec4(v0, v1, v2, v3)))
         == r0 * (b00 * v0 + b01 * v1 + b02 * v2 + b03 * v3) + r1 * (b10 * v0 + b11 * v1 + b12 * v2 + b13 * v3)
          + r2 * (b20 * v0 + b21 * v1 + b22 * v2 + b23 * v3) + r3 * (b30 * v0 + b31 * v1 + b32 * v2 + b33 * v3)
  {
    ApplyEntries(b00, b01, b02, b03, b10, b11, b12, b13, b20, b21, b22, b23, b30, b31, b32, b33, v0, v1, v2, v3);
    DotEntries(r0, r1, r2, r3, b00 * v0 + b01 * v1 + b02 * v2 + b03 * v3, b10 * v0 + b11 * v1 + b12 * v2 + b13 * v3,
               b20 * v0 + b21 * v1 + b22 * v2 + b23 * v3, b30 * v0 + b31 * v1 + b32 * v2 + b33 * v3);
  }

  /** A row times a matrix, entry by entry. */
  lemma RowTimesEntries(r0: real, r1: real, r2: real, r3: real,
                        b00: real, b01: real, b02: real, b03: real, b10: real, b11: real, b12: real, b13: real,
                        b20: real, b21: real, b22: real, b23: real, b30: real, b31: real, b32: real, b33: real)
    ensures RowTimes(Vec4(r0, r1, r2, r3), Mat4(Vec4(b00, b01, b02, b03), Vec4(b10, b11, b12, b13), Vec4(b20, b21, b22, b23), Vec4(b30, b31, b32, b33)))
         == Vec4(r0 * b00 + r1 * b10 + r2 * b20 + r3 * b30, r0 * b01 + r1 * b11 + r2 * b21 + r3 * b31,
                 r0 * b02 + r1 * b12 + r2 * b22 + r3 * b32, r0 * b03 + r1 * b13 + r2 * b23 + r3 * b33)
  {
  }

  /** A matrix applied to a vector, entry by entry. */
  lemma ApplyEntries(b00: real, b01: real, b02: real, b03: real, b10: real, b11: real, b12: real, b13: real,
                     b20: real, b21: real, b22: real, b23: real, b30: real, b31: real, b32: real, b33: real,
                     v0: real, v1: real, v2: real, v3: real)
    ensures Apply(Mat4(Vec4(b00, b01, b02, b03), Vec4(b10, b11, b12, b13), Vec4(b20, b21, b22, b23), Vec4(b30, b31, b32, b33)), Vec4(v0, v1, v2, v3))
         == Vec4(b00 * v0 + b01 * v1 + b02 * v2 + b03 * v3, b10 * v0 + b11 * v1 + b12 * v2 + b13 * v3,
                 b20 * v0 + b21 * v1 + b22 * v2 + b23 * v3, b30 * v0 + b31 * v1 + b32 * v2 + b33 * v3)
  {
    DotEntries(b00, b01, b02, b03, v0, v1, v2, v3);
    DotEntries(b10, b11, b12, b13, v0, v1, v2, v3);
    DotEntries(b20, b21, b22, b23, v0, v1, v2, v3);
    DotEntries(b30, b31, b32, b33, v0, v1, v2, v3);
  }

  lemma DotEntries(a0: real, a1: real, a2: real, a3: real, b0: real, b1: real, b2: real, b3: real)
    ensures Dot(Vec4(a0, a1, a2, a3), Vec4(b0, b1, b2, b3)) == a0 * b0 + a1 * b1 + a2 * b2 + a3 * b3
  {
  }

  /** The scalar identity behind `ProductTerms`: both sides are the sixteen products `r_i * b_ij * v_j`. */
  lemma TripleProducts(r0: real, r1: real, r2: real, r3: real,
                       b00: real, b01: real, b02: real, b03: real, b10: real, b11: real, b12: real, b13: real,
                       b20: real, b21: real, b22: real, b23: real, b30: real, b31: real, b32: real, b33: real,
                       v0: real, v1: real, v2: real, v3: real)
    ensures (r0 * b00 + r1 * b10 + r2 * b20 + r3 * b30) * v0 + (r0 * b01 + r1 * b11 + r2 * b21 + r3 * b31) * v1
          + (r0 * b02 + r1 * b12 + r2 * b22 + r3 * b32) * v2 + (r0 * b03 + r1 * b13 + r2 * b23 + r3 * b33) * v3
         == r0 * (b00 * v0 + b01 * v1 + b02 * v2 + b03 * v3) + r1 * (b10 * v0 + b11 * v1 + b12 * v2 + b13 * v3)
          + r2 * (b20 * v0 + b21 * v1 + b22 * v2 + b23 * v3) + r3 * (b30 * v0 + b31 * v1 + b32 * v2 + b33 * v3)
  {
    ColumnTerms(r0, r1, r2, r3, b00, b10, b20, b30, v0);
    ColumnTerms(r0, r1, r2, r3, b01, b11, b21, b31, v1);
    ColumnTerms(r0, r1, r2, r3, b02, b12, b22, b32, v2);
    ColumnTerms(r0, r1, r2, r3, b03, b13, b23, b33, v3);
    TimesSum4(r0, b00 * v0, b01 * v1, b02 * v2, b03 * v3);
    TimesSum4(r1, b10 * v0, b11 * v1, b12 * v2, b13 * v3);
    TimesSum4(r2, b20 * v0, b21 * v1, b22 * v2, b23 * v3);
    TimesSum4(r3, b30 * v0, b31 * v1, b32 * v2, b33 * v3);
  }

  /** One column of a row-times-matrix product, scaled, as a sum of four triple products. */
  lemma ColumnTerms(r0: real, r1: real, r2: real, r3: real, b0: real, b1: real, b2: real, b3: real, v: real)
    ensures (r0 * b0 + r1 * b1 + r2 * b2 + r3 * b3) * v == r0 * (b0 * v) + r1 * (b1 * v) + r2 * (b2 * v) + r3 * (b3 * v)
  {
    SumTimes4(r0 * b0, r1 * b1, r2 * b2, r3 * b3, v);
    TimesAssociative(r0, b0, v);
    TimesAssociative(r1, b1, v);
    TimesAssociative(r2, b2, v);
    TimesAssociative(r3, b3, v);
  }

  lemma SumTimes4(a0: real, a1: real, a2: real, a3: real, k: real)
    ensures (a0 + a1 + a2 + a3) * k == a0 * k + a1 * k + a2 * k + a3 * k
  {
  }

  lemma TimesSum4(k: real, a0: real, a1: real, a2: real, a3: real)
    ensures k * (a0 + a1 + a2 + a3) == k * a0 + k * a1 + k * a2 + k * a3
  {
  }

  lemma TimesAssociative(a: real, b: real, c: real)
    ensures (a * b) * c == a * (b * c)
  {
  }

  /** Multiplying a row by two matrices in turn is multiplying it by their product. */
  lemma RowTimesAssociative(r: Vec4, b: Mat4, c: Mat4)
    ensures RowTimes(RowTimes(r, b), c) == RowTimes(r, MatMul(b, c))
  {
    DotRowTimes(r, b, Vec4(c.r0.x, c.r1.x, c.r2.x, c.r3.x));
    DotRowTimes(r, b, Vec4(c.r0.y, c.r1.y, c.r2.y, c.r3.y));
    DotRowTimes(r, b, Vec4(c.r0.z, c.r1.z, c.r2.z, c.r3.z));
    DotRowTimes(r, b, Vec4(c.r0.w, c.r1.w, c.r2.w, c.r3.w));
  }

  lemma MatMulAssociative(a: Mat4, b: Mat4, c: Mat4)
    ensures MatMul(MatMul(a, b), c) == MatMul(a, MatMul(b, c))
  {
    RowTimesAssociative(a.r0, b, c);
    RowTimesAssociative(a.r1, b, c);
    RowTimesAssociative(a.r2, b, c);
    RowTimesAssociative(a.r3, b, c);
  }

  lemma MatMulIdentity(a: Mat4)
    ensures MatMul(Identity, a) == a
    ensures MatMul(a, Identity) == a
  {
  }

  /** Applying a product applies the right factor first. */
  lemma ApplyMatMul(a: Mat4, b: Mat4, v: Vec4)
    ensures Apply(MatMul(a, b), v) == Apply(a, Apply(b, v))
  {
    DotRowTimes(a.r0, b, v);
    DotRowTimes(a.r1, b, v);
    DotRowTimes(a.r2, b, v);
    DotRowTimes(a.r3, b, v);
  }

  /** nalgebra's `Matrix4::new_translation`. */
  function TranslationMatrix(x: real, y: real, z: real): Mat4 {
    Mat4(Vec4(1.0, 0.0, 0.0, x), Vec4(0.0, 1.0, 0.0, y), Vec4(0.0, 0.0, 1.0, z), Vec4(0.0, 0.0, 0.0, 1.0))
  }

  /** nalgebra's `Matrix4::new_nonuniform_scaling`. */
  function ScalingMatrix(x: real, y: real, z: real): Mat4 {
    Mat4(Vec4(x, 0.0, 0.0, 0.0), Vec4(0.0, y, 0.0, 0.0), Vec4(0.0, 0.0, z, 0.0), Vec4(0.0, 0.0, 0.0, 1.0))
  }

  /**
    nalgebra's `Matrix4::from_axis_angle` about the x, y and z axes, for an
    angle whose cosine is `c` and whose sine is `s`.
   */
  function RotationXMatrix(c: real, s: real): Mat4 {
    Mat4(Vec4(1.0, 0.0, 0.0, 0.0), Vec4(0.0, c, -s, 0.0), Vec4(0.0, s, c, 0.0), Vec4(0.0, 0.0, 0.0, 1.0))
  }

  function RotationYMatrix(c: real, s: real): Mat4 {
    Mat4(Vec4(c, 0.0, s, 0.0), Vec4(0.0, 1.0, 0.0, 0.0), Vec4(-s, 0.0, c, 0.0), Vec4(0.0, 0.0, 0.0, 1.0))
  }

  function RotationZMatrix(c: real, s: real): Mat4 {
    Mat4(Vec4(c, -s, 0.0, 0.0), Vec4(s, c, 0.0, 0.0), Vec4(0.0, 0.0, 1.0, 0.0), Vec4(0.0, 0.0, 0.0, 1.0))
  }

  /** `pivot * m * pivot⁻¹`: the linear map `m` performed about the point (px, py, pz). */
  function Pivoted(m: Mat4, px: real, py: real, pz: real): Mat4 {
    MatMul(MatMul(TranslationMatrix(px, py, pz), m), TranslationMatrix(-px, -py, -pz))
  }

  /** A row times a translation matrix, written out. */
  lemma TranslateRow(a: real, b: real, c: real, d: real, x: real, y: real, z: real)
    ensures RowTimes(Vec4(a, b, c, d), TranslationMatrix(x, y, z)) == Vec4(a, b, c, a * x + b * y + c * z + d)
  {
  }

  /** A row times a scaling matrix, written out. */
  lemma ScaleRow(a: real, b: real, c: real, d: real, x: real, y: real, z: real)
    ensures RowTimes(Vec4(a, b, c, d), ScalingMatrix(x, y, z)) == Vec4(a * x, b * y, c * z, d)
  {
  }

  lemma TranslationMatricesCompose(x: real, y: real, z: real, x': real, y': real, z': real)
    ensures MatMul(TranslationMatrix(x, y, z), TranslationMatrix(x', y', z')) == TranslationMatrix(x + x', y + y', z + z')
  {
  }

  /** A map performed about any point is the map itself when it is the identity. */
  lemma PivotedIdentity(px: real, py: real, pz: real)
    ensures Pivoted(Identity, px, py, pz) == Identity
  {
    assert ScalingMatrix(1.0, 1.0, 1.0) == Identity;
    PivotedScaling(1.0, 1.0, 1.0, px, py, pz);
  }

  /** The matrix of a scaling about (px, py, pz), written out. */
  lemma PivotedScaling(x: real, y: real, z: real, px: real, py: real, pz: real)
    ensures Pivoted(ScalingMatrix(x, y, z), px, py, pz)
         == Mat4(Vec4(x, 0.0, 0.0, px - x * px), Vec4(0.0, y, 0.0, py - y * py),
                 Vec4(0.0, 0.0, z, pz - z * pz), Vec4(0.0, 0.0, 0.0, 1.0))
  {
    ScaleRow(1.0, 0.0, 0.0, px, x, y, z);
    ScaleRow(0.0, 1.0, 0.0, py, x, y, z);
    ScaleRow(0.0, 0.0, 1.0, pz, x, y, z);
    ScaleRow(0.0, 0.0, 0.0, 1.0, x, y, z);
    TranslateRow(x, 0.0, 0.0, px, -px, -py, -pz);
    TranslateRow(0.0, y, 0.0, py, -px, -py, -pz);
    TranslateRow(0.0, 0.0, z, pz, -px, -py, -pz);
    TranslateRow(0.0, 0.0, 0.0, 1.0, -px, -py, -pz);
  }

  /** The matrix of a rotation about the z axis through (px, py), written out. */
  lemma PivotedRotationZ(c: real, s: real, px: real, py: real)
    ensures Pivoted(RotationZMatrix(c, s), px, py, 0.0)
         == Mat4(Vec4(c, -s, 0.0, px - c * px + s * py), Vec4(s, c, 0.0, py - s * px - c * py),
                 Vec4(0.0, 0.0, 1.0, 0.0), Vec4(0.0, 0.0, 0.0, 1.0))
  {
    var left := MatMul(TranslationMatrix(px, py, 0.0), RotationZMatrix(c, s));
    assert left.r0 == Vec4(c, -s, 0.0, px);
    assert left.r1 == Vec4(s, c, 0.0, py);
    assert left.r2 == Vec4(0.0, 0.0, 1.0, 0.0);
    assert left.r3 == Vec4(0.0, 0.0, 0.0, 1.0);
    TranslateRow(c, -s, 0.0, px, -px, -py, -0.0);
    TranslateRow(s, c, 0.0, py, -px, -py, -0.0);
    TranslateRow(0.0, 0.0, 1.0, 0.0, -px, -py, -0.0);
    TranslateRow(0.0, 0.0, 0.0, 1.0, -px, -py, -0.0);
  }

  /** A placement together with its colour state. */
  datatype Transform = Transform(tx: Mat4, hue: real, sat: real, brightness: real, alpha: real)

  /** `Transform::default()`: the identity placement with neutral colour. */
  const Default: Transform := Transform(Identity, 0.0, 1.0, 1.0, 1.0)

  /** The colour channels are those of the default transform. */
  predicate NeutralColour(t: Transform) {
    t.hue == 0.0 && t.sat == 1.0 && t.brightness == 1.0 && t.alpha == 1.0
  }

  /**
    The composition `a * b` of the algebra: matrices multiply left to right,
    hues add, saturation, brightness and alpha multiply.
   */
  function Compose(a: Transform, b: Transform): Transform {
    Transform(MatMul(a.tx, b.tx), a.hue + b.hue, a.sat * b.sat, a.brightness * b.brightness, a.alpha * b.alpha)
  }

  /** `MulAssign::mul_assign`: updates the receiver one field at a time. */
  method MulAssign(self: Transform, rhs: Transform) returns (updated: Transform)
    ensures updated.tx == MatMul(self.tx, rhs.tx)
    ensures updated.hue == self.hue + rhs.hue
    ensures updated.sat == self.sat * rhs.sat
    ensures updated.brightness == self.brightness * rhs.brightness
    ensures updated.alpha == self.alpha * rhs.alpha
  {
    updated := self;
    updated := updated.(tx := MatMul(updated.tx, rhs.tx));
    updated := updated.(hue := updated.hue + rhs.hue);
    updated := updated.(sat := updated.sat * rhs.sat);
    updated := updated.(brightness := updated.brightness * rhs.brightness);
    updated := updated.(alpha := updated.alpha * rhs.alpha);
  }

  /** `Mul::mul`: `a * b` is `a` after `a *= b`, which is the composition of the algebra. */
  method Mul(a: Transform, rhs: Transform) returns (r: Transform)
    ensures r == Compose(a, rhs)
  {
    r := MulAssign(a, rhs);
  }

  /** The default transform is a two-sided identity of composition. */
  lemma ComposeIdentity(t: Transform)
    ensures Compose(Default, t) == t
    ensures Compose(t, Default) == t
  {
    MatMulIdentity(t.tx);
  }

  lemma ComposeAssociative(a: Transform, b: Transform, c: Transform)
    ensures Compose(Compose(a, b), c) == Compose(a, Compose(b, c))
  {
    MatMulAssociative(a.tx, b.tx, c.tx);
  }

  /** `Transform::translation`. */
  function Translation(x: real, y: real, z: real): (t: Transform)
    ensures NeutralColour(t)
    ensures Apply(t.tx, Point(0.0, 0.0, 0.0)) == Point(x, y, z)
  {
    Transform(TranslationMatrix(x, y, z), Default.hue, Default.sat, Default.brightness, Default.alpha)
  }

  /** `Transform::scale`: a non-uniform scaling about the centre of the unit cube. */
  function Scale(x: real, y: real, z: real): (t: Transform)
    ensures NeutralColour(t)
  {
    Transform(Pivoted(ScalingMatrix(x, y, z), 0.5, 0.5, 0.5), Default.hue, Default.sat, Default.brightness, Default.alpha)
  }

  /**
    `Transform::rotate_x`, `rotate_y` and `rotate_z` for an angle whose cosine
    is `c` and whose sine is `s`: a rotation about the axis through the centre
    of the unit cube.
   */
  function RotateX(c: real, s: real): (t: Transform)
    ensures NeutralColour(t)
  {
    Transform(Pivoted(RotationXMatrix(c, s), 0.0, 0.5, 0.5), Default.hue, Default.sat, Default.brightness, Default.alpha)
  }

  function RotateY(c: real, s: real): (t: Transform)
    ensures NeutralColour(t)
  {
    Transform(Pivoted(RotationYMatrix(c, s), 0.5, 0.0, 0.5), Default.hue, Default.sat, Default.brightness, Default.alpha)
  }

  function RotateZ(c: real, s: real): (t: Transform)
    ensures NeutralColour(t)
  {
    Transform(Pivoted(RotationZMatrix(c, s), 0.5, 0.5, 0.0), Default.hue, Default.sat, Default.brightness, Default.alpha)
  }

  /** `Transform::hsv`: a pure colour change. */
  function Hsv(hue: real, sat: real, brightness: real): (t: Transform)
    ensures t.tx == Identity && t.alpha == 1.0
    ensures t.hue == hue && t.sat == sat && t.brightness == brightness
  {
    Transform(Default.tx, hue, sat, brightness, Default.alpha)
  }

  /** Translations compose by adding their offsets. */
  lemma TranslationCompose(x: real, y: real, z: real, x': real, y': real, z': real)
    ensures Compose(Translation(x, y, z), Translation(x', y', z')) == Translation(x + x', y + y', z + z')
  {
    TranslationMatricesCompose(x, y, z, x', y', z');
  }

  lemma TranslationMovesPoints(x: real, y: real, z: real, px: real, py: real, pz: real)
    ensures Apply(Translation(x, y, z).tx, Point(px, py, pz)) == Point(px + x, py + y, pz + z)
  {
    TranslatePoint(x, y, z, px, py, pz);
  }

  /** A translation matrix moves a point by its offsets. */
  lemma TranslatePoint(x: real, y: real, z: real, px: real, py: real, pz: real)
    ensures Apply(TranslationMatrix(x, y, z), Point(px, py, pz)) == Point(px + x, py + y, pz + z)
  {
  }

  /** A scale moves every point away from the cube centre by its factors. */
  lemma ScaleMapsPoints(x: real, y: real, z: real, px: real, py: real, pz: real)
    ensures Apply(Scale(x, y, z).tx, Point(px, py, pz))
         == Point(0.5 + x * (px - 0.5), 0.5 + y * (py - 0.5), 0.5 + z * (pz - 0.5))
  {
    PivotedScaling(x, y, z, 0.5, 0.5, 0.5);
  }

  /** The centre of the unit cube is a fixed point of every scale. */
  lemma ScaleFixesCentre(x: real, y: real, z: real)
    ensures Apply(Scale(x, y, z).tx, Point(0.5, 0.5, 0.5)) == Point(0.5, 0.5, 0.5)
  {
    ScaleMapsPoints(x, y, z, 0.5, 0.5, 0.5);
  }

  /** The unit scale is the identity transform. */
  lemma UnitScaleIsIdentity()
    ensures Scale(1.0, 1.0, 1.0) == Default
  {
    PivotedScaling(1.0, 1.0, 1.0, 0.5, 0.5, 0.5);
  }

  /** The zero rotation about each axis is the identity transform. */
  lemma ZeroRotationXIsIdentity()
    ensures RotateX(1.0, 0.0) == Default
  {
    assert RotationXMatrix(1.0, 0.0) == Identity;
    PivotedIdentity(0.0, 0.5, 0.5);
  }

  lemma ZeroRotationYIsIdentity()
    ensures RotateY(1.0, 0.0) == Default
  {
    assert RotationYMatrix(1.0, 0.0) == Identity;
    PivotedIdentity(0.5, 0.0, 0.5);
  }

  lemma ZeroRotationZIsIdentity()
    ensures RotateZ(1.0, 0.0) == Default
  {
    assert RotationZMatrix(1.0, 0.0) == Identity;
    PivotedIdentity(0.5, 0.5, 0.0);
  }

  /** A rotation about z leaves the points of its axis, x = y = 0.5, in place. */
  lemma RotateZFixesAxis(c: real, s: real, pz: real)
    ensures Apply(RotateZ(c, s).tx, Point(0.5, 0.5, pz)) == Point(0.5, 0.5, pz)
  {
    PivotedRotationZ(c, s, 0.5, 0.5);
  }

  /** Composing with a geometric transform (neutral colour) leaves the colour unchanged. */
  lemma GeometricKeepsColour(a: Transform, g: Transform)
    requires NeutralColour(g)
    ensures var r := Compose(a, g);
      r.hue == a.hue && r.sat == a.sat && r.brightness == a.brightness && r.alpha == a.alpha
  {
  }

  /** Composing with a colour transform leaves the placement unchanged and adds its hue. */
  lemma HsvKeepsPlacement(a: Transform, h: real, s: real, b: real)
    ensures var r := Compose(a, Hsv(h, s, b));
      r.tx == a.tx && r.hue == a.hue + h && r.alpha == a.alpha
  {
    MatMulIdentity(a.tx);
  }
}
