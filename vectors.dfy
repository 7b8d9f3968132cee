/**
 * The slice of the glam vector library (re-exported by macroquad) that the
 * isometric transforms use: `Vec2`, `IVec2`, `Mat2`, matrix-vector product,
 * determinant and inverse. `f32` values are modelled as exact reals.
 */
module Vectors {
  import opened Numeric

  datatype Vec2 = Vec2(x: real, y: real)

  /** A pair of `i32`. */
  datatype IVec2 = IVec2(x: int, y: int)

  /** A 2x2 matrix stored by columns, as `mat2(x_axis, y_axis)`. */
  datatype Mat2 = Mat2(xAxis: Vec2, yAxis: Vec2)

  predicate IsI32Vec(v: IVec2) {
    IsI32(v.x) && IsI32(v.y)
  }

  function Add(a: Vec2, b: Vec2): Vec2 {
    Vec2(a.x + b.x, a.y + b.y)
  }

  /** Component-wise product, glam's `Vec2 * Vec2`. */
  function Mul(a: Vec2, b: Vec2): Vec2 {
    Vec2(a.x * b.x, a.y * b.y)
  }

  function Scale(a: Vec2, s: real): Vec2 {
    Vec2(a.x * s, a.y * s)
  }

  /** `as_vec2`: each `i32` becomes a float. */
  function AsVec2(v: IVec2): Vec2 {
    Vec2(v.x as real, v.y as real)
  }

  /** `as_ivec2`: each float is cast to `i32`, truncating toward zero and saturating. */
  function AsIVec2(v: Vec2): (r: IVec2)
    ensures IsI32Vec(r)
  {
    IVec2(FloatToI32(v.x), FloatToI32(v.y))
  }

  /** `mul_vec2`: the columns weighted by the vector's coordinates. */
  function MulVec2(m: Mat2, v: Vec2): Vec2 {
    Add(Scale(m.xAxis, v.x), Scale(m.yAxis, v.y))
  }

  function Determinant(m: Mat2): real {
    m.xAxis.x * m.yAxis.y - m.yAxis.x * m.xAxis.y
  }

  /** glam's `Mat2::inverse`: the adjugate scaled by the reciprocal of the determinant. */
  function Inverse(m: Mat2): Mat2
    requires Determinant(m) != 0.0
  {
    var invDet := 1.0 / Determinant(m);
    Mat2(Vec2(m.yAxis.y * invDet, m.xAxis.y * -invDet),
         Vec2(m.yAxis.x * -invDet, m.xAxis.x * invDet))
  }

  /** The inverse undoes the matrix on every vector. */
  lemma InverseUndoes(m: Mat2, v: Vec2)
    requires Determinant(m) != 0.0
    ensures MulVec2(Inverse(m), MulVec2(m, v)) == v
  {
    var a, c, b, d := m.xAxis.x, m.xAxis.y, m.yAxis.x, m.yAxis.y;
    var invDet := 1.0 / Determinant(m);
    assert (a * d - b * c) * invDet == 1.0;
    var w := MulVec2(m, v);
    assert w.x == a * v.x + b * v.y && w.y == c * v.x + d * v.y;
    var r := MulVec2(Inverse(m), w);
    assert r.x == (d * invDet) * w.x + (b * -invDet) * w.y;
    assert r.y == (c * -invDet) * w.x + (a * invDet) * w.y;
    FirstRowOfInverse(a, b, c, d, invDet, v.x, v.y, w.x, w.y);
    SecondRowOfInverse(a, b, c, d, invDet, v.x, v.y, w.x, w.y);
  }

  /** Cramer's rule for the first coordinate of a 2x2 system. */
  lemma FirstRowOfInverse(a: real, b: real, c: real, d: real, q: real, x: real, y: real, wx: real, wy: real)
    requires (a * d - b * c) * q == 1.0
    requires wx == a * x + b * y && wy == c * x + d * y
    ensures (d * q) * wx + (b * -q) * wy == x
  {
    calc {
      (d * q) * wx + (b * -q) * wy;
      (d * q) * (a * x + b * y) + (b * -q) * (c * x + d * y);
      q * (d * a * x + d * b * y) - q * (b * c * x + b * d * y);
      q * ((a * d - b * c) * x);
      ((a * d - b * c) * q) * x;
    }
  }

  /** Cramer's rule for the second coordinate of a 2x2 system. */
  lemma SecondRowOfInverse(a: real, b: real, c: real, d: real, q: real, x: real, y: real, wx: real, wy: real)
    requires (a * d - b * c) * q == 1.0
    requires wx == a * x + b * y && wy == c * x + d * y
    ensures (c * -q) * wx + (a * q) * wy == y
  {
    calc {
      (c * -q) * wx + (a * q) * wy;
      (c * -q) * (a * x + b * y) + (a * q) * (c * x + d * y);
      q * (a * c * x + a * d * y) - q * (c * a * x + c * b * y);
      q * ((a * d - b * c) * y);
      ((a * d - b * c) * q) * y;
    }
  }
}
