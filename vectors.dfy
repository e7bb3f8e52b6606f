/**
 * The part of the four-component vector type of the GLM library that the
 * collision tests use: component-wise subtraction and the dot product over
 * all four components (x, y, z and the homogeneous w). Components are real
 * numbers, not IEEE floats.
 */
module Vectors {

  datatype Vec4 = Vec4(x: real, y: real, z: real, w: real)

  /** Component-wise difference `p - q`, `w` included. */
  function Sub(p: Vec4, q: Vec4): (r: Vec4)
    ensures Add(r, q) == p
  {
    Vec4(p.x - q.x, p.y - q.y, p.z - q.z, p.w - q.w)
  }

  /** Component-wise sum `p + q`, `w` included. */
  function Add(p: Vec4, q: Vec4): Vec4
  {
    Vec4(p.x + q.x, p.y + q.y, p.z + q.z, p.w + q.w)
  }

  /** The scalar multiple `k * v`, `w` included. */
  function Scale(k: real, v: Vec4): Vec4
  {
    Vec4(k * v.x, k * v.y, k * v.z, k * v.w)
  }

  /** The four-component dot product. */
  function Dot(u: Vec4, v: Vec4): real
  {
    u.x * v.x + u.y * v.y + u.z * v.z + u.w * v.w
  }

  lemma SquareOfSum(a: real, e: real, t: real)
    ensures (a + t * e) * (a + t * e) == a * a + 2.0 * t * (e * a) + t * t * (e * e)
  {
  }

  /** Expanding `(l + t d).(l + t d)`. */
  lemma DotAlongLine(l: Vec4, d: Vec4, t: real)
    ensures var p := Add(l, Scale(t, d));
      Dot(p, p) == Dot(l, l) + 2.0 * t * Dot(d, l) + t * t * Dot(d, d)
  {
    SquareOfSum(l.x, d.x, t);
    SquareOfSum(l.y, d.y, t);
    SquareOfSum(l.z, d.z, t);
    SquareOfSum(l.w, d.w, t);
  }

}
