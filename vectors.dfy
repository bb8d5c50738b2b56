/**
 * Points and vectors over the reals, standing for FreeCAD's `Vector` and the
 * `(x, y)` tuples the geometry code passes around. Floating-point rounding
 * is not modelled.
 */
module Vectors {

  datatype Vec2 = Vec2(x: real, y: real)

  datatype Vec3 = Vec3(x: real, y: real, z: real)

  const Zero3 := Vec3(0.0, 0.0, 0.0)
  const UnitX := Vec3(1.0, 0.0, 0.0)
  const UnitY := Vec3(0.0, 1.0, 0.0)
  const UnitZ := Vec3(0.0, 0.0, 1.0)

  function Add2(a: Vec2, b: Vec2): Vec2 { Vec2(a.x + b.x, a.y + b.y) }

  function Sub2(a: Vec2, b: Vec2): Vec2 { Vec2(a.x - b.x, a.y - b.y) }

  function Scale2(a: Vec2, k: real): Vec2 { Vec2(a.x * k, a.y * k) }

  function Dot2(a: Vec2, b: Vec2): real { a.x * b.x + a.y * b.y }

  function Add(a: Vec3, b: Vec3): Vec3 { Vec3(a.x + b.x, a.y + b.y, a.z + b.z) }

  function Sub(a: Vec3, b: Vec3): Vec3 { Vec3(a.x - b.x, a.y - b.y, a.z - b.z) }

  /** `a * k` of FreeCAD's Vector. */
  function Scale(a: Vec3, k: real): Vec3 { Vec3(a.x * k, a.y * k, a.z * k) }

  /** `Vector(-a.x, -a.y, -a.z)`. */
  function Neg(a: Vec3): Vec3 { Vec3(-a.x, -a.y, -a.z) }

  function Dot(a: Vec3, b: Vec3): real { a.x * b.x + a.y * b.y + a.z * b.z }

  /** `a.cross(b)` of FreeCAD's Vector. */
  function Cross(a: Vec3, b: Vec3): Vec3
  {
    Vec3(a.y * b.z - a.z * b.y, a.z * b.x - a.x * b.z, a.x * b.y - a.y * b.x)
  }

  function Abs(r: real): real { if r < 0.0 then -r else r }

  /** The cross product is orthogonal to both of its factors. */
  lemma CrossOrthogonal(a: Vec3, b: Vec3)
    ensures Dot(Cross(a, b), a) == 0.0 && Dot(Cross(a, b), b) == 0.0
  {
  }

  /** Scaling the second factor of a cross product scales the product. */
  lemma CrossScale(a: Vec3, b: Vec3, k: real)
    ensures Cross(a, Scale(b, k)) == Scale(Cross(a, b), k)
  {
    CrossScaleX(a, b, k);
    CrossScaleY(a, b, k);
    CrossScaleZ(a, b, k);
  }

  lemma CrossScaleX(a: Vec3, b: Vec3, k: real)
    ensures Cross(a, Scale(b, k)).x == Scale(Cross(a, b), k).x
  {
    ScaledCrossComponent(a.y, a.z, b.y, b.z, k, Scale(b, k).y, Scale(b, k).z, Cross(a, b).x);
  }

  lemma CrossScaleY(a: Vec3, b: Vec3, k: real)
    ensures Cross(a, Scale(b, k)).y == Scale(Cross(a, b), k).y
  {
    ScaledCrossComponent(a.z, a.x, b.z, b.x, k, Scale(b, k).z, Scale(b, k).x, Cross(a, b).y);
  }

  lemma CrossScaleZ(a: Vec3, b: Vec3, k: real)
    ensures Cross(a, Scale(b, k)).z == Scale(Cross(a, b), k).z
  {
    ScaledCrossComponent(a.x, a.y, b.x, b.y, k, Scale(b, k).x, Scale(b, k).y, Cross(a, b).z);
  }

  /** One coordinate of `CrossScale`, over the scaled coordinates `rk`, `sk` and the cross coordinate `c`. */
  lemma ScaledCrossComponent(p: real, q: real, r: real, s: real, k: real, rk: real, sk: real, c: real)
    requires rk == r * k && sk == s * k && c == p * s - q * r
    ensures p * sk - q * rk == c * k
  {
  }

  /** The vector triple product `u x (n x u) = n (u.u) - u (u.n)`. */
  lemma TripleProduct(u: Vec3, n: Vec3)
    ensures Cross(u, Cross(n, u)) == Sub(Scale(n, Dot(u, u)), Scale(u, Dot(u, n)))
  {
    TripleProductX(u, n);
    TripleProductY(u, n);
    TripleProductZ(u, n);
  }

  lemma TripleProductX(u: Vec3, n: Vec3)
    ensures Cross(u, Cross(n, u)).x == Sub(Scale(n, Dot(u, u)), Scale(u, Dot(u, n))).x
  {
    TripleProductComponent(u.x, u.y, u.z, n.x, n.y, n.z, Cross(n, u).z, Cross(n, u).y, Dot(u, u), Dot(u, n));
  }

  lemma TripleProductY(u: Vec3, n: Vec3)
    ensures Cross(u, Cross(n, u)).y == Sub(Scale(n, Dot(u, u)), Scale(u, Dot(u, n))).y
  {
    TripleProductComponent(u.y, u.z, u.x, n.y, n.z, n.x, Cross(n, u).x, Cross(n, u).z, Dot(u, u), Dot(u, n));
  }

  lemma TripleProductZ(u: Vec3, n: Vec3)
    ensures Cross(u, Cross(n, u)).z == Sub(Scale(n, Dot(u, u)), Scale(u, Dot(u, n))).z
  {
    TripleProductComponent(u.z, u.x, u.y, n.z, n.x, n.y, Cross(n, u).y, Cross(n, u).x, Dot(u, u), Dot(u, n));
  }

  /** One coordinate of the triple product, over the coordinates `c1`, `c2` of `n x u`. */
  lemma TripleProductComponent(ux: real, uy: real, uz: real, nx: real, ny: real, nz: real,
                               c1: real, c2: real, uu: real, un: real)
    requires c1 == nx * uy - ny * ux && c2 == nz * ux - nx * uz
    requires uu == ux * ux + uy * uy + uz * uz
    requires un == ux * nx + uy * ny + uz * nz
    ensures uy * c1 - uz * c2 == nx * uu - ux * un
  {
  }

  lemma PositiveProduct(a: real, b: real)
    requires a > 0.0 && b > 0.0
    ensures a * b > 0.0
  {
  }

  /** A product with a positive factor is zero only when the other factor is. */
  lemma ProductZero(a: real, k: real)
    requires k > 0.0
    ensures a != 0.0 ==> a * k != 0.0
  {
    if a > 0.0 {
      PositiveProduct(a, k);
    } else if a < 0.0 {
      PositiveProduct(-a, k);
      assert (-a) * k == -(a * k);
    }
  }

  lemma ScaleNonZero(a: Vec3, k: real)
    requires k > 0.0 && a != Zero3
    ensures Scale(a, k) != Zero3
  {
    ProductZero(a.x, k);
    ProductZero(a.y, k);
    ProductZero(a.z, k);
  }
}
