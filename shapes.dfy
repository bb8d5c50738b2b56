/**
 * Stand-ins for the FreeCAD geometry kernel. A face lying in the local XY
 * plane is the set of points it covers, a solid likewise; `cut` is set
 * difference and `fuse` is union. FreeCAD's `Matrix` is its three columns
 * and its translation (the last row stays 0, 0, 0, 1).
 */
module Shapes {
  import opened Vectors

  type Region = iset<Vec2>

  type Solid = iset<Vec3>

  datatype Matrix = Matrix(col1: Vec3, col2: Vec3, col3: Vec3, translation: Vec3)

  /**
   * The calls the model leaves abstract: `math.hypot`, `math.cos` and
   * `math.sin`; the circle face of a radius (`makeCircle` made a face); the
   * face of a closed polygon ring (`makePolygon` made a face); `extrude`
   * along local +Z by a depth; placing a solid with a matrix, by
   * `transformGeometry` and by `transformShape`; the Y extent
   * of a face's bounding box; and translating a face in its plane.
   */
  datatype Kernel = Kernel(hypot: (real, real) -> real, cos: real -> real, sin: real -> real,
                           circleFace: real -> Region, polygonFace: seq<Vec2> -> Region,
                           extrude: (Region, real) -> Solid,
                           transformGeometry: (Matrix, Solid) -> Solid, transformShape: (Matrix, Solid) -> Solid,
                           boundsY: Region -> (real, real), translate: (Region, Vec2) -> Region)

  /** The image of point `p` under `m`, as `Matrix.multiply` computes it. */
  function MapPoint(m: Matrix, p: Vec3): Vec3
  {
    Add(Add(Add(Scale(m.col1, p.x), Scale(m.col2, p.y)), Scale(m.col3, p.z)), m.translation)
  }

  /** The union of a list of shapes: `fuse` folded over the list. */
  function UnionAll<T>(shapes: seq<iset<T>>): (u: iset<T>)
    ensures forall i :: 0 <= i < |shapes| ==> shapes[i] <= u
    ensures forall p :: p in u ==> exists i :: 0 <= i < |shapes| && p in shapes[i]
  {
    if shapes == [] then iset{} else UnionAll(shapes[..|shapes| - 1]) + shapes[|shapes| - 1]
  }
}
