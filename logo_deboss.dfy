/**
 * The logo deboss: a coordinate frame on the chosen planar face, the matrix
 * that carries the flat logo onto it, the isolation of the four logo layers,
 * their depth table and the sequential cuts into the body.
 *
 * Both `normalize()` calls are modelled as multiplication by a positive
 * factor (`ku`, `kv`); the kernel's `extrude` and `transformGeometry` are
 * parameters.
 */
module LogoDeboss {
  import opened Wrappers
  import opened Vectors
  import opened Shapes
  import opened LogoGeometry

  /**
   * What the frame computation reads from a face: the axis of its surface
   * when the surface has one, the normal sampled at the middle of its
   * parameter range, and its centre of mass.
   */
  datatype Face = Face(surfaceAxis: Option<Vec3>, sampledNormal: Vec3, centerOfMass: Vec3)

  datatype Frame = Frame(center: Vec3, u: Vec3, v: Vec3, normal: Vec3)

  /**
   * The world axis least parallel to `n`: the one whose component of `n` is
   * smallest in absolute value, ties going to X, then Y, then Z.
   */
  function SeedAxis(n: Vec3): (seed: Vec3)
    ensures seed == UnitX || seed == UnitY || seed == UnitZ
    ensures Abs(Dot(n, seed)) <= Abs(n.x) && Abs(Dot(n, seed)) <= Abs(n.y) && Abs(Dot(n, seed)) <= Abs(n.z)
    ensures seed == UnitX <==> Abs(n.x) <= Abs(n.y) && Abs(n.x) <= Abs(n.z)
    ensures seed == UnitY ==> Abs(n.y) < Abs(n.x) && Abs(n.y) <= Abs(n.z)
    ensures seed == UnitZ ==> Abs(n.z) < Abs(n.x) && Abs(n.z) < Abs(n.y)
  {
    var ax, ay, az := Abs(n.x), Abs(n.y), Abs(n.z);
    if ax <= ay && ax <= az then UnitX
    else if ay <= ax && ay <= az then UnitY
    else UnitZ
  }

  /**
   * The frame built around a normal: `u = normal x seed` and
   * `v = normal x u`, each rescaled by its (positive) normalisation factor.
   */
  function FrameFromNormal(center: Vec3, normal: Vec3, ku: real, kv: real): (f: Frame)
    requires ku > 0.0 && kv > 0.0
    ensures f.center == center && f.normal == normal
    ensures f.v == Scale(Cross(normal, f.u), kv)
  {
    var u := Scale(Cross(normal, SeedAxis(normal)), ku);
    Frame(center, u, Scale(Cross(normal, u), kv), normal)
  }

  /**
   * The normal is the surface axis when the surface has one, otherwise the
   * sampled normal; no planarity check is made.
   */
  function ComputeFaceFrame(face: Face, ku: real, kv: real): (f: Frame)
    requires ku > 0.0 && kv > 0.0
    ensures f.center == face.centerOfMass
    ensures face.surfaceAxis.Some? ==> f.normal == face.surfaceAxis.value
    ensures face.surfaceAxis.None? ==> f.normal == face.sampledNormal
  {
    var normal := if face.surfaceAxis.Some? then face.surfaceAxis.value else face.sampledNormal;
    FrameFromNormal(face.centerOfMass, normal, ku, kv)
  }

  /** u, v and the normal are mutually orthogonal. */
  lemma {:induction false} FrameOrthogonal(center: Vec3, normal: Vec3, ku: real, kv: real)
    requires ku > 0.0 && kv > 0.0
    ensures var f := FrameFromNormal(center, normal, ku, kv);
      Dot(f.u, normal) == 0.0 && Dot(f.v, normal) == 0.0 && Dot(f.u, f.v) == 0.0
  {
    var w := Cross(normal, SeedAxis(normal));
    var u := Scale(w, ku);
    var x := Cross(normal, u);
    CrossOrthogonal(normal, SeedAxis(normal));
    DotScale(w, normal, ku);
    CrossOrthogonal(normal, u);
    DotScale(x, normal, kv);
    DotScale(x, u, kv);
    DotSymmetric(Scale(x, kv), u);
  }

  /** For a nonzero normal the seed is never parallel to it, so u is nonzero. */
  lemma {:induction false} FrameNonDegenerate(center: Vec3, normal: Vec3, ku: real, kv: real)
    requires ku > 0.0 && kv > 0.0 && normal != Zero3
    ensures FrameFromNormal(center, normal, ku, kv).u != Zero3
  {
    var w := Cross(normal, SeedAxis(normal));
    assert w != Zero3;
    ScaleNonZero(w, ku);
  }

  /**
   * A frame whose v is `normal x u` rescaled by `kv` (as `FrameFromNormal`
   * ensures) and whose u is orthogonal to the normal (as `FrameOrthogonal`
   * proves) has `u x v` equal to the normal scaled by `kv |u|^2`: the frame
   * (u, v, normal) is right-handed.
   */
  lemma FrameRightHanded(f: Frame, kv: real)
    requires f.v == Scale(Cross(f.normal, f.u), kv) && Dot(f.u, f.normal) == 0.0
    ensures Cross(f.u, f.v) == Scale(f.normal, kv * Dot(f.u, f.u))
  {
    CrossWithNormalCross(f.u, f.normal, kv);
  }

  /** For u orthogonal to n, `u x (kv (n x u)) = n (kv |u|^2)`. */
  lemma CrossWithNormalCross(u: Vec3, n: Vec3, kv: real)
    requires Dot(u, n) == 0.0
    ensures Cross(u, Scale(Cross(n, u), kv)) == Scale(n, kv * Dot(u, u))
  {
    var x := Cross(n, u);
    assert Cross(u, Scale(x, kv)) == Scale(Cross(u, x), kv) by {
      CrossScale(u, x, kv);
    }
    assert Cross(u, x) == Sub(Scale(n, Dot(u, u)), Scale(u, 0.0)) by {
      TripleProduct(u, n);
    }
    ScaleOfNormal(n, u, Dot(u, u), kv);
  }

  lemma DotScale(a: Vec3, b: Vec3, k: real)
    ensures Dot(Scale(a, k), b) == Dot(a, b) * k
  {
  }

  lemma DotSymmetric(a: Vec3, b: Vec3)
    ensures Dot(a, b) == Dot(b, a)
  {
  }

  lemma ScaleOfNormal(n: Vec3, u: Vec3, a: real, k: real)
    ensures Scale(Sub(Scale(n, a), Scale(u, 0.0)), k) == Scale(n, k * a)
  {
    Reassociate(n.x, a, k);
    Reassociate(n.y, a, k);
    Reassociate(n.z, a, k);
  }

  lemma Reassociate(p: real, a: real, k: real)
    ensures (p * a - 0.0) * k == p * (k * a)
  {
  }

  /** `placement = center + u * x_offset + v * y_offset`. */
  function Placement(f: Frame, xOffset: real, yOffset: real): Vec3
  {
    Add(Add(f.center, Scale(f.u, xOffset)), Scale(f.v, yOffset))
  }

  /** Columns u, v and `-normal`, translation `center`. */
  function BuildTransform(center: Vec3, u: Vec3, v: Vec3, normal: Vec3): (m: Matrix)
    ensures MapPoint(m, Zero3) == center
  {
    Matrix(u, v, Neg(normal), center)
  }

  /**
   * The offset placement is where the un-offset transform sends the local
   * point (x_offset, y_offset, 0), and it stays in the face plane.
   */
  lemma PlacementIsLocalOffset(f: Frame, xOffset: real, yOffset: real)
    ensures Placement(f, xOffset, yOffset)
      == MapPoint(BuildTransform(f.center, f.u, f.v, f.normal), Vec3(xOffset, yOffset, 0.0))
    ensures Dot(f.u, f.normal) == 0.0 && Dot(f.v, f.normal) == 0.0
      ==> Dot(Sub(Placement(f, xOffset, yOffset), f.center), f.normal) == 0.0
  {
    if Dot(f.u, f.normal) == 0.0 && Dot(f.v, f.normal) == 0.0 {
      PlaneCombination(f.u, f.v, f.normal, xOffset, yOffset);
    }
  }

  lemma PlaneCombination(u: Vec3, v: Vec3, n: Vec3, a: real, b: real)
    requires Dot(u, n) == 0.0 && Dot(v, n) == 0.0
    ensures Dot(Add(Scale(u, a), Scale(v, b)), n) == 0.0
  {
    PlaneComponent(u.x, u.y, u.z, v.x, v.y, v.z, n.x, n.y, n.z, a, b, Dot(u, n), Dot(v, n));
  }

  lemma PlaneComponent(ux: real, uy: real, uz: real, vx: real, vy: real, vz: real,
                       nx: real, ny: real, nz: real, a: real, b: real, un: real, vn: real)
    requires un == ux * nx + uy * ny + uz * nz
    requires vn == vx * nx + vy * ny + vz * nz
    ensures (ux * a + vx * b) * nx + (uy * a + vy * b) * ny + (uz * a + vz * b) * nz == un * a + vn * b
  {
  }

  /**
   * Local +Z goes against the normal: a local point at height `z` lands at
   * height `-z |normal|^2` along the normal, and its in-plane part keeps
   * no normal component.
   */
  lemma {:induction false} LocalZIntoBody(f: Frame, q: Vec3)
    requires Dot(f.u, f.normal) == 0.0 && Dot(f.v, f.normal) == 0.0
    ensures var m := BuildTransform(f.center, f.u, f.v, f.normal);
      Dot(Sub(MapPoint(m, q), f.center), f.normal) == -(q.z * Dot(f.normal, f.normal))
  {
    var u, v, n := f.u, f.v, f.normal;
    DepthComponent(u.x, u.y, u.z, v.x, v.y, v.z, n.x, n.y, n.z, q.x, q.y, q.z,
                   Dot(u, n), Dot(v, n), Dot(n, n));
  }

  lemma DepthComponent(ux: real, uy: real, uz: real, vx: real, vy: real, vz: real,
                       nx: real, ny: real, nz: real, a: real, b: real, c: real,
                       un: real, vn: real, nn: real)
    requires un == ux * nx + uy * ny + uz * nz
    requires vn == vx * nx + vy * ny + vz * nz
    requires nn == nx * nx + ny * ny + nz * nz
    requires un == 0.0 && vn == 0.0
    ensures (ux * a + vx * b + -nx * c) * nx + (uy * a + vy * b + -ny * c) * ny
          + (uz * a + vz * b + -nz * c) * nz == -(c * nn)
  {
  }

  // ---------------------------------------------------------------------
  // Layers
  // ---------------------------------------------------------------------

  datatype Layer = Circle | Mountain | Trail | Bolt | Text

  /**
   * Each layer keeps the part of its face not covered by a higher-priority
   * face (bolt, then trail, then mountain, then circle); together the
   * layers cover exactly the union of the faces.
   */
  function IsolateLayers(f: LogoFaces): (l: LogoFaces)
    ensures l.bolt == f.bolt
    ensures l.trail <= f.trail && l.mountain <= f.mountain && l.circle <= f.circle
    ensures l.trail !! f.bolt
    ensures l.mountain !! f.trail && l.mountain !! f.bolt
    ensures l.circle !! f.mountain && l.circle !! f.trail && l.circle !! f.bolt
    ensures l.circle + l.mountain + l.trail + l.bolt == f.circle + f.mountain + f.trail + f.bolt
  {
    LogoFaces(f.circle - f.mountain - f.trail - f.bolt, f.mountain - f.trail - f.bolt, f.trail - f.bolt, f.bolt)
  }

  /** The isolated layers never overlap, so no two cutting solids share a region of the plane. */
  lemma IsolatedLayersDisjoint(f: LogoFaces)
    ensures var l := IsolateLayers(f);
      l.circle !! l.mountain && l.circle !! l.trail && l.circle !! l.bolt
      && l.mountain !! l.trail && l.mountain !! l.bolt && l.trail !! l.bolt
  {
  }

  /** The depth ratios of the three upper layers, as fractions of the total depth. */
  datatype Ratios = Ratios(mountain: real, trail: real, bolt: real)

  /** The circle is cut to the total depth, every other layer to `total * ratio`; nothing is clamped. */
  function LogoDepths(total: real, r: Ratios): (d: map<Layer, real>)
    ensures d.Keys == {Circle, Mountain, Trail, Bolt}
    ensures d[Circle] == total && d[Mountain] == total * r.mountain
    ensures d[Trail] == total * r.trail && d[Bolt] == total * r.bolt
  {
    map[Circle := total, Mountain := total * r.mountain, Trail := total * r.trail, Bolt := total * r.bolt]
  }

  /** A fraction in [0, 1] of a nonnegative total lies between 0 and the total; a fraction above 1 exceeds it. */
  lemma FractionOfTotal(total: real, ratio: real)
    requires total >= 0.0
    ensures 0.0 <= ratio <= 1.0 ==> 0.0 <= total * ratio <= total
    ensures total > 0.0 && ratio > 1.0 ==> total * ratio > total
  {
    if 0.0 <= ratio <= 1.0 {
      assert total * ratio + total * (1.0 - ratio) == total;
      assert total * (1.0 - ratio) >= 0.0;
    }
    if total > 0.0 && ratio > 1.0 {
      assert total * (ratio - 1.0) > 0.0;
    }
  }

  /** A depth cut at a fraction in [0, 1] of a nonnegative total lies between 0 and the total. */
  lemma DepthWithinTotal(depth: real, total: real, ratio: real)
    requires depth == total * ratio && total >= 0.0 && 0.0 <= ratio <= 1.0
    ensures 0.0 <= depth <= total
  {
    FractionOfTotal(total, ratio);
  }

  /**
   * With a nonnegative total depth and every ratio in [0, 1], no layer is
   * cut deeper than the circle or to a negative depth.
   */
  lemma LayerDepthBounded(total: real, r: Ratios)
    ensures total >= 0.0 && 0.0 <= r.mountain <= 1.0 && 0.0 <= r.trail <= 1.0 && 0.0 <= r.bolt <= 1.0 ==>
              forall layer :: layer in LogoDepths(total, r) ==> 0.0 <= LogoDepths(total, r)[layer] <= total
  {
    if total >= 0.0 && 0.0 <= r.mountain <= 1.0 && 0.0 <= r.trail <= 1.0 && 0.0 <= r.bolt <= 1.0 {
      var d := LogoDepths(total, r);
      DepthWithinTotal(d[Mountain], total, r.mountain);
      DepthWithinTotal(d[Trail], total, r.trail);
      DepthWithinTotal(d[Bolt], total, r.bolt);
    }
  }

  /**
   * The ratios are not checked: with a positive total depth, a ratio above 1
   * cuts its layer deeper than the circle.
   */
  lemma LayerDepthUnchecked(total: real, r: Ratios)
    ensures total > 0.0 && r.mountain > 1.0 ==> LogoDepths(total, r)[Mountain] > total
    ensures total > 0.0 && r.trail > 1.0 ==> LogoDepths(total, r)[Trail] > total
    ensures total > 0.0 && r.bolt > 1.0 ==> LogoDepths(total, r)[Bolt] > total
  {
    if total > 0.0 {
      FractionOfTotal(total, r.mountain);
      FractionOfTotal(total, r.trail);
      FractionOfTotal(total, r.bolt);
    }
  }

  /** The layers in cutting order: circle, mountain, trail, bolt. */
  function LogoLayers(l: LogoFaces): seq<(Layer, Region)>
  {
    [(Circle, l.circle), (Mountain, l.mountain), (Trail, l.trail), (Bolt, l.bolt)]
  }

  /** A layer shallower than this contributes no cutting solid. */
  const MinDepth: real := 0.0001

  predicate HasDepths(layers: seq<(Layer, Region)>, depths: map<Layer, real>)
  {
    forall i :: 0 <= i < |layers| ==> layers[i].0 in depths
  }

  /**
   * The cutting solids the layers yield, in layer order: each layer at
   * least `MinDepth` deep extruded along local +Z and moved by `m`.
   */
  function Tools(layers: seq<(Layer, Region)>, depths: map<Layer, real>,
                 extrude: (Region, real) -> Solid, transform: (Matrix, Solid) -> Solid, m: Matrix): seq<Solid>
    requires HasDepths(layers, depths)
  {
    if layers == [] then []
    else
      var last := layers[|layers| - 1];
      var depth := depths[last.0];
      Tools(layers[..|layers| - 1], depths, extrude, transform, m)
        + (if depth < MinDepth then [] else [transform(m, extrude(last.1, depth))])
  }

  /** Building the tools of a list of layers piecewise gives the same tools in the same order. */
  lemma {:induction false} ToolsAppend(a: seq<(Layer, Region)>, b: seq<(Layer, Region)>, depths: map<Layer, real>,
                                        extrude: (Region, real) -> Solid, transform: (Matrix, Solid) -> Solid, m: Matrix)
    requires HasDepths(a, depths) && HasDepths(b, depths)
    ensures HasDepths(a + b, depths)
    ensures Tools(a + b, depths, extrude, transform, m)
      == Tools(a, depths, extrude, transform, m) + Tools(b, depths, extrude, transform, m)
    decreases |b|
  {
    if b == [] {
      assert a + b == a;
    } else {
      var b' := b[..|b| - 1];
      assert (a + b)[..|a + b| - 1] == a + b';
      ToolsAppend(a, b', depths, extrude, transform, m);
    }
  }

  /** A layer shallower than `MinDepth` contributes nothing: dropping it leaves the tools unchanged. */
  lemma {:induction false} ToolsSkip(layers: seq<(Layer, Region)>, k: nat, depths: map<Layer, real>,
                                      extrude: (Region, real) -> Solid, transform: (Matrix, Solid) -> Solid, m: Matrix)
    requires HasDepths(layers, depths) && k < |layers| && depths[layers[k].0] < MinDepth
    ensures HasDepths(layers[..k] + layers[k + 1..], depths)
    ensures Tools(layers, depths, extrude, transform, m)
      == Tools(layers[..k] + layers[k + 1..], depths, extrude, transform, m)
  {
    assert layers == layers[..k] + [layers[k]] + layers[k + 1..];
    ToolsAppend(layers[..k] + [layers[k]], layers[k + 1..], depths, extrude, transform, m);
    ToolsAppend(layers[..k], [layers[k]], depths, extrude, transform, m);
    ToolsAppend(layers[..k], layers[k + 1..], depths, extrude, transform, m);
    assert [layers[k]][..0] == [];
  }

  /** When every layer is deep enough, tool `i` is exactly layer `i` extruded and moved. */
  lemma {:induction false} ToolsAllKept(layers: seq<(Layer, Region)>, depths: map<Layer, real>,
                                         extrude: (Region, real) -> Solid, transform: (Matrix, Solid) -> Solid, m: Matrix)
    requires HasDepths(layers, depths)
    requires forall i :: 0 <= i < |layers| ==> depths[layers[i].0] >= MinDepth
    ensures var t := Tools(layers, depths, extrude, transform, m);
      |t| == |layers|
      && forall i :: 0 <= i < |layers| ==> t[i] == transform(m, extrude(layers[i].1, depths[layers[i].0]))
  {
    if layers != [] {
      ToolsAllKept(layers[..|layers| - 1], depths, extrude, transform, m);
    }
  }

  /** The loop that extrudes and places each layer. */
  method BuildTools(layers: seq<(Layer, Region)>, depths: map<Layer, real>,
                    extrude: (Region, real) -> Solid, transform: (Matrix, Solid) -> Solid, m: Matrix)
    returns (solids: seq<Solid>)
    requires HasDepths(layers, depths)
    ensures solids == Tools(layers, depths, extrude, transform, m)
    ensures |solids| <= |layers|
  {
    solids := [];
    var i := 0;
    while i < |layers|
      invariant 0 <= i <= |layers|
      invariant solids == Tools(layers[..i], depths, extrude, transform, m)
      invariant |solids| <= i
    {
      assert layers[..i + 1][..i] == layers[..i];
      var (name, face) := layers[i];
      var depth := depths[name];
      if depth >= MinDepth {
        var solid := extrude(face, depth);
        solid := transform(m, solid);
        solids := solids + [solid];
      }
      i := i + 1;
    }
    assert layers[..i] == layers;
  }

  /**
   * The sequential cuts: the result is the body minus every tool, hence
   * inside the body and clear of each tool.
   */
  method CutAll(body: Solid, tools: seq<Solid>) returns (result: Solid)
    ensures result == body - UnionAll(tools)
    ensures result <= body
    ensures forall i :: 0 <= i < |tools| ==> result !! tools[i]
  {
    result := body;
    var i := 0;
    while i < |tools|
      invariant 0 <= i <= |tools|
      invariant result == body - UnionAll(tools[..i])
    {
      assert tools[..i + 1][..i] == tools[..i];
      result := result - tools[i];
      i := i + 1;
    }
    assert tools[..i] == tools;
  }

  /** The transform `apply_logo` places the logo with. */
  function LogoMatrix(face: Face, ku: real, kv: real, xOffset: real, yOffset: real): Matrix
    requires ku > 0.0 && kv > 0.0
  {
    var f := ComputeFaceFrame(face, ku, kv);
    BuildTransform(Placement(f, xOffset, yOffset), f.u, f.v, f.normal)
  }

  /** The relief `apply_logo` cuts: the body minus every tool of the isolated layers, placed by `m`. */
  function LogoRelief(body: Solid, faces: LogoFaces, totalDepth: real, ratios: Ratios,
                      extrude: (Region, real) -> Solid, transform: (Matrix, Solid) -> Solid, m: Matrix): (r: Solid)
    ensures r <= body
    ensures forall t :: t in Tools(LogoLayers(IsolateLayers(faces)), LogoDepths(totalDepth, ratios), extrude, transform, m)
              ==> r !! t
  {
    body - UnionAll(Tools(LogoLayers(IsolateLayers(faces)), LogoDepths(totalDepth, ratios), extrude, transform, m))
  }

  /**
   * The first step of `apply_logo`: the face frame, the placement offset in
   * the face plane and the matrix built from them.
   */
  method PlaceLogo(face: Face, ku: real, kv: real, xOffset: real, yOffset: real) returns (mat: Matrix)
    requires ku > 0.0 && kv > 0.0
    ensures mat == LogoMatrix(face, ku, kv, xOffset, yOffset)
  {
    var frame := ComputeFaceFrame(face, ku, kv);
    var placement := Placement(frame, xOffset, yOffset);
    mat := BuildTransform(placement, frame.u, frame.v, frame.normal);
  }

  /**
   * What `apply_logo` returns once the logo generator has run: the error it
   * raised, or the relief of its faces placed by `m`.
   */
  function LogoDebossOf(body: Solid, faces: Result<LogoFaces, GeometryError>, totalDepth: real, ratios: Ratios,
                        extrude: (Region, real) -> Solid, transform: (Matrix, Solid) -> Solid, m: Matrix)
    : (r: Result<Solid, GeometryError>)
    ensures r.Success? <==> faces.Success?
    ensures r.Failure? ==> r.error == faces.error
    ensures r.Success? ==> r.value <= body
  {
    match faces
    case Failure(e) => Failure(e)
    case Success(f) => Success(LogoRelief(body, f, totalDepth, ratios, extrude, transform, m))
  }

  /** The isolated layers of `faces` extruded to their depths, placed by `mat` and cut from the body in sequence. */
  method CutLogoLayers(body: Solid, faces: LogoFaces, totalDepth: real, ratios: Ratios, mat: Matrix,
                       extrude: (Region, real) -> Solid, transform: (Matrix, Solid) -> Solid)
    returns (result: Solid)
    ensures result == LogoRelief(body, faces, totalDepth, ratios, extrude, transform, mat)
  {
    var layers := LogoLayers(IsolateLayers(faces));
    var depths := LogoDepths(totalDepth, ratios);
    var tools := BuildTools(layers, depths, extrude, transform, mat);
    result := CutAll(body, tools);
  }

  /**
   * The rest of `apply_logo` once the matrix is built: the logo faces
   * generated, their isolated layers extruded, placed by `mat` and cut in
   * sequence.
   */
  method CutLogo(body: Solid, diameter: real, totalDepth: real, ratios: Ratios, mat: Matrix, k: Kernel)
    returns (result: Result<Solid, GeometryError>)
    ensures result == LogoDebossOf(body, LogoFacesOf(diameter, k), totalDepth, ratios, k.extrude, k.transformGeometry, mat)
  {
    var faces := CreateLogoFaces(diameter, k);
    if faces.Failure? {
      return Failure(faces.error);
    }
    var cut := CutLogoLayers(body, faces.value, totalDepth, ratios, mat, k.extrude, k.transformGeometry);
    result := Success(cut);
  }

  /** `apply_logo`. */
  method ApplyLogo(body: Solid, face: Face, diameter: real, totalDepth: real, ratios: Ratios,
                   xOffset: real, yOffset: real, ku: real, kv: real, k: Kernel)
    returns (result: Result<Solid, GeometryError>)
    requires ku > 0.0 && kv > 0.0
    ensures result == LogoDebossOf(body, LogoFacesOf(diameter, k), totalDepth, ratios, k.extrude, k.transformGeometry,
                                   LogoMatrix(face, ku, kv, xOffset, yOffset))
  {
    var mat := PlaceLogo(face, ku, kv, xOffset, yOffset);
    result := CutLogo(body, diameter, totalDepth, ratios, mat, k);
  }

  /** With every depth below `MinDepth` no tool is built and the body comes back unchanged. */
  lemma {:induction false} ShallowLogoLeavesBody(body: Solid, faces: LogoFaces, totalDepth: real, ratios: Ratios,
                                                  extrude: (Region, real) -> Solid, transform: (Matrix, Solid) -> Solid, m: Matrix)
    requires totalDepth < MinDepth && totalDepth * ratios.mountain < MinDepth
    requires totalDepth * ratios.trail < MinDepth && totalDepth * ratios.bolt < MinDepth
    ensures Tools(LogoLayers(IsolateLayers(faces)), LogoDepths(totalDepth, ratios), extrude, transform, m) == []
  {
    var layers := LogoLayers(IsolateLayers(faces));
    var d := LogoDepths(totalDepth, ratios);
    assert d[layers[3].0] < MinDepth && d[layers[2].0] < MinDepth;
    assert d[layers[1].0] < MinDepth && d[layers[0].0] < MinDepth;
    assert layers[..3][..2][..1][..0] == [];
    assert layers[..3][..2][..1] == layers[..1];
    assert layers[..3][..2] == layers[..2];
    assert Tools(layers[..1], d, extrude, transform, m) == [];
    assert Tools(layers[..2], d, extrude, transform, m) == [];
    assert Tools(layers[..3], d, extrude, transform, m) == [];
  }
}
