/**
 * The logo's 2D geometry: the SVG-to-local map, quadratic Bezier sampling,
 * the trail centreline, the stroke-to-outline buffer and the four faces.
 *
 * `math.hypot`, `math.cos` and `math.sin` are parameters; the kernel's
 * polygon face and circle constructors are parameters returning regions,
 * and `common` is intersection.
 */
module LogoGeometry {
  import opened Wrappers
  import opened Vectors
  import opened Shapes

  /** The four faces the logo generator returns, in the local XY plane. */
  datatype LogoFaces = LogoFaces(circle: Region, mountain: Region, trail: Region, bolt: Region)

  // ---------------------------------------------------------------------
  // The icon in SVG coordinates (viewBox 0 0 48 48)
  // ---------------------------------------------------------------------

  const SvgCenter: Vec2 := Vec2(24.0, 24.0)
  const SvgCircleDiameter: real := 44.0

  const SvgMountain: seq<Vec2> := [Vec2(6.0, 36.0), Vec2(16.0, 14.0), Vec2(22.0, 22.0), Vec2(32.0, 8.0), Vec2(42.0, 36.0)]

  /** A quadratic Bezier segment: start, control, end. */
  datatype Curve = Curve(p0: Vec2, p1: Vec2, p2: Vec2)

  const TrailCurves: seq<Curve> := [
    Curve(Vec2(10.0, 32.0), Vec2(16.0, 26.0), Vec2(22.0, 30.0)),
    Curve(Vec2(22.0, 30.0), Vec2(28.0, 34.0), Vec2(34.0, 28.0)),
    Curve(Vec2(34.0, 28.0), Vec2(38.0, 24.0), Vec2(42.0, 26.0))
  ]
  const TrailStrokeWidth: real := 3.0
  const TrailSamples: nat := 20

  const SvgBolt: seq<Vec2> := [Vec2(34.0, 14.0), Vec2(38.0, 22.0), Vec2(32.0, 22.0), Vec2(36.0, 32.0)]
  const BoltStrokeWidth: real := 2.5

  // ---------------------------------------------------------------------
  // SVG to local coordinates
  // ---------------------------------------------------------------------

  /** `_svg_to_local`: centred on the SVG centre, scaled, Y flipped. */
  function SvgToLocal(p: Vec2, scale: real): Vec2
  {
    Vec2((p.x - SvgCenter.x) * scale, -(p.y - SvgCenter.y) * scale)
  }

  /** The SVG centre goes to the origin. */
  lemma SvgCenterToOrigin(scale: real)
    ensures SvgToLocal(SvgCenter, scale) == Vec2(0.0, 0.0)
  {
  }

  lemma ScaleOrder(a: real, b: real, s: real)
    requires s > 0.0
    ensures a < b <==> a * s < b * s
  {
    if a < b {
      assert (b - a) * s > 0.0;
    } else {
      assert (a - b) * s >= 0.0;
    }
  }

  /** With a positive scale, Y is flipped and X kept: lower in the SVG is higher on the face. */
  lemma SvgToLocalFlipsY(a: Vec2, b: Vec2, scale: real)
    requires scale > 0.0
    ensures a.y < b.y <==> SvgToLocal(a, scale).y > SvgToLocal(b, scale).y
    ensures a.x < b.x <==> SvgToLocal(a, scale).x < SvgToLocal(b, scale).x
  {
    ScaleOrder(b.y - SvgCenter.y, a.y - SvgCenter.y, scale);
    assert -(a.y - SvgCenter.y) * scale == (SvgCenter.y - a.y) * scale;
    assert -(b.y - SvgCenter.y) * scale == (SvgCenter.y - b.y) * scale;
    ScaleOrder(SvgCenter.y - a.y, SvgCenter.y - b.y, scale);
    ScaleOrder(a.x - SvgCenter.x, b.x - SvgCenter.x, scale);
  }

  /** With `scale = diameter / 44` the rim point (46, 24) of the SVG circle lands on radius `diameter / 2`. */
  lemma RimToRadius(diameter: real)
    ensures SvgToLocal(Vec2(46.0, 24.0), diameter / SvgCircleDiameter) == Vec2(diameter / 2.0, 0.0)
  {
  }

  lemma SquaredScale(x: real, y: real, s: real)
    ensures (x * s) * (x * s) + (-y * s) * (-y * s) == (x * x + y * y) * (s * s)
  {
  }

  /**
   * Local differences are SVG differences scaled (Y flipped), so every
   * squared distance is multiplied by `scale^2`.
   */
  lemma SvgToLocalScalesDistances(a: Vec2, b: Vec2, scale: real)
    ensures Sub2(SvgToLocal(a, scale), SvgToLocal(b, scale)) == Vec2((a.x - b.x) * scale, -(a.y - b.y) * scale)
    ensures var d := Sub2(SvgToLocal(a, scale), SvgToLocal(b, scale));
      Dot2(d, d) == Dot2(Sub2(a, b), Sub2(a, b)) * (scale * scale)
  {
    var d := Sub2(SvgToLocal(a, scale), SvgToLocal(b, scale));
    assert d == Vec2((a.x - b.x) * scale, -(a.y - b.y) * scale);
    SquaredScale(a.x - b.x, a.y - b.y, scale);
  }

  // ---------------------------------------------------------------------
  // Quadratic Bezier sampling
  // ---------------------------------------------------------------------

  /** The combination `a p0 + b p1 + w p2`, coordinate by coordinate. */
  function Weighted(p0: Vec2, p1: Vec2, p2: Vec2, a: real, b: real, w: real): Vec2
  {
    Vec2(a * p0.x + b * p1.x + w * p2.x, a * p0.y + b * p1.y + w * p2.y)
  }

  /** The point at parameter `t`: `(1-t)^2 p0 + 2 (1-t) t p1 + t^2 p2`. */
  function BezierPoint(c: Curve, t: real): Vec2
  {
    var u := 1.0 - t;
    Weighted(c.p0, c.p1, c.p2, u * u, 2.0 * u * t, t * t)
  }

  /** The curve starts at its start point and ends at its end point. */
  lemma BezierEnds(c: Curve)
    ensures BezierPoint(c, 0.0) == c.p0 && BezierPoint(c, 1.0) == c.p2
  {
  }

  /** `n + 1` samples at `t = i / n`, from the start point to the end point. */
  function Samples(c: Curve, n: nat): (pts: seq<Vec2>)
    requires n >= 1
    ensures |pts| == n + 1 && pts[0] == c.p0 && pts[n] == c.p2
  {
    BezierEnds(c);
    assert (n as real) / (n as real) == 1.0;
    seq(n + 1, i requires 0 <= i <= n => BezierPoint(c, (i as real) / (n as real)))
  }

  /**
   * `_sample_quadratic_bezier`: the loop over `i in range(n + 1)`. A zero
   * sample count divides by zero in the source.
   */
  method SampleQuadraticBezier(p0: Vec2, p1: Vec2, p2: Vec2, n: nat) returns (pts: seq<Vec2>)
    requires n >= 1
    ensures pts == Samples(Curve(p0, p1, p2), n)
  {
    pts := [];
    for i := 0 to n + 1
      invariant pts == Samples(Curve(p0, p1, p2), n)[..i]
    {
      var t := (i as real) / (n as real);
      var u := 1.0 - t;
      var pt := Weighted(p0, p1, p2, u * u, 2.0 * u * t, t * t);
      BezierIsWeighted(Curve(p0, p1, p2), t, u);
      SampleAt(Curve(p0, p1, p2), n, i, pt);
      pts := pts + [pt];
    }
  }

  /** A Bezier point is the weighted combination of its control points. */
  lemma BezierIsWeighted(c: Curve, t: real, u: real)
    requires u == 1.0 - t
    ensures BezierPoint(c, t) == Weighted(c.p0, c.p1, c.p2, u * u, 2.0 * u * t, t * t)
  {
  }

  /** Appending sample `i` to the first `i` samples gives the first `i + 1`. */
  lemma SampleAt(c: Curve, n: nat, i: nat, pt: Vec2)
    requires 1 <= n && i <= n && pt == BezierPoint(c, (i as real) / (n as real))
    ensures Samples(c, n)[..i + 1] == Samples(c, n)[..i] + [pt]
  {
    var all := Samples(c, n);
    assert all[..i + 1] == all[..i] + [all[i]];
  }

  function CurveToLocal(c: Curve, scale: real): Curve
  {
    Curve(SvgToLocal(c.p0, scale), SvgToLocal(c.p1, scale), SvgToLocal(c.p2, scale))
  }

  /** The Bezier weights sum to one. */
  lemma BezierWeightsSum(t: real, u: real)
    requires u == 1.0 - t
    ensures u * u + 2.0 * u * t + t * t == 1.0
  {
  }

  /** The x coordinate of the map commutes with a combination whose weights sum to one. */
  lemma AffineCombination(a: real, b: real, w: real, x0: real, x1: real, x2: real, o: real, s: real,
                          combined: real, l0: real, l1: real, l2: real)
    requires a + b + w == 1.0 && combined == a * x0 + b * x1 + w * x2
    requires l0 == (x0 - o) * s && l1 == (x1 - o) * s && l2 == (x2 - o) * s
    ensures (combined - o) * s == a * l0 + b * l1 + w * l2
  {
    assert o * s == (a + b + w) * (o * s);
  }

  /** The same for the flipped y coordinate. */
  lemma AffineCombinationFlipped(a: real, b: real, w: real, y0: real, y1: real, y2: real, o: real, s: real,
                                 combined: real, l0: real, l1: real, l2: real)
    requires a + b + w == 1.0 && combined == a * y0 + b * y1 + w * y2
    requires l0 == -(y0 - o) * s && l1 == -(y1 - o) * s && l2 == -(y2 - o) * s
    ensures -(combined - o) * s == a * l0 + b * l1 + w * l2
  {
    assert o * s == (a + b + w) * (o * s);
  }

  /** The map to local coordinates is affine: it commutes with combinations whose weights sum to one. */
  lemma SvgToLocalAffine(p0: Vec2, p1: Vec2, p2: Vec2, a: real, b: real, w: real, scale: real)
    requires a + b + w == 1.0
    ensures SvgToLocal(Weighted(p0, p1, p2, a, b, w), scale)
         == Weighted(SvgToLocal(p0, scale), SvgToLocal(p1, scale), SvgToLocal(p2, scale), a, b, w)
  {
    SvgToLocalAffineX(p0, p1, p2, a, b, w, scale);
    SvgToLocalAffineY(p0, p1, p2, a, b, w, scale);
  }

  lemma SvgToLocalAffineX(p0: Vec2, p1: Vec2, p2: Vec2, a: real, b: real, w: real, scale: real)
    requires a + b + w == 1.0
    ensures SvgToLocal(Weighted(p0, p1, p2, a, b, w), scale).x
         == Weighted(SvgToLocal(p0, scale), SvgToLocal(p1, scale), SvgToLocal(p2, scale), a, b, w).x
  {
    AffineCombination(a, b, w, p0.x, p1.x, p2.x, SvgCenter.x, scale, Weighted(p0, p1, p2, a, b, w).x,
                      SvgToLocal(p0, scale).x, SvgToLocal(p1, scale).x, SvgToLocal(p2, scale).x);
  }

  lemma SvgToLocalAffineY(p0: Vec2, p1: Vec2, p2: Vec2, a: real, b: real, w: real, scale: real)
    requires a + b + w == 1.0
    ensures SvgToLocal(Weighted(p0, p1, p2, a, b, w), scale).y
         == Weighted(SvgToLocal(p0, scale), SvgToLocal(p1, scale), SvgToLocal(p2, scale), a, b, w).y
  {
    AffineCombinationFlipped(a, b, w, p0.y, p1.y, p2.y, SvgCenter.y, scale, Weighted(p0, p1, p2, a, b, w).y,
                             SvgToLocal(p0, scale).y, SvgToLocal(p1, scale).y, SvgToLocal(p2, scale).y);
  }

  /**
   * Sampling in SVG coordinates and then mapping to local coordinates, as
   * the logo does, gives the same points as sampling the mapped curve:
   * the Bezier weights sum to one, so the affine map commutes with them.
   */
  lemma SamplingCommutesWithSvgToLocal(c: Curve, t: real, scale: real)
    ensures SvgToLocal(BezierPoint(c, t), scale) == BezierPoint(CurveToLocal(c, scale), t)
  {
    var u := 1.0 - t;
    BezierWeightsSum(t, u);
    BezierIsWeighted(c, t, u);
    BezierIsWeighted(CurveToLocal(c, scale), t, u);
    SvgToLocalAffine(c.p0, c.p1, c.p2, u * u, 2.0 * u * t, t * t, scale);
  }

  // ---------------------------------------------------------------------
  // The trail centreline
  // ---------------------------------------------------------------------

  /** The samples of each curve in turn, the first sample of every curve after the first dropped. */
  function TrailPoints(curves: seq<Curve>, n: nat): seq<Vec2>
    requires n >= 1
  {
    if curves == [] then []
    else if |curves| == 1 then Samples(curves[0], n)
    else TrailPoints(curves[..|curves| - 1], n) + Samples(curves[|curves| - 1], n)[1..]
  }

  /** Consecutive curves meet: each starts where the previous one ends. */
  predicate Joined(curves: seq<Curve>)
  {
    forall j :: 0 < j < |curves| ==> curves[j].p0 == curves[j - 1].p2
  }

  /** `k` curves give `k n + 1` points, from the first start point to the last end point. */
  lemma {:induction false} TrailPointsShape(curves: seq<Curve>, n: nat)
    requires n >= 1 && curves != []
    ensures |TrailPoints(curves, n)| == |curves| * n + 1
    ensures TrailPoints(curves, n)[0] == curves[0].p0
    ensures TrailPoints(curves, n)[|TrailPoints(curves, n)| - 1] == curves[|curves| - 1].p2
  {
    var k := |curves|;
    if k > 1 {
      var init := curves[..k - 1];
      TrailPointsShape(init, n);
      var prev := TrailPoints(init, n);
      var last := Samples(curves[k - 1], n);
      assert TrailPoints(curves, n) == prev + last[1..];
      assert init[0] == curves[0];
      MultipleStep(k, n);
    }
  }

  lemma MultipleStep(k: nat, n: nat)
    requires k >= 1
    ensures (k - 1) * n + n == k * n
  {
  }

  /**
   * On joined curves only duplicates are dropped: every sample of every
   * curve is a point of the centreline.
   */
  lemma {:induction false} TrailKeepsSamples(curves: seq<Curve>, n: nat, j: nat, i: nat)
    requires n >= 1 && Joined(curves)
    requires j < |curves| && i <= n
    ensures Samples(curves[j], n)[i] in TrailPoints(curves, n)
    decreases |curves|
  {
    var k := |curves|;
    if k > 1 {
      var init := curves[..k - 1];
      assert Joined(init);
      var last := Samples(curves[k - 1], n);
      if j < k - 1 {
        assert init[j] == curves[j];
        TrailKeepsSamples(init, n, j, i);
      } else if i > 0 {
        assert last[i] == last[1..][i - 1];
      } else {
        TrailPointsShape(init, n);
        var prev := TrailPoints(init, n);
        assert last[0] == curves[k - 2].p2 == prev[|prev| - 1];
      }
    }
  }

  /** The trail loop of `create_logo_faces`: each curve sampled, its join point dropped after the first. */
  method TrailCenterline(curves: seq<Curve>, n: nat) returns (pts: seq<Vec2>)
    requires n >= 1
    ensures pts == TrailPoints(curves, n)
  {
    pts := [];
    for k := 0 to |curves|
      invariant pts == TrailPoints(curves[..k], n)
    {
      var segment := SampleQuadraticBezier(curves[k].p0, curves[k].p1, curves[k].p2, n);
      if k > 0 {
        segment := segment[1..];
      }
      assert curves[..k + 1][..k] == curves[..k];
      pts := pts + segment;
    }
    assert curves[..|curves|] == curves;
  }

  /** The logo's trail: 61 points from (10, 32) to (42, 26), with nothing but the two join duplicates dropped. */
  lemma LogoTrailCenterline()
    ensures |TrailPoints(TrailCurves, TrailSamples)| == 61
    ensures TrailPoints(TrailCurves, TrailSamples)[0] == Vec2(10.0, 32.0)
    ensures TrailPoints(TrailCurves, TrailSamples)[60] == Vec2(42.0, 26.0)
    ensures Joined(TrailCurves)
  {
    TrailPointsShape(TrailCurves, TrailSamples);
  }

  /** The list comprehension mapping SVG points to local ones. */
  function ToLocal(pts: seq<Vec2>, scale: real): (local: seq<Vec2>)
    ensures |local| == |pts|
    ensures forall i :: 0 <= i < |pts| ==> local[i] == SvgToLocal(pts[i], scale)
  {
    seq(|pts|, i requires 0 <= i < |pts| => SvgToLocal(pts[i], scale))
  }

  // ---------------------------------------------------------------------
  // Stroke to outline
  // ---------------------------------------------------------------------

  /** A tangent shorter than this skips its centreline point. */
  const MinTangent: real := 0.000000000001

  /** `math.pi` as a double. */
  const Pi: real := 3.141592653589793

  /**
   * The tangent at point `i`: the first and last segments at the ends,
   * the chord between the neighbours inside.
   */
  function Tangent(pts: seq<Vec2>, i: nat): Vec2
    requires 2 <= |pts| && i < |pts|
  {
    if i == 0 then Sub2(pts[1], pts[0])
    else if i == |pts| - 1 then Sub2(pts[|pts| - 1], pts[|pts| - 2])
    else Sub2(pts[i + 1], pts[i - 1])
  }

  function Unit(d: Vec2, len: real): Vec2
    requires len != 0.0
  {
    Vec2(d.x / len, d.y / len)
  }

  /** The direction `(dx, dy)` turned a quarter counter-clockwise and scaled by the half width. */
  function SideOffset(u: Vec2, hw: real): Vec2
  {
    Vec2(-u.y * hw, u.x * hw)
  }

  /** The point keeps its offsets when its tangent is not too short. */
  predicate Kept(pts: seq<Vec2>, i: nat, hypot: (real, real) -> real)
    requires 2 <= |pts| && i < |pts|
  {
    hypot(Tangent(pts, i).x, Tangent(pts, i).y) >= MinTangent
  }

  /** The offset of a kept point: the unit tangent's quarter turn, times the half width. */
  function Offset(pts: seq<Vec2>, i: nat, hw: real, hypot: (real, real) -> real): Vec2
    requires 2 <= |pts| && i < |pts| && Kept(pts, i, hypot)
  {
    var t := Tangent(pts, i);
    SideOffset(Unit(t, hypot(t.x, t.y)), hw)
  }

  /** The left and right offset points of the first `k` centreline points, and which points were kept. */
  function Sides(pts: seq<Vec2>, hw: real, hypot: (real, real) -> real, k: nat): (seq<Vec2>, seq<Vec2>, seq<nat>)
    requires 2 <= |pts| && k <= |pts|
  {
    if k == 0 then ([], [], [])
    else
      var (left, right, kept) := Sides(pts, hw, hypot, k - 1);
      if !Kept(pts, k - 1, hypot) then (left, right, kept)
      else
        var o := Offset(pts, k - 1, hw, hypot);
        (left + [Add2(pts[k - 1], o)], right + [Sub2(pts[k - 1], o)], kept + [k - 1])
  }

  /**
   * Left and right have equal length; their `j`-th points are the two
   * offsets of the `j`-th kept centreline point, mirror images about it,
   * and the kept points come in centreline order.
   */
  lemma {:induction false} SidesMirror(pts: seq<Vec2>, hw: real, hypot: (real, real) -> real, k: nat)
    requires 2 <= |pts| && k <= |pts|
    ensures var (left, right, kept) := Sides(pts, hw, hypot, k);
      |left| == |right| == |kept|
      && (forall j :: 0 <= j < |kept| ==>
            kept[j] < k && Kept(pts, kept[j], hypot)
            && left[j] == Add2(pts[kept[j]], Offset(pts, kept[j], hw, hypot))
            && right[j] == Sub2(pts[kept[j]], Offset(pts, kept[j], hw, hypot))
            && Add2(left[j], right[j]) == Vec2(2.0 * pts[kept[j]].x, 2.0 * pts[kept[j]].y))
      && (forall j :: 0 < j < |kept| ==> kept[j - 1] < kept[j])
  {
    if k > 0 {
      SidesMirror(pts, hw, hypot, k - 1);
    }
  }

  /** With no tangent too short, every centreline point gets its pair of offsets. */
  lemma {:induction false} SidesAllKept(pts: seq<Vec2>, hw: real, hypot: (real, real) -> real, k: nat)
    requires 2 <= |pts| && k <= |pts|
    requires forall i :: 0 <= i < k ==> Kept(pts, i, hypot)
    ensures |Sides(pts, hw, hypot, k).0| == k && |Sides(pts, hw, hypot, k).1| == k
  {
    if k > 0 {
      SidesAllKept(pts, hw, hypot, k - 1);
    }
  }

  /** The offset is orthogonal to the unit tangent it was turned from. */
  lemma OffsetOrthogonal(pts: seq<Vec2>, i: nat, hw: real, hypot: (real, real) -> real)
    requires 2 <= |pts| && i < |pts| && Kept(pts, i, hypot)
    ensures var t := Tangent(pts, i);
      Dot2(Offset(pts, i, hw, hypot), Unit(t, hypot(t.x, t.y))) == 0.0
  {
  }

  /**
   * The offset loop of `_buffer_path`: for each centreline point the
   * normalised tangent, turned and scaled, added to the point for the left
   * side and subtracted for the right side.
   */
  method BufferSides(pts: seq<Vec2>, hw: real, hypot: (real, real) -> real) returns (left: seq<Vec2>, right: seq<Vec2>)
    requires 2 <= |pts|
    ensures left == Sides(pts, hw, hypot, |pts|).0 && right == Sides(pts, hw, hypot, |pts|).1
  {
    left, right := [], [];
    for i := 0 to |pts|
      invariant left == Sides(pts, hw, hypot, i).0 && right == Sides(pts, hw, hypot, i).1
    {
      var d: Vec2;
      if i == 0 {
        d := Sub2(pts[1], pts[0]);
      } else if i == |pts| - 1 {
        d := Sub2(pts[|pts| - 1], pts[|pts| - 2]);
      } else {
        d := Sub2(pts[i + 1], pts[i - 1]);
      }
      assert d == Tangent(pts, i);
      var length := hypot(d.x, d.y);
      if length < MinTangent {
        continue;
      }
      var u := Vec2(d.x / length, d.y / length);
      var n := Vec2(-u.y * hw, u.x * hw);
      assert n == Offset(pts, i, hw, hypot);
      left := left + [Vec2(pts[i].x + n.x, pts[i].y + n.y)];
      right := right + [Vec2(pts[i].x - n.x, pts[i].y - n.y)];
    }
  }

  /** The angle of cap point `i`: from `base`, `i` steps of `pi / segments`. */
  function CapAngle(base: real, i: nat, segments: nat): real
    requires segments > 0
  {
    base + Pi * (i as real) / (segments as real)
  }

  /** The point at half width from `p`, in direction `d` turned by the angle with cosine `c` and sine `s`. */
  function CapPoint(p: Vec2, d: Vec2, hw: real, c: real, s: real): Vec2
  {
    Vec2(p.x + hw * (d.x * c + d.y * s), p.y + hw * (d.y * c - d.x * s))
  }

  /** The inner points of a semicircular cap: `segments - 1` of them, none for fewer than two segments. */
  function Cap(p: Vec2, d: Vec2, hw: real, base: real, segments: nat,
               cos: real -> real, sin: real -> real): (cap: seq<Vec2>)
    ensures |cap| == if segments > 1 then segments - 1 else 0
  {
    if segments <= 1 then []
    else seq(segments - 1, i requires 0 <= i < segments - 1 =>
               CapPoint(p, d, hw, cos(CapAngle(base, i + 1, segments)), sin(CapAngle(base, i + 1, segments))))
  }

  /** A cap loop of `_buffer_path`, over `i in range(1, cap_segments)`. */
  method CapPoints(p: Vec2, d: Vec2, hw: real, base: real, segments: nat,
                   cos: real -> real, sin: real -> real) returns (cap: seq<Vec2>)
    ensures cap == Cap(p, d, hw, base, segments, cos, sin)
  {
    cap := [];
    if segments <= 1 {
      return;
    }
    for i := 1 to segments
      invariant cap == Cap(p, d, hw, base, segments, cos, sin)[..i - 1]
    {
      var angle := base + Pi * (i as real) / (segments as real);
      var c := CapPoint(p, d, hw, cos(angle), sin(angle));
      ghost var all := Cap(p, d, hw, base, segments, cos, sin);
      assert angle == CapAngle(base, i, segments);
      assert all[i - 1] == CapPoint(p, d, hw, cos(CapAngle(base, i, segments)), sin(CapAngle(base, i, segments)));
      assert all[..i] == all[..i - 1] + [all[i - 1]];
      cap := cap + [c];
    }
    assert cap == Cap(p, d, hw, base, segments, cos, sin)[..segments - 1];
  }

  /**
   * The caps close the outline: at the angles it leaves out (cosine 0,
   * sine -1 and 1) the end cap would sit exactly on the last left and
   * right points, and the start cap on the first right and left points,
   * since the end tangents are the end segments.
   */
  lemma CapsMeetSides(pts: seq<Vec2>, hw: real, hypot: (real, real) -> real)
    requires 2 <= |pts| && Kept(pts, 0, hypot) && Kept(pts, |pts| - 1, hypot)
    ensures var n := |pts|;
      var e := Sub2(pts[n - 1], pts[n - 2]);
      var s := Sub2(pts[1], pts[0]);
      CapPoint(pts[n - 1], Unit(e, hypot(e.x, e.y)), hw, 0.0, -1.0) == Add2(pts[n - 1], Offset(pts, n - 1, hw, hypot))
      && CapPoint(pts[n - 1], Unit(e, hypot(e.x, e.y)), hw, 0.0, 1.0) == Sub2(pts[n - 1], Offset(pts, n - 1, hw, hypot))
      && CapPoint(pts[0], Unit(s, hypot(s.x, s.y)), hw, 0.0, 1.0) == Sub2(pts[0], Offset(pts, 0, hw, hypot))
      && CapPoint(pts[0], Unit(s, hypot(s.x, s.y)), hw, 0.0, -1.0) == Add2(pts[0], Offset(pts, 0, hw, hypot))
  {
  }

  function Reverse<T>(s: seq<T>): (r: seq<T>)
    ensures |r| == |s| && forall i :: 0 <= i < |s| ==> r[i] == s[|s| - 1 - i]
  {
    seq(|s|, i requires 0 <= i < |s| => s[|s| - 1 - i])
  }

  datatype GeometryError = ZeroDivision | IndexError

  /**
   * The outline `_buffer_path` returns: nothing for fewer than two points;
   * a division by zero when the last or the first segment has length zero;
   * otherwise the left side, the end cap, the right side reversed and the
   * start cap.
   */
  function BufferPolygon(pts: seq<Vec2>, hw: real, segments: nat, hypot: (real, real) -> real,
                         cos: real -> real, sin: real -> real): Result<seq<Vec2>, GeometryError>
  {
    if |pts| < 2 then Success([])
    else
      var n := |pts|;
      var e := Sub2(pts[n - 1], pts[n - 2]);
      var s := Sub2(pts[1], pts[0]);
      if hypot(e.x, e.y) == 0.0 || hypot(s.x, s.y) == 0.0 then Failure(ZeroDivision)
      else
        var (left, right, _) := Sides(pts, hw, hypot, n);
        Success(left + Cap(pts[n - 1], Unit(e, hypot(e.x, e.y)), hw, -Pi / 2.0, segments, cos, sin)
                + Reverse(right) + Cap(pts[0], Unit(s, hypot(s.x, s.y)), hw, Pi / 2.0, segments, cos, sin))
  }

  /** `math.hypot` is zero exactly at the origin. */
  ghost predicate HypotZeroAtOrigin(hypot: (real, real) -> real)
  {
    forall a, b :: hypot(a, b) == 0.0 <==> (a == 0.0 && b == 0.0)
  }

  /**
   * The outline fails exactly when the first or the last two centreline
   * points coincide; otherwise it has the two sides and two caps of
   * `segments - 1` points each.
   */
  lemma {:induction false} BufferPolygonShape(pts: seq<Vec2>, hw: real, segments: nat, hypot: (real, real) -> real,
                                              cos: real -> real, sin: real -> real)
    requires HypotZeroAtOrigin(hypot)
    ensures |pts| < 2 ==> BufferPolygon(pts, hw, segments, hypot, cos, sin) == Success([])
    ensures |pts| >= 2 ==>
      (BufferPolygon(pts, hw, segments, hypot, cos, sin).Failure?
       <==> pts[|pts| - 1] == pts[|pts| - 2] || pts[1] == pts[0])
    ensures |pts| >= 2 && BufferPolygon(pts, hw, segments, hypot, cos, sin).Success? ==>
      |BufferPolygon(pts, hw, segments, hypot, cos, sin).value|
        == 2 * |Sides(pts, hw, hypot, |pts|).2| + 2 * (if segments > 1 then segments - 1 else 0)
  {
    if |pts| >= 2 {
      var n := |pts|;
      var e := Sub2(pts[n - 1], pts[n - 2]);
      var s := Sub2(pts[1], pts[0]);
      assert hypot(e.x, e.y) == 0.0 <==> pts[n - 1] == pts[n - 2];
      assert hypot(s.x, s.y) == 0.0 <==> pts[1] == pts[0];
      SidesMirror(pts, hw, hypot, n);
    }
  }

  /**
   * `_buffer_path`: the offset loop, then the end cap (dividing by the
   * length of the last segment), then the start cap (dividing by the
   * length of the first), assembled in outline order.
   */
  method BufferPath(pts: seq<Vec2>, hw: real, segments: nat, hypot: (real, real) -> real,
                    cos: real -> real, sin: real -> real) returns (r: Result<seq<Vec2>, GeometryError>)
    ensures r == BufferPolygon(pts, hw, segments, hypot, cos, sin)
  {
    var n := |pts|;
    if n < 2 {
      return Success([]);
    }
    var left, right := BufferSides(pts, hw, hypot);
    var e := Sub2(pts[n - 1], pts[n - 2]);
    var endLen := hypot(e.x, e.y);
    if endLen == 0.0 {
      return Failure(ZeroDivision);
    }
    var endCap := CapPoints(pts[n - 1], Unit(e, endLen), hw, -Pi / 2.0, segments, cos, sin);
    var s := Sub2(pts[1], pts[0]);
    var startLen := hypot(s.x, s.y);
    if startLen == 0.0 {
      return Failure(ZeroDivision);
    }
    var startCap := CapPoints(pts[0], Unit(s, startLen), hw, Pi / 2.0, segments, cos, sin);
    r := Success(left + endCap + Reverse(right) + startCap);
  }

  /** `_make_face_from_polygon`'s ring: the first vertex appended; an empty list raises `IndexError`. */
  function CloseRing(pts: seq<Vec2>): (r: Result<seq<Vec2>, GeometryError>)
    ensures r.Failure? <==> pts == []
    ensures r.Success? ==> |r.value| == |pts| + 1 && r.value[..|pts|] == pts && r.value[|pts|] == r.value[0]
  {
    if pts == [] then Failure(IndexError) else Success(pts + [pts[0]])
  }

  // ---------------------------------------------------------------------
  // The four faces
  // ---------------------------------------------------------------------

  /** Segments per semicircular end cap. */
  const CapSegments: nat := 8

  /** Millimetres per SVG unit for a logo circle of the given diameter. */
  function LogoScale(diameter: real): real
  {
    diameter / SvgCircleDiameter
  }

  /** A stroke's outline closed into a ring, or the error buffering or closing raises. */
  function StrokeRing(pts: seq<Vec2>, hw: real, segments: nat, hypot: (real, real) -> real,
                      cos: real -> real, sin: real -> real): Result<seq<Vec2>, GeometryError>
  {
    match BufferPolygon(pts, hw, segments, hypot, cos, sin)
    case Failure(e) => Failure(e)
    case Success(outline) => CloseRing(outline)
  }

  /**
   * The four faces from the circle, the closed mountain ring and the trail
   * and bolt rings (or the error building either raised): each ring made a
   * face and clipped to the circle.
   */
  function AssembleFaces(circle: Region, mountain: seq<Vec2>, trail: Result<seq<Vec2>, GeometryError>,
                         bolt: Result<seq<Vec2>, GeometryError>, polygonFace: seq<Vec2> -> Region)
    : (r: Result<LogoFaces, GeometryError>)
    ensures r.Failure? <==> trail.Failure? || bolt.Failure?
    ensures r.Failure? ==> r.error == (if trail.Failure? then trail.error else bolt.error)
    ensures r.Success? ==> r.value.circle == circle
    ensures r.Success? ==> r.value.mountain <= circle && r.value.trail <= circle && r.value.bolt <= circle
  {
    if trail.Failure? then Failure(trail.error)
    else if bolt.Failure? then Failure(bolt.error)
    else Success(LogoFaces(circle, polygonFace(mountain) * circle, polygonFace(trail.value) * circle,
                           polygonFace(bolt.value) * circle))
  }

  /**
   * The faces built from the mountain polygon and the trail and bolt
   * centrelines in SVG coordinates: the circle of radius `diameter / 2`,
   * and each polygon or buffered stroke closed into a ring, made a face
   * and clipped to the circle.
   */
  function FacesFrom(diameter: real, mountainSvg: seq<Vec2>, trailSvg: seq<Vec2>, boltSvg: seq<Vec2>, segments: nat,
                     k: Kernel): Result<LogoFaces, GeometryError>
    requires mountainSvg != []
  {
    var scale := LogoScale(diameter);
    AssembleFaces(k.circleFace(diameter / 2.0), CloseRing(ToLocal(mountainSvg, scale)).value,
                  SvgStrokeRing(trailSvg, TrailStrokeWidth, scale, segments, k.hypot, k.cos, k.sin),
                  SvgStrokeRing(boltSvg, BoltStrokeWidth, scale, segments, k.hypot, k.cos, k.sin),
                  k.polygonFace)
  }

  /** A stroke of the given width in SVG units, mapped to local coordinates and buffered into a ring. */
  function SvgStrokeRing(svg: seq<Vec2>, width: real, scale: real, segments: nat, hypot: (real, real) -> real,
                         cos: real -> real, sin: real -> real): Result<seq<Vec2>, GeometryError>
  {
    StrokeRing(ToLocal(svg, scale), width * scale / 2.0, segments, hypot, cos, sin)
  }

  /** The faces `create_logo_faces` returns for the icon, or the error it raises. */
  function LogoFacesOf(diameter: real, k: Kernel): Result<LogoFaces, GeometryError>
  {
    FacesFrom(diameter, SvgMountain, TrailPoints(TrailCurves, TrailSamples), SvgBolt, CapSegments, k)
  }

  /** `create_logo_faces`. */
  method CreateLogoFaces(diameter: real, k: Kernel) returns (r: Result<LogoFaces, GeometryError>)
    ensures r == LogoFacesOf(diameter, k)
  {
    var trailSvg := TrailCenterline(TrailCurves, TrailSamples);
    r := BuildFaces(diameter, SvgMountain, trailSvg, SvgBolt, CapSegments, k);
  }

  /** The body of `create_logo_faces` after the trail centreline is assembled. */
  method BuildFaces(diameter: real, mountainSvg: seq<Vec2>, trailSvg: seq<Vec2>, boltSvg: seq<Vec2>, segments: nat,
                    k: Kernel) returns (r: Result<LogoFaces, GeometryError>)
    requires mountainSvg != []
    ensures r == FacesFrom(diameter, mountainSvg, trailSvg, boltSvg, segments, k)
  {
    var scale := LogoScale(diameter);
    var circle := k.circleFace(diameter / 2.0);
    var mountain := CloseRing(ToLocal(mountainSvg, scale)).value;
    var trail := StrokeOutline(trailSvg, TrailStrokeWidth, scale, segments, k.hypot, k.cos, k.sin);
    if trail.Failure? {
      return Failure(trail.error);
    }
    var bolt := StrokeOutline(boltSvg, BoltStrokeWidth, scale, segments, k.hypot, k.cos, k.sin);
    if bolt.Failure? {
      return Failure(bolt.error);
    }
    r := AssembleFaces(circle, mountain, trail, bolt, k.polygonFace);
  }

  /**
   * A stroke's points mapped to local coordinates, then `_buffer_path` at
   * half the scaled width, then `_make_face_from_polygon`'s closing of the ring.
   */
  method StrokeOutline(svg: seq<Vec2>, width: real, scale: real, segments: nat, hypot: (real, real) -> real,
                       cos: real -> real, sin: real -> real) returns (r: Result<seq<Vec2>, GeometryError>)
    ensures r == SvgStrokeRing(svg, width, scale, segments, hypot, cos, sin)
  {
    var outline := BufferPath(ToLocal(svg, scale), width * scale / 2.0, segments, hypot, cos, sin);
    if outline.Failure? {
      return Failure(outline.error);
    }
    r := CloseRing(outline.value);
  }

  /**
   * A stroke's ring exists exactly when its first two and its last two
   * centreline points are distinct (with a true `hypot` and at least two
   * points): the caps alone give the outline points, so closing never fails.
   */
  lemma StrokeRingDefined(pts: seq<Vec2>, hw: real, segments: nat, hypot: (real, real) -> real,
                          cos: real -> real, sin: real -> real)
    requires HypotZeroAtOrigin(hypot) && |pts| >= 2 && segments >= 2
    ensures StrokeRing(pts, hw, segments, hypot, cos, sin).Success? <==> pts[1] != pts[0] && pts[|pts| - 1] != pts[|pts| - 2]
    ensures StrokeRing(pts, hw, segments, hypot, cos, sin).Failure? ==> StrokeRing(pts, hw, segments, hypot, cos, sin).error == ZeroDivision
  {
    BufferPolygonShape(pts, hw, segments, hypot, cos, sin);
  }

  lemma NonzeroProduct(a: real, k: real)
    requires a != 0.0 && k != 0.0
    ensures a * k != 0.0
  {
  }

  /** With a nonzero scale the map is one-to-one. */
  lemma SvgToLocalInjective(a: Vec2, b: Vec2, scale: real)
    requires scale != 0.0 && a != b
    ensures SvgToLocal(a, scale) != SvgToLocal(b, scale)
  {
    if a.x != b.x {
      NonzeroProduct(a.x - b.x, scale);
      assert (a.x - SvgCenter.x) * scale - (b.x - SvgCenter.x) * scale == (a.x - b.x) * scale;
    } else {
      NonzeroProduct(a.y - b.y, scale);
      assert -(a.y - SvgCenter.y) * scale + (b.y - SvgCenter.y) * scale == -((a.y - b.y) * scale);
    }
  }

  /** At a zero scale every point goes to the origin. */
  lemma SvgToLocalZero(a: Vec2)
    ensures SvgToLocal(a, 0.0) == Vec2(0.0, 0.0)
  {
  }

  /** The first two and the last two points of the logo's trail centreline. */
  lemma LogoTrailEnds()
    ensures |TrailPoints(TrailCurves, TrailSamples)| == 61
    ensures TrailPoints(TrailCurves, TrailSamples)[0] == Vec2(10.0, 32.0)
    ensures TrailPoints(TrailCurves, TrailSamples)[1] == BezierPoint(TrailCurves[0], 1.0 / 20.0)
    ensures TrailPoints(TrailCurves, TrailSamples)[59] == BezierPoint(TrailCurves[2], 19.0 / 20.0)
    ensures TrailPoints(TrailCurves, TrailSamples)[60] == Vec2(42.0, 26.0)
  {
    var c := TrailCurves;
    LogoTrailCenterline();
    assert c[..2][..1] == [c[0]];
    assert c[..2] == c[..3][..2];
    var first := TrailPoints([c[0]], TrailSamples);
    var two := TrailPoints(c[..2], TrailSamples);
    assert first == Samples(c[0], TrailSamples);
    assert two == first + Samples(c[1], TrailSamples)[1..];
    TrailPointsShape(c[..2], TrailSamples);
    assert |two| == 41;
    assert TrailPoints(c, TrailSamples) == two + Samples(c[2], TrailSamples)[1..];
    assert TrailPoints(c, TrailSamples)[1] == first[1];
    assert TrailPoints(c, TrailSamples)[59] == Samples(c[2], TrailSamples)[19];
  }

  /**
   * With a true `hypot` and strokes whose end segments have nonzero length
   * in SVG units, the model builds the faces exactly when the diameter is
   * nonzero; a zero diameter collapses the trail to a point and its end cap
   * divides by zero. The only failure the model knows is that division: its
   * kernel builds every circle, polygon face and common part, whatever the
   * radius.
   */
  lemma FacesFromDefined(diameter: real, mountainSvg: seq<Vec2>, trailSvg: seq<Vec2>, boltSvg: seq<Vec2>, segments: nat,
                         k: Kernel)
    requires HypotZeroAtOrigin(k.hypot) && mountainSvg != [] && segments >= 2
    requires |trailSvg| >= 2 && trailSvg[1] != trailSvg[0] && trailSvg[|trailSvg| - 1] != trailSvg[|trailSvg| - 2]
    requires |boltSvg| >= 2 && boltSvg[1] != boltSvg[0] && boltSvg[|boltSvg| - 1] != boltSvg[|boltSvg| - 2]
    ensures FacesFrom(diameter, mountainSvg, trailSvg, boltSvg, segments, k).Success?
            <==> diameter != 0.0
    ensures diameter == 0.0 ==>
      FacesFrom(diameter, mountainSvg, trailSvg, boltSvg, segments, k) == Failure(ZeroDivision)
  {
    var scale := LogoScale(diameter);
    var trailLocal := ToLocal(trailSvg, scale);
    var boltLocal := ToLocal(boltSvg, scale);
    var nt, nb := |trailSvg|, |boltSvg|;
    StrokeRingDefined(trailLocal, TrailStrokeWidth * scale / 2.0, segments, k.hypot, k.cos, k.sin);
    StrokeRingDefined(boltLocal, BoltStrokeWidth * scale / 2.0, segments, k.hypot, k.cos, k.sin);
    if diameter == 0.0 {
      SvgToLocalZero(trailSvg[nt - 1]);
      SvgToLocalZero(trailSvg[nt - 2]);
    } else {
      SvgToLocalInjective(trailSvg[0], trailSvg[1], scale);
      SvgToLocalInjective(trailSvg[nt - 2], trailSvg[nt - 1], scale);
      SvgToLocalInjective(boltSvg[0], boltSvg[1], scale);
      SvgToLocalInjective(boltSvg[nb - 2], boltSvg[nb - 1], scale);
    }
  }

  /**
   * For the icon, with a true `hypot`, the model of `create_logo_faces`
   * succeeds exactly when the diameter is nonzero, and a zero diameter
   * raises `ZeroDivisionError` in the trail's end cap; the kernel calls made
   * before the cap never fail in the model.
   */
  lemma LogoFacesDefined(diameter: real, k: Kernel)
    requires HypotZeroAtOrigin(k.hypot)
    ensures LogoFacesOf(diameter, k).Success? <==> diameter != 0.0
    ensures diameter == 0.0 ==> LogoFacesOf(diameter, k) == Failure(ZeroDivision)
  {
    var trailSvg := TrailPoints(TrailCurves, TrailSamples);
    LogoTrailEnds();
    assert trailSvg[1] == Vec2(10.6, 31.425);
    assert trailSvg[59] == Vec2(41.6, 25.815);
    FacesFromDefined(diameter, SvgMountain, trailSvg, SvgBolt, CapSegments, k);
  }
}
