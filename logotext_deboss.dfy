/**
 * The logo-plus-text deboss: the face frame of the logo deboss, optionally
 * rotated in the face plane, then five layers (the four isolated logo
 * layers and the text, used as it is) cut into the body in sequence.
 *
 * The cosine and sine of the rotation angle come from the kernel's `cos`
 * and `sin`; tools are placed with the kernel's `transformShape`.
 */
module LogoTextDeboss {
  import opened Vectors
  import opened Shapes
  import opened Wrappers
  import opened LogoGeometry
  import opened LogoTextGeometry
  import opened LogoDeboss

  /**
   * `u cos + v sin` and `-u sin + v cos` when the rotation is nonzero; the
   * axes as they are for a zero rotation.
   */
  function RotateAxes(u: Vec3, v: Vec3, rotation: real, cos: real, sin: real): (axes: (Vec3, Vec3))
    ensures rotation == 0.0 ==> axes == (u, v)
  {
    if rotation != 0.0 then (Add(Scale(u, cos), Scale(v, sin)), Add(Scale(Neg(u), sin), Scale(v, cos)))
    else (u, v)
  }

  /**
   * Rotating an orthonormal pair by an angle whose cosine and sine satisfy
   * `cos^2 + sin^2 = 1` gives an orthonormal pair, and axes orthogonal to
   * the normal stay orthogonal to it.
   */
  lemma {:induction false} RotationKeepsFrame(u: Vec3, v: Vec3, n: Vec3, rotation: real, cos: real, sin: real)
    requires Dot(u, u) == 1.0 && Dot(v, v) == 1.0 && Dot(u, v) == 0.0
    requires Dot(u, n) == 0.0 && Dot(v, n) == 0.0
    requires cos * cos + sin * sin == 1.0
    ensures var (u', v') := RotateAxes(u, v, rotation, cos, sin);
      Dot(u', u') == 1.0 && Dot(v', v') == 1.0 && Dot(u', v') == 0.0
      && Dot(u', n) == 0.0 && Dot(v', n) == 0.0
  {
    if rotation != 0.0 {
      var u' := Add(Scale(u, cos), Scale(v, sin));
      var v' := Add(Scale(u, -sin), Scale(v, cos));
      assert Add(Scale(Neg(u), sin), Scale(v, cos)) == v';
      Bilinear(u, v, cos, sin, cos, sin);
      Bilinear(u, v, -sin, cos, -sin, cos);
      Bilinear(u, v, cos, sin, -sin, cos);
      UnitCircle(cos, sin);
      PlaneCombination(u, v, n, cos, sin);
      PlaneCombination(u, v, n, -sin, cos);
    }
  }

  /** The dot product of two combinations of an orthonormal pair. */
  lemma Bilinear(u: Vec3, v: Vec3, a: real, b: real, c: real, d: real)
    requires Dot(u, u) == 1.0 && Dot(v, v) == 1.0 && Dot(u, v) == 0.0
    ensures Dot(Add(Scale(u, a), Scale(v, b)), Add(Scale(u, c), Scale(v, d))) == a * c + b * d
  {
    CombinationComponents(u, v, a, b);
    CombinationComponents(u, v, c, d);
    BilinearComponents(Add(Scale(u, a), Scale(v, b)), Add(Scale(u, c), Scale(v, d)),
                       u.x, u.y, u.z, v.x, v.y, v.z, a, b, c, d);
  }

  lemma BilinearComponents(p: Vec3, q: Vec3, ux: real, uy: real, uz: real, vx: real, vy: real, vz: real,
                           a: real, b: real, c: real, d: real)
    requires p == Vec3(ux * a + vx * b, uy * a + vy * b, uz * a + vz * b)
    requires q == Vec3(ux * c + vx * d, uy * c + vy * d, uz * c + vz * d)
    requires ux * ux + uy * uy + uz * uz == 1.0
    requires vx * vx + vy * vy + vz * vz == 1.0
    requires ux * vx + uy * vy + uz * vz == 0.0
    ensures Dot(p, q) == a * c + b * d
  {
    assert Dot(p, q) == (ux * a + vx * b) * (ux * c + vx * d) + (uy * a + vy * b) * (uy * c + vy * d)
                      + (uz * a + vz * b) * (uz * c + vz * d);
    assert Dot(p, q) == a * c * (ux * ux + uy * uy + uz * uz) + (a * d + b * c) * (ux * vx + uy * vy + uz * vz)
                      + b * d * (vx * vx + vy * vy + vz * vz);
  }

  lemma CombinationComponents(u: Vec3, v: Vec3, a: real, b: real)
    ensures Add(Scale(u, a), Scale(v, b)) == Vec3(u.x * a + v.x * b, u.y * a + v.y * b, u.z * a + v.z * b)
  {
  }

  lemma UnitCircle(cos: real, sin: real)
    requires cos * cos + sin * sin == 1.0
    ensures (-sin) * (-sin) + cos * cos == 1.0
    ensures cos * (-sin) + sin * cos == 0.0
  {
  }

  /** The transform `apply_logotext` uses: the offset is taken along the rotated axes. */
  function LogoTextMatrix(face: Face, ku: real, kv: real, rotation: real, cos: real, sin: real,
                          xOffset: real, yOffset: real): (m: Matrix)
    requires ku > 0.0 && kv > 0.0
    ensures var f := ComputeFaceFrame(face, ku, kv);
      var (u, v) := RotateAxes(f.u, f.v, rotation, cos, sin);
      m.col1 == u && m.col2 == v && m.col3 == Neg(f.normal)
      && m.translation == MapPoint(BuildTransform(f.center, u, v, f.normal), Vec3(xOffset, yOffset, 0.0))
  {
    var f := ComputeFaceFrame(face, ku, kv);
    var (u, v) := RotateAxes(f.u, f.v, rotation, cos, sin);
    var rotated := Frame(f.center, u, v, f.normal);
    PlacementIsLocalOffset(rotated, xOffset, yOffset);
    BuildTransform(Placement(rotated, xOffset, yOffset), u, v, f.normal)
  }

  /** The text depth ratio joins the three logo ratios. */
  function LogoTextDepths(total: real, r: Ratios, textRatio: real): (d: map<Layer, real>)
    ensures d.Keys == {Circle, Mountain, Trail, Bolt, Text}
    ensures forall layer :: layer in LogoDepths(total, r) ==> d[layer] == LogoDepths(total, r)[layer]
    ensures d[Text] == total * textRatio
  {
    LogoDepths(total, r)[Text := total * textRatio]
  }

  /** The five layers in cutting order: the isolated logo layers, then the text as it is. */
  function LogoTextLayers(f: LogoFaces, text: Region): (layers: seq<(Layer, Region)>)
    ensures layers == LogoLayers(IsolateLayers(f)) + [(Text, text)]
  {
    var l := IsolateLayers(f);
    [(Circle, l.circle), (Mountain, l.mountain), (Trail, l.trail), (Bolt, l.bolt), (Text, text)]
  }

  /**
   * The text layer is not cut against the logo: it is disjoint from the
   * other layers exactly when the text face misses the four logo faces.
   */
  lemma TextLayerDisjoint(f: LogoFaces, text: Region)
    ensures text !! (f.circle + f.mountain + f.trail + f.bolt)
      <==> (forall i :: 0 <= i < 4 ==> LogoTextLayers(f, text)[i].1 !! text)
  {
    var l := IsolateLayers(f);
    var layers := LogoTextLayers(f, text);
    if forall i :: 0 <= i < 4 ==> layers[i].1 !! text {
      assert l.circle !! text && l.mountain !! text && l.trail !! text && l.bolt !! text by {
        assert layers[0].1 == l.circle && layers[1].1 == l.mountain;
        assert layers[2].1 == l.trail && layers[3].1 == l.bolt;
      }
    }
  }

  /** `math.radians`: degrees to radians. */
  function Radians(degrees: real): real
  {
    degrees * (Pi / 180.0)
  }

  /** The matrix `apply_logotext` builds, with the cosine and sine of the rotation taken from the kernel. */
  function LogoTextPlacement(face: Face, ku: real, kv: real, rotation: real, xOffset: real, yOffset: real,
                             k: Kernel): (m: Matrix)
    requires ku > 0.0 && kv > 0.0
    ensures rotation == 0.0 ==> m == LogoMatrix(face, ku, kv, xOffset, yOffset)
  {
    LogoTextMatrix(face, ku, kv, rotation, k.cos(Radians(rotation)), k.sin(Radians(rotation)), xOffset, yOffset)
  }

  /**
   * The body with the five layer tools cut out: a part of the body that
   * misses every tool.
   */
  function LogoTextRelief(body: Solid, faces: LogoTextFaces, totalDepth: real, ratios: Ratios, textRatio: real,
                          extrude: (Region, real) -> Solid, transform: (Matrix, Solid) -> Solid, m: Matrix): (r: Solid)
    ensures r <= body
    ensures forall t :: t in Tools(LogoTextLayers(faces.logo, faces.text), LogoTextDepths(totalDepth, ratios, textRatio),
                                   extrude, transform, m)
              ==> r !! t
  {
    body - UnionAll(Tools(LogoTextLayers(faces.logo, faces.text), LogoTextDepths(totalDepth, ratios, textRatio),
                          extrude, transform, m))
  }

  /**
   * The first step of `apply_logotext`: the face frame, its axes turned by
   * `rotation` degrees when that is nonzero, the offset placement and the
   * matrix built from them.
   */
  method PlaceLogoText(face: Face, ku: real, kv: real, rotation: real, xOffset: real, yOffset: real, k: Kernel)
    returns (mat: Matrix)
    requires ku > 0.0 && kv > 0.0
    ensures mat == LogoTextPlacement(face, ku, kv, rotation, xOffset, yOffset, k)
  {
    var frame := ComputeFaceFrame(face, ku, kv);
    var u, v := frame.u, frame.v;
    if rotation != 0.0 {
      var rad := Radians(rotation);
      var cosR, sinR := k.cos(rad), k.sin(rad);
      u, v := Add(Scale(frame.u, cosR), Scale(frame.v, sinR)), Add(Scale(Neg(frame.u), sinR), Scale(frame.v, cosR));
    }
    var placement := Placement(Frame(frame.center, u, v, frame.normal), xOffset, yOffset);
    mat := BuildTransform(placement, u, v, frame.normal);
  }

  /**
   * What `apply_logotext` returns once the logo-text generator has run: the
   * error it raised, or the relief of its faces placed by `m`.
   */
  function LogoTextDebossOf(body: Solid, faces: Result<LogoTextFaces, TextError>, totalDepth: real, ratios: Ratios,
                            textRatio: real, extrude: (Region, real) -> Solid, transform: (Matrix, Solid) -> Solid,
                            m: Matrix): (r: Result<Solid, TextError>)
    ensures r.Success? <==> faces.Success?
    ensures r.Failure? ==> r.error == faces.error
    ensures r.Success? ==> r.value <= body
  {
    match faces
    case Failure(e) => Failure(e)
    case Success(f) => Success(LogoTextRelief(body, f, totalDepth, ratios, textRatio, extrude, transform, m))
  }

  /** The five layers of `faces` extruded to their depths, placed by `mat` and cut from the body in sequence. */
  method CutLogoTextLayers(body: Solid, faces: LogoTextFaces, totalDepth: real, ratios: Ratios, textRatio: real,
                           mat: Matrix, extrude: (Region, real) -> Solid, transform: (Matrix, Solid) -> Solid)
    returns (result: Solid)
    ensures result == LogoTextRelief(body, faces, totalDepth, ratios, textRatio, extrude, transform, mat)
  {
    var layers := LogoTextLayers(faces.logo, faces.text);
    var depths := LogoTextDepths(totalDepth, ratios, textRatio);
    var tools := BuildTools(layers, depths, extrude, transform, mat);
    result := CutAll(body, tools);
  }

  /**
   * The rest of `apply_logotext` once the matrix is built: the logo and text
   * faces generated, the five layers extruded, placed by `mat` and cut in
   * sequence.
   */
  method CutLogoText(body: Solid, diameter: real, totalDepth: real, ratios: Ratios, textRatio: real, mat: Matrix,
                     k: Kernel)
    returns (result: Result<Solid, TextError>)
    ensures result == LogoTextDebossOf(body, LogoTextFacesOf(diameter, k), totalDepth, ratios, textRatio,
                                       k.extrude, k.transformShape, mat)
  {
    var faces := CreateLogoTextFaces(diameter, k);
    if faces.Failure? {
      return Failure(faces.error);
    }
    var cut := CutLogoTextLayers(body, faces.value, totalDepth, ratios, textRatio, mat, k.extrude, k.transformShape);
    result := Success(cut);
  }

  /** `apply_logotext`. */
  method ApplyLogoText(body: Solid, face: Face, diameter: real, totalDepth: real, ratios: Ratios, textRatio: real,
                       xOffset: real, yOffset: real, rotation: real, ku: real, kv: real, k: Kernel)
    returns (result: Result<Solid, TextError>)
    requires ku > 0.0 && kv > 0.0
    ensures result == LogoTextDebossOf(body, LogoTextFacesOf(diameter, k), totalDepth, ratios, textRatio,
                                       k.extrude, k.transformShape,
                                       LogoTextPlacement(face, ku, kv, rotation, xOffset, yOffset, k))
  {
    var mat := PlaceLogoText(face, ku, kv, rotation, xOffset, yOffset, k);
    result := CutLogoText(body, diameter, totalDepth, ratios, textRatio, mat, k);
  }

  /**
   * The logo-text relief removes everything the logo relief with the same
   * matrix removes: its tools begin with the logo's tools.
   */
  lemma LogoTextReliefWithinLogo(body: Solid, faces: LogoTextFaces, totalDepth: real, ratios: Ratios, textRatio: real,
                                 extrude: (Region, real) -> Solid, transform: (Matrix, Solid) -> Solid, m: Matrix)
    ensures LogoTextRelief(body, faces, totalDepth, ratios, textRatio, extrude, transform, m)
            <= LogoRelief(body, faces.logo, totalDepth, ratios, extrude, transform, m)
  {
    LogoTextExtendsLogo(faces.logo, faces.text, totalDepth, ratios, textRatio, extrude, transform, m);
    var logo := Tools(LogoLayers(IsolateLayers(faces.logo)), LogoDepths(totalDepth, ratios), extrude, transform, m);
    var all := Tools(LogoTextLayers(faces.logo, faces.text), LogoTextDepths(totalDepth, ratios, textRatio),
                     extrude, transform, m);
    assert forall i :: 0 <= i < |logo| ==> logo[i] == all[i];
    forall p | p in UnionAll(logo)
      ensures p in UnionAll(all)
    {
      var i :| 0 <= i < |logo| && p in logo[i];
      assert all[i] <= UnionAll(all);
    }
  }

  /**
   * The logo part of the relief is exactly the logo deboss: the first tools
   * are those `apply_logo` would build with the same matrix, and the text
   * tool, if deep enough, comes last.
   */
  lemma {:induction false} LogoTextExtendsLogo(faces: LogoFaces, text: Region, total: real, r: Ratios, textRatio: real,
                                                extrude: (Region, real) -> Solid, transform: (Matrix, Solid) -> Solid, m: Matrix)
    ensures HasDepths(LogoLayers(IsolateLayers(faces)), LogoTextDepths(total, r, textRatio))
    ensures Tools(LogoTextLayers(faces, text), LogoTextDepths(total, r, textRatio), extrude, transform, m)
      == Tools(LogoLayers(IsolateLayers(faces)), LogoDepths(total, r), extrude, transform, m)
         + (if total * textRatio < MinDepth then [] else [transform(m, extrude(text, total * textRatio))])
  {
    var logo := LogoLayers(IsolateLayers(faces));
    var d := LogoTextDepths(total, r, textRatio);
    var d0 := LogoDepths(total, r);
    ToolsAppend(logo, [(Text, text)], d, extrude, transform, m);
    assert [(Text, text)][..0] == [];
    SameDepthsSameTools(logo, d, d0, extrude, transform, m);
  }

  /** Tools depend on the depth table only through the depths of the layers present. */
  lemma {:induction false} SameDepthsSameTools(layers: seq<(Layer, Region)>, d: map<Layer, real>, d0: map<Layer, real>,
                                                extrude: (Region, real) -> Solid, transform: (Matrix, Solid) -> Solid, m: Matrix)
    requires HasDepths(layers, d0)
    requires forall layer :: layer in d0 ==> layer in d && d[layer] == d0[layer]
    ensures HasDepths(layers, d)
    ensures Tools(layers, d, extrude, transform, m) == Tools(layers, d0, extrude, transform, m)
  {
    if layers != [] {
      SameDepthsSameTools(layers[..|layers| - 1], d, d0, extrude, transform, m);
    }
  }
}
