/**
 * The logo-plus-text generator: the table of block letters (design units,
 * cap height 10, origin at the bottom-left of each glyph), the placement of
 * one glyph at a cursor position, the cursor loop that lays out a word and
 * its errors, and the layout that puts the word "TrailCurrent" to the right
 * of the logo circle.
 *
 * A face made from a closed polygon, the bounding box and the translation of
 * the finished text are the kernel's (`Kernel.polygonFace`, `Kernel.boundsY`,
 * `Kernel.translate`); fusing is union and cutting is difference.
 */
module LogoTextGeometry {
  import opened Wrappers
  import opened Vectors
  import opened Shapes
  import opened LogoGeometry

  // ---------------------------------------------------------------------
  // The glyph table
  // ---------------------------------------------------------------------

  /** Stroke width of the letter forms, in design units. */
  const GlyphStroke: real := 1.8
  /** Height of a capital, in design units. */
  const CapHeight: real := 10.0
  /** Height of a lower-case letter without ascender, in design units. */
  const XHeight: real := 7.0
  /** The gap left after every glyph, in design units. */
  const Spacing: real := 1.0

  /** A polygon of the table; every one has at least three vertices. */
  type Polygon = p: seq<Vec2> | |p| >= 3 witness [Vec2(0.0, 0.0), Vec2(1.0, 0.0), Vec2(0.0, 1.0)]

  /** An advance width, the outlines that are fused, and the holes cut out of them. */
  datatype Glyph = Glyph(advance: real, outers: seq<Polygon>, holes: seq<Polygon>)

  /** The characters the table defines. */
  const Supported: set<char> := {'T', 'C', 'r', 'a', 'i', 'l', 'u', 'e', 'n', 't'}

  /** `_GLYPHS`: the glyph of a character, if the table has one. */
  function GlyphOf(c: char): (g: Option<Glyph>)
    ensures g.Some? <==> c in Supported
  {
    match c
    case 'T' => Some(Glyph(7.0, [[Vec2(0.0, 10.0), Vec2(7.0, 10.0), Vec2(7.0, 8.2), Vec2(4.4, 8.2),
                                  Vec2(4.4, 0.0), Vec2(2.6, 0.0), Vec2(2.6, 8.2), Vec2(0.0, 8.2)]], []))
    case 'C' => Some(Glyph(5.4, [[Vec2(0.0, 0.0), Vec2(5.4, 0.0), Vec2(5.4, 1.8), Vec2(1.8, 1.8),
                                  Vec2(1.8, 8.2), Vec2(5.4, 8.2), Vec2(5.4, 10.0), Vec2(0.0, 10.0)]], []))
    case 'r' => Some(Glyph(3.8, [[Vec2(0.0, 0.0), Vec2(1.8, 0.0), Vec2(1.8, 5.2), Vec2(3.8, 5.2),
                                  Vec2(3.8, 7.0), Vec2(0.0, 7.0)]], []))
    case 'a' => Some(Glyph(5.4, [[Vec2(0.0, 0.0), Vec2(5.4, 0.0), Vec2(5.4, 7.0), Vec2(0.0, 7.0)]],
                           [[Vec2(1.8, 1.8), Vec2(3.6, 1.8), Vec2(3.6, 5.2), Vec2(1.8, 5.2)]]))
    case 'i' => Some(Glyph(1.8, [[Vec2(0.0, 0.0), Vec2(1.8, 0.0), Vec2(1.8, 7.0), Vec2(0.0, 7.0)],
                                 [Vec2(0.0, 8.2), Vec2(1.8, 8.2), Vec2(1.8, 10.0), Vec2(0.0, 10.0)]], []))
    case 'l' => Some(Glyph(1.8, [[Vec2(0.0, 0.0), Vec2(1.8, 0.0), Vec2(1.8, 10.0), Vec2(0.0, 10.0)]], []))
    case 'u' => Some(Glyph(5.4, [[Vec2(0.0, 0.0), Vec2(5.4, 0.0), Vec2(5.4, 7.0), Vec2(3.6, 7.0),
                                  Vec2(3.6, 1.8), Vec2(1.8, 1.8), Vec2(1.8, 7.0), Vec2(0.0, 7.0)]], []))
    case 'e' => Some(Glyph(5.4, [[Vec2(0.0, 0.0), Vec2(5.4, 0.0), Vec2(5.4, 2.6), Vec2(1.8, 2.6),
                                  Vec2(1.8, 4.4), Vec2(5.4, 4.4), Vec2(5.4, 7.0), Vec2(0.0, 7.0)]], []))
    case 'n' => Some(Glyph(5.4, [[Vec2(0.0, 0.0), Vec2(1.8, 0.0), Vec2(1.8, 5.2), Vec2(3.6, 5.2),
                                  Vec2(3.6, 0.0), Vec2(5.4, 0.0), Vec2(5.4, 7.0), Vec2(0.0, 7.0)]], []))
    case 't' => Some(Glyph(4.2, [[Vec2(0.0, 0.0), Vec2(1.8, 0.0), Vec2(1.8, 5.2), Vec2(4.2, 5.2),
                                  Vec2(4.2, 7.0), Vec2(1.8, 7.0), Vec2(1.8, 10.0), Vec2(0.0, 10.0)]], []))
    case _ => None
  }

  /** A design-unit point inside the glyph cell: between 0 and the advance across, 0 and the cap height up. */
  predicate InCell(p: Vec2, width: real)
  {
    0.0 <= p.x <= width && 0.0 <= p.y <= CapHeight
  }

  predicate PolygonsInCell(polys: seq<Polygon>, width: real)
  {
    forall i, j :: 0 <= i < |polys| && 0 <= j < |polys[i]| ==> InCell(polys[i][j], width)
  }

  /** A glyph with a positive advance, at least one outline, and every vertex inside its cell. */
  predicate WellFormed(g: Glyph)
  {
    g.advance > 0.0 && g.outers != [] && PolygonsInCell(g.outers, g.advance) && PolygonsInCell(g.holes, g.advance)
  }

  /** Every glyph a table defines is well formed. */
  ghost predicate TableWellFormed(table: char -> Option<Glyph>)
  {
    forall c :: table(c).Some? ==> WellFormed(table(c).value)
  }

  /** Every glyph of `_GLYPHS` is well formed. */
  lemma GlyphTableWellFormed()
    ensures TableWellFormed(GlyphOf)
  {
    forall c | GlyphOf(c).Some?
      ensures WellFormed(GlyphOf(c).value)
    {
      GlyphWellFormed(c);
    }
  }

  lemma GlyphWellFormed(c: char)
    requires c in Supported
    ensures WellFormed(GlyphOf(c).value)
  {
    if c in {'T', 'C', 'i', 'l', 't'} {
      TallGlyphWellFormed(c);
    } else {
      ShortGlyphWellFormed(c);
    }
  }

  /** The glyphs that reach the cap height. */
  lemma TallGlyphWellFormed(c: char)
    requires c in {'T', 'C', 'i', 'l', 't'}
    ensures WellFormed(GlyphOf(c).value)
  {
    match c
    case 'T' =>
      assert OutlineInCell(GlyphOf('T').value.outers[0], GlyphOf('T').value.advance);
    case 'C' =>
      assert OutlineInCell(GlyphOf('C').value.outers[0], GlyphOf('C').value.advance);
    case 'i' =>
      assert OutlineInCell(GlyphOf('i').value.outers[0], GlyphOf('i').value.advance);
      assert OutlineInCell(GlyphOf('i').value.outers[1], GlyphOf('i').value.advance);
    case 'l' =>
      assert OutlineInCell(GlyphOf('l').value.outers[0], GlyphOf('l').value.advance);
    case 't' =>
      assert OutlineInCell(GlyphOf('t').value.outers[0], GlyphOf('t').value.advance);
  }

  /** The glyphs that stop at the x-height. */
  lemma ShortGlyphWellFormed(c: char)
    requires c in {'r', 'a', 'u', 'e', 'n'}
    ensures WellFormed(GlyphOf(c).value)
  {
    match c
    case 'r' =>
      assert OutlineInCell(GlyphOf('r').value.outers[0], GlyphOf('r').value.advance);
    case 'a' =>
      assert OutlineInCell(GlyphOf('a').value.outers[0], GlyphOf('a').value.advance);
      assert OutlineInCell(GlyphOf('a').value.holes[0], GlyphOf('a').value.advance);
    case 'u' =>
      assert OutlineInCell(GlyphOf('u').value.outers[0], GlyphOf('u').value.advance);
    case 'e' =>
      assert OutlineInCell(GlyphOf('e').value.outers[0], GlyphOf('e').value.advance);
    case 'n' =>
      assert OutlineInCell(GlyphOf('n').value.outers[0], GlyphOf('n').value.advance);
  }

  /** Every vertex of one polygon lies in the cell. */
  predicate OutlineInCell(poly: seq<Vec2>, width: real)
  {
    forall k :: 0 <= k < |poly| ==> InCell(poly[k], width)
  }

  // ---------------------------------------------------------------------
  // One glyph
  // ---------------------------------------------------------------------

  datatype TextError =
    | NoGlyph(c: char)
    | NoOuterPolygons(c: char)
    | UnsupportedCharacter(c: char)
    | NoCharacters
    | Logo(e: GeometryError)

  /** A design-unit point scaled uniformly and shifted along X by the cursor. */
  function PlacePoint(p: Vec2, xOffset: real, scale: real): Vec2
  {
    Vec2(p.x * scale + xOffset, p.y * scale)
  }

  function PlacePolygon(poly: Polygon, xOffset: real, scale: real): (placed: Polygon)
    ensures |placed| == |poly|
    ensures forall i :: 0 <= i < |poly| ==> placed[i] == PlacePoint(poly[i], xOffset, scale)
  {
    seq(|poly|, i requires 0 <= i < |poly| => PlacePoint(poly[i], xOffset, scale))
  }

  /**
   * The placement is a uniform scale plus a horizontal shift: the vector
   * between two placed points is the design-unit vector scaled.
   */
  lemma PlacementIsScaleAndShift(p: Vec2, q: Vec2, xOffset: real, scale: real)
    ensures Sub2(PlacePoint(p, xOffset, scale), PlacePoint(q, xOffset, scale)) == Scale2(Sub2(p, q), scale)
  {
  }

  /** A point of a glyph's cell lands in the placed cell. */
  lemma PlacedInCell(p: Vec2, xOffset: real, scale: real, width: real)
    requires scale >= 0.0 && InCell(p, width)
    ensures xOffset <= PlacePoint(p, xOffset, scale).x <= xOffset + width * scale
    ensures 0.0 <= PlacePoint(p, xOffset, scale).y <= CapHeight * scale
  {
    ProductBounds(p.x, width, scale);
    ProductBounds(p.y, CapHeight, scale);
    assert PlacePoint(p, xOffset, scale).y == p.y * scale;
  }

  lemma ProductBounds(a: real, b: real, k: real)
    requires 0.0 <= a <= b && k >= 0.0
    ensures 0.0 <= a * k <= b * k
  {
  }

  /** The faces of a list of polygons placed at the cursor, each ring closed first. */
  function PolygonFaces(polys: seq<Polygon>, xOffset: real, scale: real, polygonFace: seq<Vec2> -> Region)
    : (faces: seq<Region>)
    ensures |faces| == |polys|
  {
    seq(|polys|, i requires 0 <= i < |polys| => polygonFace(CloseRing(PlacePolygon(polys[i], xOffset, scale)).value))
  }

  /**
   * What `_build_glyph_face` returns: an error for a character without a
   * glyph or a glyph without outlines; otherwise the union of the outline
   * faces minus every hole face.
   */
  function GlyphFace(c: char, table: char -> Option<Glyph>, xOffset: real, scale: real,
                     polygonFace: seq<Vec2> -> Region): (r: Result<Region, TextError>)
    ensures r.Failure? <==> table(c).None? || table(c).value.outers == []
    ensures table(c).None? ==> r == Failure(NoGlyph(c))
  {
    match table(c)
    case None => Failure(NoGlyph(c))
    case Some(g) =>
      if g.outers == [] then Failure(NoOuterPolygons(c))
      else Success(UnionAll(PolygonFaces(g.outers, xOffset, scale, polygonFace))
                   - UnionAll(PolygonFaces(g.holes, xOffset, scale, polygonFace)))
  }

  /**
   * A glyph's face holds every point of an outline face that lies in no
   * hole face, and nothing of a hole.
   */
  lemma GlyphFaceParts(c: char, table: char -> Option<Glyph>, xOffset: real, scale: real,
                       polygonFace: seq<Vec2> -> Region, p: Vec2)
    requires table(c).Some? && table(c).value.outers != []
    ensures var g := table(c).value;
      var outers := PolygonFaces(g.outers, xOffset, scale, polygonFace);
      var holes := PolygonFaces(g.holes, xOffset, scale, polygonFace);
      p in GlyphFace(c, table, xOffset, scale, polygonFace).value
      <==> (exists i :: 0 <= i < |outers| && p in outers[i]) && (forall i :: 0 <= i < |holes| ==> p !in holes[i])
  {
  }

  /** `_build_glyph_face`: the outline faces, fused in order, then each hole cut out in order. */
  method BuildGlyphFace(c: char, table: char -> Option<Glyph>, xOffset: real, scale: real,
                        polygonFace: seq<Vec2> -> Region) returns (r: Result<Region, TextError>)
    ensures r == GlyphFace(c, table, xOffset, scale, polygonFace)
  {
    var glyph := table(c);
    if glyph.None? {
      return Failure(NoGlyph(c));
    }
    var g := glyph.value;
    var faces := PlaceFaces(g.outers, xOffset, scale, polygonFace);
    if faces == [] {
      return Failure(NoOuterPolygons(c));
    }
    var fused := FuseShapes(faces);
    var result := CutHoles(fused, g.holes, xOffset, scale, polygonFace);
    r := Success(result);
  }

  /** The loop over the outlines: each polygon placed at the cursor and made a face. */
  method PlaceFaces(polys: seq<Polygon>, xOffset: real, scale: real, polygonFace: seq<Vec2> -> Region)
    returns (faces: seq<Region>)
    ensures faces == PolygonFaces(polys, xOffset, scale, polygonFace)
  {
    faces := [];
    for i := 0 to |polys|
      invariant faces == PolygonFaces(polys[..i], xOffset, scale, polygonFace)
    {
      var pts := PlacePolygon(polys[i], xOffset, scale);
      faces := faces + [polygonFace(CloseRing(pts).value)];
    }
    assert polys[..|polys|] == polys;
  }

  /** The loop over the holes: each one placed at the cursor, made a face and cut out in turn. */
  method CutHoles(shape: Region, holes: seq<Polygon>, xOffset: real, scale: real, polygonFace: seq<Vec2> -> Region)
    returns (result: Region)
    ensures result == shape - UnionAll(PolygonFaces(holes, xOffset, scale, polygonFace))
  {
    result := shape;
    for i := 0 to |holes|
      invariant result == shape - UnionAll(PolygonFaces(holes[..i], xOffset, scale, polygonFace))
    {
      var pts := PlacePolygon(holes[i], xOffset, scale);
      var hole := polygonFace(CloseRing(pts).value);
      assert PolygonFaces(holes[..i + 1], xOffset, scale, polygonFace)
          == PolygonFaces(holes[..i], xOffset, scale, polygonFace) + [hole];
      result := result - hole;
    }
    assert holes[..|holes|] == holes;
  }

  // ---------------------------------------------------------------------
  // A word
  // ---------------------------------------------------------------------

  /** Millimetres per design unit for a given cap height. */
  function TextScale(capHeight: real): real
  {
    capHeight / CapHeight
  }

  /** The advance width of a character, zero when the table lacks it. */
  function Advance(c: char, table: char -> Option<Glyph>): real
  {
    if table(c).Some? then table(c).value.advance else 0.0
  }

  /** One move of the cursor past a glyph of width `advance`, with the spacing after it. */
  function AdvanceCursor(cursor: real, advance: real, scale: real): real
  {
    cursor + (advance + Spacing) * scale
  }

  /** The cursor after laying out `text`: each character adds `(advance + spacing) * scale`. */
  function Cursor(text: string, table: char -> Option<Glyph>, scale: real): real
  {
    if text == [] then 0.0
    else AdvanceCursor(Cursor(text[..|text| - 1], table, scale), Advance(text[|text| - 1], table), scale)
  }

  /** The sum of `advance + spacing` over the characters, in design units. */
  function AdvanceSum(text: string, table: char -> Option<Glyph>): real
  {
    if text == [] then 0.0 else AdvanceSum(text[..|text| - 1], table) + Advance(text[|text| - 1], table) + Spacing
  }

  /** The cursor of glyph k is the scale times the design-unit widths of the glyphs before it. */
  lemma {:induction false} CursorIsScaledSum(text: string, table: char -> Option<Glyph>, scale: real)
    ensures Cursor(text, table, scale) == scale * AdvanceSum(text, table)
  {
    if text != [] {
      var prefix := text[..|text| - 1];
      CursorIsScaledSum(prefix, table, scale);
      Distribute(scale, AdvanceSum(prefix, table), Advance(text[|text| - 1], table) + Spacing);
    }
  }

  lemma Distribute(k: real, a: real, b: real)
    ensures k * a + b * k == k * (a + b)
  {
  }

  /**
   * The glyph shapes the cursor loop collects, one per character in order,
   * or the error for the first character the table lacks.
   */
  function TextShapes(text: string, table: char -> Option<Glyph>, scale: real, polygonFace: seq<Vec2> -> Region)
    : (r: Result<seq<Region>, TextError>)
    requires TableWellFormed(table)
    ensures r.Success? ==> |r.value| == |text|
  {
    if text == [] then Success([])
    else
      var prefix := text[..|text| - 1];
      var c := text[|text| - 1];
      match TextShapes(prefix, table, scale, polygonFace)
      case Failure(e) => Failure(e)
      case Success(shapes) =>
        if table(c).None? then Failure(UnsupportedCharacter(c))
        else Success(shapes + [GlyphFace(c, table, Cursor(prefix, table, scale), scale, polygonFace).value])
  }

  /** What `_create_text_shape` returns: the union of the glyph shapes, or the error it raises. */
  function TextShape(text: string, table: char -> Option<Glyph>, capHeight: real, polygonFace: seq<Vec2> -> Region)
    : Result<Region, TextError>
    requires TableWellFormed(table)
  {
    match TextShapes(text, table, TextScale(capHeight), polygonFace)
    case Failure(e) => Failure(e)
    case Success(shapes) => if shapes == [] then Failure(NoCharacters) else Success(UnionAll(shapes))
  }

  /** Once a prefix has failed, the whole text fails with the same error. */
  lemma {:induction false} TextShapesFailureSticks(text: string, k: nat, table: char -> Option<Glyph>, scale: real,
                                                   polygonFace: seq<Vec2> -> Region)
    requires TableWellFormed(table)
    requires k <= |text| && TextShapes(text[..k], table, scale, polygonFace).Failure?
    ensures TextShapes(text, table, scale, polygonFace) == TextShapes(text[..k], table, scale, polygonFace)
    decreases |text| - k
  {
    if k < |text| {
      assert text[..k + 1][..k] == text[..k];
      TextShapesFailureSticks(text, k + 1, table, scale, polygonFace);
    } else {
      assert text[..k] == text;
    }
  }

  /** The shapes are collected exactly when the table has a glyph for every character. */
  lemma {:induction false} TextShapesSupported(text: string, table: char -> Option<Glyph>, scale: real,
                                               polygonFace: seq<Vec2> -> Region)
    requires TableWellFormed(table)
    ensures TextShapes(text, table, scale, polygonFace).Success? <==> forall i :: 0 <= i < |text| ==> table(text[i]).Some?
  {
    if text != [] {
      var n := |text| - 1;
      var prefix := text[..n];
      TextShapesSupported(prefix, table, scale, polygonFace);
      assert forall i :: 0 <= i < n ==> prefix[i] == text[i];
    }
  }

  /** Collected shape k is glyph k placed at the cursor of the characters before it. */
  lemma {:induction false} TextShapesPlaced(text: string, table: char -> Option<Glyph>, scale: real,
                                            polygonFace: seq<Vec2> -> Region)
    requires TableWellFormed(table)
    requires TextShapes(text, table, scale, polygonFace).Success?
    ensures forall k :: 0 <= k < |text| ==>
      (table(text[k]).Some?
       && TextShapes(text, table, scale, polygonFace).value[k]
          == GlyphFace(text[k], table, Cursor(text[..k], table, scale), scale, polygonFace).value)
  {
    if text != [] {
      var n := |text| - 1;
      var prefix := text[..n];
      var r := TextShapes(text, table, scale, polygonFace);
      TextShapesPlaced(prefix, table, scale, polygonFace);
      var shapes := TextShapes(prefix, table, scale, polygonFace).value;
      assert r.value == shapes + [GlyphFace(text[n], table, Cursor(prefix, table, scale), scale, polygonFace).value];
      forall k | 0 <= k < |text|
        ensures table(text[k]).Some?
        ensures r.value[k] == GlyphFace(text[k], table, Cursor(text[..k], table, scale), scale, polygonFace).value
      {
        if k < n {
          assert text[..k] == prefix[..k];
          assert text[k] == prefix[k];
        }
      }
    }
  }

  /**
   * The first character without a glyph is the one named in the error: if
   * the characters before index i all have glyphs and character i does not,
   * the text fails with `UnsupportedCharacter(text[i])`.
   */
  lemma UnsupportedCharacterNamed(text: string, i: nat, table: char -> Option<Glyph>, capHeight: real,
                                  polygonFace: seq<Vec2> -> Region)
    requires TableWellFormed(table)
    requires i < |text| && table(text[i]).None?
    requires forall j :: 0 <= j < i ==> table(text[j]).Some?
    ensures TextShape(text, table, capHeight, polygonFace) == Failure(UnsupportedCharacter(text[i]))
  {
    var scale := TextScale(capHeight);
    TextShapesSupported(text[..i], table, scale, polygonFace);
    assert text[..i + 1][..i] == text[..i];
    TextShapesFailureSticks(text, i + 1, table, scale, polygonFace);
  }

  /**
   * The text fails exactly when it is empty or has a character the table
   * lacks; the empty text fails with `NoCharacters`.
   */
  lemma TextShapeFails(text: string, table: char -> Option<Glyph>, capHeight: real, polygonFace: seq<Vec2> -> Region)
    requires TableWellFormed(table)
    ensures TextShape(text, table, capHeight, polygonFace).Failure?
      <==> text == [] || exists i :: 0 <= i < |text| && table(text[i]).None?
    ensures text == [] ==> TextShape(text, table, capHeight, polygonFace) == Failure(NoCharacters)
  {
    TextShapesSupported(text, table, TextScale(capHeight), polygonFace);
  }

  /** `_create_text_shape`: the glyph shapes collected by the cursor loop, then fused in order. */
  method CreateTextShape(text: string, table: char -> Option<Glyph>, capHeight: real, polygonFace: seq<Vec2> -> Region)
    returns (r: Result<Region, TextError>)
    requires TableWellFormed(table)
    ensures r == TextShape(text, table, capHeight, polygonFace)
  {
    var shapes := CollectGlyphShapes(text, table, capHeight / CapHeight, polygonFace);
    if shapes.Failure? {
      return Failure(shapes.error);
    }
    if shapes.value == [] {
      return Failure(NoCharacters);
    }
    var fused := FuseShapes(shapes.value);
    r := Success(fused);
  }

  /** The cursor loop of `_create_text_shape`: each character's glyph placed at the running cursor. */
  method CollectGlyphShapes(text: string, table: char -> Option<Glyph>, scale: real, polygonFace: seq<Vec2> -> Region)
    returns (r: Result<seq<Region>, TextError>)
    requires TableWellFormed(table)
    ensures r == TextShapes(text, table, scale, polygonFace)
  {
    var cursor := 0.0;
    var shapes: seq<Region> := [];
    for i := 0 to |text|
      invariant cursor == Cursor(text[..i], table, scale)
      invariant TextShapes(text[..i], table, scale, polygonFace) == Success(shapes)
    {
      var step;
      step, cursor := PlaceNextGlyph(text, i, table, cursor, scale, polygonFace, shapes);
      if step.Failure? {
        TextShapesFailureSticks(text, i + 1, table, scale, polygonFace);
        return step;
      }
      shapes := step.value;
    }
    assert text[..|text|] == text;
    r := Success(shapes);
  }

  /**
   * One turn of the cursor loop: character `i` is refused when the table
   * lacks it, else its glyph is placed at the cursor and the cursor moves on.
   */
  method PlaceNextGlyph(text: string, i: nat, table: char -> Option<Glyph>, cursor: real, scale: real,
                        polygonFace: seq<Vec2> -> Region, shapes: seq<Region>)
    returns (r: Result<seq<Region>, TextError>, next: real)
    requires TableWellFormed(table) && i < |text|
    requires cursor == Cursor(text[..i], table, scale)
    requires TextShapes(text[..i], table, scale, polygonFace) == Success(shapes)
    ensures r == TextShapes(text[..i + 1], table, scale, polygonFace)
    ensures r.Success? ==> next == Cursor(text[..i + 1], table, scale)
  {
    var ch := text[i];
    if table(ch).None? {
      TextShapesMissing(text, i, table, scale, polygonFace, shapes);
      return Failure(UnsupportedCharacter(ch)), cursor;
    }
    TextShapesAppend(text, i, table, scale, polygonFace, shapes);
    var shape := BuildGlyphFace(ch, table, cursor, scale, polygonFace);
    r := Success(shapes + [shape.value]);
    next := AdvanceCursor(cursor, table(ch).value.advance, scale);
  }

  /** A character the table lacks, met after a supported prefix, is the error of the text so far. */
  lemma TextShapesMissing(text: string, i: nat, table: char -> Option<Glyph>, scale: real,
                          polygonFace: seq<Vec2> -> Region, shapes: seq<Region>)
    requires TableWellFormed(table) && i < |text| && table(text[i]).None?
    requires TextShapes(text[..i], table, scale, polygonFace) == Success(shapes)
    ensures TextShapes(text[..i + 1], table, scale, polygonFace) == Failure(UnsupportedCharacter(text[i]))
  {
    assert text[..i + 1][..i] == text[..i];
  }

  /** A supported character extends the shapes by its glyph at the cursor, and moves the cursor. */
  lemma TextShapesAppend(text: string, i: nat, table: char -> Option<Glyph>, scale: real,
                         polygonFace: seq<Vec2> -> Region, shapes: seq<Region>)
    requires TableWellFormed(table) && i < |text| && table(text[i]).Some?
    requires TextShapes(text[..i], table, scale, polygonFace) == Success(shapes)
    ensures TextShapes(text[..i + 1], table, scale, polygonFace)
            == Success(shapes + [GlyphFace(text[i], table, Cursor(text[..i], table, scale), scale, polygonFace).value])
    ensures Cursor(text[..i + 1], table, scale)
            == AdvanceCursor(Cursor(text[..i], table, scale), table(text[i]).value.advance, scale)
  {
    assert text[..i + 1][..i] == text[..i];
  }

  /** The fuse loop: the first shape fused with each later one in turn. */
  method FuseShapes(shapes: seq<Region>) returns (result: Region)
    requires shapes != []
    ensures result == UnionAll(shapes)
  {
    result := shapes[0];
    assert shapes[..1][..0] == [];
    for i := 1 to |shapes|
      invariant result == UnionAll(shapes[..i])
    {
      assert shapes[..i + 1][..i] == shapes[..i];
      result := result + shapes[i];
    }
    assert shapes[..|shapes|] == shapes;
  }

  /** The cursor never moves back: each step adds a nonnegative advance plus the spacing at a positive scale. */
  lemma {:induction false} CursorMonotone(text: string, table: char -> Option<Glyph>, j: nat, k: nat, scale: real)
    requires TableWellFormed(table)
    requires j <= k <= |text| && scale > 0.0
    ensures Cursor(text[..j], table, scale) <= Cursor(text[..k], table, scale)
    decreases k - j
  {
    if j < k {
      CursorMonotone(text, table, j, k - 1, scale);
      assert text[..k][..k - 1] == text[..k - 1];
      PositiveProduct(Advance(text[k - 1], table) + Spacing, scale);
    }
  }

  /**
   * Glyphs never overlap horizontally: at a positive scale the right edge
   * of glyph j, its cursor plus its scaled advance, lies strictly left of
   * the cursor of every later glyph k.
   */
  lemma GlyphsDoNotOverlap(text: string, table: char -> Option<Glyph>, j: nat, k: nat, scale: real)
    requires TableWellFormed(table)
    requires j < k <= |text| && scale > 0.0
    ensures Cursor(text[..j], table, scale) + Advance(text[j], table) * scale < Cursor(text[..k], table, scale)
  {
    assert text[..j + 1][..j] == text[..j];
    PositiveProduct(Spacing, scale);
    assert (Advance(text[j], table) + Spacing) * scale == Advance(text[j], table) * scale + Spacing * scale;
    CursorMonotone(text, table, j + 1, k, scale);
  }

  /**
   * Every vertex handed to the kernel for glyph k lies in that glyph's
   * placed cell: from its cursor to the cursor plus its scaled advance, and
   * from the baseline to the cap height.
   */
  lemma GlyphVertexInSpan(text: string, table: char -> Option<Glyph>, k: nat, i: nat, j: nat, capHeight: real)
    requires TableWellFormed(table)
    requires k < |text| && table(text[k]).Some? && capHeight >= 0.0
    requires i < |table(text[k]).value.outers| && j < |table(text[k]).value.outers[i]|
    ensures var scale := TextScale(capHeight);
      var x := Cursor(text[..k], table, scale);
      var p := PlacePolygon(table(text[k]).value.outers[i], x, scale)[j];
      x <= p.x <= x + Advance(text[k], table) * scale && 0.0 <= p.y <= capHeight
  {
    var scale := TextScale(capHeight);
    var g := table(text[k]).value;
    assert InCell(g.outers[i][j], g.advance);
    PlacedInCell(g.outers[i][j], Cursor(text[..k], table, scale), scale, g.advance);
  }

  // ---------------------------------------------------------------------
  // The logo and the word
  // ---------------------------------------------------------------------

  /** The word laid out beside the logo. */
  const LogoWord: string := "TrailCurrent"

  /** Cap height and gap as fractions of the logo diameter. */
  const CapRatio: real := 0.55
  const GapRatio: real := 0.23

  /** Every character of the word has a glyph, so laying it out never raises. */
  lemma LogoWordSupported(capHeight: real, polygonFace: seq<Vec2> -> Region)
    ensures TableWellFormed(GlyphOf)
    ensures forall i :: 0 <= i < |LogoWord| ==> LogoWord[i] in Supported
    ensures TextShape(LogoWord, GlyphOf, capHeight, polygonFace).Success?
  {
    GlyphTableWellFormed();
    TextShapeFails(LogoWord, GlyphOf, capHeight, polygonFace);
  }

  /** Where the text's left edge goes: half the diameter plus the gap. */
  function TextStart(diameter: real): (x: real)
    ensures diameter > 0.0 ==> x > diameter / 2.0
  {
    diameter / 2.0 + diameter * GapRatio
  }

  /** The translation that puts the text at `TextStart` and centres its Y extent on the logo centre. */
  function TextOffset(diameter: real, yMin: real, yMax: real): (offset: Vec2)
    ensures (yMin + offset.y) + (yMax + offset.y) == 0.0
    ensures offset.x == TextStart(diameter)
  {
    Vec2(TextStart(diameter), -(yMin + yMax) / 2.0)
  }

  datatype LogoTextFaces = LogoTextFaces(logo: LogoFaces, text: Region)

  /** What `create_logotext_faces` returns: the logo faces and the placed word, or the error raised. */
  function LogoTextFacesOf(diameter: real, k: Kernel): Result<LogoTextFaces, TextError>
  {
    GlyphTableWellFormed();
    match LogoFacesOf(diameter, k)
    case Failure(e) => Failure(Logo(e))
    case Success(faces) =>
      match TextShape(LogoWord, GlyphOf, diameter * CapRatio, k.polygonFace)
      case Failure(e) => Failure(e)
      case Success(text) =>
        var (yMin, yMax) := k.boundsY(text);
        Success(LogoTextFaces(faces, k.translate(text, TextOffset(diameter, yMin, yMax))))
  }

  /** `create_logotext_faces`. */
  method CreateLogoTextFaces(diameter: real, k: Kernel) returns (r: Result<LogoTextFaces, TextError>)
    ensures r == LogoTextFacesOf(diameter, k)
  {
    var faces := CreateLogoFaces(diameter, k);
    if faces.Failure? {
      return Failure(Logo(faces.error));
    }
    var textCapHeight := diameter * CapRatio;
    GlyphTableWellFormed();
    var text := CreateTextShape(LogoWord, GlyphOf, textCapHeight, k.polygonFace);
    if text.Failure? {
      return Failure(text.error);
    }
    var (yMin, yMax) := k.boundsY(text.value);
    var offset := TextOffset(diameter, yMin, yMax);
    r := Success(LogoTextFaces(faces.value, k.translate(text.value, offset)));
  }

  /**
   * The logo-plus-text faces exist exactly when the logo faces do: the word
   * never fails, so the only errors are the logo generator's.
   */
  lemma LogoTextFacesDefined(diameter: real, k: Kernel)
    ensures LogoTextFacesOf(diameter, k).Success? <==> LogoFacesOf(diameter, k).Success?
    ensures LogoFacesOf(diameter, k).Failure? ==> LogoTextFacesOf(diameter, k) == Failure(Logo(LogoFacesOf(diameter, k).error))
  {
    LogoWordSupported(diameter * CapRatio, k.polygonFace);
  }

  /**
   * Every vertex of the word, moved by the text offset, lies strictly right
   * of the logo circle of a positive diameter.
   */
  lemma WordRightOfCircle(diameter: real, yMin: real, yMax: real, c: nat, i: nat, j: nat)
    requires diameter > 0.0 && c < |LogoWord|
    requires i < |GlyphOf(LogoWord[c]).value.outers| && j < |GlyphOf(LogoWord[c]).value.outers[i]|
    ensures var scale := TextScale(diameter * CapRatio);
      var p := PlacePolygon(GlyphOf(LogoWord[c]).value.outers[i], Cursor(LogoWord[..c], GlyphOf, scale), scale)[j];
      p.x + TextOffset(diameter, yMin, yMax).x > diameter / 2.0
  {
    var scale := TextScale(diameter * CapRatio);
    LogoWordSupported(diameter * CapRatio, x => iset{});
    GlyphVertexInSpan(LogoWord, GlyphOf, c, i, j, diameter * CapRatio);
    CursorMonotone(LogoWord, GlyphOf, 0, c, scale);
    assert LogoWord[..0] == [];
  }
}
