# TrailCurrent logo, text and QR relief: a Dafny model

This project models the geometry core of the TrailCurrent FreeCAD plugin. It
covers six Python modules.

- **`logo_geometry.py`** builds the four flat faces of the TrailCurrent icon:
  the circle, the mountain, the trail and the bolt. It maps the 48×48 SVG
  icon to local millimetres. It samples the trail's three quadratic Bezier
  curves into one centreline. It turns the trail and bolt strokes into closed
  outlines: left and right offsets, two semicircular caps, and the ring
  closed.
- **`logotext_geometry.py`** lays out the word "TrailCurrent" in block
  letters from a static glyph table. A cursor advances by each glyph's width
  plus a fixed spacing. The text is placed right of the logo circle.
- **`logo_deboss.py`** and **`logotext_deboss.py`**:
  - compute a coordinate frame on the chosen planar face and the 4×4 matrix
    that carries the flat design onto it;
  - isolate the logo layers so they do not overlap;
  - extrude each layer to its own depth, skipping layers shallower than
    1e-4 mm;
  - cut the tools out of a copy of the body, one after another;
  - `logotext_deboss.py` also rotates the in-plane axes first.
- **`qr_emboss.py`** merges each row of a QR module matrix into maximal runs
  of dark modules. It makes one rectangle per run, in a frame centred on the
  code. It computes the module size and the reported version, chooses the
  extrusion direction for emboss or deboss, and fuses or cuts.
- **`blender_command.py`** quotes words for a POSIX shell. It builds the
  Blender command's token list and joins it into the launcher line of
  `open_in_blender.sh`.

The FreeCAD geometry kernel is abstract here (`Shapes.Kernel`):
- A flat face is the set of points it covers (`iset<Vec2>`), and a solid
  likewise (`iset<Vec3>`).
- `cut` is set difference, `fuse` is union and `common` is intersection.
- Polygon and circle faces, `extrude`, `transformGeometry`/`transformShape`,
  the bounding box's Y extent and `translate` are function parameters.
- So are `math.hypot`, `math.cos` and `math.sin`.
- Each `Vector.normalize()` is multiplication by a positive factor
  (`ku`, `kv`, `kn`).

Numbers are `real`, so float rounding is not modelled.

The model takes the source's shape:
- Loops that append to lists are methods with loop invariants. Each is
  proved equal to a specification function (`SampleQuadraticBezier`,
  `TrailCenterline`, `BufferSides`, `CapPoints`, `CollectGlyphShapes`,
  `BuildTools`, `CutAll`, `MergeRow`, `MergeRuns`).
- The properties the code relies on are lemmas about those functions.

Two places where the docstrings and the code disagree follow the code:
- `logo_deboss._compute_face_frame` documents a `ValueError` for a
  non-planar face, but the code never raises one, so the model has no such
  error.
- `apply_qr` divides the size by the module count before it builds the
  solid. An empty matrix therefore fails with a division by zero rather
  than with "QR matrix produced no dark modules." (`QrEmboss.ApplyQr`).

## Model

| member | source | states |
|---|---|---|
| LogoGeometry.SvgCenterToOrigin | logo_geometry.py:43-45 | the SVG centre (24, 24) maps to the local origin |
| LogoGeometry.SvgToLocalFlipsY | logo_geometry.py:43-45 | with a positive scale, x order is kept and y order is reversed (lower in the SVG is higher on the face), both directions |
| LogoGeometry.RimToRadius | logo_geometry.py:173 | with scale = diameter / 44, the rim point (46, 24) lands on (diameter / 2, 0) |
| LogoGeometry.SvgToLocalScalesDistances | logo_geometry.py:43-45 | local differences are the SVG differences scaled with y flipped, so squared distances scale by scale² |
| LogoGeometry.SvgToLocalInjective | logo_geometry.py:43-45 | with a nonzero scale, distinct SVG points map to distinct local points |
| LogoGeometry.SvgToLocalZero | logo_geometry.py:43-45 | at scale 0 every point collapses to the origin |
| LogoGeometry.BezierEnds | logo_geometry.py:52-55 | the curve point at t = 0 is the start and at t = 1 the end |
| LogoGeometry.Samples | logo_geometry.py:48-57 | n samples give n + 1 points, the first the start point and the last the end point |
| LogoGeometry.SampleQuadraticBezier | logo_geometry.py:48-57 | the sampling loop returns exactly the points at t = i / n, i = 0..n |
| LogoGeometry.BezierWeightsSum | logo_geometry.py:53-55 | the weights (1-t)², 2(1-t)t and t² sum to one |
| LogoGeometry.SvgToLocalAffine | logo_geometry.py:43-45 | the SVG-to-local map commutes with combinations whose weights sum to one |
| LogoGeometry.SamplingCommutesWithSvgToLocal | logo_geometry.py:187-194 | sampling in SVG units and then mapping gives the samples of the mapped curve |
| LogoGeometry.TrailPointsShape | logo_geometry.py:187-192 | k curves sampled n times give k·n + 1 points, from the first start to the last end |
| LogoGeometry.TrailKeepsSamples | logo_geometry.py:187-192 | on joined curves every sample of every curve is in the centreline: only the duplicated join points are dropped |
| LogoGeometry.TrailCenterline | logo_geometry.py:187-192 | the concatenation loop returns the samples of each curve with every later curve's first sample dropped |
| LogoGeometry.LogoTrailCenterline | logo_geometry.py:187-192 | the icon's trail is 61 points from (10, 32) to (42, 26), and its curves are joined |
| LogoGeometry.LogoTrailEnds | logo_geometry.py:187-192 | the icon's centreline's first two and last two points are the right curve samples |
| LogoGeometry.ToLocal | logo_geometry.py:194 | the comprehension maps each point, keeping the count and order |
| LogoGeometry.SidesMirror | logo_geometry.py:81-104 | left and right have equal length; their j-th points are the offset added to and subtracted from the j-th kept centreline point, and kept points come in order |
| LogoGeometry.SidesAllKept | logo_geometry.py:93-104 | when no tangent is shorter than 1e-12, every centreline point gets its pair of offset points |
| LogoGeometry.OffsetOrthogonal | logo_geometry.py:99-104 | the offset (-dy, dx)·w is orthogonal to the tangent (dx, dy) |
| LogoGeometry.BufferSides | logo_geometry.py:81-104 | the offset loop builds exactly the left and right sides, skipping a point whose tangent is too short |
| LogoGeometry.Cap | logo_geometry.py:113-122 | a cap has cap_segments − 1 points, and none for fewer than two segments |
| LogoGeometry.CapPoints | logo_geometry.py:113-140 | the cap loop over range(1, cap_segments) returns exactly the cap points |
| LogoGeometry.CapsMeetSides | logo_geometry.py:106-140 | at the angles the caps leave out, the end cap sits on the last left and right points and the start cap on the first ones |
| LogoGeometry.Reverse | logo_geometry.py:143 | reversal keeps the length and reads the list back to front |
| LogoGeometry.BufferPolygonShape | logo_geometry.py:74-144 | fewer than two points give the empty outline; the outline fails exactly when the first or the last segment has zero length; otherwise it has two points per kept centreline point plus two caps of cap_segments − 1 points |
| LogoGeometry.BufferPath | logo_geometry.py:60-144 | `_buffer_path`'s steps compute that outline or that division-by-zero error |
| LogoGeometry.CloseRing | logo_geometry.py:147-152 | the ring is the polygon with its first vertex appended, so it is closed; an empty polygon raises |
| LogoGeometry.StrokeOutline | logo_geometry.py:194-197 | a stroke is mapped to local units, buffered at half the scaled width and closed |
| LogoGeometry.StrokeRingDefined | logo_geometry.py:106-129 | a stroke's ring exists exactly when its first two and last two points differ; otherwise it is a division by zero |
| LogoGeometry.AssembleFaces | logo_geometry.py:176-205 | the circle face is kept; mountain, trail and bolt are clipped inside it; a failing stroke's error is passed on, the trail's first |
| LogoGeometry.BuildFaces | logo_geometry.py:173-211 | the face construction after the trail points computes the faces of the given polygons and strokes |
| LogoGeometry.CreateLogoFaces | logo_geometry.py:159-212 | `create_logo_faces` returns the icon's faces or the error raised |
| LogoGeometry.FacesFromDefined | logo_geometry.py:159-212 | in the model, with strokes whose end segments are nonzero, the faces exist exactly when the diameter is nonzero |
| LogoGeometry.LogoFacesDefined | logo_geometry.py:159-212 | in the model, for the icon, the faces exist exactly when the diameter is nonzero; a zero diameter fails with a division by zero |
| LogoTextGeometry.GlyphOf | logotext_geometry.py:34-84 | the table has a glyph exactly for the ten characters T, C, r, a, i, l, u, e, n, t |
| LogoTextGeometry.GlyphTableWellFormed | logotext_geometry.py:34-84 | every glyph has a positive width and an outer polygon; every outer and hole point lies in x ∈ [0, advance] and y ∈ [0, 10] |
| LogoTextGeometry.GlyphWellFormed | logotext_geometry.py:34-84 | the same, glyph by glyph |
| LogoTextGeometry.PlacePolygon | logotext_geometry.py:100 | each point is mapped to (x·scale + x_offset, y·scale), keeping the count |
| LogoTextGeometry.PlacementIsScaleAndShift | logotext_geometry.py:100 | placement is a uniform scale plus a horizontal shift: differences are only scaled |
| LogoTextGeometry.PlacedInCell | logotext_geometry.py:113 | a point of a glyph's cell lands in the placed cell [x_offset, x_offset + advance·scale] × [0, 10·scale] |
| LogoTextGeometry.GlyphFace | logotext_geometry.py:91-117 | a glyph face fails exactly for a character with no glyph (naming it) or a glyph with no outer polygon |
| LogoTextGeometry.GlyphFaceParts | logotext_geometry.py:106-115 | a point is in the glyph face exactly when it is in some outer face and in no hole face |
| LogoTextGeometry.BuildGlyphFace | logotext_geometry.py:91-117 | the fuse and cut loops compute that glyph face |
| LogoTextGeometry.CursorIsScaledSum | logotext_geometry.py:126-136 | glyph k's cursor is scale · Σ_{j<k}(advance_j + 1.0) |
| LogoTextGeometry.TextShapesFailureSticks | logotext_geometry.py:130-132 | once a character is unsupported, the whole text fails with that error |
| LogoTextGeometry.TextShapesSupported | logotext_geometry.py:130-136 | the glyph shapes are collected exactly when every character has a glyph |
| LogoTextGeometry.TextShapesPlaced | logotext_geometry.py:130-136 | collected shape k is glyph k placed at the cursor of the characters before it |
| LogoTextGeometry.UnsupportedCharacterNamed | logotext_geometry.py:130-132 | the first character without a glyph is the one named in the error |
| LogoTextGeometry.TextShapeFails | logotext_geometry.py:130-139 | the text fails exactly when it is empty or holds an unsupported character; empty text fails with "No characters produced geometry." |
| LogoTextGeometry.CreateTextShape | logotext_geometry.py:120-145 | `_create_text_shape` returns the fused glyph shapes or the error it raises |
| LogoTextGeometry.CollectGlyphShapes | logotext_geometry.py:126-136 | the cursor loop collects the placed glyph shapes in order, or stops at the first unsupported character |
| LogoTextGeometry.PlaceNextGlyph | logotext_geometry.py:131-136 | one pass of the loop extends the collected shapes and moves the cursor by (advance + 1.0)·scale |
| LogoTextGeometry.FuseShapes | logotext_geometry.py:141-143 | the fuse loop gives the union of all the shapes |
| LogoTextGeometry.CursorMonotone | logotext_geometry.py:136 | at a positive scale the cursor never moves back |
| LogoTextGeometry.GlyphsDoNotOverlap | logotext_geometry.py:135-136 | glyph j's right edge, its cursor plus advance·scale, lies strictly left of every later glyph's cursor |
| LogoTextGeometry.GlyphVertexInSpan | logotext_geometry.py:130-136 | every vertex of glyph k lies between its cursor and its right edge, and between the baseline and the cap height |
| LogoTextGeometry.LogoWordSupported | logotext_geometry.py:174 | every character of "TrailCurrent" has a glyph, so laying it out succeeds |
| LogoTextGeometry.TextStart | logotext_geometry.py:170-172 | the text starts right of the circle's radius for a positive diameter |
| LogoTextGeometry.TextOffset | logotext_geometry.py:179-181 | the offset starts the text at d/2 + 0.23·d and centres its Y extent on y = 0 |
| LogoTextGeometry.CreateLogoTextFaces | logotext_geometry.py:152-184 | `create_logotext_faces` returns the logo faces and the placed word, or the error raised |
| LogoTextGeometry.LogoTextFacesDefined | logotext_geometry.py:167-174 | the logo-and-text faces exist exactly when the logo faces do, and otherwise carry the logo's error |
| LogoTextGeometry.WordRightOfCircle | logotext_geometry.py:170-181 | every vertex of the placed word lies strictly right of the logo circle's radius |
| LogoDeboss.SeedAxis | logo_deboss.py:40-49 | the seed is the world axis with the smallest absolute normal component, ties going to X, then Y, then Z |
| LogoDeboss.ComputeFaceFrame | logo_deboss.py:25-56 | the frame uses the surface axis when there is one, else the sampled normal, and centres on the centre of mass |
| LogoDeboss.FrameOrthogonal | logo_deboss.py:51-54 | u is orthogonal to the normal, and v to both the normal and u |
| LogoDeboss.FrameNonDegenerate | logo_deboss.py:51-52 | for a nonzero normal, u = normal × seed is nonzero |
| LogoDeboss.FrameRightHanded | logo_deboss.py:51-54 | u × v points along the normal |
| LogoDeboss.BuildTransform | logo_deboss.py:59-82 | the matrix maps the local origin to the centre |
| LogoDeboss.PlacementIsLocalOffset | logo_deboss.py:124-125 | placement = centre + x_offset·u + y_offset·v, which stays in the face plane |
| LogoDeboss.LocalZIntoBody | logo_deboss.py:74-77 | a local point at height z lands z·\|normal\|² against the normal, into the body |
| LogoDeboss.IsolateLayers | logo_deboss.py:135-143 | the bolt is unchanged; each layer misses every higher-priority face; the union of the four layers equals the union of the faces |
| LogoDeboss.IsolatedLayersDisjoint | logo_deboss.py:135-143 | the four isolated layers are pairwise disjoint |
| LogoDeboss.LogoDepths | logo_deboss.py:148-153 | the circle is cut total_depth deep and each other layer total_depth·ratio, without clamping |
| LogoDeboss.LayerDepthBounded | logo_deboss.py:148-153 | with a nonnegative total_depth and every ratio in [0, 1], every layer depth lies in [0, total_depth] |
| LogoDeboss.LayerDepthUnchecked | logo_deboss.py:148-153 | the ratios are not validated: with a positive total_depth, a ratio above 1 cuts its layer deeper than the circle |
| LogoDeboss.ToolsAppend | logo_deboss.py:162-171 | the tools of concatenated layer lists are the concatenated tools, in order |
| LogoDeboss.ToolsSkip | logo_deboss.py:164-166 | a layer shallower than 1e-4 contributes no tool |
| LogoDeboss.ToolsAllKept | logo_deboss.py:162-171 | when no layer is too shallow, tool i is layer i extruded to its depth and placed |
| LogoDeboss.BuildTools | logo_deboss.py:162-171 | the extrusion loop builds exactly those tools, never more than the layers |
| LogoDeboss.CutAll | logo_deboss.py:176-178 | cutting in sequence leaves the body minus the union of the tools, inside the body and disjoint from every tool |
| LogoDeboss.LogoRelief | logo_deboss.py:176-180 | the result lies within the body and misses every tool |
| LogoDeboss.PlaceLogo | logo_deboss.py:119-126 | the frame, the offset placement and the matrix are the transform `apply_logo` places the logo with |
| LogoDeboss.CutLogoLayers | logo_deboss.py:133-180 | the isolated layers, depths, tools and sequential cuts compute the relief for a given matrix |
| LogoDeboss.CutLogo | logo_deboss.py:128-180 | with the matrix built, the generated faces cut into the body give the relief placed by that matrix, or the generator's error |
| LogoDeboss.LogoDebossOf | logo_deboss.py:131-180 | the deboss fails exactly when the logo faces do, with their error; otherwise it lies within the body |
| LogoDeboss.ApplyLogo | logo_deboss.py:85-180 | `apply_logo` returns the logo relief of the body, or the logo generator's error |
| LogoDeboss.ShallowLogoLeavesBody | logo_deboss.py:163-166 | when every depth is below 1e-4 no tool is built |
| LogoTextDeboss.RotateAxes | logotext_deboss.py:57-62 | a zero rotation leaves u and v unchanged |
| LogoTextDeboss.RotationKeepsFrame | logotext_deboss.py:58-62 | with orthonormal u, v and cos² + sin² = 1, the rotated axes are orthonormal and still orthogonal to the normal |
| LogoTextDeboss.LogoTextMatrix | logotext_deboss.py:56-65 | the placement offsets are applied along the rotated axes |
| LogoTextDeboss.LogoTextPlacement | logotext_deboss.py:56-65 | with rotation 0 the matrix is the logo deboss's matrix |
| LogoTextDeboss.LogoTextDepths | logotext_deboss.py:89-95 | the depth table is the logo's plus text = total_depth·text_ratio |
| LogoTextDeboss.LogoTextLayers | logotext_deboss.py:73-103 | the layers are the logo's isolated layers in order, followed by the text face as-is |
| LogoTextDeboss.TextLayerDisjoint | logotext_deboss.py:83-84 | the text layer is not cut against the logo: it misses the other layers exactly when the text face misses the four logo faces |
| LogoTextDeboss.LogoTextRelief | logotext_deboss.py:117-121 | the result lies within the body and misses every tool |
| LogoTextDeboss.PlaceLogoText | logotext_deboss.py:53-65 | the frame, turned by a nonzero rotation, the offset placement and the matrix are the transform `apply_logotext` places with |
| LogoTextDeboss.CutLogoTextLayers | logotext_deboss.py:72-121 | the five layers, depths, tools and sequential cuts compute the relief for a given matrix |
| LogoTextDeboss.CutLogoText | logotext_deboss.py:67-121 | with the matrix built, the generated faces cut into the body give the relief placed by that matrix, or the generator's error |
| LogoTextDeboss.LogoTextDebossOf | logotext_deboss.py:70-121 | it fails exactly when the faces do, with their error; otherwise it lies within the body |
| LogoTextDeboss.ApplyLogoText | logotext_deboss.py:18-121 | `apply_logotext` returns the relief or the faces' error |
| LogoTextDeboss.LogoTextExtendsLogo | logotext_deboss.py:97-112 | the tools are the logo deboss's tools followed by the text tool when it is deep enough |
| LogoTextDeboss.LogoTextReliefWithinLogo | logotext_deboss.py:117-121 | the logo-and-text relief removes at least what the logo relief removes |
| LogoTextDeboss.SameDepthsSameTools | logotext_deboss.py:106-112 | tools depend only on the depths of the layers present |
| QrEmboss.ErrorCorrection | qr_emboss.py:59 | any key other than L, M, Q or H falls back to M |
| QrEmboss.ErrorCorrectionOfLabel | qr_emboss.py:26-31 | each level's own label selects that level |
| QrEmboss.ScanRun | qr_emboss.py:150-152 | the inner loop stops at the first light module or the row's end, having passed dark modules only |
| QrEmboss.MergeRow | qr_emboss.py:147-160 | one row's scan appends its maximal dark runs in order, covering exactly its dark modules, no more runs than dark modules |
| QrEmboss.MergeRowCovers | qr_emboss.py:146-160 | appending a row's runs keeps every earlier row covered exactly where it is dark |
| QrEmboss.MergeRuns | qr_emboss.py:145-161 | the nested loops yield the maximal dark runs, dark-only, in row-major order, covering exactly the dark modules, never more runs than dark modules, and none exactly when no module is dark |
| QrEmboss.MergedRunsDecompose | qr_emboss.py:145-163 | what the loops establish is a run decomposition, empty exactly when no module is dark |
| QrEmboss.EmptyIffNoDark | qr_emboss.py:162-163 | a decomposition is empty exactly when the matrix has no dark module |
| QrEmboss.MaximalRunsMeet | qr_emboss.py:148-158 | two maximal dark runs that share a module are the same run |
| QrEmboss.RunDecompositionUnique | qr_emboss.py:145-160 | the run decomposition of a matrix is unique |
| QrEmboss.DropLast | qr_emboss.py:145-160 | dropping the last run decomposes the matrix with that run's modules made light |
| QrEmboss.ModuleSize | qr_emboss.py:140 | the module size is nonnegative, and positive for a positive side |
| QrEmboss.ModuleSizeFills | qr_emboss.py:140 | n modules fill the side exactly |
| QrEmboss.RunRectInside | qr_emboss.py:153-157 | a run's rectangle lies in [−size/2, size/2]², is one module high and as wide as the run, and row 0 touches the top |
| QrEmboss.Rects | qr_emboss.py:145-158 | one rectangle per run, in order |
| QrEmboss.CreateQrSolid | qr_emboss.py:126-181 | nothing for an empty matrix or one without dark modules; otherwise the rectangles of the unique run decomposition, extruded from −overlap to height |
| QrEmboss.QrVersionOffByOne | qr_emboss.py:234 | the formula as written reports a 21-module (version 1) symbol as version 2 |
| QrEmboss.QrVersion | qr_emboss.py:234 | the corrected version v satisfies 17 + 4v + 2·border ≤ n < 17 + 4(v+1) + 2·border |
| QrEmboss.QrVersionInverts | qr_emboss.py:234 | the corrected formula gives back v for n = 17 + 4v + 2·border |
| QrEmboss.QrFaceFrame | qr_emboss.py:75-100 | the frame's normal is the normalised sampled normal; u, v and the normal are mutually orthogonal, and u is nonzero for a nonzero normal |
| QrEmboss.QrTransformDirection | qr_emboss.py:103-119 | emboss maps local +Z along the normal and deboss along −normal, the same matrix as the logo deboss |
| QrEmboss.Relief | qr_emboss.py:260-264 | emboss keeps the body and adds the code; deboss stays within the body and misses the code |
| QrEmboss.ApplyQr | qr_emboss.py:231-266 | an empty matrix divides by zero; no dark module raises; otherwise the relief of the run rectangles with the module size |
| BlenderCommand.Escape | blender_command.py:87 | each single quote becomes the four characters '\'' , so the length grows by 3 per quote |
| BlenderCommand.ShellQuote | blender_command.py:83-87 | a nonempty string of alphanumerics and -_./=: is unchanged, and only such a string; the empty string becomes ''; anything else is wrapped in quotes, with length \|s\| + 2 + 3·quotes |
| BlenderCommand.QuotedWord | blender_command.py:83-87 | a POSIX shell reads the quoted word back as the original string |
| BlenderCommand.ShellQuoteInjective | blender_command.py:83-87 | distinct strings are quoted differently |
| BlenderCommand.LauncherLineRoundTrip | blender_command.py:291 | the shell reads the launcher line back as exactly the command's tokens |
| BlenderCommand.BashCommandRoundTrip | blender_command.py:313 | the fallback command reads back as bash and the launcher path |
| BlenderCommand.NatToString | blender_command.py:250-251 | str of a natural number is a nonempty string of digits with no leading zero; it starts with 0 only for 0 |
| BlenderCommand.NatToStringRoundTrip | blender_command.py:250-251 | reading the digits back gives the number |
| BlenderCommand.Resolution | blender_command.py:217-224 | indices 0–3 select the four presets, and any other index falls back to 1920 × 1080 |
| BlenderCommand.MaterialKey | blender_command.py:226-230 | Python list indexing into the five material keys, in order; a negative index i gives the key at 5 + i, and one outside −5..4 raises |
| BlenderCommand.BlenderCommand | blender_command.py:215-253 | the command fails exactly when the material index raises; otherwise it is 17 tokens |
| BlenderCommand.ParseOptionsCons | blender_command.py:243-253 | an option followed by its values parses as that group |
| BlenderCommand.ScriptOptions | blender_command.py:246-253 | the script arguments group into the six options, each followed by its values, two for --resolution |
| BlenderCommand.BlenderCommandOptions | blender_command.py:243-253 | token 0 is the Blender path, then --python with the script, then --; the rest groups into the six options with the STL path, material key, colour (the default when there is none), resolution pair, samples and focal length |

## Left out

- The FreeCAD geometry kernel is not modelled. Faces and solids are point
  sets. `makePolygon`, `makeCircle`, `Face`, `extrude`,
  `transformGeometry`/`transformShape`, `BoundBox` and `translate` are
  uninterpreted parameters, so no claim concerns real B-rep topology.
- In the model no kernel call fails: `makePolygon`, `makeCircle`, `Face`,
  `extrude`, `common`, `cut`, `fuse` and the transforms are total, and so is
  `normalize()` of a null vector. FreeCAD can raise on a degenerate circle,
  polygon or solid; the model raises only the errors the plugin's own code
  raises, such as a division by zero, an empty polygon, an unsupported
  character or a QR matrix with no dark module.
- LogoGeometry.FacesFromDefined: the "faces exist exactly when the diameter
  is nonzero" claim relies on that totality. `makeCircle(diameter / 2)`, the
  circle `Face` and the mountain polygon (logo_geometry.py:176-183) run
  before the trail cap; with a negative radius or a collapsed polygon
  FreeCAD may raise there first.
- LogoGeometry.LogoFacesDefined: the same assumption, for the icon's own
  strokes.
- Floating point is not modelled: numbers are exact reals. `math.hypot`,
  `math.cos`, `math.sin` and the square root inside `normalize()` are
  parameters. Normalisation is a positive rescaling, so unit length is
  assumed where a lemma needs it (`LogoTextDeboss.RotationKeepsFrame`).
- The exact positions of the cap points are not modelled, only their count
  and order.
- `math.pi` is the literal 3.141592653589793, in `math.radians` and in the cap angles.
- QR encoding is not modelled. `generate_qr_matrix` and the `qrcode`
  package take the matrix as an input; the model requires it to be square.
- Console messages are left out: the version and module-size report and
  the small-module warning in `apply_qr`. The QR version is computed only
  for that report, so `QrEmboss.ApplyQr` does not compute it; its `border`
  parameter is kept for the signature. The version formula itself is
  modelled and discussed under "Findings". So is the Blender launch dialog.
- The I/O of `blender_command.py` is left out: `_find_blender`,
  `_export_stl`, writing the launcher file, `chmod` and `subprocess`.
  The object's formatted shape colour and the text of the focal length are
  inputs.
- The FreeCAD task panels and registration (`logo_command.py`,
  `logotext_command.py`, `qr_command.py`, `InitGui.py`, `locator.py`) are
  not part of this model.
- `blender_studio_template.py` is not part of this model. The model only
  uses the way its argument parser groups options.
- BlenderCommand.IsAlnum: Python's `str.isalnum` accepts Unicode letters
  and digits. The model accepts ASCII only, so a non-ASCII alphanumeric
  word is quoted where the source would leave it bare. The round trip
  holds either way.
- BlenderCommand.ShellQuote inherits that ASCII-only test: its bare/quoted
  decision differs from `shlex.quote` on non-ASCII alphanumeric words.
- BlenderCommand.ReadFrom covers only the shell syntax the quoting
  produces: blanks, single quotes, backslash and the safe characters. It is
  not a complete POSIX word parser. It reads `=` as an ordinary safe
  character, as `shlex.quote` does; bash would take a bare first word of
  the form `NAME=value` as a variable assignment. The first word of the
  launch line is the Blender path (blender_command.py:243), so the round
  trip is claimed for the words as arguments, not for that case.
- LogoGeometry.SampleQuadraticBezier: requires n ≥ 1. At n = 0 the source
  divides by zero, and no caller passes 0.
- LogoTextGeometry.GlyphVertexInSpan: the claim is stated for the vertices
  handed to the kernel, not for every point of the kernel's face.
- LogoTextGeometry.WordRightOfCircle is likewise about vertices only.
- LogoTextGeometry.PlaceNextGlyph states the new cursor only when the step
  succeeds. After an unsupported character the loop returns, and the cursor
  is no longer used.
- The error `_make_face_from_polygon` raises for an empty point list is
  modelled (`LogoGeometry.CloseRing`). It cannot occur for glyph polygons,
  which the table keeps nonempty.
- The "has no outer polygons" error of `_build_glyph_face` is modelled
  (`LogoTextGeometry.GlyphFace`). It cannot occur with the table as written
  (`LogoTextGeometry.GlyphTableWellFormed`).
- The glyph table is passed to the text functions as a parameter with the
  well-formedness they rely on. `GlyphOf` is the table as written.

## Findings

| source | as written | input that shows it | evidently intended | confidence | as-written member | corrected member |
|---|---|---|---|---|---|---|
| qr_emboss.py:234 | `qr_version = (n - 2 * border - 17) // 4 + 1` | a version-1 symbol with border 2 has n = 21 + 4 = 25 modules, and the formula gives 2 | a side of 17 + 4·v modules (ISO/IEC 18004, section 5.3.1) is version v, so `(n - 2 * border - 17) // 4` | not executed | QrEmboss.QrVersionAsWritten, QrEmboss.QrVersionOffByOne | QrEmboss.QrVersion, QrEmboss.QrVersionInverts |
