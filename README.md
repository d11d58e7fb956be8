# ludum35 level and player logic in Dafny

This project models the game logic of the Ludum Dare 35 entry "ludum35" and proves properties of it. Five pieces are covered:

- **SVG path decoder** (`BodyCreatingPathHandler`). A callback-driven state machine. Path commands move a current `location`, append transformed points to `polyPoints`, and `closePath` closes the ring, rebases it to the body origin and emits one fixture per triangulated shape.
  - `path_decoder.dfy` holds the value-level specification: one function per command, plus `Step`, `Run` and `Decode`.
  - `path_handler.dfy` holds the class `BodyCreatingPathHandler`, whose methods update its fields and are proved against that specification.
- **Level assembler** (`SVGLevelActor`). Covers calibration from the `screen` rectangle, the y-flipping view matrix and SVG `transform` composition. It also covers the recursive walk of the Physics layer (one body per `path` and `rect`), marker lookup on the Meta layer by exact label and by label prefix, `fp:` physics-property tokens, `fill`/`fill-opacity` style tokens, rectangle corners, circle radii and arc-angle mirroring.
  - `svg_document.dfy`: XML elements.
  - `svg_shapes.dfy`: transforms and shapes.
  - `svg_level.dfy`: the constructor as a function `Assemble`.
  - `level_actor.dfy`: the class `SvgLevelActor`, whose `Load`, `ParseGroup` and `DoRemove` change the game world.
  - `game_world.dfy`: the world, as a body registry and an actor list.
- **Player** (`PlayerActor`). Contact classification with per-flag timestamps and a 0.2 s time-to-live, the three shape modes and their profiles, steering and jumping in each mode, the key-to-mode mapping and the out-of-bounds kill check (`player.dfy`).
- **Goal zone** (`WinboxActor`). The hit-time timer with its sentinel and the sensor box it builds (`winbox.dfy`).
- **Level sampling** (`Level`). Rejection sampling inside the playable box and on the border (`level.dfy`).

Shared support:

- `geometry.dfy`: vectors, rectangles and AWT-style affine maps.
- `java_text.dfy`: Java's `String.split` on one character.
- `body_building.dfy`: the `BodyBuilder` calls a body records.
- `wrappers.dfy`: `Option` and `Result`.

Floats are modelled as reals. Library code the game calls is passed in as functions, because it is not part of this model:
- Batik's path and transform parsers;
- `Float.parseFloat`;
- `Color.valueOf`;
- `PolyRenderer.createPolyShape` triangulation;
- `Vector2.dst`;
- `GameRules.LEVEL_HEIGHT`.

The random source of `Level` is a supplied sequence of unit draws. Box2D contacts are inputs, and forces, impulses and torques are recorded as output effects.

## Model

Source paths are relative to the repository root; every Java file is under `core/src/main/java/de/doccrazy/ld35/game/actor/`.

| member | source | states |
|---|---|---|
| Geometry.ApplyProduct | core/src/main/java/de/doccrazy/ld35/game/actor/SVGLevelActor.java:66-70 | applying a product of affine maps equals applying the right factor first, then the left one (the meaning of AWT `translate`/`scale` on a matrix) |
| Geometry.ApplyPreConcatenate | core/src/main/java/de/doccrazy/ld35/game/actor/SVGLevelActor.java:112-113 | after `t.preConcatenate(u)`, applying the result to a point equals applying `t` and then `u` |
| Geometry.IdentityNeutral | core/src/main/java/de/doccrazy/ld35/game/actor/SVGLevelActor.java:156 | the fresh `AffineTransform` is a two-sided neutral element of composition |
| Geometry.ApplyPairSum | core/src/main/java/de/doccrazy/ld35/game/actor/SVGLevelActor.java:244-247 | an affine map preserves equal pair sums, so transformed corners still satisfy p0+p2 = p1+p3 |
| Geometry.ApplyMidpoint | core/src/main/java/de/doccrazy/ld35/game/actor/SVGLevelActor.java:228-231 | the midpoint of two transformed points is the transformed midpoint |
| JavaText.Pieces | core/src/main/java/de/doccrazy/ld35/game/actor/SVGLevelActor.java:62 | cutting a string at every delimiter gives at least one piece |
| JavaText.PiecesJoin | core/src/main/java/de/doccrazy/ld35/game/actor/SVGLevelActor.java:62 | joining the pieces with the delimiter gives back the original string, and no piece contains the delimiter |
| JavaText.DropTrailingEmpty | core/src/main/java/de/doccrazy/ld35/game/actor/SVGLevelActor.java:216 | the result is a prefix of the input that does not end in an empty string, and only empty strings were dropped |
| JavaText.Split | core/src/main/java/de/doccrazy/ld35/game/actor/SVGLevelActor.java:141-143 | `split` on a string without the delimiter is the string alone; otherwise it is the pieces up to the last non-empty one: a prefix of the pieces ending in a non-empty piece, with only empty pieces after it; no field contains the delimiter |
| BodyBuilding.FixtureCalls | core/src/main/java/de/doccrazy/ld35/game/actor/BodyCreatingPathHandler.java:64-70 | one `fixShape` per compiled shape, and one `newFixture` per shape except the first shape while `initial` is set |
| BodyBuilding.FixtureCallsKeepDiscipline | core/src/main/java/de/doccrazy/ld35/game/actor/BodyCreatingPathHandler.java:64-70 | if a body's calls had one more `fixShape` than `newFixture` (or none at all, exactly when `initial`), the fixture loop keeps that discipline, and `initial` stays set iff nothing was added |
| GameWorld.World.Build | core/src/main/java/de/doccrazy/ld35/game/actor/SVGLevelActor.java:125 | building a body appends its draft to the world and returns its fresh handle; destroyed bodies and actors are untouched |
| GameWorld.World.DestroyBody | core/src/main/java/de/doccrazy/ld35/game/actor/SVGLevelActor.java:352 | destroying adds the handle to the destroyed set and changes nothing else |
| GameWorld.World.AddActor | core/src/main/java/de/doccrazy/ld35/game/actor/SVGLevelActor.java:94 | adding an actor appends it to the actor list and changes nothing else |
| PathDecoder.Subdivisions | core/src/main/java/de/doccrazy/ld35/game/actor/BodyCreatingPathHandler.java:139 | the `(int)` cast of 4·len is floor(4·len) for a nonnegative length, and 0 when len < 0.25 |
| PathDecoder.CubicAtOne | core/src/main/java/de/doccrazy/ld35/game/actor/BodyCreatingPathHandler.java:143 | the cubic Bézier at t = 1 is its end point |
| PathDecoder.CubicPoints | core/src/main/java/de/doccrazy/ld35/game/actor/BodyCreatingPathHandler.java:141-145 | the loop emits exactly n points, and when n > 0 the last one is the curve's end point |
| PathDecoder.CloseRing | core/src/main/java/de/doccrazy/ld35/game/actor/BodyCreatingPathHandler.java:54-57 | the ring keeps all points and gains the start point exactly when the last point is more than 0.001 away from it in x or y; afterwards the last point is within 0.001 of the start |
| PathDecoder.Rebase | core/src/main/java/de/doccrazy/ld35/game/actor/BodyCreatingPathHandler.java:59-62 | every rebased point plus the origin is the original point |
| PathDecoder.CloseSucceeds | core/src/main/java/de/doccrazy/ld35/game/actor/BodyCreatingPathHandler.java:52-73 | closing a non-empty subpath with a start point empties the point list, clears the start point, appends the fixture calls for the triangulated shapes and clears `initial` once a shape was added |
| PathDecoder.CloseFailsIff | core/src/main/java/de/doccrazy/ld35/game/actor/BodyCreatingPathHandler.java:54 | `closePath` fails exactly when the point list is empty or no start point is set |
| PathDecoder.StepKeepsConsistent | core/src/main/java/de/doccrazy/ld35/game/actor/BodyCreatingPathHandler.java:76-102 | every command keeps the decoder invariant: a start point implies a body, the body sits at the origin, it has one `newFixture` fewer than shapes, and `initial` holds iff it has no shape yet |
| PathDecoder.RunKeepsConsistent | core/src/main/java/de/doccrazy/ld35/game/actor/BodyCreatingPathHandler.java:38-159 | a whole command sequence keeps the decoder invariant |
| PathDecoder.DecodeFixtureDiscipline | core/src/main/java/de/doccrazy/ld35/game/actor/BodyCreatingPathHandler.java:64-70 | after a decoded path, `newFixture` was called once for every compiled shape except the first, and the body sits at the origin of the first move |
| PathDecoder.RelativeIsAbsoluteFromLocation | core/src/main/java/de/doccrazy/ld35/game/actor/BodyCreatingPathHandler.java:149-152 | a relative move, line, arc or curve behaves as the absolute command whose coordinates are offset by the current location |
| PathHandling.BodyCreatingPathHandler.constructor | core/src/main/java/de/doccrazy/ld35/game/actor/BodyCreatingPathHandler.java:27-31 | a new handler is at the origin with no points, no start point and no builder |
| PathHandling.BodyCreatingPathHandler.StartPath | core/src/main/java/de/doccrazy/ld35/game/actor/BodyCreatingPathHandler.java:38-44 | empties the point list, puts `location` at (0,0) and clears the start point and the builder |
| PathHandling.BodyCreatingPathHandler.MovetoRel | core/src/main/java/de/doccrazy/ld35/game/actor/BodyCreatingPathHandler.java:76-88 | adds (x,y) to `location`, appends no point, and sets start point and origin only when unset, as the decoder function does |
| PathHandling.BodyCreatingPathHandler.MovetoAbs | core/src/main/java/de/doccrazy/ld35/game/actor/BodyCreatingPathHandler.java:91-102 | sets `location` to (x,y), appends no point, and sets start point and origin only when unset |
| PathHandling.BodyCreatingPathHandler.LinetoRel | core/src/main/java/de/doccrazy/ld35/game/actor/BodyCreatingPathHandler.java:105-109 | adds (x,y) to `location` and appends exactly the transformed new location |
| PathHandling.BodyCreatingPathHandler.LinetoAbs | core/src/main/java/de/doccrazy/ld35/game/actor/BodyCreatingPathHandler.java:112-116 | sets `location` and appends exactly the transformed new location |
| PathHandling.BodyCreatingPathHandler.CurvetoCubicRel | core/src/main/java/de/doccrazy/ld35/game/actor/BodyCreatingPathHandler.java:119-122 | a relative cubic curve is the curve relative to the current location |
| PathHandling.BodyCreatingPathHandler.CurvetoCubicAbs | core/src/main/java/de/doccrazy/ld35/game/actor/BodyCreatingPathHandler.java:125-128 | an absolute cubic curve is the curve relative to (0,0) |
| PathHandling.BodyCreatingPathHandler.CubicCurve | core/src/main/java/de/doccrazy/ld35/game/actor/BodyCreatingPathHandler.java:130-146 | the flattening loop leaves `location` at the untransformed end point and the state equal to the decoder's curve step, so it appends floor(4·len) points ending at the end point |
| PathHandling.BodyCreatingPathHandler.ArcRel | core/src/main/java/de/doccrazy/ld35/game/actor/BodyCreatingPathHandler.java:149-152 | ignores radii, rotation and flags and appends only the transformed end point location + (x,y) |
| PathHandling.BodyCreatingPathHandler.ArcAbs | core/src/main/java/de/doccrazy/ld35/game/actor/BodyCreatingPathHandler.java:155-159 | ignores radii, rotation and flags and appends only the transformed end point |
| PathHandling.BodyCreatingPathHandler.ClosePath | core/src/main/java/de/doccrazy/ld35/game/actor/BodyCreatingPathHandler.java:52-73 | reports failure and changes nothing when the decoder's close fails; otherwise reaches the decoder's closed state with an empty point list and no start point |
| PathHandling.BodyCreatingPathHandler.CloseSubpath | core/src/main/java/de/doccrazy/ld35/game/actor/BodyCreatingPathHandler.java:54-72 | for a non-empty subpath with a start point, the in-place ring closing, rebasing and fixture loop reach the decoder's closed state |
| PathHandling.BodyCreatingPathHandler.RebaseToOrigin | core/src/main/java/de/doccrazy/ld35/game/actor/BodyCreatingPathHandler.java:59-62 | the in-place loop subtracts the origin from every point and touches no other field |
| PathHandling.BodyCreatingPathHandler.FixShapes | core/src/main/java/de/doccrazy/ld35/game/actor/BodyCreatingPathHandler.java:64-70 | the loop appends the fixture calls for the shapes to the builder and leaves `initial` set only when there were no shapes |
| PathHandling.BodyCreatingPathHandler.Dispatch | core/src/main/java/de/doccrazy/ld35/game/actor/BodyCreatingPathHandler.java:76-159 | one parser callback succeeds iff the decoder step succeeds and then reaches its state |
| PathHandling.BodyCreatingPathHandler.Parse | core/src/main/java/de/doccrazy/ld35/game/actor/BodyCreatingPathHandler.java:38-159 | parsing a command list starts a path and succeeds iff the decoder run succeeds, reaching its final state |
| SvgDocument.RequireAttribute | core/src/main/java/de/doccrazy/ld35/game/actor/SVGLevelActor.java:240-241 | `getAttribute` yields the attribute's value and fails with that attribute's name when it is absent |
| SvgDocument.FirstChildNamed | core/src/main/java/de/doccrazy/ld35/game/actor/SVGLevelActor.java:141 | finds the first child of the given name, or none when no child has it |
| SvgDocument.Get | core/src/main/java/de/doccrazy/ld35/game/actor/SVGLevelActor.java:141 | `get` prefers the attribute, falls back to the text of the first child of that name, and is absent otherwise |
| SvgDocument.Filter | core/src/main/java/de/doccrazy/ld35/game/actor/SVGLevelActor.java:175-178 | the stream filter keeps exactly the elements that pass, in their original order, each as often as in the input |
| SvgDocument.ChildrenByName | core/src/main/java/de/doccrazy/ld35/game/actor/SVGLevelActor.java:116 | the children of a tag are exactly those with that name, in document order |
| SvgDocument.ChildrenByNameCounts | core/src/main/java/de/doccrazy/ld35/game/actor/SVGLevelActor.java:116 | every child of the tag occurs in the result as often as among the children, and no other element occurs |
| SvgDocument.FindLabel | core/src/main/java/de/doccrazy/ld35/game/actor/SVGLevelActor.java:167-172 | scanning the elements of the tag, returns the index of the first one labelled with the wanted label, all earlier ones of that tag being labelled otherwise; "none" when all are; fails when an unlabelled one of the tag comes before any match |
| SvgDocument.ChildByLabel | core/src/main/java/de/doccrazy/ld35/game/actor/SVGLevelActor.java:166-173 | a found child is the first child of the tag labelled as wanted (every earlier child of the tag is labelled otherwise); "none" means every child of the tag is labelled otherwise; failure means an unlabelled child of the tag comes before any child of the tag with the wanted label |
| SvgDocument.ChildrenByPrefix | core/src/main/java/de/doccrazy/ld35/game/actor/SVGLevelActor.java:175-179 | keeps exactly the children of the tag whose non-empty label starts with the prefix, in document order, each as often as it occurs |
| SvgDocument.ObjectName | core/src/main/java/de/doccrazy/ld35/game/actor/SVGLevelActor.java:184 | the object name is the label with the prefix stripped: prefix + name is the label |
| SvgShapes.Number | core/src/main/java/de/doccrazy/ld35/game/actor/SVGLevelActor.java:240 | `Float.parseFloat` succeeds exactly when the parser accepts the text, with its value |
| SvgShapes.NumberAttribute | core/src/main/java/de/doccrazy/ld35/game/actor/SVGLevelActor.java:240-241 | a missing attribute fails with its name; a success is the parsed attribute value |
| SvgShapes.CreateTransform | core/src/main/java/de/doccrazy/ld35/game/actor/SVGLevelActor.java:151-164 | a missing `transform` attribute gives the identity; otherwise succeeds iff the transform list parses, with the parsed map |
| SvgShapes.ElementTransform | core/src/main/java/de/doccrazy/ld35/game/actor/SVGLevelActor.java:112-113 | composing an element's transform onto the current one succeeds iff its own transform does, and without a `transform` attribute it is the current transform |
| SvgShapes.OwnTransformFirst | core/src/main/java/de/doccrazy/ld35/game/actor/SVGLevelActor.java:117-118 | the composed transform applies the element's own transform first, then the enclosing one |
| SvgShapes.NestOrder | core/src/main/java/de/doccrazy/ld35/game/actor/SVGLevelActor.java:111-113 | a chain of `preConcatenate` compositions applies the innermost transform first, then the enclosing ones, and the view matrix last |
| SvgShapes.NestAppend | core/src/main/java/de/doccrazy/ld35/game/actor/SVGLevelActor.java:112-113 | nesting one more element in a chain of own transforms is one more `preConcatenate` onto the chain |
| SvgShapes.ElementTransformNests | core/src/main/java/de/doccrazy/ld35/game/actor/SVGLevelActor.java:112-113 | the transform a group hands its children, when it sits at the end of a chain of own transforms inside the view, is that chain with its own transform appended, as `parseGroup` recursing at line 135 builds it |
| SvgShapes.RectCorners | core/src/main/java/de/doccrazy/ld35/game/actor/SVGLevelActor.java:239-243 | four corners p0=(x,y), p2=p0+(w,h), p1=(p0.x,p2.y), p3=(p2.x,p0.y) |
| SvgShapes.TransformAll | core/src/main/java/de/doccrazy/ld35/game/actor/SVGLevelActor.java:244-247 | every point is replaced by its image, nothing else changes |
| SvgShapes.RectPoly | core/src/main/java/de/doccrazy/ld35/game/actor/SVGLevelActor.java:236-249 | succeeds iff the transform and x/y/width/height parse; gives exactly the four corners (x,y), (x,y+h), (x+w,y+h), (x+w,y) each under the element's transform, so p0+p2 = p1+p3 |
| SvgShapes.ParseRectAsPoly | core/src/main/java/de/doccrazy/ld35/game/actor/SVGLevelActor.java:236-249 | the array-filling method computes the rectangle polygon |
| SvgShapes.TransformedCorners | core/src/main/java/de/doccrazy/ld35/game/actor/SVGLevelActor.java:239-248 | filling the four-element array and transforming it in place gives the transformed corners |
| SvgShapes.RectCenter | core/src/main/java/de/doccrazy/ld35/game/actor/SVGLevelActor.java:228-231 | the centre exists iff the polygon does, and is the transformed centre of the untransformed rectangle |
| SvgShapes.BoundsRoundTrip | core/src/main/java/de/doccrazy/ld35/game/actor/SVGLevelActor.java:85-86 | under an axis-aligned map, rebuilding a rectangle from corners 0 and 2 gives the scaled and translated rectangle |
| SvgShapes.ParseCircle | core/src/main/java/de/doccrazy/ld35/game/actor/SVGLevelActor.java:251-259 | succeeds iff the transform, r, cx and cy parse; the radius is nonnegative and the centre is the transformed (cx,cy) |
| SvgShapes.ParseCircleRadius | core/src/main/java/de/doccrazy/ld35/game/actor/SVGLevelActor.java:257-258 | the radius is the absolute value of the delta-transformed r, namely abs(m00)·abs(r) |
| SvgShapes.TransformCircle | core/src/main/java/de/doccrazy/ld35/game/actor/SVGLevelActor.java:256-258 | the centre is the transformed point and the radius is abs(m00)·abs(r), never negative |
| SvgShapes.MirrorAngleInvolution | core/src/main/java/de/doccrazy/ld35/game/actor/SVGLevelActor.java:271-278 | mirroring an angle twice gives it back unless both mirror components are negative |
| SvgShapes.DoubleMirrorIsHalfTurn | core/src/main/java/de/doccrazy/ld35/game/actor/SVGLevelActor.java:271-278 | when both components are negative, the angle becomes a − π (a half turn) |
| SvgShapes.MirrorKeepsCone | core/src/main/java/de/doccrazy/ld35/game/actor/SVGLevelActor.java:271-278 | mirroring keeps the angular width of an arc and maps its mid-angle to the mirrored mid-angle |
| SvgShapes.ParseArc | core/src/main/java/de/doccrazy/ld35/game/actor/SVGLevelActor.java:261-280 | succeeds iff the transform and the five sodipodi attributes cx, cy, rx, start, end parse; the centre is the transformed (cx, cy); the radius is nonnegative; the angles are the mirrored start and end, with x-mirroring iff m00+m01 < 0 and y-mirroring iff m10+m11 < 0 |
| SvgShapes.ParseArcRadius | core/src/main/java/de/doccrazy/ld35/game/actor/SVGLevelActor.java:265-278 | the arc radius is the absolute value of the delta-transformed rx, namely abs(m00)·abs(rx) |
| SvgShapes.Clamp01 | core/src/main/java/de/doccrazy/ld35/game/actor/SVGLevelActor.java:222 | colour components are clamped into [0,1] and unchanged when already there |
| SvgShapes.FillPrefixesDisjoint | core/src/main/java/de/doccrazy/ld35/game/actor/SVGLevelActor.java:219-221 | no token starts with both `fill:#` and `fill-opacity:`, so the two branches never compete |
| SvgShapes.StyleToken | core/src/main/java/de/doccrazy/ld35/game/actor/SVGLevelActor.java:218-224 | other tokens leave the colour alone; `fill:#` succeeds iff the colour parses and takes it; `fill-opacity:` succeeds iff its number parses, sets alpha to that number clamped into [0,1], and keeps red, green and blue |
| SvgShapes.StyleColor | core/src/main/java/de/doccrazy/ld35/game/actor/SVGLevelActor.java:215-226 | a missing `style` attribute is a failure |
| SvgShapes.ColorFromStyle | core/src/main/java/de/doccrazy/ld35/game/actor/SVGLevelActor.java:215-226 | the loop that updates the colour computes the style colour |
| SvgShapes.StyleFailureSticks | core/src/main/java/de/doccrazy/ld35/game/actor/SVGLevelActor.java:218-224 | once a token fails, the later tokens cannot change the outcome |
| SvgShapes.NoFillIsTransparentBlack | core/src/main/java/de/doccrazy/ld35/game/actor/SVGLevelActor.java:217 | without fill tokens the colour stays the initial transparent black |
| SvgShapes.LastFillGivesRgb | core/src/main/java/de/doccrazy/ld35/game/actor/SVGLevelActor.java:218-224 | the red, green and blue of the result come from the last `fill:#` token |
| SvgShapes.LastOpacityGivesAlpha | core/src/main/java/de/doccrazy/ld35/game/actor/SVGLevelActor.java:218-224 | the alpha of the result is the number of the last `fill-opacity:` token clamped into [0,1], when no `fill` token follows it |
| SvgShapes.FpCall | core/src/main/java/de/doccrazy/ld35/game/actor/SVGLevelActor.java:142-145 | an `fp:` token succeeds iff it has at least three comma-separated fields whose first three parse as numbers, and then gives `fixProps` with them as density, friction and restitution |
| SvgShapes.PropsFold | core/src/main/java/de/doccrazy/ld35/game/actor/SVGLevelActor.java:141-146 | only `fp:` tokens add calls: it succeeds iff every `fp:` token parses, and then the i-th appended call is exactly the `fixProps` call of the i-th `fp:` token, after the existing calls |
| SvgShapes.ApplyPhysicsProps | core/src/main/java/de/doccrazy/ld35/game/actor/SVGLevelActor.java:139-149 | a missing `desc` leaves the builder unchanged; otherwise the result is the fold of its `;`-separated tokens, which keeps the position and all shape and fixture calls |
| SvgShapes.PropsAddNoShapes | core/src/main/java/de/doccrazy/ld35/game/actor/SVGLevelActor.java:139-149 | appending only property calls changes neither the shape count nor the fixture count |
| SvgLevel.MapAll | core/src/main/java/de/doccrazy/ld35/game/actor/SVGLevelActor.java:116-133 | a loop over elements succeeds iff every element succeeds, and then yields one result per element, in order |
| SvgLevel.MapAllFailureSticks | core/src/main/java/de/doccrazy/ld35/game/actor/SVGLevelActor.java:116-133 | the first failing element decides the outcome of the whole loop |
| SvgLevel.MapBoth | core/src/main/java/de/doccrazy/ld35/game/actor/SVGLevelActor.java:93-108 | two loops one after the other succeed iff every element of both succeeds, and then yield the results of the first list followed by those of the second, in order |
| SvgLevel.ViewMatrixClosedForm | core/src/main/java/de/doccrazy/ld35/game/actor/SVGLevelActor.java:66-70 | the four matrix operations compose to the matrix (s, 0, 0, −s, 0, H) |
| SvgLevel.ViewMatrixMaps | core/src/main/java/de/doccrazy/ld35/game/actor/SVGLevelActor.java:66-70 | the view matrix maps (x,y) to (s·x, H − s·y) |
| SvgLevel.ViewMatrixFlipsOntoLevel | core/src/main/java/de/doccrazy/ld35/game/actor/SVGLevelActor.java:62-70 | the top edge of the view box lands at height H and the bottom edge at 0 |
| SvgLevel.ViewBoxField | core/src/main/java/de/doccrazy/ld35/game/actor/SVGLevelActor.java:63 | reading past the fields fails; a success is the parsed field |
| SvgLevel.ViewBox | core/src/main/java/de/doccrazy/ld35/game/actor/SVGLevelActor.java:62-63 | fewer than four fields fail; a success takes x, y, width and height from the first four space-separated fields |
| SvgLevel.ScaleFor | core/src/main/java/de/doccrazy/ld35/game/actor/SVGLevelActor.java:59 | the scale times the screen height is the level height; a zero height fails |
| SvgLevel.LevelDimensions | core/src/main/java/de/doccrazy/ld35/game/actor/SVGLevelActor.java:62-63 | a missing viewBox fails; every view-box component is multiplied by the scale |
| SvgLevel.Calibrate | core/src/main/java/de/doccrazy/ld35/game/actor/SVGLevelActor.java:51-70 | finds both layers and the `screen` rectangle, derives scale, dimensions and view matrix; a missing Meta layer or screen rectangle fails |
| SvgLevel.Commands | core/src/main/java/de/doccrazy/ld35/game/actor/SVGLevelActor.java:122 | the path data parses iff the path parser accepts it |
| SvgLevel.PathBody | core/src/main/java/de/doccrazy/ld35/game/actor/SVGLevelActor.java:116-126 | a path body keeps the fixture discipline; a missing `d` fails |
| SvgLevel.RectBody | core/src/main/java/de/doccrazy/ld35/game/actor/SVGLevelActor.java:127-133 | a rectangle body sits at corner 0 and starts with one `fixShape` of the polygon relative to that corner, and no `newFixture` |
| SvgLevel.BodyOf | core/src/main/java/de/doccrazy/ld35/game/actor/SVGLevelActor.java:116-133 | every body built from a path or rectangle keeps the fixture discipline |
| SvgLevel.Bodies | core/src/main/java/de/doccrazy/ld35/game/actor/SVGLevelActor.java:116-133 | one body per element, each keeping the fixture discipline |
| SvgLevel.CompileGroup | core/src/main/java/de/doccrazy/ld35/game/actor/SVGLevelActor.java:111-137 | a group yields exactly one body per `path` and `rect` in it and in its nested groups |
| SvgLevel.CompileSubgroups | core/src/main/java/de/doccrazy/ld35/game/actor/SVGLevelActor.java:134-136 | the subgroups together yield the sum of their body counts |
| SvgLevel.SubgroupsFailureSticks | core/src/main/java/de/doccrazy/ld35/game/actor/SVGLevelActor.java:134-136 | a failing subgroup aborts the walk of the remaining ones |
| SvgLevel.ParticleAt | core/src/main/java/de/doccrazy/ld35/game/actor/SVGLevelActor.java:88-92 | a particle sits at the rectangle's centre and its kind is the label after `part:` |
| SvgLevel.KillZone | core/src/main/java/de/doccrazy/ld35/game/actor/SVGLevelActor.java:93-95 | a kill box is built from the rectangle's four transformed corners |
| SvgLevel.WinZone | core/src/main/java/de/doccrazy/ld35/game/actor/SVGLevelActor.java:96-98 | a win box is built from the rectangle's four transformed corners |
| SvgLevel.PointLightAt | core/src/main/java/de/doccrazy/ld35/game/actor/SVGLevelActor.java:99-103 | a point light exists iff the circle and colour parse; it sits at the circle centre, in the fill colour, and its distance is twice the radius and never negative |
| SvgLevel.ConeLightAt | core/src/main/java/de/doccrazy/ld35/game/actor/SVGLevelActor.java:104-108 | a cone light exists iff the arc and colour parse; it sits at the arc centre, in the fill colour, reaches 7·r, and its cone spans exactly from the smaller to the larger arc angle in degrees |
| SvgLevel.ConeEdges | core/src/main/java/de/doccrazy/ld35/game/actor/SVGLevelActor.java:105 | direction ± cone half-angle are the two arc angles in degrees, smaller first, and the half-angle is never negative |
| SvgLevel.ReadAnchors | core/src/main/java/de/doccrazy/ld35/game/actor/SVGLevelActor.java:80-86 | a missing spawn rectangle fails; the spawn is its centre and the camera bounds are rebuilt from the screen rectangle's corners 0 and 2 |
| SvgLevel.ReadZones | core/src/main/java/de/doccrazy/ld35/game/actor/SVGLevelActor.java:93-98 | succeeds iff every `kill` and every `win` rectangle reads; then the i-th actor is the kill zone of the i-th `kill` rectangle, and the win zones of the `win` rectangles follow in order |
| SvgLevel.PointLights | core/src/main/java/de/doccrazy/ld35/game/actor/SVGLevelActor.java:197-204 | succeeds iff every `light` circle reads; then the i-th light is the point light of the i-th circle, each with a nonnegative distance |
| SvgLevel.ConeLights | core/src/main/java/de/doccrazy/ld35/game/actor/SVGLevelActor.java:206-213 | succeeds iff every `conelight` path reads; then the i-th light is the cone light of the i-th arc, each with a nonnegative distance |
| SvgLevel.ReadLights | core/src/main/java/de/doccrazy/ld35/game/actor/SVGLevelActor.java:99-108 | succeeds iff both the point lights and the cone lights read; the result is the point lights followed by the cone lights, all with nonnegative distances |
| SvgLevel.ReadLightsSucceeds | core/src/main/java/de/doccrazy/ld35/game/actor/SVGLevelActor.java:99-108 | the lights read iff every `light` circle and every `conelight` arc reads |
| SvgLevel.ReadLightsPointsFirst | core/src/main/java/de/doccrazy/ld35/game/actor/SVGLevelActor.java:99-103 | the light of the i-th `light` circle is at index i, and there is one light per circle and per arc |
| SvgLevel.ReadLightsConeAt | core/src/main/java/de/doccrazy/ld35/game/actor/SVGLevelActor.java:104-108 | the light of the i-th `conelight` arc comes right after all the point lights, at index (number of circles)+i |
| SvgLevel.ReadMeta | core/src/main/java/de/doccrazy/ld35/game/actor/SVGLevelActor.java:80-108 | a missing spawn rectangle fails; otherwise collects anchors, particles, zones and lights from the Meta layer |
| SvgLevel.Assemble | core/src/main/java/de/doccrazy/ld35/game/actor/SVGLevelActor.java:47-109 | a loaded level is calibrated, has one body per physics shape, each with the fixture discipline, and reads its markers through the Meta layer's own transform under the view matrix; a missing Physics layer fails |
| SvgLevel.LoadedLevelHasMarkers | core/src/main/java/de/doccrazy/ld35/game/actor/SVGLevelActor.java:55-58 | a level that loads has a Meta layer holding both a `screen` and a `spawn` rectangle |
| LevelActor.PathDraft | core/src/main/java/de/doccrazy/ld35/game/actor/SVGLevelActor.java:117-124 | running a fresh handler over a path's commands and applying its properties gives the specified path body |
| LevelActor.RectDraft | core/src/main/java/de/doccrazy/ld35/game/actor/SVGLevelActor.java:128-131 | parsing the rectangle and applying its properties gives the specified rectangle body |
| LevelActor.DraftOf | core/src/main/java/de/doccrazy/ld35/game/actor/SVGLevelActor.java:116-133 | dispatches a path or rectangle child to its body reader |
| LevelActor.ReadBody | core/src/main/java/de/doccrazy/ld35/game/actor/SVGLevelActor.java:116-133 | reading one child agrees with the body reader the specification maps over children |
| LevelActor.SvgLevelActor.constructor | core/src/main/java/de/doccrazy/ld35/game/actor/SVGLevelActor.java:44-48 | a new actor has no bodies, particles or lights |
| LevelActor.SvgLevelActor.Record | core/src/main/java/de/doccrazy/ld35/game/actor/SVGLevelActor.java:125 | building a body appends it to the world and its fresh handle to `bodies` |
| LevelActor.SvgLevelActor.BuildBodies | core/src/main/java/de/doccrazy/ld35/game/actor/SVGLevelActor.java:116-133 | the loop builds exactly the specified bodies, appending them to the world and their consecutive handles to `bodies` |
| LevelActor.SvgLevelActor.ParseGroup | core/src/main/java/de/doccrazy/ld35/game/actor/SVGLevelActor.java:111-137 | the recursive walk builds exactly the specified bodies of the group, in order, and records a handle for each |
| LevelActor.SvgLevelActor.ParseSubgroups | core/src/main/java/de/doccrazy/ld35/game/actor/SVGLevelActor.java:134-136 | the loop over subgroups builds their bodies in order and records a handle for each |
| LevelActor.SvgLevelActor.AddActors | core/src/main/java/de/doccrazy/ld35/game/actor/SVGLevelActor.java:93-98 | appends the zone actors to the world and changes nothing else |
| LevelActor.SvgLevelActor.Load | core/src/main/java/de/doccrazy/ld35/game/actor/SVGLevelActor.java:47-109 | the constructor's work yields exactly the assembled level; on success the fields hold its dimensions, camera bounds and spawn, and the world holds its bodies and zone actors |
| LevelActor.SvgLevelActor.Install | core/src/main/java/de/doccrazy/ld35/game/actor/SVGLevelActor.java:84-108 | stores the markers in the fields and adds the zone actors to the world |
| LevelActor.SvgLevelActor.DoRemove | core/src/main/java/de/doccrazy/ld35/game/actor/SVGLevelActor.java:350-358 | every recorded body is destroyed, and nothing else in the world changes |
| Player.Other | core/src/main/java/de/doccrazy/ld35/game/actor/PlayerActor.java:152-157 | the other body exists iff the player is one of the two bodies, and is the opposite one |
| Player.Classify | core/src/main/java/de/doccrazy/ld35/game/actor/PlayerActor.java:159-169 | a counting contact (player, touching, static) is floor if normal.y > 0.707, else left wall if normal.x > 0.866, else right wall if normal.x < −0.866 |
| Player.Track | core/src/main/java/de/doccrazy/ld35/game/actor/PlayerActor.java:160-179 | a seen side is touching and stamped now; an unseen side keeps its stamp and stays touching only while now − stamp ≤ 0.2 |
| Player.FlagLastsTtl | core/src/main/java/de/doccrazy/ld35/game/actor/PlayerActor.java:171-179 | a flag seen at T survives every later tick up to T + 0.2 inclusive |
| Player.FlagExpires | core/src/main/java/de/doccrazy/ld35/game/actor/PlayerActor.java:171-179 | a tick more than 0.2 after the stamp clears the flag for good |
| Player.UnseenKeepsStamp | core/src/main/java/de/doccrazy/ld35/game/actor/PlayerActor.java:171-179 | ticks without contact never change the stamp |
| Player.SteeringAlwaysAllowed | core/src/main/java/de/doccrazy/ld35/game/actor/PlayerActor.java:185-192 | after the orientation update, the mode-0 steering guard always holds |
| Player.JumpImpulse | core/src/main/java/de/doccrazy/ld35/game/actor/PlayerActor.java:204-214 | the floor gives (0,4) first; the left wall with mv.x > 0 gives (4/3,4); the right wall with mv.x < 0 gives (−4/3,4); otherwise no impulse |
| Player.Jump | core/src/main/java/de/doccrazy/ld35/game/actor/PlayerActor.java:202-215 | an impulse fires iff a jump is polled, more than 0.2 has passed since the last jump, and a floor or wall allows it |
| Player.Rolling | core/src/main/java/de/doccrazy/ld35/game/actor/PlayerActor.java:191-215 | when the input steers, on the floor the angular velocity becomes −5·mv.x, otherwise it is kept; the effects are the air push 3·mv.x (only airborne, steering and below 2.5 sideways speed) followed by the jump impulse if one fires; the jump stamp moves only then |
| Player.AirPush | core/src/main/java/de/doccrazy/ld35/game/actor/PlayerActor.java:196-199 | one force (3·mv.x, 0) exactly when steering, airborne and slower sideways than 2.5, none otherwise |
| Player.RollingEffects | core/src/main/java/de/doccrazy/ld35/game/actor/PlayerActor.java:191-215 | at most two effects; a fired impulse is the last and only impulse; on the floor no force is applied |
| Player.Spinning | core/src/main/java/de/doccrazy/ld35/game/actor/PlayerActor.java:217-223 | torque −2·mv.x only while abs(ω) < 40; angular velocity −2.5·mv.x only when speed < 0.1 |
| Player.Gliding | core/src/main/java/de/doccrazy/ld35/game/actor/PlayerActor.java:224-229 | v.y below −2 becomes exactly −2, otherwise it is kept, v.x is kept, and one vertical force mv.y·abs(v.x)·0.01 is applied |
| Player.MoveOutcome | core/src/main/java/de/doccrazy/ld35/game/actor/PlayerActor.java:190-229 | no mode moves or resizes the body, and only mode 0 can jump |
| Player.Profile | core/src/main/java/de/doccrazy/ld35/game/actor/PlayerActor.java:90-130 | radius 0.45/0.5/0.1, restitution 0.1/0.1/0, linear damping 0.2/0.05/0.01, angular damping 0.8/0.05/0.8, gravity 1/1/0.1, fixed rotation only in mode 2, mode 2 clamps v.y into [−1,1], the spin is zeroed exactly when the rotation lock flips, and the body is always awake |
| Player.FixRotation | core/src/main/java/de/doccrazy/ld35/game/actor/PlayerActor.java:99 | setting the rotation lock to the other value stops the spin; setting it to the value it has changes nothing |
| Player.Clamp | core/src/main/java/de/doccrazy/ld35/game/actor/PlayerActor.java:123 | the clamped value lies in the range and is unchanged when already in it |
| Player.ModeForKey | core/src/main/java/de/doccrazy/ld35/game/actor/PlayerActor.java:72-83 | keys 1, 2 and 3 select modes 0, 1 and 2; no other key selects a mode |
| Player.SpawnBody | core/src/main/java/de/doccrazy/ld35/game/actor/PlayerActor.java:63-66 | the body starts at the spawn point, at rest, with radius 0.5 and restitution 1 |
| Player.PlayerActor.constructor | core/src/main/java/de/doccrazy/ld35/game/actor/PlayerActor.java:43-60 | a new player is in mode 0 with the mode-0 profile, facing right, touching nothing |
| Player.PlayerActor.SetShapeState | core/src/main/java/de/doccrazy/ld35/game/actor/PlayerActor.java:90-130 | the body gets the mode's profile and the rotation display is switched per mode; contact flags, jump stamp and orientation are untouched |
| Player.PlayerActor.KeyDown | core/src/main/java/de/doccrazy/ld35/game/actor/PlayerActor.java:71-85 | a number key switches to its mode and is consumed; any other key leaves the body and mode alone and passes on |
| Player.PlayerActor.Sight | core/src/main/java/de/doccrazy/ld35/game/actor/PlayerActor.java:152-169 | one contact sets and stamps at most the flag of its class, leaving the motion fields alone |
| Player.PlayerActor.ProcessContacts | core/src/main/java/de/doccrazy/ld35/game/actor/PlayerActor.java:150-181 | each side's flag and stamp become `Track` of whether any contact of this tick saw that side |
| Player.PlayerActor.Move | core/src/main/java/de/doccrazy/ld35/game/actor/PlayerActor.java:183-230 | `moving` is abs(mv.x) > 0, the orientation follows the sign of mv.x, and the body, effects and jump stamp follow the current mode's outcome |
| Player.PlayerActor.Roll | core/src/main/java/de/doccrazy/ld35/game/actor/PlayerActor.java:191-215 | the mode-0 branch reaches the rolling outcome |
| Player.PlayerActor.TryJump | core/src/main/java/de/doccrazy/ld35/game/actor/PlayerActor.java:202-215 | an allowed jump appends exactly its impulse and stamps the time; otherwise nothing changes |
| Player.PlayerActor.Spin | core/src/main/java/de/doccrazy/ld35/game/actor/PlayerActor.java:217-223 | the mode-1 branch reaches the spinning outcome |
| Player.PlayerActor.Glide | core/src/main/java/de/doccrazy/ld35/game/actor/PlayerActor.java:224-229 | the mode-2 branch reaches the gliding outcome |
| Player.PlayerActor.DoAct | core/src/main/java/de/doccrazy/ld35/game/actor/PlayerActor.java:136-148 | contacts are processed; without a controller or outside GAME the spin is stopped and nothing moves; the player is killed once position.y + radius is below the level bottom |
| Winbox.AfterEvent | core/src/main/java/de/doccrazy/ld35/game/actor/WinboxActor.java:39-51 | a player contact starting sets the hit time to now, one ending resets it to the sentinel, other bodies change nothing |
| Winbox.LastPlayerEvent | core/src/main/java/de/doccrazy/ld35/game/actor/WinboxActor.java:39-51 | finds the last event involving the player, or −1 if there is none |
| Winbox.LastPlayerEventDecides | core/src/main/java/de/doccrazy/ld35/game/actor/WinboxActor.java:39-51 | the hit time after a sequence of contacts is decided by the last player event alone |
| Winbox.VictoryIff | core/src/main/java/de/doccrazy/ld35/game/actor/WinboxActor.java:31-36 | victory is requested iff the last player event is a contact start more than 1 s ago |
| Winbox.LeavingNeverFires | core/src/main/java/de/doccrazy/ld35/game/actor/WinboxActor.java:47-51 | once the player has left the box, no victory is requested |
| Winbox.RecontactRestarts | core/src/main/java/de/doccrazy/ld35/game/actor/WinboxActor.java:39-44 | a new player contact restarts the timer from its own time |
| Winbox.WinboxActor.constructor | core/src/main/java/de/doccrazy/ld35/game/actor/WinboxActor.java:15-20 | the box starts with the sentinel hit time |
| Winbox.WinboxActor.CreateBody | core/src/main/java/de/doccrazy/ld35/game/actor/WinboxActor.java:23-28 | a static sensor at the rectangle's centre, with half-extents width/2 and height/2 |
| Winbox.WinboxActor.DoAct | core/src/main/java/de/doccrazy/ld35/game/actor/WinboxActor.java:31-36 | requests victory iff more than 1 s has passed since the hit time |
| Winbox.WinboxActor.BeginContact | core/src/main/java/de/doccrazy/ld35/game/actor/WinboxActor.java:39-44 | answers `false` for every contact; the hit time follows a contact start |
| Winbox.WinboxActor.EndContact | core/src/main/java/de/doccrazy/ld35/game/actor/WinboxActor.java:47-51 | the hit time follows a contact end |
| Levels.Between | core/src/main/java/de/doccrazy/ld35/game/actor/Level.java:42-43 | a unit draw is mapped into [start, end] |
| Levels.PointIn | core/src/main/java/de/doccrazy/ld35/game/actor/Level.java:42-43 | a candidate lies in the box's x and y ranges |
| Levels.RandomPoint | core/src/main/java/de/doccrazy/ld35/game/actor/Level.java:39-46 | a result lies in the grass box, is not excluded and, when avoiding the player, is at least 2 from the spawn; there is none iff every draw is rejected |
| Levels.BorderPoint | core/src/main/java/de/doccrazy/ld35/game/actor/Level.java:51-58 | a result lies in the bounding box and outside the grass box; there is none iff every draw lands in the grass box |
| Levels.FirstGoodDrawWins | core/src/main/java/de/doccrazy/ld35/game/actor/Level.java:41-44 | the first draw that is not rejected is the result |
| Levels.Level.constructor | core/src/main/java/de/doccrazy/ld35/game/actor/Level.java:21-29 | a level holds its world, grass box, bounding box and spawn |
| Levels.Level.GetRandomPoint | core/src/main/java/de/doccrazy/ld35/game/actor/Level.java:39-46 | the rejection loop returns the specified random point |
| Levels.Level.GetRandomBorderPoint | core/src/main/java/de/doccrazy/ld35/game/actor/Level.java:51-58 | the rejection loop returns the specified border point |
| Levels.Level.SpawnRandomObject | core/src/main/java/de/doccrazy/ld35/game/actor/Level.java:64-66 | exactly one actor is added, at the random point, and bodies are untouched |

## Left out

- Batik's path and transform parsers, `Float.parseFloat`, `Color.valueOf`, `PolyRenderer.createPolyShape` triangulation, `Vector2.dst` and `GameRules.LEVEL_HEIGHT` are parameters: their code is not part of this model.
- Float32 rounding in `applyTransform`, `Point2D.Float` and the float casts is not modelled. All arithmetic is on reals.
- Debug printing, rendering (`draw`, `drawParticle`, the level texture) and sprite scaling (`setScaleY`) are left out because they have no effect on the logic.
- Box2D light and particle objects are recorded as plain values (`Light`, `Particle`), and freeing particles in `doRemove` is not modelled.
- Box2D bodies, contacts, forces, impulses and torques are modelled as inputs and as recorded effects. No physics is simulated, and the density and friction of the player's fixture are not tracked.
- SvgLevel.ScaleFor: a zero `screen` height is reported as a failure, whereas Java divides to an infinite scale.
- Levels.RandomPoint: when every supplied draw is rejected the model returns no point, whereas the source loops until a draw succeeds.
- Levels.BorderPoint: the same holds for border points.
- Levels.Level.SpawnRandomObject: when no draw is accepted no actor is added, whereas the source would loop until one is.
- `Level.getGrassBox` is abstract in `Level` and `SVGLevelActor` does not define it, so the grass box is a field of the `Level` model.
- The other abstract getters are modelled as fields: `getBoundingBox` returns `dimensions`, `getViewportBox` returns `cameraBounds` and `getSpawn` returns `spawn`. The constant getters `getScoreGoal` and `getTime` are left out.
- LevelActor.SvgLevelActor.Load: on a failed load, the bodies already added to the world are not described. The Java constructor throws at that point.
- The distinction between exception kinds (`GdxRuntimeException`, `NumberFormatException`, `NullPointerException`, `IllegalArgumentException`) is kept only as far as the `LoadError` cases go.
- `WinboxActor` takes a `Rectangle`, while `SVGLevelActor` hands the win and kill boxes four corner points. The model records the corners for those actors, and models `WinboxActor` on a rectangle.
- Winbox.VictoryIff: assumes the current time is below sentinel + 1 s, because a hit time at the sentinel otherwise fires as well.
- Winbox.LeavingNeverFires: the same sentinel bound applies.
- The victory request is the boolean result of `DoAct`; `world.transition` is not modelled.
- The base-class `stateTime` advance and `super.doAct`/`super.doRemove` are not modelled. The current time is a parameter of each tick.
- `PlayerActor.beginContact` (always true), `endContact`, `hit` and `draw` carry no logic and are not modelled.
- The movement listener is a parameter. `pollJump` consumption and `KeyboardMovementListener.keyDown` are not modelled, and the latter's answer is the `fallback` argument of `KeyDown`.
- SvgShapes.ParseCircle: its own contract leaves the radius formula to the lemma `SvgShapes.ParseCircleRadius`.
- SvgShapes.ElementTransform: its own contract leaves the composition order to `SvgShapes.OwnTransformFirst`.
- SvgShapes.ParseArc: its own contract leaves the radius formula to the lemma `SvgShapes.ParseArcRadius`.
- SvgDocument.ChildrenByName: its own contract leaves the multiplicities to the lemma `SvgDocument.ChildrenByNameCounts`.
- SvgLevel.ReadLights: its own contract states the result as the point lights followed by the cone lights; the light at each index is stated by the lemmas `SvgLevel.ReadLightsSucceeds`, `SvgLevel.ReadLightsPointsFirst` and `SvgLevel.ReadLightsConeAt`.
