/**
  What the `SVGLevelActor` constructor computes from a level document, as
  functions: the calibration (scale, level dimensions, view matrix), the
  bodies of the Physics layer, and the markers of the Meta layer. The class
  in `LevelActor` is proved to do exactly this, step by step.
*/
module SvgLevel {
  import opened Wrappers
  import opened Geometry
  import opened JavaText
  import opened BodyBuilding
  import opened SvgDocument
  import opened SvgShapes
  import opened GameWorld
  import PathDecoder

  const LAYER_PHYSICS: string := "Physics"
  const LAYER_META: string := "Meta"
  const LABEL_SCREEN: string := "screen"
  const LABEL_SPAWN: string := "spawn"
  const PREFIX_PARTICLE: string := "part:"
  const PREFIX_KILL: string := "kill"
  const PREFIX_WIN: string := "win"
  const PREFIX_LIGHT: string := "light"
  const PREFIX_CONE_LIGHT: string := "conelight"

  /** `MathUtils.radDeg`, 180 / pi. */
  const RAD_DEG: real := 57.29577951308232

  /** A particle effect placed at the centre of a `part:` rect; `kind` is the rest of the label. */
  datatype Particle = Particle(kind: string, position: Vec)

  /** The box2dLight lights the Meta layer asks for (colour, distance, position, and for a cone its direction and half-angle in degrees). */
  datatype Light =
    | PointLight(color: Color, distance: real, x: real, y: real)
    | ConeLight(color: Color, distance: real, x: real, y: real, direction: real, coneDegree: real)

  // ---------------------------------------------------------------------
  // Generic scan over a list of marker or body elements
  // ---------------------------------------------------------------------

  /**
    Reads every element in order; the first element that cannot be read ends
    the scan with its error.
  */
  function MapAll<T>(es: seq<Element>, f: Element -> Result<T, LoadError>): (r: Result<seq<T>, LoadError>)
    ensures r.Success? ==> |r.value| == |es| && forall i :: 0 <= i < |es| ==> f(es[i]) == Success(r.value[i])
    ensures r.Success? <==> forall i :: 0 <= i < |es| ==> f(es[i]).Success?
    decreases |es|
  {
    if |es| == 0 then Success([])
    else
      var init :- MapAll(es[..|es| - 1], f);
      var last :- f(es[|es| - 1]);
      assert forall i :: 0 <= i < |es| - 1 ==> es[..|es| - 1][i] == es[i];
      Success(init + [last])
  }

  /** Two scans, one after the other: the results of the first list, then those of the second. */
  function MapBoth<T>(xs: seq<Element>, f: Element -> Result<T, LoadError>, ys: seq<Element>, g: Element -> Result<T, LoadError>): (r: Result<seq<T>, LoadError>)
    ensures r.Success? <==> (forall i :: 0 <= i < |xs| ==> f(xs[i]).Success?) && (forall i :: 0 <= i < |ys| ==> g(ys[i]).Success?)
    ensures r.Success? ==>
              && |r.value| == |xs| + |ys|
              && (forall i :: 0 <= i < |xs| ==> f(xs[i]) == Success(r.value[i]))
              && (forall i :: 0 <= i < |ys| ==> g(ys[i]) == Success(r.value[|xs| + i]))
  {
    var a :- MapAll(xs, f);
    var b :- MapAll(ys, g);
    assert forall i :: 0 <= i < |b| ==> (a + b)[|a| + i] == b[i];
    Success(a + b)
  }

  /** Once the scan of a prefix has failed, the scan of the whole list fails the same way. */
  lemma {:induction false} MapAllFailureSticks<T>(es: seq<Element>, f: Element -> Result<T, LoadError>, j: nat)
    requires j <= |es|
    requires MapAll(es[..j], f).Failure?
    ensures MapAll(es, f) == MapAll(es[..j], f)
    decreases |es| - j
  {
    if j < |es| {
      assert es[..j + 1][..j] == es[..j];
      MapAllFailureSticks(es, f, j + 1);
    } else {
      assert es[..j] == es;
    }
  }

  /** One more element: the scan of a longer prefix extends that of the shorter one, or stops at the new element's error. */
  lemma MapAllStep<T>(es: seq<Element>, f: Element -> Result<T, LoadError>, i: nat, done: seq<T>)
    requires i < |es|
    requires MapAll(es[..i], f) == Success(done)
    ensures f(es[i]).Failure? ==> MapAll(es, f) == Failure(f(es[i]).error)
    ensures f(es[i]).Success? ==> MapAll(es[..i + 1], f) == Success(done + [f(es[i]).value])
  {
    assert es[..i + 1][..i] == es[..i];
    if f(es[i]).Failure? {
      MapAllFailureSticks(es, f, i + 1);
    }
  }

  // ---------------------------------------------------------------------
  // Calibration
  // ---------------------------------------------------------------------

  /**
    The view matrix: translate by half the level height, flip y, translate
    back, then scale SVG units to metres.
  */
  function ViewMatrix(height: real, scale: real): Affine {
    Scale(Translate(Scale(Translate(Identity, 0.0, height / 2.0), 1.0, -1.0), 0.0, -height / 2.0), scale, scale)
  }

  /** The four steps of the view matrix multiply out to "scale x, flip and scale y, lift by the height". */
  lemma ViewMatrixClosedForm(height: real, scale: real)
    ensures ViewMatrix(height, scale) == Affine(scale, 0.0, 0.0, -scale, 0.0, height)
  {
    var a := Translate(Identity, 0.0, height / 2.0);
    assert a == Affine(1.0, 0.0, 0.0, 1.0, 0.0, height / 2.0);
    var b := Scale(a, 1.0, -1.0);
    assert b == Affine(1.0, 0.0, 0.0, -1.0, 0.0, height / 2.0);
    var c := Translate(b, 0.0, -height / 2.0);
    assert c == Affine(1.0, 0.0, 0.0, -1.0, 0.0, height);
    var d := Scale(c, scale, scale);
    assert d.m00 == 1.0 * scale + 0.0 * 0.0;
    assert d.m11 == 0.0 * 0.0 + (-1.0) * scale;
  }

  /** The view matrix maps an SVG point (x, y) to (s x, H - s y): y flipped, both scaled. */
  lemma ViewMatrixMaps(height: real, scale: real, p: Vec)
    ensures Apply(ViewMatrix(height, scale), p) == Vec(scale * p.x, height - scale * p.y)
  {
    ViewMatrixClosedForm(height, scale);
    assert (-scale) * p.y == -(scale * p.y);
  }

  /** With H = s times the viewBox height, the SVG top edge (y = 0) becomes the top of the level and the bottom edge becomes y = 0. */
  lemma ViewMatrixFlipsOntoLevel(viewBoxHeight: real, scale: real, x: real)
    ensures Apply(ViewMatrix(scale * viewBoxHeight, scale), Vec(x, 0.0)) == Vec(scale * x, scale * viewBoxHeight)
    ensures Apply(ViewMatrix(scale * viewBoxHeight, scale), Vec(x, viewBoxHeight)) == Vec(scale * x, 0.0)
  {
    ViewMatrixMaps(scale * viewBoxHeight, scale, Vec(x, 0.0));
    ViewMatrixMaps(scale * viewBoxHeight, scale, Vec(x, viewBoxHeight));
  }

  /** Dividing by a non-zero number and multiplying back. */
  lemma DivMul(a: real, b: real)
    requires b != 0.0
    ensures (a / b) * b == a
  {
  }

  /** The `i`-th space-separated viewBox field; reading past the end aborts the load. */
  function ViewBoxField(ext: Externals, fields: seq<string>, i: nat): (r: Result<real, LoadError>)
    ensures |fields| <= i ==> r == Failure(TooFewFields)
    ensures r.Success? ==> i < |fields| && ext.parseFloat(fields[i]) == Some(r.value)
  {
    if |fields| <= i then Failure(TooFewFields) else Number(ext, fields[i])
  }

  /** The viewBox `x y width height`, read in that order, in SVG units. */
  function ViewBox(ext: Externals, viewBox: string): (r: Result<Rect, LoadError>)
    ensures |Split(viewBox, ' ')| < 4 && (forall i :: 0 <= i < |Split(viewBox, ' ')| ==> ext.parseFloat(Split(viewBox, ' ')[i]).Some?)
            ==> r == Failure(TooFewFields)
    ensures r.Success? ==> var fields := Split(viewBox, ' ');
              && |fields| >= 4
              && Some(r.value.x) == ext.parseFloat(fields[0]) && Some(r.value.y) == ext.parseFloat(fields[1])
              && Some(r.value.width) == ext.parseFloat(fields[2]) && Some(r.value.height) == ext.parseFloat(fields[3])
  {
    var fields := Split(viewBox, ' ');
    var x :- ViewBoxField(ext, fields, 0);
    var y :- ViewBoxField(ext, fields, 1);
    var w :- ViewBoxField(ext, fields, 2);
    var h :- ViewBoxField(ext, fields, 3);
    Success(Rect(x, y, w, h))
  }

  /** The scale that makes the `screen` rect `levelHeight` tall; a zero height has no such scale. */
  function ScaleFor(ext: Externals, screen: Element): (r: Result<real, LoadError>)
    ensures r.Success? ==>
              && NumberAttribute(ext, screen, "height").Success?
              && NumberAttribute(ext, screen, "height").value != 0.0
              && r.value * NumberAttribute(ext, screen, "height").value == ext.levelHeight
    ensures NumberAttribute(ext, screen, "height") == Success(0.0) ==> r == Failure(ZeroScreenHeight)
  {
    var height :- NumberAttribute(ext, screen, "height");
    if height == 0.0 then Failure(ZeroScreenHeight)
    else
      DivMul(ext.levelHeight, height);
      Success(ext.levelHeight / height)
  }

  /** The level dimensions: every viewBox field multiplied by the scale. */
  function LevelDimensions(ext: Externals, level: Element, scale: real): (r: Result<Rect, LoadError>)
    ensures Get(level, "viewBox").None? ==> r == Failure(MissingAttribute("viewBox"))
    ensures r.Success? ==>
              && Get(level, "viewBox").Some? && ViewBox(ext, Get(level, "viewBox").value).Success?
              && var vb := ViewBox(ext, Get(level, "viewBox").value).value;
              && r.value.x == vb.x * scale && r.value.y == vb.y * scale
              && r.value.width == vb.width * scale && r.value.height == vb.height * scale
  {
    match Get(level, "viewBox")
    case None => Failure(MissingAttribute("viewBox"))
    case Some(text) =>
      var vb :- ViewBox(ext, text);
      Success(Rect(vb.x * scale, vb.y * scale, vb.width * scale, vb.height * scale))
  }

  /** The result of calibration: the two layers, the screen rect, the scale, the level size and the view matrix. */
  datatype Frame = Frame(physics: Option<Element>, meta: Element, screen: Element, scale: real, dimensions: Rect, view: Affine)

  /**
    The constructor up to the view matrix. The Meta layer and its `screen`
    rect must exist; the scale comes from the screen rect, the dimensions from
    the viewBox, and the view matrix from both.
  */
  function Calibrate(ext: Externals, level: Element): (r: Result<Frame, LoadError>)
    ensures r.Success? ==> ChildByLabel(level, "g", LAYER_META) == Success(Some(r.value.meta))
    ensures r.Success? ==> ChildByLabel(level, "g", LAYER_PHYSICS) == Success(r.value.physics)
    ensures r.Success? ==> ChildByLabel(r.value.meta, "rect", LABEL_SCREEN) == Success(Some(r.value.screen))
    ensures r.Success? ==> ScaleFor(ext, r.value.screen) == Success(r.value.scale)
    ensures r.Success? ==> LevelDimensions(ext, level, r.value.scale) == Success(r.value.dimensions)
    ensures r.Success? ==> r.value.view == ViewMatrix(r.value.dimensions.height, r.value.scale)
    ensures ChildByLabel(level, "g", LAYER_PHYSICS).Success? && ChildByLabel(level, "g", LAYER_META) == Success(None)
            ==> r == Failure(MissingLayer(LAYER_META))
    ensures ChildByLabel(level, "g", LAYER_PHYSICS).Success? && ChildByLabel(level, "g", LAYER_META).Success?
            && ChildByLabel(level, "g", LAYER_META).value.Some?
            && ChildByLabel(ChildByLabel(level, "g", LAYER_META).value.value, "rect", LABEL_SCREEN) == Success(None)
            ==> r == Failure(MissingMarker(LABEL_SCREEN))
  {
    var physics :- ChildByLabel(level, "g", LAYER_PHYSICS);
    var metaLayer :- ChildByLabel(level, "g", LAYER_META);
    if metaLayer.None? then Failure(MissingLayer(LAYER_META))
    else
      var screenRect :- ChildByLabel(metaLayer.value, "rect", LABEL_SCREEN);
      if screenRect.None? then Failure(MissingMarker(LABEL_SCREEN))
      else
        var scale :- ScaleFor(ext, screenRect.value);
        var dimensions :- LevelDimensions(ext, level, scale);
        Success(Frame(physics, metaLayer.value, screenRect.value, scale, dimensions, ViewMatrix(dimensions.height, scale)))
  }

  // ---------------------------------------------------------------------
  // The Physics layer
  // ---------------------------------------------------------------------

  /** The command list of a `d` attribute, or an abort when the path parser rejects it. */
  function Commands(ext: Externals, d: string): (r: Result<seq<PathDecoder.PathCommand>, LoadError>)
    ensures r.Success? <==> ext.parsePath(d).Some?
    ensures r.Success? ==> ext.parsePath(d) == Some(r.value)
  {
    match ext.parsePath(d)
    case None => Failure(BadPath)
    case Some(cmds) => Success(cmds)
  }

  /**
    The body of one `path` child: the path decoded under its own transform
    inside the group's, then its physics properties. A path that never moves
    has no body builder, and the source dereferences it.
  */
  function PathBody(ext: Externals, path: Element, group: Affine): (r: Result<BodyDraft, LoadError>)
    ensures r.Success? ==> OneFixturePerShape(r.value.calls)
    ensures "d" !in path.attributes && CreateTransform(ext, path).Success? ==> r == Failure(MissingAttribute("d"))
  {
    var t :- ElementTransform(ext, path, group);
    var d :- RequireAttribute(path, "d");
    var cmds :- Commands(ext, d);
    var decoder := PathDecoder.Decoder(t, ext.triangulate, ext.dst);
    var decoded := PathDecoder.Decode(decoder, cmds);
    if decoded.Failure? then Failure(PathFailed)
    else if decoded.value.builder.None? then Failure(NoBody)
    else
      PathDecoder.DecodeFixtureDiscipline(decoder, cmds);
      ApplyPhysicsProps(ext, path, decoded.value.builder.value)
  }

  /**
    The body of one `rect` child: a static body at the first corner with one
    `polyRel` fixture over the four corners, then its physics properties.
  */
  function RectBody(ext: Externals, rect: Element, group: Affine): (r: Result<BodyDraft, LoadError>)
    ensures r.Success? ==>
              && RectPoly(ext, rect, group).Success?
              && r.value.position == RectPoly(ext, rect, group).value[0]
              && [FixShape(PolyRel(RectPoly(ext, rect, group).value))] <= r.value.calls
              && CountFixShape(r.value.calls) == 1 && CountNewFixture(r.value.calls) == 0
  {
    var parsed :- RectPoly(ext, rect, group);
    // forStatic(parsed[0]).fixShape(polyRel(parsed))
    var draft := BodyDraft(parsed[0], [FixShape(PolyRel(parsed))]);
    SingleShapeCounts(PolyRel(parsed));
    ApplyPhysicsProps(ext, rect, draft)
  }

  /** The body a Physics-layer child yields: `path` children are decoded, the others (rects) are boxes. */
  function BodyOf(ext: Externals, e: Element, group: Affine): (r: Result<BodyDraft, LoadError>)
    ensures r.Success? ==> OneFixturePerShape(r.value.calls)
  {
    if e.name == "path" then PathBody(ext, e, group) else RectBody(ext, e, group)
  }

  /** `BodyOf` for a fixed enclosing transform, as a function value. */
  function BodyReader(ext: Externals, group: Affine): Element -> Result<BodyDraft, LoadError> {
    e => BodyOf(ext, e, group)
  }

  /** The bodies of a list of `path` or `rect` children, in order; each keeps the fixture discipline. */
  function Bodies(ext: Externals, es: seq<Element>, group: Affine): (r: Result<seq<BodyDraft>, LoadError>)
    ensures r == MapAll(es, BodyReader(ext, group))
    ensures r.Success? ==> |r.value| == |es|
    ensures r.Success? ==> forall i :: 0 <= i < |r.value| ==> OneFixturePerShape(r.value[i].calls)
  {
    var drafts :- MapAll(es, BodyReader(ext, group));
    assert forall i :: 0 <= i < |drafts| ==> OneFixturePerShape(drafts[i].calls) by {
      forall i | 0 <= i < |drafts| ensures OneFixturePerShape(drafts[i].calls) {
        assert BodyReader(ext, group)(es[i]) == Success(drafts[i]);
      }
    }
    Success(drafts)
  }

  /** The number of bodies a group holds: its paths and rects, and recursively those of its subgroups. */
  function BodyCount(g: Element): nat
    decreases g, 1, 0
  {
    |ChildrenByName(g, "path")| + |ChildrenByName(g, "rect")| + SubgroupBodyCount(g, ChildrenByName(g, "g"))
  }

  function SubgroupBodyCount(parent: Element, gs: seq<Element>): nat
    requires forall x :: x in gs ==> x in parent.children
    decreases parent, 0, |gs|
  {
    if |gs| == 0 then 0
    else
      assert gs[|gs| - 1] in parent.children;
      SubgroupBodyCount(parent, gs[..|gs| - 1]) + BodyCount(gs[|gs| - 1])
  }

  /**
    `parseGroup`: the bodies of a group in the order they are built: one per
    `path` child, then one per `rect` child, then those of each `g` child.
    Every body keeps the one-`newFixture`-per-extra-shape discipline.
  */
  function CompileGroup(ext: Externals, g: Element, current: Affine): (r: Result<seq<BodyDraft>, LoadError>)
    ensures r.Success? ==> |r.value| == BodyCount(g)
    ensures r.Success? ==> forall i :: 0 <= i < |r.value| ==> OneFixturePerShape(r.value[i].calls)
    decreases g, 1, 0
  {
    var t :- ElementTransform(ext, g, current);
    var paths :- Bodies(ext, ChildrenByName(g, "path"), t);
    var rects :- Bodies(ext, ChildrenByName(g, "rect"), t);
    var subs :- CompileSubgroups(ext, g, ChildrenByName(g, "g"), t);
    DisciplineConcat(paths, rects, subs);
    Success(paths + rects + subs)
  }

  /** Bodies that each keep the fixture discipline, joined, still do. */
  lemma DisciplineConcat(a: seq<BodyDraft>, b: seq<BodyDraft>, c: seq<BodyDraft>)
    requires forall i :: 0 <= i < |a| ==> OneFixturePerShape(a[i].calls)
    requires forall i :: 0 <= i < |b| ==> OneFixturePerShape(b[i].calls)
    requires forall i :: 0 <= i < |c| ==> OneFixturePerShape(c[i].calls)
    ensures forall i :: 0 <= i < |a + b + c| ==> OneFixturePerShape((a + b + c)[i].calls)
  {
    forall i | 0 <= i < |a + b + c|
      ensures OneFixturePerShape((a + b + c)[i].calls)
    {
      if i < |a| {
        assert (a + b + c)[i] == a[i];
      } else if i < |a| + |b| {
        assert (a + b + c)[i] == b[i - |a|];
      } else {
        assert (a + b + c)[i] == c[i - |a| - |b|];
      }
    }
  }

  /** The `g` children of a group, compiled in order inside the group's transform. */
  function CompileSubgroups(ext: Externals, parent: Element, gs: seq<Element>, t: Affine): (r: Result<seq<BodyDraft>, LoadError>)
    requires forall x :: x in gs ==> x in parent.children
    ensures r.Success? ==> |r.value| == SubgroupBodyCount(parent, gs)
    ensures r.Success? ==> forall i :: 0 <= i < |r.value| ==> OneFixturePerShape(r.value[i].calls)
    decreases parent, 0, |gs|
  {
    if |gs| == 0 then Success([])
    else
      var init :- CompileSubgroups(ext, parent, gs[..|gs| - 1], t);
      assert gs[|gs| - 1] in parent.children;
      var last :- CompileGroup(ext, gs[|gs| - 1], t);
      Success(init + last)
  }

  /** Once the subgroups of a prefix have failed, compiling all of them fails the same way. */
  lemma {:induction false} SubgroupsFailureSticks(ext: Externals, parent: Element, gs: seq<Element>, t: Affine, j: nat)
    requires forall x :: x in gs ==> x in parent.children
    requires j <= |gs|
    requires CompileSubgroups(ext, parent, gs[..j], t).Failure?
    ensures CompileSubgroups(ext, parent, gs, t) == CompileSubgroups(ext, parent, gs[..j], t)
    decreases |gs| - j
  {
    if j < |gs| {
      assert gs[..j + 1][..j] == gs[..j];
      SubgroupsFailureSticks(ext, parent, gs, t, j + 1);
    } else {
      assert gs[..j] == gs;
    }
  }

  // ---------------------------------------------------------------------
  // The Meta layer
  // ---------------------------------------------------------------------

  /** The object name of a marker found by prefix; every element `ChildrenByPrefix` returns has one. */
  function MarkerName(e: Element, prefix: string): string {
    if LabelStartsWith(e, prefix) then ObjectName(e, prefix) else ""
  }

  /** A particle effect at the centre of a `part:` rect. */
  function ParticleAt(ext: Externals, e: Element, t: Affine): (r: Result<Particle, LoadError>)
    ensures r.Success? <==> RectCenter(ext, e, t).Success?
    ensures r.Success? ==> r.value.position == RectCenter(ext, e, t).value
    ensures r.Success? && LabelStartsWith(e, PREFIX_PARTICLE) ==> PREFIX_PARTICLE + r.value.kind == e.attributes[LABEL]
  {
    var center :- RectCenter(ext, e, t);
    Success(Particle(MarkerName(e, PREFIX_PARTICLE), center))
  }

  /** A kill zone over the four transformed corners of a `kill` rect. */
  function KillZone(ext: Externals, e: Element, t: Affine): (r: Result<ActorRecord, LoadError>)
    ensures r.Success? <==> RectPoly(ext, e, t).Success?
    ensures r.Success? ==> r.value == KillboxActor(RectPoly(ext, e, t).value) && |r.value.corners| == 4
  {
    var corners :- RectPoly(ext, e, t);
    Success(KillboxActor(corners))
  }

  /** A goal zone over the four transformed corners of a `win` rect. */
  function WinZone(ext: Externals, e: Element, t: Affine): (r: Result<ActorRecord, LoadError>)
    ensures r.Success? <==> RectPoly(ext, e, t).Success?
    ensures r.Success? ==> r.value == WinboxActor(RectPoly(ext, e, t).value) && |r.value.corners| == 4
  {
    var corners :- RectPoly(ext, e, t);
    Success(WinboxActor(corners))
  }

  /** A point light at a `light` circle, reaching twice its radius, in its fill colour. */
  function PointLightAt(ext: Externals, e: Element, t: Affine): (r: Result<Light, LoadError>)
    ensures r.Success? <==> ParseCircle(ext, e, t).Success? && StyleColor(ext, e).Success?
    ensures r.Success? ==>
              && r.value.PointLight?
              && r.value.distance == 2.0 * ParseCircle(ext, e, t).value.radius
              && r.value.distance >= 0.0
              && r.value.color == StyleColor(ext, e).value
              && r.value.x == ParseCircle(ext, e, t).value.x && r.value.y == ParseCircle(ext, e, t).value.y
  {
    var circle :- ParseCircle(ext, e, t);
    var color :- StyleColor(ext, e);
    Success(PointLight(color, circle.radius * 2.0, circle.x, circle.y))
  }

  /**
    A cone light at a `conelight` arc, reaching seven times its radius,
    pointing at the middle of its two angles and opening half their
    difference either side, in degrees.
  */
  function ConeLightAt(ext: Externals, e: Element, t: Affine): (r: Result<Light, LoadError>)
    ensures r.Success? <==> ParseArc(ext, e, t).Success? && StyleColor(ext, e).Success?
    ensures r.Success? ==>
              var arc := ParseArc(ext, e, t).value;
              && r.value.ConeLight?
              && r.value.x == arc.x && r.value.y == arc.y
              && r.value.color == StyleColor(ext, e).value
              && r.value.distance == 7.0 * arc.r && r.value.distance >= 0.0
              && r.value.coneDegree >= 0.0
              && r.value.direction - r.value.coneDegree == RAD_DEG * Min(arc.a1, arc.a2)
              && r.value.direction + r.value.coneDegree == RAD_DEG * Max(arc.a1, arc.a2)
  {
    var arc :- ParseArc(ext, e, t);
    var color :- StyleColor(ext, e);
    var direction := RAD_DEG * (arc.a2 + arc.a1) / 2.0;
    var cone := RAD_DEG * Abs(arc.a2 - arc.a1) / 2.0;
    ConeEdges(arc.a1, arc.a2);
    Success(ConeLight(color, arc.r * 7.0, arc.x, arc.y, direction, cone))
  }

  function Min(a: real, b: real): real {
    if a <= b then a else b
  }

  function Max(a: real, b: real): real {
    if a <= b then b else a
  }

  /** The cone's direction plus or minus its half-angle gives back the two arc angles. */
  lemma ConeEdges(a1: real, a2: real)
    ensures RAD_DEG * (a2 + a1) / 2.0 - RAD_DEG * Abs(a2 - a1) / 2.0 == RAD_DEG * Min(a1, a2)
    ensures RAD_DEG * (a2 + a1) / 2.0 + RAD_DEG * Abs(a2 - a1) / 2.0 == RAD_DEG * Max(a1, a2)
    ensures RAD_DEG * Abs(a2 - a1) / 2.0 >= 0.0
  {
    var k := RAD_DEG;
    assert k > 0.0;
    if a1 <= a2 {
      assert k * (a2 + a1) - k * (a2 - a1) == k * (2.0 * a1);
      assert k * (a2 + a1) + k * (a2 - a1) == k * (2.0 * a2);
    } else {
      assert Abs(a2 - a1) == a1 - a2;
      assert k * (a2 + a1) - k * (a1 - a2) == k * (2.0 * a2);
      assert k * (a2 + a1) + k * (a1 - a2) == k * (2.0 * a1);
    }
  }

  function ParticleReader(ext: Externals, t: Affine): Element -> Result<Particle, LoadError> {
    e => ParticleAt(ext, e, t)
  }

  function KillReader(ext: Externals, t: Affine): Element -> Result<ActorRecord, LoadError> {
    e => KillZone(ext, e, t)
  }

  function WinReader(ext: Externals, t: Affine): Element -> Result<ActorRecord, LoadError> {
    e => WinZone(ext, e, t)
  }

  function PointLightReader(ext: Externals, t: Affine): Element -> Result<Light, LoadError> {
    e => PointLightAt(ext, e, t)
  }

  function ConeLightReader(ext: Externals, t: Affine): Element -> Result<Light, LoadError> {
    e => ConeLightAt(ext, e, t)
  }

  /** The `spawn` rect's centre (the rect must exist) and the bounds of the `screen` rect. */
  function ReadAnchors(ext: Externals, meta: Element, t: Affine): (r: Result<(Vec, Rect), LoadError>)
    ensures ChildByLabel(meta, "rect", LABEL_SPAWN) == Success(None) ==> r == Failure(MissingMarker(LABEL_SPAWN))
    ensures r.Success? ==>
              && ChildByLabel(meta, "rect", LABEL_SPAWN).Success? && ChildByLabel(meta, "rect", LABEL_SPAWN).value.Some?
              && RectCenter(ext, ChildByLabel(meta, "rect", LABEL_SPAWN).value.value, t) == Success(r.value.0)
    ensures r.Success? ==>
              && ChildByLabel(meta, "rect", LABEL_SCREEN).Success? && ChildByLabel(meta, "rect", LABEL_SCREEN).value.Some?
              && RectPoly(ext, ChildByLabel(meta, "rect", LABEL_SCREEN).value.value, t).Success?
              && r.value.1 == BoundsOf(RectPoly(ext, ChildByLabel(meta, "rect", LABEL_SCREEN).value.value, t).value)
  {
    var spawnRect :- ChildByLabel(meta, "rect", LABEL_SPAWN);
    if spawnRect.None? then Failure(MissingMarker(LABEL_SPAWN))
    else
      var spawn :- RectCenter(ext, spawnRect.value, t);
      var screenRect :- ChildByLabel(meta, "rect", LABEL_SCREEN);
      if screenRect.None? then Failure(MissingMarker(LABEL_SCREEN))
      else
        var boundsPoly :- RectPoly(ext, screenRect.value, t);
        Success((spawn, BoundsOf(boundsPoly)))
  }

  /** The `kill` zones then the `win` zones, each in document order. */
  function ReadZones(ext: Externals, meta: Element, t: Affine): (r: Result<seq<ActorRecord>, LoadError>)
    ensures var kills := ChildrenByPrefix(meta, "rect", PREFIX_KILL);
            var wins := ChildrenByPrefix(meta, "rect", PREFIX_WIN);
            r.Success? <==>
              && (forall i :: 0 <= i < |kills| ==> KillZone(ext, kills[i], t).Success?)
              && (forall i :: 0 <= i < |wins| ==> WinZone(ext, wins[i], t).Success?)
    ensures r.Success? ==>
              var kills := ChildrenByPrefix(meta, "rect", PREFIX_KILL);
              var wins := ChildrenByPrefix(meta, "rect", PREFIX_WIN);
              && |r.value| == |kills| + |wins|
              && (forall i :: 0 <= i < |kills| ==> KillZone(ext, kills[i], t) == Success(r.value[i]))
              && (forall i :: 0 <= i < |wins| ==> WinZone(ext, wins[i], t) == Success(r.value[|kills| + i]))
  {
    var killRects := ChildrenByPrefix(meta, "rect", PREFIX_KILL);
    var winRects := ChildrenByPrefix(meta, "rect", PREFIX_WIN);
    assert forall e :: KillReader(ext, t)(e) == KillZone(ext, e, t);
    assert forall e :: WinReader(ext, t)(e) == WinZone(ext, e, t);
    MapBoth(killRects, KillReader(ext, t), winRects, WinReader(ext, t))
  }

  /** The point lights of the `light` circles, one per circle in document order. */
  function PointLights(ext: Externals, meta: Element, t: Affine): (r: Result<seq<Light>, LoadError>)
    ensures var circles := ChildrenByPrefix(meta, "circle", PREFIX_LIGHT);
            r.Success? <==> forall i :: 0 <= i < |circles| ==> PointLightAt(ext, circles[i], t).Success?
    ensures r.Success? ==>
              var circles := ChildrenByPrefix(meta, "circle", PREFIX_LIGHT);
              && |r.value| == |circles|
              && forall i :: 0 <= i < |circles| ==> PointLightAt(ext, circles[i], t) == Success(r.value[i])
    ensures r.Success? ==> forall i :: 0 <= i < |r.value| ==> r.value[i].distance >= 0.0
  {
    var circles := ChildrenByPrefix(meta, "circle", PREFIX_LIGHT);
    assert forall e :: PointLightReader(ext, t)(e) == PointLightAt(ext, e, t);
    MapAll(circles, PointLightReader(ext, t))
  }

  /** The cone lights of the `conelight` arcs, one per arc in document order. */
  function ConeLights(ext: Externals, meta: Element, t: Affine): (r: Result<seq<Light>, LoadError>)
    ensures var arcs := ChildrenByPrefix(meta, "path", PREFIX_CONE_LIGHT);
            r.Success? <==> forall i :: 0 <= i < |arcs| ==> ConeLightAt(ext, arcs[i], t).Success?
    ensures r.Success? ==>
              var arcs := ChildrenByPrefix(meta, "path", PREFIX_CONE_LIGHT);
              && |r.value| == |arcs|
              && forall i :: 0 <= i < |arcs| ==> ConeLightAt(ext, arcs[i], t) == Success(r.value[i])
    ensures r.Success? ==> forall i :: 0 <= i < |r.value| ==> r.value[i].distance >= 0.0
  {
    var arcs := ChildrenByPrefix(meta, "path", PREFIX_CONE_LIGHT);
    assert forall e :: ConeLightReader(ext, t)(e) == ConeLightAt(ext, e, t);
    MapAll(arcs, ConeLightReader(ext, t))
  }

  /** The point lights then the cone lights. */
  function ReadLights(ext: Externals, meta: Element, t: Affine): (r: Result<seq<Light>, LoadError>)
    ensures r.Success? <==> PointLights(ext, meta, t).Success? && ConeLights(ext, meta, t).Success?
    ensures r.Success? ==> r.value == PointLights(ext, meta, t).value + ConeLights(ext, meta, t).value
    ensures r.Success? ==> forall i :: 0 <= i < |r.value| ==> r.value[i].distance >= 0.0
  {
    var points :- PointLights(ext, meta, t);
    var cones :- ConeLights(ext, meta, t);
    ReachesConcat(points, cones);
    Success(points + cones)
  }

  /** Lights that all reach a non-negative distance, joined, still do. */
  lemma ReachesConcat(a: seq<Light>, b: seq<Light>)
    requires forall i :: 0 <= i < |a| ==> a[i].distance >= 0.0
    requires forall i :: 0 <= i < |b| ==> b[i].distance >= 0.0
    ensures forall i :: 0 <= i < |a + b| ==> (a + b)[i].distance >= 0.0
  {
    forall i | 0 <= i < |a + b|
      ensures (a + b)[i].distance >= 0.0
    {
      if i >= |a| {
        assert (a + b)[i] == b[i - |a|];
      }
    }
  }

  /** The lights of the Meta layer are read exactly when every `light` circle and every `conelight` arc reads. */
  lemma ReadLightsSucceeds(ext: Externals, meta: Element, t: Affine)
    ensures var circles := ChildrenByPrefix(meta, "circle", PREFIX_LIGHT);
            var arcs := ChildrenByPrefix(meta, "path", PREFIX_CONE_LIGHT);
            ReadLights(ext, meta, t).Success? <==>
              && (forall i :: 0 <= i < |circles| ==> PointLightAt(ext, circles[i], t).Success?)
              && (forall i :: 0 <= i < |arcs| ==> ConeLightAt(ext, arcs[i], t).Success?)
  {
  }

  /** The first lights of the Meta layer: the light of the i-th `light` circle at index i. */
  lemma ReadLightsPointsFirst(ext: Externals, meta: Element, t: Affine)
    ensures ReadLights(ext, meta, t).Success? ==>
              var lights := ReadLights(ext, meta, t).value;
              var circles := ChildrenByPrefix(meta, "circle", PREFIX_LIGHT);
              && |lights| == |circles| + |ChildrenByPrefix(meta, "path", PREFIX_CONE_LIGHT)|
              && forall i :: 0 <= i < |circles| ==> PointLightAt(ext, circles[i], t) == Success(lights[i])
  {
  }

  /** The remaining lights of the Meta layer: the light of the i-th `conelight` arc comes after all the point lights. */
  lemma ReadLightsConeAt(ext: Externals, meta: Element, t: Affine, i: nat)
    requires ReadLights(ext, meta, t).Success?
    requires i < |ChildrenByPrefix(meta, "path", PREFIX_CONE_LIGHT)|
    ensures |ChildrenByPrefix(meta, "circle", PREFIX_LIGHT)| + i < |ReadLights(ext, meta, t).value|
    ensures ConeLightAt(ext, ChildrenByPrefix(meta, "path", PREFIX_CONE_LIGHT)[i], t)
            == Success(ReadLights(ext, meta, t).value[|ChildrenByPrefix(meta, "circle", PREFIX_LIGHT)| + i])
  {
    ConesFollowPoints(ext, meta, t, i);
    ConeLightOf(ext, meta, t, i);
  }

  lemma ConesFollowPoints(ext: Externals, meta: Element, t: Affine, i: nat)
    requires ReadLights(ext, meta, t).Success?
    requires i < |ConeLights(ext, meta, t).value|
    ensures |PointLights(ext, meta, t).value| + i < |ReadLights(ext, meta, t).value|
    ensures ReadLights(ext, meta, t).value[|PointLights(ext, meta, t).value| + i] == ConeLights(ext, meta, t).value[i]
  {
  }

  lemma ConeLightOf(ext: Externals, meta: Element, t: Affine, i: nat)
    requires ConeLights(ext, meta, t).Success?
    requires i < |ChildrenByPrefix(meta, "path", PREFIX_CONE_LIGHT)|
    ensures i < |ConeLights(ext, meta, t).value|
    ensures ConeLightAt(ext, ChildrenByPrefix(meta, "path", PREFIX_CONE_LIGHT)[i], t) == Success(ConeLights(ext, meta, t).value[i])
  {
  }

  /** What the Meta layer yields: spawn point, camera bounds, particles, zone actors and lights. */
  datatype Markers = Markers(spawn: Vec, cameraBounds: Rect, particles: seq<Particle>, actors: seq<ActorRecord>, lights: seq<Light>)

  /**
    The markers of the Meta layer under its transform `t`, in the order the
    constructor reads them: the `spawn` rect (which must exist), the `screen`
    rect's bounds, then `part:` rects, the zones and the lights.
  */
  function ReadMeta(ext: Externals, meta: Element, t: Affine): (r: Result<Markers, LoadError>)
    ensures ChildByLabel(meta, "rect", LABEL_SPAWN) == Success(None) ==> r == Failure(MissingMarker(LABEL_SPAWN))
    ensures r.Success? ==> ReadAnchors(ext, meta, t) == Success((r.value.spawn, r.value.cameraBounds))
    ensures r.Success? ==> MapAll(ChildrenByPrefix(meta, "rect", PREFIX_PARTICLE), ParticleReader(ext, t)) == Success(r.value.particles)
    ensures r.Success? ==> ReadZones(ext, meta, t) == Success(r.value.actors)
    ensures r.Success? ==> ReadLights(ext, meta, t) == Success(r.value.lights)
  {
    var anchors :- ReadAnchors(ext, meta, t);
    var particles :- MapAll(ChildrenByPrefix(meta, "rect", PREFIX_PARTICLE), ParticleReader(ext, t));
    var zones :- ReadZones(ext, meta, t);
    var lights :- ReadLights(ext, meta, t);
    Success(Markers(anchors.0, anchors.1, particles, zones, lights))
  }

  // ---------------------------------------------------------------------
  // The whole constructor
  // ---------------------------------------------------------------------

  /** Everything a successfully constructed level holds. */
  datatype LevelData = LevelData(frame: Frame, bodies: seq<BodyDraft>, markers: Markers)

  /**
    The `SVGLevelActor` constructor: calibrate, build the Physics layer under
    the view matrix, then read the Meta layer under its own transform inside
    the view matrix.
  */
  function Assemble(ext: Externals, level: Element): (r: Result<LevelData, LoadError>)
    ensures r.Success? ==> Calibrate(ext, level) == Success(r.value.frame)
    ensures r.Success? ==> r.value.frame.physics.Some? && |r.value.bodies| == BodyCount(r.value.frame.physics.value)
    ensures r.Success? ==> forall i :: 0 <= i < |r.value.bodies| ==> OneFixturePerShape(r.value.bodies[i].calls)
    ensures r.Success? ==>
              && ElementTransform(ext, r.value.frame.meta, r.value.frame.view).Success?
              && ReadMeta(ext, r.value.frame.meta, ElementTransform(ext, r.value.frame.meta, r.value.frame.view).value) == Success(r.value.markers)
    ensures Calibrate(ext, level).Success? && Calibrate(ext, level).value.physics.None? ==> r == Failure(MissingLayer(LAYER_PHYSICS))
  {
    var frame :- Calibrate(ext, level);
    if frame.physics.None? then Failure(MissingLayer(LAYER_PHYSICS))
    else
      var bodies :- CompileGroup(ext, frame.physics.value, frame.view);
      var metaTransform :- ElementTransform(ext, frame.meta, frame.view);
      var markers :- ReadMeta(ext, frame.meta, metaTransform);
      Success(LevelData(frame, bodies, markers))
  }

  /** A level loads only when its Meta layer has both a `screen` and a `spawn` rect. */
  lemma LoadedLevelHasMarkers(ext: Externals, level: Element)
    requires Assemble(ext, level).Success?
    ensures ChildByLabel(level, "g", LAYER_META).Success? && ChildByLabel(level, "g", LAYER_META).value.Some?
    ensures var meta := ChildByLabel(level, "g", LAYER_META).value.value;
            && ChildByLabel(meta, "rect", LABEL_SCREEN).Success? && ChildByLabel(meta, "rect", LABEL_SCREEN).value.Some?
            && ChildByLabel(meta, "rect", LABEL_SPAWN).Success? && ChildByLabel(meta, "rect", LABEL_SPAWN).value.Some?
  {
  }
}
