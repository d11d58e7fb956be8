/**
  What `SVGLevelActor` reads from a single SVG element: its effective
  transform, a rectangle as four corners, a circle, an Inkscape arc, a fill
  colour from the `style` attribute and physics properties from `desc`.
*/
module SvgShapes {
  import opened Wrappers
  import opened Geometry
  import opened JavaText
  import opened BodyBuilding
  import opened SvgDocument
  import PathDecoder

  /** libGDX `Color`: four components, normally within [0, 1]. */
  datatype Color = Color(r: real, g: real, b: real, a: real)

  /**
    The library routines the loader calls, as parameters: `Float.parseFloat`,
    Batik's transform-list and path parsers, `Color.valueOf`, the polygon
    triangulation and `Vector2.dst`; `None` where the routine throws.
    `levelHeight` is `GameRules.LEVEL_HEIGHT`.
  */
  datatype Externals = Externals(
    parseFloat: string -> Option<real>,
    parseTransform: string -> Option<Affine>,
    parsePath: string -> Option<seq<PathDecoder.PathCommand>>,
    colorOf: string -> Option<Color>,
    triangulate: seq<Vec> -> seq<seq<Vec>>,
    dst: (Vec, Vec) -> real,
    levelHeight: real)

  const PI: real := 3.141592653589793

  /** `Float.parseFloat` where the source lets a malformed number escape. */
  function Number(ext: Externals, text: string): (r: Result<real, LoadError>)
    ensures r.Success? <==> ext.parseFloat(text).Some?
    ensures r.Success? ==> r.value == ext.parseFloat(text).value
  {
    match ext.parseFloat(text)
    case None => Failure(BadNumber(text))
    case Some(v) => Success(v)
  }

  /** `Float.parseFloat(e.getAttribute(name))`. */
  function NumberAttribute(ext: Externals, e: Element, attribute: string): (r: Result<real, LoadError>)
    ensures attribute !in e.attributes ==> r == Failure(MissingAttribute(attribute))
    ensures r.Success? ==> attribute in e.attributes && ext.parseFloat(e.attributes[attribute]) == Some(r.value)
  {
    var text :- RequireAttribute(e, attribute);
    Number(ext, text)
  }

  /**
    `createTransform`: the element's own `transform` attribute; an absent
    attribute is the identity, one the parser rejects aborts the load.
  */
  function CreateTransform(ext: Externals, e: Element): (r: Result<Affine, LoadError>)
    ensures "transform" !in e.attributes ==> r == Success(Identity)
    ensures "transform" in e.attributes ==>
              (r.Success? <==> ext.parseTransform(e.attributes["transform"]).Some?)
    ensures r.Success? && "transform" in e.attributes ==> Some(r.value) == ext.parseTransform(e.attributes["transform"])
  {
    if "transform" !in e.attributes then Success(Identity)
    else
      match ext.parseTransform(e.attributes["transform"])
      case None => Failure(BadTransform)
      case Some(t) => Success(t)
  }

  /**
    The transform for an element inside `current`: its own transform
    pre-concatenated with the enclosing one, so its own acts first.
  */
  function ElementTransform(ext: Externals, e: Element, current: Affine): (r: Result<Affine, LoadError>)
    ensures r.Success? <==> CreateTransform(ext, e).Success?
    ensures "transform" !in e.attributes ==> r == Success(current)
  {
    var own :- CreateTransform(ext, e);
    IdentityNeutral(current);
    Success(PreConcatenate(own, current))
  }

  /** The element's own transform acts on a point first, then the enclosing one. */
  lemma OwnTransformFirst(ext: Externals, e: Element, current: Affine, p: Vec)
    requires CreateTransform(ext, e).Success?
    ensures Apply(ElementTransform(ext, e, current).value, p) == Apply(current, Apply(CreateTransform(ext, e).value, p))
  {
    ApplyPreConcatenate(CreateTransform(ext, e).value, current, p);
  }

  /** The transform of an element whose own transforms, outermost first, are `owns`, inside `view`. */
  function Nest(view: Affine, owns: seq<Affine>): Affine
    decreases |owns|
  {
    if |owns| == 0 then view else Nest(PreConcatenate(owns[0], view), owns[1..])
  }

  /** Applies the innermost transform first and the outermost last. */
  function InnermostFirst(owns: seq<Affine>, p: Vec): Vec
    decreases |owns|
  {
    if |owns| == 0 then p else Apply(owns[0], InnermostFirst(owns[1..], p))
  }

  /**
    Transform composition for nested elements: the element's own transform
    acts first, then each enclosing group's outwards, then the view matrix.
  */
  lemma {:induction false} NestOrder(view: Affine, owns: seq<Affine>, p: Vec)
    ensures Apply(Nest(view, owns), p) == Apply(view, InnermostFirst(owns, p))
    decreases |owns|
  {
    if |owns| > 0 {
      NestOrder(PreConcatenate(owns[0], view), owns[1..], p);
      ApplyPreConcatenate(owns[0], view, InnermostFirst(owns[1..], p));
    }
  }

  /** Nesting one more element inside the chain is one more `preConcatenate`. */
  lemma {:induction false} NestAppend(view: Affine, owns: seq<Affine>, own: Affine)
    ensures Nest(view, owns + [own]) == PreConcatenate(own, Nest(view, owns))
    decreases |owns|
  {
    if |owns| == 0 {
      assert owns + [own] == [own];
    } else {
      assert (owns + [own])[1..] == owns[1..] + [own];
      NestAppend(PreConcatenate(owns[0], view), owns[1..], own);
    }
  }

  /**
    `parseGroup` hands each child the transform it computed for the group:
    when the enclosing transform is the view under a chain of own transforms,
    the child's transform is that chain with the child's own appended.
  */
  lemma ElementTransformNests(ext: Externals, e: Element, view: Affine, owns: seq<Affine>)
    requires CreateTransform(ext, e).Success?
    ensures ElementTransform(ext, e, Nest(view, owns)).value == Nest(view, owns + [CreateTransform(ext, e).value])
  {
    NestAppend(view, owns, CreateTransform(ext, e).value);
  }

  /**
    The corners of an SVG rect before transforming, in the order the source
    documents: bottom left (x, y), top left, top right, bottom right.
  */
  function RectCorners(x: real, y: real, w: real, h: real): (r: seq<Vec>)
    ensures |r| == 4
    ensures r[0] == Vec(x, y) && Sub(r[2], r[0]) == Vec(w, h)
    ensures r[1] == Vec(r[0].x, r[2].y) && r[3] == Vec(r[2].x, r[0].y)
  {
    var p0 := Vec(x, y);
    var p2 := Vec(p0.x + w, p0.y + h);
    [p0, Vec(p0.x, p2.y), p2, Vec(p2.x, p0.y)]
  }

  function TransformAll(t: Affine, ps: seq<Vec>): (r: seq<Vec>)
    ensures |r| == |ps|
    ensures forall i :: 0 <= i < |ps| ==> r[i] == Apply(t, ps[i])
  {
    seq(|ps|, i requires 0 <= i < |ps| => Apply(t, ps[i]))
  }

  /** The x, y, width and height of a rect, read in that order. */
  function RectGeometry(ext: Externals, e: Element): Result<Rect, LoadError> {
    var x :- NumberAttribute(ext, e, "x");
    var y :- NumberAttribute(ext, e, "y");
    var w :- NumberAttribute(ext, e, "width");
    var h :- NumberAttribute(ext, e, "height");
    Success(Rect(x, y, w, h))
  }

  /** What `parseRectAsPoly` computes: the four corners under the element's transform. */
  function RectPoly(ext: Externals, e: Element, current: Affine): (r: Result<seq<Vec>, LoadError>)
    ensures r.Success? ==> |r.value| == 4 && Add(r.value[0], r.value[2]) == Add(r.value[1], r.value[3])
    ensures r.Success? <==> ElementTransform(ext, e, current).Success? && RectGeometry(ext, e).Success?
    ensures r.Success? ==>
              && RectGeometry(ext, e).Success?
              && var g := RectGeometry(ext, e).value;
                 r.value == TransformAll(ElementTransform(ext, e, current).value, RectCorners(g.x, g.y, g.width, g.height))
  {
    var t :- ElementTransform(ext, e, current);
    var g :- RectGeometry(ext, e);
    var corners := RectCorners(g.x, g.y, g.width, g.height);
    ApplyPairSum(t, corners[0], corners[2], corners[1], corners[3]);
    Success(TransformAll(t, corners))
  }

  /**
    `parseRectAsPoly`: fills an array of four corners, then transforms each in
    place.
  */
  method ParseRectAsPoly(ext: Externals, e: Element, current: Affine) returns (r: Result<seq<Vec>, LoadError>)
    ensures r == RectPoly(ext, e, current)
  {
    var t :- ElementTransform(ext, e, current);
    var g :- RectGeometry(ext, e);
    var corners := TransformedCorners(t, g);
    r := Success(corners);
  }

  /** The array work of `parseRectAsPoly`: corners filled in, then each transformed in place. */
  method TransformedCorners(t: Affine, g: Rect) returns (ps: seq<Vec>)
    ensures ps == TransformAll(t, RectCorners(g.x, g.y, g.width, g.height))
  {
    var p := new Vec[4](_ => Vec(0.0, 0.0));
    p[0] := Vec(g.x, g.y);
    p[2] := Vec(p[0].x + g.width, p[0].y + g.height);
    p[1] := Vec(p[0].x, p[2].y);
    p[3] := Vec(p[2].x, p[0].y);
    ghost var corners := RectCorners(g.x, g.y, g.width, g.height);
    assert p[..] == corners;
    var i := 0;
    while i < 4
      invariant 0 <= i <= 4
      invariant forall j :: 0 <= j < i ==> p[j] == Apply(t, corners[j])
      invariant forall j :: i <= j < 4 ==> p[j] == corners[j]
    {
      p[i] := Apply(t, p[i]);
      i := i + 1;
    }
    ps := p[..];
  }

  /** `parseRectGetCenter`: halfway from the first corner to the third. */
  function RectCenter(ext: Externals, e: Element, current: Affine): (r: Result<Vec, LoadError>)
    ensures r.Success? <==> RectPoly(ext, e, current).Success?
    ensures r.Success? ==>
              && ElementTransform(ext, e, current).Success? && RectGeometry(ext, e).Success?
              && r.value == Apply(ElementTransform(ext, e, current).value, Center(RectGeometry(ext, e).value))
  {
    var poly :- RectPoly(ext, e, current);
    var t := ElementTransform(ext, e, current).value;
    var g := RectGeometry(ext, e).value;
    var corners := RectCorners(g.x, g.y, g.width, g.height);
    ApplyMidpoint(t, corners[0], corners[2]);
    assert Lerp(corners[0], corners[2], 0.5) == Center(g);
    Success(Lerp(poly[0], poly[2], 0.5))
  }

  /**
    The bounds the loader derives from a transformed rect: the first corner
    and the extent to the third. For a scale-and-translate transform this gives
    back the rect scaled and moved; under a y-flipping transform the height
    comes out negative.
  */
  function BoundsOf(poly: seq<Vec>): Rect
    requires |poly| == 4
  {
    Rect(poly[0].x, poly[0].y, poly[2].x - poly[0].x, poly[2].y - poly[0].y)
  }

  lemma BoundsRoundTrip(sx: real, sy: real, tx: real, ty: real, g: Rect)
    ensures BoundsOf(TransformAll(Affine(sx, 0.0, 0.0, sy, tx, ty), RectCorners(g.x, g.y, g.width, g.height)))
         == Rect(sx * g.x + tx, sy * g.y + ty, sx * g.width, sy * g.height)
  {
    var t := Affine(sx, 0.0, 0.0, sy, tx, ty);
    var c := RectCorners(g.x, g.y, g.width, g.height);
    var p := TransformAll(t, c);
    assert p[0] == Apply(t, Vec(g.x, g.y)) == Vec(sx * g.x + tx, sy * g.y + ty);
    assert p[2] == Apply(t, Vec(g.x + g.width, g.y + g.height)) == Vec(sx * (g.x + g.width) + tx, sy * (g.y + g.height) + ty);
    assert p[2].x - p[0].x == sx * (g.x + g.width) - sx * g.x;
    assert p[2].y - p[0].y == sy * (g.y + g.height) - sy * g.y;
    Distrib(sx, g.x, g.width);
    Distrib(sy, g.y, g.height);
  }

  /** libGDX `Circle`: centre and radius. */
  datatype Circle = Circle(x: real, y: real, radius: real)

  /** The length `applyDeltaTransform` gives a distance: the x part of the transformed (l, 0). */
  function DeltaLength(t: Affine, l: real): real {
    DeltaApply(t, Vec(l, 0.0)).x
  }

  /** `parseCircle`: the transformed centre, and the radius scaled by the transform, made non-negative. */
  function ParseCircle(ext: Externals, e: Element, current: Affine): (r: Result<Circle, LoadError>)
    ensures r.Success? <==>
              && ElementTransform(ext, e, current).Success? && NumberAttribute(ext, e, "r").Success?
              && NumberAttribute(ext, e, "cx").Success? && NumberAttribute(ext, e, "cy").Success?
    ensures r.Success? ==> r.value.radius >= 0.0
    ensures r.Success? ==>
              && NumberAttribute(ext, e, "cx").Success? && NumberAttribute(ext, e, "cy").Success?
              && Vec(r.value.x, r.value.y)
                 == Apply(ElementTransform(ext, e, current).value, Vec(NumberAttribute(ext, e, "cx").value, NumberAttribute(ext, e, "cy").value))
  {
    var t :- ElementTransform(ext, e, current);
    var cx :- NumberAttribute(ext, e, "cx");
    var cy :- NumberAttribute(ext, e, "cy");
    var radius :- NumberAttribute(ext, e, "r");
    Success(TransformCircle(t, cx, cy, radius))
  }

  /** The radius `parseCircle` gives: the element's radius scaled by the x scale of its transform, without sign. */
  lemma ParseCircleRadius(ext: Externals, e: Element, current: Affine)
    requires ParseCircle(ext, e, current).Success?
    ensures ParseCircle(ext, e, current).value.radius
            == Abs(ElementTransform(ext, e, current).value.m00) * Abs(NumberAttribute(ext, e, "r").value)
  {
    var t := ElementTransform(ext, e, current).value;
    var radius := NumberAttribute(ext, e, "r").value;
    var c := TransformCircle(t, NumberAttribute(ext, e, "cx").value, NumberAttribute(ext, e, "cy").value, radius);
    assert ParseCircle(ext, e, current).value == c;
  }

  /**
    A circle given in element space, in world space: the centre transformed,
    the radius scaled by the transform's x scale, without sign.
  */
  function TransformCircle(t: Affine, cx: real, cy: real, radius: real): (c: Circle)
    ensures Vec(c.x, c.y) == Apply(t, Vec(cx, cy))
    ensures c.radius == Abs(t.m00) * Abs(radius)
    ensures c.radius >= 0.0
  {
    var centre := Apply(t, Vec(cx, cy));
    assert DeltaLength(t, radius) == t.m00 * radius;
    AbsProduct(t.m00, radius);
    Circle(centre.x, centre.y, Abs(DeltaLength(t, radius)))
  }

  lemma AbsProduct(a: real, b: real)
    ensures Abs(a * b) == Abs(a) * Abs(b)
  {
    if a < 0.0 && b < 0.0 {
      assert a * b == (-a) * (-b);
    } else if a < 0.0 {
      assert -(a * b) == (-a) * b;
    } else if b < 0.0 {
      assert -(a * b) == a * (-b);
    }
  }

  /** The sodipodi arc of a cone light, in world space. */
  datatype Arc = Arc(x: real, y: real, r: real, a1: real, a2: real)

  /**
    The angle correction of `parseArc`: reflected about the vertical axis when
    the transform mirrors x, then negated when it mirrors y.
  */
  function MirrorAngle(mirror: Vec, a: real): real {
    var reflected := if mirror.x < 0.0 then PI - a else a;
    if mirror.y < 0.0 then -reflected else reflected
  }

  /** A transform that mirrors one axis only mirrors angles: doing it twice gives back the angle. */
  lemma MirrorAngleInvolution(mirror: Vec, a: real)
    requires !(mirror.x < 0.0 && mirror.y < 0.0)
    ensures MirrorAngle(mirror, MirrorAngle(mirror, a)) == a
  {
  }

  /** A transform that mirrors both axes is a half turn, and turns every angle by pi. */
  lemma DoubleMirrorIsHalfTurn(mirror: Vec, a: real)
    requires mirror.x < 0.0 && mirror.y < 0.0
    ensures MirrorAngle(mirror, a) == a - PI
  {
  }

  /**
    Both angles flip consistently: the cone's opening |a2 - a1| is kept and its
    direction (a1 + a2) / 2 is mirrored like a single angle.
  */
  lemma MirrorKeepsCone(mirror: Vec, a1: real, a2: real)
    ensures Abs(MirrorAngle(mirror, a2) - MirrorAngle(mirror, a1)) == Abs(a2 - a1)
    ensures (MirrorAngle(mirror, a1) + MirrorAngle(mirror, a2)) / 2.0 == MirrorAngle(mirror, (a1 + a2) / 2.0)
  {
  }

  /**
    `parseArc`: the transformed centre, the scaled radius made non-negative, and
    both angles corrected by how the transform maps (1, 1).
  */
  function ParseArc(ext: Externals, e: Element, current: Affine): (r: Result<Arc, LoadError>)
    ensures r.Success? <==>
              && ElementTransform(ext, e, current).Success?
              && NumberAttribute(ext, e, "sodipodi:cx").Success? && NumberAttribute(ext, e, "sodipodi:cy").Success?
              && NumberAttribute(ext, e, "sodipodi:rx").Success?
              && NumberAttribute(ext, e, "sodipodi:start").Success? && NumberAttribute(ext, e, "sodipodi:end").Success?
    ensures r.Success? ==> r.value.r >= 0.0
    ensures r.Success? ==>
              && ElementTransform(ext, e, current).Success?
              && NumberAttribute(ext, e, "sodipodi:cx").Success? && NumberAttribute(ext, e, "sodipodi:cy").Success?
              && Vec(r.value.x, r.value.y)
                 == Apply(ElementTransform(ext, e, current).value,
                          Vec(NumberAttribute(ext, e, "sodipodi:cx").value, NumberAttribute(ext, e, "sodipodi:cy").value))
    ensures r.Success? ==>
              && ElementTransform(ext, e, current).Success?
              && NumberAttribute(ext, e, "sodipodi:start").Success? && NumberAttribute(ext, e, "sodipodi:end").Success?
              && var t := ElementTransform(ext, e, current).value;
              var mirror := DeltaApply(t, Vec(1.0, 1.0));
              && r.value.a1 == MirrorAngle(mirror, NumberAttribute(ext, e, "sodipodi:start").value)
              && r.value.a2 == MirrorAngle(mirror, NumberAttribute(ext, e, "sodipodi:end").value)
              && (mirror.x < 0.0 <==> t.m00 + t.m01 < 0.0)
              && (mirror.y < 0.0 <==> t.m10 + t.m11 < 0.0)
  {
    var t :- ElementTransform(ext, e, current);
    var cx :- NumberAttribute(ext, e, "sodipodi:cx");
    var cy :- NumberAttribute(ext, e, "sodipodi:cy");
    var radius :- NumberAttribute(ext, e, "sodipodi:rx");
    var a1 :- NumberAttribute(ext, e, "sodipodi:start");
    var a2 :- NumberAttribute(ext, e, "sodipodi:end");
    var c := TransformCircle(t, cx, cy, radius);
    var mirror := DeltaApply(t, Vec(1.0, 1.0));
    Success(Arc(c.x, c.y, c.radius, MirrorAngle(mirror, a1), MirrorAngle(mirror, a2)))
  }

  /** The radius `parseArc` gives: the arc's x radius scaled by the x scale of its transform, without sign. */
  lemma ParseArcRadius(ext: Externals, e: Element, current: Affine)
    requires ParseArc(ext, e, current).Success?
    ensures ParseArc(ext, e, current).value.r
            == Abs(ElementTransform(ext, e, current).value.m00) * Abs(NumberAttribute(ext, e, "sodipodi:rx").value)
  {
    var t := ElementTransform(ext, e, current).value;
    var radius := NumberAttribute(ext, e, "sodipodi:rx").value;
    var c := TransformCircle(t, NumberAttribute(ext, e, "sodipodi:cx").value, NumberAttribute(ext, e, "sodipodi:cy").value, radius);
    assert ParseArc(ext, e, current).value.r == c.radius;
  }

  const FILL: string := "fill:#"
  const FILL_OPACITY: string := "fill-opacity:"

  function Clamp01(v: real): (r: real)
    ensures 0.0 <= r <= 1.0
    ensures 0.0 <= v <= 1.0 ==> r == v
  {
    if v < 0.0 then 0.0 else if v > 1.0 then 1.0 else v
  }

  predicate InUnitRange(c: Color) {
    0.0 <= c.r <= 1.0 && 0.0 <= c.g <= 1.0 && 0.0 <= c.b <= 1.0 && 0.0 <= c.a <= 1.0
  }

  /** No token starts with both `fill:#` and `fill-opacity:` (they differ at the fifth character). */
  lemma FillPrefixesDisjoint(token: string)
    ensures !(StartsWith(token, FILL) && StartsWith(token, FILL_OPACITY))
  {
    if StartsWith(token, FILL) {
      assert token[4] == token[..|FILL|][4] == ':';
    }
    if StartsWith(token, FILL_OPACITY) {
      assert token[4] == token[..|FILL_OPACITY|][4] == '-';
    }
  }

  /**
    One `;`-separated style token: `fill:#rrggbb` replaces the whole colour
    (`Color.set(Color)`), `fill-opacity:v` sets alpha through the clamping
    `Color.set(r, g, b, a)`; any other token is ignored.
  */
  function StyleToken(ext: Externals, c: Color, token: string): (r: Result<Color, LoadError>)
    ensures !StartsWith(token, FILL) && !StartsWith(token, FILL_OPACITY) ==> r == Success(c)
    ensures StartsWith(token, FILL) ==> (r.Success? <==> ext.colorOf(token[|FILL|..]).Some?)
    ensures StartsWith(token, FILL) && r.Success? ==> r.value == ext.colorOf(token[|FILL|..]).value
    ensures StartsWith(token, FILL_OPACITY) ==> (r.Success? <==> ext.parseFloat(token[|FILL_OPACITY|..]).Some?)
    ensures StartsWith(token, FILL_OPACITY) && r.Success? ==>
              && ext.parseFloat(token[|FILL_OPACITY|..]).Some?
              && r.value.a == Clamp01(ext.parseFloat(token[|FILL_OPACITY|..]).value)
    ensures StartsWith(token, FILL_OPACITY) && r.Success? && InUnitRange(c) ==>
              r.value.r == c.r && r.value.g == c.g && r.value.b == c.b && 0.0 <= r.value.a <= 1.0
  {
    FillPrefixesDisjoint(token);
    if StartsWith(token, FILL) then
      match ext.colorOf(token[|FILL|..])
      case None => Failure(BadColor)
      case Some(k) => Success(k)
    else if StartsWith(token, FILL_OPACITY) then
      var alpha :- Number(ext, token[|FILL_OPACITY|..]);
      Success(Color(Clamp01(c.r), Clamp01(c.g), Clamp01(c.b), Clamp01(alpha)))
    else Success(c)
  }

  /** The colour after the first `n` tokens, starting from `new Color()` (all zero). */
  function StyleFold(ext: Externals, tokens: seq<string>): Result<Color, LoadError>
    decreases |tokens|
  {
    if |tokens| == 0 then Success(Color(0.0, 0.0, 0.0, 0.0))
    else
      var c :- StyleFold(ext, tokens[..|tokens| - 1]);
      StyleToken(ext, c, tokens[|tokens| - 1])
  }

  function StyleTokens(ext: Externals, e: Element): Result<seq<string>, LoadError> {
    var style :- RequireAttribute(e, "style");
    Success(Split(style, ';'))
  }

  /** What `colorFromStyle` computes; a missing `style` attribute aborts the load. */
  function StyleColor(ext: Externals, e: Element): (r: Result<Color, LoadError>)
    ensures "style" !in e.attributes ==> r == Failure(MissingAttribute("style"))
  {
    var tokens :- StyleTokens(ext, e);
    StyleFold(ext, tokens)
  }

  /** `colorFromStyle`: one pass over the style tokens updating a colour. */
  method ColorFromStyle(ext: Externals, e: Element) returns (r: Result<Color, LoadError>)
    ensures r == StyleColor(ext, e)
  {
    var tokens :- StyleTokens(ext, e);
    var color := Color(0.0, 0.0, 0.0, 0.0);
    var i := 0;
    while i < |tokens|
      invariant 0 <= i <= |tokens|
      invariant StyleFold(ext, tokens[..i]) == Success(color)
    {
      assert tokens[..i + 1][..i] == tokens[..i];
      var next := StyleToken(ext, color, tokens[i]);
      if next.Failure? {
        StyleFailureSticks(ext, tokens, i + 1);
        return next;
      }
      color := next.value;
      i := i + 1;
    }
    assert tokens[..i] == tokens;
    r := Success(color);
  }

  /** Once a token fails, the rest of the style is not looked at: the whole fold fails the same way. */
  lemma {:induction false} StyleFailureSticks(ext: Externals, tokens: seq<string>, j: nat)
    requires j <= |tokens|
    requires StyleFold(ext, tokens[..j]).Failure?
    ensures StyleFold(ext, tokens) == StyleFold(ext, tokens[..j])
    decreases |tokens|
  {
    if j < |tokens| {
      var front := tokens[..|tokens| - 1];
      assert front[..j] == tokens[..j];
      StyleFailureSticks(ext, front, j);
    } else {
      assert tokens[..j] == tokens;
    }
  }

  /** Tokens that neither fill nor set opacity leave the default, transparent black. */
  lemma {:induction false} NoFillIsTransparentBlack(ext: Externals, tokens: seq<string>)
    requires forall i :: 0 <= i < |tokens| ==> !StartsWith(tokens[i], FILL) && !StartsWith(tokens[i], FILL_OPACITY)
    ensures StyleFold(ext, tokens) == Success(Color(0.0, 0.0, 0.0, 0.0))
    decreases |tokens|
  {
    if |tokens| > 0 {
      NoFillIsTransparentBlack(ext, tokens[..|tokens| - 1]);
    }
  }

  /**
    The red, green and blue of the result are those of the last `fill` token:
    later `fill-opacity` tokens change only alpha (for library colours within [0, 1]).
  */
  lemma {:induction false} LastFillGivesRgb(ext: Externals, tokens: seq<string>, k: nat)
    requires forall s :: ext.colorOf(s).Some? ==> InUnitRange(ext.colorOf(s).value)
    requires k < |tokens| && StartsWith(tokens[k], FILL)
    requires forall j :: k < j < |tokens| ==> !StartsWith(tokens[j], FILL)
    requires StyleFold(ext, tokens).Success?
    ensures ext.colorOf(tokens[k][|FILL|..]).Some?
    ensures var c := StyleFold(ext, tokens).value;
            var f := ext.colorOf(tokens[k][|FILL|..]).value;
            c.r == f.r && c.g == f.g && c.b == f.b && InUnitRange(c)
    decreases |tokens|
  {
    var n := |tokens|;
    var prefix := tokens[..n - 1];
    if k == n - 1 {
    } else {
      assert forall j :: k < j < |prefix| ==> prefix[j] == tokens[j];
      LastFillGivesRgb(ext, prefix, k);
    }
  }

  /**
    The alpha of the result comes from the last `fill-opacity` token, clamped
    into [0, 1], when no `fill` token follows it.
  */
  lemma {:induction false} LastOpacityGivesAlpha(ext: Externals, tokens: seq<string>, k: nat)
    requires k < |tokens| && StartsWith(tokens[k], FILL_OPACITY)
    requires forall j :: k < j < |tokens| ==> !StartsWith(tokens[j], FILL) && !StartsWith(tokens[j], FILL_OPACITY)
    requires StyleFold(ext, tokens).Success?
    ensures ext.parseFloat(tokens[k][|FILL_OPACITY|..]).Some?
    ensures StyleFold(ext, tokens).value.a == Clamp01(ext.parseFloat(tokens[k][|FILL_OPACITY|..]).value)
    decreases |tokens|
  {
    var n := |tokens|;
    var prefix := tokens[..n - 1];
    if k < n - 1 {
      assert forall j :: k < j < |prefix| ==> prefix[j] == tokens[j];
      LastOpacityGivesAlpha(ext, prefix, k);
    }
  }

  const FP: string := "fp:"

  /** Splits an `fp:` token's numbers and reads the first three, in order, as `fixProps(density, friction, restitution)`. */
  function FpCall(ext: Externals, token: string): (r: Result<BuilderCall, LoadError>)
    requires StartsWith(token, FP)
    ensures r.Success? <==>
              var fields := Split(token[|FP|..], ',');
              |fields| >= 3 && ext.parseFloat(fields[0]).Some? && ext.parseFloat(fields[1]).Some? && ext.parseFloat(fields[2]).Some?
    ensures r.Success? ==> r.value.FixProps?
    ensures r.Success? ==>
              var fields := Split(token[|FP|..], ',');
              && |fields| >= 3
              && ext.parseFloat(fields[0]) == Some(r.value.density)
              && ext.parseFloat(fields[1]) == Some(r.value.friction)
              && ext.parseFloat(fields[2]) == Some(r.value.restitution)
  {
    var fields := Split(token[|FP|..], ',');
    if |fields| < 1 then Failure(TooFewFields)
    else
    var density :- Number(ext, fields[0]);
    if |fields| < 2 then Failure(TooFewFields)
    else
      var friction :- Number(ext, fields[1]);
      if |fields| < 3 then Failure(TooFewFields)
      else
        var restitution :- Number(ext, fields[2]);
        Success(FixProps(density, friction, restitution))
  }

  function FpCount(tokens: seq<string>): nat
    decreases |tokens|
  {
    if |tokens| == 0 then 0
    else FpCount(tokens[..|tokens| - 1]) + (if StartsWith(tokens[|tokens| - 1], FP) then 1 else 0)
  }

  /** The `fp:` tokens of a list, in their order. */
  function FpTokens(tokens: seq<string>): (r: seq<string>)
    ensures |r| == FpCount(tokens)
    ensures forall i :: 0 <= i < |r| ==> StartsWith(r[i], FP)
    decreases |tokens|
  {
    if |tokens| == 0 then []
    else
      var last := tokens[|tokens| - 1];
      FpTokens(tokens[..|tokens| - 1]) + (if StartsWith(last, FP) then [last] else [])
  }

  /**
    The `desc` tokens applied to a builder, in order: each `fp:` token adds one
    `fixProps` call, every other token is ignored.
  */
  function PropsFold(ext: Externals, draft: BodyDraft, tokens: seq<string>): (r: Result<BodyDraft, LoadError>)
    ensures r.Success? ==>
              && r.value.position == draft.position
              && draft.calls <= r.value.calls
              && |r.value.calls| == |draft.calls| + FpCount(tokens)
              && forall i :: |draft.calls| <= i < |r.value.calls| ==> r.value.calls[i].FixProps?
    ensures r.Success? <==> forall i :: 0 <= i < |FpTokens(tokens)| ==> FpCall(ext, FpTokens(tokens)[i]).Success?
    ensures r.Success? ==>
              forall i :: 0 <= i < |FpTokens(tokens)| ==> Success(r.value.calls[|draft.calls| + i]) == FpCall(ext, FpTokens(tokens)[i])
    ensures FpCount(tokens) == 0 ==> r == Success(draft)
    decreases |tokens|
  {
    if |tokens| == 0 then Success(draft)
    else
      var prefix := tokens[..|tokens| - 1];
      assert forall i :: 0 <= i < |FpTokens(prefix)| ==> FpTokens(tokens)[i] == FpTokens(prefix)[i];
      var before :- PropsFold(ext, draft, prefix);
      var token := tokens[|tokens| - 1];
      if StartsWith(token, FP) then
        assert FpTokens(tokens) == FpTokens(prefix) + [token];
        assert FpTokens(tokens)[|FpTokens(prefix)|] == token;
        var call :- FpCall(ext, token);
        Success(before.(calls := before.calls + [call]))
      else Success(before)
  }

  /**
    `applyPhysicsProps`: with no `desc` (neither attribute nor child) the builder
    is left as it is; otherwise its `;`-separated tokens are applied.
  */
  function ApplyPhysicsProps(ext: Externals, e: Element, draft: BodyDraft): (r: Result<BodyDraft, LoadError>)
    ensures Get(e, "desc").None? ==> r == Success(draft)
    ensures Get(e, "desc").Some? ==> r == PropsFold(ext, draft, Split(Get(e, "desc").value, ';'))
    ensures r.Success? ==> r.value.position == draft.position && draft.calls <= r.value.calls
    ensures r.Success? ==> CountFixShape(r.value.calls) == CountFixShape(draft.calls)
                           && CountNewFixture(r.value.calls) == CountNewFixture(draft.calls)
  {
    match Get(e, "desc")
    case None => Success(draft)
    case Some(desc) =>
      var after :- PropsFold(ext, draft, Split(desc, ';'));
      PropsAddNoShapes(draft.calls, after.calls);
      Success(after)
  }

  lemma {:induction false} PropsAddNoShapes(before: seq<BuilderCall>, after: seq<BuilderCall>)
    requires before <= after
    requires forall i :: |before| <= i < |after| ==> after[i].FixProps?
    ensures CountFixShape(after) == CountFixShape(before) && CountNewFixture(after) == CountNewFixture(before)
    decreases |after|
  {
    if |after| > |before| {
      PropsAddNoShapes(before, after[..|after| - 1]);
    } else {
      assert after == before;
    }
  }
}
