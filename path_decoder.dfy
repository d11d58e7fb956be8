/**
  The path decoder of the level loader (`BodyCreatingPathHandler`) as functions
  on a value: the state the handler keeps, what each path command of section 8.3
  of SVG 1.1 does to it, and what a whole `d` attribute does.
  The class in path_handler.dfy is proved to follow these definitions.
*/
module PathDecoder {
  import opened Wrappers
  import opened Geometry
  import opened BodyBuilding

  /** Points per unit of estimated curve length. */
  const SUBDIVS: real := 4.0
  /** How far apart, per axis, the last point and the subpath start may be and still count as closed. */
  const CLOSE_EPSILON: real := 0.001

  /**
    A path command as the path parser reports it. `IgnoredCmd` stands for the
    commands the handler inherits as no-ops (horizontal and vertical lineto,
    quadratic and smooth curves): they change nothing.
  */
  datatype PathCommand =
    | MoveCmd(relative: bool, x: real, y: real)
    | LineCmd(relative: bool, x: real, y: real)
    | CurveCmd(relative: bool, x1: real, y1: real, x2: real, y2: real, x: real, y: real)
    | ArcCmd(relative: bool, rx: real, ry: real, xAxisRotation: real, largeArc: bool, sweep: bool, x: real, y: real)
    | CloseCmd
    | IgnoredCmd

  /**
    What a handler is built with: the element's effective transform, and the two
    library routines it calls, polygon triangulation and point distance.
  */
  datatype Decoder = Decoder(transform: Affine, triangulate: seq<Vec> -> seq<seq<Vec>>, dst: (Vec, Vec) -> real)

  /** The handler's fields; `None` stands for a null reference. */
  datatype DecoderState = DecoderState(
    location: Vec,
    origin: Option<Vec>,
    startPoint: Option<Vec>,
    polyPoints: seq<Vec>,
    builder: Option<BodyDraft>,
    initial: bool)

  /** Any exception the handler throws: an index out of range or a null dereference. */
  datatype DecodeError = MalformedPath

  /** The state right after construction. */
  function Fresh(): DecoderState {
    DecoderState(Vec(0.0, 0.0), None, None, [], None, false)
  }

  /** `startPath`: forget the points, the location, the subpath start and the body. */
  function StartPath(s: DecoderState): DecoderState {
    s.(polyPoints := [], location := Vec(0.0, 0.0), startPoint := None, builder := None)
  }

  /** The point a command moves to, before the transform: relative commands add to the location. */
  function Target(s: DecoderState, relative: bool, x: real, y: real): Vec {
    if relative then Add(s.location, Vec(x, y)) else Vec(x, y)
  }

  /**
    `movetoAbs` / `movetoRel`: move without drawing. The transformed point becomes
    the subpath start if there is none, and the first move after `startPath`
    also fixes the body's origin and creates the static body there.
  */
  function MoveTo(d: Decoder, s: DecoderState, relative: bool, x: real, y: real): DecoderState {
    var loc := Target(s, relative, x, y);
    var p := Apply(d.transform, loc);
    var withStart := s.(location := loc, startPoint := if s.startPoint.None? then Some(p) else s.startPoint);
    if s.builder.None? then withStart.(origin := Some(p), builder := Some(ForStatic(p)), initial := true)
    else withStart
  }

  /** `linetoAbs` / `linetoRel`: move and append the transformed point. */
  function LineTo(d: Decoder, s: DecoderState, relative: bool, x: real, y: real): DecoderState {
    var loc := Target(s, relative, x, y);
    s.(location := loc, polyPoints := s.polyPoints + [Apply(d.transform, loc)])
  }

  /** `arcAbs` / `arcRel`: radii, rotation and flags are ignored; only the endpoint is appended. */
  function ArcTo(d: Decoder, s: DecoderState, relative: bool, x: real, y: real): DecoderState {
    LineTo(d, s, relative, x, y)
  }

  /** The Java `(int)` cast: truncation towards zero. */
  function TruncToInt(r: real): int {
    if r >= 0.0 then r.Floor else -((-r).Floor)
  }

  /**
    How many points a curve of estimated length `len` is flattened into: the loop
    `for (i = 1; i <= (int)(SUBDIVS * len); i++)` runs this often.
  */
  function Subdivisions(len: real): (n: nat)
    ensures len >= 0.0 ==> n as real <= SUBDIVS * len < n as real + 1.0
    ensures len < 0.25 ==> n == 0
  {
    var k := TruncToInt(SUBDIVS * len);
    if k > 0 then k else 0
  }

  /** libGDX `Bezier.cubic`: the cubic Bernstein blend of four points at parameter t. */
  function CubicAt(p0: Vec, p1: Vec, p2: Vec, p3: Vec, t: real): Vec {
    var dt := 1.0 - t;
    var dt2 := dt * dt;
    var t2 := t * t;
    Add(Add(Add(Scaled(dt2 * dt, p0), Scaled(3.0 * dt2 * t, p1)), Scaled(3.0 * dt * t2, p2)), Scaled(t2 * t, p3))
  }

  /** The curve is anchored at its end point: at t = 1 the blend is p3. */
  lemma CubicAtOne(p0: Vec, p1: Vec, p2: Vec, p3: Vec)
    ensures CubicAt(p0, p1, p2, p3, 1.0) == p3
  {
  }

  /** The last of n parameter steps lands on t = 1. */
  lemma LastParameter(n: nat)
    requires n > 0
    ensures ((n - 1) + 1) as real / n as real == 1.0
  {
  }

  /** The n points of a flattened curve, at t = 1/n, 2/n, ..., n/n; the last one is the end point. */
  function CubicPoints(p0: Vec, p1: Vec, p2: Vec, p3: Vec, n: nat): (r: seq<Vec>)
    ensures |r| == n
    ensures n > 0 ==> r[n - 1] == p3
  {
    var r := seq(n, i requires 0 <= i < n => CubicAt(p0, p1, p2, p3, (i + 1) as real / n as real));
    assert n > 0 ==> r[n - 1] == p3 by {
      if n > 0 {
        LastParameter(n);
        CubicAtOne(p0, p1, p2, p3);
      }
    }
    r
  }

  /**
    `curvetoCubicAbs` / `curvetoCubicRel`: the control points and the end point
    are offset by the location for the relative form; the curve from the current
    (transformed) location is flattened by its estimated length
    |pEnd - pStart| + |pStart - p1| + |pEnd - p2|.
  */
  function CurveTo(d: Decoder, s: DecoderState, relative: bool,
                   x1: real, y1: real, x2: real, y2: real, x: real, y: real): DecoderState {
    Curve(d, s, if relative then s.location else Vec(0.0, 0.0), x1, y1, x2, y2, x, y)
  }

  /** The shared body of both curve forms: `base` is the location for the relative form and zero otherwise. */
  function Curve(d: Decoder, s: DecoderState, base: Vec,
                 x1: real, y1: real, x2: real, y2: real, x: real, y: real): DecoderState {
    var pStart := Apply(d.transform, s.location);
    var p1 := Apply(d.transform, Add(base, Vec(x1, y1)));
    var p2 := Apply(d.transform, Add(base, Vec(x2, y2)));
    var pEnd := Apply(d.transform, Add(base, Vec(x, y)));
    var len := d.dst(pEnd, pStart) + d.dst(pStart, p1) + d.dst(pEnd, p2);
    s.(location := Add(base, Vec(x, y)),
       polyPoints := s.polyPoints + CubicPoints(pStart, p1, p2, pEnd, Subdivisions(len)))
  }

  predicate FarApart(a: Vec, b: Vec) {
    Abs(a.x - b.x) > CLOSE_EPSILON || Abs(a.y - b.y) > CLOSE_EPSILON
  }

  /** The ring `closePath` hands on: the start point is appended only when the last point is not already on it. */
  function CloseRing(points: seq<Vec>, start: Vec): (r: seq<Vec>)
    requires |points| > 0
    ensures |r| == |points| || |r| == |points| + 1
    ensures r[..|points|] == points
    ensures |r| == |points| + 1 <==> FarApart(points[|points| - 1], start)
    ensures !FarApart(r[|r| - 1], start)
  {
    if FarApart(points[|points| - 1], start) then points + [start] else points
  }

  /** Every point made relative to the body origin. */
  function Rebase(points: seq<Vec>, origin: Vec): (r: seq<Vec>)
    ensures |r| == |points|
    ensures forall i :: 0 <= i < |r| ==> Add(r[i], origin) == points[i]
  {
    seq(|points|, i requires 0 <= i < |points| => Sub(points[i], origin))
  }

  /**
    `closePath`: close the ring, rebase it to the origin, triangulate it and hand
    each piece to the body builder; then empty the point list and forget the
    subpath start. Indexing an empty list or reading a null start point, origin
    or builder throws.
  */
  function Close(d: Decoder, s: DecoderState): Result<DecoderState, DecodeError> {
    if |s.polyPoints| == 0 || s.startPoint.None? || s.origin.None? then Failure(MalformedPath)
    else
      var ring := CloseRing(s.polyPoints, s.startPoint.value);
      var shapes := d.triangulate(Rebase(ring, s.origin.value));
      if |shapes| > 0 && s.builder.None? then Failure(MalformedPath)
      else
        Success(s.(
          polyPoints := [],
          startPoint := None,
          builder := if |shapes| == 0 then s.builder
                     else Some(s.builder.value.(calls := s.builder.value.calls + FixtureCalls(s.initial, shapes))),
          initial := s.initial && |shapes| == 0))
  }

  /** A `closePath` that finds a point and a subpath start succeeds, whether or not the ring yields pieces. */
  lemma CloseSucceeds(d: Decoder, s: DecoderState, shapes: seq<seq<Vec>>)
    requires Consistent(s) && |s.polyPoints| > 0 && s.startPoint.Some?
    requires shapes == d.triangulate(Rebase(CloseRing(s.polyPoints, s.startPoint.value), s.origin.value))
    ensures Close(d, s) == Success(s.(
              polyPoints := [],
              startPoint := None,
              builder := Some(s.builder.value.(calls := s.builder.value.calls + FixtureCalls(s.initial, shapes))),
              initial := s.initial && |shapes| == 0))
  {
    if |shapes| == 0 {
      assert s.builder.value.calls + FixtureCalls(s.initial, shapes) == s.builder.value.calls;
    }
  }

  /** One parser callback. */
  function Step(d: Decoder, s: DecoderState, c: PathCommand): Result<DecoderState, DecodeError> {
    match c
    case MoveCmd(rel, x, y) => Success(MoveTo(d, s, rel, x, y))
    case LineCmd(rel, x, y) => Success(LineTo(d, s, rel, x, y))
    case CurveCmd(rel, x1, y1, x2, y2, x, y) => Success(CurveTo(d, s, rel, x1, y1, x2, y2, x, y))
    case ArcCmd(rel, _, _, _, _, _, x, y) => Success(ArcTo(d, s, rel, x, y))
    case CloseCmd => Close(d, s)
    case IgnoredCmd => Success(s)
  }

  /** The callbacks for a command list, in order; the first exception ends the run. */
  function Run(d: Decoder, s: DecoderState, cmds: seq<PathCommand>): Result<DecoderState, DecodeError>
    decreases |cmds|
  {
    if |cmds| == 0 then Success(s)
    else
      var next :- Step(d, s, cmds[0]);
      Run(d, next, cmds[1..])
  }

  /** Parsing one `d` attribute with a fresh handler: `startPath`, the commands, then the no-op `endPath`. */
  function Decode(d: Decoder, cmds: seq<PathCommand>): Result<DecoderState, DecodeError> {
    Run(d, StartPath(Fresh()), cmds)
  }

  /**
    What holds of the handler between callbacks: a subpath start exists only
    once a body exists; the body sits at the origin; and the body's builder has
    received one `newFixture` fewer than shapes, with `initial` telling whether
    it has received none.
  */
  predicate Consistent(s: DecoderState) {
    && (s.startPoint.Some? ==> s.builder.Some?)
    && (s.builder.Some? ==>
          && s.origin == Some(s.builder.value.position)
          && OneFixturePerShape(s.builder.value.calls)
          && (s.initial <==> CountFixShape(s.builder.value.calls) == 0))
  }

  lemma StepKeepsConsistent(d: Decoder, s: DecoderState, c: PathCommand)
    requires Consistent(s)
    ensures Step(d, s, c).Success? ==> Consistent(Step(d, s, c).value)
  {
    if c.CloseCmd? && Close(d, s).Success? {
      var ring := CloseRing(s.polyPoints, s.startPoint.value);
      var shapes := d.triangulate(Rebase(ring, s.origin.value));
      if |shapes| > 0 {
        FixtureCallsKeepDiscipline(s.builder.value.calls, s.initial, shapes);
      }
    }
  }

  lemma {:induction false} RunKeepsConsistent(d: Decoder, s: DecoderState, cmds: seq<PathCommand>)
    requires Consistent(s)
    ensures Run(d, s, cmds).Success? ==> Consistent(Run(d, s, cmds).value)
    decreases |cmds|
  {
    if |cmds| > 0 {
      StepKeepsConsistent(d, s, cmds[0]);
      if Step(d, s, cmds[0]).Success? {
        RunKeepsConsistent(d, Step(d, s, cmds[0]).value, cmds[1..]);
      }
    }
  }

  /**
    Across one whole path, the builder is told `newFixture` once for every
    compiled shape except the very first, and the body sits at the origin.
  */
  lemma DecodeFixtureDiscipline(d: Decoder, cmds: seq<PathCommand>)
    ensures Decode(d, cmds).Success? && Decode(d, cmds).value.builder.Some? ==>
      var b := Decode(d, cmds).value.builder.value;
      CountNewFixture(b.calls) + (if CountFixShape(b.calls) > 0 then 1 else 0) == CountFixShape(b.calls)
      && Decode(d, cmds).value.origin == Some(b.position)
  {
    RunKeepsConsistent(d, StartPath(Fresh()), cmds);
  }

  /** Under the invariant, `closePath` fails exactly when there is no point to close or no subpath start. */
  lemma CloseFailsIff(d: Decoder, s: DecoderState)
    requires Consistent(s)
    ensures Close(d, s).Failure? <==> |s.polyPoints| == 0 || s.startPoint.None?
  {
  }

  /**
    Relative commands accumulate in untransformed space: each is the absolute
    command at the location plus the offsets, and only the resulting point is transformed.
  */
  lemma RelativeIsAbsoluteFromLocation(d: Decoder, s: DecoderState, c: PathCommand)
    requires c.MoveCmd? || c.LineCmd? || c.ArcCmd? || c.CurveCmd?
    requires c.relative
    ensures Step(d, s, c) == Step(d, s, Absolute(s.location, c))
  {
  }

  /** The absolute form of a relative command issued at `loc`. */
  function Absolute(loc: Vec, c: PathCommand): PathCommand
    requires c.MoveCmd? || c.LineCmd? || c.ArcCmd? || c.CurveCmd?
  {
    match c
    case MoveCmd(_, x, y) => MoveCmd(false, loc.x + x, loc.y + y)
    case LineCmd(_, x, y) => LineCmd(false, loc.x + x, loc.y + y)
    case ArcCmd(_, rx, ry, rot, large, sweep, x, y) => ArcCmd(false, rx, ry, rot, large, sweep, loc.x + x, loc.y + y)
    case CurveCmd(_, x1, y1, x2, y2, x, y) =>
      CurveCmd(false, loc.x + x1, loc.y + y1, loc.x + x2, loc.y + y2, loc.x + x, loc.y + y)
  }
}
