/**
  `BodyCreatingPathHandler`: the path-parser callback object that turns one SVG
  `d` attribute into fixtures of a static body. Its fields are updated in place
  by the callbacks; every method is proved to move the fields exactly as the
  matching function of `PathDecoder` moves a `DecoderState`, and to keep
  `PathDecoder.Consistent`.
*/
module PathHandling {
  import opened Wrappers
  import opened Geometry
  import opened BodyBuilding
  import PathDecoder

  class BodyCreatingPathHandler {
    /** The element's transform and the library routines the handler calls. */
    const decoder: PathDecoder.Decoder
    var location: Vec
    var origin: Option<Vec>
    var startPoint: Option<Vec>
    var polyPoints: seq<Vec>
    var bodyBuilder: Option<BodyDraft>
    var initial: bool

    /** The fields as one value. */
    function State(): PathDecoder.DecoderState
      reads this
    {
      PathDecoder.DecoderState(location, origin, startPoint, polyPoints, bodyBuilder, initial)
    }

    predicate Valid()
      reads this
    {
      PathDecoder.Consistent(State())
    }

    constructor (d: PathDecoder.Decoder)
      ensures decoder == d
      ensures State() == PathDecoder.Fresh()
      ensures Valid()
    {
      decoder := d;
      location := Vec(0.0, 0.0);
      origin := None;
      startPoint := None;
      polyPoints := [];
      bodyBuilder := None;
      initial := false;
    }

    method StartPath()
      modifies this
      ensures polyPoints == [] && location == Vec(0.0, 0.0) && startPoint == None && bodyBuilder == None
      ensures origin == old(origin) && initial == old(initial)
      ensures State() == PathDecoder.StartPath(old(State()))
      ensures Valid()
    {
      polyPoints := [];
      location := Vec(0.0, 0.0);
      startPoint := None;
      bodyBuilder := None;
    }

    method MovetoRel(x: real, y: real)
      requires Valid()
      modifies this
      ensures location == Add(old(location), Vec(x, y))
      ensures polyPoints == old(polyPoints)
      ensures State() == PathDecoder.MoveTo(decoder, old(State()), true, x, y)
      ensures Valid()
    {
      location := Vec(location.x + x, location.y + y);
      if startPoint.None? {
        startPoint := Some(Apply(decoder.transform, location));
      }
      if bodyBuilder.None? {
        origin := Some(Apply(decoder.transform, location));
        bodyBuilder := Some(ForStatic(origin.value));
        initial := true;
      }
    }

    method MovetoAbs(x: real, y: real)
      requires Valid()
      modifies this
      ensures location == Vec(x, y)
      ensures polyPoints == old(polyPoints)
      ensures State() == PathDecoder.MoveTo(decoder, old(State()), false, x, y)
      ensures Valid()
    {
      location := Vec(x, y);
      if startPoint.None? {
        startPoint := Some(Apply(decoder.transform, location));
      }
      if bodyBuilder.None? {
        origin := Some(Apply(decoder.transform, location));
        bodyBuilder := Some(ForStatic(origin.value));
        initial := true;
      }
    }

    method LinetoRel(x: real, y: real)
      requires Valid()
      modifies this
      ensures location == Add(old(location), Vec(x, y))
      ensures polyPoints == old(polyPoints) + [Apply(decoder.transform, location)]
      ensures State() == PathDecoder.LineTo(decoder, old(State()), true, x, y)
      ensures Valid()
    {
      location := Vec(location.x + x, location.y + y);
      polyPoints := polyPoints + [Apply(decoder.transform, location)];
    }

    method LinetoAbs(x: real, y: real)
      requires Valid()
      modifies this
      ensures location == Vec(x, y)
      ensures polyPoints == old(polyPoints) + [Apply(decoder.transform, location)]
      ensures State() == PathDecoder.LineTo(decoder, old(State()), false, x, y)
      ensures Valid()
    {
      location := Vec(x, y);
      polyPoints := polyPoints + [Apply(decoder.transform, location)];
    }

    method CurvetoCubicRel(x1: real, y1: real, x2: real, y2: real, x: real, y: real)
      requires Valid()
      modifies this
      ensures State() == PathDecoder.CurveTo(decoder, old(State()), true, x1, y1, x2, y2, x, y)
      ensures Valid()
    {
      CubicCurve(location, x1, y1, x2, y2, x, y);
    }

    method CurvetoCubicAbs(x1: real, y1: real, x2: real, y2: real, x: real, y: real)
      requires Valid()
      modifies this
      ensures State() == PathDecoder.CurveTo(decoder, old(State()), false, x1, y1, x2, y2, x, y)
      ensures Valid()
    {
      CubicCurve(Vec(0.0, 0.0), x1, y1, x2, y2, x, y);
    }

    /**
      Flattens the cubic curve from the current location into points appended to
      the ring, one per step of the loop; the location moves to the end point.
    */
    method CubicCurve(rel: Vec, x1: real, y1: real, x2: real, y2: real, x: real, y: real)
      requires Valid()
      modifies this
      ensures location == Add(rel, Vec(x, y))
      ensures State() == PathDecoder.Curve(decoder, old(State()), rel, x1, y1, x2, y2, x, y)
      ensures Valid()
    {
      var pStart := Apply(decoder.transform, location);
      var p1 := Apply(decoder.transform, Add(rel, Vec(x1, y1)));
      var p2 := Apply(decoder.transform, Add(rel, Vec(x2, y2)));
      var pEnd := Apply(decoder.transform, Add(rel, Vec(x, y)));
      location := Add(rel, Vec(x, y));
      var len := decoder.dst(pEnd, pStart) + decoder.dst(pStart, p1) + decoder.dst(pEnd, p2);
      var sd := PathDecoder.Subdivisions(len);
      ghost var points := PathDecoder.CubicPoints(pStart, p1, p2, pEnd, sd);
      ghost var moved := State();
      var i := 1;
      while i <= sd
        invariant 1 <= i <= sd + 1
        invariant State() == moved.(polyPoints := moved.polyPoints + points[..i - 1])
      {
        var out := PathDecoder.CubicAt(pStart, p1, p2, pEnd, i as real / sd as real);
        assert points[..i] == points[..i - 1] + [out];
        polyPoints := polyPoints + [out];
        i := i + 1;
      }
      assert points[..sd] == points;
    }

    method ArcRel(rx: real, ry: real, xAxisRotation: real, largeArc: bool, sweep: bool, x: real, y: real)
      requires Valid()
      modifies this
      ensures location == Add(old(location), Vec(x, y))
      ensures polyPoints == old(polyPoints) + [Apply(decoder.transform, location)]
      ensures State() == PathDecoder.ArcTo(decoder, old(State()), true, x, y)
      ensures Valid()
    {
      ArcAbs(rx, ry, xAxisRotation, largeArc, sweep, location.x + x, location.y + y);
    }

    method ArcAbs(rx: real, ry: real, xAxisRotation: real, largeArc: bool, sweep: bool, x: real, y: real)
      requires Valid()
      modifies this
      ensures location == Vec(x, y)
      ensures polyPoints == old(polyPoints) + [Apply(decoder.transform, location)]
      ensures State() == PathDecoder.ArcTo(decoder, old(State()), false, x, y)
      ensures Valid()
    {
      location := Vec(x, y);
      polyPoints := polyPoints + [Apply(decoder.transform, location)];
    }

    /**
      `closePath`. Returns false where the source throws (no point yet, or no
      subpath start), and then nothing has changed.
    */
    method ClosePath() returns (ok: bool)
      requires Valid()
      modifies this
      ensures ok <==> PathDecoder.Close(decoder, old(State())).Success?
      ensures ok ==> State() == PathDecoder.Close(decoder, old(State())).value
      ensures ok ==> polyPoints == [] && startPoint == None
      ensures !ok ==> State() == old(State())
      ensures Valid()
    {
      PathDecoder.CloseFailsIff(decoder, State());
      if |polyPoints| == 0 || startPoint.None? {
        return false;
      }
      CloseSubpath();
      return true;
    }

    /** `closePath` once it has a last point and a subpath start to close towards. */
    method CloseSubpath()
      requires Valid() && |polyPoints| > 0 && startPoint.Some?
      modifies this
      ensures PathDecoder.Close(decoder, old(State())).Success?
      ensures State() == PathDecoder.Close(decoder, old(State())).value
      ensures polyPoints == [] && startPoint == None
      ensures Valid()
    {
      ghost var s0 := State();
      var last := polyPoints[|polyPoints| - 1];
      var start := startPoint.value;
      if Abs(last.x - start.x) > PathDecoder.CLOSE_EPSILON || Abs(last.y - start.y) > PathDecoder.CLOSE_EPSILON {
        polyPoints := polyPoints + [start];
      }
      assert polyPoints == PathDecoder.CloseRing(s0.polyPoints, start);
      RebaseToOrigin(origin.value);
      var shapes := decoder.triangulate(polyPoints);
      FixShapes(shapes);
      polyPoints := [];
      startPoint := None;
      PathDecoder.CloseSucceeds(decoder, s0, shapes);
      PathDecoder.StepKeepsConsistent(decoder, s0, PathDecoder.CloseCmd);
    }

    /** The loop of `closePath` that moves every point of the ring by minus the origin, in place. */
    method RebaseToOrigin(o: Vec)
      modifies this
      ensures polyPoints == PathDecoder.Rebase(old(polyPoints), o)
      ensures State() == old(State()).(polyPoints := polyPoints)
    {
      ghost var ring := polyPoints;
      var k := 0;
      while k < |polyPoints|
        invariant 0 <= k <= |polyPoints| == |ring|
        invariant State() == old(State()).(polyPoints := polyPoints)
        invariant forall j :: 0 <= j < k ==> polyPoints[j] == Sub(ring[j], o)
        invariant forall j :: k <= j < |polyPoints| ==> polyPoints[j] == ring[j]
      {
        polyPoints := polyPoints[k := Sub(polyPoints[k], o)];
        k := k + 1;
      }
    }

    /**
      The loop of `closePath` that hands each triangulated piece to the body
      builder, opening a new fixture first unless the body has none yet.
    */
    method FixShapes(shapes: seq<seq<Vec>>)
      requires bodyBuilder.Some?
      modifies this
      ensures bodyBuilder == Some(old(bodyBuilder).value.(calls := old(bodyBuilder).value.calls + FixtureCalls(old(initial), shapes)))
      ensures initial == (old(initial) && |shapes| == 0)
      ensures State() == old(State()).(builder := bodyBuilder, initial := initial)
    {
      ghost var b0 := bodyBuilder.value;
      var i := 0;
      while i < |shapes|
        invariant 0 <= i <= |shapes|
        invariant bodyBuilder.Some? && bodyBuilder.value.position == b0.position
        invariant initial == (old(initial) && i == 0)
        invariant State() == old(State()).(builder := bodyBuilder, initial := initial)
        invariant bodyBuilder.value.calls + FixtureCalls(initial, shapes[i..])
               == b0.calls + FixtureCalls(old(initial), shapes)
      {
        var b := bodyBuilder.value;
        if !initial {
          b := b.(calls := b.calls + [NewFixture]);
        }
        b := b.(calls := b.calls + [FixShape(ConvexPiece(shapes[i]))]);
        FixtureCallsStep(bodyBuilder.value.calls, initial, shapes, i, b.calls);
        initial := false;
        bodyBuilder := Some(b);
        i := i + 1;
      }
      assert shapes[i..] == [];
      assert bodyBuilder.value.calls + [] == bodyBuilder.value.calls;
      assert bodyBuilder.value == b0.(calls := bodyBuilder.value.calls);
    }

    /** Hands one command to the callback the path parser would call for it. */
    method Dispatch(c: PathDecoder.PathCommand) returns (ok: bool)
      requires Valid()
      modifies this
      ensures ok <==> PathDecoder.Step(decoder, old(State()), c).Success?
      ensures ok ==> State() == PathDecoder.Step(decoder, old(State()), c).value
      ensures Valid()
    {
      ok := true;
      match c {
        case MoveCmd(rel, x, y) =>
          if rel { MovetoRel(x, y); } else { MovetoAbs(x, y); }
        case LineCmd(rel, x, y) =>
          if rel { LinetoRel(x, y); } else { LinetoAbs(x, y); }
        case CurveCmd(rel, x1, y1, x2, y2, x, y) =>
          if rel { CurvetoCubicRel(x1, y1, x2, y2, x, y); } else { CurvetoCubicAbs(x1, y1, x2, y2, x, y); }
        case ArcCmd(rel, rx, ry, rot, large, sweep, x, y) =>
          if rel { ArcRel(rx, ry, rot, large, sweep, x, y); } else { ArcAbs(rx, ry, rot, large, sweep, x, y); }
        case CloseCmd =>
          ok := ClosePath();
        case IgnoredCmd =>
      }
    }

    /**
      What the path parser does with this handler for one `d` attribute:
      `startPath`, one callback per command until one throws, then `endPath`
      (which does nothing).
    */
    method Parse(cmds: seq<PathDecoder.PathCommand>) returns (ok: bool)
      requires Valid()
      modifies this
      ensures ok <==> PathDecoder.Run(decoder, PathDecoder.StartPath(old(State())), cmds).Success?
      ensures ok ==> State() == PathDecoder.Run(decoder, PathDecoder.StartPath(old(State())), cmds).value
      ensures Valid()
    {
      StartPath();
      ghost var start := State();
      var i := 0;
      ok := true;
      while i < |cmds|
        invariant 0 <= i <= |cmds|
        invariant Valid()
        invariant PathDecoder.Run(decoder, start, cmds) == PathDecoder.Run(decoder, State(), cmds[i..])
      {
        assert cmds[i..][1..] == cmds[i + 1..];
        ok := Dispatch(cmds[i]);
        if !ok {
          return;
        }
        i := i + 1;
      }
    }
  }
}
