/**
  What the level loader asks of the shared `BodyBuilder`: a static body at a
  position, and a log of the calls made on the builder before `build`.
  The builder itself is not part of this model; its calls are recorded in order.
*/
module BodyBuilding {
  import opened Geometry

  /**
    A fixture shape: a convex piece from triangulation, `ShapeBuilder.polyRel`
    of four corners, or `ShapeBuilder.box` by its half extents.
  */
  datatype Shape = ConvexPiece(vertices: seq<Vec>) | PolyRel(corners: seq<Vec>) | Box(halfWidth: real, halfHeight: real)

  datatype BuilderCall =
    | NewFixture
    | FixShape(shape: Shape)
    | FixProps(density: real, friction: real, restitution: real)
    | FixSensor

  /** `BodyBuilder.forStatic(position)` followed by `calls`. */
  datatype BodyDraft = BodyDraft(position: Vec, calls: seq<BuilderCall>)

  function ForStatic(position: Vec): BodyDraft {
    BodyDraft(position, [])
  }

  function CountNewFixture(calls: seq<BuilderCall>): nat {
    if |calls| == 0 then 0
    else CountNewFixture(calls[..|calls| - 1]) + (if calls[|calls| - 1].NewFixture? then 1 else 0)
  }

  function CountFixShape(calls: seq<BuilderCall>): nat {
    if |calls| == 0 then 0
    else CountFixShape(calls[..|calls| - 1]) + (if calls[|calls| - 1].FixShape? then 1 else 0)
  }

  lemma {:induction false} CountsDistribute(a: seq<BuilderCall>, b: seq<BuilderCall>)
    ensures CountNewFixture(a + b) == CountNewFixture(a) + CountNewFixture(b)
    ensures CountFixShape(a + b) == CountFixShape(a) + CountFixShape(b)
    decreases |b|
  {
    if |b| == 0 {
      assert a + b == a;
    } else {
      assert (a + b)[..|a + b| - 1] == a + b[..|b| - 1];
      CountsDistribute(a, b[..|b| - 1]);
    }
  }

  /** A builder told nothing but one `fixShape` holds one shape and no extra fixture. */
  lemma SingleShapeCounts(shape: Shape)
    ensures CountFixShape([FixShape(shape)]) == 1 && CountNewFixture([FixShape(shape)]) == 0
  {
    assert [FixShape(shape)][..0] == [];
  }

  /**
    The fixture discipline of one body: every shape but the first opens a new
    fixture, so there is one `newFixture` call fewer than there are shapes.
  */
  predicate OneFixturePerShape(calls: seq<BuilderCall>) {
    CountNewFixture(calls) + (if CountFixShape(calls) > 0 then 1 else 0) == CountFixShape(calls)
  }

  /**
    The calls `closePath` makes for the shapes of one ring: `newFixture` before each
    shape unless the body has not received a shape yet (`initial`), then `fixShape`.
  */
  function FixtureCalls(initial: bool, shapes: seq<seq<Vec>>): (r: seq<BuilderCall>)
    ensures CountFixShape(r) == |shapes|
    ensures CountNewFixture(r) == if initial && |shapes| > 0 then |shapes| - 1 else |shapes|
  {
    if |shapes| == 0 then []
    else
      var head := (if initial then [] else [NewFixture]) + [FixShape(ConvexPiece(shapes[0]))];
      var tail := FixtureCalls(false, shapes[1..]);
      CountsDistribute(head, tail);
      assert [NewFixture][..0] == [];
      assert head[..|head| - 1] == (if initial then [] else [NewFixture]);
      head + tail
  }

  /** One shape's worth of `closePath` calls, as the loop appends them to `calls`. */
  lemma FixtureCallsStep(calls: seq<BuilderCall>, initial: bool, shapes: seq<seq<Vec>>, i: nat, next: seq<BuilderCall>)
    requires i < |shapes|
    requires next == (if initial then calls else calls + [NewFixture]) + [FixShape(ConvexPiece(shapes[i]))]
    ensures next + FixtureCalls(false, shapes[i + 1..]) == calls + FixtureCalls(initial, shapes[i..])
  {
    assert shapes[i..][1..] == shapes[i + 1..];
    assert shapes[i..][0] == shapes[i];
  }

  /**
    Appending the calls for a ring keeps the discipline, provided `initial` says
    exactly whether the body has no shape yet.
  */
  lemma FixtureCallsKeepDiscipline(calls: seq<BuilderCall>, initial: bool, shapes: seq<seq<Vec>>)
    requires OneFixturePerShape(calls)
    requires initial <==> CountFixShape(calls) == 0
    ensures OneFixturePerShape(calls + FixtureCalls(initial, shapes))
    ensures (initial && |shapes| == 0) <==> CountFixShape(calls + FixtureCalls(initial, shapes)) == 0
  {
    CountsDistribute(calls, FixtureCalls(initial, shapes));
  }
}
