/**
  `SVGLevelActor` as an object: its constructor body (`Load`), the recursive
  `parseGroup` that builds bodies into the world as it walks the Physics
  layer, and `doRemove`. Each method is proved to do what the functions of
  `SvgLevel` say.
*/
module LevelActor {
  import opened Wrappers
  import opened Geometry
  import opened BodyBuilding
  import opened SvgDocument
  import opened SvgShapes
  import opened GameWorld
  import opened SvgLevel
  import PathDecoder
  import PathHandling

  /** The handles `n` consecutive `build` calls return, starting from `start`. */
  function Handles(start: nat, n: nat): (r: seq<nat>)
    ensures |r| == n
  {
    if n == 0 then [] else Handles(start, n - 1) + [start + n - 1]
  }

  /** Building `a` bodies and then `b` more hands out the handles of building `a + b`. */
  lemma {:induction false} HandlesAppend(start: nat, a: nat, b: nat)
    ensures Handles(start, a) + Handles(start + a, b) == Handles(start, a + b)
  {
    if b > 0 {
      HandlesAppend(start, a, b - 1);
      assert Handles(start, a) + Handles(start + a, b)
          == (Handles(start, a) + Handles(start + a, b - 1)) + [start + a + b - 1];
    }
  }

  /** Recording one more handle after `handles + Handles(start, n)`. */
  lemma HandlesStep(handles: seq<nat>, start: nat, n: nat, id: nat)
    requires id == start + n
    ensures (handles + Handles(start, n)) + [id] == handles + Handles(start, n + 1)
  {
  }

  /** Recording `b` more handles after `handles + Handles(start, a)`. */
  lemma HandlesConcat(handles: seq<nat>, start: nat, a: nat, b: nat)
    ensures (handles + Handles(start, a)) + Handles(start + a, b) == handles + Handles(start, a + b)
  {
    HandlesAppend(start, a, b);
    assert (handles + Handles(start, a)) + Handles(start + a, b) == handles + (Handles(start, a) + Handles(start + a, b));
  }

  /**
    A run of builds after a run of builds: when `prev` recorded `a` handles
    from `start` and `final` records `b` more from where `prev` stopped,
    `final` recorded `total == a + b` handles from `start`.
  */
  lemma HandlesGlue(base: seq<nat>, start: nat, a: nat, prev: seq<nat>, next: nat, b: nat, final: seq<nat>, total: nat)
    requires prev == base + Handles(start, a)
    requires next == start + a
    requires final == prev + Handles(next, b)
    requires total == a + b
    ensures final == base + Handles(start, total)
  {
    HandlesConcat(base, start, a, b);
  }

  /** The same for the world's body list. */
  lemma BodiesGlue(base: seq<BodyDraft>, a: seq<BodyDraft>, prev: seq<BodyDraft>, b: seq<BodyDraft>, final: seq<BodyDraft>)
    requires prev == base + a
    requires final == prev + b
    ensures final == base + (a + b)
  {
  }

  /** Taking a prefix of a one-longer prefix. */
  lemma PrefixOfPrefix<T>(s: seq<T>, i: nat)
    requires i < |s|
    ensures s[..i + 1][..i] == s[..i]
  {
  }

  /**
    One `path` child, the way `parseGroup` handles it: a fresh
    `BodyCreatingPathHandler` is fed the parsed `d` attribute, then the
    physics properties are applied to the builder it made.
  */
  method PathDraft(ext: Externals, path: Element, group: Affine) returns (r: Result<BodyDraft, LoadError>)
    ensures r == PathBody(ext, path, group)
  {
    var pathTransform :- ElementTransform(ext, path, group);
    var d :- RequireAttribute(path, "d");
    var cmds :- Commands(ext, d);
    var handler := new PathHandling.BodyCreatingPathHandler(PathDecoder.Decoder(pathTransform, ext.triangulate, ext.dst));
    var ok := handler.Parse(cmds);
    if !ok {
      return Failure(PathFailed);
    }
    if handler.bodyBuilder.None? {
      return Failure(NoBody);
    }
    r := ApplyPhysicsProps(ext, path, handler.bodyBuilder.value);
  }

  /** One `rect` child: its corners through `parseRectAsPoly`, one `polyRel` fixture, then the physics properties. */
  method RectDraft(ext: Externals, rect: Element, group: Affine) returns (r: Result<BodyDraft, LoadError>)
    ensures r == RectBody(ext, rect, group)
  {
    var parsed :- ParseRectAsPoly(ext, rect, group);
    r := ApplyPhysicsProps(ext, rect, BodyDraft(parsed[0], [FixShape(PolyRel(parsed))]));
  }

  method DraftOf(ext: Externals, e: Element, group: Affine) returns (r: Result<BodyDraft, LoadError>)
    ensures r == BodyOf(ext, e, group)
  {
    if e.name == "path" {
      r := PathDraft(ext, e, group);
    } else {
      r := RectDraft(ext, e, group);
    }
  }

  /** `DraftOf` as the scan over a list sees it. */
  method ReadBody(ext: Externals, e: Element, group: Affine) returns (r: Result<BodyDraft, LoadError>)
    ensures r == BodyReader(ext, group)(e)
  {
    r := DraftOf(ext, e, group);
  }

  class SvgLevelActor {
    const world: World
    var dimensions: Rect
    var cameraBounds: Rect
    var spawn: Vec
    /** Handles of the bodies this level built. */
    var bodies: seq<nat>
    var particles: seq<Particle>
    var lights: seq<Light>

    /** The fields `parseGroup` leaves alone. */
    function Scene(): (Rect, Rect, Vec, seq<Particle>, seq<Light>)
      reads this
    {
      (dimensions, cameraBounds, spawn, particles, lights)
    }

    /** `super(world)` and the field initialisers. */
    constructor (world: World)
      ensures this.world == world
      ensures bodies == [] && particles == [] && lights == []
    {
      this.world := world;
      dimensions := Rect(0.0, 0.0, 0.0, 0.0);
      cameraBounds := Rect(0.0, 0.0, 0.0, 0.0);
      spawn := Vec(0.0, 0.0);
      bodies := [];
      particles := [];
      lights := [];
    }

    /** Builds one body into the world and records its handle. */
    method Record(draft: BodyDraft) returns (id: nat)
      modifies this, world
      ensures id == |old(world.bodies)|
      ensures world.bodies == old(world.bodies) + [draft]
      ensures bodies == old(bodies) + [id]
      ensures world.destroyed == old(world.destroyed) && world.actors == old(world.actors)
      ensures Scene() == old(Scene())
    {
      id := world.Build(draft);
      bodies := bodies + [id];
    }

    /** One loop of `parseGroup`: a body per element, built into the world and recorded, in order. */
    method BuildBodies(ext: Externals, es: seq<Element>, group: Affine) returns (r: Result<seq<BodyDraft>, LoadError>)
      modifies this, world
      ensures r == MapAll(es, BodyReader(ext, group))
      ensures r.Success? ==> world.bodies == old(world.bodies) + r.value
      ensures r.Success? ==> bodies == old(bodies) + Handles(|old(world.bodies)|, |r.value|)
      ensures world.destroyed == old(world.destroyed) && world.actors == old(world.actors)
      ensures Scene() == old(Scene())
    {
      ghost var built := world.bodies;
      ghost var handles := bodies;
      ghost var start := |world.bodies|;
      assert Handles(start, 0) == [];
      assert handles + [] == handles;
      var i := 0;
      var drafts: seq<BodyDraft> := [];
      while i < |es|
        invariant 0 <= i <= |es|
        invariant MapAll(es[..i], BodyReader(ext, group)) == Success(drafts)
        invariant world.bodies == built + drafts
        invariant bodies == handles + Handles(start, |drafts|)
        invariant world.destroyed == old(world.destroyed) && world.actors == old(world.actors)
        invariant Scene() == old(Scene())
      {
        var d := ReadBody(ext, es[i], group);
        MapAllStep(es, BodyReader(ext, group), i, drafts);
        if d.Failure? {
          return Failure(d.error);
        }
        ghost var n := |drafts|;
        var id := Record(d.value);
        HandlesStep(handles, start, n, id);
        assert bodies == handles + Handles(start, n + 1);
        drafts := drafts + [d.value];
        assert |drafts| == n + 1;
        i := i + 1;
      }
      assert es[..i] == es;
      r := Success(drafts);
    }

    /**
      `parseGroup`: builds one body per `path` child, then one per `rect`
      child, then walks the `g` children, all inside the group's transform.
    */
    method ParseGroup(ext: Externals, g: Element, current: Affine) returns (r: Result<seq<BodyDraft>, LoadError>)
      modifies this, world
      ensures r == CompileGroup(ext, g, current)
      ensures r.Success? ==> world.bodies == old(world.bodies) + r.value
      ensures r.Success? ==> bodies == old(bodies) + Handles(|old(world.bodies)|, |r.value|)
      ensures world.destroyed == old(world.destroyed) && world.actors == old(world.actors)
      ensures Scene() == old(Scene())
      decreases g, 1
    {
      ghost var start := |world.bodies|;
      ghost var h0 := bodies;
      ghost var w0 := world.bodies;
      var t :- ElementTransform(ext, g, current);
      var paths :- BuildBodies(ext, ChildrenByName(g, "path"), t);
      ghost var mid := bodies;
      ghost var wmid := world.bodies;
      var rects :- BuildBodies(ext, ChildrenByName(g, "rect"), t);
      HandlesGlue(h0, start, |paths|, mid, |wmid|, |rects|, bodies, |paths + rects|);
      BodiesGlue(w0, paths, wmid, rects, world.bodies);
      ghost var built := world.bodies;
      ghost var handles := bodies;
      var subs :- ParseSubgroups(ext, g, ChildrenByName(g, "g"), t);
      HandlesGlue(h0, start, |paths + rects|, handles, |built|, |subs|, bodies, |paths + rects + subs|);
      BodiesGlue(w0, paths + rects, built, subs, world.bodies);
      r := Success(paths + rects + subs);
    }

    /** The loop of `parseGroup` over its `g` children, each parsed inside the group's transform `t`. */
    method ParseSubgroups(ext: Externals, g: Element, subs: seq<Element>, t: Affine) returns (r: Result<seq<BodyDraft>, LoadError>)
      requires forall x :: x in subs ==> x in g.children
      modifies this, world
      ensures r == CompileSubgroups(ext, g, subs, t)
      ensures r.Success? ==> world.bodies == old(world.bodies) + r.value
      ensures r.Success? ==> bodies == old(bodies) + Handles(|old(world.bodies)|, |r.value|)
      ensures world.destroyed == old(world.destroyed) && world.actors == old(world.actors)
      ensures Scene() == old(Scene())
      decreases g, 0
    {
      ghost var built := world.bodies;
      ghost var handles := bodies;
      assert Handles(|built|, 0) == [];
      assert handles + [] == handles && built + [] == built;
      var i := 0;
      var drafts: seq<BodyDraft> := [];
      while i < |subs|
        invariant 0 <= i <= |subs|
        invariant CompileSubgroups(ext, g, subs[..i], t) == Success(drafts)
        invariant world.bodies == built + drafts
        invariant bodies == handles + Handles(|built|, |drafts|)
        invariant world.destroyed == old(world.destroyed) && world.actors == old(world.actors)
        invariant Scene() == old(Scene())
      {
        assert subs[i] in g.children;
        ghost var prev := bodies;
        ghost var wprev := world.bodies;
        var sub := ParseGroup(ext, subs[i], t);
        PrefixOfPrefix(subs, i);
        if sub.Failure? {
          SubgroupsFailureSticks(ext, g, subs, t, i + 1);
          return Failure(sub.error);
        }
        HandlesGlue(handles, |built|, |drafts|, prev, |wprev|, |sub.value|, bodies, |drafts + sub.value|);
        BodiesGlue(built, drafts, wprev, sub.value, world.bodies);
        drafts := drafts + sub.value;
        i := i + 1;
      }
      assert subs[..i] == subs;
      r := Success(drafts);
    }

    /** Adds the zone actors to the world, in order. */
    method AddActors(actors: seq<ActorRecord>)
      modifies world
      ensures world.actors == old(world.actors) + actors
      ensures world.bodies == old(world.bodies) && world.destroyed == old(world.destroyed)
    {
      var i := 0;
      while i < |actors|
        invariant 0 <= i <= |actors|
        invariant world.actors == old(world.actors) + actors[..i]
        invariant world.bodies == old(world.bodies) && world.destroyed == old(world.destroyed)
      {
        world.AddActor(actors[i]);
        assert actors[..i + 1] == actors[..i] + [actors[i]];
        i := i + 1;
      }
      assert actors[..i] == actors;
    }

    /**
      The constructor body: calibrate, build the Physics layer, then read the
      Meta layer. The result is what `Assemble` computes; on success the
      level's fields hold it and the world has gained its bodies and zone
      actors.
    */
    method Load(ext: Externals, level: Element) returns (r: Result<LevelData, LoadError>)
      modifies this, world
      ensures r == Assemble(ext, level)
      ensures r.Success? ==>
                && dimensions == r.value.frame.dimensions
                && cameraBounds == r.value.markers.cameraBounds
                && spawn == r.value.markers.spawn
                && particles == old(particles) + r.value.markers.particles
                && lights == old(lights) + r.value.markers.lights
      ensures r.Success? ==>
                && world.bodies == old(world.bodies) + r.value.bodies
                && bodies == old(bodies) + Handles(|old(world.bodies)|, |r.value.bodies|)
                && world.actors == old(world.actors) + r.value.markers.actors
                && world.destroyed == old(world.destroyed)
    {
      var frame :- Calibrate(ext, level);
      if frame.physics.None? {
        return Failure(MissingLayer(LAYER_PHYSICS));
      }
      var drafts :- ParseGroup(ext, frame.physics.value, frame.view);
      var metaTransform :- ElementTransform(ext, frame.meta, frame.view);
      var markers :- ReadMeta(ext, frame.meta, metaTransform);
      Install(frame, markers);
      r := Success(LevelData(frame, drafts, markers));
    }

    /** Stores what the Meta layer yielded: fields, particles, zone actors and lights. */
    method Install(frame: Frame, markers: Markers)
      modifies this, world
      ensures dimensions == frame.dimensions && cameraBounds == markers.cameraBounds && spawn == markers.spawn
      ensures particles == old(particles) + markers.particles && lights == old(lights) + markers.lights
      ensures bodies == old(bodies)
      ensures world.actors == old(world.actors) + markers.actors
      ensures world.bodies == old(world.bodies) && world.destroyed == old(world.destroyed)
    {
      dimensions := frame.dimensions;
      spawn := markers.spawn;
      cameraBounds := markers.cameraBounds;
      particles := particles + markers.particles;
      AddActors(markers.actors);
      lights := lights + markers.lights;
    }

    /** `doRemove`: destroys every body this level built. */
    method DoRemove()
      modifies world
      ensures world.destroyed == old(world.destroyed) + (set j | 0 <= j < |bodies| :: bodies[j])
      ensures forall j :: 0 <= j < |bodies| ==> bodies[j] in world.destroyed
      ensures world.bodies == old(world.bodies) && world.actors == old(world.actors)
    {
      var i := 0;
      while i < |bodies|
        invariant 0 <= i <= |bodies|
        invariant world.destroyed == old(world.destroyed) + (set j | 0 <= j < i :: bodies[j])
        invariant world.bodies == old(world.bodies) && world.actors == old(world.actors)
      {
        world.DestroyBody(bodies[i]);
        assert (set j | 0 <= j < i + 1 :: bodies[j]) == (set j | 0 <= j < i :: bodies[j]) + {bodies[i]};
        i := i + 1;
      }
    }
  }
}
