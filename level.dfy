/**
  `Level`, the base of every level actor: rejection sampling of spawn points
  inside the playable (grass) box or on the border around it, and spawning an
  actor at such a point. `MathUtils.random` is modelled as a supplied list of
  unit draws, so a sampler that runs out of draws reports `None` where the
  source would keep looping.
*/
module Levels {
  import opened Wrappers
  import opened Geometry
  import opened GameWorld

  /** How close to the player's spawn a point may not be when `avoidPlayer` is set. */
  const MIN_PLAYER_DISTANCE: real := 2.0

  /** A pair of `MathUtils.random()` results, each in [0, 1). */
  datatype Draw = Draw(u: real, v: real)

  predicate UnitDraw(d: Draw) {
    0.0 <= d.u < 1.0 && 0.0 <= d.v < 1.0
  }

  /** `MathUtils.random(start, end)` on a unit draw `u`. */
  function Between(start: real, end: real, u: real): (r: real)
    requires 0.0 <= u < 1.0
    ensures start <= end ==> start <= r <= end
  {
    var span := end - start;
    UnitScaleBounded(u, span);
    start + u * span
  }

  lemma UnitScaleBounded(u: real, k: real)
    requires 0.0 <= u < 1.0
    ensures 0.0 <= k ==> 0.0 <= u * k <= k
  {
    if 0.0 <= k {
      assert u * k <= 1.0 * k;
    }
  }

  /** Non-negative extents, as every libGDX rectangle the level hands out has. */
  predicate Proper(box: Rect) {
    box.width >= 0.0 && box.height >= 0.0
  }

  /** A candidate point drawn uniformly in a rectangle. */
  function PointIn(box: Rect, d: Draw): (r: Vec)
    requires UnitDraw(d)
    ensures Proper(box) ==> Contains(box, r)
  {
    Vec(Between(box.x, box.width + box.x, d.u), Between(box.y, box.height + box.y, d.v))
  }

  /** `excluded`: the base class excludes no point. */
  predicate Excluded(p: Vec) {
    false
  }

  /** `Vector2.dst(a, b) < 2`, compared squared so that no square root is needed. */
  predicate TooClose(p: Vec, spawn: Vec) {
    DistSq(p, spawn) < MIN_PLAYER_DISTANCE * MIN_PLAYER_DISTANCE
  }

  /** The loop condition of `getRandomPoint`: whether a candidate is drawn again. */
  predicate RejectInner(p: Vec, spawn: Vec, avoidPlayer: bool) {
    Excluded(p) || (avoidPlayer && TooClose(p, spawn))
  }

  /** The first acceptable point of `getRandomPoint` among the draws, if any. */
  function RandomPoint(grass: Rect, spawn: Vec, avoidPlayer: bool, draws: seq<Draw>): (r: Option<Vec>)
    requires forall i :: 0 <= i < |draws| ==> UnitDraw(draws[i])
    ensures r.Some? ==> !Excluded(r.value)
    ensures r.Some? && Proper(grass) ==> Contains(grass, r.value)
    ensures r.Some? && avoidPlayer ==> DistSq(r.value, spawn) >= MIN_PLAYER_DISTANCE * MIN_PLAYER_DISTANCE
    ensures r.None? <==> forall i :: 0 <= i < |draws| ==> RejectInner(PointIn(grass, draws[i]), spawn, avoidPlayer)
  {
    if |draws| == 0 then None
    else
      var p := PointIn(grass, draws[0]);
      if RejectInner(p, spawn, avoidPlayer) then
        var rest := RandomPoint(grass, spawn, avoidPlayer, draws[1..]);
        assert forall i :: 1 <= i < |draws| ==> draws[i] == draws[1..][i - 1];
        rest
      else Some(p)
  }

  /** The first point of `getRandomBorderPoint` among the draws that lies outside the grass box, if any. */
  function BorderPoint(bounds: Rect, grass: Rect, draws: seq<Draw>): (r: Option<Vec>)
    requires forall i :: 0 <= i < |draws| ==> UnitDraw(draws[i])
    ensures r.Some? ==> !Contains(grass, r.value)
    ensures r.Some? && Proper(bounds) ==> Contains(bounds, r.value)
    ensures r.None? <==> forall i :: 0 <= i < |draws| ==> Contains(grass, PointIn(bounds, draws[i]))
  {
    if |draws| == 0 then None
    else
      var p := PointIn(bounds, draws[0]);
      if Contains(grass, p) then
        var rest := BorderPoint(bounds, grass, draws[1..]);
        assert forall i :: 1 <= i < |draws| ==> draws[i] == draws[1..][i - 1];
        rest
      else Some(p)
  }

  /** The first draw is used when it is acceptable: the sampler never skips a good point. */
  lemma FirstGoodDrawWins(grass: Rect, spawn: Vec, avoidPlayer: bool, draws: seq<Draw>, k: nat)
    requires forall i :: 0 <= i < |draws| ==> UnitDraw(draws[i])
    requires k < |draws| && !RejectInner(PointIn(grass, draws[k]), spawn, avoidPlayer)
    requires forall i :: 0 <= i < k ==> RejectInner(PointIn(grass, draws[i]), spawn, avoidPlayer)
    ensures RandomPoint(grass, spawn, avoidPlayer, draws) == Some(PointIn(grass, draws[k]))
    decreases k
  {
    if k > 0 {
      assert forall i :: 0 <= i < |draws| - 1 ==> draws[1..][i] == draws[i + 1];
      FirstGoodDrawWins(grass, spawn, avoidPlayer, draws[1..], k - 1);
    }
  }

  class Level {
    const world: World
    /** `getGrassBox`: the playable area. */
    const grassBox: Rect
    /** `getBoundingBox`: the whole level. */
    const boundingBox: Rect
    /** `getSpawn`: where the player starts. */
    const spawn: Vec

    constructor (world: World, grassBox: Rect, boundingBox: Rect, spawn: Vec)
      ensures this.world == world && this.grassBox == grassBox && this.boundingBox == boundingBox && this.spawn == spawn
    {
      this.world := world;
      this.grassBox := grassBox;
      this.boundingBox := boundingBox;
      this.spawn := spawn;
    }

    /** `getRandomPoint`: draws inside the grass box until a point is neither excluded nor (if asked) too close to the spawn. */
    method GetRandomPoint(avoidPlayer: bool, draws: seq<Draw>) returns (r: Option<Vec>)
      requires forall i :: 0 <= i < |draws| ==> UnitDraw(draws[i])
      ensures r == RandomPoint(grassBox, spawn, avoidPlayer, draws)
    {
      var i := 0;
      while i < |draws|
        invariant 0 <= i <= |draws|
        invariant RandomPoint(grassBox, spawn, avoidPlayer, draws) == RandomPoint(grassBox, spawn, avoidPlayer, draws[i..])
      {
        var p := PointIn(grassBox, draws[i]);
        if !(Excluded(p) || (avoidPlayer && DistSq(p, spawn) < MIN_PLAYER_DISTANCE * MIN_PLAYER_DISTANCE)) {
          return Some(p);
        }
        assert draws[i..][1..] == draws[i + 1..];
        i := i + 1;
      }
      r := None;
    }

    /** `getRandomBorderPoint`: draws inside the bounding box until a point falls outside the grass box. */
    method GetRandomBorderPoint(draws: seq<Draw>) returns (r: Option<Vec>)
      requires forall i :: 0 <= i < |draws| ==> UnitDraw(draws[i])
      ensures r == BorderPoint(boundingBox, grassBox, draws)
    {
      var i := 0;
      while i < |draws|
        invariant 0 <= i <= |draws|
        invariant BorderPoint(boundingBox, grassBox, draws) == BorderPoint(boundingBox, grassBox, draws[i..])
      {
        var p := PointIn(boundingBox, draws[i]);
        if !Contains(grassBox, p) {
          return Some(p);
        }
        assert draws[i..][1..] == draws[i + 1..];
        i := i + 1;
      }
      r := None;
    }

    /**
      `spawnRandomObject`: adds the actor the factory makes at a random inner
      point. The factory is not part of this model; it is recorded as the kind
      of actor it makes.
    */
    method SpawnRandomObject(kind: string, avoidPlayer: bool, draws: seq<Draw>)
      requires forall i :: 0 <= i < |draws| ==> UnitDraw(draws[i])
      modifies world
      ensures var p := RandomPoint(grassBox, spawn, avoidPlayer, draws);
              world.actors == old(world.actors) + (if p.Some? then [Spawned(kind, p.value)] else [])
      ensures world.bodies == old(world.bodies) && world.destroyed == old(world.destroyed)
    {
      var p := GetRandomPoint(avoidPlayer, draws);
      if p.Some? {
        world.AddActor(Spawned(kind, p.value));
      }
    }
  }
}
