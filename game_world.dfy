/**
  The parts of `GameWorld` the level code touches: the Box2D world as a
  registry of built static bodies (a body is known by its index) and the
  actors added to the stage.
*/
module GameWorld {
  import opened Geometry
  import opened BodyBuilding

  /** The world state machine's states. */
  datatype GameState = Init | Game | Victory | Defeat

  /** The actors the level code adds: hazard and goal zones from Meta rects, and actors made by a spawn factory. */
  datatype ActorRecord =
    | KillboxActor(corners: seq<Vec>)
    | WinboxActor(corners: seq<Vec>)
    | Spawned(kind: string, position: Vec)

  class World {
    /** Every body built so far, in build order; a body's handle is its index. */
    var bodies: seq<BodyDraft>
    var destroyed: set<nat>
    var actors: seq<ActorRecord>

    constructor ()
      ensures bodies == [] && destroyed == {} && actors == []
    {
      bodies := [];
      destroyed := {};
      actors := [];
    }

    /** `BodyBuilder.build(world)`: creates the body and hands back its handle. */
    method Build(draft: BodyDraft) returns (id: nat)
      modifies this
      ensures id == |old(bodies)|
      ensures bodies == old(bodies) + [draft]
      ensures destroyed == old(destroyed) && actors == old(actors)
    {
      id := |bodies|;
      bodies := bodies + [draft];
    }

    /** `box2dWorld.destroyBody`. */
    method DestroyBody(id: nat)
      modifies this
      ensures destroyed == old(destroyed) + {id}
      ensures bodies == old(bodies) && actors == old(actors)
    {
      destroyed := destroyed + {id};
    }

    /** `addActor`. */
    method AddActor(a: ActorRecord)
      modifies this
      ensures actors == old(actors) + [a]
      ensures bodies == old(bodies) && destroyed == old(destroyed)
    {
      actors := actors + [a];
    }
  }
}
