/**
  `PlayerActor`: the ball the player steers. Each tick it classifies the
  Box2D contacts it takes part in as floor or wall contacts (each flag kept
  alive for a short time after its last sighting), then steers according to
  its shape mode: rolling (0), spinning (1) or gliding (2).

  Box2D is not part of this model. A contact is given by the two bodies it
  joins, whether it touches and its world normal. The forces, torques and
  impulses the actor applies are recorded, in order, as effects. The body
  setters become updates of a `BodyState` value.
*/
module Player {
  import opened Wrappers
  import opened Geometry
  import opened GameWorld

  /** How long a contact flag survives its last sighting, in seconds. */
  const CONTACT_TTL: real := 0.2
  const RADIUS: real := 0.5
  const VELOCITY: real := 5.0
  const TORQUE: real := 2.0
  const JUMP_IMPULSE: real := 4.0
  const AIR_CONTROL: real := 3.0
  const V_MAX_AIRCONTROL: real := 2.5
  const V_MAX_GLIDE_DROP: real := -2.0
  const V_MAX_ROLL: real := 40.0
  const GLIDE_V_SCALE: real := 0.01
  /** Floors are surfaces whose normal is within 45 degrees of straight up. */
  const FLOOR_NORMAL_Y: real := 0.707
  /** Walls are surfaces whose normal is within 30 degrees of horizontal. */
  const WALL_NORMAL_X: real := 0.866
  /** In mode 1, the speed below which the spin is set directly. */
  const SPIN_RESET_SPEED: real := 0.1
  /** libGDX key codes of the number keys 1, 2 and 3. */
  const KEY_NUM_1: int := 8
  const KEY_NUM_3: int := 10

  // ---------------------------------------------------------------------
  // Contacts
  // ---------------------------------------------------------------------

  datatype BodyType = StaticBody | KinematicBody | DynamicBody

  /** One side of a contact: whether its body belongs to this player, and its type. */
  datatype ContactBody = ContactBody(isPlayer: bool, kind: BodyType)

  /** A contact from the world's contact list. */
  datatype Contact = Contact(a: ContactBody, b: ContactBody, touching: bool, normal: Vec)

  datatype Side = Floor | LeftWall | RightWall

  /** The type of the body the player touches in `c`, when the player is part of it (fixture A is checked first). */
  function Other(c: Contact): (r: Option<BodyType>)
    ensures r.Some? <==> c.a.isPlayer || c.b.isPlayer
    ensures c.a.isPlayer ==> r == Some(c.b.kind)
    ensures !c.a.isPlayer && c.b.isPlayer ==> r == Some(c.a.kind)
  {
    if c.a.isPlayer then Some(c.b.kind)
    else if c.b.isPlayer then Some(c.a.kind)
    else None
  }

  /** A contact can set a flag only if it joins the player to a static body and is touching. */
  predicate Counts(c: Contact) {
    Other(c) == Some(StaticBody) && c.touching
  }

  /**
    Which flag a contact sets, if any. The floor test comes first, so a
    contact whose normal points up counts as floor whatever its x component.
  */
  function Classify(c: Contact): (r: Option<Side>)
    ensures r.Some? ==> Counts(c)
    ensures r == Some(Floor) <==> Counts(c) && c.normal.y > FLOOR_NORMAL_Y
    ensures r == Some(LeftWall) <==> Counts(c) && c.normal.y <= FLOOR_NORMAL_Y && c.normal.x > WALL_NORMAL_X
    ensures r == Some(RightWall) <==> Counts(c) && c.normal.y <= FLOOR_NORMAL_Y && c.normal.x < -WALL_NORMAL_X
  {
    var other := Other(c);
    if other.None? then None
    else if other.value == StaticBody && c.touching && c.normal.y > FLOOR_NORMAL_Y then Some(Floor)
    else if other.value == StaticBody && c.touching && c.normal.x > WALL_NORMAL_X then Some(LeftWall)
    else if other.value == StaticBody && c.touching && c.normal.x < -WALL_NORMAL_X then Some(RightWall)
    else None
  }

  /** Whether any contact in `cs` sets the flag of `side`. */
  predicate Seen(cs: seq<Contact>, side: Side) {
    exists i :: 0 <= i < |cs| && Classify(cs[i]) == Some(side)
  }

  lemma SeenStep(cs: seq<Contact>, i: nat, side: Side)
    requires i < |cs|
    ensures Seen(cs[..i + 1], side) <==> Seen(cs[..i], side) || Classify(cs[i]) == Some(side)
  {
    if Seen(cs[..i + 1], side) && !(Classify(cs[i]) == Some(side)) {
      var j :| 0 <= j < i + 1 && Classify(cs[..i + 1][j]) == Some(side);
      assert cs[..i][j] == cs[..i + 1][j];
    }
    if Seen(cs[..i], side) {
      var j :| 0 <= j < i && Classify(cs[..i][j]) == Some(side);
      assert cs[..i + 1][j] == cs[..i][j];
    }
    if Classify(cs[i]) == Some(side) {
      assert cs[..i + 1][i] == cs[i];
    }
  }

  /** A contact flag with the time it was last set. */
  datatype Tracker = Tracker(touching: bool, lastSeen: real)

  /**
    A flag after one tick's scan at `now`: a sighting sets it and stamps it;
    then it is cleared once more than `CONTACT_TTL` has passed since the
    stamp.
  */
  function Track(t: Tracker, seen: bool, now: real): (r: Tracker)
    ensures seen ==> r == Tracker(true, now)
    ensures !seen ==> r.lastSeen == t.lastSeen
    ensures !seen ==> (r.touching <==> t.touching && now - t.lastSeen <= CONTACT_TTL)
  {
    var last := if seen then now else t.lastSeen;
    Tracker((t.touching || seen) && !(now - last > CONTACT_TTL), last)
  }

  /** A flag over ticks at the given times in which the contact is not seen again. */
  function Unseen(t: Tracker, times: seq<real>): Tracker
  {
    if |times| == 0 then t else Track(Unseen(t, times[..|times| - 1]), false, times[|times| - 1])
  }

  /** A contact seen at `T` keeps its flag through every later tick up to `T + CONTACT_TTL` inclusive. */
  lemma {:induction false} FlagLastsTtl(t: real, times: seq<real>)
    requires forall i :: 0 <= i < |times| ==> times[i] - t <= CONTACT_TTL
    ensures Unseen(Tracker(true, t), times) == Tracker(true, t)
  {
    if |times| > 0 {
      FlagLastsTtl(t, times[..|times| - 1]);
    }
  }

  /** Once a tick comes more than `CONTACT_TTL` after the last sighting, the flag stays cleared until the next sighting. */
  lemma {:induction false} FlagExpires(t: Tracker, times: seq<real>, k: nat)
    requires k < |times| && times[k] - t.lastSeen > CONTACT_TTL
    ensures !Unseen(t, times).touching
    ensures Unseen(t, times).lastSeen == t.lastSeen
  {
    if k < |times| - 1 {
      FlagExpires(t, times[..|times| - 1], k);
    } else {
      UnseenKeepsStamp(t, times[..|times| - 1]);
    }
  }

  lemma {:induction false} UnseenKeepsStamp(t: Tracker, times: seq<real>)
    ensures Unseen(t, times).lastSeen == t.lastSeen
  {
    if |times| > 0 {
      UnseenKeepsStamp(t, times[..|times| - 1]);
    }
  }

  // ---------------------------------------------------------------------
  // The body and what the actor does to it
  // ---------------------------------------------------------------------

  /** The parts of the Box2D body the actor reads or sets. */
  datatype BodyState = BodyState(
    position: Vec,
    velocity: Vec,
    angularVelocity: real,
    radius: real,
    restitution: real,
    linearDamping: real,
    angularDamping: real,
    fixedRotation: bool,
    gravityScale: real,
    awake: bool)

  /** What the actor applies to its body, for the physics step to act on. */
  datatype Effect =
    | Force(force: Vec)
    | Impulse(impulse: Vec)
    | Torque(torque: real)

  /** The controller's reading for one tick: the steering vector and whether a jump is pending. */
  datatype Movement = Movement(mv: Vec, jump: bool)

  /** `Math.signum`. */
  function Signum(x: real): real {
    if x > 0.0 then 1.0 else if x < 0.0 then -1.0 else 0.0
  }

  /** `orientation` after a tick with horizontal input `mvx`. */
  function NewOrientation(orientation: real, mvx: real): real {
    if Abs(mvx) > 0.0 then Signum(mvx) else orientation
  }

  /** Orientation follows the input, so the rolling mode's steering test never fails once it has been updated. */
  lemma SteeringAlwaysAllowed(orientation: real, mvx: real)
    ensures mvx == 0.0 || Signum(mvx) == Signum(NewOrientation(orientation, mvx))
  {
  }

  /** The impulse a jump gives, by what the player touches; the floor wins over the walls. */
  function JumpImpulse(floor: bool, leftWall: bool, rightWall: bool, mvx: real): (r: Option<Vec>)
    ensures floor ==> r == Some(Vec(0.0, JUMP_IMPULSE))
    ensures r.Some? ==> r.value.y == JUMP_IMPULSE
    ensures r == Some(Vec(JUMP_IMPULSE / 3.0, JUMP_IMPULSE)) <==> !floor && leftWall && mvx > 0.0
    ensures r == Some(Vec(-JUMP_IMPULSE / 3.0, JUMP_IMPULSE)) <==> !floor && !(leftWall && mvx > 0.0) && rightWall && mvx < 0.0
    ensures r.None? <==> !floor && !(leftWall && mvx > 0.0) && !(rightWall && mvx < 0.0)
  {
    if floor then Some(Vec(0.0, JUMP_IMPULSE))
    else if leftWall && mvx > 0.0 then Some(Vec(JUMP_IMPULSE / 3.0, JUMP_IMPULSE))
    else if rightWall && mvx < 0.0 then Some(Vec(-JUMP_IMPULSE / 3.0, JUMP_IMPULSE))
    else None
  }

  /** What a tick of `move` changes: the body, the effects it adds, and `lastJump`. */
  datatype Outcome = Outcome(body: BodyState, effects: seq<Effect>, lastJump: real)

  /** The contact flags `move` reads. */
  datatype Touching = Touching(floor: bool, leftWall: bool, rightWall: bool)

  /** The impulse a pending jump gives this tick: only after the cooldown, and only when `JumpImpulse` allows one. */
  function Jump(m: Movement, t: Touching, now: real, lastJump: real): (r: Option<Vec>)
    ensures r.Some? <==> m.jump && now - lastJump > CONTACT_TTL && JumpImpulse(t.floor, t.leftWall, t.rightWall, m.mv.x).Some?
    ensures r.Some? ==> r == JumpImpulse(t.floor, t.leftWall, t.rightWall, m.mv.x)
  {
    if now - lastJump > CONTACT_TTL && m.jump then JumpImpulse(t.floor, t.leftWall, t.rightWall, m.mv.x) else None
  }

  /** The rolling mode steers only with no sideways input or with input towards the current orientation. */
  predicate Steers(mvx: real, orientation: real) {
    mvx == 0.0 || Signum(mvx) == Signum(orientation)
  }

  /** The push of the rolling mode in the air, applied while steering below the air-control speed. */
  function AirPush(b: BodyState, m: Movement, orientation: real, t: Touching): (r: seq<Effect>)
    ensures |r| <= 1
    ensures |r| == 1 <==> Steers(m.mv.x, orientation) && !t.floor && Abs(b.velocity.x) < V_MAX_AIRCONTROL
    ensures |r| == 1 ==> r[0] == Force(Vec(m.mv.x * AIR_CONTROL, 0.0))
  {
    if Steers(m.mv.x, orientation) && !t.floor && Abs(b.velocity.x) < V_MAX_AIRCONTROL then [Force(Vec(m.mv.x * AIR_CONTROL, 0.0))] else []
  }

  /**
    Mode 0, rolling: on the floor the spin is set from the input; in the air
    a push is applied while the horizontal speed is below the air-control
    limit. A pending jump fires only after the cooldown and only from a
    floor or a wall the player pushes towards; its impulse comes after the push.
  */
  function Rolling(b: BodyState, m: Movement, orientation: real, t: Touching, now: real, lastJump: real): (r: Outcome)
    ensures r.body == b.(angularVelocity := r.body.angularVelocity)
    ensures t.floor && Steers(m.mv.x, orientation) ==> r.body.angularVelocity == -m.mv.x * VELOCITY
    ensures !(t.floor && Steers(m.mv.x, orientation)) ==> r.body.angularVelocity == b.angularVelocity
    ensures var fire := Jump(m, t, now, lastJump);
            && r.lastJump == (if fire.Some? then now else lastJump)
            && r.effects == AirPush(b, m, orientation, t) + (if fire.Some? then [Impulse(fire.value)] else [])
  {
    var spun := if Steers(m.mv.x, orientation) && t.floor then b.(angularVelocity := -m.mv.x * VELOCITY) else b;
    var pushed := AirPush(b, m, orientation, t);
    var impulse := Jump(m, t, now, lastJump);
    if impulse.Some? then Outcome(spun, pushed + [Impulse(impulse.value)], now)
    else Outcome(spun, pushed, lastJump)
  }

  /** The rolling mode's effects: at most an air push, then at most a jump impulse, which is last and the only impulse. */
  lemma RollingEffects(b: BodyState, m: Movement, orientation: real, t: Touching, now: real, lastJump: real)
    ensures var r := Rolling(b, m, orientation, t, now, lastJump);
            var fire := Jump(m, t, now, lastJump);
            && |r.effects| <= 2
            && (fire.Some? ==> |r.effects| > 0 && r.effects[|r.effects| - 1] == Impulse(fire.value))
            && (fire.None? ==> forall e :: e in r.effects ==> !e.Impulse?)
            && (t.floor ==> forall e :: e in r.effects ==> !e.Force?)
  {
    var r := Rolling(b, m, orientation, t, now, lastJump);
    var push := AirPush(b, m, orientation, t);
    assert forall e :: e in push ==> e.Force?;
    assert t.floor ==> push == [];
  }

  /** Whether a velocity is below `SPIN_RESET_SPEED`, compared squared so that no square root is needed. */
  predicate Slow(v: Vec) {
    v.x * v.x + v.y * v.y < SPIN_RESET_SPEED * SPIN_RESET_SPEED
  }

  /** Mode 1, spinning: torque from the input while the spin is below its limit; nearly at rest, the spin is set directly. */
  function Spinning(b: BodyState, m: Movement): (r: Outcome)
    ensures r.body == b.(angularVelocity := r.body.angularVelocity)
    ensures r.body.angularVelocity == if Slow(b.velocity) then -m.mv.x * VELOCITY * 0.5 else b.angularVelocity
    ensures r.effects == [] || r.effects == [Torque(-m.mv.x * TORQUE)]
    ensures r.effects != [] <==> Abs(b.angularVelocity) < V_MAX_ROLL
  {
    var torque := if Abs(b.angularVelocity) < V_MAX_ROLL then [Torque(-m.mv.x * TORQUE)] else [];
    var body := if Slow(b.velocity) then b.(angularVelocity := -m.mv.x * VELOCITY * 0.5) else b;
    Outcome(body, torque, 0.0)
  }

  /** The vertical lift of mode 2: the vertical input times the horizontal speed, scaled. */
  function Lift(mvy: real, vx: real): real {
    mvy * Abs(vx) * GLIDE_V_SCALE
  }

  /** Mode 2, gliding: the sink rate is capped and a lift proportional to the horizontal speed is applied. */
  function Gliding(b: BodyState, m: Movement): (r: Outcome)
    ensures r.body == b.(velocity := r.body.velocity)
    ensures r.body.velocity.x == b.velocity.x
    ensures r.body.velocity.y >= V_MAX_GLIDE_DROP
    ensures b.velocity.y >= V_MAX_GLIDE_DROP ==> r.body.velocity.y == b.velocity.y
    ensures b.velocity.y < V_MAX_GLIDE_DROP ==> r.body.velocity.y == V_MAX_GLIDE_DROP
    ensures r.effects == [Force(Vec(0.0, Lift(m.mv.y, b.velocity.x)))]
  {
    var v := b.velocity;
    var body := if v.y < V_MAX_GLIDE_DROP then b.(velocity := Vec(v.x, V_MAX_GLIDE_DROP)) else b;
    Outcome(body, [Force(Vec(0.0, Lift(m.mv.y, v.x)))], 0.0)
  }

  /** `move` by shape mode; a mode outside 0..2 steers nothing. Only modes 0 can change `lastJump`. */
  function MoveOutcome(mode: int, b: BodyState, m: Movement, orientation: real, t: Touching, now: real, lastJump: real): (r: Outcome)
    ensures r.body.position == b.position && r.body.radius == b.radius
    ensures mode != 0 ==> r.lastJump == lastJump
    ensures mode != 0 ==> forall e :: e in r.effects ==> !e.Impulse?
  {
    if mode == 0 then Rolling(b, m, orientation, t, now, lastJump)
    else if mode == 1 then Spinning(b, m).(lastJump := lastJump)
    else if mode == 2 then Gliding(b, m).(lastJump := lastJump)
    else Outcome(b, [], lastJump)
  }

  /**
    The physics engine's `setFixedRotation(flag)`: locking or unlocking the
    rotation stops the spin; setting the flag it already has changes nothing.
  */
  function FixRotation(b: BodyState, flag: bool): (r: BodyState)
    ensures r.fixedRotation == flag
    ensures r == b.(fixedRotation := flag, angularVelocity := r.angularVelocity)
    ensures r.angularVelocity == (if b.fixedRotation == flag then b.angularVelocity else 0.0)
  {
    if b.fixedRotation == flag then b else b.(fixedRotation := flag, angularVelocity := 0.0)
  }

  /**
    `setShapeState`'s body profile: radius, bounciness, damping, rotation
    lock and gravity per mode; mode 2 also limits the vertical speed. The
    spin survives unless the rotation lock flips. The body is woken whatever
    the mode; a mode outside 0..2 changes nothing else.
  */
  function Profile(mode: int, b: BodyState): (r: BodyState)
    ensures r.awake
    ensures r.position == b.position
    ensures r.angularVelocity == (if 0 <= mode <= 2 && (mode == 2) != b.fixedRotation then 0.0 else b.angularVelocity)
    ensures mode == 0 ==> r.radius == 0.45 && r.gravityScale == 1.0 && !r.fixedRotation
    ensures mode == 1 ==> r.radius == 0.5 && r.gravityScale == 1.0 && !r.fixedRotation
    ensures mode == 2 ==> r.radius == 0.1 && r.gravityScale == 0.1 && r.fixedRotation
    ensures mode == 0 ==> r.restitution == 0.1 && r.linearDamping == 0.2 && r.angularDamping == 0.8
    ensures mode == 1 ==> r.restitution == 0.1 && r.linearDamping == 0.05 && r.angularDamping == 0.05
    ensures mode == 2 ==> r.restitution == 0.0 && r.linearDamping == 0.01 && r.angularDamping == 0.8
    ensures mode == 2 ==> r.velocity.x == b.velocity.x && -1.0 <= r.velocity.y <= 1.0
    ensures mode == 2 && -1.0 <= b.velocity.y <= 1.0 ==> r.velocity == b.velocity
    ensures mode != 2 ==> r.velocity == b.velocity
    ensures !(0 <= mode <= 2) ==> r == b.(awake := true)
  {
    var shaped :=
      if mode == 0 then
        FixRotation(b.(radius := RADIUS * 0.9, restitution := 0.1, linearDamping := 0.2, angularDamping := 0.8), false)
          .(gravityScale := 1.0)
      else if mode == 1 then
        FixRotation(b.(radius := RADIUS, restitution := 0.1, linearDamping := 0.05, angularDamping := 0.05), false)
          .(gravityScale := 1.0)
      else if mode == 2 then
        FixRotation(b.(radius := RADIUS / 5.0, restitution := 0.0, linearDamping := 0.01, angularDamping := 0.8), true)
          .(gravityScale := 0.1, velocity := Vec(b.velocity.x, Clamp(b.velocity.y, -1.0, 1.0)))
      else b;
    shaped.(awake := true)
  }

  /** `MathUtils.clamp`. */
  function Clamp(v: real, lo: real, hi: real): (r: real)
    requires lo <= hi
    ensures lo <= r <= hi
    ensures lo <= v <= hi ==> r == v
  {
    if v < lo then lo else if v > hi then hi else v
  }

  /** The mode a key selects: the number keys 1, 2 and 3 give modes 0, 1 and 2; other keys select none. */
  function ModeForKey(keycode: int): (r: Option<int>)
    ensures r.Some? <==> KEY_NUM_1 <= keycode <= KEY_NUM_3
    ensures r.Some? ==> 0 <= r.value <= 2 && r.value == keycode - KEY_NUM_1
  {
    if keycode == KEY_NUM_1 then Some(0)
    else if keycode == KEY_NUM_1 + 1 then Some(1)
    else if keycode == KEY_NUM_3 then Some(2)
    else None
  }

  /** `createBody`: a dynamic circle of radius `RADIUS` at the spawn point, at rest, with restitution 1. */
  function SpawnBody(spawn: Vec): (r: BodyState)
    ensures r.position == spawn && r.velocity == Vec(0.0, 0.0) && r.angularVelocity == 0.0
    ensures r.radius == RADIUS && r.restitution == 1.0
  {
    BodyState(spawn, Vec(0.0, 0.0), 0.0, RADIUS, 1.0, 0.0, 0.0, false, 1.0, true)
  }

  // ---------------------------------------------------------------------
  // The actor
  // ---------------------------------------------------------------------

  class PlayerActor {
    var body: BodyState
    /** Everything applied to the body so far, in order. */
    var effects: seq<Effect>
    var moving: bool
    var orientation: real
    var shapeState: int
    var lastJump: real
    var touchingFloor: bool
    var touchingLeftWall: bool
    var touchingRightWall: bool
    var lastFloorContact: real
    var lastLeftWallContact: real
    var lastRightWallContact: real
    /** Whether the sprite follows the body's rotation, and the sprite rotation. */
    var useRotation: bool
    var rotation: real
    var killed: bool

    function FloorTracker(): Tracker
      reads this
    {
      Tracker(touchingFloor, lastFloorContact)
    }

    function LeftWallTracker(): Tracker
      reads this
    {
      Tracker(touchingLeftWall, lastLeftWallContact)
    }

    function RightWallTracker(): Tracker
      reads this
    {
      Tracker(touchingRightWall, lastRightWallContact)
    }

    function Flags(): Touching
      reads this
    {
      Touching(touchingFloor, touchingLeftWall, touchingRightWall)
    }

    /** The fields contact processing leaves alone. */
    function Motion(): (BodyState, seq<Effect>, bool, real, int, real, bool, real, bool)
      reads this
    {
      (body, effects, moving, orientation, shapeState, lastJump, useRotation, rotation, killed)
    }

    /** The fields `move` leaves alone. */
    function Contacts(): (Tracker, Tracker, Tracker, int, bool, real, bool)
      reads this
    {
      (FloorTracker(), LeftWallTracker(), RightWallTracker(), shapeState, useRotation, rotation, killed)
    }

    /** The constructor with `createBody` and `init`, which puts the actor in mode 0. */
    constructor (spawn: Vec)
      ensures body == Profile(0, SpawnBody(spawn))
      ensures shapeState == 0 && orientation == 1.0 && lastJump == 0.0 && !moving && !killed
      ensures !touchingFloor && !touchingLeftWall && !touchingRightWall
      ensures lastFloorContact == 0.0 && lastLeftWallContact == 0.0 && lastRightWallContact == 0.0
      ensures effects == [] && !useRotation && rotation == 0.0
    {
      body := SpawnBody(spawn);
      effects := [];
      moving := false;
      orientation := 1.0;
      shapeState := 0;
      lastJump := 0.0;
      touchingFloor := false;
      touchingLeftWall := false;
      touchingRightWall := false;
      lastFloorContact := 0.0;
      lastLeftWallContact := 0.0;
      lastRightWallContact := 0.0;
      useRotation := true;
      rotation := 0.0;
      killed := false;
      new;
      SetShapeState(0);
    }

    /** `setShapeState`. */
    method SetShapeState(state: int)
      modifies this
      ensures shapeState == state
      ensures body == Profile(state, old(body))
      ensures useRotation == (if state == 1 then true else if state == 0 || state == 2 then false else old(useRotation))
      ensures rotation == (if state == 0 || state == 2 then 0.0 else old(rotation))
      ensures effects == old(effects) && moving == old(moving) && orientation == old(orientation) && lastJump == old(lastJump)
      ensures FloorTracker() == old(FloorTracker()) && LeftWallTracker() == old(LeftWallTracker())
      ensures RightWallTracker() == old(RightWallTracker()) && killed == old(killed)
    {
      shapeState := state;
      if state == 0 {
        body := body.(radius := RADIUS * 0.9, restitution := 0.1, linearDamping := 0.2, angularDamping := 0.8);
        body := FixRotation(body, false);
        body := body.(gravityScale := 1.0);
        useRotation := false;
        rotation := 0.0;
      } else if state == 1 {
        body := body.(radius := RADIUS, restitution := 0.1, linearDamping := 0.05, angularDamping := 0.05);
        body := FixRotation(body, false);
        body := body.(gravityScale := 1.0);
        useRotation := true;
      } else if state == 2 {
        body := body.(radius := RADIUS / 5.0, restitution := 0.0, linearDamping := 0.01, angularDamping := 0.8);
        body := FixRotation(body, true);
        body := body.(gravityScale := 0.1);
        var v := body.velocity;
        body := body.(velocity := Vec(v.x, Clamp(v.y, -1.0, 1.0)));
        useRotation := false;
        rotation := 0.0;
      }
      body := body.(awake := true);
    }

    /**
      The keyboard listener's `keyDown`: the number keys switch modes and are
      consumed; any other key goes to the movement listener, whose answer is
      `fallback`.
    */
    method KeyDown(keycode: int, fallback: bool) returns (handled: bool)
      modifies this
      ensures ModeForKey(keycode).Some? ==> handled && shapeState == ModeForKey(keycode).value
      ensures ModeForKey(keycode).Some? ==> body == Profile(shapeState, old(body))
      ensures ModeForKey(keycode).None? ==> handled == fallback && body == old(body) && shapeState == old(shapeState)
      ensures effects == old(effects) && lastJump == old(lastJump) && FloorTracker() == old(FloorTracker())
    {
      if keycode == KEY_NUM_1 {
        SetShapeState(0);
        return true;
      }
      if keycode == KEY_NUM_1 + 1 {
        SetShapeState(1);
        return true;
      }
      if keycode == KEY_NUM_3 {
        SetShapeState(2);
        return true;
      }
      handled := fallback;
    }

    /** The body of `processContacts`' loop: one contact sets at most one flag and stamps it. */
    method Sight(c: Contact, stateTime: real)
      modifies this
      ensures FloorTracker() == if Classify(c) == Some(Floor) then Tracker(true, stateTime) else old(FloorTracker())
      ensures LeftWallTracker() == if Classify(c) == Some(LeftWall) then Tracker(true, stateTime) else old(LeftWallTracker())
      ensures RightWallTracker() == if Classify(c) == Some(RightWall) then Tracker(true, stateTime) else old(RightWallTracker())
      ensures Motion() == old(Motion())
    {
      var other := Other(c);
      if other.None? {
        return;
      }
      if other.value == StaticBody && c.touching && c.normal.y > FLOOR_NORMAL_Y {
        touchingFloor := true;
        lastFloorContact := stateTime;
      } else if other.value == StaticBody && c.touching && c.normal.x > WALL_NORMAL_X {
        touchingLeftWall := true;
        lastLeftWallContact := stateTime;
      } else if other.value == StaticBody && c.touching && c.normal.x < -WALL_NORMAL_X {
        touchingRightWall := true;
        lastRightWallContact := stateTime;
      }
    }

    /** `processContacts`: sets flags from this tick's contacts, then expires stale ones. */
    method ProcessContacts(contacts: seq<Contact>, stateTime: real)
      modifies this
      ensures FloorTracker() == Track(old(FloorTracker()), Seen(contacts, Floor), stateTime)
      ensures LeftWallTracker() == Track(old(LeftWallTracker()), Seen(contacts, LeftWall), stateTime)
      ensures RightWallTracker() == Track(old(RightWallTracker()), Seen(contacts, RightWall), stateTime)
      ensures Motion() == old(Motion())
    {
      var i := 0;
      while i < |contacts|
        invariant 0 <= i <= |contacts|
        invariant FloorTracker() == if Seen(contacts[..i], Floor) then Tracker(true, stateTime) else old(FloorTracker())
        invariant LeftWallTracker() == if Seen(contacts[..i], LeftWall) then Tracker(true, stateTime) else old(LeftWallTracker())
        invariant RightWallTracker() == if Seen(contacts[..i], RightWall) then Tracker(true, stateTime) else old(RightWallTracker())
        invariant Motion() == old(Motion())
      {
        Sight(contacts[i], stateTime);
        SeenStep(contacts, i, Floor);
        SeenStep(contacts, i, LeftWall);
        SeenStep(contacts, i, RightWall);
        i := i + 1;
      }
      assert contacts[..i] == contacts;
      if stateTime - lastFloorContact > CONTACT_TTL {
        touchingFloor := false;
      }
      if stateTime - lastLeftWallContact > CONTACT_TTL {
        touchingLeftWall := false;
      }
      if stateTime - lastRightWallContact > CONTACT_TTL {
        touchingRightWall := false;
      }
    }

    /** `move`: one tick of steering in the current mode. */
    method Move(m: Movement, stateTime: real)
      modifies this
      ensures moving == (Abs(m.mv.x) > 0.0)
      ensures orientation == NewOrientation(old(orientation), m.mv.x)
      ensures var o := MoveOutcome(shapeState, old(body), m, orientation, Flags(), stateTime, old(lastJump));
              body == o.body && effects == old(effects) + o.effects && lastJump == o.lastJump
      ensures Contacts() == old(Contacts())
    {
      var mv := m.mv;
      moving := Abs(mv.x) > 0.0;
      if moving {
        orientation := Signum(mv.x);
      }
      if shapeState == 0 {
        Roll(m, stateTime);
      } else if shapeState == 1 {
        Spin(m);
      } else if shapeState == 2 {
        Glide(m);
      }
    }

    /** The mode-0 branch of `move`. */
    method Roll(m: Movement, stateTime: real)
      modifies this
      ensures var o := Rolling(old(body), m, orientation, Flags(), stateTime, old(lastJump));
              body == o.body && effects == old(effects) + o.effects && lastJump == o.lastJump
      ensures Contacts() == old(Contacts()) && moving == old(moving) && orientation == old(orientation)
    {
      var mv := m.mv;
      var v := body.velocity;
      if Steers(mv.x, orientation) {
        if touchingFloor {
          body := body.(angularVelocity := -mv.x * VELOCITY);
        } else if Abs(v.x) < V_MAX_AIRCONTROL {
          effects := effects + [Force(Vec(mv.x * AIR_CONTROL, 0.0))];
        }
      }
      TryJump(m, stateTime);
    }

    /** The jump part of the mode-0 branch of `move`. */
    method TryJump(m: Movement, stateTime: real)
      modifies this
      ensures var j := Jump(m, Flags(), stateTime, old(lastJump));
              && effects == old(effects) + (if j.Some? then [Impulse(j.value)] else [])
              && lastJump == (if j.Some? then stateTime else old(lastJump))
      ensures body == old(body) && Contacts() == old(Contacts()) && moving == old(moving) && orientation == old(orientation)
    {
      var mv := m.mv;
      var jump := m.jump;
      if stateTime - lastJump > CONTACT_TTL && jump {
        if touchingFloor {
          effects := effects + [Impulse(Vec(0.0, JUMP_IMPULSE))];
          lastJump := stateTime;
        } else if touchingLeftWall && mv.x > 0.0 {
          effects := effects + [Impulse(Vec(JUMP_IMPULSE / 3.0, JUMP_IMPULSE))];
          lastJump := stateTime;
        } else if touchingRightWall && mv.x < 0.0 {
          effects := effects + [Impulse(Vec(-JUMP_IMPULSE / 3.0, JUMP_IMPULSE))];
          lastJump := stateTime;
        }
      }
    }

    /** The mode-1 branch of `move`. */
    method Spin(m: Movement)
      modifies this
      ensures var o := Spinning(old(body), m);
              body == o.body && effects == old(effects) + o.effects
      ensures Contacts() == old(Contacts()) && moving == old(moving) && orientation == old(orientation) && lastJump == old(lastJump)
    {
      var mv := m.mv;
      var v := body.velocity;
      if Abs(body.angularVelocity) < V_MAX_ROLL {
        effects := effects + [Torque(-mv.x * TORQUE)];
      }
      if v.x * v.x + v.y * v.y < SPIN_RESET_SPEED * SPIN_RESET_SPEED {
        body := body.(angularVelocity := -mv.x * VELOCITY * 0.5);
      }
    }

    /** The mode-2 branch of `move`. */
    method Glide(m: Movement)
      modifies this
      ensures var o := Gliding(old(body), m);
              body == o.body && effects == old(effects) + o.effects
      ensures Contacts() == old(Contacts()) && moving == old(moving) && orientation == old(orientation) && lastJump == old(lastJump)
    {
      var mv := m.mv;
      var v := body.velocity;
      if v.y < V_MAX_GLIDE_DROP {
        body := body.(velocity := Vec(v.x, V_MAX_GLIDE_DROP));
      }
      effects := effects + [Force(Vec(0.0, Lift(mv.y, v.x)))];
    }

    /**
      `doAct`: processes contacts; steers only with a controller while the
      game runs, and otherwise stops the spin; then kills the player once
      the ball has dropped wholly below the level.
    */
    method DoAct(contacts: seq<Contact>, controller: Option<Movement>, state: GameState, levelBottom: real, stateTime: real)
      modifies this
      ensures FloorTracker() == Track(old(FloorTracker()), Seen(contacts, Floor), stateTime)
      ensures LeftWallTracker() == Track(old(LeftWallTracker()), Seen(contacts, LeftWall), stateTime)
      ensures RightWallTracker() == Track(old(RightWallTracker()), Seen(contacts, RightWall), stateTime)
      ensures controller.None? || state != Game ==>
                && body == old(body).(angularVelocity := 0.0)
                && effects == old(effects) && lastJump == old(lastJump)
                && moving == old(moving) && orientation == old(orientation)
      ensures controller.Some? && state == Game ==>
                var o := MoveOutcome(old(shapeState), old(body), controller.value, orientation, Flags(), stateTime, old(lastJump));
                && orientation == NewOrientation(old(orientation), controller.value.mv.x)
                && body == o.body && effects == old(effects) + o.effects && lastJump == o.lastJump
      ensures killed == (old(killed) || old(body).position.y + old(body).radius < levelBottom)
      ensures shapeState == old(shapeState)
    {
      ProcessContacts(contacts, stateTime);
      if controller.Some? && state == Game {
        Move(controller.value, stateTime);
      } else {
        body := body.(angularVelocity := 0.0);
      }
      if body.position.y + body.radius < levelBottom {
        killed := true;
      }
    }
  }
}
