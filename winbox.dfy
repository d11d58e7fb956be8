/**
  `WinboxActor`: a static sensor over a goal rect. Touching it with the player
  starts a timer; staying inside for more than a second asks the world for
  VICTORY, and leaving resets the timer.
*/
module Winbox {
  import opened Geometry
  import opened BodyBuilding

  /** The "no contact" value of `hitTime`. */
  const NO_HIT: real := 9999999.0
  /** How long the player must stay inside, in seconds (strictly more than this). */
  const HOLD_TIME: real := 1.0

  /** A contact callback the actor receives, at the actor's `stateTime`. */
  datatype ContactEvent =
    | Begin(withPlayer: bool, at: real)
    | End(withPlayer: bool)

  /** `hitTime` after one callback. */
  function AfterEvent(hitTime: real, e: ContactEvent): (r: real)
    ensures e.Begin? && e.withPlayer ==> r == e.at
    ensures e.End? && e.withPlayer ==> r == NO_HIT
    ensures !e.withPlayer ==> r == hitTime
  {
    match e
    case Begin(withPlayer, at) => if withPlayer then at else hitTime
    case End(withPlayer) => if withPlayer then NO_HIT else hitTime
  }

  /** `hitTime` after a run of callbacks, starting from `hitTime`. */
  function AfterEvents(hitTime: real, es: seq<ContactEvent>): real
  {
    if |es| == 0 then hitTime else AfterEvent(AfterEvents(hitTime, es[..|es| - 1]), es[|es| - 1])
  }

  /** Whether a tick at `now` requests VICTORY. */
  predicate Fires(hitTime: real, now: real) {
    now - hitTime > HOLD_TIME
  }

  /** The index of the last callback that concerns the player, if any. */
  function LastPlayerEvent(es: seq<ContactEvent>): (r: int)
    ensures -1 <= r < |es|
    ensures r >= 0 ==> es[r].withPlayer
    ensures forall j :: r < j < |es| ==> !es[j].withPlayer
  {
    if |es| == 0 then -1
    else if es[|es| - 1].withPlayer then |es| - 1
    else LastPlayerEvent(es[..|es| - 1])
  }

  /**
    The timer is decided by the last callback about the player alone: a
    `beginContact` restarts it at that moment, an `endContact` clears it, and
    callbacks about other bodies never touch it.
  */
  lemma {:induction false} LastPlayerEventDecides(h: real, es: seq<ContactEvent>)
    ensures var k := LastPlayerEvent(es);
            && (k < 0 ==> AfterEvents(h, es) == h)
            && (k >= 0 && es[k].Begin? ==> AfterEvents(h, es) == es[k].at)
            && (k >= 0 && es[k].End? ==> AfterEvents(h, es) == NO_HIT)
  {
    if |es| > 0 {
      LastPlayerEventDecides(h, es[..|es| - 1]);
    }
  }

  /**
    A tick requests VICTORY exactly when the player's last callback was a
    `beginContact` more than a second ago (as long as the clock has not run
    past the "no contact" value).
  */
  lemma VictoryIff(es: seq<ContactEvent>, now: real)
    requires now <= NO_HIT + HOLD_TIME
    ensures var k := LastPlayerEvent(es);
            Fires(AfterEvents(NO_HIT, es), now) <==> k >= 0 && es[k].Begin? && now - es[k].at > HOLD_TIME
  {
    LastPlayerEventDecides(NO_HIT, es);
  }

  /** Breaking contact before the second is up never fires, however long the clock runs afterwards (below the sentinel). */
  lemma LeavingNeverFires(es: seq<ContactEvent>, now: real)
    requires now <= NO_HIT + HOLD_TIME
    ensures !Fires(AfterEvents(NO_HIT, es + [End(true)]), now)
  {
    assert (es + [End(true)])[..|es|] == es;
  }

  /** A fresh `beginContact` restarts the timer, whatever happened before. */
  lemma RecontactRestarts(h: real, es: seq<ContactEvent>, t: real, now: real)
    ensures AfterEvents(h, es + [Begin(true, t)]) == t
    ensures Fires(AfterEvents(h, es + [Begin(true, t)]), now) <==> now - t > HOLD_TIME
  {
    assert (es + [Begin(true, t)])[..|es|] == es;
  }

  class WinboxActor {
    /** The goal rect in world coordinates. */
    const rect: Rect
    var hitTime: real

    constructor (rect: Rect)
      ensures this.rect == rect && hitTime == NO_HIT
    {
      this.rect := rect;
      hitTime := NO_HIT;
    }

    /** `createBody`: a static body at the rect's centre with one box fixture of half its extents, marked as a sensor. */
    function CreateBody(): (r: BodyDraft)
      reads this
      ensures r.position == Center(rect)
      ensures Contains(rect, r.position) <== rect.width >= 0.0 && rect.height >= 0.0
      ensures r.calls == [FixShape(Box(rect.width / 2.0, rect.height / 2.0)), FixSensor]
      ensures r.calls[0].shape.halfWidth * 2.0 == rect.width && r.calls[0].shape.halfHeight * 2.0 == rect.height
    {
      var d := ForStatic(Center(rect));
      d.(calls := d.calls + [FixShape(Box(rect.width / 2.0, rect.height / 2.0)), FixSensor])
    }

    /** `doAct`: asks for VICTORY once the player has stayed inside for more than a second. */
    method DoAct(stateTime: real) returns (victory: bool)
      ensures victory <==> Fires(hitTime, stateTime)
      ensures hitTime == old(hitTime)
    {
      victory := stateTime - hitTime > HOLD_TIME;
    }

    /** `beginContact`: the player's arrival starts the timer; the answer is `false` for every contact. */
    method BeginContact(otherIsPlayer: bool, stateTime: real) returns (keep: bool)
      modifies this
      ensures !keep
      ensures hitTime == AfterEvent(old(hitTime), Begin(otherIsPlayer, stateTime))
    {
      if otherIsPlayer {
        hitTime := stateTime;
      }
      keep := false;
    }

    /** `endContact`: the player leaving clears the timer. */
    method EndContact(otherIsPlayer: bool)
      modifies this
      ensures hitTime == AfterEvent(old(hitTime), End(otherIsPlayer))
    {
      if otherIsPlayer {
        hitTime := NO_HIT;
      }
    }
  }
}
