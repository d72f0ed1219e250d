/**
 * Bot steering (MazeRumble/BotAI.swift): each bot heads for the core holder, or for a given point
 * when there is no holder or the bot holds the core itself; it stops wanting to move inside a
 * 20-unit dead zone, runs 1.5 times faster while it is the holder during a final dash, and
 * blends its velocity 18% of the way toward the desired one each frame.
 */
module Bots {
  import opened Optional
  import opened Geometry
  import opened GameConfig

  /** Below this distance (and at it) a bot no longer steers toward its target. */
  const DeadZone: real := 20.0

  /** The player holding the core, as the steering sees it: who it is and where it stands. */
  datatype Holder = Holder(id: nat, position: Vec)

  /** A bot: its identity, its position, and the velocity of its physics body if it has one. */
  datatype Bot = Bot(id: nat, position: Vec, body: Option<Vec>)

  /** The holder's position when someone other than this bot holds the core, else `fallback`. */
  function TargetFor(holder: Option<Holder>, botId: nat, fallback: Vec): (t: Vec)
    ensures holder.Some? && holder.value.id != botId ==> t == holder.value.position
    ensures holder.None? || holder.value.id == botId ==> t == fallback
  {
    match holder
    case Some(h) => if h.id != botId then h.position else fallback
    case None => fallback
  }

  /** 220, or 220 × 1.5 for the bot that holds the core while the final dash runs. */
  function DesiredSpeed(finalDash: bool, holder: Option<Holder>, botId: nat): (s: real)
    ensures finalDash && holder.Some? && holder.value.id == botId ==> s == 330.0
    ensures !(finalDash && holder.Some? && holder.value.id == botId) ==> s == 220.0
  {
    var multiplier := if finalDash && holder.Some? && holder.value.id == botId then FinalDashSpeedMultiplier else 1.0;
    BotMaxSpeed * multiplier
  }

  /** The unit vector from `from` toward `target`, or zero inside the dead zone. */
  function Heading(from: Vec, target: Vec, hypot: (real, real) -> real): Vec
  {
    var dx := target.x - from.x;
    var dy := target.y - from.y;
    var dist := hypot(dx, dy);
    if dist > DeadZone then Vec(dx / dist, dy / dist) else Origin
  }

  function DesiredVelocity(from: Vec, target: Vec, speed: real, hypot: (real, real) -> real): Vec
  {
    Scale(Heading(from, target, hypot), speed)
  }

  /** One frame of velocity smoothing with the bots' blend factor. */
  function SteerVelocity(v: Vec, desired: Vec): Vec
  {
    LerpVec(v, desired, BotAccelLerp)
  }

  /** One bot's new state: a bot without a body is skipped, otherwise only its velocity changes. */
  function Steer(b: Bot, holder: Option<Holder>, finalDash: bool, target: Vec, hypot: (real, real) -> real): (r: Bot)
    ensures r.id == b.id && r.position == b.position
    ensures b.body.None? ==> r == b
    ensures r.body.Some? <==> b.body.Some?
  {
    match b.body
    case None => b
    case Some(v) =>
      var t := TargetFor(holder, b.id, target);
      var desired := DesiredVelocity(b.position, t, DesiredSpeed(finalDash, holder, b.id), hypot);
      b.(body := Some(SteerVelocity(v, desired)))
  }

  /**
   * Within 20 of the target the desired velocity is zero; beyond it the heading is a unit vector
   * pointing toward the target, so the desired velocity has exactly the desired speed and a
   * positive component toward the target.
   */
  lemma DeadZoneAndHeading(from: Vec, target: Vec, speed: real, hypot: (real, real) -> real)
    requires IsHypot(hypot)
    ensures DistSq(target, from) <= DeadZone * DeadZone ==> DesiredVelocity(from, target, speed, hypot) == Origin
    ensures DistSq(target, from) > DeadZone * DeadZone ==>
              NormSq(Heading(from, target, hypot)) == 1.0
              && NormSq(DesiredVelocity(from, target, speed, hypot)) == speed * speed
    ensures DistSq(target, from) > DeadZone * DeadZone && speed > 0.0 ==>
              Dot(DesiredVelocity(from, target, speed, hypot), Vec(target.x - from.x, target.y - from.y)) > 0.0
  {
    var dx := target.x - from.x;
    var dy := target.y - from.y;
    var dist := hypot(dx, dy);
    HypotGreater(hypot, dx, dy, DeadZone);
    assert DistSq(target, from) == (target.x - from.x) * (target.x - from.x) + (target.y - from.y) * (target.y - from.y);
    if dist > DeadZone {
      var ux := dx / dist;
      var uy := dy / dist;
      assert HypotAt(hypot, dx, dy);
      assert dist * dist == dx * dx + dy * dy;
      assert ux * dist == dx && uy * dist == dy;
      UnitLength(dx, dy, dist);
      assert Heading(from, target, hypot) == Vec(ux, uy);
      ScaledUnit(ux, uy, dx, dy, dist, speed);
      if speed > 0.0 {
        PositiveProduct(speed, dist);
      }
    }
  }

  /** Scaling a unit vector along (dx, dy) by `speed` gives length `speed` and progress `speed * dist`. */
  lemma ScaledUnit(ux: real, uy: real, dx: real, dy: real, dist: real, speed: real)
    requires ux * dist == dx && uy * dist == dy && ux * ux + uy * uy == 1.0
    ensures NormSq(Vec(ux * speed, uy * speed)) == speed * speed
    ensures Dot(Vec(ux * speed, uy * speed), Vec(dx, dy)) == speed * dist
  {
    assert NormSq(Vec(ux * speed, uy * speed)) == (ux * ux + uy * uy) * (speed * speed);
    assert (ux * speed) * dx == speed * ((ux * dist) * ux);
    assert (uy * speed) * dy == speed * ((uy * dist) * uy);
    assert speed * ((ux * dist) * ux) + speed * ((uy * dist) * uy) == speed * ((ux * ux + uy * uy) * dist);
  }

  /** Dividing a vector by its length gives a vector of length 1. */
  lemma UnitLength(dx: real, dy: real, dist: real)
    requires dist > 0.0 && dist * dist == dx * dx + dy * dy
    ensures (dx / dist) * (dx / dist) + (dy / dist) * (dy / dist) == 1.0
  {
    var ux := dx / dist;
    var uy := dy / dist;
    assert ux * dist == dx && uy * dist == dy;
    var u := ux * ux + uy * uy;
    calc {
      u * (dist * dist);
      (ux * dist) * (ux * dist) + (uy * dist) * (uy * dist);
      dx * dx + dy * dy;
      dist * dist;
    }
    assert (u - 1.0) * (dist * dist) == 0.0;
    PositiveProduct(dist, dist);
  }

  /**
   * Each component of the new velocity lies between the old and the desired component, the gap
   * to the desired velocity shrinks to 82% of what it was, and a velocity equal to the desired one
   * is kept.
   */
  lemma SteerBetween(v: Vec, desired: Vec)
    ensures v.x <= desired.x ==> v.x <= SteerVelocity(v, desired).x <= desired.x
    ensures desired.x <= v.x ==> desired.x <= SteerVelocity(v, desired).x <= v.x
    ensures v.y <= desired.y ==> v.y <= SteerVelocity(v, desired).y <= desired.y
    ensures desired.y <= v.y ==> desired.y <= SteerVelocity(v, desired).y <= v.y
    ensures SteerVelocity(v, desired).x - desired.x == (v.x - desired.x) * 0.82
    ensures SteerVelocity(v, desired).y - desired.y == (v.y - desired.y) * 0.82
    ensures SteerVelocity(desired, desired) == desired
  {
    LerpBetween(v.x, desired.x, BotAccelLerp);
    LerpBetween(v.y, desired.y, BotAccelLerp);
  }

  /** One velocity component after n frames of steering toward a fixed desired value. */
  function SteerFrames(v: real, d: real, n: nat): real
    decreases n
  {
    if n == 0 then v else SteerFrames(Lerp(v, d, BotAccelLerp), d, n - 1)
  }

  function Pow(b: real, n: nat): real
    decreases n
  {
    if n == 0 then 1.0 else b * Pow(b, n - 1)
  }

  /** With a constant desired velocity the gap closes geometrically: it is 0.82^n of the start. */
  lemma {:induction false} SteerConverges(v: real, d: real, n: nat)
    ensures SteerFrames(v, d, n) - d == Pow(0.82, n) * (v - d)
    ensures 0.0 < Pow(0.82, n) <= 1.0
    decreases n
  {
    if n > 0 {
      var v' := Lerp(v, d, BotAccelLerp);
      LerpBetween(v, d, BotAccelLerp);
      SteerConverges(v', d, n - 1);
      var p := Pow(0.82, n - 1);
      assert SteerFrames(v, d, n) - d == p * ((v - d) * 0.82);
      assert p * ((v - d) * 0.82) == (0.82 * p) * (v - d);
      PositiveProduct(0.82, p);
    }
  }

  class BotAI {
    var coreHolder: Option<Holder>
    var isFinalDashTriggered: bool

    constructor()
      ensures coreHolder == None && !isFinalDashTriggered
    {
      coreHolder := None;
      isFinalDashTriggered := false;
    }

    /**
     * Steers every bot for one frame: each bot with a body gets the smoothed velocity toward its
     * target; bots without a body, every identity and every position are left as they were.
     */
    method Update(bots: array<Bot>, target: Vec, hypot: (real, real) -> real)
      requires IsHypot(hypot)
      modifies bots
      ensures forall i :: 0 <= i < bots.Length ==>
                bots[i] == Steer(old(bots[i]), coreHolder, isFinalDashTriggered, target, hypot)
      ensures forall i :: 0 <= i < bots.Length ==>
                bots[i].id == old(bots[i].id) && bots[i].position == old(bots[i].position)
      ensures forall i :: 0 <= i < bots.Length ==> (bots[i].body.None? <==> old(bots[i].body.None?))
      ensures forall i :: 0 <= i < bots.Length && old(bots[i].body.None?) ==> bots[i] == old(bots[i])
    {
      var k := 0;
      while k < bots.Length
        invariant 0 <= k <= bots.Length
        invariant forall i :: 0 <= i < k ==>
                    bots[i] == Steer(old(bots[i]), coreHolder, isFinalDashTriggered, target, hypot)
        invariant forall i :: k <= i < bots.Length ==> bots[i] == old(bots[i])
      {
        var bot := bots[k];
        if bot.body.Some? {
          var targetPosition := TargetFor(coreHolder, bot.id, target);
          var desiredSpeed := DesiredSpeed(isFinalDashTriggered, coreHolder, bot.id);
          var desired := DesiredVelocity(bot.position, targetPosition, desiredSpeed, hypot);
          bots[k] := bot.(body := Some(SteerVelocity(bot.body.value, desired)));
        }
        k := k + 1;
      }
    }
  }
}
