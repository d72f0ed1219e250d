/**
 * The round engine of the scene (MazeRumble/GameScene.swift): eight players race for a core; the
 * first to come within 40 of it carries it, three hard hits knock it loose, coming near a gate
 * grants one five-second final dash per possession, carrying it into a gate wins, and the round
 * ends when the two-minute clock runs out.
 *
 * The possession bookkeeping is specified by pure step functions over a `Possession` value;
 * the `GameScene` class holds the same data in fields and its methods are proved to perform
 * exactly those steps.
 */
module Game {
  import opened Optional
  import opened Geometry
  import opened GameConfig
  import opened Timers
  import opened Bots
  import opened Maps

  const PlayerCount: nat := 8

  /** The items the core grants its holder (`randomElement` picks one of them). */
  const AutoItemPool: seq<string> := ["banana", "bomb", "dash"]

  /** Where the core rests at the start of a round: above the centre by 0.28 of the shorter side. */
  function CoreHome(worldWidth: real, worldHeight: real): Vec
  {
    var offset := (if worldWidth <= worldHeight then worldWidth else worldHeight) * 0.28;
    Vec(worldWidth / 2.0, worldHeight / 2.0 + offset)
  }

  /** Every player's item list empty, as at the start of a round. */
  const NoItems: seq<seq<string>> := [[], [], [], [], [], [], [], []]

  /** Every player at rest. */
  const AtRest: seq<Vec> := [Origin, Origin, Origin, Origin, Origin, Origin, Origin, Origin]

  /** A body taking part in a physics contact: one of the players, or anything else (a wall). */
  datatype ContactBody = PlayerNode(index: nat) | OtherNode

  /** Everything about the core and its holder that pickup, hits, drops and the final dash change. */
  datatype Possession = Possession(
    holder: Option<nat>,
    hits: int,
    coreHidden: bool,
    corePosition: Vec,
    dashTriggered: bool,
    dashUsed: bool,
    dashEndTime: real,
    lastItemGiveTime: real)

  /**
   * The core is hidden exactly while someone holds it; a holder has taken 0 to 2 hits and a loose
   * core has no hits recorded; a running final dash belongs to a holder and marks the dash used.
   */
  predicate PossessionOk(p: Possession)
  {
    && (p.holder.Some? <==> p.coreHidden)
    && (p.holder.Some? ==> 0 <= p.hits < DropHitsRequired)
    && (p.holder.None? ==> p.hits == 0)
    && (p.dashTriggered ==> p.dashUsed && p.holder.Some?)
  }

  /** Player i picks the core up: a fresh possession with no hits, no dash and the item clock unset. */
  function PickUp(p: Possession, i: nat): (q: Possession)
    ensures PossessionOk(q)
    ensures q.holder == Some(i) && q.coreHidden && q.hits == 0
    ensures !q.dashTriggered && !q.dashUsed && q.dashEndTime == 0.0 && q.lastItemGiveTime == 0.0
    ensures q.corePosition == p.corePosition
  {
    p.(holder := Some(i), hits := 0, dashTriggered := false, dashEndTime := 0.0, dashUsed := false,
       lastItemGiveTime := 0.0, coreHidden := true)
  }

  /**
   * The holder standing at `from` loses the core: nobody holds it, its hits and dash are cleared,
   * and it reappears in direction `dir` at the drop distance.
   */
  function Drop(p: Possession, from: Vec, dir: Vec): (q: Possession)
    ensures PossessionOk(q)
    ensures q.holder.None? && !q.coreHidden && !q.dashTriggered && !q.dashUsed && q.dashEndTime == 0.0
    ensures q.corePosition == Add(from, Scale(dir, DropDistance))
    ensures q.lastItemGiveTime == p.lastItemGiveTime
  {
    p.(holder := None, hits := 0, dashTriggered := false, dashEndTime := 0.0, dashUsed := false,
       corePosition := Add(from, Scale(dir, DropDistance)), coreHidden := false)
  }

  /** A core dropped in a unit direction lands exactly 80 from the player who dropped it. */
  lemma DropDistanceExact(p: Possession, from: Vec, dir: Vec)
    requires dir.x * dir.x + dir.y * dir.y == 1.0
    ensures DistSq(Drop(p, from, dir).corePosition, from) == DropDistance * DropDistance
  {
    var c := Drop(p, from, dir).corePosition;
    assert c.x - from.x == dir.x * 80.0 && c.y - from.y == dir.y * 80.0;
    assert DistSq(c, from) == (dir.x * dir.x + dir.y * dir.y) * 6400.0;
  }

  /** Whether a contact counts as a hit on the core holder. */
  predicate Qualifies(holder: Option<nat>, a: ContactBody, b: ContactBody, dashTriggered: bool, impulse: real)
  {
    && holder.Some?
    && a.PlayerNode? && b.PlayerNode?
    && (a.index == holder.value || b.index == holder.value)
    && !dashTriggered
    && impulse > DropImpulseThreshold
  }

  /** A qualifying hit on the holder standing at `from`: the third one drops the core. */
  function Hit(p: Possession, from: Vec, dir: Vec): (q: Possession)
    ensures q.holder.Some? ==> q == p.(hits := p.hits + 1)
    ensures p.hits + 1 < DropHitsRequired ==> q.holder == p.holder
    ensures p.hits + 1 >= DropHitsRequired ==> q.holder.None? && !q.coreHidden
  {
    var q := p.(hits := p.hits + 1);
    if q.hits >= DropHitsRequired then Drop(q, from, dir) else q
  }

  /**
   * A hit keeps the possession invariant: the first two hits of a possession leave the holder in
   * place with one more hit counted, and the third drops the core 80 away.
   */
  lemma HitOutcome(p: Possession, from: Vec, dir: Vec)
    requires PossessionOk(p) && p.holder.Some?
    requires dir.x * dir.x + dir.y * dir.y == 1.0
    ensures PossessionOk(Hit(p, from, dir))
    ensures p.hits < 2 ==> Hit(p, from, dir) == p.(hits := p.hits + 1)
    ensures p.hits == 2 ==> Hit(p, from, dir).holder.None? && !Hit(p, from, dir).coreHidden
    ensures p.hits == 2 ==> DistSq(Hit(p, from, dir).corePosition, from) == DropDistance * DropDistance
  {
    if p.hits == 2 {
      DropDistanceExact(p.(hits := 3), from, dir);
    }
  }

  /** The core changes hands only after exactly three qualifying hits since the pickup. */
  lemma ThreeHitsDrop(p: Possession, i: nat, from: Vec, dir: Vec)
    requires dir.x * dir.x + dir.y * dir.y == 1.0
    ensures var h1 := Hit(PickUp(p, i), from, dir);
            var h2 := Hit(h1, from, dir);
            && h1.holder == Some(i) && h1.hits == 1
            && h2.holder == Some(i) && h2.hits == 2
            && Hit(h2, from, dir).holder.None?
            && DistSq(Hit(h2, from, dir).corePosition, from) == DropDistance * DropDistance
  {
    var h0 := PickUp(p, i);
    HitOutcome(h0, from, dir);
    var h1 := Hit(h0, from, dir);
    HitOutcome(h1, from, dir);
    HitOutcome(Hit(h1, from, dir), from, dir);
  }

  /**
   * One frame of `checkFinalDash` at time `now`, where `nearGate` says whether the holder is
   * within the trigger distance of some gate: a running dash ends once `now` reaches its end time;
   * an unused dash starts near a gate and runs for five seconds.
   */
  function FinalDash(p: Possession, now: real, nearGate: bool): (q: Possession)
    ensures q.holder == p.holder && q.hits == p.hits && q.corePosition == p.corePosition
    ensures q.coreHidden == p.coreHidden && q.lastItemGiveTime == p.lastItemGiveTime
  {
    if p.holder.None? then p
    else if p.dashTriggered then
      (if now >= p.dashEndTime then p.(dashTriggered := false, dashEndTime := 0.0) else p)
    else if p.dashUsed then p
    else if nearGate then p.(dashTriggered := true, dashUsed := true, dashEndTime := now + FinalDashDuration)
    else p
  }

  /**
   * The final dash keeps the possession invariant, starts only for an unused dash near a gate and
   * then ends five seconds later, and ending it clears the running flag but not the used flag.
   */
  lemma FinalDashRules(p: Possession, now: real, nearGate: bool)
    requires PossessionOk(p)
    ensures PossessionOk(FinalDash(p, now, nearGate))
    ensures !p.dashTriggered && FinalDash(p, now, nearGate).dashTriggered <==>
              p.holder.Some? && !p.dashUsed && nearGate
    ensures !p.dashTriggered && FinalDash(p, now, nearGate).dashTriggered ==>
              FinalDash(p, now, nearGate).dashEndTime == now + 5.0
    ensures p.dashTriggered ==> (FinalDash(p, now, nearGate).dashTriggered <==> now < p.dashEndTime)
    ensures p.dashUsed ==> FinalDash(p, now, nearGate).dashUsed
  {
  }

  /** The possession after a run of frames, each given as its time and whether the holder was near a gate. */
  function FinalDashFrames(p: Possession, frames: seq<(real, bool)>): Possession
    decreases |frames|
  {
    if frames == [] then p else FinalDashFrames(FinalDash(p, frames[0].0, frames[0].1), frames[1..])
  }

  /** Once the dash of a possession has run out it never starts again, whatever the frames. */
  lemma {:induction false} DashOncePerPossession(p: Possession, frames: seq<(real, bool)>)
    requires p.dashUsed && !p.dashTriggered
    ensures FinalDashFrames(p, frames).dashUsed && !FinalDashFrames(p, frames).dashTriggered
    ensures FinalDashFrames(p, frames).holder == p.holder
    decreases |frames|
  {
    if frames != [] {
      DashOncePerPossession(FinalDash(p, frames[0].0, frames[0].1), frames[1..]);
    }
  }

  /** The round clock after one frame: it runs down by dt and stops at 0. */
  function TimerStep(remaining: real, dt: real): (r: real)
    ensures r >= 0.0
  {
    if remaining - dt > 0.0 then remaining - dt else 0.0
  }

  function TimerFrames(remaining: real, dts: seq<real>): real
    decreases |dts|
  {
    if dts == [] then remaining else TimerFrames(TimerStep(remaining, dts[0]), dts[1..])
  }

  /** Over any run of frames the clock shows the time left minus the elapsed time, never below 0. */
  lemma {:induction false} TimerRunsDown(remaining: real, dts: seq<real>)
    requires remaining >= 0.0 && NonNegative(dts)
    ensures TimerFrames(remaining, dts) == if remaining - Elapsed(dts) > 0.0 then remaining - Elapsed(dts) else 0.0
    decreases |dts|
  {
    if dts != [] {
      var rest := dts[1..];
      assert NonNegative(rest) by {
        forall i | 0 <= i < |rest| ensures rest[i] >= 0.0 {
          assert rest[i] == dts[i + 1];
        }
      }
      ElapsedNonNegative(rest);
      TimerRunsDown(TimerStep(remaining, dts[0]), rest);
    }
  }

  /** The frame delta: 0 on the first frame after the clock was reset to 0. */
  function FrameDelta(lastUpdateTime: real, currentTime: real): real
  {
    if lastUpdateTime == 0.0 then 0.0 else currentTime - lastUpdateTime
  }

  /** A holder's items together with the time of the last grant. */
  datatype Grant = Grant(items: seq<string>, lastGive: real)

  /**
   * One frame of `updateCoreAutoItems` for the holder: nothing with three items or more; the first
   * frame of a possession only starts the clock; after that one item is added each time eight
   * seconds have passed since the last grant.
   */
  function AutoItem(items: seq<string>, lastGive: real, now: real, choice: string): (g: Grant)
    ensures |items| <= MaxItemsPerPlayer ==> |g.items| <= MaxItemsPerPlayer
    ensures g.items == items || g.items == items + [choice]
    ensures g.items == items + [choice] ==>
              |items| < MaxItemsPerPlayer && lastGive != 0.0 && now - lastGive >= ItemInterval && g.lastGive == now
    ensures |items| < MaxItemsPerPlayer && lastGive != 0.0 && now - lastGive >= ItemInterval ==>
              g == Grant(items + [choice], now)
    ensures |items| >= MaxItemsPerPlayer ==> g == Grant(items, lastGive)
    ensures |items| < MaxItemsPerPlayer && lastGive == 0.0 ==> g == Grant(items, now)
    ensures |items| < MaxItemsPerPlayer && lastGive != 0.0 && now - lastGive < ItemInterval ==>
              g == Grant(items, lastGive)
  {
    if |items| >= MaxItemsPerPlayer then Grant(items, lastGive)
    else if lastGive == 0.0 then Grant(items, now)
    else if now - lastGive >= ItemInterval then Grant(items + [choice], now)
    else Grant(items, lastGive)
  }

  /** The first point of `ps` strictly within r of c, in index order, if any. */
  function FirstWithin(ps: seq<Vec>, c: Vec, r: real): (k: Option<nat>)
    ensures k.Some? ==> k.value < |ps| && Within(ps[k.value], c, r)
    ensures k.Some? ==> forall j :: 0 <= j < k.value ==> !Within(ps[j], c, r)
    ensures forall j :: 0 <= j < |ps| && Within(ps[j], c, r) ==> k.Some? && k.value <= j
    decreases |ps|
  {
    if ps == [] then None
    else if Within(ps[0], c, r) then Some(0)
    else
      match FirstWithin(ps[1..], c, r)
      case None => None
      case Some(j) => Some(j + 1)
  }

  /** The player's target speed: 300, or 450 for player 0 while it dashes with the core. */
  function PlayerSpeed(dashTriggered: bool, holder: Option<nat>): (s: real)
    ensures s == 450.0 <==> dashTriggered && holder == Some(0)
    ensures s != 450.0 ==> s == 300.0
  {
    PlayerMaxSpeed * (if dashTriggered && holder == Some(0) then FinalDashSpeedMultiplier else 1.0)
  }

  /** The holder as the bots see it: who it is and where it stands. */
  function HolderAt(holder: Option<nat>, positions: seq<Vec>): Option<Holder>
    requires holder.Some? ==> holder.value < |positions|
  {
    match holder
    case None => None
    case Some(h) => Some(Holder(h, positions[h]))
  }

  /** Whether the holder stands strictly within r of some gate. */
  function NearGate(gates: seq<Vec>, positions: seq<Vec>, holder: Option<nat>, r: real): bool
    requires holder.Some? ==> holder.value < |positions|
  {
    holder.Some? && FirstWithin(gates, positions[holder.value], r).Some?
  }

  /**
   * Every velocity after one frame of steering: player 0 blends a quarter of the way toward the
   * joystick direction at its speed, and players 1 to 7 take the bots' steering step.
   */
  function SteeredVelocities(vs: seq<Vec>, positions: seq<Vec>, moveDirection: Vec, p: Possession,
                             hypot: (real, real) -> real): seq<Vec>
    requires |vs| == PlayerCount && |positions| == PlayerCount
    requires p.holder.Some? ==> p.holder.value < PlayerCount
  {
    var holder := HolderAt(p.holder, positions);
    seq(PlayerCount, i requires 0 <= i < PlayerCount =>
      if i == 0 then LerpVec(vs[0], Scale(moveDirection, PlayerSpeed(p.dashTriggered, p.holder)), AccelLerp)
      else SteerVelocity(vs[i], DesiredVelocity(positions[i], TargetFor(holder, i, p.corePosition),
                                                DesiredSpeed(p.dashTriggered, holder, i), hypot)))
  }

  /** The possession after `checkCorePickup`: a loose core goes to the first player within 40. */
  function AfterPickup(p: Possession, positions: seq<Vec>): (q: Possession)
    ensures p.holder.Some? ==> q == p
    ensures p.holder.None? && FirstWithin(positions, p.corePosition, PickupDistance).None? ==> q == p
    ensures p.holder.None? && FirstWithin(positions, p.corePosition, PickupDistance).Some? ==>
              q == PickUp(p, FirstWithin(positions, p.corePosition, PickupDistance).value)
    ensures q.holder.Some? ==> p.holder.Some? || q.holder.value < |positions|
  {
    if p.holder.Some? then p
    else match FirstWithin(positions, p.corePosition, PickupDistance)
      case None => p
      case Some(i) => PickUp(p, i)
  }

  /**
   * The holder's rules on values, after pickup: the final dash (near a gate meaning strictly within
   * 100 of one), then the holder's item grant with the chosen item.
   */
  function HolderRules(q: Possession, items: seq<seq<string>>, positions: seq<Vec>, gates: seq<Vec>,
                       now: real, choice: string): (Possession, seq<seq<string>>)
    requires |items| == |positions|
    requires q.holder.Some? ==> q.holder.value < |positions|
  {
    var d := FinalDash(q, now, NearGate(gates, positions, q.holder, FinalDashTriggerDistance));
    match d.holder
    case None => (d, items)
    case Some(h) =>
      var g := AutoItem(items[h], d.lastItemGiveTime, now, choice);
      (d.(lastItemGiveTime := g.lastGive), items[h := g.items])
  }

  /** The rules half of a frame on values: pickup, then the holder's rules. */
  function RulesStep(p: Possession, items: seq<seq<string>>, positions: seq<Vec>, gates: seq<Vec>,
                     now: real, choice: string): (Possession, seq<seq<string>>)
    requires |items| == |positions|
    requires p.holder.Some? ==> p.holder.value < |positions|
  {
    HolderRules(AfterPickup(p, positions), items, positions, gates, now, choice)
  }

  /**
   * The rules half of a frame keeps the possession invariant and the item cap, moves the core
   * only by pickup (a held core keeps its holder), and grants at most one item, to the holder.
   */
  lemma RulesStepKeepsInvariant(p: Possession, items: seq<seq<string>>, positions: seq<Vec>, gates: seq<Vec>,
                                now: real, choice: string)
    requires |items| == |positions|
    requires p.holder.Some? ==> p.holder.value < |positions|
    requires PossessionOk(p)
    requires forall i :: 0 <= i < |items| ==> |items[i]| <= MaxItemsPerPlayer
    ensures var (q, its) := RulesStep(p, items, positions, gates, now, choice);
      && PossessionOk(q)
      && |its| == |items|
      && (forall i :: 0 <= i < |its| ==> |its[i]| <= MaxItemsPerPlayer)
      && q.holder == AfterPickup(p, positions).holder
      && (forall i :: 0 <= i < |its| && Some(i) != q.holder ==> its[i] == items[i])
      && (q.holder.Some? ==>
            (its[q.holder.value] == items[q.holder.value] || its[q.holder.value] == items[q.holder.value] + [choice]))
  {
    var q := AfterPickup(p, positions);
    var near := NearGate(gates, positions, q.holder, FinalDashTriggerDistance);
    assert PossessionOk(q);
    FinalDashRules(q, now, near);
  }

  class GameScene {
    const worldWidth: real
    const worldHeight: real
    const spawnPositions: seq<Vec>
    const gates: seq<Vec>

    // Written by the physics engine and the joystick, which are outside this model.
    var positions: seq<Vec>
    var velocities: seq<Vec>
    var moveDirection: Vec

    var coreHolder: Option<nat>
    var coreHitCount: int
    var coreHidden: bool
    var corePosition: Vec
    var finalDashTriggered: bool
    var finalDashUsed: bool
    var finalDashEndTime: real
    var lastItemGiveTime: real
    var playerItems: seq<seq<string>>
    var roundTimeRemaining: real
    var lastUpdateTime: real
    var isMatchOver: bool
    /** Who the game-over banner names, once there is one. */
    var winner: Option<nat>

    function CurrentPossession(): Possession
      reads this`coreHolder, this`coreHitCount, this`coreHidden, this`corePosition, this`finalDashTriggered,
               this`finalDashUsed, this`finalDashEndTime, this`lastItemGiveTime
    {
      Possession(coreHolder, coreHitCount, coreHidden, corePosition, finalDashTriggered,
                 finalDashUsed, finalDashEndTime, lastItemGiveTime)
    }

    /** Eight players and eight spawn points, and a holder who is one of the players. */
    ghost predicate Shaped()
      reads this`positions, this`velocities, this`playerItems, this`coreHolder
    {
      && |positions| == PlayerCount && |velocities| == PlayerCount
      && |spawnPositions| == PlayerCount && |playerItems| == PlayerCount
      && (coreHolder.Some? ==> coreHolder.value < PlayerCount)
    }

    /** Nobody is granted more than three items. */
    ghost predicate ItemsOk()
      reads this`playerItems
    {
      forall i :: 0 <= i < |playerItems| ==> |playerItems[i]| <= MaxItemsPerPlayer
    }

    /** The clock is never negative, a clock at 0 means the match is over, and so does a winner. */
    ghost predicate MatchOk()
      reads this`roundTimeRemaining, this`isMatchOver, this`winner
    {
      && roundTimeRemaining >= 0.0
      && (roundTimeRemaining == 0.0 ==> isMatchOver)
      && (winner.Some? ==> isMatchOver)
    }

    ghost predicate Valid()
      reads this
    {
      Shaped() && PossessionOk(CurrentPossession()) && ItemsOk() && MatchOk()
    }

    /** The core holder as the bots see it: who it is and where it stands. */
    function HolderInfo(): Option<Holder>
      reads this`coreHolder, this`positions
      requires coreHolder.Some? ==> coreHolder.value < |positions|
    {
      HolderAt(coreHolder, positions)
    }

    /** Whether the holder stands strictly within r of some gate. */
    function HolderNearGate(r: real): bool
      reads this`coreHolder, this`positions
      requires coreHolder.Some? ==> coreHolder.value < |positions|
    {
      NearGate(gates, positions, coreHolder, r)
    }

    /** The scene as `didMove` leaves it: gates built, spawn points placed, and a round started. */
    constructor(worldWidth: real, worldHeight: real, spawnPositions: seq<Vec>)
      requires |spawnPositions| == PlayerCount
      ensures Valid()
      ensures this.worldWidth == worldWidth && this.worldHeight == worldHeight
      ensures this.spawnPositions == spawnPositions && gates == GateLayout(worldWidth, worldHeight)
      ensures CurrentPossession() == Possession(None, 0, false, CoreHome(worldWidth, worldHeight), false, false, 0.0, 0.0)
      ensures positions == spawnPositions && roundTimeRemaining == GameTimeLimit && !isMatchOver
      ensures velocities == AtRest && playerItems == NoItems && lastUpdateTime == 0.0 && winner.None?
    {
      this.worldWidth := worldWidth;
      this.worldHeight := worldHeight;
      this.spawnPositions := spawnPositions;
      gates := GateLayout(worldWidth, worldHeight);
      positions := spawnPositions;
      velocities := AtRest;
      moveDirection := Origin;
      coreHolder := None;
      coreHitCount := 0;
      coreHidden := false;
      corePosition := CoreHome(worldWidth, worldHeight);
      finalDashTriggered := false;
      finalDashUsed := false;
      finalDashEndTime := 0.0;
      lastItemGiveTime := 0.0;
      playerItems := NoItems;
      roundTimeRemaining := GameTimeLimit;
      lastUpdateTime := 0.0;
      isMatchOver := false;
      winner := None;
    }

    /**
     * Starts a round: full clock, no holder, no hits, no running dash, empty item lists, the core
     * back home and visible, everyone at their spawn point and at rest. The used-dash flag is left
     * as it was.
     */
    method StartRound()
      requires Shaped()
      modifies this`isMatchOver, this`roundTimeRemaining, this`lastUpdateTime, this`coreHitCount,
               this`coreHolder, this`finalDashTriggered, this`finalDashEndTime, this`playerItems,
               this`lastItemGiveTime, this`corePosition, this`coreHidden, this`positions,
               this`velocities, this`winner
      ensures Valid()
      ensures !isMatchOver && roundTimeRemaining == GameTimeLimit && lastUpdateTime == 0.0 && winner.None?
      ensures CurrentPossession() == Possession(None, 0, false, CoreHome(worldWidth, worldHeight), false,
                                         old(finalDashUsed), 0.0, 0.0)
      ensures playerItems == NoItems && positions == spawnPositions
      ensures velocities == AtRest
    {
      ResetRoundCounters();
      ResetEntitiesForRound();
    }

    /** The first half of a round start: the clock, the possession counters and the inventories. */
    method ResetRoundCounters()
      modifies this`isMatchOver, this`roundTimeRemaining, this`lastUpdateTime, this`coreHitCount,
               this`coreHolder, this`finalDashTriggered, this`finalDashEndTime, this`playerItems,
               this`lastItemGiveTime, this`winner
      ensures !isMatchOver && roundTimeRemaining == GameTimeLimit && lastUpdateTime == 0.0 && winner.None?
      ensures coreHitCount == 0 && coreHolder.None? && !finalDashTriggered && finalDashEndTime == 0.0
      ensures playerItems == NoItems && lastItemGiveTime == 0.0
      ensures ItemsOk()
    {
      isMatchOver := false;
      roundTimeRemaining := GameTimeLimit;
      lastUpdateTime := 0.0;
      coreHitCount := 0;
      coreHolder := None;
      finalDashTriggered := false;
      finalDashEndTime := 0.0;
      playerItems := NoItems;
      lastItemGiveTime := 0.0;
      winner := None;
      assert ItemsOk() by {
        forall i | 0 <= i < |playerItems| ensures |playerItems[i]| <= MaxItemsPerPlayer {
          assert playerItems[i] == [];
        }
      }
    }

    method ResetEntitiesForRound()
      requires |spawnPositions| == PlayerCount
      modifies this`coreHolder, this`corePosition, this`coreHidden, this`positions, this`velocities
      ensures coreHolder.None? && !coreHidden && corePosition == CoreHome(worldWidth, worldHeight)
      ensures positions == spawnPositions && velocities == AtRest
    {
      coreHolder := None;
      corePosition := CoreHome(worldWidth, worldHeight);
      coreHidden := false;
      positions := spawnPositions;
      velocities := AtRest;
    }

    /** The restart that game over and time-up schedule: it fires only once the match is over. */
    method RestartGame()
      requires Shaped() && isMatchOver
      modifies this`isMatchOver, this`roundTimeRemaining, this`lastUpdateTime, this`coreHitCount,
               this`coreHolder, this`finalDashTriggered, this`finalDashEndTime, this`playerItems,
               this`lastItemGiveTime, this`corePosition, this`coreHidden, this`positions,
               this`velocities, this`winner
      ensures Valid()
      ensures !isMatchOver && roundTimeRemaining == GameTimeLimit && lastUpdateTime == 0.0 && winner.None?
      ensures CurrentPossession() == Possession(None, 0, false, CoreHome(worldWidth, worldHeight), false,
                                         old(finalDashUsed), 0.0, 0.0)
      ensures playerItems == NoItems && positions == spawnPositions
      ensures velocities == AtRest
    {
      StartRound();
    }

    /** Ends the match in favour of `w`; a match already over is left alone. */
    method GameOver(w: nat)
      modifies this`isMatchOver, this`winner
      ensures isMatchOver
      ensures winner == if old(isMatchOver) then old(winner) else Some(w)
      ensures roundTimeRemaining >= 0.0 ==> MatchOk()
    {
      if isMatchOver {
        return;
      }
      isMatchOver := true;
      winner := Some(w);
    }

    /** Time is up: the holder wins if there is one, otherwise the match ends with no winner. */
    method HandleTimeUp()
      modifies this`isMatchOver, this`winner
      ensures isMatchOver
      ensures old(isMatchOver) ==> winner == old(winner)
      ensures !old(isMatchOver) ==> winner == coreHolder
      ensures roundTimeRemaining >= 0.0 ==> MatchOk()
    {
      if isMatchOver {
        return;
      }
      if coreHolder.Some? {
        GameOver(coreHolder.value);
      } else {
        isMatchOver := true;
        winner := None;
      }
    }

    method UpdateTimer(delta: real)
      requires Valid()
      modifies this`roundTimeRemaining, this`isMatchOver, this`winner
      ensures Valid()
      ensures old(isMatchOver) ==> roundTimeRemaining == old(roundTimeRemaining) && isMatchOver && winner == old(winner)
      ensures !old(isMatchOver) ==> roundTimeRemaining == TimerStep(old(roundTimeRemaining), delta)
      ensures !old(isMatchOver) ==> (isMatchOver <==> roundTimeRemaining == 0.0)
      ensures !old(isMatchOver) ==> winner == (if roundTimeRemaining == 0.0 then coreHolder else None)
    {
      if isMatchOver {
        return;
      }
      roundTimeRemaining := if 0.0 >= roundTimeRemaining - delta then 0.0 else roundTimeRemaining - delta;
      if roundTimeRemaining <= 0.0 {
        HandleTimeUp();
      }
    }

    /** Player 0's velocity moves a quarter of the way toward the joystick direction at its speed. */
    method UpdatePlayerMovement()
      requires Valid()
      modifies this`velocities
      ensures Valid()
      ensures velocities == old(velocities)[0 := LerpVec(old(velocities)[0],
                Scale(moveDirection, PlayerSpeed(finalDashTriggered, coreHolder)), AccelLerp)]
    {
      var speedMultiplier := if finalDashTriggered && coreHolder == Some(0) then FinalDashSpeedMultiplier else 1.0;
      var desiredSpeed := PlayerMaxSpeed * speedMultiplier;
      var desired := Vec(moveDirection.x * desiredSpeed, moveDirection.y * desiredSpeed);
      assert desired == Scale(moveDirection, PlayerSpeed(finalDashTriggered, coreHolder));
      var v := velocities[0];
      velocities := velocities[0 := Vec(v.x + (desired.x - v.x) * AccelLerp, v.y + (desired.y - v.y) * AccelLerp)];
    }

    /** Every bot (players 1 to 7) steers as BotAI does, chasing the holder or else the core. */
    method UpdateBotAI(hypot: (real, real) -> real)
      requires Valid() && IsHypot(hypot)
      modifies this`velocities
      ensures Valid()
      ensures velocities[0] == old(velocities)[0]
      ensures forall i :: 1 <= i < PlayerCount ==>
                velocities[i] == SteerVelocity(old(velocities)[i],
                  DesiredVelocity(positions[i], TargetFor(HolderInfo(), i, corePosition),
                                  DesiredSpeed(finalDashTriggered, HolderInfo(), i), hypot))
    {
      var holder := HolderInfo();
      for i := 1 to PlayerCount
        invariant |velocities| == PlayerCount
        invariant velocities[0] == old(velocities)[0]
        invariant forall j :: 1 <= j < i ==>
                    velocities[j] == SteerVelocity(old(velocities)[j],
                      DesiredVelocity(positions[j], TargetFor(holder, j, corePosition),
                                      DesiredSpeed(finalDashTriggered, holder, j), hypot))
        invariant forall j :: i <= j < PlayerCount ==> velocities[j] == old(velocities)[j]
      {
        var target := TargetFor(holder, i, corePosition);
        var desired := DesiredVelocity(positions[i], target, DesiredSpeed(finalDashTriggered, holder, i), hypot);
        velocities := velocities[i := SteerVelocity(velocities[i], desired)];
      }
    }

    method PickupCore(player: nat)
      requires Valid() && player < PlayerCount
      modifies this`coreHolder, this`coreHitCount, this`finalDashTriggered, this`finalDashEndTime,
               this`finalDashUsed, this`lastItemGiveTime, this`coreHidden
      ensures Valid()
      ensures CurrentPossession() == PickUp(old(CurrentPossession()), player)
    {
      coreHolder := Some(player);
      coreHitCount := 0;
      finalDashTriggered := false;
      finalDashEndTime := 0.0;
      finalDashUsed := false;
      lastItemGiveTime := 0.0;
      coreHidden := true;
    }

    /**
     * With the core loose, the first player (in index order) strictly within 40 of it picks it up;
     * with a holder, or nobody near, nothing changes.
     */
    method CheckCorePickup()
      requires Valid()
      modifies this`coreHolder, this`coreHitCount, this`finalDashTriggered, this`finalDashEndTime,
               this`finalDashUsed, this`lastItemGiveTime, this`coreHidden
      ensures Valid()
      ensures old(coreHolder).Some? ==> CurrentPossession() == old(CurrentPossession())
      ensures old(coreHolder).None? ==>
                CurrentPossession() == match FirstWithin(positions, corePosition, PickupDistance)
                                case None => old(CurrentPossession())
                                case Some(i) => PickUp(old(CurrentPossession()), i)
    {
      if coreHolder.Some? {
        return;
      }
      for i := 0 to |positions|
        invariant forall j :: 0 <= j < i ==> !Within(positions[j], corePosition, PickupDistance)
        invariant CurrentPossession() == old(CurrentPossession())
      {
        if Within(positions[i], corePosition, PickupDistance) {
          PickupCore(i);
          return;
        }
      }
    }

    /** The holder at `from` loses the core, which lands 80 away in the unit direction `dir`. */
    method DropCore(from: nat, dir: Vec)
      requires Shaped() && ItemsOk() && MatchOk() && from < PlayerCount
      requires dir.x * dir.x + dir.y * dir.y == 1.0
      modifies this`coreHolder, this`coreHitCount, this`finalDashTriggered, this`finalDashEndTime,
               this`finalDashUsed, this`corePosition, this`coreHidden
      ensures Valid()
      ensures CurrentPossession() == Drop(old(CurrentPossession()), positions[from], dir)
      ensures DistSq(corePosition, positions[from]) == DropDistance * DropDistance
    {
      DropDistanceExact(CurrentPossession(), positions[from], dir);
      coreHolder := None;
      coreHitCount := 0;
      finalDashTriggered := false;
      finalDashEndTime := 0.0;
      finalDashUsed := false;
      corePosition := Vec(positions[from].x + dir.x * DropDistance, positions[from].y + dir.y * DropDistance);
      coreHidden := false;
    }

    /**
     * A physics contact between bodies a and b with the given impulse: it is a hit exactly when
     * Qualifies holds, and then the possession takes one Hit; any other contact changes nothing.
     */
    method DidBegin(a: ContactBody, b: ContactBody, impulse: real, dir: Vec)
      requires Valid()
      requires dir.x * dir.x + dir.y * dir.y == 1.0
      modifies this`coreHolder, this`coreHitCount, this`finalDashTriggered, this`finalDashEndTime,
               this`finalDashUsed, this`corePosition, this`coreHidden
      ensures Valid()
      ensures Qualifies(old(coreHolder), a, b, old(finalDashTriggered), impulse) ==>
                CurrentPossession() == Hit(old(CurrentPossession()), positions[old(coreHolder).value], dir)
      ensures !Qualifies(old(coreHolder), a, b, old(finalDashTriggered), impulse) ==>
                CurrentPossession() == old(CurrentPossession())
    {
      if coreHolder.None? {
        return;
      }
      var holder := coreHolder.value;
      if !(a.PlayerNode? && b.PlayerNode?) {
        return;
      }
      if !(a.index == holder || b.index == holder) {
        return;
      }
      if finalDashTriggered {
        return;
      }
      if impulse > DropImpulseThreshold {
        coreHitCount := coreHitCount + 1;
        if coreHitCount >= DropHitsRequired {
          DropCore(holder, dir);
        }
      }
    }

    /** A holder strictly within 50 of any gate wins. */
    method CheckFinishGates()
      requires Valid()
      modifies this`isMatchOver, this`winner
      ensures Valid()
      ensures HolderNearGate(GateWinDistance) ==> isMatchOver
      ensures HolderNearGate(GateWinDistance) && !old(isMatchOver) ==> winner == coreHolder
      ensures old(isMatchOver) ==> isMatchOver && winner == old(winner)
      ensures !HolderNearGate(GateWinDistance) ==> isMatchOver == old(isMatchOver) && winner == old(winner)
    {
      if coreHolder.None? {
        return;
      }
      var holder := coreHolder.value;
      for i := 0 to |gates|
        invariant forall j :: 0 <= j < i ==> !Within(gates[j], positions[holder], GateWinDistance)
        invariant isMatchOver == old(isMatchOver) && winner == old(winner)
      {
        if Within(gates[i], positions[holder], GateWinDistance) {
          GameOver(holder);
          return;
        }
      }
    }

    method CheckFinalDash(currentTime: real)
      requires Valid()
      modifies this`finalDashTriggered, this`finalDashUsed, this`finalDashEndTime
      ensures Valid()
      ensures CurrentPossession() == FinalDash(old(CurrentPossession()), currentTime, HolderNearGate(FinalDashTriggerDistance))
    {
      FinalDashRules(CurrentPossession(), currentTime, HolderNearGate(FinalDashTriggerDistance));
      if coreHolder.None? {
        return;
      }
      var holder := coreHolder.value;
      if finalDashTriggered {
        if currentTime >= finalDashEndTime {
          finalDashTriggered := false;
          finalDashEndTime := 0.0;
        }
        return;
      }
      if finalDashUsed {
        return;
      }
      for i := 0 to |gates|
        invariant forall j :: 0 <= j < i ==> !Within(gates[j], positions[holder], FinalDashTriggerDistance)
        invariant CurrentPossession() == old(CurrentPossession())
      {
        if Within(gates[i], positions[holder], FinalDashTriggerDistance) {
          finalDashTriggered := true;
          finalDashUsed := true;
          finalDashEndTime := currentTime + FinalDashDuration;
          return;
        }
      }
    }

    /** The holder's items and item clock take one AutoItem step; nobody else's items change. */
    method UpdateCoreAutoItems(currentTime: real, choice: string)
      requires Valid() && choice in AutoItemPool
      modifies this`playerItems, this`lastItemGiveTime
      ensures Valid()
      ensures old(coreHolder).None? ==> playerItems == old(playerItems) && lastItemGiveTime == old(lastItemGiveTime)
      ensures old(coreHolder).Some? ==>
                var g := AutoItem(old(playerItems)[coreHolder.value], old(lastItemGiveTime), currentTime, choice);
                playerItems == old(playerItems)[coreHolder.value := g.items] && lastItemGiveTime == g.lastGive
    {
      if coreHolder.None? {
        return;
      }
      var holderIndex := coreHolder.value;
      if |playerItems[holderIndex]| >= MaxItemsPerPlayer {
        return;
      }
      if lastItemGiveTime == 0.0 {
        lastItemGiveTime := currentTime;
        return;
      }
      if currentTime - lastItemGiveTime >= ItemInterval {
        lastItemGiveTime := currentTime;
        playerItems := playerItems[holderIndex := playerItems[holderIndex] + [choice]];
      }
    }

    /** The first half of a frame: the round clock, then the player's and the bots' steering. */
    method StepClockAndMotion(dt: real, hypot: (real, real) -> real)
      requires Valid() && !isMatchOver && IsHypot(hypot)
      modifies this`roundTimeRemaining, this`isMatchOver, this`winner, this`velocities
      ensures Valid()
      ensures roundTimeRemaining == TimerStep(old(roundTimeRemaining), dt)
      ensures isMatchOver <==> roundTimeRemaining == 0.0
      ensures winner == if roundTimeRemaining == 0.0 then coreHolder else None
      ensures velocities == SteeredVelocities(old(velocities), positions, moveDirection, CurrentPossession(), hypot)
    {
      UpdateTimer(dt);
      UpdatePlayerMovement();
      UpdateBotAI(hypot);
      ghost var w := SteeredVelocities(old(velocities), positions, moveDirection, CurrentPossession(), hypot);
      assert forall i :: 0 <= i < PlayerCount ==> velocities[i] == w[i];
    }

    /** The holder's rules of a frame: the final dash, then the item grant. */
    method StepHolderRules(currentTime: real, choice: string)
      requires Valid() && choice in AutoItemPool
      modifies this`finalDashTriggered, this`finalDashUsed, this`finalDashEndTime, this`lastItemGiveTime,
               this`playerItems
      ensures Valid()
      ensures (CurrentPossession(), playerItems) ==
                HolderRules(old(CurrentPossession()), old(playerItems), positions, gates, currentTime, choice)
    {
      CheckFinalDash(currentTime);
      UpdateCoreAutoItems(currentTime, choice);
    }

    /** The second half of a frame: pickup, the gate win, the final dash and the item grant. */
    method StepRules(currentTime: real, choice: string)
      requires Valid() && choice in AutoItemPool
      modifies this`isMatchOver, this`winner, this`coreHolder, this`coreHitCount, this`finalDashTriggered,
               this`finalDashEndTime, this`finalDashUsed, this`lastItemGiveTime, this`coreHidden,
               this`playerItems
      ensures Valid()
      ensures coreHolder == if old(coreHolder).Some? then old(coreHolder)
                            else FirstWithin(positions, corePosition, PickupDistance)
      ensures old(isMatchOver) ==> isMatchOver && winner == old(winner)
      ensures !old(isMatchOver) && HolderNearGate(GateWinDistance) ==> isMatchOver && winner == coreHolder
      ensures !old(isMatchOver) && !HolderNearGate(GateWinDistance) ==> isMatchOver == old(isMatchOver) && winner == old(winner)
      ensures (CurrentPossession(), playerItems) ==
                RulesStep(old(CurrentPossession()), old(playerItems), positions, gates, currentTime, choice)
    {
      CheckCorePickup();
      CheckFinishGates();
      StepHolderRules(currentTime, choice);
    }

    /** A frame of a running match: the clock and the motion, then the rules. */
    method RunFrame(dt: real, currentTime: real, hypot: (real, real) -> real, choice: string)
      requires Valid() && !isMatchOver && choice in AutoItemPool && IsHypot(hypot)
      modifies this`roundTimeRemaining, this`isMatchOver, this`winner,
               this`velocities, this`coreHolder, this`coreHitCount, this`finalDashTriggered,
               this`finalDashEndTime, this`finalDashUsed, this`lastItemGiveTime, this`coreHidden,
               this`playerItems
      ensures Valid()
      ensures roundTimeRemaining == TimerStep(old(roundTimeRemaining), dt)
      ensures roundTimeRemaining == 0.0 ==> isMatchOver && winner == old(coreHolder)
      ensures coreHolder == if old(coreHolder).Some? then old(coreHolder)
                            else FirstWithin(positions, corePosition, PickupDistance)
      ensures roundTimeRemaining > 0.0 && HolderNearGate(GateWinDistance) ==> isMatchOver && winner == coreHolder
      ensures roundTimeRemaining > 0.0 && !HolderNearGate(GateWinDistance) ==> !isMatchOver && winner.None?
      ensures velocities == SteeredVelocities(old(velocities), positions, moveDirection, old(CurrentPossession()), hypot)
      ensures (CurrentPossession(), playerItems) ==
                RulesStep(old(CurrentPossession()), old(playerItems), positions, gates, currentTime, choice)
    {
      ghost var p0, items0 := CurrentPossession(), playerItems;
      StepClockAndMotion(dt, hypot);
      assert CurrentPossession() == p0 && playerItems == items0;
      StepRules(currentTime, choice);
    }

    /**
     * One frame at `currentTime`. The frame delta is 0 on the first frame of a round; a match that
     * is over only records the time. Otherwise the clock runs down (its expiry ends the match, won
     * by the holder if any) and the rest of the frame runs even after that: a loose core goes to
     * the first player within 40, and a holder near a gate wins unless the clock has already ended
     * the match.
     */
    method Update(currentTime: real, hypot: (real, real) -> real, choice: string)
      requires Valid() && choice in AutoItemPool && IsHypot(hypot)
      modifies this`lastUpdateTime, this`roundTimeRemaining, this`isMatchOver, this`winner,
               this`velocities, this`coreHolder, this`coreHitCount, this`finalDashTriggered,
               this`finalDashEndTime, this`finalDashUsed, this`lastItemGiveTime, this`coreHidden,
               this`playerItems
      ensures Valid()
      ensures lastUpdateTime == currentTime
      ensures old(isMatchOver) ==>
                && CurrentPossession() == old(CurrentPossession()) && playerItems == old(playerItems)
                && velocities == old(velocities) && roundTimeRemaining == old(roundTimeRemaining)
                && isMatchOver && winner == old(winner)
      ensures !old(isMatchOver) ==>
                roundTimeRemaining == TimerStep(old(roundTimeRemaining), FrameDelta(old(lastUpdateTime), currentTime))
      ensures !old(isMatchOver) && roundTimeRemaining == 0.0 ==> isMatchOver && winner == old(coreHolder)
      ensures !old(isMatchOver) ==>
                coreHolder == if old(coreHolder).Some? then old(coreHolder)
                              else FirstWithin(positions, old(corePosition), PickupDistance)
      ensures !old(isMatchOver) && roundTimeRemaining > 0.0 && HolderNearGate(GateWinDistance) ==>
                isMatchOver && winner == coreHolder
      ensures !old(isMatchOver) && roundTimeRemaining > 0.0 && !HolderNearGate(GateWinDistance) ==>
                !isMatchOver && winner.None?
      ensures !old(isMatchOver) ==>
                velocities == SteeredVelocities(old(velocities), positions, moveDirection, old(CurrentPossession()), hypot)
      ensures !old(isMatchOver) ==>
                (CurrentPossession(), playerItems) ==
                  RulesStep(old(CurrentPossession()), old(playerItems), positions, gates, currentTime, choice)
    {
      if lastUpdateTime == 0.0 {
        lastUpdateTime := currentTime;
      }
      var dt := currentTime - lastUpdateTime;
      lastUpdateTime := currentTime;
      if isMatchOver {
        return;
      }
      RunFrame(dt, currentTime, hypot, choice);
    }
  }
}
