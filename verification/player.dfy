/**
 * Per-player status (MazeRumble/Player.swift): the movement state with its timer, the sprint
 * flag and timer, the shield with its hit budget and timer, and a bounded inventory.
 */
module PlayerStatus {
  import opened Optional
  import opened Items
  import opened Timers

  datatype PlayerState = Idle | Running | Stunned | Downed

  const MaxInventorySize: nat := 2

  /** The movement state together with the time it has left. */
  datatype StatusClock = StatusClock(state: PlayerState, timer: real)

  /**
   * One frame of `updateState`: a timer that is not positive is left alone (a state set with
   * duration 0 lasts until replaced); otherwise it is lowered, and reaching 0 or less returns the
   * player to Idle with the timer at 0.
   */
  function AdvanceStatus(c: StatusClock, dt: real): (r: StatusClock)
    ensures c.timer <= 0.0 ==> r == c
    ensures r.state == c.state || r == StatusClock(Idle, 0.0)
    ensures c.timer > 0.0 && dt >= 0.0 ==> 0.0 <= r.timer <= c.timer
  {
    if c.timer <= 0.0 then c
    else if c.timer - dt <= 0.0 then StatusClock(Idle, 0.0)
    else StatusClock(c.state, c.timer - dt)
  }

  function AdvanceStatusFrames(c: StatusClock, dts: seq<real>): StatusClock
    decreases |dts|
  {
    if dts == [] then c else AdvanceStatusFrames(AdvanceStatus(c, dts[0]), dts[1..])
  }

  /** Idle and Running permit movement and actions; Stunned and Downed permit neither. */
  predicate Free(s: PlayerState)
  {
    s == Idle || s == Running
  }

  /** A state whose timer is not positive never changes on its own. */
  lemma {:induction false} UntimedStatusPersists(c: StatusClock, dts: seq<real>)
    requires c.timer <= 0.0
    ensures AdvanceStatusFrames(c, dts) == c
  {
    if dts != [] {
      UntimedStatusPersists(c, dts[1..]);
    }
  }

  /**
   * A state set for d > 0 seconds stays, with d minus the elapsed time left, while the elapsed
   * time is below d; once the elapsed time reaches d the player is Idle, timer 0, and free to move
   * and act again.
   */
  lemma {:induction false} StatusExpiry(s: PlayerState, d: real, dts: seq<real>)
    requires d > 0.0 && NonNegative(dts)
    ensures Elapsed(dts) < d ==> AdvanceStatusFrames(StatusClock(s, d), dts) == StatusClock(s, d - Elapsed(dts))
    ensures Elapsed(dts) >= d ==> AdvanceStatusFrames(StatusClock(s, d), dts) == StatusClock(Idle, 0.0)
    ensures Elapsed(dts) >= d ==> Free(AdvanceStatusFrames(StatusClock(s, d), dts).state)
    decreases |dts|
  {
    if dts != [] {
      var rest := dts[1..];
      assert NonNegative(rest) by {
        forall i | 0 <= i < |rest| ensures rest[i] >= 0.0 {
          assert rest[i] == dts[i + 1];
        }
      }
      ElapsedNonNegative(rest);
      if d - dts[0] <= 0.0 {
        UntimedStatusPersists(StatusClock(Idle, 0.0), rest);
      } else {
        StatusExpiry(s, d - dts[0], rest);
      }
    }
  }

  /** The shield: whether it is up, the hits it can still take, and its remaining time. */
  datatype ShieldState = ShieldState(active: bool, hits: int, timer: real)

  const NoShield: ShieldState := ShieldState(false, 0, 0.0)

  /** One frame of `updateShield`: the timer runs only while the shield is up and drops it at 0. */
  function ShieldTick(s: ShieldState, dt: real): (r: ShieldState)
    ensures !s.active ==> r == s
    ensures s.active ==> r == NoShield || (r.active && r.hits == s.hits && 0.0 < r.timer)
    ensures s.active && dt >= 0.0 && r.active ==> r.timer <= s.timer
  {
    if !s.active then s
    else if s.timer - dt <= 0.0 then NoShield
    else s.(timer := s.timer - dt)
  }

  /** The shield after one `absorbHit`: one hit fewer, and fully down once none are left. */
  function ShieldAfterHit(s: ShieldState): (r: ShieldState)
    ensures !s.active ==> r == s
    ensures s.active ==> r == NoShield || (r.active && 0 < r.hits == s.hits - 1 && r.timer == s.timer)
  {
    if !s.active then s
    else if s.hits - 1 <= 0 then NoShield
    else s.(hits := s.hits - 1)
  }

  /** How many of k successive hits a shield absorbs (absorbHit returning true). */
  function AbsorbedHits(s: ShieldState, k: nat): nat
    decreases k
  {
    if k == 0 then 0
    else (if s.active then 1 else 0) + AbsorbedHits(ShieldAfterHit(s), k - 1)
  }

  function ShieldAfterHits(s: ShieldState, k: nat): ShieldState
    decreases k
  {
    if k == 0 then s else ShieldAfterHits(ShieldAfterHit(s), k - 1)
  }

  /**
   * A shield activated with h >= 1 hits absorbs exactly min(k, h) of k hits: it stays up with
   * h - k hits while k < h and is fully down after the h-th.
   */
  lemma {:induction false} ShieldHitBudget(h: int, t: real, k: nat)
    requires h >= 1
    ensures AbsorbedHits(ShieldState(true, h, t), k) == if k < h then k else h
    ensures k < h ==> ShieldAfterHits(ShieldState(true, h, t), k) == ShieldState(true, h - k, t)
    ensures k >= h ==> ShieldAfterHits(ShieldState(true, h, t), k) == NoShield
  {
    if k > 0 {
      if h == 1 {
        DownShieldStays(k - 1);
      } else {
        ShieldHitBudget(h - 1, t, k - 1);
      }
    }
  }

  /** A shield that is down absorbs nothing and stays down. */
  lemma {:induction false} DownShieldStays(k: nat)
    ensures AbsorbedHits(NoShield, k) == 0
    ensures ShieldAfterHits(NoShield, k) == NoShield
  {
    if k > 0 {
      DownShieldStays(k - 1);
    }
  }

  /** Removes slot i and keeps the other items in their order (`Array.remove(at:)`). */
  function RemoveAt<T>(s: seq<T>, i: nat): (r: seq<T>)
    requires i < |s|
    ensures |r| == |s| - 1
    ensures forall j :: 0 <= j < i ==> r[j] == s[j]
    ensures forall j :: i <= j < |r| ==> r[j] == s[j + 1]
    ensures multiset(r) + multiset{s[i]} == multiset(s)
  {
    assert s == s[..i] + [s[i]] + s[i + 1..];
    s[..i] + s[i + 1..]
  }

  /** Using the slot an item was just put into gives that item back and restores the inventory. */
  lemma PickupThenUseNewest<T>(inv: seq<T>, t: T)
    ensures (inv + [t])[|inv|] == t
    ensures RemoveAt(inv + [t], |inv|) == inv
  {
    assert (inv + [t])[..|inv|] == inv;
  }

  class Player {
    const index: int
    const isMainPlayer: bool

    var state: PlayerState
    var stateTimer: real
    var isSprinting: bool
    var sprintTimer: real
    var inventory: seq<ItemType>
    var hasShield: bool
    var shieldHitsRemaining: int
    var shieldTimer: real

    /**
     * The inventory holds at most two items; a sprint or shield that is off has nothing left on
     * its timer (and the shield no hits).
     */
    ghost predicate Valid()
      reads this
    {
      && |inventory| <= MaxInventorySize
      && (!isSprinting ==> sprintTimer == 0.0)
      && (!hasShield ==> shieldHitsRemaining == 0 && shieldTimer == 0.0)
    }

    function Status(): StatusClock
      reads this
    {
      StatusClock(state, stateTimer)
    }

    function Sprint(): Countdown
      reads this
    {
      Countdown(isSprinting, sprintTimer)
    }

    function Shield(): ShieldState
      reads this
    {
      ShieldState(hasShield, shieldHitsRemaining, shieldTimer)
    }

    constructor(index: int, isMainPlayer: bool)
      ensures Valid()
      ensures this.index == index && this.isMainPlayer == isMainPlayer
      ensures Status() == StatusClock(Idle, 0.0) && Sprint() == Countdown(false, 0.0)
      ensures Shield() == NoShield && inventory == []
    {
      this.index := index;
      this.isMainPlayer := isMainPlayer;
      state := Idle;
      stateTimer := 0.0;
      isSprinting := false;
      sprintTimer := 0.0;
      inventory := [];
      hasShield := false;
      shieldHitsRemaining := 0;
      shieldTimer := 0.0;
    }

    /** Replaces the state and its timer outright, whatever they were. */
    method SetState(newState: PlayerState, duration: real := 0.0)
      requires Valid()
      modifies this`state, this`stateTimer
      ensures Valid()
      ensures state == newState && stateTimer == duration
    {
      state := newState;
      stateTimer := duration;
    }

    method UpdateState(deltaTime: real)
      requires Valid()
      modifies this`state, this`stateTimer
      ensures Valid()
      ensures Status() == AdvanceStatus(old(Status()), deltaTime)
    {
      if stateTimer <= 0.0 {
        return;
      }
      stateTimer := stateTimer - deltaTime;
      if stateTimer <= 0.0 {
        stateTimer := 0.0;
        state := Idle;
      }
    }

    /** Starts (or restarts) a sprint: the timer is overwritten even while already sprinting. */
    method StartSprint(duration: real)
      requires Valid()
      modifies this`isSprinting, this`sprintTimer
      ensures Valid()
      ensures Sprint() == Countdown(true, duration)
    {
      isSprinting := true;
      sprintTimer := duration;
    }

    method UpdateSprint(deltaTime: real)
      requires Valid()
      modifies this`isSprinting, this`sprintTimer
      ensures Valid()
      ensures Sprint() == Tick(old(Sprint()), deltaTime)
    {
      if !isSprinting {
        return;
      }
      sprintTimer := sprintTimer - deltaTime;
      if sprintTimer <= 0.0 {
        sprintTimer := 0.0;
        isSprinting := false;
      }
    }

    method ActivateShield(duration: real, hits: int)
      requires Valid()
      modifies this`hasShield, this`shieldHitsRemaining, this`shieldTimer
      ensures Valid()
      ensures Shield() == ShieldState(true, hits, duration)
    {
      hasShield := true;
      shieldHitsRemaining := hits;
      shieldTimer := duration;
    }

    method UpdateShield(deltaTime: real)
      requires Valid()
      modifies this`hasShield, this`shieldHitsRemaining, this`shieldTimer
      ensures Valid()
      ensures Shield() == ShieldTick(old(Shield()), deltaTime)
    {
      if !hasShield {
        return;
      }
      shieldTimer := shieldTimer - deltaTime;
      if shieldTimer <= 0.0 {
        DeactivateShield();
      }
    }

    /** Reports whether a shield was up to take the hit; only then does the shield change. */
    method AbsorbHit() returns (absorbed: bool)
      requires Valid()
      modifies this`hasShield, this`shieldHitsRemaining, this`shieldTimer
      ensures Valid()
      ensures absorbed == old(hasShield)
      ensures Shield() == ShieldAfterHit(old(Shield()))
    {
      if !hasShield {
        return false;
      }
      shieldHitsRemaining := shieldHitsRemaining - 1;
      if shieldHitsRemaining <= 0 {
        DeactivateShield();
      }
      return true;
    }

    method DeactivateShield()
      modifies this`hasShield, this`shieldHitsRemaining, this`shieldTimer
      ensures Shield() == NoShield
    {
      hasShield := false;
      shieldHitsRemaining := 0;
      shieldTimer := 0.0;
    }

    /** Removes any shield at once (`clearShield`). */
    method ClearShield()
      requires Valid()
      modifies this`hasShield, this`shieldHitsRemaining, this`shieldTimer
      ensures Valid()
      ensures Shield() == NoShield
    {
      DeactivateShield();
    }

    /** True exactly when one more item fits: fewer than two are held. */
    function CanPickupItem(): (r: bool)
      reads this
      requires Valid()
      ensures r <==> |inventory| <= MaxInventorySize - 1
    {
      |inventory| < MaxInventorySize
    }

    method PickupItem(t: ItemType) returns (ok: bool)
      requires Valid()
      modifies this`inventory
      ensures Valid()
      ensures ok == old(CanPickupItem())
      ensures inventory == if ok then old(inventory) + [t] else old(inventory)
    {
      if !CanPickupItem() {
        return false;
      }
      inventory := inventory + [t];
      return true;
    }

    /** Takes the item out of slot `index`; an index outside the inventory yields nothing. */
    method DropItem(index: int) returns (item: Option<ItemType>)
      requires Valid()
      modifies this`inventory
      ensures Valid()
      ensures 0 <= index < |old(inventory)| ==>
                item == Some(old(inventory)[index]) && inventory == RemoveAt(old(inventory), index)
      ensures !(0 <= index < |old(inventory)|) ==> item == None && inventory == old(inventory)
    {
      if !(0 <= index < |inventory|) {
        return None;
      }
      item := Some(inventory[index]);
      inventory := RemoveAt(inventory, index);
    }

    /** Consumes the item in slot `index`, exactly as DropItem removes it. */
    method UseItem(index: int) returns (item: Option<ItemType>)
      requires Valid()
      modifies this`inventory
      ensures Valid()
      ensures 0 <= index < |old(inventory)| ==>
                item == Some(old(inventory)[index]) && inventory == RemoveAt(old(inventory), index)
      ensures !(0 <= index < |old(inventory)|) ==> item == None && inventory == old(inventory)
    {
      if !(0 <= index < |inventory|) {
        return None;
      }
      item := Some(inventory[index]);
      inventory := RemoveAt(inventory, index);
    }

    method ClearInventory()
      requires Valid()
      modifies this`inventory
      ensures Valid()
      ensures inventory == []
    {
      inventory := [];
    }

    /** Stunned and Downed players cannot move. */
    function CanMove(): (r: bool)
      reads this
      ensures r <==> !(state == Stunned || state == Downed)
    {
      Free(state)
    }

    /** Stunned and Downed players cannot act; acting is allowed exactly when moving is. */
    function CanAct(): (r: bool)
      reads this
      ensures r <==> !(state == Stunned || state == Downed)
      ensures r == CanMove()
    {
      Free(state)
    }
  }
}
