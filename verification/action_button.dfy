/**
 * The cooldown of an on-screen action button (MazeRumble/ActionButton.swift). Only the cooldown
 * state is modelled; the button's drawing and its hit test are not.
 */
module Buttons {
  import opened Timers

  datatype ActionType = Push | Tackle | Dash | Sprint

  class ActionButton {
    const actionType: ActionType
    var isOnCooldown: bool
    var cooldownRemaining: real

    /** A button that is not cooling down has nothing left on its cooldown. */
    ghost predicate Valid()
      reads this
    {
      !isOnCooldown ==> cooldownRemaining == 0.0
    }

    function Cooldown(): Countdown
      reads this
    {
      Countdown(isOnCooldown, cooldownRemaining)
    }

    constructor(t: ActionType)
      ensures Valid()
      ensures actionType == t && Cooldown() == Countdown(false, 0.0)
    {
      actionType := t;
      isOnCooldown := false;
      cooldownRemaining := 0.0;
    }

    method StartCooldown(duration: real)
      requires Valid()
      modifies this
      ensures Valid()
      ensures isOnCooldown && cooldownRemaining == duration
    {
      isOnCooldown := true;
      cooldownRemaining := duration;
    }

    /**
     * One frame: nothing happens off cooldown; otherwise the remainder drops by `deltaTime` and the
     * cooldown ends, clamped to 0, once it reaches 0 or less.
     */
    method UpdateCooldown(deltaTime: real)
      requires Valid()
      modifies this
      ensures Valid()
      ensures Cooldown() == Tick(old(Cooldown()), deltaTime)
    {
      if !isOnCooldown {
        return;
      }
      cooldownRemaining := cooldownRemaining - deltaTime;
      if cooldownRemaining <= 0.0 {
        cooldownRemaining := 0.0;
        isOnCooldown := false;
      }
    }
  }
}
