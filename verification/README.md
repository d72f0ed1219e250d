# MazeRumble gameplay core in Dafny

MazeRumble is a SpriteKit arcade game. Eight players (you are player 0, bots are 1 to 7) race
through a maze for a single core. The first player within 40 of the loose core carries it. Three
hard player-on-player hits knock it loose, and it lands 80 away. Coming within 100 of one of the
five finish gates grants the holder one five-second final dash per possession. During the dash
the holder is immune to hits and runs 1.5 times faster. Carrying the core to within 50 of a gate
wins. When the two-minute round clock runs out, the current holder wins, if there is one.

The project models the simulation side of the game:

- `Game` (game_scene.dfy): the scene's round engine.
  - The class `GameScene` keeps the scene's own fields: holder, hit count, final-dash flags, item
    clock, item lists, round clock, match-over flag.
  - Its methods are proved to be the pure step functions `PickUp`, `Drop`, `Hit`, `FinalDash`,
    `AutoItem` and `TimerStep` over a `Possession` value.
  - Its invariant `Valid` holds across every operation:
    - holder present ⇔ core hidden;
    - 0 to 2 hits while held, 0 when loose;
    - a running dash is used and has a holder;
    - at most three items each;
    - the clock is never negative and reaches 0 only when the match is over.
- `PlayerStatus` (player.dfy): the `Player` class. It covers the movement state with its timer,
  the sprint timer, the shield with its hit budget and timer, and a two-slot inventory. The scene
  does not use this class, and the model keeps the two apart as the code does.
- `Bots` (bot_ai.dfy): `BotAI.update`.
  - A bot targets the holder, or else the given point.
  - There is a 20-unit dead zone.
  - The holder runs 1.5 times faster during the final dash.
  - The velocity blends 18% of the way toward the desired velocity each frame. The bots are an
    array updated in place.
- `Buttons` (action_button.dfy): an action button's cooldown.
- `Hiding` (hiding_spot.dfy): a hiding spot's occupant list and its icon flag.
- `Maps` (map_manager.dfy): the gate layout that `createGates` builds.
- `UI` (ui_manager.dfy): the timer text "MM:SS" and the scoreboard text, as pure string functions.
- Shared pieces:
  - `Geometry`: vectors, squared distances, lerp.
  - `Timers`: the countdown shape shared by sprint, shield and cooldown.
  - `GameConfig`: the constants of GameConfig.swift.
  - `Items`: the item kinds.
  - `Optional`.

Distances are compared as squared distances. `Within(a, b, r)` is `r > 0 && |a - b|² < r²`.
`Geometry.WithinIsHypotLess` proves that this is exactly the source's `hypot(dx, dy) < r`, for a
`hypot` parameter constrained by `IsHypot`. The bots need the actual length to normalise the
direction, so their operations take such a `hypot` function as a parameter and require
`IsHypot` of it.

## Model

| member | source | states |
|---|---|---|
| Geometry.WithinIsHypotLess | MazeRumble/GameScene.swift:636-638 | The squared-distance test `Within` holds exactly when `hypot(dx, dy) < r`, for every r (including r ≤ 0). |
| Geometry.HypotGreater | MazeRumble/BotAI.swift:28-31 | For r ≥ 0, `hypot(dx, dy) > r` exactly when dx² + dy² > r², so the dead-zone test can be read on squares. |
| Geometry.LerpBetween | MazeRumble/BotAI.swift:41-43 | For a blend factor in [0, 1] the smoothed value lies between the old and the desired value, and its gap to the desired value is the old gap times (1 − k). |
| Timers.InactiveStays | MazeRumble/ActionButton.swift:70-71 | A countdown that is off is left unchanged by any run of frames. |
| Timers.CountdownExpiry | MazeRumble/ActionButton.swift:64-78 | A countdown started with d > 0 stays on with d − elapsed left while the elapsed time is below d, and is off with 0 left once the elapsed time reaches d. |
| PlayerStatus.UntimedStatusPersists | MazeRumble/Player.swift:87-88 | A state whose timer is not positive (set with duration 0) never changes, however many frames pass. |
| PlayerStatus.AdvanceStatus | MazeRumble/Player.swift:87-95 | One frame of the status clock. A timer that is not positive leaves the clock alone. Otherwise the state is kept or the clock becomes Idle with timer 0. For a non-negative delta a running timer never goes below 0 or above where it was. |
| PlayerStatus.StatusExpiry | MazeRumble/Player.swift:87-95 | A state set for d > 0 keeps its state with d − elapsed left while the elapsed time is below d. Once it reaches d the player is Idle with timer 0 and free to move and act. |
| PlayerStatus.ShieldHitBudget | MazeRumble/Player.swift:126-144 | A shield activated with h ≥ 1 hits absorbs exactly min(k, h) of k hits. It stays up with h − k hits while k < h and is fully down (no hits, no time) after the h-th. |
| PlayerStatus.DownShieldStays | MazeRumble/Player.swift:126-127 | A shield that is down absorbs no hit and stays down. |
| PlayerStatus.ShieldTick | MazeRumble/Player.swift:118-124 | A shield that is down is left alone. A shield that is up is either fully down afterwards (no hits, no time) or still up with the same hits and time left. For a non-negative delta its time never grows. |
| PlayerStatus.ShieldAfterHit | MazeRumble/Player.swift:126-144 | A shield that is down is left alone. A shield that is up is either fully down afterwards or still up with exactly one hit fewer (at least one left) and the same time. |
| PlayerStatus.RemoveAt | MazeRumble/Player.swift:156-164 | Removing slot i shortens the list by one, keeps the items before i in place and shifts the ones after it down by one, and removes exactly that one item (multiset). |
| PlayerStatus.PickupThenUseNewest | MazeRumble/Player.swift:150-164 | Using the slot an item was just appended to gives that item back and restores the previous inventory. |
| PlayerStatus.Player.constructor | MazeRumble/Player.swift:22-33 | A new player is Idle with no timer, not sprinting, without a shield and with an empty inventory. |
| PlayerStatus.Player.SetState | MazeRumble/Player.swift:69-85 | The state and its timer become exactly the arguments, whatever they were. |
| PlayerStatus.Player.UpdateState | MazeRumble/Player.swift:87-95 | The state clock takes one `AdvanceStatus` step: unchanged when the timer is not positive, otherwise lowered by dt, and Idle with timer 0 once it reaches 0 or less. |
| PlayerStatus.Player.StartSprint | MazeRumble/Player.swift:97-100 | Sprinting starts with the given duration, overwriting a running sprint. |
| PlayerStatus.Player.UpdateSprint | MazeRumble/Player.swift:102-109 | The sprint takes one countdown `Tick`: nothing when not sprinting, otherwise lowered by dt, and off with 0 left at 0 or less. |
| PlayerStatus.Player.ActivateShield | MazeRumble/Player.swift:111-116 | The shield is up with exactly the given hits and duration. |
| PlayerStatus.Player.UpdateShield | MazeRumble/Player.swift:118-124 | The shield takes one `ShieldTick`: unchanged when down, otherwise its timer drops by dt, and it is fully deactivated when the timer reaches 0 or less. |
| PlayerStatus.Player.AbsorbHit | MazeRumble/Player.swift:126-144 | Returns whether a shield was up. Without one nothing changes. With one a hit is used, and the shield is fully deactivated when none are left. |
| PlayerStatus.Player.DeactivateShield | MazeRumble/Player.swift:306-311 | The shield is down with no hits and no time left. |
| PlayerStatus.Player.ClearShield | MazeRumble/Player.swift:170-172 | The shield is down with no hits and no time left. |
| PlayerStatus.Player.CanPickupItem | MazeRumble/Player.swift:146-148 | True exactly when the inventory holds fewer than two items. |
| PlayerStatus.Player.PickupItem | MazeRumble/Player.swift:150-154 | Returns true and appends the item exactly when one more fits. Otherwise it returns false and the inventory is unchanged, so the inventory never exceeds two. |
| PlayerStatus.Player.DropItem | MazeRumble/Player.swift:156-159 | An index in range returns that slot's old item and removes exactly that slot, keeping the order of the rest. Any other index (negative or too large) returns nothing and changes nothing. |
| PlayerStatus.Player.UseItem | MazeRumble/Player.swift:161-164 | Same as DropItem: the old item of a valid slot comes back and that slot is removed; an invalid index returns nothing and changes nothing. |
| PlayerStatus.Player.ClearInventory | MazeRumble/Player.swift:166-168 | The inventory is empty. |
| PlayerStatus.Player.CanMove | MazeRumble/Player.swift:174-176 | True exactly when the player is neither Stunned nor Downed. |
| PlayerStatus.Player.CanAct | MazeRumble/Player.swift:178-180 | True exactly when the player is neither Stunned nor Downed, so it always agrees with CanMove. |
| Bots.TargetFor | MazeRumble/BotAI.swift:19-24 | The target is the holder's position when there is a holder other than this bot, and the given point otherwise. |
| Bots.DesiredSpeed | MazeRumble/BotAI.swift:35-36 | The desired speed is 330 (220 × 1.5) for the bot that holds the core while the final dash runs, and 220 for every other bot. |
| Bots.DeadZoneAndHeading | MazeRumble/BotAI.swift:26-39 | Within 20 of the target the desired velocity is zero. Beyond it the heading has length 1, the desired velocity has exactly the desired speed, and (for a positive speed) it points toward the target. |
| Bots.Steer | MazeRumble/BotAI.swift:15-45 | A bot keeps its id and position, and has a body afterwards exactly when it had one before. A bot without a body is left alone. |
| Bots.SteerBetween | MazeRumble/BotAI.swift:41-43 | Each component of the new velocity lies between the old and desired values, the gap to the desired velocity shrinks to 0.82 of what it was, and the desired velocity is a fixed point. |
| Bots.SteerConverges | MazeRumble/BotAI.swift:41-43 | Under a constant desired velocity the gap after n frames is exactly 0.82ⁿ times the starting gap, with 0 < 0.82ⁿ ≤ 1. |
| Bots.BotAI.constructor | MazeRumble/BotAI.swift:12-13 | A new steering controller has no holder and no final dash. |
| Bots.BotAI.Update | MazeRumble/BotAI.swift:15-45 | Every bot with a body gets exactly the `Steer` step toward its target. Bots without a body are unchanged, and no bot's identity or position changes. |
| Buttons.ActionButton.constructor | MazeRumble/ActionButton.swift:23-24 | A new button is not cooling down and has 0 left. |
| Buttons.ActionButton.StartCooldown | MazeRumble/ActionButton.swift:64-68 | The button is cooling down with exactly the given duration left. |
| Buttons.ActionButton.UpdateCooldown | MazeRumble/ActionButton.swift:70-78 | The cooldown takes one countdown `Tick`: nothing when idle, otherwise lowered by dt and ended with 0 left at 0 or less. Not cooling down always means 0 left. |
| Hiding.Without | MazeRumble/HidingSpot.swift:54-55 | Removing a player leaves no occurrence of it, keeps every other occupant with its multiplicity, and changes nothing when the player is absent. |
| Hiding.WithoutAppend | MazeRumble/HidingSpot.swift:55 | Removal distributes over concatenation, so the others keep their relative order. |
| Hiding.WithoutRemovesSlot | MazeRumble/HidingSpot.swift:54-57 | In a list without duplicates, exit removes exactly the slot holding the player and keeps everyone else in order. |
| Hiding.EnterThenExit | MazeRumble/HidingSpot.swift:47-57 | A player who enters and then leaves leaves the list as it was. |
| Hiding.WithoutKeepsNoDuplicates | MazeRumble/HidingSpot.swift:54-57 | Exit never creates duplicates. |
| Hiding.HidingSpot.constructor | MazeRumble/HidingSpot.swift:9-33 | A new spot is empty with its icon showing. |
| Hiding.HidingSpot.ContainsPlayer | MazeRumble/HidingSpot.swift:40-44 | True exactly when the player is strictly closer to the spot than its radius. |
| Hiding.HidingSpot.UpdateVisuals | MazeRumble/HidingSpot.swift:60-69 | The icon shows (alpha 1) exactly when nobody is inside, and is hidden (alpha 0) otherwise. |
| Hiding.HidingSpot.PlayerEnter | MazeRumble/HidingSpot.swift:47-51 | A new player is appended and an already present one changes nothing. The list never holds duplicates and the icon is hidden afterwards. |
| Hiding.HidingSpot.PlayerExit | MazeRumble/HidingSpot.swift:54-57 | Every occurrence of the player is removed and the icon follows occupancy. |
| Hiding.HidingSpot.Reset | MazeRumble/HidingSpot.swift:72-75 | Nobody is inside and the icon shows. |
| Maps.GateLayoutShape | MazeRumble/MapManager.swift:106-115 | There are exactly five gates, all at height H − 80, with gate i at 0.1W + 0.2W·i: gate 0 at 0.1W and gate 4 at 0.9W. |
| Maps.GateLayout | MazeRumble/MapManager.swift:106-115 | Its definition gives the gate centres in creation order: gate i at x = 0.1W + 0.2W·i and y = H − 80. `GateLayoutShape` states the properties. |
| Maps.GatesEvenlySpaced | MazeRumble/MapManager.swift:115 | Neighbouring gates are 0.2W apart, and for W > 0 the gates run strictly left to right. |
| Maps.MapManager.constructor | MazeRumble/MapManager.swift:18-22 | A new manager has the world size and no gates. |
| Maps.MapManager.CreateGates | MazeRumble/MapManager.swift:102-136 | The old gates are discarded and exactly the five gates of `GateLayout` are built, so calling it again still leaves five. |
| UI.DigitsRoundTrip | MazeRumble/UIManager.swift:130-135 | Reading the decimal spelling of n gives n back. |
| UI.DigitsInjective | MazeRumble/UIManager.swift:130-135 | Different numbers have different spellings. |
| UI.Pad2TwoDigits | MazeRumble/UIManager.swift:147 | `%02d` of 0 ≤ n < 100 is exactly the two digits of n and reads back as n. |
| UI.TimerTextFields | MazeRumble/UIManager.swift:144-148 | Below 100 minutes the timer text is five characters with ':' in the middle, the seconds field below 60, and minutes·60 + seconds equal to the whole seconds left. |
| UI.TimerText | MazeRumble/UIManager.swift:144-148 | Its definition is `%02d:%02d` of the whole minutes and seconds left. Truncation and division follow Swift's Int rules. `TimerTextFields` and `TimerTextAtStart` state the properties. |
| UI.TimerTextAtStart | MazeRumble/UIManager.swift:90 | The full two-minute clock reads "02:00". |
| UI.FirstIndex | MazeRumble/UIManager.swift:130 | The position found is the first occurrence of the holder, and there is none exactly when the holder is not listed. |
| UI.HolderLine | MazeRumble/UIManager.swift:131-135 | The holder line starts with "你" for slot 0 and with "B" (of "Bot") for every other slot. |
| UI.ScoreTextCases | MazeRumble/UIManager.swift:128-142 | The text is "核心未被拾取" exactly when there is no holder or the holder is not listed. Otherwise it starts with "你" for player 0 and with "Bot" for any other slot. |
| UI.ScoreText | MazeRumble/UIManager.swift:128-142 | Its definition gives the no-holder text when the holder is absent from the list. Otherwise it gives the holder line for the holder's first slot. `ScoreTextCases` and `ScoreTextNamesTheSlot` state the properties. |
| UI.BotLineInjective | MazeRumble/UIManager.swift:134 | Two "Bot{i}…" lines with the same tail name the same slot. |
| UI.HolderLineInjective | MazeRumble/UIManager.swift:130-135 | Holders in different slots get different holder lines. |
| UI.ScoreTextNamesTheSlot | MazeRumble/UIManager.swift:128-142 | Equal scoreboard texts (same hit count) come from the same holder slot, so the scoreboard always names who holds the core. |
| Game.PickUp | MazeRumble/GameScene.swift:645-656 | Pickup makes player i the holder with 0 hits, no dash (neither running nor used, end time 0), the item clock unset and the core hidden, and it keeps the possession invariant. |
| Game.Drop | MazeRumble/GameScene.swift:664-681 | Drop clears the holder, hits, both dash flags and the dash end time, shows the core at the dropper's position plus 80 in the direction `dir`, and keeps the possession invariant. |
| Game.DropDistanceExact | MazeRumble/GameScene.swift:677-680 | With a unit direction the core lands exactly 80 from the player who dropped it. |
| Game.HitOutcome | MazeRumble/GameScene.swift:868-874 | A hit keeps the possession invariant. The first two hits of a possession only count, and the third drops the core, visible and 80 away. |
| Game.Qualifies | MazeRumble/GameScene.swift:853-868 | Its definition holds exactly when there is a holder, both bodies are players, one of them is the holder, no final dash runs and the impulse is above 50. |
| Game.Hit | MazeRumble/GameScene.swift:868-874 | A hit after which someone still holds the core only adds one to the count. Below three hits the holder keeps the core. At the third hit nobody holds it and it is visible. |
| Game.ThreeHitsDrop | MazeRumble/GameScene.swift:868-874 | After a pickup the holder keeps the core through one and two hits, and loses it at exactly the third. |
| Game.FinalDash | MazeRumble/GameScene.swift:745-772 | The dash step never changes the holder, the hits, the core's position or visibility, or the item clock. |
| Game.FinalDashRules | MazeRumble/GameScene.swift:745-772 | The dash keeps the possession invariant. It starts exactly for a holder with an unused dash near a gate, and then ends at now + 5. A running dash continues exactly while now < end. The used flag is never cleared. |
| Game.DashOncePerPossession | MazeRumble/GameScene.swift:748-757 | Once a possession's dash has run out it never starts again, over any run of frames, and the holder does not change. |
| Game.TimerStep | MazeRumble/GameScene.swift:575 | The round clock after a frame is never negative. |
| Game.TimerRunsDown | MazeRumble/GameScene.swift:573-579 | Over any run of frames with non-negative deltas the clock shows the time left minus the elapsed time, floored at 0. |
| Game.AutoItem | MazeRumble/GameScene.swift:775-795 | Nothing is granted at three items or more. Otherwise the first frame of a possession only starts the item clock at now, and nothing is granted. Before 8 seconds have passed since the last grant nothing changes. At 8 seconds or more, exactly one item is appended and the clock restarts at now. The list never grows past three. |
| Game.AfterPickup | MazeRumble/GameScene.swift:633-643 | A held core stays put. A loose core goes to the first player strictly within 40 by `PickUp`, and with nobody near nothing changes. A new holder is a valid player index. |
| Game.RulesStepKeepsInvariant | MazeRumble/GameScene.swift:565-568 | The rules half of a frame keeps the possession invariant and the three-item cap. Only pickup changes the holder. Nobody but the holder gains an item, and the holder gains at most one, the chosen one. |
| Game.FirstWithin | MazeRumble/GameScene.swift:633-643 | Returns the first index strictly within r of the point, and none exactly when no point is within r; so player 0 wins ties. |
| Game.PlayerSpeed | MazeRumble/GameScene.swift:585-586 | Player 0's target speed is 450 exactly while it holds the core during the final dash, and 300 otherwise. |
| Game.GameScene.constructor | MazeRumble/GameScene.swift:113-139 | After setup the gates are the `GateLayout` gates, and the core is home and visible with no holder, no hits and no dash. Everyone is at their spawn point and at rest, and the item lists are empty. The round starts with the full clock, the frame clock at 0 and no winner. |
| Game.GameScene.StartRound | MazeRumble/GameScene.swift:879-895 | The round starts with the full clock and the frame clock at 0, no holder, no hits, no running dash, empty item lists, the core home and visible, and everyone at their spawn point and at rest. The used-dash flag is left as it was. |
| Game.GameScene.ResetRoundCounters | MazeRumble/GameScene.swift:880-889 | The clock, the hit count, the running dash, the item lists and the item clock are reset, and the match is no longer over. |
| Game.GameScene.ResetEntitiesForRound | MazeRumble/GameScene.swift:897-923 | No holder, the core home (0.28 of the shorter side above the centre) and visible, and every player at its spawn point with zero velocity. |
| Game.GameScene.RestartGame | MazeRumble/GameScene.swift:848-850 | The delayed restart (allowed only once the match is over) starts a fresh round. The match runs with the full clock, the frame clock is at 0 and there is no winner. There is no holder and no hits, no dash runs, and the item clock is unset. The core is home and visible. The item lists are empty, and everyone is at their spawn point and at rest. The used-dash flag is left as it was. |
| Game.GameScene.GameOver | MazeRumble/GameScene.swift:813-815 | The match is over and the winner is w, unless it was already over, in which case nothing changes. The match invariant holds afterwards whenever the clock is not negative. |
| Game.GameScene.HandleTimeUp | MazeRumble/GameScene.swift:798-810 | The match ends. If it was running, the holder wins when there is one; otherwise it ends with no winner. A finished match is left alone. The match invariant holds afterwards whenever the clock is not negative, including when the clock has just reached 0. |
| Game.GameScene.UpdateTimer | MazeRumble/GameScene.swift:573-579 | The clock becomes max(0, r − dt). The match ends exactly when the clock reaches 0, and then the holder, if any, is the winner. Nothing happens once the match is over. |
| Game.GameScene.UpdatePlayerMovement | MazeRumble/GameScene.swift:582-594 | Player 0's velocity moves a quarter of the way toward the joystick direction times `PlayerSpeed`, and no other velocity changes. |
| Game.GameScene.UpdateBotAI | MazeRumble/GameScene.swift:597-630 | Players 1 to 7 each get the bots' steering step toward the holder (if it is someone else) or the core, and player 0's velocity is untouched. |
| Game.GameScene.PickupCore | MazeRumble/GameScene.swift:645-662 | The possession becomes exactly `PickUp` for that player. |
| Game.GameScene.CheckCorePickup | MazeRumble/GameScene.swift:633-643 | With a holder nothing changes. Otherwise the first player in index order strictly within 40 of the core picks it up, and with nobody near nothing changes. |
| Game.GameScene.DropCore | MazeRumble/GameScene.swift:664-684 | The possession becomes exactly `Drop` from the holder's position, and the core lies exactly 80 from that player. |
| Game.GameScene.DidBegin | MazeRumble/GameScene.swift:853-876 | A contact is a hit exactly when there is a holder, both bodies are players, one of them is the holder, no final dash runs and the impulse exceeds 50. Then the possession takes one `Hit`, dropping the core on the third. Any other contact changes nothing. |
| Game.GameScene.CheckFinishGates | MazeRumble/GameScene.swift:733-742 | A holder strictly within 50 of any gate ends the match as its winner (unless it was already over). Otherwise, and for a finished match, nothing changes. |
| Game.GameScene.CheckFinalDash | MazeRumble/GameScene.swift:745-772 | The possession takes exactly one `FinalDash` step, where "near a gate" means strictly within 100 of some gate. |
| Game.GameScene.UpdateCoreAutoItems | MazeRumble/GameScene.swift:775-795 | The holder's item list and the item clock take one `AutoItem` step with the chosen item, and nobody else's items change. |
| Game.GameScene.StepClockAndMotion | MazeRumble/GameScene.swift:562-564 | The clock takes one `TimerStep`, and the match ends exactly when it reaches 0 (won by the holder if any). The velocities become exactly `SteeredVelocities`: player 0 steers toward the joystick, and each bot steers toward its target. The invariant holds. |
| Game.GameScene.StepHolderRules | MazeRumble/GameScene.swift:567-568 | The possession and the item lists become exactly `HolderRules`: one `FinalDash` step, then the holder's `AutoItem` step. |
| Game.GameScene.StepRules | MazeRumble/GameScene.swift:565-568 | A loose core goes to the first player within 40. A holder near a gate ends a running match as its winner, and a finished match stays finished with the same winner. The possession and the item lists become exactly `RulesStep` of the old ones. |
| Game.GameScene.RunFrame | MazeRumble/GameScene.swift:562-568 | A running frame. The clock takes one `TimerStep`, and its expiry makes the holder the winner. The velocities become `SteeredVelocities` of the frame's starting possession. The possession and the items become `RulesStep`. With time left, a holder near a gate wins, and otherwise the match goes on with no winner. |
| Game.GameScene.Update | MazeRumble/GameScene.swift:555-571 | One frame. The frame clock records the time, and the delta is 0 on the first frame after a reset. A finished match changes nothing else. Otherwise the clock runs down by the delta, its expiry makes the holder the winner, a loose core goes to the first player within 40, and a holder near a gate with time left wins. With time left and no holder near a gate, the match goes on with no winner. The velocities become `SteeredVelocities`, and the possession and the item lists become `RulesStep` of the old ones. |

## Left out

- Rendering and effects are not modelled: node construction, colours, glows, arrows, the final-dash
  effect, the banner label, `showMessage`, the item and player appearance, and the hiding spot's
  background colour. `Game.GameScene.winner` is the model's record of whom the game-over banner
  names.
- Touch and joystick decoding (`InputController`, the scene's touch handlers) is not modelled.
  `moveDirection` is a field that the joystick writes outside the model.
- The physics engine is not modelled. Player positions are a field it writes, and the contact's
  impulse and the two bodies are inputs to `DidBegin`. Velocities are written as the source
  writes them.
- Camera follow, clamping and UI layout are not modelled (presentation only).
- The delayed restart (an `SKAction` 3 seconds after game over or time-up) is not scheduled.
  `RestartGame` is an explicit operation that may be called exactly while the match is over.
- Randomness is not modelled. The drop angle becomes a unit vector parameter `dir`, and
  `randomElement` becomes an item `choice` from the three-item pool.
- The trigonometric spawn ring is not modelled. The eight spawn points are a constructor parameter.
- The scene's own `createGates` is not modelled separately: it uses the same formula as
  MapManager's, and the constructor states its result as `GateLayout`.
- Items and abilities are kept only as enumerations: push, tackle, dash and sprint, and stick,
  bomb, hook, gun and shield. No code that resolves their effects is part of this model.
  `ActionButton.isPointInside` depends on node coordinate conversion and is not modelled.
- `GameViewController.swift` is not part of this model.
- `CGFloat` and `TimeInterval` are modelled as exact reals, with no floating-point rounding.
  `Int(Double)` is modelled as truncation toward zero, without the trap on out-of-range values.
- The scene's `core` and every player's physics body are assumed to exist, so the guards on them
  are not modelled. In BotAI a missing body is modelled, since it is the skip case.
- Only the text of the labels is modelled. The scoreboard label and its shadow are both assigned
  the one value `ScoreText`, so they always agree.
- Game.GameScene.RunFrame, Game.GameScene.StepClockAndMotion, Game.GameScene.StepRules and
  Game.GameScene.StepHolderRules are not source functions. They group the steps of `update`'s body
  in the source's order: the whole running frame, its clock-and-steering half, its rules half,
  and the holder's part of the rules.
- Game.GameScene.StartRound keeps `finalDashUsed` as it was, because the source's `startRound`
  does not reset it (pickup does).
- Game.GameScene.DidBegin does not check whether the match is over, because the source does not.
- Game.GameScene.Update: a frame in which the clock runs out still runs the rest of its steps,
  because the source does the same. A pickup can still happen in that frame, and the gate win is
  then a no-op.
- PlayerStatus.Player.StartSprint overwrites a running sprint, because the source does.
- Hiding players are identified by player number rather than by object identity. The same holds in
  Bots: the holder is told apart from a bot by id (`holder !== bot` in the source). The two agree
  because ids are distinct and a `Holder` carries that player's own position.
