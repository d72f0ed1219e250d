/**
 * Tuning constants of the game (MazeRumble/GameConfig.swift). GameScene.swift keeps private
 * copies of the same values; both are modelled by these constants.
 */
module GameConfig {
  // Core interactions
  const PickupDistance: real := 40.0
  const DropHitsRequired: int := 3
  const DropDistance: real := 80.0

  // Items granted to the core holder
  const ItemInterval: real := 8.0
  const MaxItemsPerPlayer: int := 3

  // Final dash
  const FinalDashTriggerDistance: real := 100.0
  const FinalDashDuration: real := 5.0
  const FinalDashSpeedMultiplier: real := 1.5

  // Gates
  const GateCount: int := 5
  const GateWinDistance: real := 50.0
  const GateWidth: real := 40.0
  const GateHeight: real := 80.0

  // Timing
  const GameTimeLimit: real := 120.0

  // Movement
  const PlayerMaxSpeed: real := 300.0
  const BotMaxSpeed: real := 220.0
  const AccelLerp: real := 0.25
  const BotAccelLerp: real := 0.18

  // Physics
  const DropImpulseThreshold: real := 50.0
}
