/**
 * Frame-driven countdowns. The sprint timer and the shield timer of a Player and the cooldown of
 * an ActionButton all have the same shape: a flag with a remaining time that each frame lowers by
 * the frame delta while the flag is set, and that switches the flag off, clamped to 0, once the
 * remainder reaches 0 or less.
 */
module Timers {

  datatype Countdown = Countdown(active: bool, remaining: real)

  /** One frame of `dt` seconds. */
  function Tick(c: Countdown, dt: real): Countdown
  {
    if !c.active then c
    else if c.remaining - dt <= 0.0 then Countdown(false, 0.0)
    else Countdown(true, c.remaining - dt)
  }

  /** The state after the frames `dts`, in order. */
  function Ticks(c: Countdown, dts: seq<real>): Countdown
    decreases |dts|
  {
    if dts == [] then c else Ticks(Tick(c, dts[0]), dts[1..])
  }

  /** Total time covered by a sequence of frame deltas. */
  function Elapsed(dts: seq<real>): real
    decreases |dts|
  {
    if dts == [] then 0.0 else dts[0] + Elapsed(dts[1..])
  }

  /** Frame deltas of a clock that never runs backwards. */
  predicate NonNegative(dts: seq<real>)
  {
    forall i :: 0 <= i < |dts| ==> dts[i] >= 0.0
  }

  lemma {:induction false} ElapsedNonNegative(dts: seq<real>)
    requires NonNegative(dts)
    ensures Elapsed(dts) >= 0.0
  {
    if dts != [] {
      assert NonNegative(dts[1..]) by {
        forall i | 0 <= i < |dts| - 1 ensures dts[1..][i] >= 0.0 {
          assert dts[1..][i] == dts[i + 1];
        }
      }
      ElapsedNonNegative(dts[1..]);
    }
  }

  /** An inactive countdown is left alone by every frame. */
  lemma {:induction false} InactiveStays(c: Countdown, dts: seq<real>)
    requires !c.active
    ensures Ticks(c, dts) == c
  {
    if dts != [] {
      InactiveStays(c, dts[1..]);
    }
  }

  /**
   * A countdown started with duration d > 0 is still active, with d minus the elapsed time left,
   * while the elapsed time is below d, and is off with 0 left once the elapsed time reaches d.
   */
  lemma {:induction false} CountdownExpiry(d: real, dts: seq<real>)
    requires d > 0.0 && NonNegative(dts)
    ensures Elapsed(dts) < d ==> Ticks(Countdown(true, d), dts) == Countdown(true, d - Elapsed(dts))
    ensures Elapsed(dts) >= d ==> Ticks(Countdown(true, d), dts) == Countdown(false, 0.0)
    decreases |dts|
  {
    if dts != [] {
      var rest := dts[1..];
      assert NonNegative(rest) by {
        forall i | 0 <= i < |rest| ensures rest[i] >= 0.0 {
          assert rest[i] == dts[i + 1];
        }
      }
      ElapsedNonNegative(rest);
      if d - dts[0] <= 0.0 {
        InactiveStays(Countdown(false, 0.0), rest);
      } else {
        CountdownExpiry(d - dts[0], rest);
      }
    }
  }
}
