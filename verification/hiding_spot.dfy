/**
 * A hiding spot (MazeRumble/HidingSpot.swift): a disc that keeps the list of players inside it
 * and hides its icon while anyone is there. Players are identified by number.
 */
module Hiding {
  import opened Geometry

  /** No player occurs twice. */
  predicate NoDuplicates(s: seq<nat>)
  {
    forall i, j :: 0 <= i < j < |s| ==> s[i] != s[j]
  }

  /** `s` with every occurrence of `x` removed and the rest kept in order (`removeAll(where:)`). */
  function Without(s: seq<nat>, x: nat): (r: seq<nat>)
    ensures x !in r
    ensures multiset(r) == multiset(s)[x := 0]
    ensures x !in s ==> r == s
    decreases |s|
  {
    if s == [] then []
    else
      assert s == [s[0]] + s[1..];
      if s[0] == x then Without(s[1..], x) else [s[0]] + Without(s[1..], x)
  }

  /** Removing from a concatenation removes from each part. */
  lemma {:induction false} WithoutAppend(a: seq<nat>, b: seq<nat>, x: nat)
    ensures Without(a + b, x) == Without(a, x) + Without(b, x)
    decreases |a|
  {
    if a == [] {
      assert a + b == b;
    } else {
      assert (a + b)[0] == a[0] && (a + b)[1..] == a[1..] + b;
      WithoutAppend(a[1..], b, x);
    }
  }

  /**
   * In a list without duplicates, exit removes exactly the one slot holding the player, keeping
   * everyone else in order.
   */
  lemma WithoutRemovesSlot(s: seq<nat>, i: nat)
    requires NoDuplicates(s) && i < |s|
    ensures Without(s, s[i]) == s[..i] + s[i + 1..]
  {
    var x, pre, post := s[i], s[..i], s[i + 1..];
    OnlyOnce(s, i);
    var left := pre + [x];
    assert s == left + post;
    WithoutAppend(left, post, x);
    WithoutAppend(pre, [x], x);
    assert Without([x], x) == Without([], x);
  }

  /** In a list without duplicates, the element at slot i appears neither before nor after it. */
  lemma OnlyOnce(s: seq<nat>, i: nat)
    requires NoDuplicates(s) && i < |s|
    ensures s[i] !in s[..i] && s[i] !in s[i + 1..]
  {
    forall j | 0 <= j < i ensures s[..i][j] != s[i] {
      assert s[..i][j] == s[j];
    }
    var post := s[i + 1..];
    forall k | 0 <= k < |post| ensures post[k] != s[i] {
      assert post[k] == s[i + 1 + k];
    }
  }

  /** A player who enters and then leaves leaves the list as it was. */
  lemma EnterThenExit(s: seq<nat>, p: nat)
    requires p !in s
    ensures Without(s + [p], p) == s
  {
    WithoutAppend(s, [p], p);
  }

  class HidingSpot {
    const position: Vec
    const radius: real
    var hiddenPlayers: seq<nat>
    var iconAlpha: real

    /** Nobody is listed twice, and the icon shows (alpha 1) exactly when nobody is inside. */
    ghost predicate Valid()
      reads this
    {
      NoDuplicates(hiddenPlayers) && iconAlpha == (if hiddenPlayers == [] then 1.0 else 0.0)
    }

    constructor(position: Vec, radius: real)
      ensures Valid()
      ensures this.position == position && this.radius == radius
      ensures hiddenPlayers == [] && iconAlpha == 1.0
    {
      this.position := position;
      this.radius := radius;
      hiddenPlayers := [];
      iconAlpha := 1.0;
    }

    /** Whether a player standing at `p` is inside: strictly closer than the radius. */
    function ContainsPlayer(p: Vec, hypot: (real, real) -> real): (r: bool)
      requires IsHypot(hypot)
      ensures r <==> Within(p, position, radius)
    {
      WithinIsHypotLess(hypot, p, position, radius);
      hypot(p.x - position.x, p.y - position.y) < radius
    }

    /** The icon follows occupancy (`updateVisuals`). */
    method UpdateVisuals()
      requires NoDuplicates(hiddenPlayers)
      modifies this`iconAlpha
      ensures Valid()
    {
      if hiddenPlayers == [] {
        iconAlpha := 1.0;
      } else {
        iconAlpha := 0.0;
      }
    }

    /** Adds a player not yet inside; a player already inside changes nothing. */
    method PlayerEnter(player: nat)
      requires Valid()
      modifies this`hiddenPlayers, this`iconAlpha
      ensures Valid()
      ensures hiddenPlayers == if player in old(hiddenPlayers) then old(hiddenPlayers) else old(hiddenPlayers) + [player]
      ensures player in hiddenPlayers && iconAlpha == 0.0
    {
      if player in hiddenPlayers {
        return;
      }
      hiddenPlayers := hiddenPlayers + [player];
      UpdateVisuals();
    }

    /** Removes the player, keeping everyone else in order. */
    method PlayerExit(player: nat)
      requires Valid()
      modifies this`hiddenPlayers, this`iconAlpha
      ensures Valid()
      ensures hiddenPlayers == Without(old(hiddenPlayers), player)
      ensures player !in hiddenPlayers
    {
      WithoutKeepsNoDuplicates(hiddenPlayers, player);
      hiddenPlayers := Without(hiddenPlayers, player);
      UpdateVisuals();
    }

    method Reset()
      requires Valid()
      modifies this`hiddenPlayers, this`iconAlpha
      ensures Valid()
      ensures hiddenPlayers == [] && iconAlpha == 1.0
    {
      hiddenPlayers := [];
      UpdateVisuals();
    }
  }

  /** Removing a player cannot create duplicates. */
  lemma {:induction false} WithoutKeepsNoDuplicates(s: seq<nat>, x: nat)
    requires NoDuplicates(s)
    ensures NoDuplicates(Without(s, x))
    decreases |s|
  {
    if s != [] {
      var rest := s[1..];
      assert NoDuplicates(rest) by {
        forall i, j | 0 <= i < j < |rest| ensures rest[i] != rest[j] {
          assert rest[i] == s[i + 1] && rest[j] == s[j + 1];
        }
      }
      WithoutKeepsNoDuplicates(rest, x);
      if s[0] != x {
        var w := Without(rest, x);
        assert s[0] !in rest by {
          forall j | 0 <= j < |rest| ensures rest[j] != s[0] {
            assert rest[j] == s[j + 1];
          }
        }
        assert s[0] !in multiset(w);
        assert s[0] !in w;
      }
    }
  }
}
