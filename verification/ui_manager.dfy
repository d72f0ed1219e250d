/**
 * The text of the heads-up display (MazeRumble/UIManager.swift): the "MM:SS" round timer and the
 * scoreboard line naming the core holder and how often it has been hit. Only the strings are
 * modelled; the label nodes that show them are not.
 */
module UI {
  import opened Optional
  import opened GameConfig

  function DigitChar(d: nat): (c: char)
    requires d < 10
    ensures '0' <= c <= '9'
  {
    "0123456789"[d]
  }

  function DigitValue(c: char): nat
  {
    if '0' <= c <= '9' then (c as int - '0' as int) as nat else 0
  }

  /** The decimal spelling of n, most significant digit first, without leading zeros. */
  function Digits(n: nat): (s: string)
    ensures 1 <= |s|
    ensures forall i :: 0 <= i < |s| ==> '0' <= s[i] <= '9'
    ensures n >= 10 ==> s[0] != '0'
    decreases n
  {
    if n < 10 then [DigitChar(n)] else Digits(n / 10) + [DigitChar(n % 10)]
  }

  /** Reads a string of decimal digits back as a number. */
  function ParseDigits(s: string): nat
    decreases |s|
  {
    if s == [] then 0 else ParseDigits(s[..|s| - 1]) * 10 + DigitValue(s[|s| - 1])
  }

  /** Reading the spelling of n gives n back, so different numbers have different spellings. */
  lemma {:induction false} DigitsRoundTrip(n: nat)
    ensures ParseDigits(Digits(n)) == n
    decreases n
  {
    var s := Digits(n);
    if n < 10 {
      assert DigitValue(DigitChar(n)) == n;
      assert s[..0] == [];
    } else {
      DigitsRoundTrip(n / 10);
      assert s[..|s| - 1] == Digits(n / 10);
      assert DigitValue(DigitChar(n % 10)) == n % 10;
    }
  }

  lemma DigitsInjective(m: nat, n: nat)
    requires Digits(m) == Digits(n)
    ensures m == n
  {
    DigitsRoundTrip(m);
    DigitsRoundTrip(n);
  }

  /** Swift's string interpolation of an Int: a minus sign before negative numbers. */
  function IntText(n: int): (s: string)
  {
    if n >= 0 then Digits(n) else "-" + Digits(-n)
  }

  /** `String(format: "%02d", n)`: zero-padded to two characters when non-negative and below 10. */
  function Pad2(n: int): (s: string)
  {
    if 0 <= n < 10 then "0" + Digits(n) else IntText(n)
  }

  /** Between 0 and 99 the padded text is exactly the two digits of n. */
  lemma Pad2TwoDigits(n: int)
    requires 0 <= n < 100
    ensures Pad2(n) == [DigitChar(n / 10), DigitChar(n % 10)]
    ensures |Pad2(n)| == 2 && ParseDigits(Pad2(n)) == n
  {
    if n >= 10 {
      assert Digits(n / 10) == [DigitChar(n / 10)];
    }
    ParseTwoDigits(n / 10, n % 10);
  }

  /** Two digit characters read back as the two-digit number. */
  lemma ParseTwoDigits(a: nat, b: nat)
    requires a < 10 && b < 10
    ensures ParseDigits([DigitChar(a), DigitChar(b)]) == 10 * a + b
  {
    var s := [DigitChar(a), DigitChar(b)];
    assert s[..1] == [DigitChar(a)];
    assert s[..1][..0] == [];
    assert DigitValue(DigitChar(a)) == a;
    assert DigitValue(DigitChar(b)) == b;
    assert ParseDigits(s[..1]) == a;
  }

  /** `Int(x)` on a Double: the integer part, rounding toward zero. */
  function Trunc(x: real): (n: int)
    ensures x >= 0.0 ==> n as real <= x < n as real + 1.0
    ensures x < 0.0 ==> n as real - 1.0 < x <= n as real
  {
    if x >= 0.0 then x.Floor else -((-x).Floor)
  }

  /** Swift's Int `/`, which truncates toward zero. */
  function SwiftDiv(a: int, b: int): int
    requires b > 0
  {
    if a >= 0 then a / b else -((-a) / b)
  }

  /** Swift's Int `%`, whose result takes the sign of the dividend. */
  function SwiftRem(a: int, b: int): int
    requires b > 0
  {
    if a >= 0 then a % b else -((-a) % b)
  }

  /** The round timer as `updateTimerLabel` formats it. */
  function TimerText(roundTimeRemaining: real): string
  {
    var total := Trunc(roundTimeRemaining);
    Pad2(SwiftDiv(total, 60)) + ":" + Pad2(SwiftRem(total, 60))
  }

  /**
   * For a remaining time below 100 minutes the timer reads "MM:SS": five characters with a colon
   * in the middle, the seconds field below 60, and the two fields together giving back the whole
   * seconds left.
   */
  lemma TimerTextFields(t: real)
    requires 0.0 <= t < 6000.0
    ensures var text := TimerText(t);
      && |text| == 5 && text[2] == ':'
      && ParseDigits(text[3..]) < 60
      && ParseDigits(text[..2]) * 60 + ParseDigits(text[3..]) == Trunc(t)
  {
    var total := Trunc(t);
    assert 0 <= total < 6000;
    var m := total / 60;
    var s := total % 60;
    assert SwiftDiv(total, 60) == m && SwiftRem(total, 60) == s;
    assert m < 100;
    Pad2TwoDigits(m);
    Pad2TwoDigits(s);
    Colon(Pad2(m), Pad2(s));
  }

  /** Two two-character fields joined by a colon can be read back field by field. */
  lemma Colon(a: string, b: string)
    requires |a| == 2 && |b| == 2
    ensures var text := a + ":" + b;
      |text| == 5 && text[2] == ':' && text[..2] == a && text[3..] == b
  {
  }

  /** The full round starts as "02:00". */
  lemma TimerTextAtStart()
    ensures TimerText(GameTimeLimit) == "02:00"
  {
    assert Trunc(120.0) == 120;
    Pad2TwoDigits(2);
    Pad2TwoDigits(0);
  }

  /** The first position of `x` in `s` (`firstIndex(of:)`), if any. */
  function FirstIndex(s: seq<nat>, x: nat): (r: Option<nat>)
    ensures r.None? <==> x !in s
    ensures r.Some? ==> r.value < |s| && s[r.value] == x && x !in s[..r.value]
    decreases |s|
  {
    if s == [] then None
    else if s[0] == x then Some(0)
    else
      match FirstIndex(s[1..], x)
      case None => None
      case Some(i) =>
        assert s[..i + 1] == [s[0]] + s[1..][..i];
        Some(i + 1)
  }

  /** Where the holder stands in the player list, if there is a holder and it is listed. */
  function HolderSlot(coreHolder: Option<nat>, players: seq<nat>): Option<nat>
  {
    match coreHolder
    case None => None
    case Some(h) => FirstIndex(players, h)
  }

  const NoHolderText: string := "核心未被拾取"

  /** The hit counter shown after the holder: " (被打k/3次)". */
  function HitsText(coreHitCount: int): string
  {
    " (被打" + IntText(coreHitCount) + "/" + IntText(DropHitsRequired) + "次)"
  }

  /** The line for the holder in slot idx: "你持有核心…" for slot 0, "Bot{idx}持有核心…" otherwise. */
  function HolderLine(idx: nat, coreHitCount: int): (s: string)
    ensures |s| > 0 && s[0] == if idx == 0 then '你' else 'B'
  {
    if idx == 0 then "你持有核心" + HitsText(coreHitCount)
    else "Bot" + Digits(idx) + HoldsText(coreHitCount)
  }

  function HoldsText(coreHitCount: int): string
  {
    "持有核心" + HitsText(coreHitCount)
  }

  /** The scoreboard line: who holds the core (you, or Bot i) and how often it has been hit of three. */
  function ScoreText(coreHolder: Option<nat>, players: seq<nat>, coreHitCount: int): string
  {
    match HolderSlot(coreHolder, players)
    case None => NoHolderText
    case Some(idx) => HolderLine(idx, coreHitCount)
  }

  /**
   * The scoreboard shows the no-holder text exactly when nobody holds the core or the holder is not
   * in the list; otherwise it starts with "你" when the holder is player 0 and with "Bot" otherwise.
   */
  lemma ScoreTextCases(coreHolder: Option<nat>, players: seq<nat>, k: int)
    ensures ScoreText(coreHolder, players, k) == NoHolderText <==> coreHolder.None? || coreHolder.value !in players
    ensures coreHolder.Some? && |players| > 0 && players[0] == coreHolder.value ==>
              ScoreText(coreHolder, players, k)[0] == '你'
    ensures coreHolder.Some? && coreHolder.value in players && players[0] != coreHolder.value ==>
              ScoreText(coreHolder, players, k)[..3] == "Bot"
  {
    assert NoHolderText[0] == '核';
  }

  /** A Bot line names its slot: equal lines with the same tail have equal numbers. */
  lemma BotLineInjective(i: nat, j: nat, tail: string)
    requires "Bot" + Digits(i) + tail == "Bot" + Digits(j) + tail
    ensures i == j
  {
    CancelTail("Bot" + Digits(i), "Bot" + Digits(j), tail);
    CancelHead("Bot", Digits(i), Digits(j));
    DigitsInjective(i, j);
  }

  /** A common suffix can be cancelled. */
  lemma CancelTail<T>(a: seq<T>, b: seq<T>, t: seq<T>)
    requires a + t == b + t
    ensures a == b
  {
    assert a == (a + t)[..|a|];
    assert b == (b + t)[..|b|];
  }

  /** A common prefix can be cancelled. */
  lemma CancelHead<T>(p: seq<T>, a: seq<T>, b: seq<T>)
    requires p + a == p + b
    ensures a == b
  {
    assert a == (p + a)[|p|..];
    assert b == (p + b)[|p|..];
  }

  /** Different slots give different holder lines. */
  lemma HolderLineInjective(i: nat, j: nat, k: int)
    requires HolderLine(i, k) == HolderLine(j, k)
    ensures i == j
  {
    if i != 0 && j != 0 {
      BotLineInjective(i, j, HoldsText(k));
    }
  }

  /** Two holders in different slots are always shown with different scoreboard lines. */
  lemma ScoreTextNamesTheSlot(h1: Option<nat>, h2: Option<nat>, players: seq<nat>, k: int)
    requires ScoreText(h1, players, k) == ScoreText(h2, players, k)
    ensures HolderSlot(h1, players) == HolderSlot(h2, players)
  {
    assert NoHolderText[0] == '核';
    var s1 := HolderSlot(h1, players);
    var s2 := HolderSlot(h2, players);
    if s1.Some? && s2.Some? {
      HolderLineInjective(s1.value, s2.value, k);
    }
  }
}
