/**
 * The "m:ss" clock text that the player and the track cards print for a number of
 * seconds: `Math.floor(s / 60)`, a colon, and `Math.floor(s % 60)` padded to two
 * characters with '0'. JavaScript's `%` truncates toward zero, so it is written out.
 */
module Clock {
  import opened Base
  import opened Text

  /** `Math.trunc(x)`. */
  function Trunc(x: real): int {
    if x >= 0.0 then x.Floor else -((-x).Floor)
  }

  /** JavaScript's `x % m`: the remainder takes the sign of `x`. */
  function JsRem(x: real, m: real): real
    requires m != 0.0
  {
    x - m * (Trunc(x / m) as real)
  }

  /** `str.padStart(2, '0')`. */
  function PadStart2(s: string): (r: string)
    ensures |r| == if |s| >= 2 then |s| else 2
    ensures |s| >= 2 ==> r == s
    ensures |s| < 2 ==> r[2 - |s|..] == s && forall i :: 0 <= i < 2 - |s| ==> r[i] == '0'
  {
    if |s| >= 2 then s else if |s| == 1 then "0" + s else "00"
  }

  /** The minutes field. */
  function Minutes(s: real): int {
    (s / 60.0).Floor
  }

  /** The seconds field. */
  function Seconds(s: real): int {
    JsRem(s, 60.0).Floor
  }

  /**
   * The text both formatters produce for a known number of seconds. For a non-negative
   * time it ends in a colon and two digits, and reading it back gives the whole seconds.
   */
  function MinSecs(s: real): (r: string)
    ensures s >= 0.0 ==> |r| >= 4 && r[|r| - 3] == ':' && ReadClock(r) == Some(s.Floor)
  {
    var text := IntToString(Minutes(s)) + ":" + PadStart2(IntToString(Seconds(s)));
    if s >= 0.0 then
      ClockFields(s);
      var two := PadStart2(IntToString(Seconds(s)));
      TwoDigits(Seconds(s));
      assert text == NatToString(Minutes(s)) + (":" + two);
      ReadNatOfPrinted(Minutes(s), ":" + two);
      assert (":" + two)[1..] == two;
      text
    else
      text
  }

  /** For a non-negative time the seconds field lies in 0..59 and the two fields make up the whole seconds. */
  lemma ClockFields(s: real)
    requires s >= 0.0
    ensures Minutes(s) >= 0 && 0 <= Seconds(s) <= 59
    ensures Minutes(s) * 60 + Seconds(s) == s.Floor
  {
    var m := Minutes(s);
    assert (m as real) <= s / 60.0 < (m as real) + 1.0;
    assert 60.0 * (m as real) <= s < 60.0 * (m as real) + 60.0;
    assert Trunc(s / 60.0) == m;
    var r := JsRem(s, 60.0);
    assert r == s - 60.0 * (m as real);
    assert 0.0 <= r < 60.0;
    var k := r.Floor;
    assert (k as real) <= r < (k as real) + 1.0;
    assert ((m * 60 + k) as real) <= s < ((m * 60 + k) as real) + 1.0;
  }

  /** The two characters printed for a seconds field in 0..59. */
  lemma TwoDigits(k: int)
    requires 0 <= k <= 59
    ensures var t := PadStart2(IntToString(k));
      |t| == 2 && AllDigits(t) && DigitsValue(t) == k
  {
    var t := PadStart2(IntToString(k));
    NatToStringValue(k);
    if k < 10 {
      assert IntToString(k) == [DigitChar(k)];
      assert t == ['0', DigitChar(k)];
      assert t[..1] == ['0'];
    } else {
      assert IntToString(k) == NatToString(k / 10) + [DigitChar(k % 10)];
      assert NatToString(k / 10) == [DigitChar(k / 10)];
    }
  }

  /** Reads "m:ss" back as a number of seconds. */
  function ReadClock(text: string): Option<int> {
    match ReadNat(text)
    case None => None
    case Some((m, rest)) =>
      if |rest| == 3 && rest[0] == ':' && AllDigits(rest[1..]) then Some(m * 60 + DigitsValue(rest[1..]))
      else None
  }

  /**
   * For a non-negative time the clock text is the minutes, a colon and exactly two
   * digits, and reading it back gives the whole number of seconds.
   */
  lemma ClockRoundTrip(s: real)
    requires s >= 0.0
    ensures var t := MinSecs(s);
      && t == NatToString(Minutes(s)) + ":" + PadStart2(IntToString(Seconds(s)))
      && |PadStart2(IntToString(Seconds(s)))| == 2
      && ReadClock(t) == Some(s.Floor)
  {
    ClockFields(s);
    TwoDigits(Seconds(s));
  }


  /** The clock text of zero seconds. */
  lemma ZeroClock()
    ensures MinSecs(0.0) == "0:00"
  {
    assert Minutes(0.0) == 0;
    assert Seconds(0.0) == 0;
    assert IntToString(0) == "0";
  }
}
