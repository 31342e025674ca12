/**
 * The two pieces of text logic in the track grid's UI manager (frontend/js/ui.js): the
 * duration shown on a card and the "<filtered> / <total> tracks" count label.
 */
module Ui {
  import opened Base
  import opened Text
  import opened Clock
  import Player

  /** JavaScript truthiness of a duration: 0 and NaN (None here) are falsy. */
  predicate Truthy(seconds: Option<real>) {
    seconds.Some? && seconds.value != 0.0
  }

  /** `formatDuration`: '0:00' for a falsy duration, otherwise the "m:ss" text. */
  function FormatDuration(seconds: Option<real>): (r: string)
    ensures !Truthy(seconds) ==> r == "0:00"
    ensures Truthy(seconds) && seconds.value >= 0.0 ==> ReadClock(r) == Some(seconds.value.Floor)
  {
    if !Truthy(seconds) then "0:00"
    else
      if seconds.value >= 0.0 then ClockRoundTrip(seconds.value); MinSecs(seconds.value)
      else MinSecs(seconds.value)
  }

  /**
   * The falsy guard of `formatDuration` only short-cuts: the card's duration text is the
   * same as the player's `formatTime` text for every input, 0 included.
   */
  lemma FormatDurationAgrees(seconds: Option<real>)
    ensures FormatDuration(seconds) == Player.FormatTime(seconds)
  {
    if seconds == Some(0.0) {
      ZeroClock();
    }
  }

  /** Reads the two counts back out of a label. */
  function ReadCountLabel(text: string): Option<(nat, nat)> {
    match ReadNat(text)
    case None => None
    case Some((filtered, rest)) =>
      if |rest| < 3 || rest[..3] != " / " then None
      else
        match ReadNat(rest[3..])
        case None => None
        case Some((total, tail)) => if tail == " tracks" then Some((filtered, total)) else None
  }

  /** How ReadCountLabel takes a label apart, one numeral at a time. */
  lemma ReadCountLabelSteps(text: string, filtered: nat, total: nat, tail: string)
    requires ReadNat(text) == Some((filtered, " / " + tail))
    requires ReadNat(tail) == Some((total, " tracks"))
    ensures ReadCountLabel(text) == Some((filtered, total))
  {
    var rest := " / " + tail;
    assert rest[..3] == " / " && rest[3..] == tail;
  }

  /**
   * The count label of `updateFilterCount`: it names the filtered count first and the
   * total second, and both can be read back.
   */
  function CountLabel(total: int, filtered: int): (r: string)
    ensures total >= 0 && filtered >= 0 ==> ReadCountLabel(r) == Some((filtered, total))
  {
    var text := IntToString(filtered) + " / " + IntToString(total) + " tracks";
    if total >= 0 && filtered >= 0 then
      var tail := NatToString(total) + " tracks";
      assert text == NatToString(filtered) + (" / " + tail);
      ReadNatOfPrinted(filtered, " / " + tail);
      ReadNatOfPrinted(total, " tracks");
      ReadCountLabelSteps(text, filtered, total, tail);
      text
    else
      text
  }
}
