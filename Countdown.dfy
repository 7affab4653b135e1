/**
 * The editable clock of the countdown panel: the three text inputs, the
 * target duration they commit to, and the selected favourite that a manual
 * edit clears.
 */
module Countdown {
  import opened Common
  import opened Clock

  /** `value.replace(/\D/g, "")`: the decimal digits of `value`, in order. */
  function KeepDigits(value: string): (r: string)
    ensures |r| <= |value|
    ensures forall i :: 0 <= i < |r| ==> IsDigit(r[i])
    ensures (forall i :: 0 <= i < |value| ==> IsDigit(value[i])) ==> r == value
  {
    if value == [] then []
    else (if IsDigit(value[0]) then [value[0]] else []) + KeepDigits(value[1..])
  }

  /** `KeepDigits` of a list with a known head. */
  lemma KeepDigitsCons(x: char, t: seq<char>)
    ensures KeepDigits([x] + t) == (if IsDigit(x) then [x] else []) + KeepDigits(t)
  {
    assert ([x] + t)[0] == x && ([x] + t)[1..] == t;
  }

  /** The digits are kept in order: the filter distributes over concatenation. */
  lemma {:induction false} KeepDigitsConcat(a: seq<char>, b: seq<char>)
    ensures KeepDigits(a + b) == KeepDigits(a) + KeepDigits(b)
  {
    if a == [] {
      assert a + b == b;
    } else {
      var t := a[1..];
      var h := if IsDigit(a[0]) then [a[0]] else [];
      calc {
        KeepDigits(a + b);
        { HeadTail(a, b); }
        KeepDigits([a[0]] + (t + b));
        { KeepDigitsCons(a[0], t + b); }
        h + KeepDigits(t + b);
        { KeepDigitsConcat(t, b); }
        h + (KeepDigits(t) + KeepDigits(b));
        { AppendAssoc(h, KeepDigits(t), KeepDigits(b)); }
        (h + KeepDigits(t)) + KeepDigits(b);
        { KeepDigitsCons(a[0], t); }
        KeepDigits(a) + KeepDigits(b);
      }
    }
  }

  /** A one-element list keeps its element exactly when it passes the test. */
  lemma KeepDigitsSingleton(x: char)
    ensures KeepDigits([x]) == (if IsDigit(x) then [x] else [])
  {
    KeepDigitsCons(x, []);
    assert [x] + [] == [x];
  }

  /** `parseClockNumber(value)`: the number the digits spell, 0 when there are none. */
  function ParseClockNumber(value: string): (r: nat)
    ensures KeepDigits(value) == [] ==> r == 0
    ensures KeepDigits(value) != [] ==> r == DigitsValue(KeepDigits(value))
  {
    var trimmed := KeepDigits(value);
    if trimmed == [] then 0 else Max(0, DigitsValue(trimmed))
  }

  /** The duration `commitClockInputs` computes from the three input strings. */
  function CommittedDuration(hours: string, minutes: string, seconds: string): (r: nat)
    ensures r == ParseClockNumber(hours) * 3600 + ParseClockNumber(minutes) * 60 + ParseClockNumber(seconds)
  {
    Max(0, ParseClockNumber(hours) * 3600 + ParseClockNumber(minutes) * 60 + ParseClockNumber(seconds))
  }

  /** A zero-padded numeral parses back to its number. */
  lemma ParsePadded(n: nat)
    ensures ParseClockNumber(Pad2(NatToString(n))) == n
  {
    Pad2Value(n);
  }

  /** Committing what `updateClockInputs` wrote for a non-negative total gives that total back. */
  lemma CommitOfRendered(total: nat)
    ensures var r := SecondsToHMS(total);
      CommittedDuration(Pad2(IntToString(r.hours)), Pad2(IntToString(r.minutes)), Pad2(IntToString(r.secs))) == total
  {
    var r := SecondsToHMS(total);
    ParsePadded(r.hours);
    ParsePadded(r.minutes);
    ParsePadded(r.secs);
  }

  class CountdownClock {
    var targetDuration: int
    var selectedFavoriteId: Option<string>
    var hoursInput: string
    var minutesInput: string
    var secondsInput: string

    constructor (targetDuration: int)
      ensures this.targetDuration == targetDuration && selectedFavoriteId == None
      ensures hoursInput == "" && minutesInput == "" && secondsInput == ""
    {
      this.targetDuration := targetDuration;
      selectedFavoriteId := None;
      hoursInput, minutesInput, secondsInput := "", "", "";
    }

    /** `updateClockInputs(total)`: each input shows its part padded to two digits. */
    method UpdateClockInputs(total: int)
      modifies this`hoursInput, this`minutesInput, this`secondsInput
      ensures var r := SecondsToHMS(total);
        hoursInput == Pad2(IntToString(r.hours)) && minutesInput == Pad2(IntToString(r.minutes))
        && secondsInput == Pad2(IntToString(r.secs))
    {
      var r := SecondsToHMS(total);
      hoursInput := Pad2(IntToString(r.hours));
      minutesInput := Pad2(IntToString(r.minutes));
      secondsInput := Pad2(IntToString(r.secs));
    }

    /**
     * `commitClockInputs()`: the target becomes the (never negative) duration the
     * inputs spell, the favourite selection is cleared, and the inputs are rewritten
     * in normal form, so that committing again changes nothing.
     */
    method CommitClockInputs()
      modifies this
      ensures targetDuration == CommittedDuration(old(hoursInput), old(minutesInput), old(secondsInput))
      ensures targetDuration >= 0
      ensures selectedFavoriteId == None
      ensures var r := SecondsToHMS(targetDuration);
        hoursInput == Pad2(IntToString(r.hours)) && minutesInput == Pad2(IntToString(r.minutes))
        && secondsInput == Pad2(IntToString(r.secs))
      ensures CommittedDuration(hoursInput, minutesInput, secondsInput) == targetDuration
    {
      ghost var committed := CommittedDuration(hoursInput, minutesInput, secondsInput);
      var hours := ParseClockNumber(hoursInput);
      var minutes := ParseClockNumber(minutesInput);
      var seconds := ParseClockNumber(secondsInput);
      var nextDuration := Max(0, hours * 3600 + minutes * 60 + seconds);
      assert nextDuration == committed;
      CommitOfRendered(nextDuration);
      targetDuration := nextDuration;
      selectedFavoriteId := None;
      UpdateClockInputs(targetDuration);
    }
  }
}
