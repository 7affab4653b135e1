/**
 * The hours/minutes/seconds decomposition written out in three places
 * (`secondsToHMS` of the countdown, `formatTime`, `TimeEntry.formattedDuration`),
 * with JavaScript's `Math.floor` and truncating `%`, the zero-padded
 * `HH:MM:SS` rendering, and `String.prototype.split` on one character.
 */
module Clock {
  import opened Common

  /** JavaScript `a % b` for `b > 0`: the remainder takes the sign of `a`. */
  function JsRem(a: int, b: int): (r: int)
    requires b > 0
    ensures a >= 0 ==> 0 <= r < b && r == a % b
    ensures a < 0 ==> -b < r <= 0 && r == -((-a) % b)
  {
    if a >= 0 then a % b else -((-a) % b)
  }

  datatype Hms = Hms(hours: int, minutes: int, secs: int)

  /**
   * `{ hours: Math.floor(t / 3600), minutes: Math.floor((t % 3600) / 60), secs: t % 60 }`;
   * for an integer `t` and a positive divisor, `Math.floor(a / b)` is Dafny's `a / b`.
   */
  function SecondsToHMS(t: int): (r: Hms)
    ensures t >= 0 ==> r.hours * 3600 + r.minutes * 60 + r.secs == t
    ensures t >= 0 ==> r.hours >= 0 && 0 <= r.minutes < 60 && 0 <= r.secs < 60
  {
    Hms(t / 3600, JsRem(t, 3600) / 60, JsRem(t, 60))
  }

  /** A negative total does not recombine: `-5` becomes `-1` hours, `-1` minutes, `-5` seconds. */
  lemma NegativeDoesNotRecombine()
    ensures SecondsToHMS(-5) == Hms(-1, -1, -5)
    ensures var r := SecondsToHMS(-5); r.hours * 3600 + r.minutes * 60 + r.secs != -5
  {
  }

  /** `${pad(h)}:${pad(m)}:${pad(s)}` with `pad = (n) => String(n).padStart(2, "0")`. */
  function RenderHMS(r: Hms): string {
    Pad2(IntToString(r.hours)) + ":" + Pad2(IntToString(r.minutes)) + ":" + Pad2(IntToString(r.secs))
  }

  // ---------------------------------------------------------------------
  // `String.prototype.split` on a one-character separator

  /** `s.split(sep)`: the pieces between occurrences of `sep`, at least one. */
  function Split(s: string, sep: char): (r: seq<string>)
    ensures |r| >= 1
    ensures forall k :: 0 <= k < |r| ==> sep !in r[k]
  {
    if s == [] then [""]
    else
      var rest := Split(s[1..], sep);
      if s[0] == sep then [""] + rest
      else [[s[0]] + rest[0]] + rest[1..]
  }

  lemma {:induction false} SplitNoSep(a: string, sep: char)
    requires sep !in a
    ensures Split(a, sep) == [a]
  {
    if a != [] {
      SplitNoSep(a[1..], sep);
      assert [a[0]] + a[1..] == a;
    }
  }

  /** A piece free of the separator, followed by the separator, splits off as the first piece. */
  lemma {:induction false} SplitCons(a: string, sep: char, b: string)
    requires sep !in a
    ensures Split(a + [sep] + b, sep) == [a] + Split(b, sep)
  {
    var s := a + [sep] + b;
    if a == [] {
      assert s[1..] == b;
    } else {
      assert s[1..] == a[1..] + [sep] + b;
      SplitCons(a[1..], sep, b);
      assert [a[0]] + a[1..] == a;
    }
  }

  /** `ls.join(sep)` for a one-character separator. */
  function Join(ls: seq<string>, sep: char): string {
    if ls == [] then "" else if |ls| == 1 then ls[0] else ls[0] + [sep] + Join(ls[1..], sep)
  }

  /** Pieces free of the separator, joined, split back into themselves. */
  lemma {:induction false} SplitJoin(ls: seq<string>, sep: char)
    requires ls != []
    requires forall k :: 0 <= k < |ls| ==> sep !in ls[k]
    ensures Split(Join(ls, sep), sep) == ls
  {
    if |ls| == 1 {
      SplitNoSep(ls[0], sep);
    } else {
      SplitJoin(ls[1..], sep);
      SplitCons(ls[0], sep, Join(ls[1..], sep));
    }
  }

  lemma DigitsHaveNoColon(s: string)
    requires forall i :: 0 <= i < |s| ==> IsDigit(s[i])
    ensures ':' !in s
  {
  }

  lemma PaddedHasNoColon(n: nat)
    ensures ':' !in Pad2(NatToString(n))
  {
    Pad2Value(n);
    DigitsHaveNoColon(Pad2(NatToString(n)));
  }

  /** Splitting a rendering of non-negative parts on ":" gives back the three padded numerals. */
  lemma SplitRenderHMS(r: Hms)
    requires r.hours >= 0 && r.minutes >= 0 && r.secs >= 0
    ensures Split(RenderHMS(r), ':')
         == [Pad2(NatToString(r.hours)), Pad2(NatToString(r.minutes)), Pad2(NatToString(r.secs))]
  {
    var h, m, s := Pad2(NatToString(r.hours)), Pad2(NatToString(r.minutes)), Pad2(NatToString(r.secs));
    PaddedHasNoColon(r.hours);
    PaddedHasNoColon(r.minutes);
    PaddedHasNoColon(r.secs);
    assert IntToString(r.hours) == NatToString(r.hours);
    assert IntToString(r.minutes) == NatToString(r.minutes);
    assert IntToString(r.secs) == NatToString(r.secs);
    assert RenderHMS(r) == h + ":" + m + ":" + s;
    assert h + ":" + m + ":" + s == h + [':'] + (m + [':'] + s);
    SplitCons(h, ':', m + [':'] + s);
    SplitCons(m, ':', s);
    SplitNoSep(s, ':');
  }

  /**
   * The `HH:MM:SS` rendering of a non-negative total has three fields of at least
   * two decimal digits, minutes and seconds below 60, that recombine to the total.
   */
  lemma RenderHMSReadsBack(t: nat)
    ensures var parts := Split(RenderHMS(SecondsToHMS(t)), ':');
      |parts| == 3
      && (forall k, i :: 0 <= k < 3 && 0 <= i < |parts[k]| ==> IsDigit(parts[k][i]))
      && |parts[0]| >= 2 && |parts[1]| == 2 && |parts[2]| == 2
      && DigitsValue(parts[0]) * 3600 + DigitsValue(parts[1]) * 60 + DigitsValue(parts[2]) == t
      && DigitsValue(parts[1]) < 60 && DigitsValue(parts[2]) < 60
  {
    var r := SecondsToHMS(t);
    SplitRenderHMS(r);
    Pad2Value(r.hours);
    Pad2Value(r.minutes);
    Pad2Value(r.secs);
    NatToStringShort(r.minutes);
    NatToStringShort(r.secs);
  }

  lemma NatToStringShort(n: nat)
    requires n < 60
    ensures |NatToString(n)| <= 2
  {
    if n >= 10 {
      assert NatToString(n) == NatToString(n / 10) + [DigitChar(n % 10)];
    }
  }
}
