/**
 * The time formatters of js/utils/time.js. A JavaScript number argument is a
 * `real`; `None` stands for the falsy values (`undefined`, `null`, `NaN`) that
 * `seconds || 0` replaces by 0.
 */
module TimeUtils {
  import opened Common
  import opened Clock

  /** `seconds || 0` */
  function OrZero(seconds: Option<real>): real {
    if seconds.Some? then seconds.value else 0.0
  }

  /** `Math.round(x)`: the nearest integer, halves rounded up. */
  function JsRound(x: real): (r: int)
    ensures x - 0.5 < r as real <= x + 0.5
  {
    (x + 0.5).Floor
  }

  /** `Math.max(0, Math.floor(seconds || 0))` */
  function WholeSeconds(seconds: Option<real>): (s: nat)
    ensures s as real <= Max(0, OrZero(seconds).Floor) as real
    ensures OrZero(seconds) >= 0.0 ==> s as real <= OrZero(seconds) < s as real + 1.0
    ensures OrZero(seconds) < 1.0 ==> s == 0
  {
    Max(0, OrZero(seconds).Floor)
  }

  /** `formatTime(seconds)`: `HH:MM:SS` of the clamped whole seconds. */
  function FormatTime(seconds: Option<real>): string {
    RenderHMS(SecondsToHMS(WholeSeconds(seconds)))
  }

  /**
   * The three fields of `formatTime` are at least two decimal digits each, minutes
   * and seconds are below 60, and together they give back the clamped whole seconds.
   */
  lemma FormatTimeFields(seconds: Option<real>)
    ensures var parts := Split(FormatTime(seconds), ':');
      |parts| == 3
      && (forall k, i :: 0 <= k < 3 && 0 <= i < |parts[k]| ==> IsDigit(parts[k][i]))
      && |parts[0]| >= 2 && |parts[1]| == 2 && |parts[2]| == 2
      && DigitsValue(parts[0]) * 3600 + DigitsValue(parts[1]) * 60 + DigitsValue(parts[2]) == WholeSeconds(seconds)
      && DigitsValue(parts[1]) < 60 && DigitsValue(parts[2]) < 60
  {
    RenderHMSReadsBack(WholeSeconds(seconds));
  }

  /** A negative or missing argument formats as zero. */
  lemma FormatTimeNegative(seconds: Option<real>)
    requires OrZero(seconds) < 0.0
    ensures FormatTime(seconds) == "00:00:00"
  {
    assert WholeSeconds(seconds) == 0;
    assert SecondsToHMS(0) == Hms(0, 0, 0);
  }

  datatype TimeUnit = Seconds | Minutes

  /** The number and unit `formatDurationLabel` reports. */
  datatype DurationLabel = DurationLabel(value: nat, unit: TimeUnit)

  /** `Math.max(0, Math.round(seconds || 0))` */
  function RoundedSeconds(seconds: Option<real>): (s: nat)
    ensures OrZero(seconds) >= 0.0 ==> OrZero(seconds) - 0.5 < s as real <= OrZero(seconds) + 0.5
    ensures OrZero(seconds) < 0.0 ==> s == 0
  {
    Max(0, JsRound(OrZero(seconds)))
  }

  /**
   * Below 60 rounded seconds the label reports seconds; from there on it reports
   * the seconds rounded to the nearest minute, which is at least one.
   */
  function LabelOf(seconds: Option<real>): (l: DurationLabel)
    ensures var s := RoundedSeconds(seconds);
      (l.unit == Seconds <==> s < 60)
      && (l.unit == Seconds ==> l.value == s)
      && (l.unit == Minutes ==> l.value >= 1 && l.value * 60 - 30 <= s < l.value * 60 + 30)
  {
    var s := RoundedSeconds(seconds);
    if s < 60 then DurationLabel(s, Seconds)
    else DurationLabel(JsRound(s as real / 60.0), Minutes)
  }

  /** `${n} second${n === 1 ? "" : "s"}` and the same for minutes. */
  function RenderLabel(l: DurationLabel): string {
    NatToString(l.value) + (if l.unit == Seconds then " second" else " minute")
    + (if l.value == 1 then "" else "s")
  }

  /** `formatDurationLabel(seconds)` */
  function FormatDurationLabel(seconds: Option<real>): string {
    RenderLabel(LabelOf(seconds))
  }

  /** The unit word is plural exactly when the reported number is not 1. */
  lemma LabelSingularIffOne(seconds: Option<real>)
    ensures var r := FormatDurationLabel(seconds);
      r[|r| - 1] == 's' <==> LabelOf(seconds).value != 1
  {
  }

  /** A negative or missing argument is "0 seconds". */
  lemma DurationLabelNegative(seconds: Option<real>)
    requires OrZero(seconds) < 0.0
    ensures FormatDurationLabel(seconds) == "0 seconds"
  {
    assert LabelOf(seconds) == DurationLabel(0, Seconds);
  }
}
