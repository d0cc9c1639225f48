/**
 * The two time-remaining breakdowns of the Home page, over millisecond instants
 * (the integers `Date.getTime()` yields).
 *
 * The page computes `Math.floor((d / 1000) % 60)` and the like on JavaScript numbers.
 * For integer `d` that is exactly `Math.floor` of the real quotient, and JavaScript's
 * `%` keeps the sign of its dividend (it truncates), so both are written out below:
 * `JsRem` is the truncating remainder, and Dafny's `/` by a positive divisor is floor.
 */
module Countdown {
  import opened Wrappers
  import Arith

  const MsPerSecond: int := 1000
  const MsPerMinute: int := 60 * MsPerSecond
  const MsPerHour: int := 60 * MsPerMinute
  const MsPerDay: int := 24 * MsPerHour

  /** Division rounding toward zero, as `Math.trunc(a / b)` for b > 0. */
  function TruncDiv(a: int, b: int): int
    requires b > 0
  {
    if a >= 0 then a / b else -((-a) / b)
  }

  /** JavaScript's `a % b` for b > 0: the remainder takes the sign of the dividend. */
  function JsRem(a: int, b: int): (r: int)
    requires b > 0
    ensures a >= 0 ==> r == a % b
    ensures a < 0 ==> -b < r <= 0 && r == -((-a) % b)
  {
    a - b * TruncDiv(a, b)
  }

  /** The breakdown `calculateTimeRemaining` returns. */
  datatype Remaining = Remaining(days: int, hours: int, minutes: int, seconds: int)

  /** The breakdown `getTimeRemaining` returns: hours are not wrapped at 24. */
  datatype Clock = Clock(hours: int, minutes: int, seconds: int)

  /**
   * calculateTimeRemaining(target) evaluated at instant `now`. Each field is the floor of
   * the remainder of the difference at its unit; hours wrap at 24, days do not wrap.
   * The page does not clamp a non-positive difference: its callers only pass targets
   * strictly in the future.
   */
  function CalculateTimeRemaining(target: int, now: int): (r: Remaining)
    ensures target - now >= 0 ==>
      0 <= r.seconds < 60 && 0 <= r.minutes < 60 && 0 <= r.hours < 24 && r.days >= 0
  {
    var difference := target - now;
    var seconds := JsRem(difference, MsPerMinute) / MsPerSecond;
    var minutes := JsRem(difference, MsPerHour) / MsPerMinute;
    var hours := JsRem(difference, MsPerDay) / MsPerHour;
    var days := difference / MsPerDay;
    Remaining(days, hours, minutes, seconds)
  }

  /**
   * For a target not yet passed the breakdown is the mixed-radix reading of the difference:
   * seconds and minutes in [0, 59], hours in [0, 23], and together with the leftover
   * milliseconds they add back up to the difference.
   */
  lemma RemainingDecomposes(target: int, now: int)
    requires target - now >= 0
    ensures var r := CalculateTimeRemaining(target, now);
      0 <= r.seconds < 60 && 0 <= r.minutes < 60 && 0 <= r.hours < 24 && r.days >= 0 &&
      r.days * MsPerDay + r.hours * MsPerHour + r.minutes * MsPerMinute
        + r.seconds * MsPerSecond + (target - now) % MsPerSecond == target - now
  {
    var d := target - now;
    UnitSplits(d);
  }

  /** The unit-by-unit reading of a non-negative millisecond count. */
  lemma UnitSplits(d: int)
    requires d >= 0
    ensures var s, m, h := d / MsPerSecond, d / MsPerMinute, d / MsPerHour;
      JsRem(d, MsPerMinute) / MsPerSecond == s % 60 &&
      JsRem(d, MsPerHour) / MsPerMinute == m % 60 &&
      JsRem(d, MsPerDay) / MsPerHour == h % 24 &&
      m == s / 60 && h == m / 60 && d / MsPerDay == h / 24
  {
    Arith.Split(d, MsPerSecond, 60);
    Arith.Split(d, MsPerMinute, 60);
    Arith.Split(d, MsPerHour, 24);
  }

  /** A target already passed yields a breakdown that is never positive (nothing is clamped). */
  lemma OverdueNotClamped(target: int, now: int)
    requires target < now
    ensures var r := CalculateTimeRemaining(target, now);
      r.days < 0 && -24 <= r.hours <= 0 && -60 <= r.minutes <= 0 && -60 <= r.seconds <= 0
  {
  }

  /**
   * getTimeRemaining with the page's `nextReleaseTime` and `currentTime`: all zero while
   * no next release is known, otherwise seconds and minutes of the difference and the
   * whole number of hours, unwrapped.
   */
  function GetTimeRemaining(nextRelease: Option<int>, currentTime: int): (c: Clock)
    ensures nextRelease.None? ==> c == Clock(0, 0, 0)
  {
    if nextRelease.None? then Clock(0, 0, 0)
    else
      var total := nextRelease.value - currentTime;
      var seconds := JsRem(total, MsPerMinute) / MsPerSecond;
      var minutes := JsRem(total, MsPerHour) / MsPerMinute;
      var hours := total / MsPerHour;
      Clock(hours, minutes, seconds)
  }

  /**
   * For a target not yet passed the countdown is the breakdown of the difference into
   * whole hours (not wrapped), minutes and seconds in [0, 59], and leftover milliseconds.
   */
  lemma ClockDecomposes(target: int, now: int)
    requires target - now >= 0
    ensures var c := GetTimeRemaining(Some(target), now);
      var total := target - now;
      0 <= c.seconds < 60 && 0 <= c.minutes < 60 && 0 <= c.hours &&
      c.hours * MsPerHour + c.minutes * MsPerMinute + c.seconds * MsPerSecond
        + total % MsPerSecond == total
  {
    UnitSplits(target - now);
  }

  /**
   * The two breakdowns agree on minutes and seconds, and the unwrapped hours of the
   * countdown are the wrapped hours plus 24 per whole day.
   */
  lemma ClockAgreesWithRemaining(target: int, now: int)
    requires target - now >= 0
    ensures var r := CalculateTimeRemaining(target, now);
      var c := GetTimeRemaining(Some(target), now);
      c.seconds == r.seconds && c.minutes == r.minutes && c.hours == r.days * 24 + r.hours
  {
  }
}
