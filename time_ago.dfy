/**
 * formatTimeAgo: a "N unit(s) ago" label for the time elapsed since an instant, with
 * the unit chosen by thresholds on the elapsed whole seconds.
 */
module TimeAgo {
  import opened Wrappers

  datatype Unit = Second | Minute | Hour | Day

  /** The number shown and the unit it is counted in. */
  datatype Elapsed = Elapsed(value: int, unit: Unit)

  /** A decimal digit character for 0 <= d < 10. */
  function DigitChar(d: int): char
    requires 0 <= d < 10
  {
    "0123456789"[d]
  }

  predicate IsDigit(c: char) {
    '0' <= c <= '9'
  }

  function DigitValue(c: char): int
    requires IsDigit(c)
  {
    c as int - '0' as int
  }

  /** The decimal numeral of a natural number, as a template literal renders it. */
  function NatToString(n: nat): (s: string)
    ensures |s| > 0 && forall i :: 0 <= i < |s| ==> IsDigit(s[i])
    ensures |s| > 1 ==> s[0] != '0'
    decreases n
  {
    if n < 10 then [DigitChar(n)] else NatToString(n / 10) + [DigitChar(n % 10)]
  }

  /** The numeral of an integer: a minus sign before the digits of a negative one. */
  function IntToString(i: int): string {
    if i < 0 then "-" + NatToString(-i) else NatToString(i)
  }

  /** The value of a string of decimal digits. */
  function DigitsValue(s: string): int
    requires forall i :: 0 <= i < |s| ==> IsDigit(s[i])
  {
    if s == [] then 0 else DigitsValue(s[..|s| - 1]) * 10 + DigitValue(s[|s| - 1])
  }

  predicate AllDigits(s: string) {
    forall i :: 0 <= i < |s| ==> IsDigit(s[i])
  }

  /** Reads an optionally signed decimal numeral; None for anything else. */
  function ParseInt(s: string): Option<int> {
    if s != [] && s[0] == '-' then
      if |s| > 1 && AllDigits(s[1..]) then Some(-DigitsValue(s[1..])) else None
    else if s != [] && AllDigits(s) then Some(DigitsValue(s))
    else None
  }

  /** The characters of `s` before its first space (all of `s` when it has none). */
  function FirstWord(s: string): string {
    if s == [] || s[0] == ' ' then [] else [s[0]] + FirstWord(s[1..])
  }

  lemma {:induction false} NatToStringRoundTrip(n: nat)
    ensures DigitsValue(NatToString(n)) == n
    decreases n
  {
    if n >= 10 {
      NatToStringRoundTrip(n / 10);
      var s := NatToString(n);
      assert s[..|s| - 1] == NatToString(n / 10);
    }
  }

  /** Every integer numeral reads back as the integer it was made from. */
  lemma IntToStringRoundTrip(i: int)
    ensures ParseInt(IntToString(i)) == Some(i)
  {
    var s := IntToString(i);
    if i < 0 {
      var digits := NatToString(-i);
      assert s == "-" + digits;
      assert s[1..] == digits;
      assert AllDigits(digits);
      NatToStringRoundTrip(-i);
      assert ParseInt(s) == Some(-DigitsValue(digits));
    } else {
      assert s == NatToString(i);
      assert AllDigits(s) && s[0] != '-';
      NatToStringRoundTrip(i);
    }
  }

  lemma {:induction false} FirstWordOfSpaced(w: string, rest: string)
    requires forall i :: 0 <= i < |w| ==> w[i] != ' '
    ensures FirstWord(w + " " + rest) == w
  {
    if w != [] {
      assert (w + " " + rest)[1..] == w[1..] + " " + rest;
      FirstWordOfSpaced(w[1..], rest);
    }
  }

  /** The unit cascade, as the page writes it: each unit is the floor of the previous one. */
  function Bucket(seconds: int): (e: Elapsed)
    ensures e.unit == Minute ==> 1 <= e.value < 60
    ensures e.unit == Hour ==> 1 <= e.value < 24
    ensures e.unit == Day ==> 1 <= e.value
  {
    if seconds < 60 then Elapsed(seconds, Second)
    else
      var minutes := seconds / 60;
      if minutes < 60 then Elapsed(minutes, Minute)
      else
        var hours := minutes / 60;
        if hours < 24 then Elapsed(hours, Hour)
        else Elapsed(hours / 24, Day)
  }

  /** Whole seconds elapsed from `date` to `currentTime` (both in ms), floored. */
  function ElapsedSeconds(date: int, currentTime: int): int {
    (currentTime - date) / 1000
  }

  /** The unit word: "seconds" always plural; the other units take an "s" unless the value is 1. */
  function UnitWord(e: Elapsed): string {
    match e.unit
    case Second => "seconds"
    case Minute => "minute" + (if e.value != 1 then "s" else "")
    case Hour => "hour" + (if e.value != 1 then "s" else "")
    case Day => "day" + (if e.value != 1 then "s" else "")
  }

  function Render(e: Elapsed): string {
    IntToString(e.value) + " " + UnitWord(e) + " ago"
  }

  /** formatTimeAgo(date) evaluated with the page's `currentTime`. */
  function FormatTimeAgo(date: int, currentTime: int): (t: string)
    ensures |t| > 4 && t[|t| - 4..] == " ago"
  {
    Render(Bucket(ElapsedSeconds(date, currentTime)))
  }

  /**
   * The cascade agrees with direct thresholds on the elapsed seconds: under a minute it
   * counts seconds (negative ones too), then whole minutes under an hour, whole hours
   * under a day, and whole days beyond.
   */
  lemma BucketThresholds(s: int)
    ensures var e := Bucket(s);
      (e.unit == Second <==> s < 60) &&
      (e.unit == Minute <==> 60 <= s < 3600) &&
      (e.unit == Hour <==> 3600 <= s < 86400) &&
      (e.unit == Day <==> 86400 <= s) &&
      e.value == (match e.unit
        case Second => s
        case Minute => s / 60
        case Hour => s / 3600
        case Day => s / 86400)
  {
  }

  /**
   * The whole label, read from direct thresholds on the elapsed seconds: "s seconds ago"
   * under a minute (plural even for 1), then whole minutes, hours or days with the unit
   * word singular exactly for 1.
   */
  lemma LabelText(date: int, currentTime: int)
    ensures var s := ElapsedSeconds(date, currentTime);
      var t := FormatTimeAgo(date, currentTime);
      (s < 60 ==> t == IntToString(s) + " seconds ago") &&
      (60 <= s < 3600 ==>
         t == IntToString(s / 60) + (if s / 60 == 1 then " minute ago" else " minutes ago")) &&
      (3600 <= s < 86400 ==>
         t == IntToString(s / 3600) + (if s / 3600 == 1 then " hour ago" else " hours ago")) &&
      (86400 <= s ==>
         t == IntToString(s / 86400) + (if s / 86400 == 1 then " day ago" else " days ago"))
  {
    var s := ElapsedSeconds(date, currentTime);
    BucketThresholds(s);
    RenderText(Bucket(s));
  }

  /** The rendered label of each unit, spelled out. */
  lemma RenderText(e: Elapsed)
    ensures var n := IntToString(e.value);
      match e.unit
      case Second => Render(e) == n + " seconds ago"
      case Minute => Render(e) == n + (if e.value == 1 then " minute ago" else " minutes ago")
      case Hour => Render(e) == n + (if e.value == 1 then " hour ago" else " hours ago")
      case Day => Render(e) == n + (if e.value == 1 then " day ago" else " days ago")
  {
    var n := IntToString(e.value);
    match e.unit
    case Second =>
      assert Render(e) == n + " " + "seconds" + " ago";
    case Minute =>
      if e.value == 1 {
        assert Render(e) == n + " " + "minute" + " ago";
      } else {
        assert Render(e) == n + " " + "minutes" + " ago";
      }
    case Hour =>
      if e.value == 1 {
        assert Render(e) == n + " " + "hour" + " ago";
      } else {
        assert Render(e) == n + " " + "hours" + " ago";
      }
    case Day =>
      if e.value == 1 {
        assert Render(e) == n + " " + "day" + " ago";
      } else {
        assert Render(e) == n + " " + "days" + " ago";
      }
  }

  /**
   * The label ends in "s ago" exactly when the unit is seconds or the value is not 1;
   * so "1 seconds ago" and "1 minute ago".
   */
  lemma PluralRule(date: int, currentTime: int)
    ensures var e := Bucket(ElapsedSeconds(date, currentTime));
      var text := FormatTimeAgo(date, currentTime);
      |text| >= 5 &&
      (text[|text| - 5..] == "s ago" <==> e.unit == Second || e.value != 1)
  {
    var e := Bucket(ElapsedSeconds(date, currentTime));
    var text := FormatTimeAgo(date, currentTime);
    var w := UnitWord(e);
    assert text == IntToString(e.value) + " " + w + " ago";
    assert text[|text| - 5..] == [w[|w| - 1]] + " ago";
    assert ([w[|w| - 1]] + " ago")[0] == w[|w| - 1];
    assert w[|w| - 1] == 's' <==> e.unit == Second || e.value != 1 by {
      match e.unit
      case Second =>
      case Minute => assert |w| == 6 || |w| == 7;
      case Hour => assert |w| == 4 || |w| == 5;
      case Day => assert |w| == 3 || |w| == 4;
    }
  }

  /** The label's first word is the numeral of the shown value, and reads back as it. */
  lemma LabelNumber(date: int, currentTime: int)
    ensures ParseInt(FirstWord(FormatTimeAgo(date, currentTime)))
      == Some(Bucket(ElapsedSeconds(date, currentTime)).value)
  {
    var e := Bucket(ElapsedSeconds(date, currentTime));
    var num := IntToString(e.value);
    assert forall i :: 0 <= i < |num| ==> num[i] != ' ';
    assert FormatTimeAgo(date, currentTime) == num + " " + (UnitWord(e) + " ago");
    FirstWordOfSpaced(num, UnitWord(e) + " ago");
    IntToStringRoundTrip(e.value);
  }
}
