/**
 * The relative-time labels of the client pages. The dashboard and the "My
 * Searches" page each define the same `formatTimeAgo` ("Just now", "5m ago",
 * "3h ago", "2d ago"); the analytics page has its own `formatTimestamp` ("1
 * minute ago", "-4 minutes ago", "2 days ago").
 *
 * The input is the elapsed time in whole milliseconds, now minus then, which
 * is negative for a date in the future. `Math.floor(x / d)` with a positive
 * divisor is Dafny's `x / d` on integers.
 */
module TimeFormat {
  import opened Text

  const MinuteMs: int := 60000
  const HourMs: int := 3600000
  const DayMs: int := 86400000

  datatype Ago = JustNow | MinutesAgo(m: nat) | HoursAgo(h: nat) | DaysAgo(d: nat)

  /**
   * The label `formatTimeAgo` picks: whole seconds, then whole minutes, then
   * whole hours, then whole days, each floored from the one before. Each
   * label covers exactly one interval of elapsed time.
   */
  function AgoOf(elapsedMs: int): (r: Ago)
    ensures r.JustNow? <==> elapsedMs < MinuteMs
    ensures r.MinutesAgo? <==> MinuteMs <= elapsedMs < HourMs
    ensures r.HoursAgo? <==> HourMs <= elapsedMs < DayMs
    ensures r.DaysAgo? <==> DayMs <= elapsedMs
    ensures r.MinutesAgo? ==> 1 <= r.m <= 59 && r.m * MinuteMs <= elapsedMs < (r.m + 1) * MinuteMs
    ensures r.HoursAgo? ==> 1 <= r.h <= 23 && r.h * HourMs <= elapsedMs < (r.h + 1) * HourMs
    ensures r.DaysAgo? ==> 1 <= r.d && r.d * DayMs <= elapsedMs < (r.d + 1) * DayMs
  {
    var seconds := elapsedMs / 1000;
    if seconds < 60 then JustNow
    else
      var minutes := seconds / 60;
      if minutes < 60 then MinutesAgo(minutes)
      else
        var hours := minutes / 60;
        if hours < 24 then HoursAgo(hours)
        else DaysAgo(hours / 24)
  }

  function AgoText(a: Ago): string {
    match a
    case JustNow => "Just now"
    case MinutesAgo(m) => NatToString(m) + "m ago"
    case HoursAgo(h) => NatToString(h) + "h ago"
    case DaysAgo(d) => NatToString(d) + "d ago"
  }

  /** `formatTimeAgo` of the dashboard and of the saved searches list, which are the same code. */
  function FormatTimeAgo(elapsedMs: int): (s: string)
    ensures elapsedMs < MinuteMs <==> s == "Just now"
  {
    JustNowOnly(AgoOf(elapsedMs));
    AgoText(AgoOf(elapsedMs))
  }

  lemma JustNowOnly(a: Ago)
    ensures AgoText(a) == "Just now" ==> a == JustNow
  {
    if AgoText(a) == "Just now" {
      AgoTextInjective(a, JustNow);
    }
  }

  /** The unit letter five characters from the end of a label. */
  function UnitMark(s: string): char {
    if |s| >= 5 then s[|s| - 5] else ' '
  }

  /** Different labels read differently: the unit letter and then the digits tell them apart. */
  lemma AgoTextInjective(a: Ago, b: Ago)
    requires AgoText(a) == AgoText(b)
    ensures a == b
  {
    var s := AgoText(a);
    assert UnitMark("Just now") == 't';
    match a {
      case JustNow =>
      case MinutesAgo(m) =>
        assert UnitMark(s) == 'm';
        assert s[..|s| - 5] == NatToString(m);
        if b.MinutesAgo? {
          assert s[..|s| - 5] == NatToString(b.m);
          NatToStringInjective(m, b.m);
        }
      case HoursAgo(h) =>
        assert UnitMark(s) == 'h';
        assert s[..|s| - 5] == NatToString(h);
        if b.HoursAgo? {
          assert s[..|s| - 5] == NatToString(b.h);
          NatToStringInjective(h, b.h);
        }
      case DaysAgo(d) =>
        assert UnitMark(s) == 'd';
        assert s[..|s| - 5] == NatToString(d);
        if b.DaysAgo? {
          assert s[..|s| - 5] == NatToString(b.d);
          NatToStringInjective(d, b.d);
        }
    }
  }

  /** More time elapsed never shows a smaller unit, nor a smaller count in the same unit. */
  lemma AgoMonotone(early: int, late: int)
    requires early <= late
    ensures AgoOf(late).JustNow? ==> AgoOf(early).JustNow?
    ensures AgoOf(late).MinutesAgo? ==> AgoOf(early).JustNow? || (AgoOf(early).MinutesAgo? && AgoOf(early).m <= AgoOf(late).m)
    ensures AgoOf(late).HoursAgo? && AgoOf(early).HoursAgo? ==> AgoOf(early).h <= AgoOf(late).h
    ensures AgoOf(late).DaysAgo? && AgoOf(early).DaysAgo? ==> AgoOf(early).d <= AgoOf(late).d
  {
  }

  // The analytics page.

  datatype Unit = Minute | Hour | Day

  datatype Elapsed = Elapsed(count: int, unit: Unit)

  /**
   * The count and unit `formatTimestamp` shows: whole minutes under an hour,
   * whole hours under a day, otherwise whole days. A future time gives a
   * negative minute count.
   */
  function ElapsedOf(elapsedMs: int): (r: Elapsed)
    ensures r.unit == Minute <==> elapsedMs < HourMs
    ensures r.unit == Hour <==> HourMs <= elapsedMs < DayMs
    ensures r.unit == Minute ==> r.count * MinuteMs <= elapsedMs < (r.count + 1) * MinuteMs
    ensures r.unit == Hour ==> 1 <= r.count <= 23 && r.count * HourMs <= elapsedMs < (r.count + 1) * HourMs
    ensures r.unit == Day ==> 1 <= r.count && r.count * DayMs <= elapsedMs < (r.count + 1) * DayMs
    ensures elapsedMs < 0 <==> r.count < 0
  {
    var minutes := elapsedMs / 60000;
    var hours := minutes / 60;
    var days := hours / 24;
    if minutes < 60 then Elapsed(minutes, Minute)
    else if hours < 24 then Elapsed(hours, Hour)
    else Elapsed(days, Day)
  }

  function UnitName(u: Unit): string {
    match u
    case Minute => "minute"
    case Hour => "hour"
    case Day => "day"
  }

  /** "<count> <unit>[s] ago", with the plural `s` unless the count is exactly 1. */
  function ElapsedText(e: Elapsed): string {
    IntToString(e.count) + " " + UnitName(e.unit) + (if e.count != 1 then "s" else "") + " ago"
  }

  function FormatTimestamp(elapsedMs: int): string {
    ElapsedText(ElapsedOf(elapsedMs))
  }

  /** The unit is written in the plural exactly when the count is not 1. */
  lemma {:induction false} PluralUnlessOne(e: Elapsed)
    ensures UnitMark(ElapsedText(e)) == 's' <==> e.count != 1
  {
    var head := IntToString(e.count) + " " + UnitName(e.unit);
    var s := ElapsedText(e);
    if e.count != 1 {
      assert s == head + "s" + " ago";
      assert s[|s| - 5] == 's';
    } else {
      assert s == head + "" + " ago";
      assert s[|s| - 5] == UnitName(e.unit)[|UnitName(e.unit)| - 1];
    }
  }

  /** A time in the future is shown with a leading minus sign. */
  lemma FutureIsNegative(elapsedMs: int)
    requires elapsedMs < 0
    ensures FormatTimestamp(elapsedMs)[0] == '-'
  {
  }

  /**
   * From one minute on, the two formatters agree on unit and count; under a
   * minute the analytics page says "0 minutes" where the other says "Just now".
   */
  lemma FormattersAgree(elapsedMs: int)
    ensures AgoOf(elapsedMs).MinutesAgo? ==> ElapsedOf(elapsedMs) == Elapsed(AgoOf(elapsedMs).m, Minute)
    ensures AgoOf(elapsedMs).HoursAgo? ==> ElapsedOf(elapsedMs) == Elapsed(AgoOf(elapsedMs).h, Hour)
    ensures AgoOf(elapsedMs).DaysAgo? ==> ElapsedOf(elapsedMs) == Elapsed(AgoOf(elapsedMs).d, Day)
    ensures 0 <= elapsedMs < MinuteMs ==> AgoOf(elapsedMs).JustNow? && ElapsedOf(elapsedMs) == Elapsed(0, Minute)
  {
  }
}
