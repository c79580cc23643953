/**
 * The analytics page's price-trend panel: how many mock points a time range
 * gets and on which days, and the direction of the trend arrow. Prices and
 * item counts of the mock points are random and not modelled.
 */
module AnalyticsPage {
  import opened Wrappers
  import Batching

  /** Days covered: 7 for "week", 30 for "month", 365 for anything else. */
  function RangeDays(timeRange: string): (r: nat)
    ensures r in {7, 30, 365}
    ensures timeRange !in {"week", "month"} ==> r == 365
  {
    if timeRange == "week" then 7 else if timeRange == "month" then 30 else 365
  }

  /** Days between points: 1 for "week", 3 for "month", 30 for anything else. */
  function RangeInterval(timeRange: string): (r: nat)
    ensures r > 0
    ensures timeRange !in {"week", "month"} ==> r == 30
  {
    if timeRange == "week" then 1 else if timeRange == "month" then 3 else 30
  }

  function PointCount(timeRange: string): nat {
    RangeDays(timeRange) / RangeInterval(timeRange) + 1
  }

  /**
   * The loop `for (i = days; i >= 0; i -= interval)`: the days before today
   * of the mock points, farthest first, so the dates ascend.
   */
  method TrendOffsets(timeRange: string) returns (offsets: seq<int>)
    ensures |offsets| == PointCount(timeRange)
    ensures forall k :: 0 <= k < |offsets| ==> offsets[k] == RangeDays(timeRange) - k * RangeInterval(timeRange)
    ensures forall k :: 0 <= k < |offsets| ==> 0 <= offsets[k] <= RangeDays(timeRange)
    ensures offsets[|offsets| - 1] < RangeInterval(timeRange)
  {
    var days := RangeDays(timeRange);
    var interval: int := RangeInterval(timeRange);
    offsets := [];
    var i: int := days;
    while i >= 0
      invariant -interval <= i <= days
      invariant (days - i) % interval == 0
      invariant |offsets| == (days - i) / interval
      invariant forall k :: 0 <= k < |offsets| ==> offsets[k] == days - k * interval
      decreases i + interval
    {
      offsets := offsets + [i];
      i := i - interval;
    }
    var n := (days - i) / interval;
    assert days - i == n * interval;
    DivisionOfDays(days, interval, n);
  }

  /** When `n` steps of `interval` first overshoot `days`, `n` is `days / interval + 1`. */
  lemma DivisionOfDays(days: nat, interval: nat, n: int)
    requires interval > 0
    requires days < n * interval <= days + interval
    ensures n == days / interval + 1
  {
    assert (n - 1) * interval == n * interval - interval;
    Batching.DivFromBounds(days, interval, n - 1);
  }

  /**
   * A week gets 8 points, a month 11 and a year 13. The range names are
   * parameters fixed by `requires`, so that the string literals stay out of
   * the contract the rest of the module sees.
   */
  lemma PointCounts(week: string, month: string, year: string)
    requires week == "week" && month == "month" && year == "year"
    ensures PointCount(week) == 8 && PointCount(month) == 11 && PointCount(year) == 13
  {
  }

  /**
   * The trend arrow: shown only with more than two points, pointing up iff
   * the last average price is above the first.
   */
  function TrendArrow(avgPrices: seq<int>): (r: Option<bool>)
    ensures r.Some? <==> |avgPrices| > 2
    ensures r.Some? ==> (r.value <==> avgPrices[|avgPrices| - 1] > avgPrices[0])
  {
    if |avgPrices| > 2 then Some(avgPrices[|avgPrices| - 1] > avgPrices[0]) else None
  }

  function Reversed(xs: seq<int>): (r: seq<int>)
    ensures |r| == |xs|
    ensures forall k :: 0 <= k < |xs| ==> r[k] == xs[|xs| - 1 - k]
  {
    seq(|xs|, k requires 0 <= k < |xs| => xs[|xs| - 1 - k])
  }

  /** Read backwards, a series whose ends differ points the other way. */
  lemma ReversedSeriesFlipsArrow(avgPrices: seq<int>)
    requires |avgPrices| > 2 && avgPrices[0] != avgPrices[|avgPrices| - 1]
    ensures TrendArrow(Reversed(avgPrices)) == Some(!TrendArrow(avgPrices).value)
  {
  }
}
