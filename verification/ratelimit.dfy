/**
 * The minimum-interval rate limiter both scrapers run before each request:
 * read the clock, sleep for whatever is left of the interval since the last
 * request, then record the clock as the new last request time.
 *
 * The clock is an integer number of milliseconds. A timer fires no earlier
 * than asked, but possibly later: `lateness` is how much later the clock
 * reads when the limiter records it.
 */
module RateLimit {

  datatype Limiter = Limiter(minInterval: nat, lastRequestTime: int)

  /** A scraper's limiter before its first request. */
  function Fresh(minInterval: nat): Limiter {
    Limiter(minInterval, 0)
  }

  /** How long `respectRateLimit` sleeps when it reads the clock at `now`. */
  function Wait(l: Limiter, now: int): (w: nat)
    ensures w == 0 <==> now - l.lastRequestTime >= l.minInterval
    ensures w > 0 ==> now + w == l.lastRequestTime + l.minInterval
  {
    var since := now - l.lastRequestTime;
    if since < l.minInterval then l.minInterval - since else 0
  }

  /** The limiter after one `respectRateLimit` begun at `now`; the request starts at the recorded time. */
  function Acquire(l: Limiter, now: int, lateness: nat): (r: Limiter)
    ensures r.minInterval == l.minInterval
    ensures r.lastRequestTime >= now
    ensures r.lastRequestTime >= l.lastRequestTime + l.minInterval
    ensures lateness == 0 && now - l.lastRequestTime >= l.minInterval ==> r.lastRequestTime == now
  {
    Limiter(l.minInterval, now + Wait(l, now) + lateness)
  }

  /**
   * The start times of consecutive requests through one limiter, the k-th
   * beginning `respectRateLimit` at `nows[k]` and resuming `lates[k]` late.
   */
  function Starts(l: Limiter, nows: seq<int>, lates: seq<nat>): (r: seq<int>)
    requires |lates| == |nows|
    ensures |r| == |nows|
    decreases |nows|
  {
    if |nows| == 0 then []
    else
      var next := Acquire(l, nows[0], lates[0]);
      [next.lastRequestTime] + Starts(next, nows[1..], lates[1..])
  }

  /** Any two requests through one limiter start at least the interval apart, times the number of requests between them. */
  lemma {:induction false} StartsSpaced(l: Limiter, nows: seq<int>, lates: seq<nat>, i: nat, j: nat)
    requires |lates| == |nows|
    requires i < j < |nows|
    ensures Starts(l, nows, lates)[j] - Starts(l, nows, lates)[i] >= (j - i) * l.minInterval
    decreases |nows|
  {
    var next := Acquire(l, nows[0], lates[0]);
    var rest := Starts(next, nows[1..], lates[1..]);
    assert Starts(l, nows, lates) == [next.lastRequestTime] + rest;
    if i == 0 {
      if j > 1 {
        StartsSpaced(next, nows[1..], lates[1..], 0, j - 1);
      }
      StartsAfter(next, nows[1..], lates[1..], j - 1);
      assert (j - 1) * l.minInterval + l.minInterval == j * l.minInterval;
    } else {
      StartsSpaced(next, nows[1..], lates[1..], i - 1, j - 1);
    }
  }

  /** Every request through a limiter starts at least one interval after the limiter's last request. */
  lemma {:induction false} StartsAfter(l: Limiter, nows: seq<int>, lates: seq<nat>, k: nat)
    requires |lates| == |nows|
    requires k < |nows|
    ensures Starts(l, nows, lates)[k] >= l.lastRequestTime + l.minInterval
    ensures k > 0 ==> Starts(l, nows, lates)[k] - Starts(l, nows, lates)[0] >= k * l.minInterval
    decreases |nows|
  {
    var next := Acquire(l, nows[0], lates[0]);
    if k > 0 {
      StartsAfter(next, nows[1..], lates[1..], k - 1);
      if k > 1 {
        assert (k - 1) * l.minInterval + l.minInterval == k * l.minInterval;
      }
    }
  }
}
