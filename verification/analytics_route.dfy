/**
 * The analytics endpoint: the caller's latest hundred searches, the ones
 * inside the requested time range, the ten keywords seen most often among
 * those, and four counters.
 */
module AnalyticsRoute {
  import opened Wrappers
  import opened Seqs
  import opened Sorting
  import opened Tally

  /**
   * What `search.query?.keywords || []` reads: nothing (a null query or a
   * falsy value), an array of keywords, or a truthy value that is not an
   * array, on which `forEach` throws.
   */
  datatype Keywords = NoKeywords | Items(items: seq<string>) | NotArray

  datatype HistoryEntry = HistoryEntry(userId: string, keywords: Keywords, timestamp: int)

  datatype Overview = Overview(totalSearches: nat, activeSearches: nat, totalNotifications: nat, unreadNotifications: nat, recentSearches: nat)

  datatype Report = Report(overview: Overview, totalSearches: nat, topKeywords: seq<Entry<string>>, recentSearches: seq<HistoryEntry>, timeRange: string)

  datatype Response = Ok(report: Report) | Error(status: nat, message: string)

  const DayMs: int := 24 * 60 * 60 * 1000
  const FetchLimit: nat := 100
  const TopLimit: nat := 10
  const RecentShown: nat := 10

  /** `searchParams.get('time_range') || 'month'`. */
  function TimeRange(param: Option<string>): (r: string)
    ensures r != ""
    ensures param.Some? && param.value != "" ==> r == param.value
  {
    if param.Some? && param.value != "" then param.value else "month"
  }

  /** The days the `switch` subtracts; any other value subtracts nothing. */
  function RangeDays(timeRange: string): (r: nat)
    ensures timeRange !in {"week", "month", "year"} <==> r == 0
  {
    match timeRange
    case "week" => 7
    case "month" => 30
    case "year" => 365
    case _ => 0
  }

  /** The instant a search must be later than to count as recent. */
  function Cutoff(now: int, timeRange: string): (r: int)
    ensures r <= now
    ensures timeRange !in {"week", "month", "year"} ==> r == now
  {
    now - RangeDays(timeRange) * DayMs
  }

  /** The longer the range, the earlier the cutoff. */
  lemma CutoffsNest(now: int)
    ensures Cutoff(now, "year") < Cutoff(now, "month") < Cutoff(now, "week") < Cutoff(now, "other")
    ensures Cutoff(now, TimeRange(None)) == Cutoff(now, "month")
  {
  }

  function Stamp(e: HistoryEntry): real {
    e.timestamp as real
  }

  function OwnedBy(userId: string): HistoryEntry -> bool {
    (e: HistoryEntry) => e.userId == userId
  }

  function After(cutoff: int): HistoryEntry -> bool {
    (e: HistoryEntry) => e.timestamp > cutoff
  }

  /** The keywords counted, in order; a non-array value makes `forEach` throw. */
  function KeywordsOf(rows: seq<HistoryEntry>): (r: Result<seq<string>>)
    ensures r.Failure? <==> exists i :: 0 <= i < |rows| && rows[i].keywords.NotArray?
    ensures r.Success? ==> forall k :: k in r.value <==> exists i :: 0 <= i < |rows| && rows[i].keywords.Items? && k in rows[i].keywords.items
  {
    if |rows| == 0 then Success([])
    else
      var rest := KeywordsOf(rows[1..]);
      assert forall i :: 0 < i < |rows| ==> rows[i] == rows[1..][i - 1];
      if rows[0].keywords.NotArray? then Failure("keywords.forEach is not a function")
      else if rest.Failure? then rest
      else if rows[0].keywords.Items? then Success(rows[0].keywords.items + rest.value)
      else Success(rest.value)
  }

  /** How often `k` appears in the keyword arrays of the rows, added up row by row. */
  function Mentions(rows: seq<HistoryEntry>, k: string): nat {
    if |rows| == 0 then 0
    else (if rows[0].keywords.Items? then Occurrences(rows[0].keywords.items, k) else 0) + Mentions(rows[1..], k)
  }

  /** Every copy of `k` in every row's keyword array is counted once. */
  lemma {:induction false} KeywordsCounted(rows: seq<HistoryEntry>, k: string)
    ensures KeywordsOf(rows).Success? ==> Occurrences(KeywordsOf(rows).value, k) == Mentions(rows, k)
  {
    if |rows| > 0 && KeywordsOf(rows).Success? {
      var rest := rows[1..];
      KeywordsCounted(rest, k);
      if rows[0].keywords.Items? {
        OccurrencesConcat(rows[0].keywords.items, KeywordsOf(rest).value, k);
      }
    }
  }

  /** The recent searches: the fetched rows later than the cutoff, in fetched order. */
  function Recent(fetched: seq<HistoryEntry>, cutoff: int): (r: seq<HistoryEntry>)
    ensures forall i :: 0 <= i < |r| ==> r[i] in fetched && r[i].timestamp > cutoff
    ensures forall i :: 0 <= i < |fetched| && fetched[i].timestamp > cutoff ==> fetched[i] in r
  {
    var r := Filter(fetched, After(cutoff));
    assert forall i :: 0 <= i < |r| ==> After(cutoff)(r[i]);
    r
  }

  /** An earlier cutoff keeps every recent search of a later one, and so at least as many. */
  lemma RecentGrowsWithRange(fetched: seq<HistoryEntry>, early: int, late: int)
    requires early <= late
    ensures |Recent(fetched, late)| <= |Recent(fetched, early)|
  {
    FilterWeaker(fetched, After(late), After(early));
  }

  /** The history query: the caller's hundred newest searches, newest first; none when it fails. */
  function Fetched(history: seq<HistoryEntry>, userId: string, fetchFails: bool): (r: seq<HistoryEntry>)
    ensures |r| <= FetchLimit
    ensures fetchFails ==> r == []
    ensures forall i :: 0 <= i < |r| ==> r[i] in history && r[i].userId == userId
    ensures SortedDesc(r, Stamp)
  {
    var mine := Filter(history, OwnedBy(userId));
    var r := if fetchFails then [] else Newest(mine, Stamp, FetchLimit);
    assert forall i :: 0 <= i < |r| ==> r[i] in history && r[i].userId == userId by {
      forall i | 0 <= i < |r| ensures r[i] in history && r[i].userId == userId {
        FilterMember(history, OwnedBy(userId), r[i]);
      }
    }
    r
  }

  /** The query returns every search of the caller, or a hundred when there are more. */
  lemma FetchedSize(history: seq<HistoryEntry>, userId: string)
    ensures var mine := Filter(history, OwnedBy(userId));
      |Fetched(history, userId, false)| == if |mine| < FetchLimit then |mine| else FetchLimit
  {
  }

  /** A search of the caller left out of the fetched hundred is no newer than any fetched one. */
  lemma FetchedAreNewest(history: seq<HistoryEntry>, userId: string, x: HistoryEntry)
    requires x in history && x.userId == userId && x !in Fetched(history, userId, false)
    ensures forall i :: 0 <= i < |Fetched(history, userId, false)| ==> Fetched(history, userId, false)[i].timestamp >= x.timestamp
  {
    var mine := Filter(history, OwnedBy(userId));
    var j :| 0 <= j < |history| && history[j] == x;
    assert OwnedBy(userId)(history[j]);
    NewestAreNewest(mine, Stamp, FetchLimit, x);
  }

  /** The report once the keywords have been read. */
  function ReportOf(fetched: seq<HistoryEntry>, recent: seq<HistoryEntry>, keys: seq<string>, timeRange: string,
                    active: Option<nat>, notifications: Option<nat>, unread: Option<nat>): (r: Report)
    ensures |r.recentSearches| <= RecentShown
    ensures forall i :: 0 <= i < |r.recentSearches| ==> r.recentSearches[i] in recent
    ensures |r.topKeywords| <= TopLimit
    ensures SortedDesc(r.topKeywords, (e: Entry<string>) => e.count as real)
    ensures keys == [] ==> r.topKeywords == []
  {
    TopCorrect(Tally.Count(keys), TopLimit);
    var overview := Overview(|fetched|, active.GetOr(0), notifications.GetOr(0), unread.GetOr(0), |recent|);
    var shown := Take(recent, RecentShown);
    assert forall i :: 0 <= i < |shown| ==> shown[i] == recent[i];
    Report(overview, |recent|, Top(Tally.Count(keys), TopLimit), shown, timeRange)
  }

  /**
   * `GET`: reports on the caller's hundred newest searches. A failed history
   * query reads as no rows, and each failed count as 0.
   */
  function Get(user: Option<string>, timeRangeParam: Option<string>, history: seq<HistoryEntry>, fetchFails: bool,
               active: Option<nat>, notifications: Option<nat>, unread: Option<nat>, now: int): (r: Response)
    ensures user.None? <==> r == Error(401, "Unauthorized")
    ensures r.Ok? ==> r.report.timeRange == TimeRange(timeRangeParam)
    ensures r.Ok? ==> r.report.overview.totalSearches <= FetchLimit
    ensures r.Ok? ==> r.report.overview.recentSearches == r.report.totalSearches <= r.report.overview.totalSearches
    ensures r.Ok? ==> |r.report.recentSearches| <= RecentShown
    ensures r.Ok? ==> forall i :: 0 <= i < |r.report.recentSearches| ==>
      r.report.recentSearches[i] in history && r.report.recentSearches[i].userId == user.value
    ensures r.Ok? ==> forall i :: 0 <= i < |r.report.recentSearches| ==>
      r.report.recentSearches[i].timestamp > Cutoff(now, TimeRange(timeRangeParam))
    ensures r.Ok? ==> |r.report.topKeywords| <= TopLimit
    ensures r.Ok? ==> SortedDesc(r.report.topKeywords, (e: Entry<string>) => e.count as real)
    ensures r.Ok? && fetchFails ==> r.report.overview.totalSearches == 0 && r.report.topKeywords == []
  {
    if user.None? then Error(401, "Unauthorized")
    else
      var timeRange := TimeRange(timeRangeParam);
      var fetched := Fetched(history, user.value, fetchFails);
      var recent := Recent(fetched, Cutoff(now, timeRange));
      match KeywordsOf(recent)
      case Failure(_) => Error(500, "Internal server error")
      case Success(keys) =>
        assert |recent| <= |fetched|;
        Ok(ReportOf(fetched, recent, keys, timeRange, active, notifications, unread))
  }

  /** The response fails exactly when a recent search holds keywords that are not an array. */
  lemma FailsOnlyOnNonArray(user: string, timeRangeParam: Option<string>, history: seq<HistoryEntry>, fetchFails: bool,
                            active: Option<nat>, notifications: Option<nat>, unread: Option<nat>, now: int)
    ensures var recent := Recent(Fetched(history, user, fetchFails), Cutoff(now, TimeRange(timeRangeParam)));
      Get(Some(user), timeRangeParam, history, fetchFails, active, notifications, unread, now).Error? <==>
        exists i :: 0 <= i < |recent| && recent[i].keywords.NotArray?
  {
    var recent := Recent(Fetched(history, user, fetchFails), Cutoff(now, TimeRange(timeRangeParam)));
    var r := Get(Some(user), timeRangeParam, history, fetchFails, active, notifications, unread, now);
    if KeywordsOf(recent).Failure? {
      assert r == Error(500, "Internal server error");
    } else {
      assert r.Ok?;
    }
  }

  /** The searches a report shows are the first ten recent ones, in order, or all of them when fewer. */
  lemma ReportShowsFirstRecent(fetched: seq<HistoryEntry>, recent: seq<HistoryEntry>, keys: seq<string>, timeRange: string,
                               active: Option<nat>, notifications: Option<nat>, unread: Option<nat>)
    ensures var shown := ReportOf(fetched, recent, keys, timeRange, active, notifications, unread).recentSearches;
      |shown| == (if |recent| < RecentShown then |recent| else RecentShown) &&
      forall i :: 0 <= i < |shown| ==> shown[i] == recent[i]
  {
  }

  /**
   * The report's top keywords occur among the keys with their exact counts,
   * and a key left out occurs no more often than any keyword shown.
   */
  lemma ReportTopKeywords(fetched: seq<HistoryEntry>, recent: seq<HistoryEntry>, keys: seq<string>, timeRange: string,
                          active: Option<nat>, notifications: Option<nat>, unread: Option<nat>)
    ensures var top := ReportOf(fetched, recent, keys, timeRange, active, notifications, unread).topKeywords;
      (forall e :: e in top ==> e.key in keys && e.count == Occurrences(keys, e.key)) &&
      (forall j :: j in keys && (forall e :: e in top ==> e.key != j) ==> forall e :: e in top ==> e.count >= Occurrences(keys, j))
  {
    assert ReportOf(fetched, recent, keys, timeRange, active, notifications, unread).topKeywords == Top(Tally.Count(keys), TopLimit);
    TopKeysCorrect(keys, TopLimit);
  }

  /**
   * Once the keywords are read, the response is a report whose top keywords
   * occur in the recent searches with their exact counts, and a keyword left
   * out occurs no more often than any keyword shown. A count is the number
   * of times the keyword appears across the recent searches' arrays.
   */
  lemma TopKeywordsCounted(user: string, timeRangeParam: Option<string>, history: seq<HistoryEntry>, fetchFails: bool,
                           active: Option<nat>, notifications: Option<nat>, unread: Option<nat>, now: int)
    ensures var read := KeywordsOf(Recent(Fetched(history, user, fetchFails), Cutoff(now, TimeRange(timeRangeParam))));
      var r := Get(Some(user), timeRangeParam, history, fetchFails, active, notifications, unread, now);
      read.Success? ==>
        r.Ok? &&
        (forall e :: e in r.report.topKeywords ==> e.key in read.value && e.count == Occurrences(read.value, e.key)) &&
        (forall j :: j in read.value && (forall e :: e in r.report.topKeywords ==> e.key != j) ==>
          forall e :: e in r.report.topKeywords ==> e.count >= Occurrences(read.value, j))
    ensures var recent := Recent(Fetched(history, user, fetchFails), Cutoff(now, TimeRange(timeRangeParam)));
      var r := Get(Some(user), timeRangeParam, history, fetchFails, active, notifications, unread, now);
      KeywordsOf(recent).Success? ==>
        (forall e :: e in r.report.topKeywords ==> e.count == Mentions(recent, e.key)) &&
        (forall j :: j in KeywordsOf(recent).value && (forall e :: e in r.report.topKeywords ==> e.key != j) ==>
          forall e :: e in r.report.topKeywords ==> e.count >= Mentions(recent, j))
  {
    var timeRange := TimeRange(timeRangeParam);
    var fetched := Fetched(history, user, fetchFails);
    var recent := Recent(fetched, Cutoff(now, timeRange));
    var read := KeywordsOf(recent);
    if read.Success? {
      var r := Get(Some(user), timeRangeParam, history, fetchFails, active, notifications, unread, now);
      assert r == Ok(ReportOf(fetched, recent, read.value, timeRange, active, notifications, unread));
      ReportTopKeywords(fetched, recent, read.value, timeRange, active, notifications, unread);
      forall k {
        KeywordsCounted(recent, k);
      }
    }
  }

  /** The searches shown are the first ten recent ones, in order. */
  lemma ShownAreFirstRecent(user: string, timeRangeParam: Option<string>, history: seq<HistoryEntry>, fetchFails: bool,
                            active: Option<nat>, notifications: Option<nat>, unread: Option<nat>, now: int)
    ensures var recent := Recent(Fetched(history, user, fetchFails), Cutoff(now, TimeRange(timeRangeParam)));
      var r := Get(Some(user), timeRangeParam, history, fetchFails, active, notifications, unread, now);
      r.Ok? ==>
        |r.report.recentSearches| == (if |recent| < RecentShown then |recent| else RecentShown) &&
        forall i :: 0 <= i < |r.report.recentSearches| ==> r.report.recentSearches[i] == recent[i]
  {
    var timeRange := TimeRange(timeRangeParam);
    var fetched := Fetched(history, user, fetchFails);
    var recent := Recent(fetched, Cutoff(now, timeRange));
    var read := KeywordsOf(recent);
    if read.Success? {
      ReportShowsFirstRecent(fetched, recent, read.value, timeRange, active, notifications, unread);
    }
  }
}
