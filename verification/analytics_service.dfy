/**
 * The analytics service: the keyword counts over a user's ten most recent
 * searches, and the dates of the price-trend series. The trend prices and
 * item counts are random and are not modelled.
 */
module AnalyticsService {
  import opened Wrappers
  import opened Seqs
  import opened Sorting
  import opened Tally

  /** The service reads `query.keywords` as the declared `SearchQuery`'s single string. */
  datatype HistoryQuery = HistoryQuery(keywords: Option<string>)

  /** A `search_history` row; a `None` query is a null column. */
  datatype HistoryRow = HistoryRow(userId: string, query: Option<HistoryQuery>, timestamp: int)

  datatype SearchAnalytics = SearchAnalytics(totalSearches: nat, recentSearches: seq<HistoryRow>, topKeywords: seq<Entry<string>>)

  const RecentLimit: nat := 10
  const TopLimit: nat := 5

  const Empty: SearchAnalytics := SearchAnalytics(0, [], [])

  function Stamp(r: HistoryRow): real {
    r.timestamp as real
  }

  function OwnedBy(userId: string): HistoryRow -> bool {
    (r: HistoryRow) => r.userId == userId
  }

  /** The row's keywords when they are truthy (present and non-empty). */
  predicate HasKeywords(r: HistoryRow) {
    r.query.Some? && r.query.value.keywords.Some? && r.query.value.keywords.value != ""
  }

  /**
   * The keys the `forEach` counts, in order. Reading `keywords` of a null
   * query throws, which abandons the whole computation.
   */
  function KeywordsOf(rows: seq<HistoryRow>): (r: Result<seq<string>>)
    ensures r.Failure? <==> exists i :: 0 <= i < |rows| && rows[i].query.None?
    ensures r.Success? ==> |r.value| <= |rows|
    ensures r.Success? ==> forall k :: k in r.value <==> exists i :: 0 <= i < |rows| && HasKeywords(rows[i]) && rows[i].query.value.keywords.value == k
  {
    if |rows| == 0 then Success([])
    else
      var rest := KeywordsOf(rows[1..]);
      assert forall i :: 0 < i < |rows| ==> rows[i] == rows[1..][i - 1];
      if rows[0].query.None? then Failure("Cannot read properties of null (reading 'keywords')")
      else if rest.Failure? then rest
      else if HasKeywords(rows[0]) then Success([rows[0].query.value.keywords.value] + rest.value)
      else Success(rest.value)
  }

  /** The rows whose truthy keywords are `k`. */
  function Carries(k: string): HistoryRow -> bool {
    (r: HistoryRow) => HasKeywords(r) && r.query.value.keywords.value == k
  }

  /** Each row whose keywords are `k` puts exactly one `k` among the keys counted. */
  lemma {:induction false} KeywordsCounted(rows: seq<HistoryRow>, k: string)
    ensures KeywordsOf(rows).Success? ==> Occurrences(KeywordsOf(rows).value, k) == |Filter(rows, Carries(k))|
  {
    if |rows| > 0 && KeywordsOf(rows).Success? {
      var rest := rows[1..];
      KeywordsCounted(rest, k);
      assert rows == [rows[0]] + rest;
      FilterCons(rows[0], rest, Carries(k));
      if HasKeywords(rows[0]) {
        var x := rows[0].query.value.keywords.value;
        OccurrencesConcat([x], KeywordsOf(rest).value, k);
        assert [x][..0] == [];
      }
    }
  }

  /**
   * `getUserSearchAnalytics`: the user's ten newest searches and the five
   * keywords seen most often among them. A failed history query reads as
   * no rows; a null query in one of the rows yields the empty analytics.
   */
  function GetUserSearchAnalytics(history: seq<HistoryRow>, userId: string, count: Option<nat>, fetchFails: bool): (r: SearchAnalytics)
    ensures |r.recentSearches| <= RecentLimit
    ensures forall i :: 0 <= i < |r.recentSearches| ==> r.recentSearches[i] in history && r.recentSearches[i].userId == userId
    ensures SortedDesc(r.recentSearches, Stamp)
    ensures |r.topKeywords| <= TopLimit
    ensures SortedDesc(r.topKeywords, (e: Entry<string>) => e.count as real)
    ensures TotalCount(r.topKeywords) <= |r.recentSearches|
    ensures fetchFails ==> r.recentSearches == [] && r.topKeywords == []
    ensures r.recentSearches == [] ==> r.topKeywords == []
  {
    var mine := Filter(history, OwnedBy(userId));
    var recent := if fetchFails then [] else Newest(mine, Stamp, RecentLimit);
    assert forall i :: 0 <= i < |recent| ==> recent[i] in history && recent[i].userId == userId by {
      forall i | 0 <= i < |recent| ensures recent[i] in history && recent[i].userId == userId {
        FilterMember(history, OwnedBy(userId), recent[i]);
      }
    }
    match KeywordsOf(recent)
    case Failure(_) => Empty
    case Success(keys) =>
      CountCorrect(keys);
      TopCorrect(Tally.Count(keys), TopLimit);
      SearchAnalytics(if count.Some? then count.value else 0, recent, Top(Tally.Count(keys), TopLimit))
  }

  /** A null query among the newest rows empties the whole answer, the total included. */
  lemma NullQueryEmpties(history: seq<HistoryRow>, userId: string, count: Option<nat>, i: nat)
    requires i < |Newest(Filter(history, OwnedBy(userId)), Stamp, RecentLimit)|
    requires Newest(Filter(history, OwnedBy(userId)), Stamp, RecentLimit)[i].query.None?
    ensures GetUserSearchAnalytics(history, userId, count, false) == Empty
  {
  }

  /**
   * Each top keyword is counted once for every key read that equals it, and
   * a keyword left out is read no more often than any keyword shown.
   */
  lemma TopKeywordsCounted(history: seq<HistoryRow>, userId: string, count: Option<nat>, fetchFails: bool)
    ensures var r := GetUserSearchAnalytics(history, userId, count, fetchFails);
      var read := KeywordsOf(r.recentSearches);
      read.Success? ==>
        (forall e :: e in r.topKeywords ==> e.key in read.value && e.key != "" && e.count == Occurrences(read.value, e.key)) &&
        (forall j :: j in read.value && (forall e :: e in r.topKeywords ==> e.key != j) ==>
          forall e :: e in r.topKeywords ==> e.count >= Occurrences(read.value, j))
  {
    var r := GetUserSearchAnalytics(history, userId, count, fetchFails);
    var read := KeywordsOf(r.recentSearches);
    if read.Success? && r.recentSearches != [] {
      assert r.topKeywords == Top(Tally.Count(read.value), TopLimit);
      TopKeysCorrect(read.value, TopLimit);
    }
  }

  /**
   * A top keyword's count is the number of recent searches that carry it,
   * and a keyword left out is carried by no more of them than any keyword
   * shown.
   */
  lemma TopKeywordsCarried(history: seq<HistoryRow>, userId: string, count: Option<nat>, fetchFails: bool)
    ensures var r := GetUserSearchAnalytics(history, userId, count, fetchFails);
      KeywordsOf(r.recentSearches).Success? ==>
        (forall e :: e in r.topKeywords ==> e.count == |Filter(r.recentSearches, Carries(e.key))|) &&
        (forall j :: j in KeywordsOf(r.recentSearches).value && (forall e :: e in r.topKeywords ==> e.key != j) ==>
          forall e :: e in r.topKeywords ==> e.count >= |Filter(r.recentSearches, Carries(j))|)
  {
    var r := GetUserSearchAnalytics(history, userId, count, fetchFails);
    if KeywordsOf(r.recentSearches).Success? && r.recentSearches != [] {
      assert r.topKeywords == Top(Tally.Count(KeywordsOf(r.recentSearches).value), TopLimit);
      TopCarried(r.recentSearches);
    }
  }

  /** The top keywords of the rows, counted over the rows that carry them. */
  lemma TopCarried(rows: seq<HistoryRow>)
    requires KeywordsOf(rows).Success?
    ensures var top := Top(Tally.Count(KeywordsOf(rows).value), TopLimit);
      (forall e :: e in top ==> e.count == |Filter(rows, Carries(e.key))|) &&
      (forall j :: j in KeywordsOf(rows).value && (forall e :: e in top ==> e.key != j) ==>
        forall e :: e in top ==> e.count >= |Filter(rows, Carries(j))|)
  {
    var keys := KeywordsOf(rows).value;
    TopKeysCorrect(keys, TopLimit);
    forall k {
      KeywordsCounted(rows, k);
    }
  }

  /**
   * Unless a null query empties the answer, the recent searches are all of
   * the user's rows, or ten when there are more.
   */
  lemma RecentSize(history: seq<HistoryRow>, userId: string, count: Option<nat>)
    ensures var mine := Filter(history, OwnedBy(userId));
      var r := GetUserSearchAnalytics(history, userId, count, false);
      r != Empty ==> |r.recentSearches| == if |mine| < RecentLimit then |mine| else RecentLimit
  {
  }

  /** A search of the user left out of the recent ten is no newer than any recent one. */
  lemma RecentAreNewest(history: seq<HistoryRow>, userId: string, count: Option<nat>, x: HistoryRow)
    requires x in history && x.userId == userId
    requires x !in GetUserSearchAnalytics(history, userId, count, false).recentSearches
    ensures var recent := GetUserSearchAnalytics(history, userId, count, false).recentSearches;
      forall i :: 0 <= i < |recent| ==> recent[i].timestamp >= x.timestamp
  {
    var mine := Filter(history, OwnedBy(userId));
    var j :| 0 <= j < |history| && history[j] == x;
    assert OwnedBy(userId)(history[j]);
    var recent := GetUserSearchAnalytics(history, userId, count, false).recentSearches;
    if recent != [] {
      assert recent == Newest(mine, Stamp, RecentLimit);
      NewestAreNewest(mine, Stamp, RecentLimit, x);
    }
  }

  /** The number of days before today covered by `getPriceTrends`. */
  function TrendDays(timeRange: string): (r: nat)
    ensures r in {7, 30, 365}
    ensures timeRange !in {"week", "year"} ==> r == 30
  {
    if timeRange == "week" then 7 else if timeRange == "year" then 365 else 30
  }

  /**
   * The dates of the `getPriceTrends` series, as day numbers: one entry per
   * day from `days` days ago up to today.
   */
  method TrendDates(today: int, timeRange: string) returns (dates: seq<int>)
    ensures |dates| == TrendDays(timeRange) + 1
    ensures dates[0] == today - TrendDays(timeRange) && dates[|dates| - 1] == today
    ensures forall k :: 0 <= k < |dates| - 1 ==> dates[k + 1] == dates[k] + 1
  {
    var days := TrendDays(timeRange);
    dates := [];
    var i: int := days;
    while i >= 0
      invariant -1 <= i <= days
      invariant |dates| == days - i
      invariant forall k :: 0 <= k < |dates| ==> dates[k] == today - days + k
    {
      dates := dates + [today - i];
      i := i - 1;
    }
  }
}
