/**
 * The search execution endpoint: it authenticates the caller, validates the
 * body, loads the caller's saved search, scores every raw result ten at a
 * time, keeps the results that reach the search's threshold sorted by score,
 * upserts them keyed by (search id, external id), stamps `last_run` and
 * notifies about the best of them.
 *
 * The raw results are an input (the aggregator call that would fetch them
 * is not part of this model); each result's scoring reply is given by
 * `reply`; the store is a map from key to row.
 */
module Execute {
  import opened Wrappers
  import opened Seqs
  import opened Sorting
  import opened Types
  import Json
  import Scorer
  import Batching

  /** The `searches` row the endpoint reads. */
  datatype SavedSearch = SavedSearch(
    id: string,
    userId: string,
    keywords: seq<string>,
    filters: Option<Filters>,
    minRelevanceScore: Option<real>,
    notificationEnabled: bool)

  /** The validated body: `{ searchId, immediate }`. */
  datatype ExecRequest = ExecRequest(searchId: string, immediate: bool)

  const BatchSize: nat := 10
  const HighRelevance: real := 8.0
  const NotifyLimit: nat := 5
  const DataLimit: nat := 20

  predicate IsHex(c: char) {
    '0' <= c <= '9' || 'a' <= c <= 'f' || 'A' <= c <= 'F'
  }

  predicate IsDashPosition(i: int) {
    i == 8 || i == 13 || i == 18 || i == 23
  }

  /** `z.string().uuid()`: five groups of 8, 4, 4, 4 and 12 hex digits joined by '-'. */
  predicate IsUuid(s: string) {
    |s| == 36 && forall i :: 0 <= i < 36 ==> if IsDashPosition(i) then s[i] == '-' else IsHex(s[i])
  }

  /** A hyphenated UUID passes; the same digits without hyphens do not. */
  lemma UuidExamples()
    ensures IsUuid("123e4567-e89b-12d3-a456-426614174000")
    ensures !IsUuid("123e4567e89b12d3a456426614174000")
  {
    var s := "123e4567-e89b-12d3-a456-426614174000";
    assert forall i :: 0 <= i < 36 ==> if IsDashPosition(i) then s[i] == '-' else IsHex(s[i]);
  }

  /** `ExecuteSearchSchema.parse(body)`. */
  function ParseBody(body: Json.Value): (r: Result<ExecRequest>)
    ensures r.Success? <==>
      body.Obj? && Json.StringOf(Json.Field(body.fields, "searchId")).Some?
      && IsUuid(Json.StringOf(Json.Field(body.fields, "searchId")).value)
      && Json.OptionalBool(Json.Field(body.fields, "immediate"))
    ensures r.Success? ==> Json.Field(body.fields, "searchId") == Some(Json.Str(r.value.searchId))
    ensures r.Success? ==> (r.value.immediate <==> "immediate" !in body.fields || body.fields["immediate"] == Json.Bool(true))
  {
    if !body.Obj? then Failure("Validation error")
    else
      var id := Json.StringOf(Json.Field(body.fields, "searchId"));
      var immediate := Json.Field(body.fields, "immediate");
      if id.None? || !IsUuid(id.value) || !Json.OptionalBool(immediate) then Failure("Validation error")
      else Success(ExecRequest(id.value, if immediate.Some? then immediate.value.b else true))
  }

  /** `search.minRelevanceScore || 6`. */
  function Threshold(minRelevanceScore: Option<real>): (r: real)
    ensures TruthyReal(minRelevanceScore) ==> r == minRelevanceScore.value
    ensures !TruthyReal(minRelevanceScore) ==> r == 6.0
  {
    if TruthyReal(minRelevanceScore) then minRelevanceScore.value else 6.0
  }

  /** A raw result together with its analysis. */
  datatype Analysed = Analysed(result: SearchResult, analysis: Scorer.Analysis)

  function Score(a: Analysed): real {
    a.analysis.relevanceScore
  }

  /** The listing handed to the scorer: no description is passed. */
  function ListingOf(r: SearchResult): Scorer.Listing {
    Scorer.Listing(r.title, None, r.price)
  }

  /** The criteria handed to the scorer: `filters || {}` and the threshold. */
  function CriteriaOf(s: SavedSearch): Scorer.Criteria {
    Scorer.Criteria(s.keywords, s.filters.GetOr(NoFilters), Threshold(s.minRelevanceScore))
  }

  function AnalyseOne(s: SavedSearch, reply: SearchResult -> Scorer.RemoteReply, parse: string -> Option<Scorer.RawAnswer>, r: SearchResult): Analysed {
    Analysed(r, Scorer.AnalyzeListing(ListingOf(r), CriteriaOf(s), reply(r), parse))
  }

  /** The reference for the scoring loop: every raw result analysed, in order. */
  function AnalyseAll(raw: seq<SearchResult>, s: SavedSearch, reply: SearchResult -> Scorer.RemoteReply, parse: string -> Option<Scorer.RawAnswer>): (r: seq<Analysed>)
    ensures |r| == |raw|
    ensures forall k :: 0 <= k < |r| ==> r[k].result == raw[k] && 1.0 <= Score(r[k]) <= 10.0
  {
    Map(raw, (x: SearchResult) => AnalyseOne(s, reply, parse, x))
  }

  function Kept(analysed: seq<Analysed>, threshold: real): seq<Analysed> {
    Filter(analysed, AtLeast(Score, threshold))
  }

  /**
   * `filteredResults` after its in-place sort: exactly the analysed results
   * reaching the threshold, highest score first.
   */
  function Saved(analysed: seq<Analysed>, threshold: real): (r: seq<Analysed>)
    ensures multiset(r) == multiset(Kept(analysed, threshold))
    ensures SortedDesc(r, Score)
    ensures forall i :: 0 <= i < |r| ==> Score(r[i]) >= threshold && r[i] in analysed
    ensures forall i :: 0 <= i < |analysed| && Score(analysed[i]) >= threshold ==> analysed[i] in r
  {
    var kept := Kept(analysed, threshold);
    KeptMembers(analysed, threshold);
    SortDescMembers(kept, Score);
    SortDesc(kept, Score)
  }

  /** The kept results are the analysed ones reaching the threshold. */
  lemma KeptMembers(analysed: seq<Analysed>, threshold: real)
    ensures forall x :: x in Kept(analysed, threshold) ==> Score(x) >= threshold && x in analysed
    ensures forall i :: 0 <= i < |analysed| && Score(analysed[i]) >= threshold ==> analysed[i] in Kept(analysed, threshold)
  {
    var kept := Kept(analysed, threshold);
    forall x | x in kept ensures Score(x) >= threshold && x in analysed {
      var i :| 0 <= i < |kept| && kept[i] == x;
      assert AtLeast(Score, threshold)(kept[i]);
    }
    forall i | 0 <= i < |analysed| && Score(analysed[i]) >= threshold ensures analysed[i] in kept {
      assert AtLeast(Score, threshold)(analysed[i]);
    }
  }

  /** One `search_results` row. */
  datatype Row = Row(
    searchId: string,
    userId: string,
    externalId: string,
    title: string,
    price: real,
    imageUrl: string,
    listingUrl: string,
    marketplace: string,
    postedAt: int,
    condition: Option<string>,
    location: Option<string>,
    sellerName: Option<string>,
    sellerRating: Option<real>,
    relevanceScore: real,
    aiReasoning: string,
    keyMatches: seq<string>,
    redFlags: seq<string>,
    priceAnalysis: Scorer.PriceAnalysis)

  /** The conflict target `search_id,external_id`. */
  type Key = (string, string)

  function KeyOf(row: Row): Key {
    (row.searchId, row.externalId)
  }

  function RowOf(searchId: string, userId: string, a: Analysed): Row {
    var r := a.result;
    Row(searchId, userId, r.id, r.title, r.price, r.image, r.url, r.source, r.postedAt, r.condition, r.location,
      if r.seller.Some? then Some(r.seller.value.name) else None,
      if r.seller.Some? then r.seller.value.rating else None,
      a.analysis.relevanceScore, a.analysis.reasoning, a.analysis.keyMatches, a.analysis.redFlags, a.analysis.priceAnalysis)
  }

  /** `resultsToSave`: one row per saved result, in order, keyed by the search and the result's id. */
  function Rows(searchId: string, userId: string, saved: seq<Analysed>): (r: seq<Row>)
    ensures |r| == |saved|
    ensures forall i :: 0 <= i < |r| ==> KeyOf(r[i]) == (searchId, saved[i].result.id) && r[i].userId == userId
    ensures forall i :: 0 <= i < |r| ==> r[i].relevanceScore == Score(saved[i])
  {
    Map(saved, (a: Analysed) => RowOf(searchId, userId, a))
  }

  function KeysOf(rows: seq<Row>): set<Key> {
    set i | 0 <= i < |rows| :: KeyOf(rows[i])
  }

  predicate DistinctKeys(rows: seq<Row>) {
    forall i, j :: 0 <= i < j < |rows| ==> KeyOf(rows[i]) != KeyOf(rows[j])
  }

  /** The rows written one after another, each replacing any row with its key. */
  function WriteAll(store: map<Key, Row>, rows: seq<Row>): map<Key, Row>
    decreases |rows|
  {
    if |rows| == 0 then store else WriteAll(store[KeyOf(rows[0]) := rows[0]], rows[1..])
  }

  lemma {:induction false} WriteAllContents(store: map<Key, Row>, rows: seq<Row>)
    requires DistinctKeys(rows)
    ensures WriteAll(store, rows).Keys == store.Keys + KeysOf(rows)
    ensures forall i :: 0 <= i < |rows| ==> KeyOf(rows[i]) in WriteAll(store, rows) && WriteAll(store, rows)[KeyOf(rows[i])] == rows[i]
    ensures forall k :: k in store && k !in KeysOf(rows) ==> WriteAll(store, rows)[k] == store[k]
    decreases |rows|
  {
    if |rows| > 0 {
      var s' := store[KeyOf(rows[0]) := rows[0]];
      WriteAllContents(s', rows[1..]);
      assert KeysOf(rows) == {KeyOf(rows[0])} + KeysOf(rows[1..]) by {
        forall k | k in KeysOf(rows) ensures k in {KeyOf(rows[0])} + KeysOf(rows[1..]) {
          var i :| 0 <= i < |rows| && KeyOf(rows[i]) == k;
          if i > 0 {
            assert rows[1..][i - 1] == rows[i];
          }
        }
        forall k | k in KeysOf(rows[1..]) ensures k in KeysOf(rows) {
          var i :| 0 <= i < |rows[1..]| && KeyOf(rows[1..][i]) == k;
          assert rows[1..][i] == rows[i + 1];
        }
      }
      forall i | 0 <= i < |rows|
        ensures WriteAll(store, rows)[KeyOf(rows[i])] == rows[i]
      {
        if i > 0 {
          assert rows[1..][i - 1] == rows[i];
        } else {
          forall j | 0 <= j < |rows[1..]| ensures KeyOf(rows[1..][j]) != KeyOf(rows[0]) {
            assert rows[1..][j] == rows[j + 1];
          }
          assert KeyOf(rows[0]) !in KeysOf(rows[1..]);
        }
      }
    }
  }

  /**
   * `upsert(rows, { onConflict: 'search_id,external_id' })`: a batch holding
   * two rows with the same key is refused as a whole and leaves the store
   * unchanged; otherwise every row replaces or adds the row with its key.
   */
  function Upsert(store: map<Key, Row>, rows: seq<Row>): (r: Result<map<Key, Row>>)
    ensures r.Success? <==> DistinctKeys(rows)
    ensures r.Success? ==> r.value.Keys == store.Keys + KeysOf(rows)
    ensures r.Success? ==> forall i :: 0 <= i < |rows| ==> KeyOf(rows[i]) in r.value && r.value[KeyOf(rows[i])] == rows[i]
    ensures r.Success? ==> forall k :: k in store && k !in KeysOf(rows) ==> r.value[k] == store[k]
  {
    if DistinctKeys(rows) then
      WriteAllContents(store, rows);
      Success(WriteAll(store, rows))
    else Failure("ON CONFLICT DO UPDATE command cannot affect row a second time")
  }

  /** Upserting the same rows again changes nothing, so the stored key set stays the same. */
  lemma UpsertIdempotent(store: map<Key, Row>, rows: seq<Row>)
    requires Upsert(store, rows).Success?
    ensures Upsert(Upsert(store, rows).value, rows) == Upsert(store, rows)
  {
    var m := Upsert(store, rows).value;
    assert Upsert(m, rows).Success?;
    var m' := Upsert(m, rows).value;
    assert m'.Keys == m.Keys;
    forall k | k in m ensures m'[k] == m[k] {
      if k in KeysOf(rows) {
        var i :| 0 <= i < |rows| && KeyOf(rows[i]) == k;
      }
    }
    assert m' == m;
  }

  /** The store after the upsert; the route does not look at the upsert's error. */
  function StoreAfter(store: map<Key, Row>, rows: seq<Row>): (r: map<Key, Row>)
    ensures !DistinctKeys(rows) ==> r == store
    ensures DistinctKeys(rows) ==> r.Keys == store.Keys + KeysOf(rows)
  {
    match Upsert(store, rows)
    case Success(m) => m
    case Failure(_) => store
  }

  function High(saved: seq<Analysed>): seq<Analysed> {
    Filter(saved, AtLeast(Score, HighRelevance))
  }

  /** The results that get a notification: the first five high-relevance ones, only for an immediate run of a notifying search. */
  function Targets(saved: seq<Analysed>, immediate: bool, enabled: bool): (r: seq<Analysed>)
    ensures |r| <= NotifyLimit
    ensures r != [] ==> immediate && enabled
    ensures forall i :: 0 <= i < |r| ==> Score(r[i]) >= HighRelevance && r[i] in saved
    ensures immediate && enabled ==> |r| == if |High(saved)| < NotifyLimit then |High(saved)| else NotifyLimit
  {
    if immediate && enabled && |High(saved)| > 0 then Take(High(saved), NotifyLimit) else []
  }

  /** In a list sorted by score the notified results are the best-scored ones: a prefix of the list. */
  lemma TargetsArePrefix(saved: seq<Analysed>, immediate: bool, enabled: bool)
    requires SortedDesc(saved, Score)
    ensures Targets(saved, immediate, enabled) == saved[..|Targets(saved, immediate, enabled)|]
  {
    AtLeastIsPrefix(saved, Score, HighRelevance);
  }

  /** A notification attempt: `createNotification` for one high-relevance result. */
  datatype NotifyEvent = NotifyEvent(userId: string, message: string, itemId: string, searchId: string, score: real)

  function EventOf(userId: string, searchId: string, a: Analysed): NotifyEvent {
    NotifyEvent(userId, "New high-relevance item found: " + a.result.title, a.result.id, searchId, Score(a))
  }

  datatype Response =
    | Executed(results: nat, highRelevance: nat, data: Option<seq<Analysed>>)
    | Error(status: nat, message: string)

  /** What one request did: the response, the store afterwards, the new `last_run`, the notifications attempted and the pauses between scoring batches. */
  datatype Outcome = Outcome(response: Response, store: map<Key, Row>, lastRun: Option<int>, notified: seq<NotifyEvent>, pauses: nat)

  /** One attempt per target, in order. */
  function Notifications(userId: string, searchId: string, targets: seq<Analysed>): (r: seq<NotifyEvent>)
    ensures |r| == |targets|
    ensures forall i :: 0 <= i < |r| ==>
      (r[i].itemId == targets[i].result.id && r[i].userId == userId && r[i].score == Score(targets[i]) && r[i].searchId == searchId)
  {
    Map(targets, (a: Analysed) => EventOf(userId, searchId, a))
  }

  /** The response of a run that got as far as scoring. */
  function Report(saved: seq<Analysed>, immediate: bool): (r: Response)
    ensures r.Executed? && r.results == |saved| && r.highRelevance <= |saved|
    ensures r.highRelevance == |High(saved)|
    ensures immediate <==> r.data.Some?
    ensures r.data.Some? ==> |r.data.value| == (if |saved| < DataLimit then |saved| else DataLimit)
    ensures r.data.Some? ==> forall i :: 0 <= i < |r.data.value| ==> r.data.value[i] == saved[i]
  {
    Executed(|saved|, |High(saved)|, if immediate then Some(Take(saved, DataLimit)) else None)
  }

  /**
   * Everything after scoring. Nothing is written and nobody is notified when
   * no result reaches the threshold; every notification is attempted, since
   * one failing does not stop the others.
   */
  function Decide(req: ExecRequest, userId: string, s: SavedSearch, analysed: seq<Analysed>, store: map<Key, Row>, now: int): (r: Outcome)
    ensures r.response == Report(Saved(analysed, Threshold(s.minRelevanceScore)), req.immediate)
    ensures Saved(analysed, Threshold(s.minRelevanceScore)) == [] ==> r.store == store && r.lastRun == None && r.notified == []
    ensures Saved(analysed, Threshold(s.minRelevanceScore)) != [] ==>
      r.store == StoreAfter(store, Rows(req.searchId, userId, Saved(analysed, Threshold(s.minRelevanceScore))))
      && r.lastRun == Some(now)
      && r.notified == Notifications(userId, req.searchId, Targets(Saved(analysed, Threshold(s.minRelevanceScore)), req.immediate, s.notificationEnabled))
  {
    var saved := Saved(analysed, Threshold(s.minRelevanceScore));
    if |saved| == 0 then Outcome(Report(saved, req.immediate), store, None, [], 0)
    else
      var targets := Targets(saved, req.immediate, s.notificationEnabled);
      Outcome(Report(saved, req.immediate), StoreAfter(store, Rows(req.searchId, userId, saved)), Some(now),
        Notifications(userId, req.searchId, targets), 0)
  }

  function Failed(status: nat, message: string, store: map<Key, Row>): Outcome {
    Outcome(Error(status, message), store, None, [], 0)
  }

  /** The request passes every check made before the search itself: a caller, a valid body, an owned search and a key. */
  predicate Reaches(user: Option<string>, body: Option<Json.Value>, searches: map<string, SavedSearch>, apiKey: Option<string>) {
    user.Some? && body.Some? && ParseBody(body.value).Success?
    && ParseBody(body.value).value.searchId in searches
    && searches[ParseBody(body.value).value.searchId].userId == user.value
    && TruthyString(apiKey)
  }

  /**
   * The route as written: `SearchAggregator` has no `searchAllMarketplaces`,
   * so once the checks pass the call throws a `TypeError` inside the inner
   * `try` and the request ends in 500 'Search execution failed', having
   * written nothing and notified nobody.
   */
  function ExecuteAsWritten(user: Option<string>, body: Option<Json.Value>, searches: map<string, SavedSearch>, apiKey: Option<string>,
                            store: map<Key, Row>): (out: Outcome)
    ensures out.response.Error? && out.store == store && out.lastRun.None? && out.notified == [] && out.pauses == 0
    ensures out.response == Error(500, "Search execution failed") <==> Reaches(user, body, searches, apiKey)
    ensures user.None? ==> out == Failed(401, "Unauthorized", store)
  {
    if user.None? then Failed(401, "Unauthorized", store)
    else if body.None? then Failed(500, "Internal server error", store)
    else if ParseBody(body.value).Failure? then Failed(400, "Validation error", store)
    else
      var req := ParseBody(body.value).value;
      if req.searchId !in searches || searches[req.searchId].userId != user.value then Failed(404, "Search not found", store)
      else if !TruthyString(apiKey) then Failed(500, "Internal server error", store)
      else Failed(500, "Search execution failed", store)
  }

  /**
   * Every request that passes the checks fails as written, where the
   * intended pipeline answers with a report.
   */
  lemma AsWrittenNeverExecutes(user: Option<string>, body: Option<Json.Value>, searches: map<string, SavedSearch>, apiKey: Option<string>,
                               raw: seq<SearchResult>, reply: SearchResult -> Scorer.RemoteReply, parse: string -> Option<Scorer.RawAnswer>,
                               store: map<Key, Row>, now: int)
    requires Reaches(user, body, searches, apiKey)
    ensures ExecuteAsWritten(user, body, searches, apiKey, store) == Failed(500, "Search execution failed", store)
    ensures var req := ParseBody(body.value).value;
      var s := searches[req.searchId];
      Decide(req, user.value, s, AnalyseAll(raw, s, reply, parse), store, now).response.Executed?
  {
  }

  /**
   * `POST /api/searches/execute`. `user` is the authenticated caller, `body`
   * the parsed JSON body (`None` when it is not JSON), `searches` the saved
   * searches by id and `apiKey` the scoring service's key.
   */
  method Execute(
    user: Option<string>, body: Option<Json.Value>, searches: map<string, SavedSearch>, apiKey: Option<string>,
    raw: seq<SearchResult>, reply: SearchResult -> Scorer.RemoteReply, parse: string -> Option<Scorer.RawAnswer>,
    store: map<Key, Row>, now: int)
    returns (out: Outcome)
    ensures user.None? ==> out == Failed(401, "Unauthorized", store)
    ensures user.Some? && body.None? ==> out == Failed(500, "Internal server error", store)
    ensures user.Some? && body.Some? && ParseBody(body.value).Failure? ==> out == Failed(400, "Validation error", store)
    ensures user.Some? && body.Some? && ParseBody(body.value).Success? ==>
      var req := ParseBody(body.value).value;
      if req.searchId !in searches || searches[req.searchId].userId != user.value then out == Failed(404, "Search not found", store)
      else if !TruthyString(apiKey) then out == Failed(500, "Internal server error", store)
      else
        var s := searches[req.searchId];
        out == Decide(req, user.value, s, AnalyseAll(raw, s, reply, parse), store, now).(pauses := Batching.PauseCount(|raw|, BatchSize))
  {
    if user.None? {
      return Failed(401, "Unauthorized", store);
    }
    if body.None? {
      return Failed(500, "Internal server error", store);
    }
    var parsed := ParseBody(body.value);
    if parsed.Failure? {
      return Failed(400, "Validation error", store);
    }
    var req := parsed.value;
    if req.searchId !in searches || searches[req.searchId].userId != user.value {
      return Failed(404, "Search not found", store);
    }
    if !TruthyString(apiKey) {
      return Failed(500, "Internal server error", store);
    }
    var s := searches[req.searchId];
    var analysed, pauses := Batching.MapInBatches(raw, BatchSize, (x: SearchResult) => AnalyseOne(s, reply, parse, x));
    assert analysed == AnalyseAll(raw, s, reply, parse);
    out := Decide(req, user.value, s, analysed, store, now).(pauses := pauses);
  }
}
