/**
 * The scheduler that re-runs saved searches: every active search not run in
 * the last 30 minutes is executed, five at a time. Executing one search
 * stamps `last_run` first, collects the ids it reported before, runs the
 * search and stores and announces only the results not seen before.
 *
 * The store holds `search_results` records; each search's remote outcomes
 * (whether each write fails, what the search returns) come from `SearchEnv`.
 * The notification the scheduler creates is an event: the call that would
 * create it does not match the notification service's signature.
 */
module Scheduler {
  import opened Wrappers
  import opened Seqs
  import opened Sorting
  import opened Types
  import Batching

  /** How long a search rests between runs: 30 minutes, in milliseconds. */
  const RunInterval: int := 30 * 60 * 1000
  const BatchSize: nat := 5
  /** How many stored results are consulted to decide what is new. */
  const SeenWindow: nat := 100

  datatype ScheduledSearch = ScheduledSearch(
    id: string,
    userId: string,
    name: Option<string>,
    isActive: bool,
    lastRun: Option<int>,
    notificationEmail: bool)

  /** The selection `is_active = true and (last_run is null or last_run < now - 30 min)`. */
  predicate IsDue(now: int, s: ScheduledSearch) {
    s.isActive && (s.lastRun.None? || s.lastRun.value < now - RunInterval)
  }

  function DueAt(now: int): ScheduledSearch -> bool {
    (s: ScheduledSearch) => IsDue(now, s)
  }

  /** The searches to run: none when the query fails. */
  function DueSearches(table: seq<ScheduledSearch>, queryFails: bool, now: int): (r: seq<ScheduledSearch>)
    ensures queryFails ==> r == []
    ensures forall i :: 0 <= i < |r| ==> IsDue(now, r[i]) && r[i] in table
    ensures !queryFails ==> forall i :: 0 <= i < |table| && IsDue(now, table[i]) ==> table[i] in r
  {
    if queryFails then [] else Filter(table, DueAt(now))
  }

  /** A search run within the last 30 minutes, or paused, is not due. */
  lemma RecentlyRunNotDue(s: ScheduledSearch, now: int)
    ensures s.lastRun.Some? && now - RunInterval <= s.lastRun.value ==> !IsDue(now, s)
    ensures !s.isActive ==> !IsDue(now, s)
  {
  }

  /** A `search_results` record as the scheduler reads and writes it; `resultData` may be null. */
  datatype StoredResult = StoredResult(searchId: string, resultData: Option<SearchResult>, createdAt: int)

  function CreatedAt(r: StoredResult): real {
    r.createdAt as real
  }

  /** The 100 most recent records of the search, newest first. */
  function Previous(store: seq<StoredResult>, searchId: string): (r: seq<StoredResult>)
    ensures |r| <= SeenWindow
    ensures forall i :: 0 <= i < |r| ==> r[i].searchId == searchId && r[i] in store
    ensures SortedDesc(r, CreatedAt)
  {
    SearchMembers(store, searchId);
    Newest(Filter(store, OfSearch(searchId)), CreatedAt, SeenWindow)
  }

  function OfSearch(searchId: string): StoredResult -> bool {
    (x: StoredResult) => x.searchId == searchId
  }

  /** The records kept by `.eq('search_id', searchId)` are the search's records in the store. */
  lemma SearchMembers(store: seq<StoredResult>, searchId: string)
    ensures forall x :: x in Filter(store, OfSearch(searchId)) <==> x in store && x.searchId == searchId
  {
    var mine := Filter(store, OfSearch(searchId));
    forall x | x in mine ensures x.searchId == searchId && x in store {
      var i :| 0 <= i < |mine| && mine[i] == x;
      assert OfSearch(searchId)(mine[i]);
    }
    forall x | x in store && x.searchId == searchId ensures x in mine {
      var i :| 0 <= i < |store| && store[i] == x;
      assert OfSearch(searchId)(store[i]);
    }
  }

  /** The window holds every record of the search, or the newest hundred when there are more. */
  lemma PreviousSize(store: seq<StoredResult>, searchId: string)
    ensures var mine := Filter(store, OfSearch(searchId));
      |Previous(store, searchId)| == if |mine| < SeenWindow then |mine| else SeenWindow
  {
  }

  /** A record of the search left out of the window is no newer than any record in it. */
  lemma PreviousAreNewest(store: seq<StoredResult>, searchId: string, x: StoredResult)
    requires x in store && x.searchId == searchId && x !in Previous(store, searchId)
    ensures forall i :: 0 <= i < |Previous(store, searchId)| ==> Previous(store, searchId)[i].createdAt >= x.createdAt
  {
    SearchMembers(store, searchId);
    NewestAreNewest(Filter(store, OfSearch(searchId)), CreatedAt, SeenWindow, x);
  }

  /** `record.result_data.id` fails on a record without result data. */
  predicate Readable(prev: seq<StoredResult>) {
    forall i :: 0 <= i < |prev| ==> prev[i].resultData.Some?
  }

  /** `previousItemIds`. */
  function SeenIds(prev: seq<StoredResult>): (r: set<string>)
    requires Readable(prev)
    ensures forall i :: 0 <= i < |prev| ==> prev[i].resultData.value.id in r
    ensures forall id :: id in r ==> exists i :: 0 <= i < |prev| && prev[i].resultData.value.id == id
  {
    set i | 0 <= i < |prev| :: prev[i].resultData.value.id
  }

  function Unseen(seen: set<string>): SearchResult -> bool {
    (r: SearchResult) => r.id !in seen
  }

  /**
   * `newResults`: the fetched results whose id was not seen, in order. Ids
   * are compared alone, without the marketplace.
   */
  function NewResults(fetched: seq<SearchResult>, seen: set<string>): (r: seq<SearchResult>)
    ensures forall i :: 0 <= i < |r| ==> r[i].id !in seen && r[i] in fetched
    ensures forall i :: 0 <= i < |fetched| && fetched[i].id !in seen ==> fetched[i] in r
  {
    Filter(fetched, Unseen(seen))
  }

  /** A result that was not seen keeps every one of its copies, duplicates included; a seen one keeps none. */
  lemma NewResultsKeepCopies(fetched: seq<SearchResult>, seen: set<string>, x: SearchResult)
    ensures multiset(NewResults(fetched, seen))[x] == if x.id in seen then 0 else multiset(fetched)[x]
  {
    FilterMultiplicity(fetched, Unseen(seen), x);
  }

  /**
   * What one search's remote calls do. `previousFails` is a failed select of
   * the earlier records, which the code reads as no records; `fetched` is
   * `None` when the search throws.
   */
  datatype SearchEnv = SearchEnv(updateFails: bool, previousFails: bool, fetched: Option<seq<SearchResult>>, insertFails: bool)

  /** The writes one search run makes, in order. */
  datatype Event =
    | LastRunUpdated(searchId: string, at: int)
    | ResultsInserted(records: seq<StoredResult>)
    | Notified(userId: string, searchId: string, count: nat)
    | Emailed(userId: string, count: nat)

  function RecordsOf(searchId: string, results: seq<SearchResult>, now: int): (r: seq<StoredResult>)
    ensures |r| == |results|
    ensures forall i :: 0 <= i < |r| ==> r[i] == StoredResult(searchId, Some(results[i]), now)
  {
    Map(results, (x: SearchResult) => StoredResult(searchId, Some(x), now))
  }

  /** What happens once the new results are known. */
  function Announce(s: ScheduledSearch, newOnes: seq<SearchResult>, insertFails: bool, now: int): (r: seq<Event>)
    ensures newOnes == [] ==> r == []
    ensures newOnes != [] ==> |r| >= 1 && r[0] == ResultsInserted(RecordsOf(s.id, newOnes, now))
    ensures newOnes != [] && insertFails ==> |r| == 1
    ensures newOnes != [] && !insertFails ==> |r| >= 2 && r[1] == Notified(s.userId, s.id, |newOnes|)
    ensures newOnes != [] && !insertFails ==> (|r| == 3 <==> s.notificationEmail)
    ensures |r| == 3 ==> r[2] == Emailed(s.userId, |newOnes|)
    ensures forall i :: 0 <= i < |r| ==> !r[i].LastRunUpdated?
  {
    if |newOnes| == 0 then []
    else if insertFails then [ResultsInserted(RecordsOf(s.id, newOnes, now))]
    else
      [ResultsInserted(RecordsOf(s.id, newOnes, now)), Notified(s.userId, s.id, |newOnes|)]
      + (if s.notificationEmail then [Emailed(s.userId, |newOnes|)] else [])
  }

  /**
   * `executeSearch`: stamps `last_run` before anything else and stops if that
   * fails. Any error after that (a stored record without result data, a
   * search that throws) ends the run with only the stamp made; it never
   * reaches the other searches.
   */
  function RunSearch(s: ScheduledSearch, store: seq<StoredResult>, env: SearchEnv, now: int): (r: seq<Event>)
    ensures env.updateFails ==> r == []
    ensures !env.updateFails ==> |r| >= 1 && r[0] == LastRunUpdated(s.id, now)
    ensures forall i :: 1 <= i < |r| ==> !r[i].LastRunUpdated?
  {
    if env.updateFails then []
    else
      var rest := AfterStamp(s, Consulted(store, s.id, env), env, now);
      [LastRunUpdated(s.id, now)] + rest
  }

  /** The earlier records the run compares against: none when their select fails (`previousResults || []`). */
  function Consulted(store: seq<StoredResult>, searchId: string, env: SearchEnv): (r: seq<StoredResult>)
    ensures env.previousFails ==> r == []
    ensures !env.previousFails ==> r == Previous(store, searchId)
  {
    if env.previousFails then [] else Previous(store, searchId)
  }

  /**
   * The writes after the stamp: none when a previous record has no result
   * data or the search throws, otherwise those for the new results.
   */
  function AfterStamp(s: ScheduledSearch, prev: seq<StoredResult>, env: SearchEnv, now: int): (r: seq<Event>)
    ensures forall i :: 0 <= i < |r| ==> !r[i].LastRunUpdated?
  {
    if !Readable(prev) || env.fetched.None? then []
    else Announce(s, NewResults(env.fetched.value, SeenIds(prev)), env.insertFails, now)
  }

  /** Nothing is inserted or announced unless some fetched result is new. */
  lemma NoNewResultsNoWrites(s: ScheduledSearch, store: seq<StoredResult>, env: SearchEnv, now: int)
    requires env.fetched.Some? && Readable(Consulted(store, s.id, env))
    requires forall i :: 0 <= i < |env.fetched.value| ==> env.fetched.value[i].id in SeenIds(Consulted(store, s.id, env))
    ensures RunSearch(s, store, env, now) == if env.updateFails then [] else [LastRunUpdated(s.id, now)]
  {
    FilterNone(env.fetched.value, Unseen(SeenIds(Consulted(store, s.id, env))));
  }

  /**
   * When the select of earlier records fails, every fetched result counts as
   * new: all of them are inserted again, and announced if the insert succeeds.
   */
  lemma PreviousFailureRepeatsAll(s: ScheduledSearch, store: seq<StoredResult>, env: SearchEnv, now: int)
    requires env.previousFails && !env.updateFails && env.fetched.Some? && env.fetched.value != []
    ensures |RunSearch(s, store, env, now)| >= 2
    ensures RunSearch(s, store, env, now)[1] == ResultsInserted(RecordsOf(s.id, env.fetched.value, now))
    ensures !env.insertFails ==> RunSearch(s, store, env, now)[2] == Notified(s.userId, s.id, |env.fetched.value|)
  {
    var fetched := env.fetched.value;
    assert Readable([]) && SeenIds([]) == {};
    FilterAll(fetched, Unseen({}));
    assert AfterStamp(s, [], env, now) == Announce(s, fetched, env.insertFails, now);
    assert RunSearch(s, store, env, now) == [LastRunUpdated(s.id, now)] + Announce(s, fetched, env.insertFails, now);
  }

  /**
   * `executeScheduledSearches`: runs the due searches in slices of five,
   * pausing only between slices; every search runs against the same store and
   * its own outcomes, so one search's failure does not affect another.
   */
  method ExecuteScheduled(table: seq<ScheduledSearch>, queryFails: bool, store: seq<StoredResult>, env: string -> SearchEnv, now: int)
    returns (runs: seq<seq<Event>>, pauses: nat)
    ensures |runs| == |DueSearches(table, queryFails, now)|
    ensures forall k :: 0 <= k < |runs| ==>
      var s := DueSearches(table, queryFails, now)[k];
      runs[k] == RunSearch(s, store, env(s.id), now)
    ensures pauses == Batching.PauseCount(|runs|, BatchSize)
    ensures queryFails ==> runs == [] && pauses == 0
  {
    var due := DueSearches(table, queryFails, now);
    runs, pauses := Batching.MapInBatches(due, BatchSize, (s: ScheduledSearch) => RunSearch(s, store, env(s.id), now));
  }
}
