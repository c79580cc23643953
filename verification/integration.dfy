/**
 * The marketplace integration service: one scraper per registered
 * marketplace key, a search that merges the scrapers' answers tagged with the
 * key they were requested under, and a health report. Each scraper's answer
 * is given by the function `outcome`.
 */
module Integration {
  import opened Wrappers
  import opened Seqs
  import opened Sorting
  import opened Types

  /** The marketplace keys with a scraper, in insertion order. */
  const Registered: seq<string> := ["depop", "facebook"]

  predicate IsRegistered(m: string) {
    m == "depop" || m == "facebook"
  }

  /** What one scraper's `search` did: answered with results, or threw. */
  datatype ScraperOutcome = Returned(items: seq<SearchResult>) | Threw

  /** `query.marketplaces || ['depop', 'facebook']`: an array, even an empty one, is kept. */
  function Marketplaces(marketplaces: Option<seq<string>>): (r: seq<string>)
    ensures marketplaces.None? ==> r == Registered
    ensures marketplaces.Some? ==> r == marketplaces.value
  {
    if marketplaces.Some? then marketplaces.value else Registered
  }

  /** `{ ...result, source: marketplace }` for every result. */
  function Tag(items: seq<SearchResult>, m: string): (r: seq<SearchResult>)
    ensures |r| == |items|
    ensures forall i :: 0 <= i < |r| ==> r[i] == items[i].(source := m)
  {
    Map(items, (x: SearchResult) => x.(source := m))
  }

  /** What one marketplace adds: nothing without a scraper or when it throws. */
  function Contribution(m: string, outcome: string -> ScraperOutcome): (r: seq<SearchResult>)
    ensures !IsRegistered(m) || outcome(m).Threw? ==> r == []
    ensures forall i :: 0 <= i < |r| ==> r[i].source == m
  {
    if IsRegistered(m) && outcome(m).Returned? then Tag(outcome(m).items, m) else []
  }

  /** The per-marketplace arrays joined in the order of the marketplace list. */
  function Gathered(ms: seq<string>, outcome: string -> ScraperOutcome): seq<SearchResult> {
    if |ms| == 0 then [] else Gathered(ms[..|ms| - 1], outcome) + Contribution(ms[|ms| - 1], outcome)
  }

  /** Every gathered result is tagged with a listed, registered marketplace. */
  lemma {:induction false} GatheredSources(ms: seq<string>, outcome: string -> ScraperOutcome)
    ensures forall x :: x in Gathered(ms, outcome) ==> x.source in ms && IsRegistered(x.source)
  {
    if |ms| > 0 {
      var init := ms[..|ms| - 1];
      GatheredSources(init, outcome);
      assert forall m :: m in init ==> m in ms;
      var c := Contribution(ms[|ms| - 1], outcome);
      assert forall x :: x in c ==> x.source == ms[|ms| - 1];
    }
  }

  /** `searchAllMarketplaces`: the gathered results, newest first. */
  function SearchAll(marketplaces: Option<seq<string>>, outcome: string -> ScraperOutcome): (r: seq<SearchResult>)
    ensures multiset(r) == multiset(Gathered(Marketplaces(marketplaces), outcome))
    ensures SortedDesc(r, (x: SearchResult) => x.postedAt as real)
    ensures forall i :: 0 <= i < |r| ==> r[i].source in Marketplaces(marketplaces) && IsRegistered(r[i].source)
  {
    var g := Gathered(Marketplaces(marketplaces), outcome);
    var r := SortDesc(g, (x: SearchResult) => x.postedAt as real);
    GatheredSources(Marketplaces(marketplaces), outcome);
    assert forall i :: 0 <= i < |r| ==> r[i] in multiset(g);
    r
  }

  lemma GatheredSnoc(ms: seq<string>, m: string, outcome: string -> ScraperOutcome)
    ensures Gathered(ms + [m], outcome) == Gathered(ms, outcome) + Contribution(m, outcome)
  {
    assert (ms + [m])[..|ms|] == ms;
  }

  /** Marketplaces without a scraper are ignored: the list may as well have left them out. */
  lemma {:induction false} UnknownMarketplacesIgnored(ms: seq<string>, outcome: string -> ScraperOutcome)
    ensures Gathered(ms, outcome) == Gathered(Filter(ms, IsRegistered), outcome)
  {
    if |ms| > 0 {
      var init, last := ms[..|ms| - 1], ms[|ms| - 1];
      UnknownMarketplacesIgnored(init, outcome);
      FilterSnoc(ms, IsRegistered);
      var kept := Filter(init, IsRegistered);
      assert Gathered(ms, outcome) == Gathered(init, outcome) + Contribution(last, outcome);
      assert Gathered(ms, outcome) == Gathered(kept, outcome) + Contribution(last, outcome);
      if IsRegistered(last) {
        assert Filter(ms, IsRegistered) == kept + [last];
        GatheredSnoc(kept, last, outcome);
        assert Gathered(Filter(ms, IsRegistered), outcome) == Gathered(kept, outcome) + Contribution(last, outcome);
      } else {
        assert Filter(ms, IsRegistered) == kept;
        assert Contribution(last, outcome) == [];
        assert Gathered(ms, outcome) == Gathered(kept, outcome);
      }
    }
  }

  /** An empty marketplace list searches nothing. */
  lemma EmptyListSearchesNothing(outcome: string -> ScraperOutcome)
    ensures SearchAll(Some([]), outcome) == []
  {
  }

  /**
   * `getHealthStatus`: one entry per registered scraper; a check that throws
   * (`None`) reports false.
   */
  function HealthStatus(check: string -> Option<bool>): (r: map<string, bool>)
    ensures r.Keys == {"depop", "facebook"}
    ensures forall m :: m in r ==> (r[m] <==> check(m) == Some(true))
  {
    map m | m in {"depop", "facebook"} :: check(m) == Some(true)
  }

  /** Both scrapers' checks answer true, so the report is all true. */
  lemma HealthyScrapers()
    ensures HealthStatus(m => Some(true)) == map["depop" := true, "facebook" := true]
  {
  }
}
