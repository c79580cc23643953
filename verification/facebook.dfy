/**
 * The Facebook Marketplace scraper, which answers every search with two
 * canned listings filtered by the query's price bounds. The random prices
 * and posting ages of the canned listings are parameters.
 */
module Facebook {
  import opened Wrappers
  import opened Types
  import Scorer
  import RateLimit

  /** The scraper's minimum gap between requests, in milliseconds. */
  const RateLimitDelay: nat := 2000

  /** The random draws behind the canned listings. */
  datatype Draws = Draws(price1: real, price2: real, age1: int, age2: int)

  function Mock1(q: Query, now: int, d: Draws): SearchResult {
    SearchResult("fb_1", q.keywords + " - Great condition", d.price1, "https://via.placeholder.com/300x300",
      "https://facebook.com/marketplace/item/123", "facebook", now - d.age1, Some("good"), Some("Local area"),
      Some(Seller("seller_1", "John Doe", Some(4.5))))
  }

  function Mock2(q: Query, now: int, d: Draws): SearchResult {
    SearchResult("fb_2", "Vintage " + q.keywords, d.price2, "https://via.placeholder.com/300x300",
      "https://facebook.com/marketplace/item/456", "facebook", now - d.age2, Some("fair"), Some("Nearby"),
      Some(Seller("seller_2", "Jane Smith", Some(4.8))))
  }

  /** The filter of `getMockResults`. */
  predicate Keep(q: Query, r: SearchResult) {
    !(TruthyReal(q.minPrice) && r.price < q.minPrice.value) && !(TruthyReal(q.maxPrice) && r.price > q.maxPrice.value)
  }

  /** `getMockResults`: the canned listings, in order, that pass the price filter. */
  function MockResults(q: Query, now: int, d: Draws): (r: seq<SearchResult>)
    ensures |r| <= 2
    ensures forall i :: 0 <= i < |r| ==> r[i].source == "facebook" && Keep(q, r[i])
    ensures Mock1(q, now, d) in r <==> Keep(q, Mock1(q, now, d))
    ensures Mock2(q, now, d) in r <==> Keep(q, Mock2(q, now, d))
    ensures |r| == 2 ==> r == [Mock1(q, now, d), Mock2(q, now, d)]
  {
    var m1, m2 := Mock1(q, now, d), Mock2(q, now, d);
    assert m1.id != m2.id;
    (if Keep(q, m1) then [m1] else []) + (if Keep(q, m2) then [m2] else [])
  }

  /** The mock filter is the scorer's price test applied to the query's bounds. */
  lemma KeepIsPriceInRange(q: Query, r: SearchResult)
    ensures Keep(q, r) <==> Scorer.IsPriceInRange(r.price, NoFilters.(minPrice := q.minPrice, maxPrice := q.maxPrice))
  {
  }

  /** Both canned titles contain the keywords. */
  lemma TitlesEmbedKeywords(q: Query, now: int, d: Draws)
    ensures Mock1(q, now, d).title[..|q.keywords|] == q.keywords
    ensures Mock2(q, now, d).title[|"Vintage "|..] == q.keywords
  {
  }

  /** `search`: waits for the rate limiter, then answers with the canned listings. */
  function Search(l: RateLimit.Limiter, now: int, lateness: nat, q: Query, d: Draws): (r: (seq<SearchResult>, RateLimit.Limiter))
    ensures r.0 == MockResults(q, RateLimit.Acquire(l, now, lateness).lastRequestTime, d)
    ensures r.1.lastRequestTime >= l.lastRequestTime + l.minInterval
  {
    var l' := RateLimit.Acquire(l, now, lateness);
    (MockResults(q, l'.lastRequestTime, d), l')
  }

  /** `healthCheck` answers true without searching. */
  function HealthCheck(): (r: bool)
    ensures r
  {
    true
  }
}
