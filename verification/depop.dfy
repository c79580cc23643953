/**
 * The Depop scraper: how a query becomes the request's parameter list, the
 * condition and country lookup tables, the normalisation of Depop listings,
 * the paginated search and the error paths that turn every failure into an
 * empty page.
 *
 * The HTTP request is not modelled: a `DepopReply` stands for what came back.
 */
module Depop {
  import opened Wrappers
  import opened Text
  import opened Seqs
  import opened Types
  import RateLimit

  /** The scraper's minimum gap between requests, in milliseconds. */
  const RateLimitDelay: nat := 1000

  /** A parameter value: a literal string, or a number sent as its `toString()`. */
  datatype ParamValue = Str(s: string) | Num(n: real)

  datatype Param = Param(name: string, value: ParamValue)

  /** The values sent under `name`, in order (`params.getAll(name)`). */
  function Values(ps: seq<Param>, name: string): seq<ParamValue> {
    if |ps| == 0 then []
    else (if ps[0].name == name then [ps[0].value] else []) + Values(ps[1..], name)
  }

  lemma {:induction false} ValuesConcat(a: seq<Param>, b: seq<Param>, name: string)
    ensures Values(a + b, name) == Values(a, name) + Values(b, name)
  {
    if |a| == 0 {
      assert a + b == b;
    } else {
      var ab := a + b;
      assert ab[0] == a[0];
      assert ab[1..] == a[1..] + b;
      ValuesConcat(a[1..], b, name);
      assert Values(ab, name) == (if a[0].name == name then [a[0].value] else []) + Values(ab[1..], name);
    }
  }

  /** `mapCondition`: the platform's condition names; anything else is sent unchanged. */
  function MapCondition(c: string): (r: string)
    ensures c !in {"new", "like_new", "good", "fair", "poor"} ==> r == c
    ensures c in {"new", "like_new", "good", "fair", "poor"} ==> r in {"new_with_tags", "new_no_tags", "good", "well_worn"}
  {
    match c
    case "new" => "new_with_tags"
    case "like_new" => "new_no_tags"
    case "good" => "good"
    case "fair" => "well_worn"
    case "poor" => "well_worn"
    case _ => c
  }

  /** Two distinct conditions are sent as the same value. */
  lemma MapConditionNotInjective()
    ensures MapCondition("fair") == MapCondition("poor") && "fair" != "poor"
  {
  }

  const CountryNames: set<string> := {"uk", "united kingdom", "us", "usa", "united states", "canada", "australia", "france", "germany", "italy", "spain"}

  /** `getCountryCode`: looks the lower-cased location up; anything unlisted is 'GB'. */
  function GetCountryCode(location: string): (r: string)
    ensures r in {"GB", "US", "CA", "AU", "FR", "DE", "IT", "ES"}
    ensures Lower(location) !in CountryNames ==> r == "GB"
  {
    CountryOfKey(Lower(location))
  }

  /** The table lookup on an already lower-cased key. */
  function CountryOfKey(key: string): (r: string)
    ensures r in {"GB", "US", "CA", "AU", "FR", "DE", "IT", "ES"}
    ensures key !in CountryNames ==> r == "GB"
  {
    match key
    case "uk" => "GB"
    case "united kingdom" => "GB"
    case "us" => "US"
    case "usa" => "US"
    case "united states" => "US"
    case "canada" => "CA"
    case "australia" => "AU"
    case "france" => "FR"
    case "germany" => "DE"
    case "italy" => "IT"
    case "spain" => "ES"
    case _ => "GB"
  }

  /** The lookup ignores case. */
  lemma CountryCodeIgnoresCase(location: string)
    ensures GetCountryCode(Lower(location)) == GetCountryCode(location)
  {
    assert Lower(Lower(location)) == Lower(location) by {
      LowerIdempotent(location);
    }
  }

  /** The `sort` parameter: `sortMap[query.sortBy || 'newest'] || 'time'`. */
  function SortParam(sortBy: Option<string>): (r: string)
    ensures r in {"time", "price_asc", "price_desc", "relevance"}
    ensures !TruthyString(sortBy) ==> r == "time"
  {
    var key := if TruthyString(sortBy) then sortBy.value else "newest";
    match key
    case "newest" => "time"
    case "price_low" => "price_asc"
    case "price_high" => "price_desc"
    case "relevance" => "relevance"
    case _ => "time"
  }

  function ConditionParams(conditions: seq<string>): (r: seq<Param>)
    ensures |r| == |conditions|
    ensures forall k :: 0 <= k < |r| ==> r[k] == Param("condition", Str(MapCondition(conditions[k])))
  {
    if |conditions| == 0 then [] else [Param("condition", Str(MapCondition(conditions[0])))] + ConditionParams(conditions[1..])
  }

  function KeywordParams(q: Query): seq<Param> {
    if q.keywords != "" then [Param("q", Str(q.keywords))] else []
  }

  function PagingParams(offset: int): seq<Param> {
    [Param("limit", Str("20")), Param("offset", Num(offset as real))]
  }

  function SortParams(q: Query): seq<Param> {
    [Param("sort", Str(SortParam(q.sortBy)))]
  }

  function MinPriceParams(q: Query): seq<Param> {
    if TruthyReal(q.minPrice) then [Param("priceMin", Num(q.minPrice.value))] else []
  }

  function MaxPriceParams(q: Query): seq<Param> {
    if TruthyReal(q.maxPrice) then [Param("priceMax", Num(q.maxPrice.value))] else []
  }

  function ConditionsOf(q: Query): seq<Param> {
    if q.itemCondition.Some? then ConditionParams(q.itemCondition.value) else []
  }

  function CountryParams(q: Query): seq<Param> {
    if TruthyString(q.location) then [Param("countryCode", Str(GetCountryCode(q.location.value)))] else []
  }

  /** `buildSearchParams`: the parameters in the order they are appended. */
  function BuildSearchParams(q: Query, offset: int): seq<Param> {
    KeywordParams(q) + PagingParams(offset) + SortParams(q) + MinPriceParams(q) + MaxPriceParams(q)
      + ConditionsOf(q) + CountryParams(q)
  }

  /** The values sent under a name are those of the seven groups, in the order the groups are appended. */
  lemma GroupValues(q: Query, offset: int, name: string)
    ensures Values(BuildSearchParams(q, offset), name) == Values(KeywordParams(q), name) + Values(PagingParams(offset), name)
      + Values(SortParams(q), name) + Values(MinPriceParams(q), name) + Values(MaxPriceParams(q), name)
      + Values(ConditionsOf(q), name) + Values(CountryParams(q), name)
  {
    ValuesSplit(KeywordParams(q), PagingParams(offset), SortParams(q), MinPriceParams(q), MaxPriceParams(q),
      ConditionsOf(q), CountryParams(q), name);
  }

  /** Limit 20 and the offset are always sent, once each, as is the sort order. */
  lemma PagingAndSortSent(q: Query, offset: int)
    ensures Values(BuildSearchParams(q, offset), "limit") == [Str("20")]
    ensures Values(BuildSearchParams(q, offset), "offset") == [Num(offset as real)]
    ensures Values(BuildSearchParams(q, offset), "sort") == [Str(SortParam(q.sortBy))]
  {
    var r := BuildSearchParams(q, offset);
    assert Values(r, "limit") == [Str("20")] by {
      SentOutsideConditions(q, offset, "limit");
    }
    assert Values(r, "offset") == [Num(offset as real)] by {
      SentOutsideConditions(q, offset, "offset");
    }
    assert Values(r, "sort") == [Str(SortParam(q.sortBy))] by {
      SentOutsideConditions(q, offset, "sort");
    }
  }

  /** Outside the condition values, each name collects at most one value from each single-parameter segment. */
  lemma SentOutsideConditions(q: Query, offset: int, name: string)
    requires name != "condition"
    ensures Values(BuildSearchParams(q, offset), name)
      == (if q.keywords != "" && name == "q" then [Str(q.keywords)] else [])
      + (if name == "limit" then [Str("20")] else []) + (if name == "offset" then [Num(offset as real)] else [])
      + (if name == "sort" then [Str(SortParam(q.sortBy))] else [])
      + (if TruthyReal(q.minPrice) && name == "priceMin" then [Num(q.minPrice.value)] else [])
      + (if TruthyReal(q.maxPrice) && name == "priceMax" then [Num(q.maxPrice.value)] else [])
      + (if TruthyString(q.location) && name == "countryCode" then [Str(GetCountryCode(q.location.value))] else [])
  {
    GroupValues(q, offset, name);
    OnlyConditionNamed(q);
    PagingValues(offset);
    SegmentValues(q, name);
  }

  /** The keywords are sent iff they are non-empty. */
  lemma KeywordsSent(q: Query, offset: int)
    ensures Values(BuildSearchParams(q, offset), "q") == if q.keywords != "" then [Str(q.keywords)] else []
  {
    SentOutsideConditions(q, offset, "q");
  }

  /** The lower price bound is sent iff it is truthy, so a 0 bound is never sent. */
  lemma MinPriceSent(q: Query, offset: int)
    ensures Values(BuildSearchParams(q, offset), "priceMin") == if TruthyReal(q.minPrice) then [Num(q.minPrice.value)] else []
  {
    SentOutsideConditions(q, offset, "priceMin");
  }

  /** The upper price bound is sent iff it is truthy. */
  lemma MaxPriceSent(q: Query, offset: int)
    ensures Values(BuildSearchParams(q, offset), "priceMax") == if TruthyReal(q.maxPrice) then [Num(q.maxPrice.value)] else []
  {
    SentOutsideConditions(q, offset, "priceMax");
  }

  /** One condition value per requested condition, mapped and in order. */
  lemma ConditionsSent(q: Query, offset: int)
    ensures Values(BuildSearchParams(q, offset), "condition")
      == if q.itemCondition.Some? then Map(q.itemCondition.value, (c: string) => Str(MapCondition(c))) else []
  {
    var name := "condition";
    GroupValues(q, offset, name);
    assert Values(KeywordParams(q), name) + Values(PagingParams(offset), name) + Values(SortParams(q), name)
      + Values(MinPriceParams(q), name) + Values(MaxPriceParams(q), name) == [] by {
      PagingValues(offset);
      SegmentValues(q, name);
    }
    assert Values(CountryParams(q), name) == [] by {
      SegmentValues(q, name);
    }
    if q.itemCondition.Some? {
      ConditionValues(q.itemCondition.value);
    }
  }

  /** A country code is sent iff the location is non-empty. */
  lemma CountrySent(q: Query, offset: int)
    ensures Values(BuildSearchParams(q, offset), "countryCode")
      == if TruthyString(q.location) then [Str(GetCountryCode(q.location.value))] else []
  {
    SentOutsideConditions(q, offset, "countryCode");
  }

  /** The values of a list of at most one parameter. */
  lemma ValuesSingle(p: Param, name: string)
    ensures Values([p], name) == if p.name == name then [p.value] else []
    ensures Values([], name) == []
  {
    assert [p][1..] == [];
  }

  /** The single-parameter segments carry their parameter's value under its name only. */
  lemma SegmentValues(q: Query, name: string)
    ensures Values(KeywordParams(q), name) == if q.keywords != "" && name == "q" then [Str(q.keywords)] else []
    ensures Values(SortParams(q), name) == if name == "sort" then [Str(SortParam(q.sortBy))] else []
    ensures Values(MinPriceParams(q), name) == if TruthyReal(q.minPrice) && name == "priceMin" then [Num(q.minPrice.value)] else []
    ensures Values(MaxPriceParams(q), name) == if TruthyReal(q.maxPrice) && name == "priceMax" then [Num(q.maxPrice.value)] else []
    ensures Values(CountryParams(q), name)
      == if TruthyString(q.location) && name == "countryCode" then [Str(GetCountryCode(q.location.value))] else []
  {
    ValuesSingle(Param("q", Str(q.keywords)), name);
    ValuesSingle(Param("sort", Str(SortParam(q.sortBy))), name);
    if TruthyReal(q.minPrice) { ValuesSingle(Param("priceMin", Num(q.minPrice.value)), name); }
    if TruthyReal(q.maxPrice) { ValuesSingle(Param("priceMax", Num(q.maxPrice.value)), name); }
    if TruthyString(q.location) { ValuesSingle(Param("countryCode", Str(GetCountryCode(q.location.value))), name); }
  }

  lemma PagingValues(offset: int)
    ensures forall name :: (Values(PagingParams(offset), name)
      == (if name == "limit" then [Str("20")] else []) + (if name == "offset" then [Num(offset as real)] else []))
  {
    forall name ensures Values(PagingParams(offset), name)
      == (if name == "limit" then [Str("20")] else []) + (if name == "offset" then [Num(offset as real)] else [])
    {
      assert PagingParams(offset) == [Param("limit", Str("20"))] + [Param("offset", Num(offset as real))];
      ValuesConcat([Param("limit", Str("20"))], [Param("offset", Num(offset as real))], name);
    }
  }

  lemma OnlyConditionNamed(q: Query)
    ensures forall name :: name != "condition" ==> Values(ConditionsOf(q), name) == []
  {
    if q.itemCondition.Some? {
      ConditionValuesOther(q.itemCondition.value);
    }
  }

  lemma ValuesSplit(p1: seq<Param>, p2: seq<Param>, p3: seq<Param>, p4: seq<Param>, p5: seq<Param>, p6: seq<Param>, p7: seq<Param>, name: string)
    ensures Values(p1 + p2 + p3 + p4 + p5 + p6 + p7, name) == Values(p1, name) + Values(p2, name) + Values(p3, name)
      + Values(p4, name) + Values(p5, name) + Values(p6, name) + Values(p7, name)
  {
    ValuesConcat(p1 + p2 + p3 + p4 + p5 + p6, p7, name);
    ValuesConcat(p1 + p2 + p3 + p4 + p5, p6, name);
    ValuesConcat(p1 + p2 + p3 + p4, p5, name);
    ValuesConcat(p1 + p2 + p3, p4, name);
    ValuesConcat(p1 + p2, p3, name);
    ValuesConcat(p1, p2, name);
  }

  lemma {:induction false} ConditionValues(conditions: seq<string>)
    ensures Values(ConditionParams(conditions), "condition") == Map(conditions, (c: string) => Str(MapCondition(c)))
  {
    if |conditions| > 0 {
      ConditionValues(conditions[1..]);
      assert ConditionParams(conditions)[1..] == ConditionParams(conditions[1..]);
    }
  }

  lemma {:induction false} ConditionValuesOther(conditions: seq<string>)
    ensures forall name :: name != "condition" ==> Values(ConditionParams(conditions), name) == []
  {
    if |conditions| > 0 {
      ConditionValuesOther(conditions[1..]);
      assert ConditionParams(conditions)[1..] == ConditionParams(conditions[1..]);
    }
  }

  datatype DepopSeller = DepopSeller(id: string, username: string, verified: bool, rating: Option<real>)

  /** A listing as the platform returns it; `postedAt` is `posted_at` already read as a date. */
  datatype DepopListing = DepopListing(
    id: string,
    title: string,
    description: string,
    amount: real,
    currency: string,
    images: seq<string>,
    seller: DepopSeller,
    condition: Option<string>,
    postedAt: int,
    url: string,
    location: Option<string>)

  function Transform(l: DepopListing): SearchResult {
    SearchResult(
      l.id, l.title, l.amount,
      if |l.images| > 0 then l.images[0] else "",
      l.url, "depop", l.postedAt, l.condition, l.location,
      Some(Seller(l.seller.id, l.seller.username, l.seller.rating)))
  }

  /** `transformListings`: one result per listing, in order, tagged 'depop'. */
  function TransformListings(ls: seq<DepopListing>): (r: seq<SearchResult>)
    ensures |r| == |ls|
    ensures forall k :: 0 <= k < |r| ==> r[k].source == "depop" && r[k].id == ls[k].id && r[k].price == ls[k].amount
    ensures forall k :: 0 <= k < |r| ==> r[k].image == (if |ls[k].images| > 0 then ls[k].images[0] else "")
    ensures forall k :: 0 <= k < |r| ==> r[k].seller.Some? && r[k].seller.value.name == ls[k].seller.username
  {
    Map(ls, Transform)
  }

  /** What one request produced: nothing, or a status and the products of a readable body. */
  datatype DepopReply = NetworkError | Response(status: int, products: Option<seq<DepopListing>>)

  /** The results of one page: every failure (no response, non-2xx status, unreadable body) is an empty page. */
  function PageResults(reply: DepopReply): (r: seq<SearchResult>)
    ensures !(reply.Response? && 200 <= reply.status <= 299 && reply.products.Some?) ==> r == []
    ensures reply.Response? && 200 <= reply.status <= 299 && reply.products.Some? ==> |r| == |reply.products.value|
  {
    if reply.Response? && 200 <= reply.status <= 299 && reply.products.Some? then TransformListings(reply.products.value)
    else []
  }

  /**
   * `search`: waits for the rate limiter, sends the parameters of page 0 and
   * never fails. `fetch` answers a parameter list.
   */
  function Search(l: RateLimit.Limiter, now: int, lateness: nat, q: Query, fetch: seq<Param> -> DepopReply)
    : (r: (seq<SearchResult>, RateLimit.Limiter))
    ensures r.0 == PageResults(fetch(BuildSearchParams(q, 0)))
    ensures r.1.lastRequestTime >= l.lastRequestTime + l.minInterval
  {
    (PageResults(fetch(BuildSearchParams(q, 0))), RateLimit.Acquire(l, now, lateness))
  }

  /** `healthCheck`: the test search cannot fail, so the check always passes. */
  function HealthCheck(l: RateLimit.Limiter, now: int, lateness: nat, fetch: seq<Param> -> DepopReply): (r: bool)
    ensures r
  {
    var (results, _) := Search(l, now, lateness, KeywordQuery("test").(marketplaces := Some(["depop"])), fetch);
    |results| >= 0
  }

  /** The query each page is asked with: the sort defaults to 'newest'. */
  function PageQuery(q: Query): Query {
    q.(sortBy := Some(if TruthyString(q.sortBy) then q.sortBy.value else "newest"))
  }

  /** The results of page `page`, asked for at offset `page * 20`. */
  function Page(q: Query, fetch: seq<Param> -> DepopReply, page: nat): seq<SearchResult> {
    PageResults(fetch(BuildSearchParams(PageQuery(q), page * 20)))
  }

  /** The page fetcher as a function of the page number. */
  function PageOf(q: Query, fetch: seq<Param> -> DepopReply): nat -> seq<SearchResult> {
    (k: nat) => Page(q, fetch, k)
  }

  /** Pages `page`, `page + 1`, ... before `maxPages` of `pageOf`, joined up to the first empty one. */
  function Joined(pageOf: nat -> seq<SearchResult>, page: nat, maxPages: int): seq<SearchResult>
    decreases maxPages - page
  {
    if page >= maxPages then []
    else if |pageOf(page)| == 0 then []
    else pageOf(page) + Joined(pageOf, page + 1, maxPages)
  }

  /** The results of pages `page`, `page + 1`, ... before `maxPages`, up to the first empty one. */
  function Pages(q: Query, fetch: seq<Param> -> DepopReply, page: nat, maxPages: int): seq<SearchResult> {
    Joined(PageOf(q, fetch), page, maxPages)
  }

  /**
   * The pagination loop of `searchMultiplePages` over any page fetcher:
   * requests pages 0, 1, 2, ..., at most `maxPages` of them, stops at the
   * first empty page and joins the pages in order, pausing after every
   * non-empty page: one pause per page asked, less one when the last page
   * asked came back empty.
   */
  method JoinPages(pageOf: nat -> seq<SearchResult>, maxPages: int) returns (results: seq<SearchResult>, asked: nat, pauses: nat)
    ensures results == Joined(pageOf, 0, maxPages)
    ensures asked <= (if maxPages < 0 then 0 else maxPages)
    ensures forall k :: 0 <= k < asked - 1 ==> |pageOf(k)| > 0
    ensures asked < maxPages ==> asked > 0 && |pageOf(asked - 1)| == 0
    ensures asked > 0 && |pageOf(asked - 1)| == 0 ==> pauses + 1 == asked
    ensures asked == 0 || |pageOf(asked - 1)| > 0 ==> pauses == asked
  {
    results := [];
    asked := 0;
    pauses := 0;
    var page: nat := 0;
    while page < maxPages
      invariant page <= maxPages || page == 0
      invariant asked == page && pauses == page
      invariant forall k :: 0 <= k < page ==> |pageOf(k)| > 0
      invariant results + Joined(pageOf, page, maxPages) == Joined(pageOf, 0, maxPages)
      decreases maxPages - page
    {
      var pageResults := pageOf(page);
      asked := asked + 1;
      if |pageResults| == 0 {
        assert Joined(pageOf, page, maxPages) == [];
        return;
      }
      assert Joined(pageOf, page, maxPages) == pageResults + Joined(pageOf, page + 1, maxPages);
      results := results + pageResults;
      pauses := pauses + 1;
      page := page + 1;
    }
  }

  /**
   * `searchMultiplePages`: requests pages at offsets 0, 20, 40, ..., at most
   * `maxPages` of them, stops at the first empty page and joins the pages in
   * order. `offsets` are the requests sent and `pauses` the sleeps taken
   * (one after every non-empty page).
   */
  method SearchMultiplePages(q: Query, maxPages: int, fetch: seq<Param> -> DepopReply)
    returns (results: seq<SearchResult>, offsets: seq<int>, pauses: nat)
    ensures results == Pages(q, fetch, 0, maxPages)
    ensures |offsets| <= (if maxPages < 0 then 0 else maxPages)
    ensures forall k :: 0 <= k < |offsets| ==> offsets[k] == 20 * k
    ensures forall k :: 0 <= k < |offsets| - 1 ==> |Page(q, fetch, k)| > 0
    ensures |offsets| < maxPages ==> |offsets| > 0 && |Page(q, fetch, |offsets| - 1)| == 0
    ensures |offsets| > 0 && |Page(q, fetch, |offsets| - 1)| == 0 ==> pauses + 1 == |offsets|
    ensures |offsets| == 0 || |Page(q, fetch, |offsets| - 1)| > 0 ==> pauses == |offsets|
  {
    var asked;
    results, asked, pauses := JoinPages(PageOf(q, fetch), maxPages);
    assert forall k: nat :: PageOf(q, fetch)(k) == Page(q, fetch, k);
    offsets := seq(asked, k => 20 * k);
  }

  /** No more than `maxPages` pages of 20 are ever joined. */
  lemma {:induction false} PagesBound(q: Query, fetch: seq<Param> -> DepopReply, page: nat, maxPages: int)
    requires forall k :: k >= page ==> |Page(q, fetch, k)| <= 20
    ensures |Pages(q, fetch, page, maxPages)| <= 20 * (if maxPages <= page then 0 else maxPages - page)
    decreases maxPages - page
  {
    if page < maxPages {
      PagesBound(q, fetch, page + 1, maxPages);
    }
  }
}
