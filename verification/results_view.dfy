/**
 * The two search-results pages: which listings they show for the current
 * filter controls, the order they show them in, the "Reset Filters" button
 * and the refresh of the listing list.
 *
 * Both pages hold their own listing records (title, price, marketplace
 * caption, relevance score, date, optional condition); the date is `postedAt`
 * on the enhanced page and `createdAt` on the simple one, written `stamp` here.
 */
module ResultsView {
  import opened Wrappers
  import opened Seqs
  import opened Sorting
  import opened Text

  datatype Listing = Listing(
    id: string,
    title: string,
    price: real,
    marketplace: string,
    relevanceScore: real,
    stamp: int,
    condition: Option<string>)

  /** The enhanced page's filter state. */
  datatype Controls = Controls(
    filter: string,
    query: string,
    marketplaces: seq<string>,
    minPrice: real,
    maxPrice: real,
    conditions: seq<string>)

  /** The initial state, which "Reset Filters" also restores apart from the text query. */
  const InitialMin: real := 0.0
  const InitialMax: real := 1000.0

  /** The condition captions the page offers as toggles. */
  const ConditionToggles: seq<string> := ["new", "like new", "good", "fair", "poor"]

  /** `title.toLowerCase().includes(query.toLowerCase())`. */
  predicate TitleMatches(query: string, l: Listing) {
    Contains(Lower(l.title), Lower(query))
  }

  /** `condition?.toLowerCase() || ''`. */
  function ConditionKey(l: Listing): string {
    Lower(l.condition.GetOr(""))
  }

  /** The quick filter buttons; any other value imposes nothing. */
  predicate QuickFilter(filter: string, l: Listing) {
    (filter == "high-relevance" ==> l.relevanceScore >= 8.0)
    && (filter == "new" ==> l.condition == Some("New") || l.condition == Some("Like New"))
    && (filter == "low-price" ==> l.price < 100.0)
  }

  /**
   * The enhanced page's filter callback, one early `return false` per test.
   * A listing passes iff every test holds.
   */
  function Keep(c: Controls, l: Listing): (keep: bool)
    ensures keep <==>
      (c.query == "" || TitleMatches(c.query, l))
      && (|c.marketplaces| == 0 || Lower(l.marketplace) in c.marketplaces)
      && c.minPrice <= l.price <= c.maxPrice
      && (|c.conditions| == 0 || ConditionKey(l) in c.conditions)
      && QuickFilter(c.filter, l)
    ensures |c.conditions| > 0 && "" !in c.conditions && l.condition.None? ==> !keep
  {
    if c.query != "" && !TitleMatches(c.query, l) then false
    else if |c.marketplaces| > 0 && Lower(l.marketplace) !in c.marketplaces then false
    else if l.price < c.minPrice || l.price > c.maxPrice then false
    else if |c.conditions| > 0 && ConditionKey(l) !in c.conditions then false
    else if c.filter == "high-relevance" && l.relevanceScore < 8.0 then false
    else if c.filter == "new" && l.condition != Some("New") && l.condition != Some("Like New") then false
    else if c.filter == "low-price" && l.price >= 100.0 then false
    else true
  }

  /** `filteredResults`: the listings that pass, in their original order. */
  function Shown(results: seq<Listing>, c: Controls): (r: seq<Listing>)
    ensures forall l :: l in r <==> l in results && Keep(c, l)
    ensures multiset(r) <= multiset(results)
  {
    Filter(results, (l: Listing) => Keep(c, l))
  }

  /**
   * A condition chosen from the page's toggles never admits a listing
   * without a condition.
   */
  lemma UnconditionedHidden(results: seq<Listing>, c: Controls, l: Listing)
    requires |c.conditions| > 0
    requires forall k :: 0 <= k < |c.conditions| ==> c.conditions[k] in ConditionToggles
    requires l.condition.None?
    ensures l !in Shown(results, c)
  {
    assert "" !in c.conditions;
  }

  function Relevance(l: Listing): real { l.relevanceScore }
  function Price(l: Listing): real { l.price }
  function Stamp(l: Listing): real { l.stamp as real }
  function Unordered(l: Listing): real { 0.0 }

  /**
   * `[...filtered].sort(...)`, a stable sort of a copy. For an unknown key the
   * comparator is constantly 0.
   */
  function SortShown(xs: seq<Listing>, sortBy: string): (r: seq<Listing>)
    ensures multiset(r) == multiset(xs)
    ensures sortBy == "relevance" ==> SortedDesc(r, Relevance)
    ensures sortBy == "price-low" ==> SortedAsc(r, Price)
    ensures sortBy == "price-high" ==> SortedDesc(r, Price)
    ensures sortBy == "newest" ==> SortedDesc(r, Stamp)
  {
    match sortBy
    case "relevance" => SortDesc(xs, Relevance)
    case "price-low" => SortAsc(xs, Price)
    case "price-high" => SortDesc(xs, Price)
    case "newest" => SortDesc(xs, Stamp)
    case _ => SortAsc(xs, Unordered)
  }

  /** Any other sort key leaves the filtered order as it is. */
  lemma {:induction false} UnknownSortKeepsOrder(xs: seq<Listing>, sortBy: string)
    requires sortBy !in {"relevance", "price-low", "price-high", "newest"}
    ensures SortShown(xs, sortBy) == xs
  {
    SortConstantKeyIsIdentity(xs, Unordered);
  }

  /** "Reset Filters": marketplaces, price range, conditions and quick filter; the text query stays. */
  function Reset(c: Controls): (r: Controls)
    ensures r.query == c.query
  {
    Controls("all", c.query, [], InitialMin, InitialMax, [])
  }

  /** After a reset the page shows exactly the listings matching the text query priced in [0, 1000]. */
  lemma ResetShows(results: seq<Listing>, c: Controls, l: Listing)
    ensures l in Shown(results, Reset(c)) <==>
      l in results && (c.query == "" || TitleMatches(c.query, l)) && 0.0 <= l.price <= 1000.0
  {
  }

  /**
   * `refreshResults`: nothing happens without a saved search id and a signed-in
   * user; a failed run or an empty answer keeps the current listings.
   */
  function Refresh(current: seq<Listing>, canRun: bool, fetched: Result<seq<Listing>>): (r: seq<Listing>)
    ensures r == current || (canRun && fetched.Success? && r == fetched.value && |r| > 0)
    ensures canRun && fetched.Success? && |fetched.value| > 0 ==> r == fetched.value
    ensures |current| > 0 ==> |r| > 0
  {
    if !canRun then current
    else if fetched.Failure? then current
    else if |fetched.value| > 0 then fetched.value
    else current
  }

  /**
   * The simple results page's filter callback: a quick filter answers on its
   * own, so the text query is consulted only for a filter value outside the
   * four offered.
   */
  function SimpleKeep(filter: string, query: string, l: Listing): (keep: bool)
    ensures filter == "all" ==> keep
    ensures filter == "high-relevance" ==> (keep <==> l.relevanceScore >= 8.0)
    ensures filter == "new" ==> (keep <==> l.condition == Some("New") || l.condition == Some("Like New"))
    ensures filter == "low-price" ==> (keep <==> l.price < 100.0)
    ensures filter !in {"all", "high-relevance", "new", "low-price"} ==> (keep <==> query == "" || TitleMatches(query, l))
  {
    if filter == "all" then true
    else if filter == "high-relevance" then l.relevanceScore >= 8.0
    else if filter == "new" then l.condition == Some("New") || l.condition == Some("Like New")
    else if filter == "low-price" then l.price < 100.0
    else if query != "" then TitleMatches(query, l)
    else true
  }

  function SimpleShown(results: seq<Listing>, filter: string, query: string): (r: seq<Listing>)
    ensures forall l :: l in r <==> l in results && SimpleKeep(filter, query, l)
    ensures multiset(r) <= multiset(results)
  {
    Filter(results, SimplePass(filter, query))
  }

  function SimplePass(filter: string, query: string): Listing -> bool {
    (l: Listing) => SimpleKeep(filter, query, l)
  }

  /** On the simple page, the text query never narrows the list under one of the four offered filters. */
  lemma SimpleQueryIgnored(results: seq<Listing>, filter: string, query: string)
    requires filter in {"all", "high-relevance", "new", "low-price"}
    ensures SimpleShown(results, filter, query) == SimpleShown(results, filter, "")
    ensures filter == "all" ==> SimpleShown(results, filter, query) == results
  {
    assert forall i :: 0 <= i < |results| ==> SimplePass(filter, query)(results[i]) == SimplePass(filter, "")(results[i]);
    FilterAgree(results, SimplePass(filter, query), SimplePass(filter, ""));
    if filter == "all" {
      FilterAll(results, SimplePass(filter, query));
    }
  }

  /**
   * With no marketplace or condition selected and a price range covering the
   * listing, the two pages agree: on the quick filters, and on the text query
   * under any other filter value.
   */
  lemma PagesAgree(c: Controls, l: Listing)
    requires |c.marketplaces| == 0 && |c.conditions| == 0
    requires c.minPrice <= l.price <= c.maxPrice
    ensures c.query == "" ==> (Keep(c, l) <==> SimpleKeep(c.filter, c.query, l))
    ensures c.filter !in {"all", "high-relevance", "new", "low-price"} ==> (Keep(c, l) <==> SimpleKeep(c.filter, c.query, l))
  {
  }
}
