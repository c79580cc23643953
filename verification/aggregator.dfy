/**
 * The search aggregator: a registry of marketplace services chosen by key,
 * a search that collects every service's outcome into one result list and
 * one error list, the four sort orders, and the lookup of a service by the
 * name stamped on its results.
 *
 * The services' HTTP calls are not modelled: each service's outcome is given
 * by the function `outcome`.
 */
module Aggregator {
  import opened Wrappers
  import opened Text
  import opened Seqs
  import opened Sorting
  import opened Types

  datatype Service = Depop | Ebay | Vinted | Facebook | Craigslist

  /** Registration order. */
  const AllServices: seq<Service> := [Depop, Ebay, Vinted, Facebook, Craigslist]

  /** The key that enables a service in the constructor's list. */
  function Key(s: Service): string {
    match s
    case Depop => "depop"
    case Ebay => "ebay"
    case Vinted => "vinted"
    case Facebook => "facebook"
    case Craigslist => "craigslist"
  }

  /** The service's `name`, which it also stamps as `source` on its results. */
  function Name(s: Service): string {
    match s
    case Depop => "Depop"
    case Ebay => "eBay"
    case Vinted => "Vinted"
    case Facebook => "Facebook Marketplace"
    case Craigslist => "Craigslist"
  }

  /** The constructor's default argument. */
  const DefaultEnabled: seq<string> := ["all"]

  predicate Enabled(enabled: seq<string>, s: Service) {
    "all" in enabled || Key(s) in enabled
  }

  /** One `if (enabledServices.includes('all') || enabledServices.includes(key))` of the constructor. */
  function RegisterIf(enabled: seq<string>, s: Service): (r: seq<Service>)
    ensures forall t :: t in r <==> t == s && Enabled(enabled, s)
  {
    if Enabled(enabled, s) then [s] else []
  }

  /**
   * The constructor: a service is registered iff it is enabled, so unknown
   * keys are ignored.
   */
  function Registry(enabled: seq<string>): (r: seq<Service>)
    ensures forall s :: s in r <==> Enabled(enabled, s)
  {
    RegisterIf(enabled, Depop) + (RegisterIf(enabled, Ebay) + (RegisterIf(enabled, Vinted)
    + (RegisterIf(enabled, Facebook) + RegisterIf(enabled, Craigslist))))
  }

  /** With the default argument every service is registered, in registration order. */
  lemma DefaultRegistryIsAll()
    ensures Registry(DefaultEnabled) == AllServices
  {
    assert "all" in DefaultEnabled;
  }

  /** Why a service's search was rejected: an error value, or a falsy one such as `undefined`. */
  datatype Reason = ErrorValue(message: string) | FalsyValue

  datatype Outcome = Found(items: seq<SearchResult>) | Rejected(reason: Reason)

  /** An entry of `errors`: `{ error, service: service.name }`. */
  datatype ErrorEntry = ErrorEntry(service: string, error: Reason)

  datatype SearchOutput = SearchOutput(results: seq<SearchResult>, errors: seq<ErrorEntry>)

  predicate Reported(o: Outcome) {
    o.Rejected? && o.reason.ErrorValue?
  }

  /** The succeeding services' arrays joined in registry order. */
  function Merged(services: seq<Service>, outcome: Service -> Outcome): seq<SearchResult> {
    if |services| == 0 then []
    else
      var last := services[|services| - 1];
      Merged(services[..|services| - 1], outcome) + (if outcome(last).Found? then outcome(last).items else [])
  }

  /** One entry per service rejected with a truthy reason, in registry order. */
  function ReportedErrors(services: seq<Service>, outcome: Service -> Outcome): seq<ErrorEntry> {
    Map(Filter(services, (s: Service) => Reported(outcome(s))), (s: Service) => ErrorOf(s, outcome))
  }

  function ErrorOf(s: Service, outcome: Service -> Outcome): ErrorEntry {
    ErrorEntry(Name(s), if outcome(s).Rejected? then outcome(s).reason else FalsyValue)
  }

  /** `sortResults`, applied to a copy. */
  function SortResults(results: seq<SearchResult>, sortBy: string): (r: seq<SearchResult>)
    ensures multiset(r) == multiset(results)
    ensures sortBy == "price_low" ==> SortedAsc(r, (x: SearchResult) => x.price)
    ensures sortBy == "price_high" ==> SortedDesc(r, (x: SearchResult) => x.price)
    ensures sortBy == "relevance" ==> r == results
    ensures sortBy !in {"price_low", "price_high", "relevance"} ==> SortedDesc(r, (x: SearchResult) => x.postedAt as real)
  {
    match sortBy
    case "newest" => SortDesc(results, (x: SearchResult) => x.postedAt as real)
    case "price_low" => SortAsc(results, (x: SearchResult) => x.price)
    case "price_high" => SortDesc(results, (x: SearchResult) => x.price)
    case "relevance" => results
    case _ => SortDesc(results, (x: SearchResult) => x.postedAt as real)
  }

  /**
   * `search`: never fails. Every service rejected with a truthy reason adds
   * one error entry and no results; the results are the merged arrays of the
   * services that answered, sorted by `sortBy || 'newest'`.
   */
  method Search(services: seq<Service>, outcome: Service -> Outcome, sortBy: Option<string>) returns (out: SearchOutput)
    ensures out.results == SortResults(Merged(services, outcome), OrDefault(sortBy))
    ensures out.errors == ReportedErrors(services, outcome)
  {
    var all: seq<SearchResult> := [];
    var errors: seq<ErrorEntry> := [];
    var i := 0;
    while i < |services|
      invariant 0 <= i <= |services|
      invariant all == Merged(services[..i], outcome)
      invariant errors == ReportedErrors(services[..i], outcome)
    {
      var s := services[i];
      assert services[..i + 1] == services[..i] + [s];
      MergedSnoc(services[..i], s, outcome);
      ReportedSnoc(services[..i], s, outcome);
      match outcome(s) {
        case Found(items) =>
          all := all + items;
        case Rejected(reason) =>
          if reason.ErrorValue? {
            errors := errors + [ErrorEntry(Name(s), reason)];
          }
      }
      i := i + 1;
    }
    assert services[..i] == services;
    out := SearchOutput(SortResults(all, OrDefault(sortBy)), errors);
  }

  /** One more service adds its array, if it answered, after the others'. */
  lemma MergedSnoc(services: seq<Service>, s: Service, outcome: Service -> Outcome)
    ensures Merged(services + [s], outcome) == Merged(services, outcome) + (if outcome(s).Found? then outcome(s).items else [])
  {
    assert (services + [s])[..|services|] == services;
  }

  /** One more service adds its error entry, if it is reported, after the others'. */
  lemma ReportedSnoc(services: seq<Service>, s: Service, outcome: Service -> Outcome)
    ensures ReportedErrors(services + [s], outcome)
      == ReportedErrors(services, outcome) + (if Reported(outcome(s)) then [ErrorOf(s, outcome)] else [])
  {
    var p := (x: Service) => Reported(outcome(x));
    var f := (x: Service) => ErrorOf(x, outcome);
    var xs := services + [s];
    var tail := if p(s) then [s] else [];
    assert Filter(xs, p) == Filter(services, p) + tail by {
      FilterSnoc(xs, p);
      assert xs[..|xs| - 1] == services;
    }
    assert Map(Filter(xs, p), f) == Map(Filter(services, p), f) + Map(tail, f) by {
      MapConcat(Filter(services, p), tail, f);
    }
    assert Map(tail, f) == (if Reported(outcome(s)) then [ErrorOf(s, outcome)] else []);
  }

  /** `query.sortBy || 'newest'`. */
  function OrDefault(sortBy: Option<string>): (r: string)
    ensures r != ""
  {
    if sortBy.Some? && sortBy.value != "" then sortBy.value else "newest"
  }

  /** Without a sort order the merged results come out newest first. */
  lemma MissingSortIsNewest(results: seq<SearchResult>)
    ensures SortResults(results, OrDefault(None)) == SortResults(results, "newest")
  {
  }

  /** With relevance ordering, the results are exactly the merged arrays in registry order. */
  lemma RelevanceKeepsRegistryOrder(services: seq<Service>, outcome: Service -> Outcome)
    ensures SortResults(Merged(services, outcome), OrDefault(Some("relevance"))) == Merged(services, outcome)
  {
  }

  /** The services other than `s`. */
  function Other(s: Service): Service -> bool {
    (x: Service) => x != s
  }

  /** A service whose search is rejected contributes nothing to the results. */
  lemma {:induction false} RejectedContributesNothing(services: seq<Service>, outcome: Service -> Outcome, s: Service)
    requires outcome(s).Rejected?
    ensures Merged(services, outcome) == Merged(Filter(services, Other(s)), outcome)
  {
    if |services| > 0 {
      var init := services[..|services| - 1];
      var last := services[|services| - 1];
      var p := Other(s);
      var kept := Filter(init, p);
      RejectedContributesNothing(init, outcome, s);
      assert Merged(services, outcome) == Merged(init, outcome) + (if outcome(last).Found? then outcome(last).items else []);
      assert Filter(services, p) == kept + (if p(last) then [last] else []) by {
        FilterSnoc(services, p);
      }
      if last != s {
        assert p(last);
        MergedSnoc(kept, last, outcome);
        assert Merged(Filter(services, p), outcome) == Merged(kept, outcome) + (if outcome(last).Found? then outcome(last).items else []);
      } else {
        assert !p(last);
        assert Filter(services, p) == kept;
        assert Merged(services, outcome) == Merged(init, outcome);
      }
    }
  }

  /** `getItemDetails`'s lookup: the first service whose name equals `source` ignoring case. */
  function FindService(services: seq<Service>, source: string): (r: Result<Service>)
    ensures r.Success? ==> r.value in services && Lower(Name(r.value)) == Lower(source)
    ensures r.Failure? <==> forall k :: 0 <= k < |services| ==> Lower(Name(services[k])) != Lower(source)
    ensures r.Failure? ==> r.error == "No service found for source: " + source
  {
    var found := FindFirst(services, NamedAs(source));
    assert forall k :: 0 <= k < |services| ==> (NamedAs(source)(services[k]) <==> Lower(Name(services[k])) == Lower(source));
    if found.Some? then Success(found.value) else Failure("No service found for source: " + source)
  }

  /** The test `service.name.toLowerCase() === source.toLowerCase()`. */
  function NamedAs(source: string): Service -> bool {
    (s: Service) => Lower(Name(s)) == Lower(source)
  }

  /** The lookup answers with the earliest matching service. */
  lemma FindServiceIsFirst(services: seq<Service>, source: string, j: nat)
    requires j < |services| && Lower(Name(services[j])) == Lower(source)
    requires forall i :: 0 <= i < j ==> Lower(Name(services[i])) != Lower(source)
    ensures FindService(services, source) == Success(services[j])
  {
    assert forall i :: 0 <= i < j ==> !NamedAs(source)(services[i]);
    FindFirstIsFirst(services, NamedAs(source), j);
  }
}
