/**
 * Creating a saved search (`POST /api/searches`): the caller must be signed
 * in and below their active-search quota, and the body must pass the create
 * schema, whose defaults fill in the threshold and notification settings.
 */
module SearchesRoute {
  import opened Wrappers
  import opened Types
  import Json

  const MarketplaceNames: set<string> := {"depop", "facebook", "ebay", "vinted", "craigslist"}
  const ConditionNames: set<string> := {"new", "like_new", "good", "fair", "poor"}
  const FrequencyNames: set<string> := {"immediate", "hourly", "daily"}
  const DefaultQuota: int := 3
  const DefaultMinRelevance: real := 6.0

  datatype NotificationSettings = NotificationSettings(instant: bool, digest: bool, frequency: string)

  /** The validated body. */
  datatype NewSearch = NewSearch(
    name: string,
    keywords: seq<string>,
    description: Option<string>,
    marketplaces: seq<string>,
    filters: Option<Filters>,
    minRelevanceScore: real,
    notificationSettings: Option<NotificationSettings>)

  /** `z.array(z.enum([...]))` over the five marketplace keys; an empty array passes. */
  predicate MarketplaceList(v: Option<Json.Value>) {
    v.Some? && v.value.Arr? && Json.AllStrings(v.value.items)
    && forall i :: 0 <= i < |v.value.items| ==> v.value.items[i].s in MarketplaceNames
  }

  /** `z.enum([...]).optional()`. */
  predicate OptionalEnum(v: Option<Json.Value>, names: set<string>) {
    v.None? || (v.value.Str? && v.value.s in names)
  }

  predicate ValidFilters(v: Option<Json.Value>) {
    v.None? || (v.value.Obj? &&
      var f := v.value.fields;
      Json.OptionalNumber(Json.Field(f, "minPrice")) && Json.OptionalNumber(Json.Field(f, "maxPrice"))
      && Json.OptionalString(Json.Field(f, "location")) && Json.OptionalNumber(Json.Field(f, "radius"))
      && OptionalEnum(Json.Field(f, "condition"), ConditionNames))
  }

  function FiltersOf(v: Option<Json.Value>): (r: Option<Filters>)
    requires ValidFilters(v)
    ensures v.None? <==> r.None?
    ensures r.Some? ==> r.value.minPrice == Json.NumberOf(Json.Field(v.value.fields, "minPrice"))
    ensures r.Some? ==> r.value.maxPrice == Json.NumberOf(Json.Field(v.value.fields, "maxPrice"))
    ensures r.Some? ==> r.value.condition == Json.StringOf(Json.Field(v.value.fields, "condition"))
  {
    if v.None? then None
    else
      var f := v.value.fields;
      Some(Filters(Json.NumberOf(Json.Field(f, "minPrice")), Json.NumberOf(Json.Field(f, "maxPrice")),
        Json.StringOf(Json.Field(f, "location")), Json.StringOf(Json.Field(f, "condition")), Json.NumberOf(Json.Field(f, "radius"))))
  }

  predicate ValidSettings(v: Option<Json.Value>) {
    v.None? || (v.value.Obj? &&
      var f := v.value.fields;
      Json.OptionalBool(Json.Field(f, "instant")) && Json.OptionalBool(Json.Field(f, "digest"))
      && OptionalEnum(Json.Field(f, "frequency"), FrequencyNames))
  }

  /** The settings object with its inner defaults; an absent object stays absent. */
  function SettingsOf(v: Option<Json.Value>): (r: Option<NotificationSettings>)
    requires ValidSettings(v)
    ensures v.None? <==> r.None?
    ensures r.Some? ==> r.value.frequency in FrequencyNames
    ensures r.Some? && v.value.fields == map[] ==> r.value == NotificationSettings(true, false, "immediate")
  {
    if v.None? then None
    else
      var f := v.value.fields;
      var instant := Json.Field(f, "instant");
      var digest := Json.Field(f, "digest");
      var frequency := Json.StringOf(Json.Field(f, "frequency"));
      Some(NotificationSettings(
        if instant.Some? then instant.value.b else true,
        if digest.Some? then digest.value.b else false,
        frequency.GetOr("immediate")))
  }

  /** `z.number().min(1).max(10).default(6)`. */
  predicate ValidScore(v: Option<Json.Value>) {
    v.None? || (v.value.Num? && 1.0 <= v.value.n <= 10.0)
  }

  /** The whole create schema. */
  predicate ValidBody(body: Json.Value) {
    body.Obj? &&
    var f := body.fields;
    var name := Json.StringOf(Json.Field(f, "name"));
    var keywords := Json.Field(f, "keywords");
    name.Some? && 1 <= |name.value| <= 100
    && keywords.Some? && keywords.value.Arr? && Json.AllStrings(keywords.value.items) && |keywords.value.items| >= 1
    && Json.OptionalString(Json.Field(f, "description"))
    && MarketplaceList(Json.Field(f, "marketplaces"))
    && ValidFilters(Json.Field(f, "filters"))
    && ValidScore(Json.Field(f, "minRelevanceScore"))
    && ValidSettings(Json.Field(f, "notificationSettings"))
  }

  /** `CreateSearchSchema.parse(body)`. */
  function ParseBody(body: Json.Value): (r: Result<NewSearch>)
    ensures r.Success? <==> ValidBody(body)
    ensures r.Success? ==> 1 <= |r.value.name| <= 100 && |r.value.keywords| >= 1
    ensures r.Success? ==> forall i :: 0 <= i < |r.value.marketplaces| ==> r.value.marketplaces[i] in MarketplaceNames
    ensures r.Success? ==> 1.0 <= r.value.minRelevanceScore <= 10.0
    ensures r.Success? && "minRelevanceScore" !in body.fields ==> r.value.minRelevanceScore == DefaultMinRelevance
    ensures r.Success? && r.value.filters.Some? && r.value.filters.value.condition.Some? ==> r.value.filters.value.condition.value in ConditionNames
  {
    if !ValidBody(body) then Failure("Validation error")
    else
      var f := body.fields;
      var score := Json.Field(f, "minRelevanceScore");
      Success(NewSearch(
        Json.StringOf(Json.Field(f, "name")).value,
        Json.Strings(f["keywords"].items),
        Json.StringOf(Json.Field(f, "description")),
        Json.Strings(f["marketplaces"].items),
        FiltersOf(Json.Field(f, "filters")),
        if score.Some? then score.value.n else DefaultMinRelevance,
        SettingsOf(Json.Field(f, "notificationSettings"))))
  }

  /** A minimal valid body with the given filters. */
  function BodyWith(filters: map<string, Json.Value>, marketplaces: seq<Json.Value>): Json.Value {
    Json.Obj(map["name" := Json.Str("Bikes"), "keywords" := Json.Arr([Json.Str("bike")]),
      "marketplaces" := Json.Arr(marketplaces), "filters" := Json.Obj(filters)])
  }

  /** The schema does not compare the bounds: a maximum below the minimum passes. */
  lemma InvertedPriceRangeAccepted()
    ensures ParseBody(BodyWith(map["minPrice" := Json.Num(50.0), "maxPrice" := Json.Num(10.0)], [])).Success?
  {
    var b := BodyWith(map["minPrice" := Json.Num(50.0), "maxPrice" := Json.Num(10.0)], []);
    assert Json.Field(b.fields, "name") == Some(Json.Str("Bikes"));
    assert Json.AllStrings(b.fields["keywords"].items);
    assert ValidFilters(Json.Field(b.fields, "filters"));
  }

  /** A marketplace outside the five keys is refused. */
  lemma UnknownMarketplaceRefused()
    ensures ParseBody(BodyWith(map[], [Json.Str("amazon")])).Failure?
  {
    var b := BodyWith(map[], [Json.Str("amazon")]);
    var m := Json.Field(b.fields, "marketplaces");
    assert m == Some(Json.Arr([Json.Str("amazon")]));
    assert m.value.items[0].s == "amazon";
    assert "amazon" !in MarketplaceNames;
    assert !MarketplaceList(m);
  }

  /** `profile?.max_searches || 3`. */
  function Quota(maxSearches: Option<int>): (r: int)
    ensures TruthyInt(maxSearches) ==> r == maxSearches.value
    ensures !TruthyInt(maxSearches) ==> r == DefaultQuota
  {
    if TruthyInt(maxSearches) then maxSearches.value else DefaultQuota
  }

  /** The quota test: skipped when the active searches could not be read. */
  predicate OverQuota(activeCount: Option<nat>, maxSearches: Option<int>) {
    activeCount.Some? && activeCount.value >= Quota(maxSearches)
  }

  datatype Response = Created(userId: string, search: NewSearch) | Error(status: nat, message: string)

  /**
   * `POST /api/searches`. `activeCount` is the number of the caller's active
   * searches (`None` when that query fails), `body` the parsed JSON body
   * (`None` when it is not JSON).
   */
  function Create(user: Option<string>, activeCount: Option<nat>, maxSearches: Option<int>, body: Option<Json.Value>, insertFails: bool): (r: Response)
    ensures user.None? <==> r == Error(401, "Unauthorized")
    ensures user.Some? && OverQuota(activeCount, maxSearches) ==> r.Error? && r.status == 403
    ensures r.Created? ==> !OverQuota(activeCount, maxSearches) && body.Some? && ParseBody(body.value) == Success(r.search) && r.userId == user.value
    ensures user.Some? && !OverQuota(activeCount, maxSearches) && body.None? ==> r == Error(500, "Internal server error")
    ensures user.Some? && !OverQuota(activeCount, maxSearches) && body.Some? && !ValidBody(body.value) ==> r == Error(400, "Validation error")
    ensures user.Some? && !OverQuota(activeCount, maxSearches) && body.Some? && ValidBody(body.value) ==> (r.Created? <==> !insertFails)
  {
    if user.None? then Error(401, "Unauthorized")
    else if OverQuota(activeCount, maxSearches) then Error(403, "Search limit reached. Upgrade your plan for more searches.")
    else if body.None? then Error(500, "Internal server error")
    else match ParseBody(body.value)
      case Failure(_) => Error(400, "Validation error")
      case Success(s) => if insertFails then Error(500, "Failed to create search") else Created(user.value, s)
  }

  /** The quota is checked before the body is read, so an over-quota caller gets 403 whatever they send. */
  lemma QuotaBeforeBody(user: string, activeCount: Option<nat>, maxSearches: Option<int>, b1: Option<Json.Value>, b2: Option<Json.Value>, f1: bool, f2: bool)
    requires OverQuota(activeCount, maxSearches)
    ensures Create(Some(user), activeCount, maxSearches, b1, f1) == Create(Some(user), activeCount, maxSearches, b2, f2)
  {
  }
}
