# Marketplace monitor — a Dafny model of its decision logic

The marketplace monitor lets a user save a search (keywords, price bounds,
marketplaces, item conditions), runs it against several second-hand
marketplaces, asks a language model how relevant each listing is, stores the
listings that clear the search's relevance threshold, and notifies the user
about the best ones. This project models, as pure Dafny functions over
sequences, maps and integers, the decisions the system takes along that path
and proves what the code promises about them:

- **Scoring** (`Scorer`): extracting the JSON object from the model's answer,
  defaulting and clamping each field, the keyword/price fallback score, and
  scoring in groups of five.
- **Aggregation** (`Aggregator`, `Integration`): the registry of marketplace
  services, the split of per-service outcomes into results and errors, source
  tagging and the four sort orders.
- **Adapters** (`Depop`, `Facebook`, `RateLimit`): the query-to-parameter
  translation with its condition and country tables, listing normalisation,
  pagination, the mock price filter and the minimum-interval rate limiter.
- **Execution** (`Execute`, `Scheduler`): the relevance threshold, the
  descending sort, upserts keyed by search and listing, the choice of
  notified results, the due-search test and new-result detection.
- **Routes and stores** (`SearchesRoute`, `NotificationsRoute`,
  `NotificationStore`): request validation, the search quota, pagination
  arithmetic and the notification table's transitions.
- **Analytics** (`AnalyticsService`, `AnalyticsRoute`, `Tally`): keyword
  frequency, top-k selection and the time-range cutoffs.
- **Client-side helpers** (`SearchForm`, `AdvancedSearchForm`, `ResultsView`,
  `NotificationViews`, `TimeFormat`, `SearchesPage`, `SavedPage`,
  `MarketplacesPage`, `AnalyticsPage`): the form state machines and value
  mappings, the results filters and sorts, the notification views and unread
  counter, the relative-time labels and the list updates of each page.

Shared building blocks: `Wrappers` (`Option`, `Result`, JavaScript
truthiness), `Seqs` (filter, map, take), `Sorting` (a stable sort, as
`Array.prototype.sort` is), `Text` (ASCII lower-casing, substring search,
decimal rendering), `Json` (the JSON values request bodies carry), `Types`
(the listing and query records) and `Batching` (fixed-size groups with pauses
between them).

Network calls, the database, the clock and randomness are inputs: a store is
a sequence or map passed in and returned, a failing call is a boolean
parameter, the time is an integer number of milliseconds, and a remote reply
is a value handed to the function that consumes it.

## Model

| member | source | states |
|---|---|---|
| Scorer.ExtractJson | src/lib/ai/claude-service.ts:173-176 | the greedy match runs from the first '{' to the last '}' and is absent when no '}' follows the first '{' |
| Scorer.ExtractJsonFound | src/lib/ai/claude-service.ts:173-176 | a JSON candidate is found exactly when some '{' precedes some '}' in the answer |
| Scorer.Clamp | src/lib/ai/claude-service.ts:182-184 | the clamped value lies in [lo, hi], equals the input inside it and the nearer bound outside |
| Scorer.OrReal | src/lib/ai/claude-service.ts:182-184 | `x \|\| fallback` on numbers: an absent or zero value falls back, any other keeps its value |
| Scorer.OrString | src/lib/ai/claude-service.ts:183 | `x \|\| fallback` on strings: an absent or empty value falls back |
| Scorer.FromRaw | src/lib/ai/claude-service.ts:181-192 | the score lies in [1, 10] and the confidence in [0, 1]; a missing or zero score becomes 5 and a missing confidence 0.5; an in-range value is kept unrounded and an out-of-range one goes to the nearer bound (12 gives 10); a truthy reasoning and given lists are kept, missing lists become []; fairPrice is false only for an explicit false; a truthy priceRating is kept, otherwise 'fair'; marketComparison is passed through |
| Scorer.ParseAIResponse | src/lib/ai/claude-service.ts:170-197 | succeeds exactly when a candidate is found and parses, then yields the defaulted answer; every failure is 'Invalid AI response format' |
| Scorer.FindKeywordMatches | src/lib/ai/claude-service.ts:241-246 | a keyword is listed iff its lower-cased form occurs in the lower-cased title and description, in the keywords' order |
| Scorer.CountKeywordMatches | src/lib/ai/claude-service.ts:231-236 | the count never exceeds the number of keywords |
| Scorer.CountIsNumberOfMatches | src/lib/ai/claude-service.ts:231-246 | the count equals the length of the list of matched keywords |
| Scorer.PriceInRangeInterval | src/lib/ai/claude-service.ts:251-258 | with two non-zero bounds the price test is the closed interval between them |
| Scorer.ZeroBoundIgnored | src/lib/ai/claude-service.ts:255-256 | a bound of 0 is falsy and behaves exactly like a missing bound |
| Scorer.FallbackScore | src/lib/ai/claude-service.ts:210-212 | the fallback score lies in [1, 8], is 1 iff nothing matched and the price is out of range, and earns two points per match up to three |
| Scorer.FallbackAnalysis | src/lib/ai/claude-service.ts:202-226 | the fallback has a score in [1, 8], confidence 0.3, no red flags, the matched keywords and the fixed price analysis |
| Scorer.AnalyzeListing | src/lib/ai/claude-service.ts:57-93 | never fails: a missing or non-2xx reply, a missing text or an unparsable answer gives the fallback, otherwise the parsed answer; the score is always in [1, 10] |
| Scorer.AnalyzeListings | src/lib/ai/claude-service.ts:98-121 | one analysis per listing in the same order, each the single-listing analysis, with a pause between consecutive groups of five only |
| Aggregator.RegisterIf | src/lib/api/search-aggregator.ts:11-13 | one constructor test: the service is registered iff 'all' or its key is in the enabled list |
| Aggregator.Registry | src/lib/api/search-aggregator.ts:7-30 | a service is registered iff it is enabled, so unknown keys are ignored |
| Aggregator.DefaultRegistryIsAll | src/lib/api/search-aggregator.ts:7 | with the default `['all']` all five services are registered, in registration order |
| Aggregator.SortResults | src/lib/api/search-aggregator.ts:71-89 | the sort permutes its input; price_low ascends and price_high descends by price; relevance keeps the order; newest and every unknown key order by postedAt descending |
| Aggregator.Search | src/lib/api/search-aggregator.ts:32-69 | the results are the succeeding services' arrays joined in registry order and sorted by `sortBy \|\| 'newest'`; the errors hold one entry per service rejected with a truthy error, in registry order |
| Aggregator.OrDefault | src/lib/api/search-aggregator.ts:66 | `sortBy \|\| 'newest'` is never empty |
| Aggregator.MissingSortIsNewest | src/lib/api/search-aggregator.ts:66 | without a sort order the results are sorted newest first |
| Aggregator.RelevanceKeepsRegistryOrder | src/lib/api/search-aggregator.ts:82-85 | relevance ordering returns exactly the merged arrays in registry order |
| Aggregator.RejectedContributesNothing | src/lib/api/search-aggregator.ts:47-63 | a rejected service contributes nothing to the results: dropping it leaves them unchanged |
| Aggregator.FindService | src/lib/api/search-aggregator.ts:91-99 | the lookup yields a registered service whose name equals the source ignoring case, and fails with 'No service found for source: …' iff there is none |
| Aggregator.FindServiceIsFirst | src/lib/api/search-aggregator.ts:92 | the lookup yields the earliest matching service |
| Integration.Marketplaces | src/lib/integrations/marketplace-integration.ts:34 | a missing marketplace list defaults to depop and facebook; a given list, even an empty one, is used as is |
| Integration.Tag | src/lib/integrations/marketplace-integration.ts:47-50 | tagging keeps every result and its order, setting source to the requested key |
| Integration.Contribution | src/lib/integrations/marketplace-integration.ts:38-55 | an unregistered marketplace or a throwing scraper contributes nothing; every contributed result carries the marketplace's key as its source |
| Integration.GatheredSources | src/lib/integrations/marketplace-integration.ts:38-58 | every gathered result comes from a requested, registered marketplace |
| Integration.SearchAll | src/lib/integrations/marketplace-integration.ts:33-64 | the output is a permutation of the concatenated per-marketplace results, ordered by postedAt descending, each tagged with a requested registered key |
| Integration.GatheredSnoc | src/lib/integrations/marketplace-integration.ts:57-58 | the pages are concatenated in the order of the requested list |
| Integration.UnknownMarketplacesIgnored | src/lib/integrations/marketplace-integration.ts:39-43 | an unknown marketplace is silently ignored: removing every unregistered key gives the same results |
| Integration.EmptyListSearchesNothing | src/lib/integrations/marketplace-integration.ts:34 | an explicitly empty marketplace list yields no results |
| Integration.HealthStatus | src/lib/integrations/marketplace-integration.ts:69-82 | one entry per registered scraper, true iff its health check answered true, false when it threw |
| Integration.HealthyScrapers | src/lib/integrations/marketplace-integration.ts:69-82 | with both scrapers healthy the status is depop: true, facebook: true |
| Depop.MapCondition | src/lib/scrapers/depop-scraper.ts:167-176 | the five known conditions map into Depop's four values; any other value is passed through unchanged |
| Depop.MapConditionNotInjective | src/lib/scrapers/depop-scraper.ts:172-173 | fair and poor both become well_worn, so the mapping is not injective |
| Depop.GetCountryCode | src/lib/scrapers/depop-scraper.ts:181-198 | the code is one of the eight table codes, and GB for any lower-cased location not in the table |
| Depop.CountryCodeIgnoresCase | src/lib/scrapers/depop-scraper.ts:196 | the lookup ignores letter case |
| Depop.SortParam | src/lib/scrapers/depop-scraper.ts:133-139 | the sort parameter is one of time, price_asc, price_desc, relevance, and time when sortBy is absent or empty |
| Depop.ConditionParams | src/lib/scrapers/depop-scraper.ts:150-154 | one condition parameter per requested condition, mapped, in order |
| Depop.GroupValues | src/lib/scrapers/depop-scraper.ts:120-162 | the values sent under each name are those of the seven parameter groups, appended in the source's order |
| Depop.PagingAndSortSent | src/lib/scrapers/depop-scraper.ts:129-139 | limit=20, the given offset and the sort order are always sent, once each |
| Depop.KeywordsSent | src/lib/scrapers/depop-scraper.ts:124-126 | q is sent, once, iff the keywords are non-empty |
| Depop.MinPriceSent | src/lib/scrapers/depop-scraper.ts:142-144 | priceMin is sent only for a truthy minimum, so a 0 bound is never sent |
| Depop.MaxPriceSent | src/lib/scrapers/depop-scraper.ts:145-147 | priceMax is sent only for a truthy maximum |
| Depop.ConditionsSent | src/lib/scrapers/depop-scraper.ts:150-154 | the condition values sent are the requested conditions, mapped, in order |
| Depop.CountrySent | src/lib/scrapers/depop-scraper.ts:157-159 | a country code is sent iff the location is non-empty, and it is the looked-up code |
| Depop.TransformListings | src/lib/scrapers/depop-scraper.ts:203-220 | normalising keeps length and order, sets source 'depop', the first image or '', the price amount and the seller's username |
| Depop.PageResults | src/lib/scrapers/depop-scraper.ts:105-114 | a non-2xx answer or any failure yields []; a 2xx answer yields one result per product |
| Depop.Search | src/lib/scrapers/depop-scraper.ts:46-63 | a search sends the parameters of offset 0 after the rate limiter, never fails, and starts at least the minimum interval after the previous request |
| Depop.HealthCheck | src/lib/scrapers/depop-scraper.ts:281-294 | the health check always passes, because the test search cannot fail |
| Depop.JoinPages | src/lib/scrapers/depop-scraper.ts:74-87 | the loop asks at most maxPages pages, every page but the last asked is non-empty, stopping early means the last page asked was empty, the results are the pages joined in order, and there is one pause per page asked, less one when the last page asked was empty |
| Depop.SearchMultiplePages | src/lib/scrapers/depop-scraper.ts:68-90 | at most maxPages requests at offsets 0, 20, 40, …; every page before the last one asked is non-empty and stopping early means the last page was empty; the results are the pages joined in order; one pause per request, less one when the last page came back empty |
| Depop.PagesBound | src/lib/scrapers/depop-scraper.ts:74-84 | with pages of at most 20 results, pagination returns at most 20 × maxPages results |
| RateLimit.Wait | src/lib/scrapers/depop-scraper.ts:260-266 | the wait is max(0, interval − elapsed): zero iff the interval has passed, otherwise exactly what remains of it |
| RateLimit.Acquire | src/lib/scrapers/depop-scraper.ts:260-269 | the new request time is at least now and at least the previous request time plus the interval |
| RateLimit.StartsSpaced | src/lib/scrapers/depop-scraper.ts:40-41 | consecutive requests through one limiter start at least the interval apart (1000 ms for Depop, 2000 ms for Facebook) |
| RateLimit.StartsAfter | src/lib/scrapers/facebook-scraper.ts:10-11 | every request starts at least an interval after the limiter's last request, and k requests span at least k intervals |
| Facebook.MockResults | src/lib/scrapers/facebook-scraper.ts:37-78 | a mock item is kept iff it passes the truthy minimum and maximum, survivors keep the order fb_1, fb_2, and each has source 'facebook' |
| Facebook.KeepIsPriceInRange | src/lib/scrapers/facebook-scraper.ts:73-77 | the mock price filter is the scorer's truthiness-based price test |
| Facebook.TitlesEmbedKeywords | src/lib/scrapers/facebook-scraper.ts:41-57 | the first title starts with the keywords and the second is "Vintage " followed by them |
| Facebook.Search | src/lib/scrapers/facebook-scraper.ts:17-32 | a search returns the mock results after the rate limiter, starting at least 2000 ms after the previous request |
| Facebook.HealthCheck | src/lib/scrapers/facebook-scraper.ts:83-86 | the health check always returns true |
| Execute.ParseBody | src/app/api/searches/execute/route.ts:9-12 | the body is accepted exactly when `searchId` is a UUID string and `immediate` is absent or a boolean; `immediate` defaults to true |
| Execute.UuidExamples | src/app/api/searches/execute/route.ts:10 | a hyphenated UUID is accepted and the same digits without hyphens are not |
| Execute.Threshold | src/app/api/searches/execute/route.ts:78 | the search's own minimum relevance when it is truthy, 6 otherwise |
| Execute.AnalyseAll | src/app/api/searches/execute/route.ts:56-109 | one analysis per raw result, in order, each score between 1 and 10 |
| Execute.Saved | src/app/api/searches/execute/route.ts:112-116 | the kept results are exactly those scoring at or above the threshold, as a permutation of them, sorted by score descending |
| Execute.Rows | src/app/api/searches/execute/route.ts:120-139 | one row per saved result, keyed by search id and external id, with the user id and score |
| Execute.WriteAllContents | src/app/api/searches/execute/route.ts:141-146 | writing rows with distinct keys yields the old keys plus the new ones, each new key holding its row and every untouched key its old row |
| Execute.Upsert | src/app/api/searches/execute/route.ts:141-146 | the upsert succeeds exactly when no two rows share a conflict key, and then it replaces or inserts each row and keeps the rest |
| Execute.UpsertIdempotent | src/app/api/searches/execute/route.ts:141-146 | upserting the same rows a second time changes nothing |
| Execute.StoreAfter | src/app/api/searches/execute/route.ts:141-146 | the unchecked upsert error leaves the store as it was |
| Execute.Targets | src/app/api/searches/execute/route.ts:154-159 | at most five notification targets, only when immediate and notifications are enabled, each scoring at least 8 |
| Execute.TargetsArePrefix | src/app/api/searches/execute/route.ts:154-159 | on the descending list the targets are its first entries |
| Execute.Notifications | src/app/api/searches/execute/route.ts:160-173 | one `new_item` notification attempt per target for the caller, naming the search and the item; the call as written does not produce such a notification (see Left out) |
| Execute.Report | src/app/api/searches/execute/route.ts:181-186 | the reply counts the saved results and those scoring at least 8, and carries the first twenty only when immediate |
| Execute.Decide | src/app/api/searches/execute/route.ts:111-186 | with nothing kept, the store, last run and notifications are untouched; otherwise rows are upserted, last run stamped and targets notified |
| Execute.Execute | src/app/api/searches/execute/route.ts:14-207 | the route as evidently intended: 401 without a user, 500 for a body that is not JSON, 400 for a schema failure, 404 for a search not owned by the caller, 500 without the scoring key, otherwise the decision above over the fetched results with one pause between batches of ten |
| Execute.ExecuteAsWritten | src/app/api/searches/execute/route.ts:38-53 | as written nothing is ever stored, stamped or notified and the answer is always an error; it is 500 'Search execution failed' exactly when the request passes every check, because the aggregator has no `searchAllMarketplaces` |
| Execute.AsWrittenNeverExecutes | src/app/api/searches/execute/route.ts:186-193 | every request that passes the checks ends in the inner catch's 500, where the intended pipeline answers with a report |
| Scheduler.DueSearches | src/lib/services/search-scheduler.ts:33-45 | the searches run are exactly the active ones never run or last run more than 30 minutes ago, and none when the query fails |
| Scheduler.RecentlyRunNotDue | src/lib/services/search-scheduler.ts:33-40 | a search run within the last 30 minutes is not selected, and neither is a paused one |
| Scheduler.Previous | src/lib/services/search-scheduler.ts:83-88 | at most 100 earlier records, all of this search, newest first |
| Scheduler.PreviousSize | src/lib/services/search-scheduler.ts:83-88 | the window holds every record of the search, or exactly 100 when there are more |
| Scheduler.PreviousAreNewest | src/lib/services/search-scheduler.ts:83-88 | a record of the search left out of the window is no newer than any record in it: with `PreviousSize`, the window is the newest hundred |
| Scheduler.Consulted | src/lib/services/search-scheduler.ts:83-93 | a failed select of the earlier records reads as no records; otherwise the window of the newest hundred |
| Scheduler.SeenIds | src/lib/services/search-scheduler.ts:91-93 | the set of ids is exactly the ids of the earlier records |
| Scheduler.NewResults | src/lib/services/search-scheduler.ts:103 | a fetched result is kept exactly when its id was not seen before |
| Scheduler.NewResultsKeepCopies | src/lib/services/search-scheduler.ts:103 | every copy of an unseen result is kept and no copy of a seen one |
| Scheduler.RecordsOf | src/lib/services/search-scheduler.ts:109-115 | one record per new result, tagged with the search and the run time |
| Scheduler.Announce | src/lib/services/search-scheduler.ts:106-140 | no writes without new results; otherwise an insert, then, only if it succeeds, one notification and an email exactly when email is enabled |
| Scheduler.RunSearch | src/lib/services/search-scheduler.ts:67-144 | nothing when stamping `last_run` fails; otherwise the stamp comes first and is never repeated, and the rest is decided against the consulted earlier records |
| Scheduler.NoNewResultsNoWrites | src/lib/services/search-scheduler.ts:103-140 | when every fetched id was seen before, the run only stamps `last_run` |
| Scheduler.PreviousFailureRepeatsAll | src/lib/services/search-scheduler.ts:83-124 | when the select of earlier records fails, every fetched result is inserted again, and announced when the insert succeeds |
| Scheduler.ExecuteScheduled | src/lib/services/search-scheduler.ts:31-61 | each due search is run once, in order, with its own outcomes, and a pause falls between consecutive slices of five |
| SearchesRoute.FiltersOf | src/app/api/searches/route.ts:11-17 | filters are present exactly when sent, with the prices and condition sent |
| SearchesRoute.SettingsOf | src/app/api/searches/route.ts:19-23 | settings are present exactly when sent; the frequency is one of the three, and an empty object gets instant on, digest off, "immediate" |
| SearchesRoute.ParseBody | src/app/api/searches/route.ts:6-24 | the body is accepted exactly when it meets the schema; then the name has 1 to 100 characters, there is a keyword, every marketplace is one of the five, the score lies in 1..10 (6 when absent) and a condition is one of the five |
| SearchesRoute.InvertedPriceRangeAccepted | src/app/api/searches/route.ts:11-17 | the schema does not require the minimum price to be below the maximum |
| SearchesRoute.UnknownMarketplaceRefused | src/app/api/searches/route.ts:10 | a marketplace outside the five is a validation error |
| SearchesRoute.Quota | src/app/api/searches/route.ts:78 | the profile's limit when truthy, 3 otherwise |
| SearchesRoute.Create | src/app/api/searches/route.ts:56-114 | 401 exactly without a user; 403 over quota; 500 for a body that is not JSON; 400 for a schema failure; otherwise created exactly when the insert succeeds, with the parsed search and the caller's id |
| SearchesRoute.QuotaBeforeBody | src/app/api/searches/route.ts:65-86 | an over-quota caller gets the same answer whatever body is sent |
| NotificationsRoute.Range | src/app/api/notifications/route.ts:45 | the range of a page spans exactly `limit` slots |
| NotificationsRoute.PagesAdjacent | src/app/api/notifications/route.ts:45 | each page starts right after the previous one ends |
| NotificationsRoute.SlotOnOnePage | src/app/api/notifications/route.ts:45 | with a positive limit every slot lies on exactly one page |
| NotificationsRoute.Window | src/app/api/notifications/route.ts:40-45 | the range is refused exactly for a negative offset or count; otherwise it returns the consecutive rows from the offset, at most the count, `count` of them when the list is long enough, and the rest of the list otherwise |
| NotificationsRoute.WindowOfSorted | src/app/api/notifications/route.ts:44-45 | a page of a newest-first list is newest first and holds only its rows |
| NotificationsRoute.TotalPages | src/app/api/notifications/route.ts:74 | the ceiling of total over limit: the fewest pages that hold the total, 0 for no rows, and not finite for a zero limit |
| NotificationsRoute.List | src/app/api/notifications/route.ts:25-81 | 401 without a user; a page holds at most `limit` of the caller's rows passing the unread and type filters, newest first; the total counts all of the caller's rows, 0 when the count fails; page 1 of 20 by default |
| NotificationsRoute.ListIsPage | src/app/api/notifications/route.ts:35-45 | the page is the slice of the caller's selected notifications, newest first, starting at slot (page − 1)·limit: `limit` rows when that many follow, the rest otherwise; the listing fails exactly for a negative offset or limit |
| NotificationsRoute.StripData | src/app/api/notifications/route.ts:9-18 | the stored data keeps exactly the known fields sent, unchanged, and drops the others |
| NotificationsRoute.CreateOne | src/app/api/notifications/route.ts:83-122 | 401 without a user, 500 for a body that is not JSON, 400 for a schema failure; a created notification is the caller's, unread, of a known kind with a 1..500 character message, appended to the table, and creation succeeds for every valid body the store accepts |
| NotificationsRoute.Patch | src/app/api/notifications/route.ts:124-184 | the body is validated before anything else; `mark_all_read=true` marks all the caller's records read; otherwise an id is required and only a record the caller owns is updated, and any failure leaves the table as it was |
| NotificationStore.GetNotifications | src/lib/api/notification-service.ts:14-30 | at most `limit` of the user's records, newest first, none on error |
| NotificationStore.GetNotificationsSize | src/lib/api/notification-service.ts:14-30 | the answer holds `limit` of the user's records, all of them when there are fewer, and none for a negative limit |
| NotificationStore.GetNotificationsComplete | src/lib/api/notification-service.ts:14-30 | with a limit covering the table, every record of the user is returned |
| NotificationStore.GetNotificationsNewest | src/lib/api/notification-service.ts:14-30 | a record of the user left out by the limit is no newer than any record returned: with `GetNotificationsSize`, the answer is the newest `limit` |
| NotificationStore.Create | src/lib/api/notification-service.ts:102-130 | an insert succeeds exactly when the store accepts it and the id is free, appending one unread record; ids stay distinct |
| NotificationStore.MarkAsRead | src/lib/api/notification-service.ts:32-46 | only the record with that id becomes read, whoever owns it; a failure changes nothing |
| NotificationStore.MarkAllAsRead | src/lib/api/notification-service.ts:48-63 | every record of the user becomes read and no other record changes |
| NotificationStore.MarkAllAsReadIdempotent | src/lib/api/notification-service.ts:48-63 | marking all read twice is marking once, and leaves the user nothing unread |
| NotificationStore.Delete | src/lib/api/notification-service.ts:163-177 | the record with that id is gone and every other record stays |
| NotificationStore.DeleteAll | src/lib/api/notification-service.ts:180-194 | all of the user's records are gone and every other user's record stays |
| NotificationStore.CreateThenDelete | src/lib/api/notification-service.ts:102-177 | deleting a record just created restores the table |
| Tally.Bump | src/lib/api/analytics-service.ts:54-58 | bumping adds an entry only for a new key |
| Tally.BumpCount | src/app/api/analytics/route.ts:49 | a bump raises the count of its key by one and no other count |
| Tally.BumpDistinct | src/app/api/analytics/route.ts:49 | keys stay distinct and the total grows by one |
| Tally.CountCorrect | src/app/api/analytics/route.ts:45-51 | the frequency map has one entry per distinct key, each counting exactly the key's occurrences, totalling the number of keys |
| Tally.Top | src/app/api/analytics/route.ts:53-56 | the top list has `k` entries, or all when there are fewer |
| Tally.TopAreMostFrequent | src/app/api/analytics/route.ts:53-56 | an entry left out of the top `k` counts no more than any entry kept |
| Tally.TopCorrect | src/app/api/analytics/route.ts:53-56 | the top list is by count descending, drawn from the map, and counts no more than the map |
| Tally.TopCounts | src/app/api/analytics/route.ts:45-56 | every top entry's key occurs among the keys and its count is the number of its occurrences |
| Tally.TopKeysMostFrequent | src/app/api/analytics/route.ts:45-56 | a counted key without a top entry occurs no more often than any key with one |
| Tally.TopKeysCorrect | src/app/api/analytics/route.ts:45-56 | the top `k` keys carry their exact occurrence counts and none is outcounted by a key left out |
| AnalyticsService.KeywordsOf | src/lib/api/analytics-service.ts:51-60 | reading fails exactly when some row has a null query; otherwise the keys are exactly the truthy keyword strings |
| AnalyticsService.KeywordsCounted | src/lib/api/analytics-service.ts:51-60 | a key is read once for every row whose truthy keywords equal it |
| AnalyticsService.GetUserSearchAnalytics | src/lib/api/analytics-service.ts:33-80 | at most the ten newest of the user's searches, newest first; at most five top keywords by count descending, counting no more than the searches; empty when the query fails |
| AnalyticsService.NullQueryEmpties | src/lib/api/analytics-service.ts:51-79 | one null query among the newest rows makes the whole answer empty, the total included |
| AnalyticsService.TopKeywordsCounted | src/lib/api/analytics-service.ts:50-65 | each top keyword is a non-empty key read, counted once per time it was read, and a key left out was read no more often than any keyword shown |
| AnalyticsService.TopKeywordsCarried | src/lib/api/analytics-service.ts:50-65 | a top keyword's count is the number of recent searches that carry it, and a keyword left out is carried by no more recent searches than any keyword shown |
| AnalyticsService.RecentAreNewest | src/lib/api/analytics-service.ts:41-47 | a search of the user left out of the recent ten is no newer than any of them: with `RecentSize`, they are the ten newest |
| AnalyticsService.RecentSize | src/lib/api/analytics-service.ts:41-47 | unless a null query empties the answer, the recent searches are all of the user's rows, or exactly ten when there are more |
| AnalyticsService.TrendDays | src/lib/api/analytics-service.ts:90-92 | 7 days for "week", 365 for "year", 30 otherwise |
| AnalyticsService.TrendDates | src/lib/api/analytics-service.ts:95-106 | one date per day from `days` days ago to today, consecutive |
| AnalyticsRoute.TimeRange | src/app/api/analytics/route.ts:15 | the parameter when non-empty, "month" otherwise |
| AnalyticsRoute.RangeDays | src/app/api/analytics/route.ts:28-38 | an unknown range subtracts no days |
| AnalyticsRoute.Cutoff | src/app/api/analytics/route.ts:26-38 | the cutoff is never after now, and is now for an unknown range |
| AnalyticsRoute.CutoffsNest | src/app/api/analytics/route.ts:28-38 | a year reaches further back than a month, a month than a week, a week than an unknown range; the default is a month |
| AnalyticsRoute.KeywordsOf | src/app/api/analytics/route.ts:46-51 | reading fails exactly when a keywords value is truthy but not an array; otherwise the keys are exactly the array items |
| AnalyticsRoute.KeywordsCounted | src/app/api/analytics/route.ts:46-51 | a key is read as often as it appears across the rows' keyword arrays, added up row by row |
| AnalyticsRoute.Recent | src/app/api/analytics/route.ts:40-42 | the recent searches are exactly the fetched ones later than the cutoff |
| AnalyticsRoute.RecentGrowsWithRange | src/app/api/analytics/route.ts:40-42 | an earlier cutoff never yields fewer recent searches |
| AnalyticsRoute.Fetched | src/app/api/analytics/route.ts:19 | at most 100 of the caller's searches, newest first, none on error |
| AnalyticsRoute.FetchedSize | src/app/api/analytics/route.ts:19 | the query returns every search of the caller, or exactly 100 when there are more |
| AnalyticsRoute.FetchedAreNewest | src/app/api/analytics/route.ts:19 | a search of the caller left out of the fetched rows is no newer than any fetched one: with `FetchedSize`, they are the hundred newest |
| AnalyticsRoute.ReportOf | src/app/api/analytics/route.ts:53-75 | at most ten recent searches shown, at most ten top keywords by count descending, none without keys |
| AnalyticsRoute.ReportShowsFirstRecent | src/app/api/analytics/route.ts:69 | the searches a report shows are the first ten recent ones, in order, or all of them when fewer |
| AnalyticsRoute.ReportTopKeywords | src/app/api/analytics/route.ts:45-56 | the report's top keywords carry their exact occurrence counts, and a key left out occurs no more often than any keyword shown |
| AnalyticsRoute.Get | src/app/api/analytics/route.ts:5-80 | 401 exactly without a user; the report's range, counters and lists keep their bounds; shown searches are the caller's and inside the range |
| AnalyticsRoute.FailsOnlyOnNonArray | src/app/api/analytics/route.ts:46-79 | the answer is an error exactly when a recent search holds keywords that are not an array |
| AnalyticsRoute.TopKeywordsCounted | src/app/api/analytics/route.ts:45-56 | once the keywords are read the answer is a report; each top keyword's count is the number of times it appears across the recent searches' arrays, and a keyword left out appears no more often than any keyword shown |
| AnalyticsRoute.ShownAreFirstRecent | src/app/api/analytics/route.ts:40-70 | the searches a report shows are the first ten recent ones, in order, or all of them when fewer |
| SearchForm.Toggle | src/components/search/SearchForm.tsx:80-98 | toggling a marketplace or notification type flips its membership and keeps every other one; a new one is appended |
| SearchForm.ToggleTwice | src/components/search/SearchForm.tsx:80-98 | toggling twice restores the selection, exactly when the item was absent |
| SearchForm.ToggleDistinct | src/components/search/SearchForm.tsx:80-98 | a selection without duplicates keeps none |
| SearchForm.ToggleCondition | src/components/search/SearchForm.tsx:100-122 | the selection stays non-empty with 'any' alone or absent; 'any' resets to itself; another condition flips its membership and keeps the others |
| SearchForm.Replay | src/components/search/SearchForm.tsx:39-122 | any sequence of clicks from the initial selection leaves it well formed |
| SearchForm.ValidBoundsAdmitAPrice | src/components/search/SearchForm.tsx:165-184 | bounds that pass both price rules admit some price under the scorer's price-range test |
| SearchForm.Submitted | src/components/search/SearchForm.tsx:63-183 | a submission happens exactly when a marketplace and a notification type are selected, the name and keywords are non-empty and both price rules pass; it carries the three selections and the other fields unchanged |
| SearchForm.SubmittedAdmitsAPrice | src/components/search/SearchForm.tsx:129-183 | a submitted search has a name, keywords and a marketplace, and its price bounds admit some price |
| SearchForm.InitialSelections | src/components/search/SearchForm.tsx:32-41 | without given lists the selections are the defaults, which are well formed and allow submitting |
| AdvancedSearchForm.Parse | src/components/search/AdvancedSearchForm.tsx:18-30 | accepted exactly with keywords, a marketplace and a known sort order; the two switches default to off and nothing else changes |
| AdvancedSearchForm.InvertedPricesAccepted | src/components/search/AdvancedSearchForm.tsx:20-21 | a minimum above the maximum passes the schema |
| AdvancedSearchForm.Defaults | src/components/search/AdvancedSearchForm.tsx:42-55 | each given initial value replaces its default: empty keywords, prices 0 and 1000, Depop, eBay and Vinted, newest first, both switches off |
| AdvancedSearchForm.DefaultsNeedKeywords | src/components/search/AdvancedSearchForm.tsx:19-55 | the defaults alone fail the schema and pass once keywords are given |
| AdvancedSearchForm.MarketplaceValuesKnown | src/components/search/AdvancedSearchForm.tsx:144-150 | the five captions give the five distinct marketplace keys the server accepts |
| AdvancedSearchForm.LikeNewNotMapped | src/components/search/AdvancedSearchForm.tsx:238-244 | the caption 'Like New' gives 'like new', which the server schema refuses and Depop's table passes through unmapped |
| AdvancedSearchForm.ConditionValuesKnown | src/components/search/AdvancedSearchForm.tsx:238-244 | with spaces written as underscores, the five captions give the five condition keys, and 'Like New' maps to Depop's 'new_no_tags' |
| AdvancedSearchForm.SetChecked | src/components/search/AdvancedSearchForm.tsx:155-161 | checking adds the value, unchecking removes every copy, other values keep their membership |
| ResultsView.Keep | src/app/searches/results/enhanced-page.tsx:186-219 | a listing is kept exactly when it passes the quick filter, the text query, the marketplace, price and condition checks; with conditions selected, a listing without one is dropped |
| ResultsView.Shown | src/app/searches/results/enhanced-page.tsx:186-219 | the shown listings are exactly the kept ones, each copy at most as often as in the results |
| ResultsView.UnconditionedHidden | src/app/searches/results/enhanced-page.tsx:210-216 | once any condition box is ticked, a listing without a condition is hidden |
| ResultsView.SortShown | src/app/searches/results/enhanced-page.tsx:222-228 | sorting permutes the listings: by relevance descending, price ascending or descending, or newest first |
| ResultsView.UnknownSortKeepsOrder | src/app/searches/results/enhanced-page.tsx:222-228 | any other sort key leaves the order unchanged |
| ResultsView.Reset | src/app/searches/results/enhanced-page.tsx:475-480 | resetting the filters keeps the text query |
| ResultsView.ResetShows | src/app/searches/results/enhanced-page.tsx:475-480 | after a reset exactly the listings matching the query and priced within 0..1000 are shown |
| ResultsView.Refresh | src/app/searches/results/enhanced-page.tsx:158-178 | a refresh replaces the list only with a non-empty fetched list, and never empties a non-empty one |
| ResultsView.SimpleKeep | src/app/searches/results/page.tsx:103-115 | under 'all' everything is kept; 'high-relevance', 'new' and 'low-price' keep exactly their listings; only another value consults the text query |
| ResultsView.SimpleShown | src/app/searches/results/page.tsx:103-115 | the shown listings are exactly the kept ones |
| ResultsView.SimpleQueryIgnored | src/app/searches/results/page.tsx:103-115 | under the four offered filter values the text query has no effect, and 'all' shows every result |
| ResultsView.PagesAgree | src/app/searches/results/page.tsx:103-115 | without marketplace or condition boxes and inside the price range, the two pages keep the same listings when no query is typed or the filter value is not one of the four |
| NotificationViews.Visible | src/app/notifications/page.tsx:88-93 | the 'all' view is the list; the others hold only unread or only read notifications of it |
| NotificationViews.ViewsPartition | src/app/notifications/page.tsx:88-93 | the unread and read views split the list exactly |
| NotificationViews.Handle | src/app/notifications/page.tsx:22-85 | marking changes only read flags; marking one reads that id; marking all reads everything when signed in; removing drops exactly that id; clearing empties the list only when signed in and confirmed |
| NotificationViews.LocalMatchesStore | src/app/notifications/page.tsx:22-68 | the local update for marking and removing is the store's successful update; the page shows the change even when the store call failed |
| NotificationViews.MarkAllEnabled | src/app/notifications/page.tsx:196 | the mark-all button is enabled exactly when the unread view is non-empty |
| NotificationViews.ClearEnabled | src/app/notifications/page.tsx:204 | the clear button is enabled exactly when there are notifications |
| NotificationViews.MarkAllDisablesItself | src/app/notifications/page.tsx:39-53 | after marking all read the button is disabled and every notification is in the read view |
| NotificationViews.Fetch | src/components/notifications/NotificationCenter.tsx:25-38 | a fetch sets the counter to the number of unread notifications |
| NotificationViews.FlooredDecrement | src/components/notifications/NotificationCenter.tsx:50 | the counter drops by one and never below 0 |
| NotificationViews.MarkAsReadAsWritten | src/components/notifications/NotificationCenter.tsx:41-54 | the code decrements the counter whatever the clicked notification's state |
| NotificationViews.MarkingReadRecordUndercounts | src/components/notifications/NotificationCenter.tsx:41-54 | clicking an already read notification leaves the counter one below the unread notifications |
| NotificationViews.MarkAsRead | src/components/notifications/NotificationCenter.tsx:41-54 | the counter changes only when the clicked notification was unread |
| NotificationViews.MarkAsReadKeepsCount | src/components/notifications/NotificationCenter.tsx:41-54 | the corrected update keeps the counter equal to the unread notifications |
| NotificationViews.MarkAllAsRead | src/components/notifications/NotificationCenter.tsx:57-69 | when signed in, all are read and the counter is 0; otherwise nothing changes |
| NotificationViews.Badge | src/components/notifications/NotificationCenter.tsx:93-97 | no badge for a counter of 0 or less, "99+" above 99 |
| NotificationViews.BadgeDistinguishes | src/components/notifications/NotificationCenter.tsx:93-97 | counters from 1 to 99 get distinct badges, none of them "99+" |
| NotificationViews.BellMarkAllEnabled | src/components/notifications/NotificationCenter.tsx:109 | with a consistent counter, the bell's mark-all button is enabled exactly when the page's is |
| TimeFormat.AgoOf | src/app/dashboard/page.tsx:312-332 | each label covers one interval: under a minute "Just now", then whole minutes under an hour, whole hours under a day, whole days |
| TimeFormat.FormatTimeAgo | src/app/dashboard/page.tsx:312-332 | the label is "Just now" exactly under one minute |
| TimeFormat.AgoTextInjective | src/app/searches/page.tsx:336-356 | different labels never read the same |
| TimeFormat.AgoMonotone | src/app/dashboard/page.tsx:312-332 | more elapsed time never shows a smaller unit or a smaller count in the same unit |
| TimeFormat.ElapsedOf | src/app/analytics/page.tsx:158-173 | whole minutes under an hour, whole hours under a day, otherwise whole days; the count is negative exactly for a future time |
| TimeFormat.PluralUnlessOne | src/app/analytics/page.tsx:158-173 | the unit is plural exactly when the count is not 1 |
| TimeFormat.FutureIsNegative | src/app/analytics/page.tsx:158-173 | a future time is shown with a minus sign |
| TimeFormat.FormattersAgree | src/app/analytics/page.tsx:158-173 | from one minute on the two formatters agree on unit and count; under a minute one says "Just now" and the other "0 minutes" |
| SearchesPage.Find | src/app/searches/page.tsx:71-80 | the first search with the id, or none when no search has it |
| SearchesPage.ToggleActive | src/app/searches/page.tsx:71-80 | only the active flag of the searches with that id flips; the toast says paused exactly when the found search was active, and names it when found |
| SearchesPage.ToggleTwice | src/app/searches/page.tsx:71-80 | toggling twice restores the list |
| SearchesPage.ToggleToastsAlternate | src/app/searches/page.tsx:71-80 | a second toggle announces the opposite of the first |
| SearchesPage.Delete | src/app/searches/page.tsx:82-89 | after confirmation exactly the searches with that id disappear; without it nothing changes |
| SearchesPage.MarketplaceBadge | src/app/searches/page.tsx:91-126 | a badge exactly for the five lower-case marketplace keys |
| SearchesPage.BadgeIsCaseSensitive | src/app/searches/page.tsx:91-126 | a capitalised key gets no badge |
| SavedPage.SetNotification | src/app/searches/saved/page.tsx:75-92 | only the flag of the searches with that id changes, to the requested value |
| SavedPage.SetNotificationLastWins | src/app/searches/saved/page.tsx:75-92 | the last setting wins |
| SavedPage.Delete | src/app/searches/saved/page.tsx:58-72 | after confirmation exactly the searches with that id disappear, whatever the store answered |
| SavedPage.FormatDate | src/app/searches/saved/page.tsx:95-106 | "Never" for an empty date, the locale format otherwise |
| SavedPage.MarketplaceInitial | src/app/searches/saved/page.tsx:109-148 | an initial exactly for names whose lower-case form is one of the five keys, '?' otherwise |
| SavedPage.InitialIgnoresCase | src/app/searches/saved/page.tsx:109-148 | the saved page recognises a name exactly when the searches page recognises its lower-case form |
| MarketplacesPage.Toggled | src/app/marketplaces/page.tsx:67-90 | the connection flips, the status follows it, the time is stamped on connecting |
| MarketplacesPage.ToggleConnection | src/app/marketplaces/page.tsx:67-90 | only the marketplaces with that id toggle, and none of them stays failing |
| MarketplacesPage.ToggleKeepsAgreement | src/app/marketplaces/page.tsx:67-90 | a toggle keeps every status in agreement with its connection |
| MarketplacesPage.ToggleTwice | src/app/marketplaces/page.tsx:67-90 | toggling twice restores each connection |
| MarketplacesPage.Refresh | src/app/marketplaces/page.tsx:92-120 | the count moves by the change, a missing count counting as 0, and becomes exactly 0 when the sum is negative; the time becomes now; nothing else changes |
| MarketplacesPage.RefreshKeepsOffers | src/app/marketplaces/page.tsx:92-120 | a refresh never adds or removes a refresh button |
| AnalyticsPage.RangeDays | src/app/analytics/page.tsx:72-98 | 7 days for "week", 30 for "month", 365 otherwise |
| AnalyticsPage.RangeInterval | src/app/analytics/page.tsx:72-98 | a point every day for "week", every 3 days for "month", every 30 otherwise |
| AnalyticsPage.TrendOffsets | src/app/analytics/page.tsx:72-98 | one point per step back from the range's start, `days / interval + 1` of them, the last within one interval of today |
| AnalyticsPage.PointCounts | src/app/analytics/page.tsx:72-98 | a week has 8 points, a month 11 and a year 13 |
| AnalyticsPage.TrendArrow | src/app/analytics/page.tsx:292-300 | an arrow only with more than two points, up exactly when the last price is above the first |
| AnalyticsPage.ReversedSeriesFlipsArrow | src/app/analytics/page.tsx:292-300 | reading the series backwards flips the arrow |

Where the code and a first reading differ, the model follows the code:

- The fallback score never exceeds 8: six points for keywords and two for
  the price (`Scorer.FallbackScore`).
- An unknown marketplace name is skipped without an error, both when the
  aggregator builds its registry and when the integration layer searches.
- A request body that is not JSON makes the search, notification and execute
  routes answer 500, not 400: reading it throws outside the schema check.
- In the execute route as written the inner `catch` is always reached: the
  aggregator has no `searchAllMarketplaces`, so the call throws (see
  Findings). In the intended pipeline every later step it guards is total:
  failed scoring falls back, a failed upsert is ignored, failed notifications
  are skipped.
- The marketplace list of a new saved search may be empty.

## Left out

- Network, database and language-model calls: their outcomes are parameters (failure flags, replies, fetched lists), and concurrency (`Promise.all`) is modelled as the sequential order its results are collected in.
- Sleeps and the clock: a pause is counted, not timed; `Date.now()` and `new Date()` are an integer `now`.
- Randomness: the analytics page's mock prices and the marketplaces page's simulated count change are inputs.
- Floating point: prices and scores are exact reals; `NaN` from an empty number field is `None`; `parseInt` of a non-numeric page or limit is not modelled.
- Locale formatting: `toLocaleDateString` and friends are a function parameter.
- The cross-module calls that do not type-check as written: the execute route calls `searchAllMarketplaces` on the aggregator, and both the execute route and the scheduler call `createNotification` with one object where the service takes the user id, the type, the message and the data as separate arguments. Both notifications are events.
- `Execute.Execute`: states the pipeline the route evidently means, over raw results given as an input. As written, `new SearchAggregator()` has no `searchAllMarketplaces`, so every request that passes the checks throws a `TypeError` and gets 500 'Search execution failed' with nothing stored or notified; `Execute.ExecuteAsWritten` models that.
- `Execute.Notifications`: states the notification each call evidently means to create. As written, `createNotification(user.id, { type, message, data })` stores the whole object as the type and an undefined message, so the store's type check refuses it or a malformed row results; which of the two happens depends on the database and is not modelled.
- `GET /api/searches`: it only forwards the store's rows.
- The notification service's preference reads and writes and its e-mail log, and the analytics service's `recordSearch`, `getUserAnalytics` and `getMarketplaceDistribution`: each is one store call or a constant.
- The zod UUID check follows the hyphenated 8-4-4-4-12 hexadecimal layout; version and variant digits are not checked.
- The enhanced results page's loading of a saved search on mount, and the `isLoading`/`isRefreshing` flags of every page.
- `Scorer.FromRaw`: a field of the wrong JSON type becomes absent and takes its default. JavaScript coerces it instead: `"relevanceScore": "8"` gives 8, `true` gives 1, and a non-numeric string or an object gives `NaN`, which passes the clamp; a truthy non-string `reasoning` is kept. Number coercion of arbitrary JSON values is not modelled, so the score bound holds only for numeric or absent fields.
- `Scorer.AnalyzeListing`: inherits the gap of `Scorer.FromRaw`: for a non-numeric score in the model's answer the program's score can be `NaN`, outside [1, 10].
- `Depop.MapCondition`: the condition table is a plain object literal, so a condition such as `"constructor"` or `"toString"` reads an `Object.prototype` member and sends its text; the model passes every unknown condition through unchanged.
- `Depop.GetCountryCode`: likewise for the location table, which is looked up with free user text: a location such as `"constructor"` sends a function's text instead of a table code or GB.
- `Text.Lower`: lower-cases ASCII letters only, while `toLowerCase` follows Unicode, so `"É"` and `"é"` differ in the model and match in the program. This affects `Scorer.FindKeywordMatches`, `Depop.GetCountryCode`, `Aggregator.FindService` and the results-page filters. zod's string length limits count UTF-16 code units, and the model counts characters.
- `NotificationsRoute.Window`: PostgREST's answers for a range past the end of the table are modelled as an empty page; the exact status codes are not.
- `AnalyticsRoute.Get`: the four counters are passed through; only their bound is stated.
- `SearchForm.InitialSelections`: covers the three toggled lists; the other default field values are plain copies.
- `AdvancedSearchForm.Defaults`: `initialValues` may set any field; the model lets it set the five fields the pages pass.

## Findings

| source | as written | input that shows it | evidently intended | confidence | as-written member | corrected member |
|---|---|---|---|---|---|---|
| src/components/search/AdvancedSearchForm.tsx:238-244 | the condition value is the lower-cased caption, so 'Like New' gives 'like new' | tick 'Like New': the query carries 'like new', which the search schema refuses and Depop's condition table passes through unmapped | 'like_new', the key the server schema and the Depop table use | not executed | AdvancedSearchForm.LikeNewNotMapped | AdvancedSearchForm.ConditionValuesKnown |
| src/app/api/searches/execute/route.ts:39-45 | the route builds a `SearchAggregator` and calls `searchAllMarketplaces` on it, a method only the integration service has | any signed-in request with a valid body for an owned search while the scoring key is set: the call throws and the answer is 500 'Search execution failed', with nothing stored, stamped or notified | search the requested marketplaces, then score, store and notify | not executed | Execute.AsWrittenNeverExecutes | Execute.Execute |
| src/components/notifications/NotificationCenter.tsx:41-54 | marking a notification read decrements the unread counter whatever the notification's state | two notifications, `a` read and `b` unread, counter 1; click `a`: the counter becomes 0 while `b` is still unread | decrement only when the clicked notification was unread | not executed | NotificationViews.MarkingReadRecordUndercounts | NotificationViews.MarkAsReadKeepsCount |
