/**
 * The saved-searches page: switching a search's notifications on or off,
 * deleting one after confirmation, the "last run" label and the marketplace
 * initial.
 *
 * The template service answers `{ success, error }` instead of throwing, so
 * the page applies each change locally whatever the store did.
 */
module SavedPage {
  import opened Seqs
  import opened Text
  import SearchesRoute
  import SearchesPage

  datatype Template = Template(id: string, name: string, marketplaces: seq<string>, notificationEnabled: bool, lastRun: string)

  /** `toggleNotification(id, enabled)`: sets the flag of the searches with that id to `enabled`. */
  function SetNotification(ts: seq<Template>, id: string, enabled: bool): (r: seq<Template>)
    ensures |r| == |ts|
    ensures forall k :: 0 <= k < |ts| ==> r[k].(notificationEnabled := ts[k].notificationEnabled) == ts[k]
    ensures forall k :: 0 <= k < |ts| && ts[k].id == id ==> r[k].notificationEnabled == enabled
    ensures forall k :: 0 <= k < |ts| && ts[k].id != id ==> r[k] == ts[k]
  {
    Map(ts, (t: Template) => if t.id == id then t.(notificationEnabled := enabled) else t)
  }

  /** Setting the same value twice is the same as once, and the last setting wins. */
  lemma SetNotificationLastWins(ts: seq<Template>, id: string, first: bool, second: bool)
    ensures SetNotification(SetNotification(ts, id, first), id, second) == SetNotification(ts, id, second)
  {
  }

  /** `deleteSearch`: after confirmation the searches with that id are removed, even when the store call failed. */
  function Delete(ts: seq<Template>, id: string, confirmed: bool): (r: seq<Template>)
    ensures !confirmed ==> r == ts
    ensures confirmed ==> forall t :: t in r <==> t in ts && t.id != id
    ensures multiset(r) <= multiset(ts)
  {
    if confirmed then Filter(ts, (t: Template) => t.id != id) else ts
  }

  /** `formatDate`: "Never" for an empty date; otherwise the locale formatting, which is given. */
  function FormatDate(date: string, localeFormat: string -> string): (r: string)
    ensures date == "" ==> r == "Never"
    ensures date != "" ==> r == localeFormat(date)
  {
    if date == "" then "Never" else localeFormat(date)
  }

  /** `getMarketplaceIcon`: the initial of the lower-cased name among the five marketplaces, '?' otherwise. */
  function MarketplaceInitial(marketplace: string): (r: char)
    ensures r != '?' <==> Lower(marketplace) in SearchesRoute.MarketplaceNames
  {
    match Lower(marketplace)
    case "depop" => 'D'
    case "ebay" => 'E'
    case "facebook" => 'F'
    case "vinted" => 'V'
    case "craigslist" => 'C'
    case _ => '?'
  }

  /**
   * The saved-searches page recognises a marketplace whenever the "My
   * Searches" page recognises its lower-cased name.
   */
  lemma InitialIgnoresCase(marketplace: string)
    ensures MarketplaceInitial(marketplace) != '?' <==> SearchesPage.MarketplaceBadge(Lower(marketplace)).Some?
  {
  }
}
