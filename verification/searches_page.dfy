/**
 * The "My Searches" page: pausing and resuming a search, deleting one after
 * confirmation, and the badge shown for each marketplace key.
 */
module SearchesPage {
  import opened Wrappers
  import opened Seqs
  import SearchesRoute

  datatype Search = Search(id: string, name: string, keywords: string, marketplaces: seq<string>, active: bool)

  /** `searches.find(s => s.id === id)`: the first search with that id. */
  function Find(ss: seq<Search>, id: string): (r: Option<Search>)
    ensures r.Some? ==> r.value in ss && r.value.id == id
    ensures r.None? <==> forall k :: 0 <= k < |ss| ==> ss[k].id != id
  {
    if |ss| == 0 then None
    else if ss[0].id == id then Some(ss[0])
    else Find(ss[1..], id)
  }

  /** The toast after a toggle: "paused" or "activated", and the name when the search was found. */
  datatype Toast = Toast(paused: bool, name: Option<string>)

  function Flip(id: string): Search -> Search {
    (s: Search) => if s.id == id then s.(active := !s.active) else s
  }

  /**
   * `toggleSearchActive`: flips `active` of every search with that id and
   * nothing else; the toast reads the list as it was before the toggle.
   */
  function ToggleActive(ss: seq<Search>, id: string): (r: (seq<Search>, Toast))
    ensures |r.0| == |ss|
    ensures forall k :: 0 <= k < |ss| ==> r.0[k].(active := ss[k].active) == ss[k]
    ensures forall k :: 0 <= k < |ss| ==> (r.0[k].active <==> (ss[k].active != (ss[k].id == id)))
    ensures r.1.paused <==> Find(ss, id).Some? && Find(ss, id).value.active
    ensures r.1.name.Some? <==> exists k :: 0 <= k < |ss| && ss[k].id == id
  {
    var found := Find(ss, id);
    (Map(ss, Flip(id)), Toast(found.Some? && found.value.active, if found.Some? then Some(found.value.name) else None))
  }

  /** Toggling twice gives back the list. */
  lemma ToggleTwice(ss: seq<Search>, id: string)
    ensures ToggleActive(ToggleActive(ss, id).0, id).0 == ss
  {
  }

  /** A second toggle announces the opposite of the first. */
  lemma ToggleToastsAlternate(ss: seq<Search>, id: string)
    requires exists k :: 0 <= k < |ss| && ss[k].id == id
    ensures ToggleActive(ToggleActive(ss, id).0, id).1.paused == !ToggleActive(ss, id).1.paused
  {
    FindAfterFlip(ss, id);
  }

  lemma {:induction false} FindAfterFlip(ss: seq<Search>, id: string)
    requires Find(ss, id).Some?
    ensures Find(Map(ss, Flip(id)), id) == Some(Flip(id)(Find(ss, id).value))
  {
    var r := Map(ss, Flip(id));
    assert r[0] == Flip(id)(ss[0]);
    if ss[0].id != id {
      assert r[1..] == Map(ss[1..], Flip(id));
      FindAfterFlip(ss[1..], id);
    }
  }

  /** `deleteSearch`: after confirmation, the searches with that id are gone and every other one stays, in order. */
  function Delete(ss: seq<Search>, id: string, confirmed: bool): (r: seq<Search>)
    ensures !confirmed ==> r == ss
    ensures confirmed ==> forall s :: s in r <==> s in ss && s.id != id
    ensures multiset(r) <= multiset(ss)
  {
    if confirmed then Filter(ss, (s: Search) => s.id != id) else ss
  }

  /** `getMarketplaceIcon`: a badge caption for the five lower-case keys, nothing otherwise. */
  function MarketplaceBadge(marketplace: string): (r: Option<string>)
    ensures r.Some? <==> marketplace in SearchesRoute.MarketplaceNames
  {
    match marketplace
    case "depop" => Some("Depop")
    case "ebay" => Some("eBay")
    case "facebook" => Some("FB")
    case "vinted" => Some("Vinted")
    case "craigslist" => Some("CL")
    case _ => None
  }

  /**
   * The keys are matched exactly: a capitalised key gets no badge. The key
   * is a parameter fixed by `requires`, so that the string literal stays out
   * of the contract the rest of the module sees.
   */
  lemma BadgeIsCaseSensitive(key: string)
    requires key == "Depop"
    ensures MarketplaceBadge(key).None?
  {
  }
}
