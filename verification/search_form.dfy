/**
 * The search form's client-side state: the toggled marketplace,
 * notification-type and condition lists, the price validators and the
 * submit guard.
 */
module SearchForm {
  import opened Wrappers
  import opened Seqs
  import opened Types
  import Scorer

  const DefaultMarketplaces: seq<string> := ["depop", "facebook", "ebay"]
  const DefaultNotificationTypes: seq<string> := ["email"]
  const AnyCondition: string := "any"
  const DefaultConditions: seq<string> := [AnyCondition]

  function Without(item: string): string -> bool {
    (x: string) => x != item
  }

  /** `toggleMarketplace` / `toggleNotificationType`: remove a present item, append an absent one. */
  function Toggle(prev: seq<string>, item: string): (r: seq<string>)
    ensures item in r <==> item !in prev
    ensures forall x :: x != item ==> (x in r <==> x in prev)
    ensures item !in prev ==> r == prev + [item]
  {
    if item in prev then
      var r := Filter(prev, Without(item));
      assert forall x :: x in r ==> Without(item)(x) && x in prev by {
        forall x | x in r ensures Without(item)(x) && x in prev {
          FilterMember(prev, Without(item), x);
        }
      }
      r
    else prev + [item]
  }

  /** Toggling an item twice brings back the same selection. */
  lemma ToggleTwice(prev: seq<string>, item: string)
    ensures forall x :: x in Toggle(Toggle(prev, item), item) <==> x in prev
    ensures item !in prev ==> Toggle(Toggle(prev, item), item) == prev
  {
    if item !in prev {
      var once := prev + [item];
      FilterSnoc(once, Without(item));
      assert once[..|once| - 1] == prev;
      assert forall i :: 0 <= i < |prev| ==> Without(item)(prev[i]);
      FilterAll(prev, Without(item));
    }
  }

  /** Toggling keeps a selection free of repeats. */
  lemma ToggleDistinct(prev: seq<string>, item: string)
    requires Distinct(prev)
    ensures Distinct(Toggle(prev, item))
  {
    if item in prev {
      FilterDistinct(prev, Without(item));
    }
  }

  lemma {:induction false} FilterDistinct(xs: seq<string>, p: string -> bool)
    requires Distinct(xs)
    ensures Distinct(Filter(xs, p))
  {
    if |xs| > 0 {
      assert Distinct(xs[1..]) by {
        assert forall i, j :: 0 <= i < j < |xs[1..]| ==> xs[1..][i] == xs[i + 1] && xs[1..][j] == xs[j + 1];
      }
      FilterDistinct(xs[1..], p);
      assert xs[0] !in xs[1..];
      if p(xs[0]) {
        var rest := Filter(xs[1..], p);
        assert xs[0] !in rest by {
          if xs[0] in rest {
            FilterMember(xs[1..], p, xs[0]);
          }
        }
        assert Filter(xs, p) == [xs[0]] + rest;
      }
    }
  }

  /** A condition selection is well formed: never empty, and 'any' stands alone. */
  predicate WellFormed(conditions: seq<string>) {
    |conditions| > 0 && (AnyCondition in conditions ==> conditions == [AnyCondition])
  }

  /**
   * `toggleCondition`: 'any' clears the others; another condition drops
   * 'any' and is toggled, and removing the last one brings 'any' back.
   */
  function ToggleCondition(prev: seq<string>, c: string): (r: seq<string>)
    ensures WellFormed(r)
    ensures c == AnyCondition ==> r == [AnyCondition]
    ensures c != AnyCondition ==> (c in r <==> c !in prev)
    ensures c != AnyCondition ==> forall x :: x != c && x != AnyCondition ==> (x in r <==> x in prev)
  {
    if c == AnyCondition then [AnyCondition]
    else
      var others := Filter(prev, Without(AnyCondition));
      assert forall x :: x in others <==> x in prev && x != AnyCondition by {
        forall x | x in others ensures x in prev && x != AnyCondition {
          FilterMember(prev, Without(AnyCondition), x);
        }
      }
      if c in others then
        var rest := Filter(others, Without(c));
        assert forall x :: x in rest <==> x in others && x != c by {
          forall x | x in rest ensures x in others && x != c {
            FilterMember(others, Without(c), x);
          }
        }
        if |rest| == 0 then
          assert forall x :: x in others ==> x == c;
          [AnyCondition]
        else rest
      else others + [c]
  }

  /**
   * The condition selection after clicking each condition of `clicks` in
   * turn; from the default selection it is always well formed.
   */
  function Replay(start: seq<string>, clicks: seq<string>): (r: seq<string>)
    ensures |clicks| > 0 || WellFormed(start) ==> WellFormed(r)
    ensures |clicks| == 0 ==> r == start
  {
    if |clicks| == 0 then start
    else ToggleCondition(Replay(start, clicks[..|clicks| - 1]), clicks[|clicks| - 1])
  }

  /**
   * The minimum price rule: a falsy value (empty, which reads as NaN, or 0)
   * or a non-negative one. `None` stands for NaN.
   */
  predicate MinPriceValid(minPrice: Option<real>) {
    !TruthyReal(minPrice) || minPrice.value >= 0.0
  }

  /** The maximum price rule: a falsy maximum or minimum, or a maximum above the minimum. */
  predicate MaxPriceValid(maxPrice: Option<real>, minPrice: Option<real>) {
    !TruthyReal(maxPrice) || !TruthyReal(minPrice) || maxPrice.value > minPrice.value
  }

  /** Bounds that pass both rules admit some price under the scorer's price-range test. */
  lemma ValidBoundsAdmitAPrice(minPrice: Option<real>, maxPrice: Option<real>)
    requires MinPriceValid(minPrice) && MaxPriceValid(maxPrice, minPrice)
    ensures exists price :: Scorer.IsPriceInRange(price, NoFilters.(minPrice := minPrice, maxPrice := maxPrice))
  {
    var f := NoFilters.(minPrice := minPrice, maxPrice := maxPrice);
    var price := if TruthyReal(maxPrice) then maxPrice.value else if TruthyReal(minPrice) then minPrice.value else 0.0;
    assert Scorer.IsPriceInRange(price, f);
  }

  datatype FormData = FormData(
    name: string,
    keywords: string,
    minPrice: Option<real>,
    maxPrice: Option<real>,
    condition: seq<string>,
    location: string,
    marketplaces: seq<string>,
    notificationTypes: seq<string>)

  /** The submit button is enabled only with a marketplace and a notification type selected. */
  predicate CanSubmit(marketplaces: seq<string>, notificationTypes: seq<string>) {
    |marketplaces| > 0 && |notificationTypes| > 0
  }

  /**
   * The field rules react-hook-form checks before it calls the submit
   * handler: a non-empty name and keywords (`required`) and both price rules.
   */
  predicate FieldsValid(data: FormData) {
    data.name != "" && data.keywords != "" && MinPriceValid(data.minPrice) && MaxPriceValid(data.maxPrice, data.minPrice)
  }

  /**
   * `handleSubmit(handleFormSubmit)`: the handler runs only when the submit
   * button is enabled and every field rule passes; the submitted data then
   * carries the three toggled lists.
   */
  function Submitted(data: FormData, marketplaces: seq<string>, notificationTypes: seq<string>, conditions: seq<string>): (r: Option<FormData>)
    ensures r.Some? <==> CanSubmit(marketplaces, notificationTypes) && FieldsValid(data)
    ensures r.Some? ==> r.value.marketplaces == marketplaces && r.value.notificationTypes == notificationTypes && r.value.condition == conditions
    ensures r.Some? ==> r.value.(marketplaces := data.marketplaces, notificationTypes := data.notificationTypes, condition := data.condition) == data
  {
    if CanSubmit(marketplaces, notificationTypes) && FieldsValid(data) then
      Some(data.(marketplaces := marketplaces, notificationTypes := notificationTypes, condition := conditions))
    else None
  }

  /** A submitted search names itself, has keywords, and its price bounds admit some price. */
  lemma SubmittedAdmitsAPrice(data: FormData, marketplaces: seq<string>, notificationTypes: seq<string>, conditions: seq<string>)
    requires Submitted(data, marketplaces, notificationTypes, conditions).Some?
    ensures var sent := Submitted(data, marketplaces, notificationTypes, conditions).value;
      sent.name != "" && sent.keywords != "" && |sent.marketplaces| > 0 &&
      exists price :: Scorer.IsPriceInRange(price, NoFilters.(minPrice := sent.minPrice, maxPrice := sent.maxPrice))
  {
    ValidBoundsAdmitAPrice(data.minPrice, data.maxPrice);
  }

  /** The initial selections: the given lists, or the defaults when none (or a falsy value) is given. */
  function InitialSelections(marketplaces: Option<seq<string>>, notificationTypes: Option<seq<string>>, conditions: Option<seq<string>>)
    : (r: (seq<string>, seq<string>, seq<string>))
    ensures marketplaces.None? ==> r.0 == DefaultMarketplaces
    ensures notificationTypes.None? ==> r.1 == DefaultNotificationTypes
    ensures conditions.None? ==> r.2 == DefaultConditions && WellFormed(r.2)
    ensures marketplaces.None? && notificationTypes.None? ==> CanSubmit(r.0, r.1)
  {
    (marketplaces.GetOr(DefaultMarketplaces), notificationTypes.GetOr(DefaultNotificationTypes), conditions.GetOr(DefaultConditions))
  }
}
