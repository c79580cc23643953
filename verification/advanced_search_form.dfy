/**
 * The advanced search form: its validation schema, its default values, and
 * the values its marketplace and condition checkboxes put into the query.
 *
 * The lemmas about particular captions take the captions as parameters
 * fixed by `requires` rather than as literals in their `ensures`: with
 * literal arguments the verifier unfolds the recursive lower-casing on them
 * wherever the literals appear, which costs far more than the statements
 * need.
 */
module AdvancedSearchForm {
  import opened Wrappers
  import opened Seqs
  import opened Text
  import Depop
  import SearchesRoute

  const SortOrders: set<string> := {"newest", "price_low", "price_high", "relevance"}

  /** The form's values; `None` is a field left undefined. */
  datatype FormValues = FormValues(
    keywords: string,
    minPrice: Option<real>,
    maxPrice: Option<real>,
    marketplaces: seq<string>,
    sortBy: string,
    itemCondition: Option<seq<string>>,
    location: Option<string>,
    distance: Option<real>,
    saveSearch: Option<bool>,
    searchName: Option<string>,
    notifyWhenFound: Option<bool>)

  /** `searchSchema`: keywords and at least one marketplace required, and a known sort order. */
  predicate Valid(v: FormValues) {
    |v.keywords| >= 1 && |v.marketplaces| >= 1 && v.sortBy in SortOrders
  }

  /** `searchSchema.parse`: the two switches default to off. */
  function Parse(v: FormValues): (r: Result<FormValues>)
    ensures r.Success? <==> Valid(v)
    ensures r.Success? ==> r.value.saveSearch.Some? && r.value.notifyWhenFound.Some?
    ensures r.Success? && v.saveSearch.None? ==> !r.value.saveSearch.value
    ensures r.Success? && v.notifyWhenFound.None? ==> !r.value.notifyWhenFound.value
    ensures r.Success? ==> r.value.(saveSearch := v.saveSearch, notifyWhenFound := v.notifyWhenFound) == v
  {
    if !Valid(v) then Failure("Invalid search")
    else Success(v.(saveSearch := Some(v.saveSearch.GetOr(false)), notifyWhenFound := Some(v.notifyWhenFound.GetOr(false))))
  }

  /** No ordering between the two prices is required. */
  lemma InvertedPricesAccepted(v: FormValues)
    requires Valid(v)
    ensures Parse(v.(minPrice := Some(500.0), maxPrice := Some(10.0))).Success?
  {
  }

  /** The fields `initialValues` may set; each one given replaces its default. */
  datatype InitialValues = InitialValues(
    keywords: Option<string>,
    minPrice: Option<real>,
    maxPrice: Option<real>,
    marketplaces: Option<seq<string>>,
    sortBy: Option<string>)

  const NoInitialValues := InitialValues(None, None, None, None, None)

  /** `{ ...defaults, ...initialValues }`. */
  function Defaults(init: InitialValues): (r: FormValues)
    ensures r.keywords == init.keywords.GetOr("")
    ensures r.minPrice == Some(init.minPrice.GetOr(0.0)) && r.maxPrice == Some(init.maxPrice.GetOr(1000.0))
    ensures r.marketplaces == init.marketplaces.GetOr(["depop", "ebay", "vinted"])
    ensures r.sortBy == init.sortBy.GetOr("newest")
    ensures r.saveSearch == Some(false) && r.notifyWhenFound == Some(false)
  {
    FormValues(
      init.keywords.GetOr(""),
      Some(init.minPrice.GetOr(0.0)),
      Some(init.maxPrice.GetOr(1000.0)),
      init.marketplaces.GetOr(["depop", "ebay", "vinted"]),
      init.sortBy.GetOr("newest"),
      Some([]),
      Some(""),
      Some(50.0),
      Some(false),
      Some(""),
      Some(false))
  }

  /** The bare defaults fail only for want of keywords. */
  lemma DefaultsNeedKeywords(k: string)
    requires |k| > 0
    ensures !Valid(Defaults(NoInitialValues))
    ensures Valid(Defaults(NoInitialValues.(keywords := Some(k))))
  {
  }

  /** A marketplace checkbox's value: the caption lower-cased, with the first " marketplace" removed. */
  function MarketplaceValue(caption: string): (r: string)
    ensures !Contains(Lower(caption), " marketplace") ==> r == Lower(caption)
  {
    ReplaceFirstAbsent(Lower(caption), " marketplace", "");
    ReplaceFirst(Lower(caption), " marketplace", "")
  }

  /**
   * The five marketplace checkboxes put the five marketplace names the
   * saved-search schema accepts: 'Facebook Marketplace' gives 'facebook'
   * and 'eBay' gives 'ebay'.
   */
  lemma MarketplaceValuesKnown(depop: string, ebay: string, vinted: string, facebook: string, craigslist: string)
    requires depop == "Depop" && ebay == "eBay" && vinted == "Vinted"
    requires facebook == "Facebook Marketplace" && craigslist == "Craigslist"
    ensures MarketplaceValue(depop) == "depop" && MarketplaceValue(ebay) == "ebay" && MarketplaceValue(vinted) == "vinted"
    ensures MarketplaceValue(facebook) == "facebook" && MarketplaceValue(craigslist) == "craigslist"
    ensures {MarketplaceValue(depop), MarketplaceValue(ebay), MarketplaceValue(vinted), MarketplaceValue(facebook), MarketplaceValue(craigslist)}
      == SearchesRoute.MarketplaceNames
  {
    ShortValue(depop, "depop");
    ShortValue(ebay, "ebay");
    ShortValue(vinted, "vinted");
    FacebookValue(facebook);
    CraigslistValue(craigslist);
  }

  lemma FacebookValue(caption: string)
    requires caption == "Facebook Marketplace"
    ensures MarketplaceValue(caption) == "facebook"
  {
    var word, front := "Facebook", "facebook";
    assert caption == word + " Marketplace";
    LowerOf(word, front);
    SpaceFree(front);
    SuffixedValue(word, front);
  }

  lemma SpaceFree(front: string)
    requires front == "facebook"
    ensures forall j :: 0 <= j < |front| ==> front[j] != ' '
  {
  }

  /** A caption made of a word and " Marketplace" gives the lower-cased word, when it has no space. */
  lemma SuffixedValue(word: string, front: string)
    requires Lower(word) == front && forall j :: 0 <= j < |front| ==> front[j] != ' '
    ensures MarketplaceValue(word + " Marketplace") == front
  {
    var suffix, pat := " Marketplace", " marketplace";
    var lowered := Lower(word + suffix);
    assert lowered == front + pat + "" by {
      LowerConcat(word, suffix);
      SuffixLower(suffix, pat);
    }
    assert ReplaceFirst(lowered, pat, "") == front by {
      ReplaceAfter(front, pat, "", "");
      assert front + "" + "" == front;
    }
  }

  lemma SuffixLower(suffix: string, pat: string)
    requires suffix == " Marketplace" && pat == " marketplace"
    ensures Lower(suffix) == pat
  {
    LowerOf(suffix, pat);
  }

  lemma LowerConcat(a: string, b: string)
    ensures Lower(a + b) == Lower(a) + Lower(b)
  {
    assert forall i :: 0 <= i < |a + b| ==> Lower(a + b)[i] == (Lower(a) + Lower(b))[i];
  }

  lemma CraigslistValue(caption: string)
    requires caption == "Craigslist"
    ensures MarketplaceValue(caption) == "craigslist"
  {
    ShortValue(caption, "craigslist");
  }

  /** A caption shorter than " marketplace" is only lower-cased. */
  lemma ShortValue(caption: string, v: string)
    requires |caption| == |v| < |" marketplace"|
    requires forall i :: 0 <= i < |caption| ==> LowerChar(caption[i]) == v[i]
    ensures MarketplaceValue(caption) == v
  {
    LowerOf(caption, v);
    NoMarketplace(v);
  }

  /** Evaluates `Lower` on a literal. */
  lemma LowerOf(s: string, t: string)
    requires |s| == |t| && forall i :: 0 <= i < |s| ==> LowerChar(s[i]) == t[i]
    ensures Lower(s) == t
  {
  }

  /** A word shorter than the pattern does not contain it. */
  lemma NoMarketplace(s: string)
    requires |s| < |" marketplace"|
    ensures !Contains(s, " marketplace")
  {
    ContainsIffOccurs(s, " marketplace");
  }

  /** Replacing the first occurrence of a pattern that follows a stretch free of its first letter. */
  lemma ReplaceAfter(front: string, pat: string, back: string, rep: string)
    requires |pat| > 0 && forall j :: 0 <= j < |front| ==> front[j] != pat[0]
    ensures ReplaceFirst(front + pat + back, pat, rep) == front + rep + back
  {
    var s := front + pat + back;
    var k := |front|;
    assert OccursAt(s, pat, k) by {
      assert s[k..k + |pat|] == pat;
    }
    forall j | 0 <= j < k ensures !OccursAt(s, pat, j) {
      assert s[j] == front[j];
      assert j + |pat| <= |s| ==> s[j..j + |pat|][0] == s[j];
    }
    IndexOfFinds(s, pat, 0, k);
    assert s[..k] == front;
    assert s[k + |pat|..] == back;
  }



  /** A condition checkbox's value as written: the caption lower-cased. */
  function ConditionValueAsWritten(caption: string): (r: string)
    ensures |r| == |caption|
  {
    Lower(caption)
  }

  /** 'Like New' becomes 'like new', which neither the schema nor Depop's table knows. */
  lemma LikeNewNotMapped(caption: string)
    requires caption == "Like New"
    ensures ConditionValueAsWritten(caption) == "like new"
    ensures ConditionValueAsWritten(caption) !in SearchesRoute.ConditionNames
    ensures Depop.MapCondition(ConditionValueAsWritten(caption)) == "like new"
  {
    LowerOf(caption, "like new");
  }

  /** `c` with spaces turned into underscores. */
  function Underscored(s: string): (r: string)
    ensures |r| == |s|
    ensures forall i :: 0 <= i < |s| ==> r[i] == if s[i] == ' ' then '_' else s[i]
  {
    if |s| == 0 then "" else [if s[0] == ' ' then '_' else s[0]] + Underscored(s[1..])
  }

  /** A condition checkbox's value: the caption lower-cased, spaces as underscores. */
  function ConditionValue(caption: string): (r: string)
    ensures |r| == |caption|
  {
    Underscored(Lower(caption))
  }

  lemma ConditionValueOf(caption: string, v: string)
    requires |caption| == |v|
    requires forall i :: 0 <= i < |caption| ==> (if LowerChar(caption[i]) == ' ' then '_' else LowerChar(caption[i])) == v[i]
    ensures ConditionValue(caption) == v
  {
  }

  lemma LikeNewValue(caption: string)
    requires caption == "Like New"
    ensures ConditionValue(caption) == "like_new"
  {
    ConditionValueOf(caption, "like_new");
  }

  /** Every condition checkbox now puts a condition the schema and Depop's table both know. */
  lemma ConditionValuesKnown(isNew: string, likeNew: string, good: string, fair: string, poor: string)
    requires isNew == "New" && likeNew == "Like New" && good == "Good" && fair == "Fair" && poor == "Poor"
    ensures ConditionValue(isNew) == "new" && ConditionValue(likeNew) == "like_new" && ConditionValue(good) == "good"
    ensures ConditionValue(fair) == "fair" && ConditionValue(poor) == "poor"
    ensures {ConditionValue(isNew), ConditionValue(likeNew), ConditionValue(good), ConditionValue(fair), ConditionValue(poor)}
      == SearchesRoute.ConditionNames
    ensures Depop.MapCondition(ConditionValue(likeNew)) == "new_no_tags"
  {
    ConditionValueOf(isNew, "new");
    LikeNewValue(likeNew);
    ConditionValueOf(good, "good");
    ConditionValueOf(fair, "fair");
    ConditionValueOf(poor, "poor");
  }

  /** A checkbox change: checking appends the value, unchecking removes every copy. */
  function SetChecked(values: seq<string>, value: string, checked: bool): (r: seq<string>)
    ensures value in r <==> checked
    ensures forall x :: x != value ==> (x in r <==> x in values)
  {
    if checked then values + [value]
    else
      var r := Filter(values, (x: string) => x != value);
      assert forall x :: x in r ==> x != value && x in values by {
        forall x | x in r ensures x != value && x in values {
          FilterMember(values, (x: string) => x != value, x);
        }
      }
      r
  }
}
