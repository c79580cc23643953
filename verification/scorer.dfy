/**
 * Relevance scoring of one listing against a saved search's criteria: the
 * language model's free-text answer is mined for a JSON object whose fields
 * are defaulted and clamped, and whenever the remote call or the parse fails
 * a deterministic keyword/price score is used instead.
 *
 * The HTTP call is a `RemoteReply` handed in, and `JSON.parse` is the
 * parameter `parse`, which yields the answer's fields or `None` when it throws.
 */
module Scorer {
  import opened Wrappers
  import opened Text
  import opened Seqs
  import opened Types
  import Batching

  datatype Listing = Listing(title: string, description: Option<string>, price: real)

  datatype Criteria = Criteria(keywords: seq<string>, filters: Filters, minRelevanceScore: real)

  datatype PriceAnalysis = PriceAnalysis(fairPrice: bool, priceRating: string, marketComparison: Option<string>)

  datatype Analysis = Analysis(
    relevanceScore: real,
    reasoning: string,
    confidence: real,
    keyMatches: seq<string>,
    redFlags: seq<string>,
    priceAnalysis: PriceAnalysis)

  /**
   * The fields of a parsed answer. `None` is a field that is absent or of
   * another JSON type (an array field that is not an array, say).
   */
  datatype RawPriceAnalysis = RawPriceAnalysis(
    fairPrice: Option<bool>,
    priceRating: Option<string>,
    marketComparison: Option<string>)

  datatype RawAnswer = RawAnswer(
    relevanceScore: Option<real>,
    reasoning: Option<string>,
    confidence: Option<real>,
    keyMatches: Option<seq<string>>,
    redFlags: Option<seq<string>>,
    priceAnalysis: Option<RawPriceAnalysis>)

  /** What the HTTP call produced: no response at all, or a status and the text of the first content block, if any. */
  datatype RemoteReply = Unreachable | Reply(status: int, text: Option<string>)

  const InvalidFormat := "Invalid AI response format"

  /** `s.indexOf(c)`. */
  function IndexOf(s: string, c: char): (r: Option<nat>)
    ensures r.Some? ==> r.value < |s| && s[r.value] == c && forall k :: 0 <= k < r.value ==> s[k] != c
    ensures r.None? ==> forall k :: 0 <= k < |s| ==> s[k] != c
  {
    if |s| == 0 then None
    else if s[0] == c then Some(0)
    else match IndexOf(s[1..], c)
      case None => None
      case Some(i) => Some(i + 1)
  }

  /** `s.lastIndexOf(c)`. */
  function LastIndexOf(s: string, c: char): (r: Option<nat>)
    ensures r.Some? ==> r.value < |s| && s[r.value] == c && forall k :: r.value < k < |s| ==> s[k] != c
    ensures r.None? ==> forall k :: 0 <= k < |s| ==> s[k] != c
  {
    if |s| == 0 then None
    else if s[|s| - 1] == c then Some(|s| - 1)
    else LastIndexOf(s[..|s| - 1], c)
  }

  /**
   * The match of `/\{[\s\S]*\}/`: greedy, so it runs from the first '{' to
   * the last '}', and there is no match when no '}' follows the first '{'.
   */
  function ExtractJson(s: string): (r: Option<string>)
    ensures r.Some? ==> exists i, j ::
      0 <= i < j < |s| && r.value == s[i..j + 1] && s[i] == '{' && s[j] == '}'
      && (forall k :: 0 <= k < i ==> s[k] != '{') && (forall k :: j < k < |s| ==> s[k] != '}')
  {
    match (IndexOf(s, '{'), LastIndexOf(s, '}'))
    case (Some(i), Some(j)) =>
      if i < j then Some(s[i..j + 1]) else None
    case _ => None
  }

  /** A candidate is found exactly when some '{' precedes some '}'. */
  lemma ExtractJsonFound(s: string)
    ensures ExtractJson(s).Some? <==> exists i, j :: 0 <= i < j < |s| && s[i] == '{' && s[j] == '}'
  {
    if ExtractJson(s).None? {
      forall i, j | 0 <= i < j < |s| && s[i] == '{' ensures s[j] != '}' {
        assert IndexOf(s, '{').Some?;
      }
    }
  }

  /** `Math.max(lo, Math.min(hi, x))`. */
  function Clamp(lo: real, hi: real, x: real): (r: real)
    requires lo <= hi
    ensures lo <= r <= hi
    ensures lo <= x <= hi ==> r == x
    ensures x < lo ==> r == lo
    ensures x > hi ==> r == hi
  {
    if x < lo then lo else if x > hi then hi else x
  }

  /** `value || fallback` for a number: absent and 0 both fall back. */
  function OrReal(x: Option<real>, fallback: real): (r: real)
    ensures TruthyReal(x) ==> r == x.value
    ensures !TruthyReal(x) ==> r == fallback
  {
    if TruthyReal(x) then x.value else fallback
  }

  /** `value || fallback` for a string: absent and '' both fall back. */
  function OrString(x: Option<string>, fallback: string): (r: string)
    ensures TruthyString(x) ==> r == x.value
    ensures !TruthyString(x) ==> r == fallback
  {
    if TruthyString(x) then x.value else fallback
  }

  /** The defaulting and clamping applied to a parsed answer; the score is not rounded. */
  function FromRaw(raw: RawAnswer): (r: Analysis)
    ensures 1.0 <= r.relevanceScore <= 10.0
    ensures 0.0 <= r.confidence <= 1.0
    ensures !TruthyReal(raw.relevanceScore) ==> r.relevanceScore == 5.0
    ensures TruthyReal(raw.relevanceScore) && 1.0 <= raw.relevanceScore.value <= 10.0 ==> r.relevanceScore == raw.relevanceScore.value
    ensures TruthyReal(raw.relevanceScore) && raw.relevanceScore.value > 10.0 ==> r.relevanceScore == 10.0
    ensures TruthyReal(raw.relevanceScore) && raw.relevanceScore.value < 1.0 ==> r.relevanceScore == 1.0
    ensures !TruthyReal(raw.confidence) ==> r.confidence == 0.5
    ensures TruthyReal(raw.confidence) && 0.0 <= raw.confidence.value <= 1.0 ==> r.confidence == raw.confidence.value
    ensures TruthyReal(raw.confidence) && raw.confidence.value > 1.0 ==> r.confidence == 1.0
    ensures TruthyReal(raw.confidence) && raw.confidence.value < 0.0 ==> r.confidence == 0.0
    ensures TruthyString(raw.reasoning) ==> r.reasoning == raw.reasoning.value
    ensures !TruthyString(raw.reasoning) ==> r.reasoning == "Analysis completed"
    ensures raw.keyMatches.Some? ==> r.keyMatches == raw.keyMatches.value
    ensures raw.keyMatches.None? ==> r.keyMatches == []
    ensures raw.redFlags.Some? ==> r.redFlags == raw.redFlags.value
    ensures raw.redFlags.None? ==> r.redFlags == []
    ensures !r.priceAnalysis.fairPrice <==> raw.priceAnalysis.Some? && raw.priceAnalysis.value.fairPrice == Some(false)
    ensures raw.priceAnalysis.Some? && TruthyString(raw.priceAnalysis.value.priceRating) ==>
      r.priceAnalysis.priceRating == raw.priceAnalysis.value.priceRating.value
    ensures raw.priceAnalysis.Some? && !TruthyString(raw.priceAnalysis.value.priceRating) ==> r.priceAnalysis.priceRating == "fair"
    ensures raw.priceAnalysis.Some? ==> r.priceAnalysis.marketComparison == raw.priceAnalysis.value.marketComparison
    ensures raw.priceAnalysis.None? ==> r.priceAnalysis == PriceAnalysis(true, "fair", None)
  {
    var pa := raw.priceAnalysis;
    Analysis(
      Clamp(1.0, 10.0, OrReal(raw.relevanceScore, 5.0)),
      OrString(raw.reasoning, "Analysis completed"),
      Clamp(0.0, 1.0, OrReal(raw.confidence, 0.5)),
      raw.keyMatches.GetOr([]),
      raw.redFlags.GetOr([]),
      PriceAnalysis(
        !(pa.Some? && pa.value.fairPrice == Some(false)),
        OrString(if pa.Some? then pa.value.priceRating else None, "fair"),
        if pa.Some? then pa.value.marketComparison else None))
  }

  /** `parseAIResponse`: fails with 'Invalid AI response format' when no candidate is found or it does not parse. */
  function ParseAIResponse(response: string, parse: string -> Option<RawAnswer>): (r: Result<Analysis>)
    ensures r.Success? <==> ExtractJson(response).Some? && parse(ExtractJson(response).value).Some?
    ensures r.Failure? ==> r.error == InvalidFormat
    ensures r.Success? ==> r.value == FromRaw(parse(ExtractJson(response).value).value)
  {
    match ExtractJson(response)
    case None => Failure(InvalidFormat)
    case Some(candidate) =>
      match parse(candidate)
      case None => Failure(InvalidFormat)
      case Some(raw) => Success(FromRaw(raw))
  }

  /** `${title} ${description || ''}`, lower-cased. */
  function ListingText(l: Listing): string {
    Lower(l.title + " " + l.description.GetOr(""))
  }

  predicate KeywordMatches(l: Listing, keyword: string) {
    Contains(ListingText(l), Lower(keyword))
  }

  /** `findKeywordMatches`: the keywords found in the listing's text, in their original order. */
  function FindKeywordMatches(l: Listing, keywords: seq<string>): (r: seq<string>)
    ensures |r| <= |keywords|
    ensures forall k :: 0 <= k < |keywords| ==> (keywords[k] in r <==> KeywordMatches(l, keywords[k]))
    ensures forall i :: 0 <= i < |r| ==> r[i] in keywords
  {
    Filter(keywords, (kw: string) => KeywordMatches(l, kw))
  }

  /** `countKeywordMatches`: how many keywords are found in the listing's text. */
  function CountKeywordMatches(l: Listing, keywords: seq<string>): (r: nat)
    ensures r <= |keywords|
  {
    if |keywords| == 0 then 0
    else (if KeywordMatches(l, keywords[0]) then 1 else 0) + CountKeywordMatches(l, keywords[1..])
  }

  /** The count is the length of the list of matches. */
  lemma {:induction false} CountIsNumberOfMatches(l: Listing, keywords: seq<string>)
    ensures CountKeywordMatches(l, keywords) == |FindKeywordMatches(l, keywords)|
  {
    if |keywords| > 0 {
      CountIsNumberOfMatches(l, keywords[1..]);
    }
  }

  /** `isPriceInRange`: a bound that is absent or 0 is ignored. */
  predicate IsPriceInRange(price: real, f: Filters) {
    !(TruthyReal(f.minPrice) && price < f.minPrice.value)
    && !(TruthyReal(f.maxPrice) && price > f.maxPrice.value)
  }

  /** With two non-zero bounds the test is the closed interval between them. */
  lemma PriceInRangeInterval(price: real, f: Filters)
    requires f.minPrice.Some? && f.minPrice.value != 0.0
    requires f.maxPrice.Some? && f.maxPrice.value != 0.0
    ensures IsPriceInRange(price, f) <==> f.minPrice.value <= price <= f.maxPrice.value
  {
  }

  /** A bound of 0 behaves exactly like a missing bound. */
  lemma ZeroBoundIgnored(price: real, f: Filters)
    ensures IsPriceInRange(price, f.(minPrice := Some(0.0))) == IsPriceInRange(price, f.(minPrice := None))
    ensures IsPriceInRange(price, f.(maxPrice := Some(0.0))) == IsPriceInRange(price, f.(maxPrice := None))
  {
  }

  /** The fallback score: two points per matched keyword up to six, two more for a price in range, then clamped to [1, 10]. */
  function FallbackScore(matches: nat, inRange: bool): (r: int)
    ensures 1 <= r <= 8
    ensures r == 1 <==> matches == 0 && !inRange
    ensures inRange ==> r >= 2
    ensures r >= 2 * (if matches < 3 then matches else 3)
  {
    var base := if 2 * matches < 6 then 2 * matches else 6;
    var score := base + (if inRange then 2 else 0);
    if score < 1 then 1 else if score > 10 then 10 else score
  }

  /** `getFallbackAnalysis`. */
  function FallbackAnalysis(l: Listing, c: Criteria): (r: Analysis)
    ensures 1.0 <= r.relevanceScore <= 8.0
    ensures r.confidence == 0.3
    ensures r.redFlags == []
    ensures r.keyMatches == FindKeywordMatches(l, c.keywords)
    ensures r.relevanceScore == 1.0 <==> |r.keyMatches| == 0 && !IsPriceInRange(l.price, c.filters)
    ensures r.priceAnalysis == PriceAnalysis(true, "fair", Some("Unable to analyze pricing"))
  {
    var matches := CountKeywordMatches(l, c.keywords);
    var inRange := IsPriceInRange(l.price, c.filters);
    CountIsNumberOfMatches(l, c.keywords);
    Analysis(
      FallbackScore(matches, inRange) as real,
      "Fallback analysis: " + NatToString(matches) + " keyword matches, price "
        + (if inRange then "in" else "out of") + " range",
      0.3,
      FindKeywordMatches(l, c.keywords),
      [],
      PriceAnalysis(true, "fair", Some("Unable to analyze pricing")))
  }

  predicate IsOk(reply: RemoteReply) {
    reply.Reply? && 200 <= reply.status <= 299
  }

  /**
   * `analyzeListing`: never fails. A missing or non-2xx response, a missing
   * content text or an answer that does not parse all yield the fallback.
   */
  function AnalyzeListing(l: Listing, c: Criteria, reply: RemoteReply, parse: string -> Option<RawAnswer>): (r: Analysis)
    ensures 1.0 <= r.relevanceScore <= 10.0 && 0.0 <= r.confidence <= 1.0
    ensures !IsOk(reply) || reply.text.None? ==> r == FallbackAnalysis(l, c)
    ensures IsOk(reply) && reply.text.Some? ==>
      var parsed := ParseAIResponse(reply.text.value, parse);
      r == if parsed.Success? then parsed.value else FallbackAnalysis(l, c)
  {
    if IsOk(reply) && reply.text.Some? then
      match ParseAIResponse(reply.text.value, parse)
      case Success(a) => a
      case Failure(_) => FallbackAnalysis(l, c)
    else FallbackAnalysis(l, c)
  }

  /**
   * `analyzeListings`: one analysis per listing, in order, computed five at
   * a time with a pause between consecutive groups only. `replies[k]` is
   * what the remote call for `listings[k]` produced.
   */
  method AnalyzeListings(listings: seq<Listing>, c: Criteria, replies: seq<RemoteReply>, parse: string -> Option<RawAnswer>)
    returns (r: seq<Analysis>, pauses: nat)
    requires |replies| == |listings|
    ensures |r| == |listings|
    ensures forall k :: 0 <= k < |r| ==> r[k] == AnalyzeListing(listings[k], c, replies[k], parse)
    ensures forall k :: 0 <= k < |r| ==> 1.0 <= r[k].relevanceScore <= 10.0
    ensures pauses == Batching.PauseCount(|listings|, 5)
    ensures |listings| > 0 ==> pauses * 5 < |listings| <= (pauses + 1) * 5
  {
    var calls := seq(|listings|, k requires 0 <= k < |listings| => (listings[k], replies[k]));
    r, pauses := Batching.MapInBatches(calls, 5, (call: (Listing, RemoteReply)) => AnalyzeListing(call.0, c, call.1, parse));
    Batching.PauseCountBounds(|listings|, 5);
  }
}
