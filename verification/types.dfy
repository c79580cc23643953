/**
 * The records shared by the search pipeline: the query a user saves, the
 * normalised listing every marketplace adapter produces, and the filters of
 * a saved search. Dates are milliseconds since the epoch; prices are the
 * JavaScript numbers the adapters produce.
 */
module Types {
  import opened Wrappers

  datatype Seller = Seller(id: string, name: string, rating: Option<real>)

  /** A listing in the common format every marketplace adapter returns. */
  datatype SearchResult = SearchResult(
    id: string,
    title: string,
    price: real,
    image: string,
    url: string,
    source: string,
    postedAt: int,
    condition: Option<string>,
    location: Option<string>,
    seller: Option<Seller>)

  /** What a marketplace is asked for; absent optional fields are `None`. */
  datatype Query = Query(
    keywords: string,
    minPrice: Option<real>,
    maxPrice: Option<real>,
    marketplaces: Option<seq<string>>,
    sortBy: Option<string>,
    itemCondition: Option<seq<string>>,
    location: Option<string>)

  /** The `filters` object of a saved search. */
  datatype Filters = Filters(
    minPrice: Option<real>,
    maxPrice: Option<real>,
    location: Option<string>,
    condition: Option<string>,
    radius: Option<real>)

  const NoFilters := Filters(None, None, None, None, None)

  /** A query asking only for keywords. */
  function KeywordQuery(keywords: string): Query {
    Query(keywords, None, None, None, None, None, None)
  }
}
