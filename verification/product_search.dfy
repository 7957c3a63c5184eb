/** The result selection of `/products/search`: reject an empty query, return
    the text-index hits when there are any, otherwise fall back to the first
    `RegexLimit` products the case-insensitive pattern matches. The matching
    itself belongs to the store and is given: `textHits` are the text-index
    hits in relevance order, `regexHits` the pattern's matches in the store's
    natural order, and `patternCompiles` whether the query is a valid pattern. */
module ProductSearch {
  import opened Wrappers
  import opened Sequences
  import opened Products

  /** The fallback query's `limit`. */
  const RegexLimit := 20

  /** Which search produced the results. */
  datatype Method = TextSearch | RegexFallback

  /** The response body: the method (the `method` field), the number of results, and the results. */
  datatype SearchResponse = SearchResponse(searchMethod: Method, count: nat, results: seq<Product>)

  /** Why no response body was produced: the query is missing or empty
      (a 400 response), or it is not a valid pattern, so building the
      fallback's regular expression throws (a 500 response). */
  datatype SearchError = QueryRequired | InvalidPattern

  /** The query is missing or empty, which the handler treats as false. */
  predicate Blank(query: Option<string>) {
    query.None? || query.value == ""
  }

  function Search(query: Option<string>, textHits: seq<Product>, regexHits: seq<Product>, patternCompiles: bool)
    : (r: Result<SearchResponse, SearchError>)
    ensures r == Failure(QueryRequired) <==> Blank(query)
    ensures r.Success? ==> r.value.count == |r.value.results|
    ensures !Blank(query) && |textHits| > 0 ==> r == Success(SearchResponse(TextSearch, |textHits|, textHits))
    ensures r.Success? && r.value.searchMethod == RegexFallback ==>
      && |textHits| == 0
      && |r.value.results| == (if |regexHits| < RegexLimit then |regexHits| else RegexLimit)
      && r.value.results == regexHits[..|r.value.results|]
    ensures r == Failure(InvalidPattern) <==> !Blank(query) && |textHits| == 0 && !patternCompiles
    ensures !Blank(query) && |textHits| == 0 && patternCompiles ==> r.Success? && r.value.searchMethod == RegexFallback
  {
    if Blank(query) then Failure(QueryRequired)
    else if |textHits| > 0 then Success(SearchResponse(TextSearch, |textHits|, textHits))
    else if !patternCompiles then Failure(InvalidPattern)
    else
      var hits := Take(regexHits, RegexLimit);
      Success(SearchResponse(RegexFallback, |hits|, hits))
  }

  /** Which branch answers: a successful search had a non-blank query; it
      returns the text hits unchanged when there are any, and otherwise falls
      back to at most `RegexLimit` products, each a match of the pattern. */
  lemma SearchReturnsStoreHits(query: Option<string>, textHits: seq<Product>, regexHits: seq<Product>, patternCompiles: bool)
    ensures var r := Search(query, textHits, regexHits, patternCompiles);
      r.Success? ==>
        && !Blank(query)
        && (|textHits| > 0 ==> r.value.searchMethod == TextSearch && r.value.results == textHits)
        && (|textHits| == 0 ==>
              && r.value.searchMethod == RegexFallback
              && |r.value.results| <= RegexLimit
              && forall x :: x in r.value.results ==> x in regexHits)
  {
    var r := Search(query, textHits, regexHits, patternCompiles);
    if r.Success? && |textHits| == 0 {
      forall x | x in r.value.results ensures x in regexHits {
        var i :| 0 <= i < |r.value.results| && r.value.results[i] == x;
        assert regexHits[i] == x;
      }
    }
  }
}
