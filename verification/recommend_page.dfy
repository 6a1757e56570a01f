/**
  The standalone recommendation page: a query box, the results of the last
  successful search, and a loading flag around each request.
 */
module RecommendPage {
  import opened Wrappers
  import opened Strings
  import opened RecommendApi

  datatype Page = Page(query: string, results: seq<Product>, loading: bool)

  const Initial := Page("", [], false)

  const PageUserId := "123"
  const PageTopK := 10

  /** The state right after `handleSearch` starts, and the request it sends, if any. */
  datatype Started = Started(page: Page, request: Option<Payload>)

  /** Typing in the box. */
  function Edit(p: Page, query: string): (r: Page)
    ensures r.query == query && r.results == p.results && r.loading == p.loading
  {
    p.(query := query)
  }

  /**
    `handleSearch` up to the awaited request: a query of white space only
    sends nothing and changes nothing; any other query sets `loading` and
    sends the query verbatim with user "123" and top 10.
   */
  function Search(p: Page): (r: Started)
    ensures r.request.None? <==> AllJsSpace(p.query)
    ensures r.request.None? ==> r.page == p
    ensures r.request.Some? ==>
              && r.page == p.(loading := true)
              && r.request.value == Payload(Some(PageUserId), p.query, Some(PageTopK))
  {
    if Trim(p.query) == "" then Started(p, None)
    else Started(p.(loading := true), Some(Payload(Some(PageUserId), p.query, Some(PageTopK))))
  }

  /**
    The rest of `handleSearch`: an answer replaces the results wholesale, a
    failure keeps the previous ones, and `loading` is cleared either way.
   */
  function Finish(p: Page, reply: Reply): (r: Page)
    ensures !r.loading && r.query == p.query
    ensures reply.Answered? ==> r.results == reply.results
    ensures reply.Failed? ==> r.results == p.results
  {
    match reply
    case Answered(results) => p.(results := results, loading := false)
    case Failed => p.(loading := false)
  }

  /** A search that fails leaves the page as it was before, apart from `loading` being false. */
  lemma FailedSearchRestores(p: Page)
    requires !AllJsSpace(p.query)
    ensures Finish(Search(p).page, Failed) == p.(loading := false)
  {
  }

  /** A search that succeeds leaves the query, the new results and `loading` false. */
  lemma AnsweredSearchShowsResults(p: Page, results: seq<Product>)
    requires !AllJsSpace(p.query)
    ensures Finish(Search(p).page, Answered(results)) == Page(p.query, results, false)
  {
  }

  /** `loading` is on exactly while a request the search sent is outstanding. */
  lemma LoadingWhileInFlight(p: Page, reply: Reply)
    requires !p.loading
    ensures Search(p).page.loading <==> Search(p).request.Some?
    ensures Search(p).request.Some? ==> !Finish(Search(p).page, reply).loading
  {
  }
}
