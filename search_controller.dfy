/**
 * `searchController`: validate the page, ask the upstream for repositories
 * sorted by stars, score them and return them best first, unscaled.
 */
module SearchRoute {
  import opened Wrappers
  import opened JsBuiltins
  import opened Models
  import opened ApiErrors
  import opened Scoring
  import opened SearchValidation
  import opened GithubService
  import opened Sorting
  import opened Pipeline
  import opened ErrorHandling

  /** The upstream request of a search with a valid page: sorted by stars, descending. */
  function SearchRequest(query: Query, pageNum: Option<int>): GithubRequest
  {
    RequestFor(query.language, query.created, pageNum, Some(Stars), Some(Desc))
  }

  /** The upstream requests a search sends: none for an invalid page, otherwise exactly one. */
  function SearchRequests(query: Query): (r: seq<GithubRequest>)
    ensures ValidatePageNumberFormat(query.page).Failure? ==> r == []
    ensures ValidatePageNumberFormat(query.page).Success? ==>
      r == [SearchRequest(query, ValidatePageNumberFormat(query.page).value)]
  {
    match ValidatePageNumberFormat(query.page)
    case Failure(_) => []
    case Success(pageNum) => [SearchRequest(query, pageNum)]
  }

  /** The `data` of a successful search: scored items, highest score first. */
  function SearchData(items: seq<GithubRepository>, now: real): seq<Repository>
    requires AllScorable(items, now)
  {
    SortByScoreDesc(ScoreAll(items, now))
  }

  /** What the route passes on, as a function of the query, the clock and the upstream. */
  function SearchOutcome(query: Query, requestId: string, now: real,
                         fetch: GithubRequest -> Result<GithubResponse, string>): Outcome
    requires ScorableAnswers(fetch, SearchRequests(query), now)
  {
    match ValidatePageNumberFormat(query.page)
    case Failure(e) => Next(Classify(Api(e)))
    case Success(pageNum) =>
      match fetch(SearchRequest(query, pageNum))
      case Failure(message) => Next(Classify(Plain(message)))
      case Success(response) =>
        assert SearchRequests(query)[0] == SearchRequest(query, pageNum);
        Respond(SearchResponse(requestId, SearchData(response.items, now)))
  }

  /**
   * `searchController(req, res, next)` with `requestId` and the clock supplied;
   * `sent` lists the upstream requests made, at most one.
   */
  method SearchController(query: Query, requestId: string, now: real,
                          fetch: GithubRequest -> Result<GithubResponse, string>)
    returns (outcome: Outcome, sent: seq<GithubRequest>)
    requires ScorableAnswers(fetch, SearchRequests(query), now)
    ensures outcome == SearchOutcome(query, requestId, now, fetch)
    ensures sent == SearchRequests(query)
  {
    var pageNum := ValidatePageNumberFormat(query.page);
    if pageNum.Failure? {
      return Next(Classify(Api(pageNum.error))), [];
    }
    var searchParams := new SearchParams(query.language, query.created, pageNum.value, Some(Stars), Some(Desc));
    var repositories, request := SearchRepositories(searchParams, fetch);
    sent := [request];
    if repositories.Failure? {
      return Next(Classify(Plain(repositories.error))), sent;
    }
    var items := repositories.value;
    assert sent[0] == SearchRequests(query)[0];
    var scored := ScoreAll(items, now);
    var reposWithScore := new Repository[|scored|](i requires 0 <= i < |scored| => scored[i]);
    assert reposWithScore[..] == scored;
    SortInPlace(reposWithScore);
    outcome := Respond(SearchResponse(requestId, reposWithScore[..]));
  }

  // ---------------------------------------------------------------------------
  // What the route promises
  // ---------------------------------------------------------------------------

  /** A page that does not parse to a positive number is a bad request, and nothing is fetched. */
  lemma BadPageRejected(query: Query, requestId: string, now: real,
                        fetch: GithubRequest -> Result<GithubResponse, string>)
    requires ScorableAnswers(fetch, SearchRequests(query), now)
    requires query.page.Some?
    requires ParseInt(query.page.value).None? || ParseInt(query.page.value).value <= 0
    ensures SearchOutcome(query, requestId, now, fetch) == Next(BadRequestError(Some(INVALID_PAGE_MESSAGE), None))
    ensures ErrorHandler(Api(SearchOutcome(query, requestId, now, fetch).error)).status == 400
  {
  }

  /** The upstream always receives `sort=stars`, `order=desc`, and `language`/`created` as given. */
  lemma SearchRequestFields(query: Query, pageNum: Option<int>)
    ensures SearchRequest(query, pageNum).sort == Some(Stars)
    ensures SearchRequest(query, pageNum).order == Some(Desc)
    ensures SearchRequest(query, pageNum).q == QueryString(query.language, query.created)
    ensures SearchRequest(query, pageNum).page == pageNum
  {
  }

  /**
   * The data of a search: one entry per item, ordered by non-increasing score,
   * holding exactly the scored items, with ties in upstream order.
   */
  lemma SearchDataProperties(items: seq<GithubRepository>, now: real)
    requires AllScorable(items, now)
    ensures |SearchData(items, now)| == |items|
    ensures SortedDesc(SearchData(items, now))
    ensures multiset(SearchData(items, now)) == multiset(ScoreAll(items, now))
    ensures forall v :: WithScore(SearchData(items, now), v) == WithScore(ScoreAll(items, now), v)
  {
    SortSorted(ScoreAll(items, now));
    forall v
      ensures WithScore(SearchData(items, now), v) == WithScore(ScoreAll(items, now), v)
    {
      SortStable(ScoreAll(items, now), v);
    }
  }

  /** Every entry is some upstream item's name with that item's raw, unscaled score. */
  lemma SearchDataEntries(items: seq<GithubRepository>, now: real, k: nat)
    requires AllScorable(items, now) && k < |SearchData(items, now)|
    ensures exists i :: 0 <= i < |items| && SearchData(items, now)[k] == Repository(items[i].fullName, CalculateScore(items[i], now))
  {
    var data := SearchData(items, now);
    var scored := ScoreAll(items, now);
    assert data[k] in multiset(data);
    assert data[k] in multiset(scored);
    var i :| 0 <= i < |scored| && scored[i] == data[k];
  }

  /** A failing upstream call becomes an internal server error that carries its message. */
  lemma UpstreamFailureWrapped(query: Query, requestId: string, now: real,
                               fetch: GithubRequest -> Result<GithubResponse, string>)
    requires ScorableAnswers(fetch, SearchRequests(query), now)
    requires ValidatePageNumberFormat(query.page).Success?
    requires fetch(SearchRequest(query, ValidatePageNumberFormat(query.page).value)).Failure?
    ensures var out := SearchOutcome(query, requestId, now, fetch);
      out.Next? && out.error.statusCode == 500 && out.error.message == INTERNAL_ERROR_MESSAGE
      && out.error.details == Some(OriginalError(fetch(SearchRequest(query, ValidatePageNumberFormat(query.page).value)).error))
  {
  }
}
