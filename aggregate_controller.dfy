/**
 * `aggregateController`: validate `created`, sanitise `language`, collect
 * pages 1..10 from the upstream, score and sort them, and rescale the scores
 * onto [0, 100].
 */
module AggregateRoute {
  import opened Wrappers
  import opened Models
  import opened ApiErrors
  import opened JsBuiltins
  import opened Scoring
  import opened SearchValidation
  import opened GithubService
  import opened Sorting
  import opened Pipeline
  import opened ErrorHandling

  /** The interval the aggregate scores are rescaled onto. */
  const SCALE_MIN: int := 0
  const SCALE_MAX: int := 100

  /** The ten upstream requests of an aggregation: sanitised language, no sort and no order. */
  function AggregateRequests(query: Query): seq<GithubRequest>
  {
    PageRequests(SanitizeLanguage(query.language), query.created, None, None)
  }

  /** The `data` of a successful aggregation: scored, sorted, then rescaled. */
  function AggregateData(items: seq<GithubRepository>, now: real): seq<Repository>
    requires AllScorable(items, now)
  {
    ScaleRepositories(SortByScoreDesc(ScoreAll(items, now)), SCALE_MIN as real, SCALE_MAX as real)
  }

  /** What the route passes on, as a function of the query, the clock and the upstream. */
  function AggregateOutcome(query: Query, requestId: string, now: real,
                            fetch: GithubRequest -> Result<GithubResponse, string>): Outcome
    requires ScorableAnswers(fetch, AggregateRequests(query), now)
  {
    match ValidateCreatedFormat(query.created)
    case Failure(e) => Next(Classify(Api(e)))
    case Success(_) =>
      var collected := CollectPages(Answers(AggregateRequests(query), fetch));
      match collected
      case Failure(message) => Next(Classify(Plain(message)))
      case Success(items) =>
        CollectedScorable(AggregateRequests(query), fetch, now);
        Respond(SearchResponse(requestId, AggregateData(items, now)))
  }

  /**
   * `aggregateController(req, res, next)` with `requestId` and the clock
   * supplied; `sent` lists the upstream requests made.
   */
  method AggregateController(query: Query, requestId: string, now: real,
                             fetch: GithubRequest -> Result<GithubResponse, string>)
    returns (outcome: Outcome, sent: seq<GithubRequest>)
    requires ScorableAnswers(fetch, AggregateRequests(query), now)
    ensures outcome == AggregateOutcome(query, requestId, now, fetch)
    ensures ValidateCreatedFormat(query.created).Failure? ==> sent == []
    ensures ValidateCreatedFormat(query.created).Success? ==> sent == AggregateRequests(query)
  {
    var createdCheck := ValidateCreatedFormat(query.created);
    if createdCheck.Failure? {
      return Next(Classify(Api(createdCheck.error))), [];
    }
    var searchParams := new SearchParams(SanitizeLanguage(query.language), query.created, None, None, None);
    var repositories, requests := AggregateRepositories(searchParams, fetch);
    sent := requests;
    if repositories.Failure? {
      return Next(Classify(Plain(repositories.error))), sent;
    }
    CollectedScorable(requests, fetch, now);
    var scored := ScoreAll(repositories.value, now);
    var reposWithScore := new Repository[|scored|](i requires 0 <= i < |scored| => scored[i]);
    assert reposWithScore[..] == scored;
    SortInPlace(reposWithScore);
    var scaled := ScaleToInterval(reposWithScore, SCALE_MIN as real, SCALE_MAX as real);
    outcome := Respond(SearchResponse(requestId, scaled[..]));
  }

  // ---------------------------------------------------------------------------
  // What the route promises
  // ---------------------------------------------------------------------------

  /** An invalid `created` is a bad request with the fixed message, answered with 400 before anything is fetched. */
  lemma BadCreatedRejected(query: Query, requestId: string, now: real,
                           fetch: GithubRequest -> Result<GithubResponse, string>)
    requires ScorableAnswers(fetch, AggregateRequests(query), now)
    requires query.created.Some? && !InCreatedLanguage(query.created.value)
    ensures AggregateOutcome(query, requestId, now, fetch) == Next(BadRequestError(Some(INVALID_CREATED_MESSAGE), None))
    ensures var r := ErrorHandler(Api(AggregateOutcome(query, requestId, now, fetch).error));
      r.status == 400 && r.body.errorCode == "BAD_REQUEST" && r.body.message == INVALID_CREATED_MESSAGE
  {
  }

  /** The upstream sees only the sanitised language, and no sort, order or caller-chosen page. */
  lemma AggregateRequestFields(query: Query, k: nat)
    requires k < |AggregateRequests(query)|
    ensures AggregateRequests(query)[k].q == QueryString(SanitizeLanguage(query.language), query.created)
    ensures AggregateRequests(query)[k].sort.None? && AggregateRequests(query)[k].order.None?
    ensures AggregateRequests(query)[k].page == Some(k + 1)
  {
  }

  /** The data keeps the sorted order and the sorted names, one entry per item, with scores in [0, 100]. */
  lemma {:induction false} AggregateDataProperties(items: seq<GithubRepository>, now: real)
    requires AllScorable(items, now)
    ensures |AggregateData(items, now)| == |items|
    ensures Names(AggregateData(items, now)) == Names(SortByScoreDesc(ScoreAll(items, now)))
    ensures SortedDesc(AggregateData(items, now))
    ensures forall k :: 0 <= k < |AggregateData(items, now)| ==>
      0.0 <= AggregateData(items, now)[k].score <= 100.0
  {
    var sorted := SortByScoreDesc(ScoreAll(items, now));
    var data := AggregateData(items, now);
    SortSorted(ScoreAll(items, now));
    forall i, j | 0 <= i < j < |data|
      ensures data[i].score >= data[j].score
    {
      ScalePreservesOrder(sorted, SCALE_MIN as real, SCALE_MAX as real, j, i);
    }
    forall k | 0 <= k < |data|
      ensures 0.0 <= data[k].score <= 100.0
    {
      ScaleWithinInterval(sorted, SCALE_MIN, SCALE_MAX, k);
    }
  }

  /** A failing page becomes an internal server error that carries its message. */
  lemma UpstreamFailureWrapped(query: Query, requestId: string, now: real,
                               fetch: GithubRequest -> Result<GithubResponse, string>, k: nat)
    requires ScorableAnswers(fetch, AggregateRequests(query), now)
    requires ValidateCreatedFormat(query.created).Success?
    requires k < |AggregateRequests(query)| && fetch(AggregateRequests(query)[k]).Failure?
    ensures var out := AggregateOutcome(query, requestId, now, fetch);
      out.Next? && out.error.statusCode == 500 && out.error.message == INTERNAL_ERROR_MESSAGE
      && out.error.details.Some? && out.error.details.value.OriginalError?
  {
    OneFailureFailsAll(Answers(AggregateRequests(query), fetch), k);
  }
}
