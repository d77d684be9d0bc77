/**
 * The upstream service: building the parameters of one
 * `GET /search/repositories` call, a single search, and the fan-out over
 * pages 1..10 that the aggregate route uses.
 *
 * The HTTP client is not modelled: a call is a total function `fetch` from
 * the request to either the answer or the message of the error it raised.
 */
module GithubService {
  import opened Wrappers
  import opened Models

  /** `per_page` of every request. */
  const NO_OF_REPOSITORIES: int := 1
  const API_VERSION_HEADER: string := "X-GitHub-Api-Version"
  const API_VERSION: string := "2022-11-28"
  /** The headers of every request. */
  const HEADERS: map<string, string> := map[API_VERSION_HEADER := API_VERSION]
  /** The aggregation loop requests pages 1 up to and including this one. */
  const LAST_PAGE: int := 10

  /** JavaScript truthiness of an optional string: present and not empty. */
  predicate Truthy(s: Option<string>)
  {
    s.Some? && s.value != []
  }

  const LANGUAGE_KEY: string := " language:"
  const CREATED_KEY: string := " created:>="

  /** The text that `computeRequestParams` appends for `language`. */
  function LanguageSegment(language: Option<string>): string
  {
    if Truthy(language) then LANGUAGE_KEY + language.value + " " else ""
  }

  /** The text that `computeRequestParams` appends for `created`. */
  function CreatedSegment(created: Option<string>): string
  {
    if Truthy(created) then CREATED_KEY + created.value + " " else ""
  }

  /** The `q` string: the `q=` prefix, then the language and the created segment, in that order. */
  function QueryString(language: Option<string>, created: Option<string>): (q: string)
    ensures |q| >= 2 && q[..2] == "q="
  {
    "q=" + LanguageSegment(language) + CreatedSegment(created)
  }

  /** The parameters `computeRequestParams` returns for the given field values. */
  function RequestFor(language: Option<string>, created: Option<string>, page: Option<int>,
                      sort: Option<Sort>, order: Option<Order>): GithubRequest
  {
    GithubRequest(QueryString(language, created), page, Some(NO_OF_REPOSITORIES), sort, order, HEADERS)
  }

  /** `computeRequestParams(params)`: `q` is built by successive appends, `sort` and `order` are set only when present. */
  method ComputeRequestParams(params: SearchParams) returns (r: GithubRequest)
    ensures r == RequestFor(params.language, params.created, params.page, params.sort, params.order)
  {
    var language, created, page, sort, order := params.language, params.created, params.page, params.sort, params.order;
    var q := "q=";
    if Truthy(language) {
      var segment := LANGUAGE_KEY + language.value + " ";
      q := q + segment;
    }
    assert q == "q=" + LanguageSegment(language);
    if Truthy(created) {
      var segment := CREATED_KEY + created.value + " ";
      q := q + segment;
    }
    assert q == QueryString(language, created);
    r := GithubRequest(q, page, Some(NO_OF_REPOSITORIES), None, None, HEADERS);
    if sort.Some? {
      r := r.(sort := sort);
    }
    if order.Some? {
      r := r.(order := order);
    }
  }

  // ---------------------------------------------------------------------------
  // What the request parameters promise
  // ---------------------------------------------------------------------------

  /** `per_page` is always one, the page is copied, `sort` and `order` are present exactly when set and keep their value. */
  lemma RequestFields(language: Option<string>, created: Option<string>, page: Option<int>,
                      sort: Option<Sort>, order: Option<Order>)
    ensures RequestFor(language, created, page, sort, order).perPage == Some(1)
    ensures RequestFor(language, created, page, sort, order).page == page
    ensures RequestFor(language, created, page, sort, order).sort.Some? <==> sort.Some?
    ensures RequestFor(language, created, page, sort, order).order.Some? <==> order.Some?
    ensures sort.Some? ==> RequestFor(language, created, page, sort, order).sort.value == sort.value
    ensures order.Some? ==> RequestFor(language, created, page, sort, order).order.value == order.value
    ensures RequestFor(language, created, page, sort, order).headers[API_VERSION_HEADER] == "2022-11-28"
  {
  }

  /** The language segment follows the `q=` prefix exactly when the language is truthy. */
  lemma {:induction false} LanguageSegmentIff(language: Option<string>, created: Option<string>)
    ensures var q := QueryString(language, created);
      Truthy(language) <==> (|q| >= 12 && q[2..12] == LANGUAGE_KEY)
  {
    var q := QueryString(language, created);
    if Truthy(language) {
      assert q[2..12] == LANGUAGE_KEY;
    } else if Truthy(created) {
      assert q[2..12] == CREATED_KEY[..10];
      assert q[3] != LANGUAGE_KEY[1];
    } else {
      assert q == "q=";
    }
  }

  /** With both fields truthy the query is `q= language:L  created:>=C ` exactly. */
  lemma BothSegments(language: string, created: string)
    requires language != [] && created != []
    ensures QueryString(Some(language), Some(created))
         == "q=" + (" language:" + language + " ") + (" created:>=" + created + " ")
  {
  }

  /** The created segment closes the query when `created` is truthy, and is absent otherwise. */
  lemma {:induction false} CreatedSegmentLast(language: Option<string>, created: Option<string>)
    ensures var q := QueryString(language, created);
      Truthy(created) ==>
        (|q| >= |CREATED_KEY| + |created.value| + 1
         && q[|q| - |CREATED_KEY| - |created.value| - 1..] == CREATED_KEY + created.value + " ")
    ensures !Truthy(created) ==> QueryString(language, created) == "q=" + LanguageSegment(language)
  {
    var q := QueryString(language, created);
    if Truthy(created) {
      var tail := CREATED_KEY + created.value + " ";
      assert q == ("q=" + LanguageSegment(language)) + tail;
      assert q[|q| - |tail|..] == tail;
    } else {
      assert CreatedSegment(created) == [];
    }
  }

  /** Only the number of characters added depends on whether a field is absent or empty. */
  lemma QueryLength(language: Option<string>, created: Option<string>)
    ensures |QueryString(language, created)|
         == 2 + (if Truthy(language) then 11 + |language.value| else 0)
              + (if Truthy(created) then 12 + |created.value| else 0)
  {
  }

  // ---------------------------------------------------------------------------
  // A single search
  // ---------------------------------------------------------------------------

  /** The items of an answer, or the error the call raised. */
  function ItemsOf(answer: Result<GithubResponse, string>): (r: Result<seq<GithubRepository>, string>)
    ensures r.Success? <==> answer.Success?
    ensures r.Success? ==> r.value == answer.value.items
    ensures r.Failure? ==> r.error == answer.error
  {
    match answer
    case Success(response) => Success(response.items)
    case Failure(message) => Failure(message)
  }

  /**
   * `searchRepositories(params)`: one call with the computed parameters.
   * `sent` is the request handed to the client.
   */
  method SearchRepositories(params: SearchParams, fetch: GithubRequest -> Result<GithubResponse, string>)
    returns (r: Result<seq<GithubRepository>, string>, sent: GithubRequest)
    ensures sent == RequestFor(params.language, params.created, params.page, params.sort, params.order)
    ensures r == ItemsOf(fetch(sent))
  {
    sent := ComputeRequestParams(params);
    var response := fetch(sent);
    r := ItemsOf(response);
  }

  // ---------------------------------------------------------------------------
  // Aggregation over pages 1..10
  // ---------------------------------------------------------------------------

  /** The requests of the aggregation loop: one per page, pages 1 to 10 in increasing order, all else equal. */
  function PageRequests(language: Option<string>, created: Option<string>,
                        sort: Option<Sort>, order: Option<Order>): (r: seq<GithubRequest>)
    ensures |r| == LAST_PAGE
    ensures forall i :: 0 <= i < |r| ==> r[i] == RequestFor(language, created, Some(i + 1), sort, order)
  {
    seq(LAST_PAGE, i requires 0 <= i < LAST_PAGE => RequestFor(language, created, Some(i + 1), sort, order))
  }

  /** `.flat()`: the pages one after another. */
  function Flatten(pages: seq<seq<GithubRepository>>): seq<GithubRepository>
  {
    if pages == [] then [] else pages[0] + Flatten(pages[1..])
  }

  /** Flattening splits around any page: the items before it, its own items, the items after it. */
  lemma {:induction false} FlattenAround(pages: seq<seq<GithubRepository>>, k: nat)
    requires k < |pages|
    ensures Flatten(pages) == Flatten(pages[..k]) + pages[k] + Flatten(pages[k + 1..])
  {
    if k == 0 {
      assert pages[..0] == [];
    } else {
      FlattenAround(pages[1..], k - 1);
      assert pages[1..][..k - 1] == pages[1..k];
      assert pages[1..][k - 1 + 1..] == pages[k + 1..];
      assert pages[..k] == [pages[0]] + pages[1..k];
      assert Flatten(pages[..k]) == pages[0] + Flatten(pages[1..k]) by {
        assert pages[..k][1..] == pages[1..k];
      }
    }
  }

  /** The number of items is the sum of the page sizes. */
  function TotalItems(pages: seq<seq<GithubRepository>>): nat
  {
    if pages == [] then 0 else |pages[0]| + TotalItems(pages[1..])
  }

  lemma {:induction false} FlattenLength(pages: seq<seq<GithubRepository>>)
    ensures |Flatten(pages)| == TotalItems(pages)
  {
    if pages != [] {
      FlattenLength(pages[1..]);
    }
  }

  /** Every page succeeded. */
  predicate AllSucceeded(answers: seq<Result<GithubResponse, string>>)
  {
    forall i :: 0 <= i < |answers| ==> answers[i].Success?
  }

  /** The items of each page, in page order. */
  function PageItems(answers: seq<Result<GithubResponse, string>>): (r: seq<seq<GithubRepository>>)
    requires AllSucceeded(answers)
    ensures |r| == |answers| && forall i :: 0 <= i < |r| ==> r[i] == answers[i].value.items
  {
    seq(|answers|, i requires 0 <= i < |answers| => answers[i].value.items)
  }

  /**
   * `Promise.all(requests)` followed by the flattening map: the items of all
   * pages in page order, or the error of the first page that failed.
   */
  function CollectPages(answers: seq<Result<GithubResponse, string>>): (r: Result<seq<GithubRepository>, string>)
    ensures r.Success? <==> AllSucceeded(answers)
    ensures r.Success? ==> r.value == Flatten(PageItems(answers))
    ensures r.Failure? ==> exists k :: 0 <= k < |answers| && answers[k] == Failure(r.error)
                                    && AllSucceeded(answers[..k])
  {
    if answers == [] then Success([])
    else if answers[0].Failure? then
      assert AllSucceeded(answers[..0]);
      Failure(answers[0].error)
    else
      var rest := CollectPages(answers[1..]);
      if rest.Failure? then
        ghost var k :| 0 <= k < |answers[1..]| && answers[1..][k] == Failure(rest.error)
                       && AllSucceeded(answers[1..][..k]);
        assert answers[k + 1] == Failure(rest.error);
        assert answers[..k + 1] == [answers[0]] + answers[1..][..k];
        Failure(rest.error)
      else
        assert PageItems(answers) == [answers[0].value.items] + PageItems(answers[1..]);
        Success(answers[0].value.items + rest.value)
  }

  /** The answers to the requests, in request order (`Promise.all` keeps the order of its input). */
  function Answers(requests: seq<GithubRequest>, fetch: GithubRequest -> Result<GithubResponse, string>)
    : (r: seq<Result<GithubResponse, string>>)
    ensures |r| == |requests| && forall i :: 0 <= i < |r| ==> r[i] == fetch(requests[i])
  {
    seq(|requests|, i requires 0 <= i < |requests| => fetch(requests[i]))
  }

  /**
   * `aggregateRepositories(params)`: the loop overwrites `params.page` with
   * 1..10 and builds one request per page; the answers are then flattened in
   * page order.
   */
  method AggregateRepositories(params: SearchParams, fetch: GithubRequest -> Result<GithubResponse, string>)
    returns (r: Result<seq<GithubRepository>, string>, requests: seq<GithubRequest>)
    modifies params
    ensures requests == PageRequests(old(params.language), old(params.created), old(params.sort), old(params.order))
    ensures r == CollectPages(Answers(requests, fetch))
    ensures params.page == Some(LAST_PAGE)
    ensures params.language == old(params.language) && params.created == old(params.created)
    ensures params.sort == old(params.sort) && params.order == old(params.order)
  {
    ghost var language, created, sort, order := params.language, params.created, params.sort, params.order;
    requests := [];
    var page := 1;
    while page <= LAST_PAGE
      invariant 1 <= page <= LAST_PAGE + 1
      invariant |requests| == page - 1
      invariant forall i :: 0 <= i < |requests| ==> requests[i] == RequestFor(language, created, Some(i + 1), sort, order)
      invariant page > 1 ==> params.page == Some(page - 1)
      invariant params.language == language && params.created == created
      invariant params.sort == sort && params.order == order
    {
      params.page := Some(page);
      var request := ComputeRequestParams(params);
      requests := requests + [request];
      page := page + 1;
    }
    assert requests == PageRequests(language, created, sort, order);
    var allResults := Answers(requests, fetch);
    r := CollectPages(allResults);
  }

  // ---------------------------------------------------------------------------
  // What the aggregation promises
  // ---------------------------------------------------------------------------

  /** Each successful page contributes its items, unchanged and contiguous, between those of the pages before and after it. */
  lemma PageOrder(answers: seq<Result<GithubResponse, string>>, k: nat)
    requires AllSucceeded(answers) && k < |answers|
    ensures var all := CollectPages(answers).value;
      var before := |Flatten(PageItems(answers)[..k])|;
      before + |answers[k].value.items| <= |all|
      && all[before..before + |answers[k].value.items|] == answers[k].value.items
  {
    FlattenAround(PageItems(answers), k);
  }

  /** The aggregated result holds as many items as the ten pages together. */
  lemma AggregateSize(answers: seq<Result<GithubResponse, string>>)
    requires AllSucceeded(answers)
    ensures |CollectPages(answers).value| == TotalItems(PageItems(answers))
  {
    FlattenLength(PageItems(answers));
  }

  /** One failing page fails the whole aggregation. */
  lemma OneFailureFailsAll(answers: seq<Result<GithubResponse, string>>, k: nat)
    requires k < |answers| && answers[k].Failure?
    ensures CollectPages(answers).Failure?
  {
  }
}
