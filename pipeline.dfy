/**
 * What both controllers share once the upstream items are in: mapping each
 * item to `{name, score}`, the route's query parameters and outcome, and the
 * `catch` block that decides what reaches the error middleware.
 */
module Pipeline {
  import opened Wrappers
  import opened Models
  import opened ApiErrors
  import opened Scoring
  import opened GithubService

  /** The query string of a request; every parameter may be absent. */
  datatype Query = Query(language: Option<string>, created: Option<string>, page: Option<string>)

  /** A route either answers with a JSON body or passes an error to `next`. */
  datatype Outcome = Respond(response: SearchResponse) | Next(error: ApiError)

  const INTERNAL_ERROR_MESSAGE: string := "An internal server error occurred."

  /** Every item can be scored at time `now`. */
  predicate AllScorable(items: seq<GithubRepository>, now: real)
  {
    forall i :: 0 <= i < |items| ==> Scorable(items[i], now)
  }

  /** Every successful answer to one of `requests` holds only items that can be scored at `now`. */
  predicate ScorableAnswers(fetch: GithubRequest -> Result<GithubResponse, string>, requests: seq<GithubRequest>,
                            now: real)
  {
    forall k :: 0 <= k < |requests| && fetch(requests[k]).Success? ==> AllScorable(fetch(requests[k]).value.items, now)
  }

  /** `repositories.map(repo => ({name: repo.full_name, score: calculateScore(repo)}))`. */
  function ScoreAll(items: seq<GithubRepository>, now: real): (r: seq<Repository>)
    requires AllScorable(items, now)
  {
    seq(|items|, i requires 0 <= i < |items| => Repository(items[i].fullName, CalculateScore(items[i], now)))
  }

  /** One entry per upstream item, carrying its full name and its score, in upstream order. */
  lemma ScoreAllPointwise(items: seq<GithubRepository>, now: real, i: nat)
    requires AllScorable(items, now) && i < |items|
    ensures |ScoreAll(items, now)| == |items|
    ensures ScoreAll(items, now)[i].name == items[i].fullName
    ensures ScoreAll(items, now)[i].score == CalculateScore(items[i], now)
  {
  }

  /** The `catch` block: a `BadRequestError` goes on as it is, anything else is wrapped. */
  function Classify(t: Thrown): (e: ApiError)
    ensures IsBadRequestError(t) ==> e == t.error
    ensures !IsBadRequestError(t) ==>
      e.kind == InternalServer && e.statusCode == 500 && e.errorCode == "INTERNAL_SERVER_ERROR"
      && e.message == INTERNAL_ERROR_MESSAGE && e.details == Some(OriginalError(MessageOf(t)))
  {
    if IsBadRequestError(t) then t.error
    else InternalServerError(Some(INTERNAL_ERROR_MESSAGE), Some(OriginalError(MessageOf(t))))
  }

  /** Whatever is thrown, what reaches the middleware answers 400 or 500, and 400 only for a bad request. */
  lemma ClassifiedStatus(t: Thrown)
    requires t.Api? ==> WellFormed(t.error)
    ensures Classify(t).statusCode == 400 || Classify(t).statusCode == 500
    ensures Classify(t).statusCode == 400 <==> IsBadRequestError(t)
  {
  }

  /** The items of several pages can be scored when the items of each page can. */
  lemma {:induction false} FlattenScorable(pages: seq<seq<GithubRepository>>, now: real)
    requires forall k :: 0 <= k < |pages| ==> AllScorable(pages[k], now)
    ensures AllScorable(Flatten(pages), now)
  {
    if pages != [] {
      FlattenScorable(pages[1..], now);
      var all := Flatten(pages);
      assert all == pages[0] + Flatten(pages[1..]);
      forall i | 0 <= i < |all|
        ensures Scorable(all[i], now)
      {
        if i >= |pages[0]| {
          assert all[i] == Flatten(pages[1..])[i - |pages[0]|];
        }
      }
    }
  }

  /** What the aggregation collects from a scorable upstream can be scored. */
  lemma CollectedScorable(requests: seq<GithubRequest>, fetch: GithubRequest -> Result<GithubResponse, string>,
                          now: real)
    requires ScorableAnswers(fetch, requests, now)
    requires CollectPages(Answers(requests, fetch)).Success?
    ensures AllScorable(CollectPages(Answers(requests, fetch)).value, now)
  {
    var answers := Answers(requests, fetch);
    var pages := PageItems(answers);
    forall k | 0 <= k < |pages|
      ensures AllScorable(pages[k], now)
    {
      assert answers[k] == fetch(requests[k]);
    }
    FlattenScorable(pages, now);
  }
}
