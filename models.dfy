/**
 * The records exchanged between the controllers, the upstream service and the
 * scorer. GitHub items and outgoing requests are values; the search parameters
 * are an object because the aggregation loop overwrites their `page` field.
 */
module Models {
  import opened Wrappers

  /**
   * One item of the upstream search result. `updatedAt` is `updated_at` as a
   * point in time, in milliseconds since the epoch; a missing count is `None`.
   */
  datatype GithubRepository = GithubRepository(
    fullName: string,
    stargazersCount: Option<int>,
    forksCount: Option<int>,
    updatedAt: real)

  /** One page of the upstream answer: `data.items` and its two counters. */
  datatype GithubResponse = GithubResponse(
    totalCount: int,
    partialResults: bool,
    items: seq<GithubRepository>)

  /** A scored repository as the service returns it: `{name, score}`. */
  datatype Repository = Repository(name: string, score: real)

  datatype Sort = Updated | Stars | Forks | HelpWantedIssues
  datatype Order = Asc | Desc

  /** The parameters of one `GET /search/repositories` call. */
  datatype GithubRequest = GithubRequest(
    q: string,
    page: Option<int>,
    perPage: Option<int>,
    sort: Option<Sort>,
    order: Option<Order>,
    headers: map<string, string>)

  /** The JSON body of a successful answer of either route. */
  datatype SearchResponse = SearchResponse(requestId: string, data: seq<Repository>)

  /** The parameters a controller hands to the upstream service. */
  class SearchParams {
    var language: Option<string>
    var created: Option<string>
    var page: Option<int>
    var sort: Option<Sort>
    var order: Option<Order>

    constructor (language: Option<string>, created: Option<string>, page: Option<int>,
                 sort: Option<Sort>, order: Option<Order>)
      ensures this.language == language && this.created == created && this.page == page
      ensures this.sort == sort && this.order == order
    {
      this.language := language;
      this.created := created;
      this.page := page;
      this.sort := sort;
      this.order := order;
    }
  }
}
