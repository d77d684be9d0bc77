# GitHub repository search API: a Dafny model

This project models the core of a small Express service that searches GitHub for
repositories. It scores each repository and returns the results best first. The
service has two routes:

- the search route validates the `page` query parameter and asks GitHub for one
  page sorted by stars. It then scores every repository, sorts by score and
  answers with the raw scores;
- the aggregate route validates `created` and sanitises `language`. It then asks
  GitHub for pages 1 to 10 at once, flattens them, scores and sorts them, and
  rescales the scores onto [0, 100].

The score is `(2 * stars + 0.5 * forks) / (days since last update + 5)`, kept to
two decimals. Rescaling is min-max: every score is mapped linearly onto the new
interval and kept to four decimals. When all scores are equal, every score
becomes the interval's lower end. Failures become `ApiError`s: a bad request goes
to the error middleware unchanged, and every other failure is wrapped as an
internal server error. The error middleware turns an error into a status and a
JSON body. An error that is not an `ApiError` gets a fixed 500 answer and its
message is never shown.

Files and modules, following the source:

| file | module | source |
|---|---|---|
| `wrappers.dfy` | `Wrappers` | `Option` / `Result` |
| `js_builtins.dfy` | `JsBuiltins` | `Number.prototype.toFixed` and `parseInt(s, 10)`, as the core uses them |
| `models.dfy` | `Models` | `src/models/*.ts` |
| `api_errors.dfy` | `ApiErrors` | `src/utils/errors/ApiError.ts` |
| `error_handler.dfy` | `ErrorHandling` | `src/middlewares/errorHandler.ts` |
| `scoring.dfy` | `Scoring` | `src/utils/scoring.ts` |
| `validation.dfy` | `SearchValidation` | `src/utils/validateSearchParameters.ts` |
| `github_service.dfy` | `GithubService` | `src/services/githubService.ts` |
| `sorting.dfy` | `Sorting` | the `sort` call of both controllers |
| `pipeline.dfy` | `Pipeline` | the mapping and `catch` block both controllers share |
| `search_controller.dfy` | `SearchRoute` | `src/controllers/searchController.ts` |
| `aggregate_controller.dfy` | `AggregateRoute` | `src/controllers/aggregateController.ts` |

How the model represents the source:

- **Numbers.** JavaScript numbers are Dafny `real`s, so arithmetic is exact.
  `toFixed(d)` is rounding half away from zero at `10^d`. `parseInt(s, 10)` skips
  leading white space, reads an optional sign, then reads the longest run of
  decimal digits. It returns `None` where JavaScript returns `NaN`.
- **Inputs from outside.** Three things the source gets from outside are
  parameters instead:
  - the clock (`now`, in milliseconds since the epoch);
  - the request id;
  - the GitHub API (`fetch`, a function from request parameters to the
    response or the error message the call throws).
- **What is observable.** The service methods and the controllers also return
  `sent`, the upstream requests they made. This makes "nothing is fetched after a
  validation error" and "sort and order are forced" statements about the result.
- **In-place updates stay in place.**
  - `scaleToInterval` overwrites `repo.score` of every entry of the caller's list
    and returns the new list that its `map` builds from the updated entries. It
    is a method that updates the caller's array and returns a fresh array with
    the same contents.
  - The controllers' `sort` works in place on an array.
  - `aggregateRepositories` overwrites `params.page` of its argument. So
    `SearchParams` is a class, and the method's contract gives its final state.
- **Specification functions.** Each method is proved against a function:
  `ScaleRepositories`, `SortByScoreDesc`, `RequestFor`, `PageRequests`,
  `CollectPages`, `SearchOutcome` and `AggregateOutcome`. The lemmas state what
  the source promises about those functions.
- **Errors.** The error classes become one `ApiError` datatype whose `kind`
  records the class it was constructed as, so `instanceof BadRequestError` is
  `kind == BadRequest`. A `Thrown` value is either an `ApiError` or a plain
  `Error` with a message.

## Model

| member | source | states |
|---|---|---|
| JsBuiltins.RoundHalfAway | src/utils/scoring.ts:33 | the integer that `toFixed` rounds to is within one half of the scaled value |
| JsBuiltins.ToFixed | src/utils/scoring.ts:33 | `Number(x.toFixed(d))` is the multiple of 10^-d nearest to `x`, ties away from zero; its order, error and exactness are stated by `ToFixedMonotone`, `ToFixedError`, `RoundedValue` and `ToFixedInteger` |
| JsBuiltins.RoundHalfAwayMonotone | src/utils/scoring.ts:33 | rounding to an integer never reverses the order of two values |
| JsBuiltins.ToFixedMonotone | src/utils/scoring.ts:33 | rounding to a fixed number of decimals never reverses the order of two values |
| JsBuiltins.RoundedValue | src/utils/scoring.ts:33 | a value that already has at most the kept number of decimals comes back unchanged |
| JsBuiltins.ToFixedInteger | src/utils/scoring.ts:70 | an integer comes back unchanged from `toFixed` |
| JsBuiltins.ToFixedError | src/utils/scoring.ts:70 | `toFixed(d)` differs from its argument by at most half a unit of the last kept decimal |
| JsBuiltins.IsJsWhitespace | src/utils/validateSearchParameters.ts:36 | the white space of `\s` and of `parseInt`: tab, the line terminators, vertical tab, form feed, space, no-break space, the byte order mark and the Unicode space separators |
| JsBuiltins.TrimStart | src/utils/validateSearchParameters.ts:19 | what remains once `parseInt` has skipped white space is a suffix of the input that is empty or does not start with white space |
| JsBuiltins.TrimStartSkipsWhitespace | src/utils/validateSearchParameters.ts:19 | every character skipped before that suffix is white space |
| JsBuiltins.TrimStartOfWhitespace | src/utils/validateSearchParameters.ts:19 | white space put in front of a text is skipped and the rest is what the text alone leaves |
| JsBuiltins.LeadingDigits | src/utils/validateSearchParameters.ts:19 | `parseInt` reads the longest prefix of decimal digits |
| JsBuiltins.ParseInt | src/utils/validateSearchParameters.ts:19 | `parseInt(s, 10)`: skip white space, then read a sign and digits; what it returns is stated by `ParseIntOfNumeral`, `ParseIntOfNegativeNumeral`, `ParseIntNaN` and `ParseIntSkipsWhitespace` |
| JsBuiltins.ParseSignedDigits | src/utils/validateSearchParameters.ts:19 | an optional `-` or `+`, then the longest run of digits; no digit at all is `NaN` |
| JsBuiltins.ParseIntSkipsWhitespace | src/utils/validateSearchParameters.ts:19 | white space in front of a page number does not change what `parseInt` reads |
| JsBuiltins.NatToString | src/utils/validateSearchParameters.ts:19 | the decimal numeral of a number is a non-empty run of digits |
| JsBuiltins.DecimalValueOfNatToString | src/utils/validateSearchParameters.ts:19 | reading a numeral back gives the number it was written from |
| JsBuiltins.LeadingDigitsOfDigits | src/utils/validateSearchParameters.ts:19 | digit reading stops exactly at the first non-digit |
| JsBuiltins.ParseIntOfNumeral | src/utils/validateSearchParameters.ts:19 | `parseInt` of a numeral followed by any text not starting with a digit is that number |
| JsBuiltins.ParseIntOfNegativeNumeral | src/utils/validateSearchParameters.ts:19 | a leading minus sign gives the negated number |
| JsBuiltins.ParseIntNaN | src/utils/validateSearchParameters.ts:19 | text starting with something other than white space, a sign or a digit is `NaN` |
| Models.SearchParams.constructor | src/models/searchParams.ts:1-7 | the five optional fields hold the values given |
| ApiErrors.NewApiError | src/utils/errors/ApiError.ts:6-17 | the base error keeps the status, message, code and details it is given |
| ApiErrors.StatusOf | src/utils/errors/ApiError.ts:20-39 | 404, 400 and 500 for the three subclasses; `StatusDeterminesKind` proves the status tells them apart |
| ApiErrors.NotFoundError | src/utils/errors/ApiError.ts:20-25 | status 404, code `NOT_FOUND`, message "Resource not found" unless one is given, details kept |
| ApiErrors.BadRequestError | src/utils/errors/ApiError.ts:27-32 | status 400, code `BAD_REQUEST`, message "Bad request" unless one is given, details kept |
| ApiErrors.InternalServerError | src/utils/errors/ApiError.ts:34-39 | status 500, code `INTERNAL_SERVER_ERROR`, message "Internal server error" unless one is given, details kept |
| ApiErrors.StatusDeterminesKind | src/utils/errors/ApiError.ts:20-39 | two subclass instances have the same status exactly when they are of the same class |
| ApiErrors.IsBadRequestError | src/controllers/searchController.ts:79 | `error instanceof BadRequestError`: an `ApiError` constructed as a bad request; `Classify` and `ClassifiedStatus` state its use |
| ApiErrors.MessageOf | src/controllers/searchController.ts:84 | `error.message` of either kind of thrown value; `Classify` states where it goes |
| ErrorHandling.ErrorHandler | src/middlewares/errorHandler.ts:5-47 | an `ApiError` answers with its own status, message, code and details; anything else answers 500 with the fixed message and code and no details; the body's status is always the response status |
| ErrorHandling.PlainMessageHidden | src/middlewares/errorHandler.ts:30-46 | the answer to an error that is not an `ApiError` does not depend on its message |
| ErrorHandling.ApiErrorRecoverable | src/middlewares/errorHandler.ts:24-29 | the answer to an `ApiError` determines the error up to its class |
| ErrorHandling.KindStatus | src/middlewares/errorHandler.ts:11-29 | a subclass instance answers with the status and code its class fixes |
| Scoring.DaysSinceLastUpdate | src/utils/scoring.ts:25-28 | the age in days, which times the milliseconds in a day added to the update time gives the clock reading |
| Scoring.CalculateScore | src/utils/scoring.ts:22-34 | the score is within 0.005 of `(2 * stars + 0.5 * forks) / (days + 5)`, missing counts read as 0; exact values are stated by `WorkedExamples` and `ZeroCountsScoreZero` |
| Scoring.MissingCountsAreZero | src/utils/scoring.ts:23-24 | a missing star or fork count scores as a count of zero |
| Scoring.ZeroCountsScoreZero | src/__tests__/unit/scoring.test.ts:49-57 | no stars and no forks score 0 whatever the age |
| Scoring.WorkedExamples | src/__tests__/unit/scoring.test.ts:21-47 | 100 stars and 50 forks score exactly 15 ten days after the update and 37.5 one day after |
| Scoring.RawScoreFavoursRecent | src/utils/scoring.ts:30-32 | with a positive numerator a more recent update gives a strictly higher unrounded score |
| Scoring.ScoreFavoursRecent | src/utils/scoring.ts:18-34 | with non-negative counts, a more recent update never gives a lower score after rounding |
| Scoring.ScoreNonNegative | src/utils/scoring.ts:22-34 | with non-negative counts and an update less than five days in the future the score is non-negative |
| Scoring.Scores | src/utils/scoring.ts:48 | the list of scores, one per entry, in order |
| Scoring.MinOf | src/utils/scoring.ts:51 | `Math.min` of a non-empty list is an element of it and no element is smaller |
| Scoring.MaxOf | src/utils/scoring.ts:52 | `Math.max` of a non-empty list is an element of it and no element is larger |
| Scoring.ScaleValue | src/utils/scoring.ts:66-69 | the normalised value times the new range plus `newMin`; its endpoints, order and bounds are stated by `ScaleValueEndpoints`, `ScaleValueMonotone`, `ScaleValueAntitone` and `ScaleValueBounds` |
| Scoring.RescaledScore | src/utils/scoring.ts:57-71 | `newMin` when the old range is empty, otherwise within 0.00005 of the linear map of the score |
| Scoring.ScaleRepositories | src/utils/scoring.ts:43-75 | rescaling keeps the number of entries and their names, in order |
| Scoring.SetScores | src/utils/scoring.ts:57-63 | in place, every entry gets score `newMin` and keeps its name, and the list `map` builds receives the updated entries |
| Scoring.RescaleScores | src/utils/scoring.ts:66-72 | in place, every entry's score becomes the linear map of it, to four decimals, and the name is kept; the list `map` builds receives the updated entries |
| Scoring.ScaleToInterval | src/utils/scoring.ts:43-75 | the caller's array ends up holding `ScaleRepositories` of its old contents, and the returned array is a fresh one holding the same entries |
| Scoring.ScaleValueEndpoints | src/utils/scoring.ts:66-69 | the linear map sends the old minimum to `newMin` and the old maximum to `newMax` |
| Scoring.ScaleValueMonotone | src/utils/scoring.ts:66-69 | onto an upright interval the linear map preserves order |
| Scoring.ScaleValueAntitone | src/utils/scoring.ts:66-69 | onto an inverted interval the linear map reverses order |
| Scoring.ScaleValueBounds | src/utils/scoring.ts:66-69 | a value within the old range is mapped into the new interval |
| Scoring.ScaleEqualScores | src/utils/scoring.ts:57-63 | when all scores are equal, a single entry included, every new score is `newMin` |
| Scoring.ScalePreservesOrder | src/utils/scoring.ts:66-72 | onto an upright interval an entry that scored no higher than another still scores no higher |
| Scoring.ScaleReversesOrder | src/utils/scoring.ts:66-72 | onto an inverted interval the order of the scores is reversed |
| Scoring.ScaleWithinInterval | src/utils/scoring.ts:36-41 | onto an interval with whole-number ends every new score lies in the interval, rounding included |
| Scoring.ScaleMapsExtremes | src/utils/scoring.ts:66-72 | when the scores differ, the least score becomes `newMin` and the greatest `newMax`, to four decimals |
| Scoring.ScaleTenToFiftyExactly | src/__tests__/unit/scoring.test.ts:71-97 | in a list scoring 10 to 50, an entry whose linear image has four decimals gets exactly that image |
| Scoring.ScaleExampleUnit | src/__tests__/unit/scoring.test.ts:71-81 | scores 10, 20, 30, 40, 50 become 0, 0.25, 0.5, 0.75, 1 on [0, 1] |
| Scoring.ScaleExampleOneToTen | src/__tests__/unit/scoring.test.ts:83-97 | the same scores become exactly 1, 3.25, 5.5, 7.75, 10 on [1, 10] |
| Scoring.ScaleDegenerateExamples | src/__tests__/unit/scoring.test.ts:99-121 | three equal scores and a single score all become 0 on [0, 10]; the empty list stays empty |
| SearchValidation.ComparatorLength | src/utils/validateSearchParameters.ts:6 | the optional `<`, `>`, `<=`, `>=` prefix is at most two characters long |
| SearchValidation.ComparatorLengthOf | src/utils/validateSearchParameters.ts:6 | a comparison prefix is matched in full when a digit follows it |
| SearchValidation.IsDate | src/utils/validateSearchParameters.ts:6 | `\d{4}-\d{2}-\d{2}`: ten characters, digits with a hyphen after the fourth and the sixth; `IsDateExample` gives an instance |
| SearchValidation.MatchesCreated | src/utils/validateSearchParameters.ts:6 | the recogniser of the pattern; `MatchesCreatedCorrect` proves it accepts exactly the pattern's language |
| SearchValidation.MatchesCreatedSound | src/utils/validateSearchParameters.ts:6 | every string the recogniser accepts is in the language of the pattern |
| SearchValidation.MatchesCreatedComplete | src/utils/validateSearchParameters.ts:6 | every string in the language of the pattern is accepted by the recogniser |
| SearchValidation.MatchesCreatedCorrect | src/utils/validateSearchParameters.ts:6 | the recogniser accepts exactly the language of the pattern |
| SearchValidation.ValidateCreatedFormat | src/utils/validateSearchParameters.ts:3-14 | succeeds exactly when `created` is absent or matches the pattern; otherwise a bad request with the fixed message |
| SearchValidation.IsDateExample | src/utils/validateSearchParameters.ts:6 | ten characters of the shape `dddd-dd-dd` form a date |
| SearchValidation.AcceptedSingleDate | src/utils/validateSearchParameters.ts:6 | a comparison prefix followed by a date is accepted |
| SearchValidation.AcceptedAbsentExample | src/__tests__/unit/validateSearchParameters.test.ts:25-27 | an absent `created` is accepted |
| SearchValidation.AcceptedDateExample | src/__tests__/unit/validateSearchParameters.test.ts:9-11 | `2023-01-15` is accepted |
| SearchValidation.AcceptedImpossibleDateExample | src/utils/validateSearchParameters.ts:6 | `2023-99-99` is accepted: only the digit shape is checked |
| SearchValidation.AcceptedGreaterExample | src/__tests__/unit/validateSearchParameters.test.ts:13-15 | `>2023-01-15` is accepted |
| SearchValidation.AcceptedLessExample | src/__tests__/unit/validateSearchParameters.test.ts:17-19 | `<2023-01-15` is accepted |
| SearchValidation.AcceptedAtMostExample | src/utils/validateSearchParameters.ts:6 | `<=2023-01-15` is accepted |
| SearchValidation.AcceptedRangeExample | src/__tests__/unit/validateSearchParameters.test.ts:21-23 | `2023-01-15..2023-01-30` is accepted |
| SearchValidation.RejectedSlashesExample | src/__tests__/unit/validateSearchParameters.test.ts:30 | `2023/01/15` is rejected |
| SearchValidation.RejectedWordExample | src/__tests__/unit/validateSearchParameters.test.ts:31 | `invalid-date` is rejected |
| SearchValidation.RejectedShortFieldsExample | src/__tests__/unit/validateSearchParameters.test.ts:32 | `2023-1-1` is rejected |
| SearchValidation.RejectedReversedPrefixExample | src/__tests__/unit/validateSearchParameters.test.ts:36-38 | `=>2023-01-15` is rejected |
| SearchValidation.RejectedRangeEndExample | src/__tests__/unit/validateSearchParameters.test.ts:39-41 | `2023-01-15..2023/01/30` is rejected |
| SearchValidation.ValidatePageNumberFormat | src/utils/validateSearchParameters.ts:16-27 | an absent page stays absent; a present one is accepted exactly when it parses to a positive number, which is returned; otherwise a bad request with the fixed message |
| SearchValidation.PageNumberRoundTrip | src/utils/validateSearchParameters.ts:19-26 | the numeral of any positive number, followed by any text not starting with a digit, is accepted as that page |
| SearchValidation.PageNumberNotPositive | src/utils/validateSearchParameters.ts:20-24 | a numeral is refused exactly when it is zero, and every negative numeral is refused |
| SearchValidation.AcceptedAbsentPageExample | src/__tests__/unit/validateSearchParameters.test.ts:51-53 | no page gives no page |
| SearchValidation.AcceptedFirstPageExample | src/__tests__/unit/validateSearchParameters.test.ts:47 | `1` gives page 1 |
| SearchValidation.AcceptedHundredthPageExample | src/__tests__/unit/validateSearchParameters.test.ts:48 | `100` gives page 100 |
| SearchValidation.DecimalPageExample | src/utils/validateSearchParameters.ts:19 | `1.5` gives page 1, because `parseInt` stops at the point |
| SearchValidation.RejectedZeroExample | src/__tests__/unit/validateSearchParameters.test.ts:55-57 | `0` is refused |
| SearchValidation.RejectedNegativeExample | src/__tests__/unit/validateSearchParameters.test.ts:59-61 | `-5` is refused |
| SearchValidation.RejectedTextExample | src/__tests__/unit/validateSearchParameters.test.ts:63-65 | `abc` is refused |
| SearchValidation.StripDisallowed | src/utils/validateSearchParameters.ts:36 | removing characters never makes the text longer |
| SearchValidation.SanitizeLanguage | src/utils/validateSearchParameters.ts:29-37 | absent exactly when the input is absent; the result holds only letters, digits, white space, `+`, `#` and `-` |
| SearchValidation.StripKeepsAllowed | src/utils/validateSearchParameters.ts:36 | only whitelisted characters survive the filter |
| SearchValidation.StripConcat | src/utils/validateSearchParameters.ts:36 | the filter works piece by piece and keeps the order of what it keeps |
| SearchValidation.StripChar | src/utils/validateSearchParameters.ts:36 | a single character is kept exactly when it is whitelisted |
| SearchValidation.StripIdentity | src/utils/validateSearchParameters.ts:36 | the filter leaves a text unchanged exactly when every character of it is whitelisted |
| SearchValidation.SanitizeIdempotent | src/utils/validateSearchParameters.ts:29-37 | sanitising twice is the same as sanitising once |
| SearchValidation.KeptWhenAllowed | src/__tests__/unit/validateSearchParameters.test.ts:90-93 | an entirely whitelisted language comes back as it was |
| SearchValidation.DroppedLast | src/utils/validateSearchParameters.ts:36 | a disallowed character at the end adds nothing |
| SearchValidation.DroppedBefore | src/utils/validateSearchParameters.ts:36 | a disallowed character followed by whitelisted text is removed and the text is kept |
| SearchValidation.DroppedBetween | src/utils/validateSearchParameters.ts:36 | one disallowed character between whitelisted texts is removed and nothing else is |
| SearchValidation.TwoDropped | src/__tests__/unit/validateSearchParameters.test.ts:76-80 | two disallowed characters among whitelisted text are removed and the text is kept in order |
| SearchValidation.ThreeDropped | src/utils/validateSearchParameters.ts:36 | three disallowed characters, each followed by whitelisted text, are removed and the text is kept in order |
| SearchValidation.MarkupDropped | src/__tests__/unit/validateSearchParameters.test.ts:78 | the brackets, parentheses and slash of a tag pair around a call are removed and the text is kept in order |
| SearchValidation.SanitizeAbsentExample | src/__tests__/unit/validateSearchParameters.test.ts:72-74 | an absent language stays absent |
| SearchValidation.SanitizeSymbolsExample | src/__tests__/unit/validateSearchParameters.test.ts:82-88 | `C++`, `C#` and `F#` are kept |
| SearchValidation.SanitizeWordExample | src/__tests__/unit/validateSearchParameters.test.ts:90-93 | `typescript` is kept |
| SearchValidation.SanitizeHyphenExample | src/__tests__/unit/validateSearchParameters.test.ts:85 | `Objective-C` is kept |
| SearchValidation.SanitizeSpaceExample | src/__tests__/unit/validateSearchParameters.test.ts:87 | `Type Script` is kept |
| SearchValidation.SanitizeInjectionExample | src/__tests__/unit/validateSearchParameters.test.ts:79 | `python; DROP TABLE users;` becomes `python DROP TABLE users` |
| SearchValidation.SanitizeQuoteExample | src/__tests__/unit/validateSearchParameters.test.ts:77 | `javascript' OR 1=1--` becomes `javascript OR 11--` |
| SearchValidation.SanitizeMarkupExample | src/__tests__/unit/validateSearchParameters.test.ts:78 | `java<script>alert(1)</script>` becomes `javascriptalert1script` |
| GithubService.QueryString | src/services/githubService.ts:38-44 | the query always starts with the `q=` prefix |
| GithubService.Truthy | src/services/githubService.ts:39-44 | `if (language)` and `if (created)`: present and not the empty string; `LanguageSegmentIff` and `CreatedSegmentLast` state what follows from it |
| GithubService.RequestFor | src/services/githubService.ts:45-59 | the request `computeRequestParams` builds; its fields are stated by `RequestFields`, and `ComputeRequestParams` is proved to build it |
| GithubService.ComputeRequestParams | src/services/githubService.ts:35-64 | builds `q` by appending the segments one after another and sets `sort` and `order` only when present; the result is the parameters `RequestFor` specifies |
| GithubService.RequestFields | src/services/githubService.ts:45-59 | `per_page` is 1, the page is copied, `sort` and `order` are present exactly when given and keep their values, and the API version header is `2022-11-28` |
| GithubService.LanguageSegmentIff | src/services/githubService.ts:39-41 | the ` language:` segment follows the prefix exactly when the language is present and not empty |
| GithubService.BothSegments | src/services/githubService.ts:38-44 | with both fields set, the query is `q= language:L  created:>=C ` exactly |
| GithubService.CreatedSegmentLast | src/services/githubService.ts:42-44 | the ` created:>=` segment closes the query when `created` is set and is absent otherwise |
| GithubService.QueryLength | src/services/githubService.ts:38-44 | the query is 2 characters long, plus 11 and the language's length when the language is set, plus 12 and `created`'s length when `created` is set |
| GithubService.ItemsOf | src/services/githubService.ts:15 | a successful answer gives its items; a failed call gives its error |
| GithubService.SearchRepositories | src/services/githubService.ts:10-16 | sends exactly the parameters computed from the fields and returns the items of the answer or its error |
| GithubService.PageRequests | src/services/githubService.ts:21-28 | ten requests, for pages 1 to 10 in increasing order, otherwise equal |
| GithubService.Flatten | src/services/githubService.ts:32 | `.flat()`, the pages one after another; stated by `FlattenAround` and `FlattenLength` |
| GithubService.FlattenAround | src/services/githubService.ts:32 | flattening splits around any page into the pages before it, the page itself and the pages after it |
| GithubService.FlattenLength | src/services/githubService.ts:32 | flattening keeps every item: the length is the sum of the page sizes |
| GithubService.PageItems | src/services/githubService.ts:32 | the items of each page, in page order |
| GithubService.CollectPages | src/services/githubService.ts:30-32 | succeeds exactly when every page does, with all items in page order; otherwise fails with the error of the first failing page |
| GithubService.Answers | src/services/githubService.ts:30 | the answers come in request order, one per request |
| GithubService.AggregateRepositories | src/services/githubService.ts:18-33 | sends the ten page requests and returns what `CollectPages` gives for their answers; `params.page` is left at 10 and the other fields are unchanged |
| GithubService.PageOrder | src/services/githubService.ts:32 | each page's items appear unchanged and contiguous, after those of the pages before it |
| GithubService.AggregateSize | src/services/githubService.ts:32 | the aggregated list has as many items as all pages together |
| GithubService.OneFailureFailsAll | src/services/githubService.ts:30 | one failing page fails the whole aggregation |
| Pipeline.ScoreAll | src/controllers/searchController.ts:55-63 | `repositories.map(...)` to name and score; `ScoreAllPointwise` states each entry |
| Pipeline.ScoreAllPointwise | src/controllers/searchController.ts:55-63 | one entry per upstream item, in upstream order, with its full name and its score |
| Pipeline.Classify | src/controllers/searchController.ts:79-87 | a bad request passes through unchanged; anything else becomes an internal server error with the fixed message and the original message in its details |
| Pipeline.ClassifiedStatus | src/controllers/aggregateController.ts:72-80 | what reaches the error middleware has status 400 or 500, and 400 exactly for a bad request |
| Pipeline.FlattenScorable | src/controllers/aggregateController.ts:48-56 | the items of several pages can be scored when each page's items can |
| Pipeline.CollectedScorable | src/controllers/aggregateController.ts:41-56 | what the aggregation collects can be scored when every answer to the requests sent holds items that can be scored |
| Sorting.InsertByScore | src/controllers/searchController.ts:65 | inserting adds exactly the one element |
| Sorting.SortByScoreDesc | src/controllers/searchController.ts:65 | the sorted list is a permutation of the input |
| Sorting.WithScoreCons | src/controllers/searchController.ts:65 | the entries with a given score of a list are those of its first element followed by those of the rest |
| Sorting.InsertSorted | src/controllers/searchController.ts:65 | inserting into a list ordered by non-increasing score keeps it ordered |
| Sorting.SortSorted | src/controllers/searchController.ts:65 | the result is ordered by non-increasing score |
| Sorting.InsertStable | src/controllers/searchController.ts:65 | inserting keeps the new element ahead of the equal-scored elements that followed it |
| Sorting.SortStable | src/controllers/searchController.ts:65 | for every score value, the entries with that score keep their upstream order |
| Sorting.SortIdentityOnSorted | src/controllers/aggregateController.ts:58 | an input that is already ordered comes back unchanged |
| Sorting.SortInPlace | src/controllers/aggregateController.ts:58 | the array ends up in the order `SortByScoreDesc` gives for its old contents |
| SearchRoute.SearchRequest | src/controllers/searchController.ts:36-42 | the parameters of the search call; stated by `SearchRequestFields` |
| SearchRoute.SearchRequests | src/controllers/searchController.ts:26-48 | no request for a bad page, otherwise exactly the one search request |
| SearchRoute.SearchData | src/controllers/searchController.ts:55-69 | the scored items, best first; stated by `SearchDataProperties` and `SearchDataEntries` |
| SearchRoute.SearchOutcome | src/controllers/searchController.ts:23-88 | the route's result; its error cases are stated by `BadPageRejected` and `UpstreamFailureWrapped`, its data by `SearchDataProperties`, and `SearchController` is proved to produce it |
| SearchRoute.SearchController | src/controllers/searchController.ts:16-89 | the outcome is `SearchOutcome`; no request is sent for a bad page, and otherwise exactly the one search request is sent |
| SearchRoute.BadPageRejected | src/controllers/searchController.ts:26-34 | a page that is not a positive number is passed on as a bad request with the fixed message and answered with 400 |
| SearchRoute.SearchRequestFields | src/controllers/searchController.ts:36-42 | the upstream always receives sort by stars, descending, with `language`, `created` and the page as given |
| SearchRoute.SearchDataProperties | src/controllers/searchController.ts:55-65 | the data has one entry per item, is ordered by non-increasing score, is a permutation of the scored items, and keeps ties in upstream order |
| SearchRoute.SearchDataEntries | src/controllers/searchController.ts:55-70 | every entry is some upstream item's name with that item's unscaled score |
| SearchRoute.UpstreamFailureWrapped | src/controllers/searchController.ts:79-87 | a failing upstream call is passed on as an internal server error with the fixed message and the call's message as `originalError` |
| AggregateRoute.AggregateRequests | src/controllers/aggregateController.ts:32-41 | the ten page requests; stated by `AggregateRequestFields` |
| AggregateRoute.AggregateData | src/controllers/aggregateController.ts:48-62 | scored, sorted, rescaled onto [0, 100]; stated by `AggregateDataProperties` |
| AggregateRoute.AggregateOutcome | src/controllers/aggregateController.ts:28-80 | the route's result; its error cases are stated by `BadCreatedRejected` and `UpstreamFailureWrapped`, its data by `AggregateDataProperties`, and `AggregateController` is proved to produce it |
| AggregateRoute.AggregateController | src/controllers/aggregateController.ts:21-82 | the outcome is `AggregateOutcome`; no request is sent for a bad `created`, and otherwise exactly the ten page requests are sent |
| AggregateRoute.BadCreatedRejected | src/controllers/aggregateController.ts:30 | a malformed `created` is passed on as a bad request with the fixed message and answered with 400 and `BAD_REQUEST` |
| AggregateRoute.AggregateRequestFields | src/controllers/aggregateController.ts:32-35 | every upstream request carries the sanitised language, no sort and no order, and request k asks for page k + 1 |
| AggregateRoute.AggregateDataProperties | src/controllers/aggregateController.ts:48-63 | the data has one entry per item, keeps the names in sorted order, is ordered by non-increasing score, and every score lies in [0, 100] |
| AggregateRoute.UpstreamFailureWrapped | src/controllers/aggregateController.ts:72-80 | any failing page is passed on as an internal server error with the fixed message and an `originalError` |

## Left out

- Floating point: numbers are exact reals. IEEE rounding of `*`, `/` and `-` is not modelled, so the unit test that only asks for closeness on [1, 10] is proved with exact equality.
- JsBuiltins.ToFixed: the exponential notation `toFixed` uses from 1e21 upwards is not modelled. The numeral-to-number round trip of `Number(x.toFixed(d))` is taken as exact.
- JsBuiltins.ParseInt: loss of precision for numerals above 2^53 is not modelled; the value is the exact integer.
- The clock and date parsing: `new Date(updated_at)` is the number `updatedAt`, in milliseconds; parsing of ISO date strings is not modelled.
- Scoring.CalculateScore: the source reads the clock (`new Date()`) afresh in every call (src/utils/scoring.ts:25); the model passes one reading `now` to every item of a response, so the clock advancing between items is not modelled.
- Scoring.CalculateScore: requires that the update is not exactly five days in the future. At that point the source divides by zero and yields `Infinity` or `NaN`, which a real cannot represent. The controllers pass this on as the assumption that every answer to a request the route sends holds only such items.
- Scoring.ScoreFavoursRecent: holds for updates less than five days ahead of `now`. It is not strict, because two raw scores can round to the same two decimals. The strict form is `RawScoreFavoursRecent`.
- Scoring.ScaleToInterval: entries are `Repository` values in array slots, not shared objects. The returned array and the caller's array hold equal entries; that each returned entry is the very object the caller's list holds is not represented.
- Scoring.ScaleWithinInterval: stated for whole-number ends only, which are the ends the aggregate route uses. With other ends, rounding to four decimals can step just outside the interval.
- Sorting.SortInPlace: the engine's sort algorithm is not modelled. The method writes the stable descending order, which is what `Array.prototype.sort` guarantees for this comparator. The order is specified by `SortByScoreDesc`.
- GithubService.CollectPages: `Promise.all` rejects with the first rejection in time. The model reports the failing page with the lowest number, because the time at which each call fails is not modelled.
- The network, Octokit, HTTP and `async`/`await`: the GitHub API is the parameter `fetch`. Retries, rate limits and the shape of the HTTP response beyond `items` are not modelled.
- Express: `req`, `res.json` and `next` become the `Query` input and the `Outcome` result. The middleware's `res.status(...).json(...)` is the `ErrorResponse` value.
- Logging (`logger`) and the request id generator: logging has no effect on the results. The request id is a parameter.
- The `error` field of `SearchResponse`: no controller sets it.
- The search route's page check is written inline in the controller, not as a call to `validatePageNumberFormat`. It has the same branches, so the model uses `ValidatePageNumberFormat` for both.
- The search route neither validates `created` nor sanitises `language`, and the model does the same. The integration test expects a 400 for a malformed `created` on that route, which the code does not do. The same test expects `per_page=100`, but the code sends `per_page=1`; the model sends 1.
- The unit test titled "decimal number string" only checks `"1"`. The model states what the code does with `"1.5"`: it accepts it as page 1.
- The query string is modelled as written: it keeps the `q=` prefix and the space-padded segments. The padding and the prefix inside the value of `q` look unintended, but the model does not replace them with a trimmed `language:X created:>=Y` form.
- NotFoundError is modelled but neither route creates one.
- The sanitiser examples are stated with the removed characters written as separate one-character pieces, for example `"python" + [';'] + " DROP TABLE users" + [';'] + ""`. These denote the same strings as the test's literals.
- IsJsWhitespace: the white space of `\s` and of `parseInt` is a fixed list: the ECMAScript white space and line terminators with today's Unicode space separators. Later additions to the Unicode space separators are not tracked.
