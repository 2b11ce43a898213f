# Codeforces explorer: the data-shaping rules, in Dafny

The Codeforces explorer is a browser dashboard over the public Codeforces API.
This project models the rules that turn API answers into what the dashboard
shows, and proves what those rules promise:

- the rating ladder that gives a rating its colour and rank label, and the
  endpoint URLs (`ApiConfig`, from `src/config/api.js`);
- the service layer: what each call makes of the API envelope, the count of
  distinct solved problems, and the split of the contest list into upcoming
  and past contests (`CodeforcesService`, from `src/services/codeforcesService.js`);
- the problem browser, a class whose fields are updated in place: the
  three-stage filter, the reset to page 1, the 20-per-page slicing with
  Previous/Next, the sorted tag vocabulary, and the difficulty colours
  (`ProblemExplorer`, from `src/components/ProblemExplorer.jsx`);
- the contest countdown and duration text (`ContestInfo`, from
  `src/components/ContestInfo.jsx`), with the clock passed in as `now`;
- the rating series, its summary figures and the tooltip change
  (`RatingChart`, from `src/components/RatingChart.jsx`);
- the two-user comparison: highlights, defaults, the winner, and handle
  validation (`UserComparison`, from `src/components/UserComparison.jsx`).

The JavaScript behaviour these rules rely on is modelled in four helper
modules. `JsString` covers `trim`, `toLowerCase`, `includes` and the default
`sort` order. `JsNumber` covers `String(n)`, `parseInt`, `%` and `Math.floor`
of a quotient. `JsArray` covers `filter`, `sort` with a numeric comparator,
and `slice`. `Wrappers` holds `Option` and `Outcome`; an `Outcome` is a
returned value or a raised error with its message.

An API answer is an `Envelope`. It is one of three things: a body whose
`status` is "OK", a body with any other status, or an HTTP or network failure
whose response body may carry a `comment`. The component handlers take the
envelopes of their requests as parameters.

## Model

| member | source | states |
|---|---|---|
| ApiConfig.BaseUrl | src/config/api.js:9 | a non-empty configured base URL wins; otherwise the default is used |
| ApiConfig.UserInfoUrl | src/config/api.js:16 | the URL is the base followed by `/user.info?handles=` and the handle as given |
| ApiConfig.UserRatingUrl | src/config/api.js:17 | the URL is the base followed by `/user.rating?handle=` and the handle as given |
| ApiConfig.UserStatusUrl | src/config/api.js:18 | the URL is the base followed by `/user.status?handle=`, the handle, and the paging query |
| ApiConfig.PagingQuery | src/config/api.js:18 | the paging query starts with `&from=` |
| ApiConfig.PagingQueryReadsBack | src/config/api.js:18 | `parseInt` reads the `from` value (1 when omitted) back after `&from=`, and the `count` value (100 when omitted) after the `&count=` that follows it |
| ApiConfig.StatusHandleRoundTrip | src/config/api.js:18 | a handle without `&` is read back unchanged from its `user.status` URL, whatever `from` and `count` are |
| ApiConfig.StatusDefaults | src/config/api.js:18 | omitted `from` and `count` mean 1 and 100 |
| ApiConfig.ContestListUrl | src/config/api.js:21 | the URL is the base followed by `/contest.list` |
| ApiConfig.ProblemsetProblemsUrl | src/config/api.js:24 | the URL is the base followed by `/problemset.problems` |
| ApiConfig.EndpointsDistinct | src/config/api.js:16-24 | no two endpoints ever build the same URL |
| ApiConfig.GetColor | src/config/api.js:31-42 | every rating gets one of the seven ladder colours |
| ApiConfig.GetRank | src/config/api.js:43-54 | every rating gets one of the ten rank labels |
| ApiConfig.Tier | src/config/api.js:32-52 | the tier is the number of ladder floors the rating reaches |
| ApiConfig.LadderAgrees | src/config/api.js:31-54 | both if-ladders agree with the ladder table: the rank and colour of the highest rung reached |
| ApiConfig.ColorFollowsRank | src/config/api.js:32-37 | the colour is a function of the rank, so ranks that share a colour share it for every rating |
| ApiConfig.BelowPupil | src/config/api.js:41 | every rating below 1200, including 0 and negatives, is grey and "Newbie" |
| ApiConfig.BandsIncludeFloor | src/config/api.js:32-52 | each rung includes its floor, and one point below the floor gives the rung below |
| ApiConfig.RankMonotone | src/config/api.js:43-54 | a higher rating never gets a lower rank |
| CodeforcesService.GetUserInfo | src/services/codeforcesService.js:16-26 | "OK" returns the first profile, or nothing when the result is empty; a non-OK status raises "Failed to fetch user info", never "User not found"; a failure raises its non-empty comment, or that fixed message |
| CodeforcesService.GetUserRating | src/services/codeforcesService.js:33-44 | never raises; "OK" gives the history, anything else gives an empty list |
| CodeforcesService.GetProblems | src/services/codeforcesService.js:107-117 | "OK" gives the problem list; anything else raises "Failed to fetch problems" |
| CodeforcesService.SubmissionsUrl | src/services/codeforcesService.js:53 | the submissions request is the base, `/user.status?handle=`, the handle and `&from=1&count=10000`; a handle without `&` is read back from it |
| CodeforcesService.GetUserSubmissions | src/services/codeforcesService.js:51-72 | never raises; "OK" gives the number of distinct problems with an accepted submission, anything else gives 0 |
| CodeforcesService.ProblemKeyInjective | src/services/codeforcesService.js:62 | the key text `contestId-index` determines both the contest id and the index |
| CodeforcesService.SolvedCount | src/services/codeforcesService.js:56-65 | the size of the key set is the number of distinct (contestId, index) pairs among submissions with verdict "OK" |
| CodeforcesService.KeysCountProblems | src/services/codeforcesService.js:56-65 | the size of the key set equals the number of distinct (contestId, index) pairs among submissions with verdict "OK" |
| CodeforcesService.SolvedKeysMembers | src/services/codeforcesService.js:56-63 | a key is in the set exactly when some accepted submission has it |
| CodeforcesService.SolvedNone | src/services/codeforcesService.js:56-65 | no submissions give a count of 0 |
| CodeforcesService.SolvedIgnoresRejected | src/services/codeforcesService.js:56-58 | a submission that is not accepted never changes the count |
| CodeforcesService.SolvedAddsNewProblem | src/services/codeforcesService.js:61-65 | an accepted submission adds one exactly when its problem had no accepted submission before |
| CodeforcesService.SolvedAtMostAccepted | src/services/codeforcesService.js:56-65 | the count never exceeds the number of accepted submissions |
| CodeforcesService.SolvedIgnoresOrder | src/services/codeforcesService.js:56-65 | reordering the submissions leaves the count unchanged |
| CodeforcesService.GetContests | src/services/codeforcesService.js:78-101 | "OK" gives the upcoming and past lists; anything else raises "Failed to fetch contests" |
| CodeforcesService.Upcoming | src/services/codeforcesService.js:86-88 | upcoming is a permutation of exactly the BEFORE contests, sorted by ascending start time |
| CodeforcesService.Past | src/services/codeforcesService.js:90-93 | past holds FINISHED contests only, each at most as often as it occurs, latest first; its length is min(20, number of FINISHED contests) |
| CodeforcesService.PastKeepsLatest | src/services/codeforcesService.js:90-93 | a finished contest left out started no later than every contest kept |
| CodeforcesService.ListsDisjoint | src/services/codeforcesService.js:86-93 | no contest is in both lists, and contests in other phases are in neither |
| JsArray.FilterIsSubsequence | src/components/ProblemExplorer.jsx:73-89 | `filter` keeps the surviving elements in their original order |
| JsArray.FilterConjunction | src/components/ProblemExplorer.jsx:72-90 | filtering by one test and then another equals filtering once by both tests |
| JsArray.SortBySorted | src/services/codeforcesService.js:88 | sorting with a numeric comparator gives a list ordered by the key |
| JsArray.SortBy | src/services/codeforcesService.js:88 | the sort is a permutation of its input |
| JsArray.Slice | src/components/ProblemExplorer.jsx:108 | `slice` never lengthens the list; within bounds it takes exactly that range, and an end past the length stops at the end |
| JsString.Trim | src/components/RatingChart.jsx:26 | the trimmed text is the input with only whitespace cut from both ends; it is empty exactly when the input is all whitespace, and otherwise neither starts nor ends with whitespace |
| JsString.SortDistinctIsStrict | src/components/ProblemExplorer.jsx:57 | sorting strings without duplicates gives a strictly increasing list |
| JsNumber.ParseIntToString | src/components/ProblemExplorer.jsx:88 | `parseInt` reads back every number `String` writes, whatever non-numeral text follows |
| JsNumber.IntToStringInjective | src/services/codeforcesService.js:62 | different numbers are written differently |
| ProblemExplorer.Filtered | src/components/ProblemExplorer.jsx:68-92 | a problem is listed exactly when it matches the search term, the tag and the rating |
| ProblemExplorer.FilteredIsSubsequence | src/components/ProblemExplorer.jsx:68-92 | the filtered list is an order-preserving subsequence of the problem set |
| ProblemExplorer.NoFilterKeepsAll | src/components/ProblemExplorer.jsx:72-90 | with no filter set every problem is listed |
| ProblemExplorer.FilteredIdempotent | src/components/ProblemExplorer.jsx:68-92 | filtering the filtered list again with the same filters changes nothing |
| ProblemExplorer.StagesComposeToFiltered | src/components/ProblemExplorer.jsx:69-90 | the three filter stages, each skipped when empty, list the same problems as the single-pass filter |
| ProblemExplorer.PageCount | src/components/ProblemExplorer.jsx:109 | the page count is the ceiling of n / 20 |
| ProblemExplorer.PageOf | src/components/ProblemExplorer.jsx:106-108 | a page holds at most 20 problems, and a full page is exactly its range of the list |
| ProblemExplorer.ItemOnItsPage | src/components/ProblemExplorer.jsx:106-109 | every problem appears on an existing page, at its position within that page |
| ProblemExplorer.PageSizes | src/components/ProblemExplorer.jsx:106-109 | every page but the last is full, and the last holds what is left |
| ProblemExplorer.RatingColorClass | src/components/ProblemExplorer.jsx:114-121 | the colour is grey exactly for an absent or 0 rating, green exactly for any other rating below 1200 (negatives included), and always one of the six difficulty colours |
| ProblemExplorer.RatingColorMonotone | src/components/ProblemExplorer.jsx:116-120 | among rated problems a harder one never gets an easier colour |
| ProblemExplorer.RatingColorThresholds | src/components/ProblemExplorer.jsx:116-119 | 1200, 1600, 2000 and 2400 each open the next colour |
| ProblemExplorer.ProblemExplorer.constructor | src/components/ProblemExplorer.jsx:15-27 | the initial state is empty, with no filters and page 1 |
| ProblemExplorer.ProblemExplorer.FetchProblems | src/components/ProblemExplorer.jsx:44-63 | on success the problems are stored and the tag list is strictly sorted and holds exactly the tags of the problems, then the filters rerun; on failure only the error is set |
| ProblemExplorer.CollectTags | src/components/ProblemExplorer.jsx:53-56 | the collected tags have no duplicates and are exactly the tags of some problem |
| ProblemExplorer.ProblemExplorer.ApplyFilters | src/components/ProblemExplorer.jsx:68-94 | the listed problems become the filtered problem set and the page becomes 1 |
| ProblemExplorer.ProblemExplorer.SetSearchTerm | src/components/ProblemExplorer.jsx:40-42 | a changed term reruns the filters and returns to page 1; an unchanged term changes nothing |
| ProblemExplorer.ProblemExplorer.SetSelectedTag | src/components/ProblemExplorer.jsx:40-42 | a changed tag reruns the filters and returns to page 1; an unchanged tag changes nothing |
| ProblemExplorer.ProblemExplorer.SetSelectedRating | src/components/ProblemExplorer.jsx:40-42 | a changed rating reruns the filters and returns to page 1; an unchanged rating changes nothing |
| ProblemExplorer.ProblemExplorer.ClearFilters | src/components/ProblemExplorer.jsx:99-103 | all filters are emptied and the whole problem set is listed |
| ProblemExplorer.ProblemExplorer.PreviousPage | src/components/ProblemExplorer.jsx:292 | the page becomes max(1, p - 1) and stays within 1..totalPages |
| ProblemExplorer.ProblemExplorer.NextPage | src/components/ProblemExplorer.jsx:306 | the page becomes min(totalPages, p + 1) and stays within 1..totalPages |
| ProblemExplorer.ProblemExplorer.CurrentProblems | src/components/ProblemExplorer.jsx:108 | at most 20 problems are on display |
| ContestInfo.DurationParts | src/components/ContestInfo.jsx:58-60 | for a non-negative duration the minutes are below 60 and h*3600 + m*60 <= s < h*3600 + m*60 + 60 |
| ContestInfo.FormatDuration | src/components/ContestInfo.jsx:58-62 | the text is `HoursMinutes` of the hours and minutes of `DurationParts`, that is "{h}h {m}m"; `parseInt` reads both numbers back |
| ContestInfo.HoursMinutes | src/components/ContestInfo.jsx:61 | the text is the hours, "h ", the minutes and "m" |
| ContestInfo.HoursReadBack | src/components/ContestInfo.jsx:61 | the first number of "{h}h {m}m" reads back with `parseInt` |
| ContestInfo.MinutesReadBack | src/components/ContestInfo.jsx:61 | the number after "h " reads back with `parseInt` |
| ContestInfo.DurationEdges | src/components/ContestInfo.jsx:58-62 | whole hours show 0 minutes, and one second short of the next hour shows 59 minutes |
| ContestInfo.CountdownOf | src/components/ContestInfo.jsx:67-80 | the contest has started exactly when its start is before `now`; otherwise the days, hours and minutes are in range and bound the time left |
| ContestInfo.Render | src/components/ContestInfo.jsx:71-79 | the text is "Started" exactly for a started countdown, and otherwise "in " followed by the units |
| ContestInfo.RenderUnits | src/components/ContestInfo.jsx:77-79 | the leading number and its unit letter (d, h or m); for days and hours, a space, the second number and its unit letter (h or m) |
| ContestInfo.TimeUntil | src/components/ContestInfo.jsx:67-80 | the text is "Started" exactly when the start is before `now`, and otherwise "in " and the units of `CountdownOf` |
| ContestInfo.StartingNow | src/components/ContestInfo.jsx:71-79 | a contest starting this second shows "in 0m" |
| ContestInfo.CountdownLeadingNumber | src/components/ContestInfo.jsx:77-79 | the leading number of the countdown reads back with `parseInt` as the days, hours or minutes it leads with |
| ContestInfo.CountdownTrailingNumber | src/components/ContestInfo.jsx:77-78 | in a countdown in days or in hours, the second number reads back with `parseInt` as the hours or minutes |
| RatingChart.ChartData | src/components/RatingChart.jsx:44-52 | one point per rating change, in order, numbered from 1, with the change's fields copied |
| RatingChart.MaxRating | src/components/RatingChart.jsx:112 | the maximum is reached by some point and bounds every point |
| RatingChart.MinRating | src/components/RatingChart.jsx:113 | the minimum is reached by some point and bounds every point |
| RatingChart.GetStats | src/components/RatingChart.jsx:108-117 | nothing for an empty series; otherwise the last rating, the count, min <= current <= max, and the total change since before the first contest |
| RatingChart.TotalChangeIsSumOfChanges | src/components/RatingChart.jsx:114 | on a chained history the total change is the sum of the per-contest changes |
| RatingChart.StatsOfHistory | src/components/RatingChart.jsx:44-52 | the figures of a history's series, stated in terms of the history |
| RatingChart.ChangeClass | src/components/RatingChart.jsx:90 | the change is green exactly when the rating did not drop |
| RatingChart.ChangeText | src/components/RatingChart.jsx:91 | the tooltip change reads back as the change with `parseInt` and always carries a sign |
| RatingChart.SignedTextReadsBack | src/components/RatingChart.jsx:91 | every change is written with a sign and reads back with `parseInt` |
| RatingChart.GainReadsBack | src/components/RatingChart.jsx:91 | a non-negative change is written with "+" and reads back |
| RatingChart.LossReadsBack | src/components/RatingChart.jsx:91 | a negative change is written with "-" and reads back |
| RatingChart.RequestedHandle | src/components/RatingChart.jsx:26 | nothing is requested exactly for a blank handle; otherwise the trimmed handle is requested |
| RatingChart.HandleFetchRating | src/components/RatingChart.jsx:25-60 | a blank handle only sets "Please enter a valid handle"; an empty history clears the chart with "No rating history found for this user"; otherwise the chart shows the series with no error |
| RatingChart.FailedFetchLooksEmpty | src/components/RatingChart.jsx:36-41 | a failed request for a real handle shows the no-history message |
| UserComparison.BetterStyle | src/components/UserComparison.jsx:58-62 | no highlight for equal values; otherwise highlighted exactly when v1 > v2, or v1 < v2 when lower is better |
| UserComparison.HighlightOneCard | src/components/UserComparison.jsx:71-84 | at most one of a metric's two cards is highlighted, and swapping the users swaps which one |
| UserComparison.OrZero | src/components/UserComparison.jsx:187-213 | an absent metric is shown as 0 |
| UserComparison.MaxRatingColor | src/components/UserComparison.jsx:194-201 | a user without a max rating gets the Newbie grey; otherwise `getColor` of the max rating; either way the ladder colour of the defaulted max rating's tier |
| UserComparison.MissingMetricCountsAsZero | src/components/UserComparison.jsx:194-215 | a missing max rating or contribution is compared as 0: highlighted exactly against a negative value |
| UserComparison.RatingColor | src/components/UserComparison.jsx:190 | a user without a rating gets the Newbie grey; a rated user gets `getColor` of the rating; either way it is the ladder colour of the defaulted rating's tier |
| UserComparison.StatText | src/components/UserComparison.jsx:78 | "N/A" is shown exactly for 0; any other value reads back with `parseInt` |
| UserComparison.DisplayName | src/components/UserComparison.jsx:167-169 | "first last" when both names are non-empty, the handle otherwise |
| UserComparison.CardOf | src/components/UserComparison.jsx:46-47 | the card carries the solved count unchanged; a missing profile leaves an empty handle and a rating of 0 |
| UserComparison.WinnerOf | src/components/UserComparison.jsx:223-227 | the first user wins exactly when their current rating is higher, the second likewise, and otherwise it is a tie |
| UserComparison.WinnerText | src/components/UserComparison.jsx:223-227 | the handle of the user whose rating card is highlighted, and "It's a tie!" for equal ratings |
| UserComparison.WinnerSymmetric | src/components/UserComparison.jsx:223-227 | swapping the users swaps the verdict and announces the same handle |
| UserComparison.WinnerHasHighlightedRating | src/components/UserComparison.jsx:186-227 | the winner is the user whose current-rating card is highlighted |
| UserComparison.HandleCompare | src/components/UserComparison.jsx:26-53 | a blank handle only sets "Please enter both handles"; otherwise both cards are shown exactly when both profile requests returned, and the error is empty exactly then; the cards are the first and the second profile, each with its own solved count |
| UserComparison.Loaded | src/components/UserComparison.jsx:39-50 | the first failed profile request decides the error and no card is shown; otherwise both cards are shown with no error |
| UserComparison.ErrorText | src/components/UserComparison.jsx:49 | the error line is never empty; a non-empty message is shown as it is, an empty one as the generic failure text |
| UserComparison.CompareShowsServiceMessage | src/components/UserComparison.jsx:39-49 | a failed profile request shows that request's own message, the first one's when both fail, so the generic fallback is never chosen |

## Left out

- HTTP requests, the loading flags and console logging are left out. Each request is replaced by the `Envelope` it returns.
- The environment variable behind the base URL is a parameter of `ApiConfig.BaseUrl`. The endpoint builders take the base as an argument.
- `Date.now` is a parameter (`now`, in whole seconds). The unused `now` in `getContests` is not modelled.
- Locale date formatting (`toLocaleDateString`) is left out, so a chart point has no date and contests have no formatted start time.
- React rendering, animation, icons and chart drawing are left out. The effect that reruns the filters is modelled as a call to `ApplyFilters` after each change of the problems or of a filter value.
- `Promise.all` is left out. The four requests of a comparison are parameters, and when both profile requests fail the first one's message is shown. Which rejection comes first in time, and stale responses overwriting newer ones, are not modelled.
- The components `UserInfo.jsx` and `App.jsx` are not part of this model.
- `ContestInfo`'s fetch handler and tab switch are not modelled; only its duration and countdown arithmetic are.
- JsString.ToLower: lower-cases ASCII letters only, because Unicode case mapping is not modelled.
- JsString.StrLess: compares characters as Dafny `char` values. This is code-unit order except for text outside the Basic Multilingual Plane.
- ProblemExplorer.PageCount: is integer ceiling division. It stands for the floating-point `Math.ceil(n / 20)`, which gives the same value for every list length.
- ProblemExplorer.ProblemExplorer.PreviousPage: requires more than one page, because the buttons are only rendered then. The disabled state of the buttons is not modelled; at the ends the clamping leaves the page unchanged anyway.
- ProblemExplorer.ProblemExplorer.NextPage: requires more than one page, for the same reason.
- A contest's `phase` is the text the API sends; only "BEFORE" and "FINISHED" are singled out, as in the source.
- Absent `tags` are modelled as an empty tag list. Both skip the tag collection and fail the tag filter. Absent `rating` is `None`.
- Numbers are unbounded integers. `NaN`, fractions and values beyond 2^53 are not modelled, nor is the comparator's behaviour on a missing `startTimeSeconds`.
- JsArray.SortBy: is stable, like the engine's `sort`. Its contract states ordering and permutation but not stability.
- A missing profile in a comparison gets an empty handle. In the source the handle is `undefined`, which renders as nothing.
- `Math.max(...xs)` over very long arrays can exceed the engine's argument limit. This is not modelled.
- The 'Failed to fetch rating history' branch of `handleFetchRating` is not modelled, because `getUserRating` never raises.
