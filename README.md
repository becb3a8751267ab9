# TicVision: confirmation handshake and tic-history screen, in Dafny

TicVision is a doctor–patient portal. A doctor invites a patient by e-mail.
The patient follows a confirmation link and signs in. From then on the doctor
sees the patient's recorded tics (time of day, date, location, intensity) as
a table, a chart and a CSV file. This project models two parts of it and
proves what they do.

**The confirmation handshake.** It has three steps:

- `generatePatientConfirmation` (functions/index.js) looks up the patient by
  e-mail, builds the confirmation link and stores a pending request.
- `confirmPatientRequest` (functions/index.js) finds the pair's unconfirmed
  request, gives it a fresh token and redirects to the login page with that
  token.
- The login page (src/User-Login.js) signs the patient in by password or by
  Google. With a token it writes the link document
  `doctors/{doctorId}/patients/{patientId}` and marks the request confirmed.

The document store is the class `Store.Database`. Its three collections are
map fields, and the handlers update them in place:

- `users`;
- `pending_requests`;
- the doctor–patient links.

Each handler is a module-level method that takes the `Database` and modifies
it. The two server handlers and the login page's `confirmPatientRequest` are
proved equal to ghost specification functions of the old collections
(`Generate`, `Redeem`, `ConfirmByToken`), and the properties are lemmas about
those functions. The two sign-in handlers, `handleLogin` and
`handleGoogleSignIn`, state their effect directly: on failure the provider's
message and no change, on success `FollowedToken`, which is `ConfirmByToken`
when the page holds a token and the success page otherwise. Every
handler keeps the invariant `Database.Valid()`:

- a token finds at most one request, so the login page's first match is the
  request the token was issued to (`Store.TokenFindsOne`);
- only a request that holds a token is confirmed;
- every confirmed request has its link document.

Every handler also only moves a request forward: pending, then token issued,
then confirmed (`Store.Advanced`). The whole flow is proved end to end in
`Workflow.Handshake`. That lemma also proves that the ids and the token read
back from the two URLs are the ones written into them, for ids and tokens
without `&`, `#`, `%`, `+` or `]` (`Urls.UrlSafe`).

A query's "first document" (`docs[0]`) is the least matching document id.
Ids are compared character by character (`DocIds`), which is the store's
default order.

**The tic-history screen (src/TicData.js).** Its pure computations are
functions:

- the table filter and its date sort (`TicFilters`);
- the distinct locations;
- the state updates behind the sort, reset, location and chart-mode buttons.

Its loops are methods with invariants, proved against specification
functions:

- the chart's grouping into sum and count buckets, and the rows built from
  them (`TicChart.ProcessChartData`);
- the Google Chart matrix;
- the y-axis maximum;
- the CSV export (`TicExport.ExportToCsv`).

JavaScript's `filter`, stable `sort` and `Array.from(new Set(...))` are
modelled once, in `Seqs`, and proved there:

- filtering counts;
- sorting is a permutation, ordered and stable;
- de-duplication keeps first-occurrence order.

**Four behaviours of the code matter for the handshake.**

- Redeeming a link whose request already holds a token is not refused. The
  code queries only `confirmed == false`, so the request gets a new token and
  the old one stops working (`Functions.RedeemTwice`).
- A token keeps working after confirmation. The code neither clears it nor
  checks `confirmed`, so confirming again rewrites the link document with a
  new time (`UserLogin.ConfirmTwice`).
- The login page does not check that the signed-in user is the invited
  patient.
- An unknown token shows no error: the page stays where it is.

## Model

| member | source | states |
|---|---|---|
| Store.UsersWithEmail | functions/index.js:28 | the users whose `email` equals the given one; its use is stated by `Functions.GenerateErrors` and `GenerateSuccess` |
| Store.PendingFor | functions/index.js:92-97 | the requests of the pair with `confirmed == false`; what each write does to it is stated by `AddRequestPending`, `SetTokenPending` and `MarkConfirmedPending` |
| Store.WithToken | src/User-Login.js:76-77 | the requests whose `token` equals the given one; stated by `SetTokenLookup`, `MarkConfirmedTokens` and `TokenFindsOne` |
| Store.AddRequest | functions/index.js:43-49 | `pending_requests.add` under the new id; stated by `AddRequestInserts` |
| Store.SetToken | functions/index.js:108-110 | `update({token})` on one request; stated by `SetTokenChangesOnlyToken` |
| Store.MarkConfirmed | src/User-Login.js:94 | `updateDoc({confirmed: true})` on one request; stated by `MarkConfirmedChangesOnlyConfirmed` |
| Urls.ConfirmationLink | functions/index.js:39 | the confirmation endpoint with the two ids as query; read back by `ConfirmationLinkParams` |
| Urls.LoginRedirect | functions/index.js:115 | the login page with `token=` as query; read back by `LoginRedirectToken` |
| Urls.QueryParam | src/User-Login.js:18-19 | `URLSearchParams.get`: the value of the first pair with that name, and "" for a bare name without `=`; no percent-decoding |
| Functions.Generate | functions/index.js:19-69 | the answer and the new `pending_requests` of the generating handler; stated by `GenerateErrors` and `GenerateSuccess` |
| Functions.Redeem | functions/index.js:85-115 | the answer and the new `pending_requests` of the redeeming handler; stated by `RedeemErrors` and `RedeemSuccess` |
| UserLogin.ConfirmByToken | src/User-Login.js:76-97 | the requests, links and navigation after the page's confirmation; stated by `ConfirmUnknownToken` and `ConfirmKnownToken` |
| DocIds.Least | functions/index.js:34-35 | the first document of a non-empty query result is a member that every other member's id follows |
| DocIds.First | functions/index.js:105 | one pass over a non-empty result finds the least id: a member below every other, and the same one `Least` names |
| DocIds.LeastUnique | functions/index.js:34 | a result has only one first document |
| DocIds.LeastSingleton | functions/index.js:105 | a query with one match returns that match first |
| Urls.ConfirmationLinkParams | functions/index.js:85 | the server reads back from the confirmation link built at line 39 exactly the doctor and patient ids it was built from, when they contain no `&`, `#`, `%`, `+` or `]` |
| Urls.LoginRedirectToken | src/User-Login.js:18-19 | the login page reads back from the redirect of functions/index.js:115 exactly the token the server issued |
| Urls.ConfirmationQueryPairs | functions/index.js:39 | the confirmation query splits into the pair `doctorId=…` and the pair `patientId=…` |
| Urls.FindParamBare | src/User-Login.js:18-19 | a bare `name` without `=` reads as the empty value, and it hides any later `name=value` pair |
| Text.SplitJoin | src/TicData.js:343-355 | splitting a joined list on the separator gives the list back when no part holds the separator |
| Text.Split | src/User-Login.js:18 | splitting yields at least one piece and no piece holds the separator |
| Text.JoinSplit | src/User-Login.js:18 | joining the pieces of a split with the separator gives the string back |
| Store.AddRequestInserts | functions/index.js:43-49 | adding a request inserts exactly one new document and changes no other |
| Store.AddRequestPending | functions/index.js:43-49 | the new request joins the unconfirmed query of its own pair and no other; an existing invitation for the pair is not refused |
| Store.AddRequestKeeps | functions/index.js:43-49 | a token-less, unconfirmed new request changes no token query, keeps the invariant and moves nothing back |
| Store.SetTokenChangesOnlyToken | functions/index.js:108-110 | issuing a token changes the `token` field of one document and nothing else |
| Store.SetTokenPending | functions/index.js:92-110 | issuing a token leaves the request unconfirmed, so the pair's query finds the same requests afterwards |
| Store.SetTokenLookup | functions/index.js:104-110 | a fresh token finds exactly the request it was stored on; any earlier token of that request finds it no longer |
| Store.SetTokenKeeps | functions/index.js:104-110 | issuing a fresh token keeps the store invariant and only moves the request forward |
| Store.ReissuedToken | functions/index.js:104-110 | issuing twice to the same request leaves only the second token valid |
| Store.MarkConfirmedChangesOnlyConfirmed | src/User-Login.js:94 | confirming sets `confirmed` on one document and changes nothing else |
| Store.MarkConfirmedPending | src/User-Login.js:94 | confirming removes that request, and only it, from its pair's unconfirmed query |
| Store.MarkConfirmedTokens | src/User-Login.js:94 | confirming does not clear the token: every token query finds what it found before |
| Store.ConfirmKeeps | src/User-Login.js:88-94 | writing the pair's link document, then confirming a request that holds a token, keeps the invariant and moves nothing back |
| Store.TokenFindsOne | src/User-Login.js:76-84 | under the invariant a token query finds at most one request, so its first document is its only one |
| Store.Database.constructor | functions/index.js:5-6 | the store starts with empty collections and satisfies its invariant |
| Functions.GenerateErrors | functions/index.js:19-32 | a missing or empty `doctorId` or `patientEmail` answers 400 and an unknown e-mail answers 404, both with the store unchanged; a known e-mail adds a new request |
| Functions.GenerateSuccess | functions/index.js:34-69 | on success one unconfirmed, token-less request for the doctor and the first user with that e-mail is added, the rest unchanged; the link names both ids and the e-mail template carries that link |
| Functions.GeneratePatientConfirmation | functions/index.js:12-77 | the handler answers and updates `pending_requests` as `Generate` says, leaves users and links alone, and keeps the invariant |
| Functions.RedeemErrors | functions/index.js:85-101 | missing ids answer 400 "Invalid confirmation link." and a pair with no unconfirmed request answers 400 "Request not found or already confirmed.", both with the store unchanged; otherwise the token query changes and the patient is redirected |
| Functions.RedeemSuccess | functions/index.js:103-115 | on a match the first unconfirmed request of the pair gets the token, which finds it alone; the pair's query is unchanged and the redirect goes to the login page with `token=` |
| Functions.ConfirmPatientRequest | functions/index.js:80-122 | the handler answers and updates `pending_requests` as `Redeem` says, leaves users and links alone, and keeps the invariant |
| Functions.RedeemTwice | functions/index.js:92-110 | following the same link twice gives the same request two tokens; only the second still finds it |
| UserLogin.ConfirmUnknownToken | src/User-Login.js:76-82 | the page stays exactly when no request holds the token, and then nothing is written |
| UserLogin.ConfirmKnownToken | src/User-Login.js:84-97 | a found token writes the pair's link with the confirmation time and confirms that request, other fields and requests unchanged; it leaves the pair's unconfirmed query, the token still finds it, and the page goes to `/success` |
| UserLogin.ConfirmPatientRequest | src/User-Login.js:73-101 | the client-side confirmation updates requests and links as `ConfirmByToken` says, leaves users alone and keeps the invariant |
| UserLogin.HandleLogin | src/User-Login.js:22-39 | a failed sign-in shows the error and writes nothing; a successful one clears the error, then confirms with the page's token or goes to `/success` |
| UserLogin.HandleGoogleSignIn | src/User-Login.js:42-70 | a failed sign-in shows the error and writes nothing; a successful one creates the user document only for a new uid, then confirms with the token or goes to `/success` |
| UserLogin.ConfirmTwice | src/User-Login.js:76-94 | confirming with the same token again still succeeds: the requests are as after the first run and only the link's time changes |
| Workflow.GenerateForNewPair | functions/index.js:28-49 | for a pair with no open invitation, generation leaves exactly the new request unconfirmed for the pair |
| Workflow.RedeemOnlyPending | functions/index.js:92-115 | redeeming the link of a pair with one unconfirmed request issues the token to that request and redirects with it |
| Workflow.ConfirmOnlyPending | src/User-Login.js:76-97 | confirming that request's token links the pair and leaves nothing unconfirmed for it |
| Workflow.Handshake | functions/index.js:28-115 | from invitation to confirmation through the two URLs: the request ends confirmed with the issued token, the link document exists, nothing is left unconfirmed for the pair, and following the link again is refused with 400 |
| TicFilters.FilteredData | src/TicData.js:103-152 | the table: the time filter, the location filter, then the date sort; stated by `FilteredCounts`, `FilteredSorted` and `FilteredStable` |
| TicFilters.UniqueLocations | src/TicData.js:155-157 | the history's locations de-duplicated; stated by `UniqueLocationsSpec` and `UniqueLocationsOrder` |
| TicFilters.ToggledLocations | src/TicData.js:175-179 | drop every copy of a selected location, or append an unselected one; stated by `ToggleMembers`, `ToggleTwice` and `ToggleKeepsNoDup` |
| TicFilters.ToggleLocation | src/TicData.js:174-180 | the view with its location list toggled and nothing else changed |
| TicFilters.ToggleSort | src/TicData.js:160-163 | the view with the other sort direction; stated by `ToggleSortTwice` |
| TicFilters.ResetFilters | src/TicData.js:166-171 | the view with "all", no date, no location and "desc"; stated by `ResetShowsAll` |
| TicFilters.PrevMode | src/TicData.js:196-198 | the previous chart mode, wrapping round; stated by `ModeArrows` and `ModeCycle` |
| TicFilters.NextMode | src/TicData.js:200-202 | the next chart mode, wrapping round; stated by `ModeArrows` and `ModeCycle` |
| TicChart.Value | src/TicData.js:222-234 | a bucket's average, total or count for the chart mode; bounded by `AverageWithinAxis` |
| TicChart.AllLocationsInChart | src/TicData.js:260-268 | the rows' locations de-duplicated; stated by `AllLocationsSpec` and `AllLocationsOrder` |
| TicChart.ChartMax | src/TicData.js:321 | 10 for averages, otherwise the larger of the maximum plus 5 and 5; stated by `AxisAboveData` and `AverageWithinAxis` |
| TicExport.CsvLine | src/TicData.js:347-353 | a tic's four cells joined by commas; stated by `CsvLineFields` |
| TicExport.CsvLines | src/TicData.js:342-354 | the header line, then one line per tic; stated by `CsvLinesShape` |
| Seqs.FilterCounts | src/TicData.js:109-141 | `filter` keeps every copy of a passing element and drops every copy of a failing one |
| Seqs.FilterMembers | src/TicData.js:177 | an element survives `filter` exactly when it was there and passes |
| Seqs.FilterCompose | src/TicData.js:134-141 | two filters in a row equal one filter by their conjunction |
| Seqs.SortByPermutes | src/TicData.js:145-149 | `sort` keeps the same elements, each as often |
| Seqs.SortBySorted | src/TicData.js:145-149 | the sorted copy is ordered by the comparator's key |
| Seqs.SortByStable | src/TicData.js:145-149 | the sort is stable: the elements of one key keep their order |
| Seqs.SortByDistinct | src/TicData.js:240-250 | sorting keeps apart elements that had different keys |
| Seqs.DedupSpec | src/TicData.js:156 | `Array.from(new Set(s))` holds each value of `s` once and nothing else |
| Seqs.DedupOrder | src/TicData.js:156 | the distinct values come in the order of their first occurrence |
| TicFilters.TimeFilteredCounts | src/TicData.js:107-137 | the time step keeps all copies of the tics its range or chosen day accepts; an empty date picker keeps all |
| TicFilters.FilteredCounts | src/TicData.js:103-152 | the table shows every copy of each tic passing both filters and nothing else |
| TicFilters.FilteredSubset | src/TicData.js:139-142 | the table is a sub-multiset of the history; a location filter shows only its locations |
| TicFilters.AllIsPermutation | src/TicData.js:127-129 | "all" with no location selected shows the whole history, reordered |
| TicFilters.WindowKeeps | src/TicData.js:114-124 | the last-week, 3-month and 6-month ranges keep exactly the tics at most 7, 90 or 180 days old |
| TicFilters.FilteredSorted | src/TicData.js:144-149 | the table is newest first when descending and oldest first when ascending |
| TicFilters.FilteredBeforeSort | src/TicData.js:105-142 | before the sort the two filters keep the shown tics in history order |
| TicFilters.FilteredStable | src/TicData.js:145-149 | the tics of one date appear in the table in their history order |
| TicFilters.UniqueLocationsSpec | src/TicData.js:155-157 | each location of the history is listed once, and nothing else |
| TicFilters.UniqueLocationsOrder | src/TicData.js:155-157 | locations are listed in the order of each one's first tic |
| TicFilters.ToggleMembers | src/TicData.js:174-180 | toggling flips the location's membership and leaves every other location as it was |
| TicFilters.ToggleTwice | src/TicData.js:174-180 | toggling twice restores the set of locations, and restores the list when the location was absent |
| TicFilters.ToggleKeepsNoDup | src/TicData.js:174-180 | toggling never makes a location appear twice |
| TicFilters.ToggleSortTwice | src/TicData.js:160-163 | the sort button flips the direction, and pressing it twice restores the state |
| TicFilters.ResetShowsAll | src/TicData.js:166-171 | a reset returns to the opening filters with the chart mode kept; the table then shows the whole history, newest first |
| TicFilters.ModeArrows | src/TicData.js:196-202 | both arrows keep the mode index in range from any start, and each undoes the other |
| TicFilters.ModeCycle | src/TicData.js:196-202 | three presses of one arrow come back to the same mode, and every press changes it |
| TicChart.GroupTics | src/TicData.js:209-217 | after the loop every key and location met has a bucket holding the count and the intensity sum of exactly its tics; the keys are the tics' keys de-duplicated in order of first appearance, and each group's locations are its tics' locations de-duplicated in that order |
| TicChart.BuildRows | src/TicData.js:219-237 | one row per key in the keys' first-appearance order, holding its locations in first-appearance order and for each the mode's value of that bucket; a row for every tic's key |
| TicChart.RowsFromGroups | src/TicData.js:219-237 | the rows of a finished grouping have distinct keys, cover every tic, and hold the bucket values |
| TicChart.SortedRows | src/TicData.js:239-250 | sorting the rows keeps them, each key still once, and puts them in time order |
| TicChart.ProcessChartData | src/TicData.js:205-253 | the chart rows have distinct keys, are in time order and cover every tic's key; each row lists its locations in the order the tics first name them under that key, and each value is the bucket's average, total or count |
| TicChart.BucketIsFilter | src/TicData.js:212-216 | a bucket's count and sum are those of the tics a filter on its key and location keeps |
| TicChart.AllLocationsSpec | src/TicData.js:260-268 | the chart's columns are the rows' locations, each once |
| TicChart.AllLocationsOrder | src/TicData.js:260-268 | the columns come in the order the rows first name each location |
| TicChart.ChartDataForGoogle | src/TicData.js:292-304 | with no rows the matrix is `[["Time"]]`; otherwise a header of "Time" and the columns, then one line per row with its time and each column's value, missing values as 0 |
| TicChart.FindMaxValue | src/TicData.js:307-318 | the result is at least 0 and at least every number outside the header row and the time column, and is 0 or one of them |
| TicChart.AxisAboveData | src/TicData.js:321 | for totals and counts the axis top is at least 5 and at least 5 above every plotted number |
| TicChart.SumWithinScale | src/TicData.js:215-216 | with intensities from 0 to 10 a bucket's sum lies between 0 and 10 per tic |
| TicChart.AverageWithinAxis | src/TicData.js:223-224 | with intensities from 0 to 10 every average lies under the fixed axis top of 10 |
| TicExport.ExportToCsv | src/TicData.js:339-355 | the file is the header line and one line per table tic, joined by newlines; with no newline in a cell it has one line more than the table |
| TicExport.CsvLinesShape | src/TicData.js:341-354 | the header line first, then each tic's line in table order |
| TicExport.CsvLineFields | src/TicData.js:347-353 | a tic's line splits back into its four cells when no cell holds a comma |
| TicExport.CsvRoundTrip | src/TicData.js:353-355 | the file splits back into its lines when no cell holds a newline |
| TicExport.HeaderLine | src/TicData.js:341-343 | the header line reads `Date,Time of Day,Location,Intensity` |

## Left out

- Server errors are not modelled: the `catch` branches answering 500 and store or network failures.
- HTTP transport is not modelled: CORS, the response status beyond the answer's code, and console logging.
- Concurrency is not modelled: each handler runs as one atomic step on the store, and concurrent redemptions or confirmations are out of scope.
- Clocks and random values are parameters: `uuidv4()` is the `freshToken` parameter, with a no-request-holds-it precondition; the store's new document id is `newId`; `serverTimestamp()` and `new Date()` are `now`.
- Urls.QueryParam: the query string is read without percent-decoding. The ids are read back faithfully only when they contain no `&`, `#`, `%`, `+` or `]`.
- Urls.QueryParam: the server's `req.query` at functions/index.js:85 goes through Express's query parser, not `URLSearchParams`. Both readers are modelled by `Urls.QueryParam`. It agrees with the Express parser on a query that has no repeated name and no `]`, `%` or `+`. The Express parser splits a pair at `]=` before it looks for `=`, and it turns a repeated name into an array. Neither behaviour is modelled; `Urls.UrlSafe` excludes `]` so that the proved round trips hold for both readers.
- Functions.GeneratePatientConfirmation: request-body fields are strings or absent. JSON numbers, objects and other truthy non-strings are not modelled.
- UserLogin.HandleLogin: sign-in is the `auth` parameter, the identity provider's answer. The password check, the popup and the provider are not modelled.
- UserLogin.ConfirmPatientRequest: one `now` is used for the link's `confirmedAt`. A failure between the two writes, or a store error caught by the page, is not modelled.
- Token expiry is not modelled, because the source has none.
- The tic-history screen's fetching and rendering are not modelled: loading the documents, JSX, the colour map built with `Math.random`, `renderModeLabel`, the XLSX export, and the Blob and link download. They involve I/O or randomness.
- The dashboard, the doctor login, the app shell, the success page and the style configuration are not modelled. They have no logic beyond routing and display.
- TicFilters.FilteredData: dates are milliseconds. `toDateString`, `getMonth` and `getFullYear` are the functions of a `Calendar` parameter, and the date picker's text is already parsed (`None` while empty). Invalid dates (`NaN`) are not modelled.
- TicChart.ProcessChartData: intensities are reals and the average is an exact ratio. Floating-point rounding is not modelled.
- TicChart.ProcessChartData: the row sort compares `clock(timeOfDay)` or the date. `new Date("2000-01-01 " + t)` is the `clock` parameter. The date key is compared as the date it stands for, so the proved time order holds only for date keys that `new Date` at src/TicData.js:230-231 parses. With dates stored as numbers, the key is an object key and therefore the number's string form. `new Date` of that string is `Invalid Date`, the comparator returns NaN, and the source leaves the rows in grouping order.
- TicChart.ProcessChartData: the rows are proved to be in time order. Their order before sorting follows `Object.entries`, which lists integer-like keys first; that order is not modelled.
- TicChart.ProcessChartData: a location named `timeKey` would overwrite the row's time field in the source. The model keeps locations and the time apart.
- TicChart.ProcessChartData: a location or a time-of-day text that names an inherited `Object.prototype` property (`constructor`, `toString`, …) reads as truthy on an empty object. For such a tic the source creates no own entry at src/TicData.js:211-212, and `Object.entries` at line 221 never lists it. The source therefore drops that tic from the chart, while the model gives it a bucket.
- TicChart.ProcessChartData: keys and locations are kept in insertion order. JavaScript objects list array-index names such as "2" before all other names, whatever their insertion order; that ordering is not modelled.
- TicChart.AllLocationsOrder: `Object.keys(row)` at src/TicData.js:263 lists array-index names first. For a row whose locations were added as "Neck" then "2", the source's columns are "2", "Neck" and the model's are "Neck", "2". The proved column order holds only for locations that are not array-index names.
- TicChart.GroupTics: each step's update of the grouping map is written as two functions applied in the loop body, not as the source's nested `if` statements. The result is the same.
- TicExport.ExportToCsv: `toLocaleDateString` and the printing of numbers are the functions of a `Printer` parameter. No CSV quoting exists in the source, so none is modelled.
