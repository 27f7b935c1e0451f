# Event API: search statement, response envelopes and client unwrapping

A Dafny model of the core of a small charity-event site. The model covers
three parts:

- **The search statement builder.** `searchEvents` starts from a fixed
  statement that selects active events with their organization and category
  names. For each filter given (`date`, `location`, `categoryId`) it appends an
  `AND … ?` clause and pushes the filter's value. It then appends the ordering
  suffix.
- **The response envelopes.** Each of the three handlers (`getHomeData`,
  `searchEvents`, `getEventDetails`) turns what the connection pool returns into
  an HTTP status and a JSON body `{success, message?, data?, error?}`.
- **The browser's `fetchApi` and its endpoint helpers.** `fetchApi` builds the
  request, reads the envelope, and either returns `data` or throws an `Error`
  carrying `message`.

Modules:

| module | file | what it holds |
|---|---|---|
| `Wrappers` | wrappers.dfy | `Option` and `Result` (a thrown error is a `Failure`) |
| `Text` | text.dfy | character counts, prefixes, suffixes, occurrences, decimal numerals |
| `JsValues` | js_values.dfy | JavaScript values, truthiness, property reads, `String(v)` |
| `SqlText` | sql_text.dfy | statements built as base + clauses + suffix, and MySQL `#` comments, for any such pieces |
| `SearchQuery` | search_query.dfy | the search statement, its builder method, and its properties |
| `EventController` | event_controller.dfy | the pool as a function, the envelopes, the three handlers, the home and detail statements |
| `ApiClient` | api_client.dfy | `fetchApi`, the request it sends, the endpoint helpers |
| `EnvelopeContract` | envelope_contract.dfy | the envelope as the client reads it back, end to end per handler |

The builder is a method that updates a local string and a local sequence in
source order. It is proved equal to a reference definition, `SearchSql` and
`SearchParams`. The reference definition is built from the filters that are
present.

The properties are proved about the reference definition:

- the base restricts to active events;
- a filter's clause occurs in the statement exactly when that filter is given;
- the n-th `?` closes the n-th clause, and the n-th parameter is the value for
  that clause;
- the appended clauses lie outside the base's `#` comment;
- the ordering suffix occurs exactly once, at the end.

The envelopes are functions of the handler's inputs and the pool. An empty
search answers with `data: []`. It does not answer with
`{matchedEvents: []}`. The model keeps this.
`EnvelopeContract.SearchEndToEnd` shows what it means on the client:
`searchEvents` resolves to an empty array, whose `matchedEvents` is
`undefined`.

The JSDoc of `searchEvents` (client/js/api.js:56) documents the result as
`{ matchedEvents: [] }`. The handler (api/controllers/eventController.js:85-90)
sends the bare array `data: []` when nothing matches, and the model follows
the handler.

## Model

| member | source | states |
|---|---|---|
| SearchQuery.ProvidedFilters | api/controllers/eventController.js:61-76 | the filters that add a clause are exactly the given (truthy) ones, in the order date, location, category |
| SearchQuery.BuildSearchQuery | api/controllers/eventController.js:51-79 | the step-by-step `+=`/`push` assembly yields exactly the reference statement (base, one clause per given filter, ordering suffix) and the parallel parameter list |
| SearchQuery.GrowTogether | api/controllers/eventController.js:61-76 | one builder step: the text grows by the filter's clause and the parameter list by its value, preserving text = base + clauses and params = values |
| SearchQuery.ClauseShape | api/controllers/eventController.js:62-74 | each appended clause ends in its single `?` and holds no `;` or `#` |
| SearchQuery.ClausesSuffixFree | api/controllers/eventController.js:62-74 | no clause text is a suffix of another one, so the three clauses cannot be confused |
| SearchQuery.ClauseListed | api/controllers/eventController.js:61-76 | a filter's clause is among the appended clauses if and only if the filter is given |
| SearchQuery.StatementFrame | api/controllers/eventController.js:51-79 | the statement starts with the fixed base and ends with ` ORDER BY e.event_date ASC;` |
| SearchQuery.AlwaysActiveOnly | api/controllers/eventController.js:51-57 | for every combination of filters the statement holds `WHERE e.is_active = 1`, at a fixed position of the base |
| SearchQuery.PlaceholderCount | api/controllers/eventController.js:51-82 | the number of `?` equals the number of parameters, which equals the number of filters given |
| SearchQuery.PlaceholderBindsParam | api/controllers/eventController.js:61-76 | the n-th `?` of the statement closes the n-th given filter's clause, and the n-th parameter is that filter's value |
| SearchQuery.ClausePresence | api/controllers/eventController.js:61-76 | a filter's clause occurs anywhere in the statement if and only if that filter is given |
| SearchQuery.ParamsInOrder | api/controllers/eventController.js:62-75 | the parameters are the date, `%` + location + `%`, and the category id, each only when given, in that order |
| SearchQuery.NothingAppendedIsCommented | api/controllers/eventController.js:51-57 | no position after the base lies inside the base's `#` comment, because the base ends with a newline after it |
| SearchQuery.OrderSuffixOnlyAtEnd | api/controllers/eventController.js:79 | the ordering suffix occurs only once, as the last text of the statement |
| EventController.ReplaceFirst | api/controllers/eventController.js:8 | `replace` with a one-character pattern changes only the first occurrence and keeps the length |
| EventController.MysqlDateTime | api/controllers/eventController.js:8 | the bound time is the first nineteen characters of the ISO text (all of it when shorter), with only its first `T` turned into a space |
| EventController.NowFormat | api/controllers/eventController.js:8 | from an ISO timestamp, the bound value is the date and the time to the second, joined by a space |
| EventController.HomeStatement | api/controllers/eventController.js:12-19 | the home statement has one `?`, matching the one parameter that `HomeResponse` binds (the current time); it closes the date condition and is not commented out; the statement restricts to active events |
| EventController.CategoriesStatement | api/controllers/eventController.js:22 | the categories statement has no placeholder, matching its empty parameter list |
| EventController.HomeResponse | api/controllers/eventController.js:5-42 | success (200 with both lists, no message) exactly when both queries return rows; otherwise 500 with the home failure message and the first failing query's error |
| EventController.HomeStopsAtFirstFailure | api/controllers/eventController.js:12-22 | when the events query fails, the answer does not depend on the categories query |
| EventController.SearchEnvelope | api/controllers/eventController.js:85-107 | rows give a 200 success; no rows give the not-found message with `data: []`; some rows give `{matchedEvents}` without a message; a failure gives a 500 with the search failure message and the error |
| EventController.HandleSearch | api/controllers/eventController.js:45-108 | the handler answers with the envelope for the pool's outcome on the built statement and parameters |
| EventController.DetailStatement | api/controllers/eventController.js:117-123 | the detail statement has one `?`, matching the one parameter that `DetailResponse` binds (the event id); it closes the id condition and is not commented out |
| EventController.DetailActiveOnly | api/controllers/eventController.js:122 | the detail statement restricts to active events |
| EventController.DetailResponse | api/controllers/eventController.js:111-149 | success exactly when rows are found, with the first row as `eventDetails`; no rows give 404 with the not-found message; a failure gives 500 with the error |
| ApiClient.MakeRequest | client/js/api.js:13-22 | the URL is the base URL followed by the endpoint; the options are the defaults with the caller's keys spread over them |
| ApiClient.DefaultRequestIsGet | client/js/api.js:16-22 | without options the request is a GET with only the default options |
| ApiClient.HeadersReplacedWhole | client/js/api.js:16-22 | caller headers replace the default headers whole; the method stays GET unless overridden |
| ApiClient.Fallback | client/js/api.js:32 | the fallback message is the fixed opening text, the status in decimal, and a closing parenthesis |
| ApiClient.FallbackNamesStatus | client/js/api.js:32 | the fallback message names the status: equal messages mean equal statuses |
| ApiClient.Rejection | client/js/api.js:32 | the failure path always throws, an `Error` when the body is an object |
| ApiClient.Unwrap | client/js/api.js:28-36 | a body that fails to parse is rethrown; for an object body the result is `data` exactly when `ok` and `success` is truthy, else an `Error` with the truthy `message` or the status fallback; a `null` or `undefined` body throws reading the first property the code reads; any other non-object body (array, string, number, boolean) throws an `Error` with the status fallback |
| ApiClient.FetchApi | client/js/api.js:10-43 | a failing `fetch` is rethrown unchanged; otherwise the result is the unwrapped response |
| ApiClient.GetHomeData | client/js/api.js:49-51 | a GET with the default options to the base URL followed by `/home`; a failing `fetch` is rethrown, otherwise the response is unwrapped |
| ApiClient.SearchEndpoint | client/js/api.js:60-61 | the endpoint is `/events/search`, followed by `?` and the query exactly when the query is not empty |
| ApiClient.SearchEvents | client/js/api.js:58-63 | a GET with the default options to the base URL followed by the search endpoint; a failing `fetch` is rethrown, otherwise the response is unwrapped |
| ApiClient.EventEndpoint | client/js/api.js:71 | the endpoint is `/events/` followed by the id as `String` renders it |
| ApiClient.GetEventDetails | client/js/api.js:70-72 | a GET with the default options to the base URL followed by the event endpoint; a failing `fetch` is rethrown, otherwise the response is unwrapped |
| ApiClient.SplitQuery | client/js/api.js:60-61 | splitting at the first `?` gives a `?`-free path which, put back with the query, restores the endpoint |
| ApiClient.SearchEndpointSplits | client/js/api.js:60-61 | the search endpoint splits back into `/events/search` and the query string, empty or not |
| ApiClient.EventEndpointNamesId | client/js/api.js:70-72 | for a numeric id, the path after `/events/` is its decimal numeral, whose value is the id |
| ApiClient.GetAllCategories | client/js/api.js:78-81 | a home data failure is rethrown; for an object the result is its `allCategories`; home data that is `null` or `undefined` throws a `TypeError` reading `allCategories`; any other home data gives `undefined` |
| EnvelopeContract.Body | api/controllers/eventController.js:86-90 | the JSON body is an object whose `success` is the envelope's flag and whose `message`, `data` and `error` are present exactly when the handler set them, as at every `res.status(…).json(…)` call of the three handlers |
| EnvelopeContract.Serve | api/controllers/eventController.js:86-90 | the response carries the handler's status and body, and is `ok` exactly for a 2xx status |
| EnvelopeContract.ClientReading | client/js/api.js:31-36 | every well-formed envelope reads back on the client as its payload on success, and otherwise as an `Error` with its message |
| EnvelopeContract.HomeEndToEnd | client/js/api.js:49-51 | the home data arrives as both lists and `getAllCategories` as the category list, or both as the home failure message |
| EnvelopeContract.SearchEndToEnd | api/controllers/eventController.js:85-98 | matched rows arrive as `{matchedEvents}`; no match arrives as an empty array whose `matchedEvents` is undefined; a failure arrives as the search failure message |
| EnvelopeContract.DetailEndToEnd | api/controllers/eventController.js:126-139 | for a numeric id the client gets the first row, the not-found message, or the failure message |

## Left out

- The connection pool, database configuration and SQL execution are left out: case-insensitive `LIKE`, `DATE()`, joins and ordering of rows. `pool.query` is a function from a statement and its parameters to rows or an error message. An error without a `message` is not modelled.
- The wall clock is left out. The home handler receives the ISO text of `new Date()` as a parameter.
- `fetch` and `response.json()` are inputs; the network and JSON parsing are not modelled. The JSON text between server and client is taken to read back as the value that was written.
- `URLSearchParams` encoding is left out. `searchEvents` receives the already-encoded query string. So percent-encoding is not modelled, and neither is the text `"undefined"` it writes for an undefined filter.
- Express routing, middleware and `listen` are left out. Parsing of the query string and of the path parameter is also left out. The search filters arrive already destructured, and an absent filter is `""`. The event id arrives as the text of its path segment. A query value given as an array is not modelled.
- Logging (`console.error`) is left out.
- DOM pages are left out, except the one line of `client/js/search.js` that destructures `matchedEvents`, which explains the empty-search lemma.
- Floating point is left out: numbers are integers, and `String(n)` is written out only for integers. The model writes every digit of an integer; JavaScript does so only below 10^21 in magnitude and writes larger numbers in exponent notation (`String(1e21)` is `"1e+21"`), so `String(n)` agrees with JavaScript only for |n| < 10^21.
- ApiClient.EventEndpointNamesId: states the full decimal numeral for every `nat`; for an id of 10^21 or more JavaScript requests `/events/` followed by the exponent form instead, which the model does not capture.
- EnvelopeContract.DetailEndToEnd: holds as stated for ids below 10^21 only; for larger ids the endpoint JavaScript builds carries the exponent form, which the model does not capture.
- The built-in properties of arrays and strings, such as `length`, are left out. The modelled code does not read them off envelopes; a property read on any value other than an object, `null` or `undefined` yields `undefined`.
- The engine's `TypeError` message text is left out; only the property being read is kept.
- ApiClient.Rejection: states only that the failure path throws, and that it is an `Error` for object bodies. `Unwrap` states the message itself.
