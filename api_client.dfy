/** The browser's access layer to the event API: `fetchApi` sends a request
    to the API server, reads the JSON envelope and either hands back its
    `data` or throws an `Error` carrying the envelope's `message`; the four
    endpoint helpers build on it. A thrown error is a `Failure`. */
module ApiClient {
  import opened Wrappers
  import opened Text
  import opened JsValues

  const ApiBaseUrl: string := "http://localhost:3000/api"

  /** What `fetch` is called with: the URL and the options object. */
  datatype Request = Request(url: string, init: map<string, JsValue>)

  /** What `fetch` resolves to: `ok`, `status`, and what `response.json()`
      settles with, the parsed body or the error it rejects with. */
  datatype Response = Response(ok: bool, status: nat, json: Result<JsValue, JsError>)

  /** The network: what `fetch` settles with for a request. */
  type Fetch = Request -> Result<Response, JsError>

  /** A GET with a JSON content type. */
  const DefaultOptions: map<string, JsValue> :=
    map["method" := Str("GET"), "headers" := Obj(map["Content-Type" := Str("application/json")])]

  /** The URL and the options `fetchApi` passes to `fetch`: the defaults,
      then the caller's options spread over them (a shallow merge in which
      the caller's keys win). */
  function MakeRequest(endpoint: string, options: map<string, JsValue>): (req: Request)
    ensures StartsWith(req.url, ApiBaseUrl) && req.url[|ApiBaseUrl|..] == endpoint
    ensures req.init.Keys == DefaultOptions.Keys + options.Keys
    ensures forall k | k in options :: req.init[k] == options[k]
    ensures forall k | k in DefaultOptions && k !in options :: req.init[k] == DefaultOptions[k]
  {
    var url := ApiBaseUrl + endpoint;
    assert url[..|ApiBaseUrl|] == ApiBaseUrl && url[|ApiBaseUrl|..] == endpoint;
    Request(url, DefaultOptions + options)
  }

  /** Without options of their own, the helpers send a GET asking for JSON. */
  lemma DefaultRequestIsGet(endpoint: string)
    ensures MakeRequest(endpoint, map[]).init == DefaultOptions
    ensures Field(MakeRequest(endpoint, map[]).init, "method") == Str("GET")
  {
  }

  /** Options with their own `headers` replace the default headers whole:
      the spread does not merge nested objects, so the JSON content type is
      then sent only if the caller's headers carry it. */
  lemma HeadersReplacedWhole(endpoint: string, options: map<string, JsValue>)
    requires "headers" in options
    ensures Field(MakeRequest(endpoint, options).init, "headers") == options["headers"]
    ensures Field(MakeRequest(endpoint, options).init, "method")
            == if "method" in options then options["method"] else Str("GET")
  {
  }

  const FallbackOpen: string := "API请求失败（状态码："
  const FallbackClose: string := "）"

  /** The message of the error thrown when the envelope has no truthy
      `message`: it names the HTTP status in decimal, between a fixed
      opening and a closing parenthesis. */
  function Fallback(status: nat): (r: string)
    ensures StartsWith(r, FallbackOpen) && EndsWith(r, FallbackClose)
    ensures |r| == |FallbackOpen| + |NatToString(status)| + |FallbackClose|
    ensures r[|FallbackOpen|..|r| - |FallbackClose|] == NatToString(status)
  {
    var r := FallbackOpen + NatToString(status) + FallbackClose;
    assert r[..|FallbackOpen|] == FallbackOpen;
    assert r[|r| - |FallbackClose|..] == FallbackClose;
    assert r[|FallbackOpen|..|r| - |FallbackClose|] == NatToString(status);
    r
  }

  /** The status can be read back from the fallback message. */
  lemma FallbackNamesStatus(a: nat, b: nat)
    ensures Fallback(a) == Fallback(b) <==> a == b
  {
    if Fallback(a) == Fallback(b) {
      SameMiddle(FallbackOpen, NatToString(a), NatToString(b), FallbackClose);
      NatToStringInjective(a, b);
    }
  }

  /** `throw new Error(data.message || fallback)`, where `data.message` is
      read off the parsed body and throws itself when the body is `null`. */
  function Rejection(status: nat, data: JsValue): (r: Result<JsValue, JsError>)
    ensures r.Failure?
    ensures data.Obj? ==> r.error.Error?
  {
    match Get(data, "message")
    case Failure(e) => Failure(e)
    case Success(m) => Failure(Error(if Truthy(m) then ToJsString(m) else Fallback(status)))
  }

  /** What `fetchApi` makes of a response: a body that does not parse is
      rethrown as is; a response that is not `ok`, or whose body's `success`
      is falsy, is rejected; otherwise the body's `data` is the result. The
      `||` is short-circuit: `success` is not read off a response that is
      not `ok`. */
  function Unwrap(response: Response): (r: Result<JsValue, JsError>)
    ensures response.json.Failure? ==> r == Failure(response.json.error)
    ensures response.json.Success? && response.json.value.Obj? ==>
              var fields := response.json.value.fields;
              (r.Success? <==> response.ok && Truthy(Field(fields, "success")))
              && (r.Success? ==> r.value == Field(fields, "data"))
              && (r.Failure? ==> r.error == Error(if Truthy(Field(fields, "message"))
                                                    then ToJsString(Field(fields, "message"))
                                                    else Fallback(response.status)))
    ensures response.json.Success? && (response.json.value.Null? || response.json.value.Undefined?) ==>
              r == Failure(TypeError(if response.ok then "success" else "message"))
    ensures response.json.Success? && !response.json.value.Obj?
            && !response.json.value.Null? && !response.json.value.Undefined? ==>
              r == Failure(Error(Fallback(response.status)))
  {
    match response.json
    case Failure(e) => Failure(e)
    case Success(data) =>
      if !response.ok then Rejection(response.status, data)
      else
        match Get(data, "success")
        case Failure(e) => Failure(e)
        case Success(success) =>
          if !Truthy(success) then Rejection(response.status, data)
          else Get(data, "data")
  }

  /** `fetchApi(endpoint, options)`: a `fetch` that rejects is rethrown as is. */
  function FetchApi(endpoint: string, options: map<string, JsValue>, fetch: Fetch): (r: Result<JsValue, JsError>)
    ensures fetch(MakeRequest(endpoint, options)).Failure? ==>
              r == Failure(fetch(MakeRequest(endpoint, options)).error)
    ensures fetch(MakeRequest(endpoint, options)).Success? ==>
              r == Unwrap(fetch(MakeRequest(endpoint, options)).value)
  {
    match fetch(MakeRequest(endpoint, options))
    case Failure(e) => Failure(e)
    case Success(response) => Unwrap(response)
  }

  // The endpoint helpers

  const HomePath: string := "/home"
  const SearchPath: string := "/events/search"
  const EventsPath: string := "/events/"

  /** `getHomeData()`: a GET with the default options to the home path of
      the API, its response unwrapped. */
  function GetHomeData(fetch: Fetch): (r: Result<JsValue, JsError>)
    ensures var sent := fetch(Request(ApiBaseUrl + HomePath, DefaultOptions));
            r == if sent.Failure? then Failure(sent.error) else Unwrap(sent.value)
  {
    assert DefaultOptions + map[] == DefaultOptions;
    FetchApi(HomePath, map[], fetch)
  }

  /** The search endpoint for an encoded query string: the query is
      attached after a `?` only when it is not empty. */
  function SearchEndpoint(query: string): (r: string)
    ensures StartsWith(r, SearchPath)
    ensures query == "" ==> r == SearchPath
    ensures query != "" ==> |r| > |SearchPath| && r[|SearchPath|] == '?' && r[|SearchPath| + 1..] == query
  {
    var r := SearchPath + (if query != "" then "?" + query else "");
    assert r[..|SearchPath|] == SearchPath;
    assert query != "" ==> r[|SearchPath|..] == "?" + query;
    r
  }

  /** An endpoint cut at its first `?`: the path, and the query after it
      ("" when there is no `?`). */
  function SplitQuery(endpoint: string): (r: (string, string))
    ensures '?' !in r.0
    ensures r.0 + (if '?' in endpoint then "?" + r.1 else "") == endpoint
  {
    if endpoint == [] then ("", "")
    else if endpoint[0] == '?' then ("", endpoint[1..])
    else
      var rest := SplitQuery(endpoint[1..]);
      assert endpoint == [endpoint[0]] + endpoint[1..];
      ([endpoint[0]] + rest.0, rest.1)
  }

  /** The path and the query of the search endpoint are recovered from it:
      the search path holds no `?`, so its first `?` is the one the helper
      inserts. */
  lemma {:induction false} SearchEndpointSplits(query: string)
    ensures SplitQuery(SearchEndpoint(query)) == (SearchPath, query)
  {
    assert '?' !in SearchPath;
    SplitAfterPlain(SearchPath, if query != "" then "?" + query else "");
    if query != "" {
      var t := "?" + query;
      assert t[0] == '?' && t[1..] == query;
      assert SplitQuery(t) == ("", query);
      assert SearchPath + "" == SearchPath;
    } else {
      assert SearchPath + "" == SearchPath;
    }
  }

  lemma {:induction false} SplitAfterPlain(p: string, t: string)
    requires '?' !in p
    ensures SplitQuery(p + t) == (p + SplitQuery(t).0, SplitQuery(t).1)
    decreases |p|
  {
    if p != [] {
      assert (p + t)[0] == p[0] && (p + t)[1..] == p[1..] + t;
      SplitAfterPlain(p[1..], t);
      assert [p[0]] + (p[1..] + SplitQuery(t).0) == p + SplitQuery(t).0;
    } else {
      assert p + t == t;
      assert p + SplitQuery(t).0 == SplitQuery(t).0;
    }
  }

  /** `searchEvents(filters)`, given the string `URLSearchParams` makes of the filters. */
  function SearchEvents(query: string, fetch: Fetch): (r: Result<JsValue, JsError>)
    ensures var sent := fetch(Request(ApiBaseUrl + SearchEndpoint(query), DefaultOptions));
            r == if sent.Failure? then Failure(sent.error) else Unwrap(sent.value)
  {
    assert DefaultOptions + map[] == DefaultOptions;
    FetchApi(SearchEndpoint(query), map[], fetch)
  }

  /** The endpoint of one event: its id as a template literal renders it. */
  function EventEndpoint(eventId: JsValue): (r: string)
    ensures StartsWith(r, EventsPath) && r[|EventsPath|..] == ToJsString(eventId)
  {
    var r := EventsPath + ToJsString(eventId);
    assert r[..|EventsPath|] == EventsPath;
    r
  }

  /** For a numeric id the path segment after `/events/` is its decimal
      numeral, from which the id is read back (JavaScript writes ids from
      10^21 on in exponent notation instead). */
  lemma EventEndpointNamesId(n: nat)
    ensures StartsWith(EventEndpoint(Num(n)), EventsPath)
    ensures var segment := EventEndpoint(Num(n))[|EventsPath|..];
            segment == NatToString(n) && IsNumeral(segment) && NumeralValue(segment) == n
  {
    var e := EventEndpoint(Num(n));
    assert e[..|EventsPath|] == EventsPath;
    assert e[|EventsPath|..] == NatToString(n);
    NumeralRoundTrip(n);
  }

  /** `getEventDetails(eventId)`: a GET with the default options to the
      event's endpoint, its response unwrapped. */
  function GetEventDetails(eventId: JsValue, fetch: Fetch): (r: Result<JsValue, JsError>)
    ensures var sent := fetch(Request(ApiBaseUrl + EventEndpoint(eventId), DefaultOptions));
            r == if sent.Failure? then Failure(sent.error) else Unwrap(sent.value)
  {
    assert DefaultOptions + map[] == DefaultOptions;
    FetchApi(EventEndpoint(eventId), map[], fetch)
  }

  /** `getAllCategories`: the `allCategories` of the home data; reading it
      off home data that is `null` or `undefined` throws. */
  function GetAllCategories(fetch: Fetch): (r: Result<JsValue, JsError>)
    ensures GetHomeData(fetch).Failure? ==> r == GetHomeData(fetch)
    ensures GetHomeData(fetch).Success? && GetHomeData(fetch).value.Obj? ==>
              r == Success(Field(GetHomeData(fetch).value.fields, "allCategories"))
    ensures GetHomeData(fetch).Success?
            && (GetHomeData(fetch).value.Null? || GetHomeData(fetch).value.Undefined?) ==>
              r == Failure(TypeError("allCategories"))
    ensures GetHomeData(fetch).Success? && !GetHomeData(fetch).value.Obj?
            && !GetHomeData(fetch).value.Null? && !GetHomeData(fetch).value.Undefined? ==>
              r == Success(Undefined)
  {
    match GetHomeData(fetch)
    case Failure(e) => Failure(e)
    case Success(homeData) => Get(homeData, "allCategories")
  }
}
