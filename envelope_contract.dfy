/** The contract between the two ends: the envelope a handler sends, as the
    browser's `fetchApi` reads it back. The JSON text in between is taken to
    read back as the value that was written. */
module EnvelopeContract {
  import opened Wrappers
  import opened Text
  import opened JsValues
  import opened ApiClient
  import opened SearchQuery
  import opened EventController

  /** The `data` object of each payload, with the keys the client reads. */
  function PayloadValue(p: Payload): (v: JsValue)
    ensures p.NoMatches? <==> v.Arr?
    ensures p.HomeFeed? ==> v.Obj? && Field(v.fields, "upcomingEvents") == Arr(p.upcomingEvents)
                            && Field(v.fields, "allCategories") == Arr(p.allCategories)
    ensures p.Matched? ==> v.Obj? && Field(v.fields, "matchedEvents") == Arr(p.matchedEvents)
    ensures p.Details? ==> v.Obj? && Field(v.fields, "eventDetails") == p.eventDetails
  {
    match p
    case HomeFeed(events, categories) =>
      Obj(map["upcomingEvents" := Arr(events), "allCategories" := Arr(categories)])
    case NoMatches => Arr([])
    case Matched(rows) => Obj(map["matchedEvents" := Arr(rows)])
    case Details(event) => Obj(map["eventDetails" := event])
  }

  /** An optional key of the body, present only when it has a value. */
  function Entry(key: string, v: Option<JsValue>): map<string, JsValue>
  {
    if v.Some? then map[key := v.value] else map[]
  }

  function StrOf(s: Option<string>): Option<JsValue>
  {
    if s.Some? then Some(Str(s.value)) else None
  }

  /** The JSON body `res.json` writes: `success`, then the keys the handler set. */
  function Body(env: Envelope): (body: JsValue)
    ensures body.Obj?
    ensures Field(body.fields, "success") == Bool(env.success)
    ensures Field(body.fields, "message") == if env.message.Some? then Str(env.message.value) else Undefined
    ensures Field(body.fields, "data") == if env.data.Some? then PayloadValue(env.data.value) else Undefined
    ensures Field(body.fields, "error") == if env.error.Some? then Str(env.error.value) else Undefined
  {
    Obj(map["success" := Bool(env.success)]
        + Entry("message", StrOf(env.message))
        + Entry("data", if env.data.Some? then Some(PayloadValue(env.data.value)) else None)
        + Entry("error", StrOf(env.error)))
  }

  /** The response the browser receives: `ok` for a 2xx status. */
  function Serve(env: Envelope): (r: Response)
    ensures r.status == env.status && r.json == Success(Body(env))
    ensures r.ok <==> 200 <= env.status < 300
  {
    Response(200 <= env.status < 300, env.status, Success(Body(env)))
  }

  /** Every well-formed envelope reads back as its payload when it is a
      success, and otherwise as an `Error` carrying its `message` (the
      fallback text is never needed: the message is never empty). */
  lemma ClientReading(env: Envelope)
    requires WellFormed(env)
    ensures Unwrap(Serve(env)) == if env.success then Success(PayloadValue(env.data.value))
                                  else Failure(Error(env.message.value))
  {
    var fields := Body(env).fields;
    if !env.success {
      assert Truthy(Field(fields, "message"));
      assert ToJsString(Field(fields, "message")) == env.message.value;
    }
  }

  // End to end: the client helper, given a network that carries the request
  // to the handler and its answer back

  /** The home data reaches the client as the two lists, or as the home
      feed's error message; `getAllCategories` then yields the category
      list or the same error. */
  lemma HomeEndToEnd(iso: string, pool: Pool, fetch: Fetch)
    requires fetch(MakeRequest(HomePath, map[])) == Success(Serve(HomeResponse(iso, pool)))
    ensures var events, categories := pool(HomeSql, [MysqlDateTime(iso)]), pool(CategoriesSql, []);
            if events.Rows? && categories.Rows? then
              GetHomeData(fetch) == Success(PayloadValue(HomeFeed(events.rows, categories.rows)))
              && GetAllCategories(fetch) == Success(Arr(categories.rows))
            else
              GetHomeData(fetch) == Failure(Error(HomeFailedMessage))
              && GetAllCategories(fetch) == Failure(Error(HomeFailedMessage))
  {
    ClientReading(HomeResponse(iso, pool));
  }

  /** The search reaches the client as `{matchedEvents}` when rows match and
      as the error message when the query fails; when nothing matches it
      arrives as an empty array, whose `matchedEvents` is `undefined`. */
  lemma SearchEndToEnd(f: SearchFilters, query: string, pool: Pool, fetch: Fetch)
    requires fetch(MakeRequest(SearchEndpoint(query), map[]))
             == Success(Serve(SearchEnvelope(pool(SearchSql(f), SearchParams(f)))))
    ensures var events := pool(SearchSql(f), SearchParams(f));
            (events.Rows? && events.rows != [] ==>
               SearchEvents(query, fetch) == Success(PayloadValue(Matched(events.rows))))
            && (events.Rows? && events.rows == [] ==>
                  SearchEvents(query, fetch) == Success(Arr([]))
                  && Get(SearchEvents(query, fetch).value, "matchedEvents") == Success(Undefined))
            && (events.Thrown? ==> SearchEvents(query, fetch) == Failure(Error(SearchFailedMessage)))
  {
    ClientReading(SearchEnvelope(pool(SearchSql(f), SearchParams(f))));
  }

  /** For a numeric id (below 10^21, where JavaScript still writes every
      digit) the handler receives the id's numeral as `eventId`;
      the client gets `{eventDetails}` for the first row, the not-found
      message when no active event has that id, and the failure message
      when the query fails. */
  lemma DetailEndToEnd(n: nat, pool: Pool, fetch: Fetch)
    requires fetch(MakeRequest(EventEndpoint(Num(n)), map[]))
             == Success(Serve(DetailResponse(EventEndpoint(Num(n))[|EventsPath|..], pool)))
    ensures var events := pool(DetailSql, [NatToString(n)]);
            (events.Rows? && events.rows != [] ==>
               GetEventDetails(Num(n), fetch) == Success(PayloadValue(Details(events.rows[0]))))
            && (events.Rows? && events.rows == [] ==>
                  GetEventDetails(Num(n), fetch) == Failure(Error(NotFoundMessage)))
            && (events.Thrown? ==> GetEventDetails(Num(n), fetch) == Failure(Error(DetailFailedMessage)))
  {
    EventEndpointNamesId(n);
    ClientReading(DetailResponse(NatToString(n), pool));
  }
}
