/** The three request handlers of the event API: each runs its statements on
    the connection pool and answers with a JSON envelope, `success` telling
    the client whether `data` holds the payload or `message` the reason. */
module EventController {
  import opened Wrappers
  import opened Text
  import opened SqlText
  import opened JsValues
  import opened SearchQuery

  // The database, as the handlers see it

  /** What one `pool.query` call settles with: the rows, or the error it
      rejects with (its `message`). */
  datatype QueryOutcome = Rows(rows: seq<JsValue>) | Thrown(message: string)

  /** The connection pool: a statement and its positional parameters to the
      outcome of running it. */
  type Pool = (string, seq<string>) -> QueryOutcome

  // The envelopes

  /** The `data` of a successful envelope, one shape per handler. The empty
      search answers with an empty array instead of an object. */
  datatype Payload =
    | HomeFeed(upcomingEvents: seq<JsValue>, allCategories: seq<JsValue>)
    | NoMatches
    | Matched(matchedEvents: seq<JsValue>)
    | Details(eventDetails: JsValue)

  /** The HTTP status and the JSON body `{success, message?, data?, error?}`;
      an absent key is `None`. */
  datatype Envelope = Envelope(
    status: nat,
    success: bool,
    message: Option<string>,
    data: Option<Payload>,
    error: Option<string>)

  /** The conventions every handler keeps: a success is a 200 with data and
      no error; a failure has no data, says why in `message`, and is a 404
      or a 500; the underlying error is reported exactly on a 500. */
  predicate WellFormed(env: Envelope)
  {
    (env.success ==> env.status == 200 && env.data.Some? && env.error.None?)
    && (!env.success ==> env.data.None? && env.message.Some? && env.message.value != ""
                         && (env.status == 404 || env.status == 500))
    && (env.error.Some? <==> env.status == 500)
  }

  function Ok(message: Option<string>, payload: Payload): (env: Envelope)
    ensures WellFormed(env) && env.success && env.data == Some(payload)
  {
    Envelope(200, true, message, Some(payload), None)
  }

  function ServerError(message: string, error: string): (env: Envelope)
    requires message != ""
    ensures WellFormed(env) && !env.success && env.status == 500
    ensures env.message == Some(message) && env.error == Some(error)
  {
    Envelope(500, false, Some(message), None, Some(error))
  }

  const HomeFailedMessage: string := "服务器错误，无法获取首页数据"
  const NoMatchMessage: string := "未找到匹配的活动"
  const SearchFailedMessage: string := "服务器错误，无法搜索活动"
  const NotFoundMessage: string := "未找到该活动（可能已暂停或不存在）"
  const DetailFailedMessage: string := "服务器错误，无法获取活动详情"

  // The clock value of the home feed

  /** `s.replace(a, b)` with a one-character pattern: only the first
      occurrence is replaced. */
  function ReplaceFirst(s: string, a: char, b: char): (r: string)
    ensures |r| == |s|
    ensures forall i | 0 <= i < |s| :: r[i] == (if s[i] == a && a !in s[..i] then b else s[i])
  {
    if s == [] then []
    else if s[0] == a then [b] + s[1..]
    else
      var rest := ReplaceFirst(s[1..], a, b);
      assert forall i | 1 <= i < |s| :: s[..i] == [s[0]] + s[1..][..i - 1];
      [s[0]] + rest
  }

  /** `iso.slice(0, 19).replace('T', ' ')`: the first nineteen characters of
      the clock's ISO text, first `T` turned into a space. */
  function MysqlDateTime(iso: string): (r: string)
    ensures |r| == if |iso| < 19 then |iso| else 19
    ensures forall i | 0 <= i < |r| :: r[i] == (if iso[i] == 'T' && 'T' !in iso[..i] then ' ' else iso[i])
  {
    var s := iso[..if |iso| < 19 then |iso| else 19];
    assert forall i | 0 <= i < |s| :: s[..i] == iso[..i];
    ReplaceFirst(s, 'T', ' ')
  }

  /** The text `Date.prototype.toISOString` produces: date, `T`, time. */
  predicate IsoTimestamp(iso: string)
  {
    |iso| >= 19 && iso[10] == 'T' && 'T' !in iso[..10]
  }

  /** From an ISO timestamp the handler keeps the date and the time to the
      second, joined by a space, as MySQL writes a DATETIME. */
  lemma NowFormat(iso: string)
    requires IsoTimestamp(iso)
    ensures MysqlDateTime(iso) == iso[..10] + " " + iso[11..19]
  {
    var r := MysqlDateTime(iso);
    var s := iso[..19];
    forall i | 0 <= i < 19
      ensures r[i] == (iso[..10] + " " + iso[11..19])[i]
    {
      if i > 10 {
        assert s[..i][10] == 'T';
      } else {
        assert s[..i] == iso[..i];
      }
    }
  }

  // The statements of the home feed and of the event details

  const UpcomingCondition: string := And + "e.event_date >= "
  const UpcomingClause: string := UpcomingCondition + "?"
  const HomeBase: string := EventsSelect + ActiveWhere
  const HomeComment: string := " # 按活动日期升序排列" + "（最近的活动在前）"
  const HomeOrder: string := "\n      ORDER BY " + "e.event_date ASC;" + HomeComment + "\n    "

  /** Active events from the current time on, soonest first, with their
      organization and category names. */
  const HomeSql: string := Statement(HomeBase, [UpcomingClause], HomeOrder)

  /** Every category, by name. */
  const CategoriesSql: string := "SELECT * FROM " + "categories ORDER BY " + "category_name ASC;"

  const DetailSelectLine: string := "\n      SELECT e.*, " + "o.org_name, " + "o.contact_email, "
    + "o.contact_phone, " + "c.category_name, " + "c.description AS " + "category_description"
  const DetailBase: string := DetailSelectLine + FromLine + JoinOrgLine + JoinCatLine + LineIndent
  const DetailClause: string := "WHERE e.event_id = " + "?"
  const DetailTail: string := And + ActiveOnly + ";" + BaseComment + "\n" + BaseIndent

  /** The one active event with the given id, with its organization's
      contacts and its category's description. */
  const DetailSql: string := Statement(DetailBase, [DetailClause], DetailTail)

  lemma UpcomingPlain()
    ensures IsClause(UpcomingClause) && '#' !in UpcomingClause
  {
    AndPlain();
    assert Plain("e.event_date >= ");
    ClauseOfBody(UpcomingCondition);
  }

  lemma HomeOrderPlain()
    ensures '?' !in HomeOrder
  {
    assert '?' !in "\n      ORDER BY ";
    assert '?' !in "e.event_date ASC;";
    assert '?' !in " # 按活动日期升序排列";
    assert '?' !in "（最近的活动在前）";
  }

  lemma HomeParts()
    ensures WellFormedParts(HomeBase, [UpcomingClause], HomeOrder)
    ensures '#' !in HomeBase && forall c :: c in [UpcomingClause] ==> '#' !in c
  {
    EventsSelectPlain();
    WherePlain();
    UpcomingPlain();
    HomeOrderPlain();
  }

  /** The home statement has one placeholder, matching the one parameter
      `HomeResponse` binds (the current time): it closes the date condition
      and no comment hides it; and the statement restricts to active events. */
  lemma HomeStatement(e: int)
    requires 0 <= e < |HomeSql| && HomeSql[e] == '?'
    ensures Count(HomeSql, '?') == 1
    ensures EndsWith(HomeSql[..e + 1], UpcomingClause) && !InComment(HomeSql, e)
    ensures OccursAt(HomeSql, ActiveWhere, |EventsSelect|)
  {
    HomeParts();
    StatementCount(HomeBase, [UpcomingClause], HomeOrder);
    StatementPlaceholder(HomeBase, [UpcomingClause], HomeOrder, e);
    PlaceholdersUncommented(HomeBase, [UpcomingClause], HomeOrder, e);
    OccursAtEnd(EventsSelect, ActiveWhere);
    BaseOccurs(HomeBase, [UpcomingClause], HomeOrder, ActiveWhere, |EventsSelect|);
  }

  /** The categories statement takes no parameter. */
  lemma CategoriesStatement()
    ensures Count(CategoriesSql, '?') == 0
  {
    assert '?' !in "SELECT * FROM ";
    assert '?' !in "categories ORDER BY ";
    assert '?' !in "category_name ASC;";
    CountAbsent(CategoriesSql, '?');
  }

  lemma OrganizationColumnsPlain()
    ensures Plain("\n      SELECT e.*, " + "o.org_name, " + "o.contact_email, " + "o.contact_phone, ")
  {
    assert Plain("\n      SELECT e.*, ");
    assert Plain("o.org_name, ");
    assert Plain("o.contact_email, ");
    assert Plain("o.contact_phone, ");
  }

  lemma CategoryColumnsPlain()
    ensures Plain("c.category_name, " + "c.description AS " + "category_description")
  {
    assert Plain("c.category_name, ");
    assert Plain("c.description AS ");
    assert Plain("category_description");
  }

  lemma DetailSelectPlain()
    ensures Plain(DetailSelectLine)
  {
    OrganizationColumnsPlain();
    CategoryColumnsPlain();
  }

  lemma DetailParts()
    ensures WellFormedParts(DetailBase, [DetailClause], DetailTail)
    ensures '#' !in DetailBase && forall c :: c in [DetailClause] ==> '#' !in c
  {
    DetailSelectPlain();
    FromLinePlain();
    JoinOrgLinePlain();
    JoinCatLinePlain();
    assert Plain(LineIndent);
    assert Plain("WHERE e.event_id = ");
    ClauseOfBody("WHERE e.event_id = ");
    AndPlain();
    WherePlain();
    assert '?' !in BaseIndent;
  }

  /** The active restriction sits in the detail statement's tail. */
  lemma ActiveInDetailTail()
    ensures OccursAt(DetailTail, ActiveOnly, |And|)
  {
    OccursAtEnd(And, ActiveOnly);
    OccursInPrefix(And + ActiveOnly, ";", ActiveOnly, |And|);
    OccursInPrefix(And + ActiveOnly + ";", BaseComment, ActiveOnly, |And|);
    OccursInPrefix(And + ActiveOnly + ";" + BaseComment, "\n", ActiveOnly, |And|);
    OccursInPrefix(And + ActiveOnly + ";" + BaseComment + "\n", BaseIndent, ActiveOnly, |And|);
  }

  /** The detail statement has one placeholder, matching the one parameter
      `DetailResponse` binds (the event id): it closes the id condition and
      no comment hides it. */
  lemma DetailStatement(e: int)
    requires 0 <= e < |DetailSql| && DetailSql[e] == '?'
    ensures Count(DetailSql, '?') == 1
    ensures EndsWith(DetailSql[..e + 1], DetailClause) && !InComment(DetailSql, e)
  {
    DetailParts();
    StatementCount(DetailBase, [DetailClause], DetailTail);
    StatementPlaceholder(DetailBase, [DetailClause], DetailTail, e);
    PlaceholdersUncommented(DetailBase, [DetailClause], DetailTail, e);
  }

  /** The detail statement restricts to active events, so a paused event is
      never found. */
  lemma DetailActiveOnly()
    ensures OccursAt(DetailSql, ActiveOnly, |DetailBase| + |DetailClause| + |And|)
  {
    ActiveInDetailTail();
    SuffixOccurs(DetailBase, [DetailClause], DetailTail, ActiveOnly, |And|);
    JoinOne(DetailClause);
  }

  // The handlers

  /** `getHomeData`: the upcoming active events, then the categories; the
      first query that rejects turns the answer into a 500 carrying its
      message. */
  function HomeResponse(iso: string, pool: Pool): (env: Envelope)
    ensures WellFormed(env)
    ensures var events, categories := pool(HomeSql, [MysqlDateTime(iso)]), pool(CategoriesSql, []);
            (env.success <==> events.Rows? && categories.Rows?)
            && (env.success ==> env.data == Some(HomeFeed(events.rows, categories.rows)) && env.message.None?)
            && (!env.success ==> env.status == 500 && env.message == Some(HomeFailedMessage)
                                 && env.error == Some(if events.Thrown? then events.message else categories.message))
  {
    var now := MysqlDateTime(iso);
    match pool(HomeSql, [now])
    case Thrown(m) => ServerError(HomeFailedMessage, m)
    case Rows(events) =>
      match pool(CategoriesSql, [])
      case Thrown(m) => ServerError(HomeFailedMessage, m)
      case Rows(categories) => Ok(None, HomeFeed(events, categories))
  }

  /** When the events query rejects, the categories query is never consulted:
      pools that agree on the events query give the same answer. */
  lemma HomeStopsAtFirstFailure(iso: string, p: Pool, q: Pool)
    requires p(HomeSql, [MysqlDateTime(iso)]).Thrown?
    requires q(HomeSql, [MysqlDateTime(iso)]) == p(HomeSql, [MysqlDateTime(iso)])
    ensures HomeResponse(iso, q) == HomeResponse(iso, p)
  {
  }

  /** The search's answer to the outcome of its one statement: no rows is
      still a success, with a message and an empty array as data. */
  function SearchEnvelope(events: QueryOutcome): (env: Envelope)
    ensures WellFormed(env)
    ensures env.success <==> events.Rows?
    ensures events.Rows? && events.rows == [] ==> env.data == Some(NoMatches) && env.message == Some(NoMatchMessage)
    ensures events.Rows? && events.rows != [] ==> env.data == Some(Matched(events.rows)) && env.message.None?
    ensures events.Thrown? ==>
              env.status == 500 && env.message == Some(SearchFailedMessage) && env.error == Some(events.message)
  {
    match events
    case Thrown(m) => ServerError(SearchFailedMessage, m)
    case Rows(rows) =>
      if |rows| == 0 then Ok(Some(NoMatchMessage), NoMatches)
      else Ok(None, Matched(rows))
  }

  /** `searchEvents`: builds the statement from the filters and answers with
      the envelope for what the pool returns for it. */
  method HandleSearch(f: SearchFilters, pool: Pool) returns (env: Envelope)
    ensures env == SearchEnvelope(pool(SearchSql(f), SearchParams(f)))
  {
    var sql, params := BuildSearchQuery(f);
    env := SearchEnvelope(pool(sql, params));
  }

  /** `getEventDetails`: the first row found is the event; none is a 404. */
  function DetailResponse(eventId: string, pool: Pool): (env: Envelope)
    ensures WellFormed(env)
    ensures var events := pool(DetailSql, [eventId]);
            (env.success <==> events.Rows? && events.rows != [])
            && (env.success ==> env.data == Some(Details(events.rows[0])))
            && (events.Rows? && events.rows == [] ==> env.status == 404 && env.message == Some(NotFoundMessage))
            && (events.Thrown? ==>
                  env.status == 500 && env.message == Some(DetailFailedMessage) && env.error == Some(events.message))
  {
    match pool(DetailSql, [eventId])
    case Thrown(m) => ServerError(DetailFailedMessage, m)
    case Rows(events) =>
      if |events| == 0 then Envelope(404, false, Some(NotFoundMessage), None, None)
      else Ok(None, Details(events[0]))
  }
}
