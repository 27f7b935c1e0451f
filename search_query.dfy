/** The statement builder of the event search handler: from up to three
    optional filters it assembles one parameterized SQL statement and its
    positional parameter list. The SQL text is treated as characters; what
    the database does with it is not modelled. */
module SearchQuery {
  import opened Text
  import opened SqlText

  // The SQL texts are written as concatenations of short literals so that
  // proofs about which characters they contain stay small.

  const SelectLine: string := "\n      SELECT e.*, " + "o.org_name, " + "c.category_name "
  const FromLine: string := "\n      FROM events e"
  const JoinOrgLine: string := "\n      JOIN " + "organizations o " + "ON e.org_id = " + "o.org_id"
  const JoinCatLine: string := "\n      JOIN " + "categories c " + "ON e.category_id = " + "c.category_id"
  const LineIndent: string := "\n      "

  /** Select list and joins shared by the home feed and the search, up to
      the indentation of the WHERE line. */
  const EventsSelect: string := SelectLine + FromLine + JoinOrgLine + JoinCatLine + LineIndent

  /** The soft-delete restriction every event query carries. */
  const ActiveOnly: string := "e.is_active = 1"
  const ActiveWhere: string := "WHERE " + ActiveOnly

  /** The MySQL end-of-line comment written after the search's WHERE line. */
  const BaseComment: string := " # 只查询正常状态的活动"

  /** Indentation before the closing backquote of the template literal. */
  const BaseIndent: string := "    "

  /** The search's WHERE line, up to the end of its comment. */
  const BaseLine: string := EventsSelect + ActiveWhere + BaseComment

  /** The fixed start of every search statement: the template literal the
      handler begins with, ending in a newline after the comment. */
  const BaseQuery: string := BaseLine + "\n" + BaseIndent

  const And: string := " AND "
  const DateCondition: string := And + "DATE(e.event_date) = "
  const LocationCondition: string := And + "e.location LIKE "
  const CategoryCondition: string := And + "e.category_id = "

  const DateClause: string := DateCondition + "?"
  const LocationClause: string := LocationCondition + "?"
  const CategoryClause: string := CategoryCondition + "?"

  const OrderBody: string := " ORDER BY " + "e.event_date ASC"
  const OrderSuffix: string := OrderBody + ";"

  /** The query-string fields the handler destructures; "" stands for a
      field that is absent or empty (both falsy). */
  datatype SearchFilters = SearchFilters(date: string, location: string, categoryId: string)

  /** The three filters, in the order the handler tests them. */
  datatype Filter = DateFilter | LocationFilter | CategoryFilter

  function Rank(k: Filter): nat
  {
    match k
    case DateFilter => 0
    case LocationFilter => 1
    case CategoryFilter => 2
  }

  /** The filter's field is truthy, i.e. a non-empty string. */
  predicate Provided(k: Filter, f: SearchFilters)
  {
    match k
    case DateFilter => f.date != ""
    case LocationFilter => f.location != ""
    case CategoryFilter => f.categoryId != ""
  }

  /** The clause appended for a provided filter: its condition and one placeholder. */
  function ClauseOf(k: Filter): string
  {
    match k
    case DateFilter => DateClause
    case LocationFilter => LocationClause
    case CategoryFilter => CategoryClause
  }

  /** The value bound to the filter's placeholder: the location is wrapped in
      `%` wildcards for LIKE, the other two are passed as received. */
  function ParamOf(k: Filter, f: SearchFilters): string
  {
    match k
    case DateFilter => f.date
    case LocationFilter => "%" + f.location + "%"
    case CategoryFilter => f.categoryId
  }

  /** The filters that contribute a clause, in the order they are tested. */
  function ProvidedFilters(f: SearchFilters): (ks: seq<Filter>)
    ensures forall k :: k in ks <==> Provided(k, f)
    ensures forall i, j :: 0 <= i < j < |ks| ==> Rank(ks[i]) < Rank(ks[j])
  {
    UpToLocation(f) + (if f.categoryId != "" then [CategoryFilter] else [])
  }

  /** The filters the handler has tested once it is past the location. */
  function UpToLocation(f: SearchFilters): seq<Filter>
  {
    UpToDate(f) + (if f.location != "" then [LocationFilter] else [])
  }

  /** The filters the handler has tested once it is past the date. */
  function UpToDate(f: SearchFilters): seq<Filter>
  {
    if f.date != "" then [DateFilter] else []
  }

  function Clauses(ks: seq<Filter>): seq<string>
  {
    seq(|ks|, i requires 0 <= i < |ks| => ClauseOf(ks[i]))
  }

  function ParamList(ks: seq<Filter>, f: SearchFilters): seq<string>
  {
    seq(|ks|, i requires 0 <= i < |ks| => ParamOf(ks[i], f))
  }

  /** Reference definition of the statement: base, one clause per provided
      filter, then the ordering suffix. */
  function SearchSql(f: SearchFilters): string
  {
    Statement(BaseQuery, Clauses(ProvidedFilters(f)), OrderSuffix)
  }

  /** Reference definition of the parameter list, parallel to the clauses. */
  function SearchParams(f: SearchFilters): seq<string>
  {
    ParamList(ProvidedFilters(f), f)
  }

  /** The handler's assembly of `query` and `queryParams`, step by step:
      it produces exactly the reference statement and parameter list. */
  method BuildSearchQuery(f: SearchFilters) returns (sql: string, params: seq<string>)
    ensures sql == SearchSql(f) && params == SearchParams(f)
  {
    ghost var ks: seq<Filter> := [];
    sql := BaseQuery;
    params := [];
    if f.date != "" {
      GrowTogether(BaseQuery, sql, params, ks, DateFilter, f);
      sql := sql + DateClause;
      params := params + [f.date];
      ks := ks + [DateFilter];
    }
    assert ks == UpToDate(f);
    if f.location != "" {
      GrowTogether(BaseQuery, sql, params, ks, LocationFilter, f);
      sql := sql + LocationClause;
      params := params + ["%" + f.location + "%"];
      ks := ks + [LocationFilter];
    }
    assert ks == UpToLocation(f);
    if f.categoryId != "" {
      GrowTogether(BaseQuery, sql, params, ks, CategoryFilter, f);
      sql := sql + CategoryClause;
      params := params + [f.categoryId];
      ks := ks + [CategoryFilter];
    }
    assert ks == ProvidedFilters(f);
    sql := sql + OrderSuffix;
  }

  /** One step of the builder: the text built so far and the parameter list
      grow together by one filter. */
  lemma GrowTogether(pre: string, sql: string, params: seq<string>, ks: seq<Filter>, k: Filter, f: SearchFilters)
    requires sql == pre + Join(Clauses(ks)) && params == ParamList(ks, f)
    ensures sql + ClauseOf(k) == pre + Join(Clauses(ks + [k]))
    ensures params + [ParamOf(k, f)] == ParamList(ks + [k], f)
  {
    ClausesSnoc(ks, k);
    ParamsAppend(ks, [k], f);
    ExtendWith(pre, Clauses(ks), ClauseOf(k), sql);
  }

  lemma ClausesSnoc(ks: seq<Filter>, k: Filter)
    ensures Clauses(ks + [k]) == Clauses(ks) + [ClauseOf(k)]
  {
  }

  // Which characters the fixed texts contain

  /** Free of placeholders, statement terminators and comment marks. */
  predicate Plain(s: string)
  {
    '?' !in s && ';' !in s && '#' !in s
  }

  // Each text is checked piece by piece, which keeps the character-level
  // reasoning small.

  lemma SelectLinePlain()
    ensures Plain(SelectLine)
  {
    assert Plain("\n      SELECT e.*, ");
    assert Plain("o.org_name, ");
    assert Plain("c.category_name ");
  }

  lemma FromLinePlain() ensures Plain(FromLine) {}

  lemma JoinOrgLinePlain()
    ensures Plain(JoinOrgLine)
  {
    assert Plain("\n      JOIN ");
    assert Plain("organizations o ");
    assert Plain("ON e.org_id = ");
    assert Plain("o.org_id");
  }

  lemma JoinCatLinePlain()
    ensures Plain(JoinCatLine)
  {
    assert Plain("\n      JOIN ");
    assert Plain("categories c ");
    assert Plain("ON e.category_id = ");
    assert Plain("c.category_id");
  }

  lemma WherePlain() ensures Plain(ActiveWhere) && '?' !in BaseComment && ';' !in BaseComment {}

  lemma EventsSelectPlain()
    ensures Plain(EventsSelect)
  {
    SelectLinePlain();
    FromLinePlain();
    JoinOrgLinePlain();
    JoinCatLinePlain();
  }

  /** The base holds no placeholder and no terminator (its one `#` opens the comment). */
  lemma BasePlain()
    ensures '?' !in BaseQuery && ';' !in BaseQuery
  {
    EventsSelectPlain();
    WherePlain();
  }

  lemma SuffixPlain()
    ensures '?' !in OrderSuffix && ';' !in OrderBody && '#' !in OrderSuffix && '#' !in BaseIndent
  {
  }

  lemma AndPlain() ensures Plain(And) {}

  lemma DateConditionPlain()
    ensures Plain(DateCondition)
  {
    AndPlain();
    assert Plain("DATE(e.event_date) = ");
  }

  lemma LocationConditionPlain()
    ensures Plain(LocationCondition)
  {
    AndPlain();
    assert Plain("e.location LIKE ");
  }

  lemma CategoryConditionPlain()
    ensures Plain(CategoryCondition)
  {
    AndPlain();
    assert Plain("e.category_id = ");
  }

  /** The three clauses are clauses, free of `;` and `#`. */
  lemma ClauseShape(k: Filter)
    ensures IsClause(ClauseOf(k)) && ';' !in ClauseOf(k) && '#' !in ClauseOf(k)
  {
    match k
    case DateFilter =>
      DateConditionPlain();
      ClauseOfBody(DateCondition);
    case LocationFilter =>
      LocationConditionPlain();
      ClauseOfBody(LocationCondition);
    case CategoryFilter =>
      CategoryConditionPlain();
      ClauseOfBody(CategoryCondition);
  }

  lemma ClausesShape(ks: seq<Filter>)
    ensures forall c :: c in Clauses(ks) ==> IsClause(c) && ';' !in c && '#' !in c
  {
    forall c | c in Clauses(ks)
      ensures IsClause(c) && ';' !in c && '#' !in c
    {
      var i :| 0 <= i < |ks| && Clauses(ks)[i] == c;
      ClauseShape(ks[i]);
    }
  }

  /** The search statement's parts are well formed. */
  lemma PartsWellFormed(f: SearchFilters)
    ensures WellFormedParts(BaseQuery, Clauses(ProvidedFilters(f)), OrderSuffix)
  {
    BasePlain();
    SuffixPlain();
    ClausesShape(ProvidedFilters(f));
  }

  /** The character five places from the end of each clause, which tells
      the three apart. */
  function Mark(k: Filter): char
  {
    match k
    case DateFilter => ')'
    case LocationFilter => 'I'
    case CategoryFilter => 'd'
  }

  lemma ClauseMark(k: Filter)
    ensures |ClauseOf(k)| >= 5 && ClauseOf(k)[|ClauseOf(k)| - 5] == Mark(k)
  {
  }

  /** No clause is a suffix of a different one, so the text that ends at a
      placeholder tells which clause the placeholder closes. */
  lemma ClausesSuffixFree(a: Filter, b: Filter)
    ensures EndsWith(ClauseOf(a), ClauseOf(b)) || EndsWith(ClauseOf(b), ClauseOf(a)) ==> a == b
  {
    ClauseMark(a);
    ClauseMark(b);
    SuffixChar(ClauseOf(a), ClauseOf(b), 5);
    SuffixChar(ClauseOf(b), ClauseOf(a), 5);
  }

  /** A filter's clause is among the statement's clauses exactly when the
      filter is provided. */
  lemma ClauseListed(f: SearchFilters, k: Filter)
    ensures ClauseOf(k) in Clauses(ProvidedFilters(f)) <==> Provided(k, f)
  {
    var ks := ProvidedFilters(f);
    var cs := Clauses(ks);
    if Provided(k, f) {
      var i :| 0 <= i < |ks| && ks[i] == k;
      assert cs[i] == ClauseOf(k);
    }
    if ClauseOf(k) in cs {
      var i :| 0 <= i < |ks| && cs[i] == ClauseOf(k);
      ClausesSuffixFree(k, ks[i]);
      assert EndsWith(ClauseOf(k), cs[i]);
      assert ks[i] in ks;
    }
  }

  /** No provided clause shadows a filter's clause as a suffix. */
  lemma ProvidedSuffixFree(f: SearchFilters, k: Filter)
    ensures SuffixFree(ClauseOf(k), Clauses(ProvidedFilters(f)))
  {
    var ks := ProvidedFilters(f);
    var cs := Clauses(ks);
    forall c | c in cs && (EndsWith(ClauseOf(k), c) || EndsWith(c, ClauseOf(k)))
      ensures c == ClauseOf(k)
    {
      var i :| 0 <= i < |ks| && cs[i] == c;
      ClausesSuffixFree(k, ks[i]);
    }
  }

  // Properties of the statement

  /** The statement starts with the fixed base and ends with the ordering
      suffix. */
  lemma StatementFrame(f: SearchFilters)
    ensures StartsWith(SearchSql(f), BaseQuery) && EndsWith(SearchSql(f), OrderSuffix)
  {
    StatementEnds(BaseQuery, Clauses(ProvidedFilters(f)), OrderSuffix);
  }

  /** Whatever the filters, the statement restricts to active events. */
  lemma AlwaysActiveOnly(f: SearchFilters)
    ensures OccursAt(SearchSql(f), ActiveWhere, |EventsSelect|)
  {
    ActiveInBase();
    BaseOccurs(BaseQuery, Clauses(ProvidedFilters(f)), OrderSuffix, ActiveWhere, |EventsSelect|);
  }

  /** The statement holds exactly one `?` per parameter, one per provided filter. */
  lemma PlaceholderCount(f: SearchFilters)
    ensures Count(SearchSql(f), '?') == |SearchParams(f)| == |ProvidedFilters(f)|
  {
    PartsWellFormed(f);
    StatementCount(BaseQuery, Clauses(ProvidedFilters(f)), OrderSuffix);
  }

  /** The base restricts to active events. */
  lemma ActiveInBase()
    ensures OccursAt(BaseQuery, ActiveWhere, |EventsSelect|)
  {
    OccursInMiddle(EventsSelect, ActiveWhere, BaseComment);
    OccursInPrefix(BaseLine, "\n" + BaseIndent, ActiveWhere, |EventsSelect|);
    assert BaseQuery == BaseLine + ("\n" + BaseIndent);
  }

  /** The n-th `?` of the statement (counting from 0) closes the clause of the
      n-th provided filter, and the n-th parameter is that filter's value:
      placeholders and parameters stay in step. */
  lemma PlaceholderBindsParam(f: SearchFilters, e: int)
    requires 0 <= e < |SearchSql(f)| && SearchSql(f)[e] == '?'
    ensures var n, ks := Count(SearchSql(f)[..e], '?'), ProvidedFilters(f);
            n < |ks| && n < |SearchParams(f)|
            && EndsWith(SearchSql(f)[..e + 1], ClauseOf(ks[n]))
            && SearchParams(f)[n] == ParamOf(ks[n], f)
  {
    PartsWellFormed(f);
    StatementPlaceholder(BaseQuery, Clauses(ProvidedFilters(f)), OrderSuffix, e);
  }

  /** A clause occurs in the statement exactly when its filter is provided. */
  lemma ClausePresence(f: SearchFilters, k: Filter)
    ensures Contains(SearchSql(f), ClauseOf(k)) <==> Provided(k, f)
  {
    PartsWellFormed(f);
    ClauseShape(k);
    ProvidedSuffixFree(f, k);
    StatementContains(BaseQuery, Clauses(ProvidedFilters(f)), OrderSuffix, ClauseOf(k));
    ClauseListed(f, k);
  }

  /** The parameters, written out: the date, the location wrapped in `%`
      wildcards and the category id, each only when provided, in that order. */
  lemma ParamsInOrder(f: SearchFilters)
    ensures SearchParams(f) == (if f.date != "" then [f.date] else [])
                               + (if f.location != "" then ["%" + f.location + "%"] else [])
                               + (if f.categoryId != "" then [f.categoryId] else [])
  {
    var d := UpToDate(f);
    var l := UpToLocation(f);
    ParamsAppend(d, if f.location != "" then [LocationFilter] else [], f);
    ParamsAppend(l, if f.categoryId != "" then [CategoryFilter] else [], f);
  }

  lemma ParamsAppend(a: seq<Filter>, b: seq<Filter>, f: SearchFilters)
    ensures ParamList(a + b, f) == ParamList(a, f) + ParamList(b, f)
  {
  }

  /** Everything appended after the base lies outside its `#` comment: the
      base ends with a newline after the comment. */
  lemma NothingAppendedIsCommented(f: SearchFilters, i: int)
    requires |BaseQuery| <= i <= |SearchSql(f)|
    ensures !InComment(SearchSql(f), i)
  {
    SuffixPlain();
    ClausesShape(ProvidedFilters(f));
    StatementUncommented(BaseLine, BaseIndent, Clauses(ProvidedFilters(f)), OrderSuffix, i);
  }

  /** The ordering suffix occurs once only, at the very end, after every clause. */
  lemma OrderSuffixOnlyAtEnd(f: SearchFilters, i: int)
    requires OccursAt(SearchSql(f), OrderSuffix, i)
    ensures i == |SearchSql(f)| - |OrderSuffix|
  {
    BasePlain();
    SuffixPlain();
    ClausesShape(ProvidedFilters(f));
    StatementSuffixOnce(BaseQuery, Clauses(ProvidedFilters(f)), OrderBody, ';', i);
  }
}
