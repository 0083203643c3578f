/** The client wrapper `searchRecords`: normalises the page and page size
    and assembles the query string of `GET /api/records`. The request itself
    is not modelled; the query string is the result. */
module RecordsApi {
  import opened Wrappers
  import opened Text
  import opened Numbers
  import opened RouteParams
  import opened ClientParams
  import RecordsRoute

  const DefaultPageSize: nat := 5

  datatype SearchRecordsParams = SearchRecordsParams(
    project: string,
    zone: Option<string>,
    category: Option<string>,
    period: Option<string>,
    page: NumArg,
    pageSize: NumArg)

  /** `query` is what `searchRecords` sends for `params`: project, page and
      page size always, in that order, then zone, category and period when
      they are non-empty. */
  ghost predicate SentFor(params: SearchRecordsParams, query: Query) {
    && |query| >= 3
    && query[..3] == [("project", params.project),
                      ("page", IntToString(ClientPage(params.page))),
                      ("pageSize", IntToString(ClientPageSize(params.pageSize, DefaultPageSize)))]
    && query[3..] == Optional("zone", params.zone) + Optional("category", params.category) + Optional("period", params.period)
  }

  method SearchRecords(params: SearchRecordsParams) returns (query: Query)
    ensures SentFor(params, query)
  {
    var page := NormalizePage(params.page);
    var pageSize := NormalizePageSize(params.pageSize, DefaultPageSize);
    var head := [("project", params.project), ("page", IntToString(page)), ("pageSize", IntToString(pageSize))];
    var tail := AppendOptional([], "zone", params.zone);
    assert tail == Optional("zone", params.zone);
    tail := AppendOptional(tail, "category", params.category);
    tail := AppendOptional(tail, "period", params.period);
    query := head + tail;
    assert query[..3] == head && query[3..] == tail;
  }

  /** The parameters the route handler reads from a query string. */
  function ServerQuery(query: Query): RecordsRoute.RecordsQuery {
    RecordsRoute.RecordsQuery(Lookup(query, "project"), Lookup(query, "zone"), Lookup(query, "category"),
                              Lookup(query, "period"), Lookup(query, "page"), Lookup(query, "pageSize"))
  }

  /** Reading one key back from a sent query: the fixed head first, then
      the optional pairs. */
  lemma LookupSent(params: SearchRecordsParams, query: Query, key: string)
    requires SentFor(params, query)
    ensures Lookup(query, key)
         == if key == "project" then Some(params.project)
            else if key == "page" then Some(IntToString(ClientPage(params.page)))
            else if key == "pageSize" then Some(IntToString(ClientPageSize(params.pageSize, DefaultPageSize)))
            else if key == "zone" && IsTruthy(params.zone) then params.zone
            else if key == "category" && IsTruthy(params.category) then params.category
            else if key == "period" && IsTruthy(params.period) then params.period
            else None
  {
    assert query == query[..3] + query[3..];
    LookupThree(query[..3], key);
    LookupOptionals3(query[..3], "zone", params.zone, "category", params.category, "period", params.period, key);
  }

  /** The route handler reads back what the wrapper sent: the same project,
      page and page size, and each optional filter exactly when the wrapper
      appended it. So the page and page size the response echoes are the
      wrapper's own. */
  lemma ServerReadsWhatWasSent(params: SearchRecordsParams, query: Query)
    requires SentFor(params, query)
    ensures var sq := ServerQuery(query);
      && sq.project == Some(params.project)
      && IsPageFor(sq.page, ClientPage(params.page))
      && IsPageSizeFor(sq.pageSize, RecordsRoute.DefaultPageSize, ClientPageSize(params.pageSize, DefaultPageSize))
      && sq.zone == (if IsTruthy(params.zone) then params.zone else None)
      && sq.category == (if IsTruthy(params.category) then params.category else None)
      && sq.period == (if IsTruthy(params.period) then params.period else None)
  {
    LookupSent(params, query, "project");
    LookupSent(params, query, "page");
    LookupSent(params, query, "pageSize");
    LookupSent(params, query, "zone");
    LookupSent(params, query, "category");
    LookupSent(params, query, "period");
    ServerReadsClientPage(params.page);
    ServerReadsClientPageSize(params.pageSize, DefaultPageSize, RecordsRoute.DefaultPageSize);
  }
}
