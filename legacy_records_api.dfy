/** The older client wrapper `searchRecords`: `||` defaults instead of the
    clamps of the newer wrapper, a default page size of 20, and only the zone
    and category filters. */
module LegacyRecordsApi {
  import opened Wrappers
  import opened Numbers
  import opened Paging
  import opened RouteParams
  import opened ClientParams
  import RecordsRoute
  import RecordsApi

  const DefaultPage: int := 1
  const DefaultPageSize: int := 20

  datatype LegacySearchParams = LegacySearchParams(
    project: string,
    zone: Option<string>,
    category: Option<string>,
    page: NumArg,
    pageSize: NumArg)

  /** JavaScript falsiness of a numeric argument: absent, 0, `NaN`, or the
      empty string. */
  predicate IsFalsy(p: NumArg) {
    p.Absent? || p.NaN? || p == Num(0) || p == Str("")
  }

  /** `(p || d).toString()`: the default for a falsy argument, the argument's
      own text otherwise, with no range check. */
  function OrDefaultText(p: NumArg, d: int): (t: string)
    ensures IsFalsy(p) ==> t == IntToString(d)
    ensures p.Num? && p.n != 0 ==> t == IntToString(p.n)
    ensures p.Str? && p.s != "" ==> t == p.s
  {
    if IsFalsy(p) then IntToString(d)
    else if p.Num? then IntToString(p.n)
    else p.s
  }

  /** `query` is what the legacy `searchRecords` sends for `params`: project,
      page and page size always, in that order, then zone and category when
      they are non-empty. */
  ghost predicate SentFor(params: LegacySearchParams, query: Query) {
    && |query| >= 3
    && query[..3] == [("project", params.project),
                      ("page", OrDefaultText(params.page, DefaultPage)),
                      ("pageSize", OrDefaultText(params.pageSize, DefaultPageSize))]
    && query[3..] == Optional("zone", params.zone) + Optional("category", params.category)
  }

  method SearchRecords(params: LegacySearchParams) returns (query: Query)
    ensures SentFor(params, query)
  {
    var page := if IsFalsy(params.page) then IntToString(DefaultPage)
                else if params.page.Num? then IntToString(params.page.n) else params.page.s;
    var pageSize := if IsFalsy(params.pageSize) then IntToString(DefaultPageSize)
                    else if params.pageSize.Num? then IntToString(params.pageSize.n) else params.pageSize.s;
    var head := [("project", params.project), ("page", page), ("pageSize", pageSize)];
    var tail := AppendOptional([], "zone", params.zone);
    assert tail == Optional("zone", params.zone);
    tail := AppendOptional(tail, "category", params.category);
    query := head + tail;
    assert query[..3] == head && query[3..] == tail;
  }

  /** Reading one key back from a sent query: the fixed head first, then the
      zone and the category. */
  lemma LookupSent(params: LegacySearchParams, query: Query, key: string)
    requires SentFor(params, query)
    ensures Lookup(query, key)
         == if key == "project" then Some(params.project)
            else if key == "page" then Some(OrDefaultText(params.page, DefaultPage))
            else if key == "pageSize" then Some(OrDefaultText(params.pageSize, DefaultPageSize))
            else if key == "zone" && IsTruthy(params.zone) then params.zone
            else if key == "category" && IsTruthy(params.category) then params.category
            else None
  {
    var a, b := Optional("zone", params.zone), Optional("category", params.category);
    assert query == query[..3] + (a + b);
    LookupThree(query[..3], key);
    LookupAppend(query[..3], a + b, key);
    LookupAppend(a, b, key);
    LookupOptional("zone", params.zone, key);
    LookupOptional("category", params.category, key);
  }

  /** What the route handler makes of a legacy query: the project as sent, no
      period filter ever, a positive page as sent and any other number as 1,
      and a positive page size capped at 50, 20 when none was given, but the
      handler's own default of 5 for a negative one. */
  lemma ServerReadsLegacyQuery(params: LegacySearchParams, query: Query)
    requires SentFor(params, query)
    ensures var sq := RecordsApi.ServerQuery(query);
      && sq.project == Some(params.project)
      && sq.period.None?
      && (params.page.Num? && params.page.n >= 1 ==> IsPageFor(sq.page, params.page.n))
      && (params.page.Num? && params.page.n < 1 ==> IsPageFor(sq.page, 1))
      && (IsFalsy(params.page) ==> IsPageFor(sq.page, 1))
      && (params.pageSize.Num? && params.pageSize.n >= 1 ==>
            IsPageSizeFor(sq.pageSize, RecordsRoute.DefaultPageSize, Min(MaxPageSize, params.pageSize.n)))
      && (params.pageSize.Num? && params.pageSize.n < 0 ==>
            IsPageSizeFor(sq.pageSize, RecordsRoute.DefaultPageSize, RecordsRoute.DefaultPageSize))
      && (IsFalsy(params.pageSize) ==> IsPageSizeFor(sq.pageSize, RecordsRoute.DefaultPageSize, DefaultPageSize))
  {
    LookupSent(params, query, "project");
    LookupSent(params, query, "page");
    LookupSent(params, query, "pageSize");
    LookupSent(params, query, "period");
    ParseIntOfIntToString(DefaultPage);
    ParseIntOfIntToString(DefaultPageSize);
    if params.page.Num? {
      ParseIntOfIntToString(params.page.n);
    }
    if params.pageSize.Num? {
      ParseIntOfIntToString(params.pageSize.n);
    }
  }
}
