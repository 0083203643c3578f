/** The client wrapper `searchUnits`: normalises the page and page size and
    assembles the query string of `GET /api/units`. The request itself is not
    modelled; the query string is the result. */
module UnitsApi {
  import opened Wrappers
  import opened Text
  import opened Numbers
  import opened RouteParams
  import opened ClientParams
  import UnitsRoute

  const DefaultPageSize: nat := 10

  datatype SearchUnitsParams = SearchUnitsParams(
    recordId: int,
    period: Option<string>,
    use: Option<string>,
    availability: Option<string>,
    bedrooms: Option<int>,
    page: NumArg,
    pageSize: NumArg,
    sort: Option<string>)

  /** `bedrooms.toString()` when `bedrooms` is neither `undefined` nor `null`;
      the text of a number is never empty, so 0 is sent too. */
  function BedroomsText(b: Option<int>): (t: Option<string>)
    ensures t.Some? <==> b.Some?
    ensures b.Some? ==> IsTruthy(t) && ParseInt(t.value) == b
  {
    if b.Some? then
      ParseIntOfIntToString(b.value);
      Some(IntToString(b.value))
    else None
  }

  /** The optional pairs, in the order the wrapper appends them. */
  function Tail(params: SearchUnitsParams): Query {
    Optional("period", params.period) + Optional("use", params.use) + Optional("availability", params.availability)
      + Optional("bedrooms", BedroomsText(params.bedrooms)) + Optional("sort", params.sort)
  }

  /** `query` is what `searchUnits` sends for `params`: record id, page and
      page size always, in that order, then period, use, availability,
      bedrooms and sort when given. */
  ghost predicate SentFor(params: SearchUnitsParams, query: Query) {
    && |query| >= 3
    && query[..3] == [("recordId", IntToString(params.recordId)),
                      ("page", IntToString(ClientPage(params.page))),
                      ("pageSize", IntToString(ClientPageSize(params.pageSize, DefaultPageSize)))]
    && query[3..] == Tail(params)
  }

  method SearchUnits(params: SearchUnitsParams) returns (query: Query)
    ensures SentFor(params, query)
  {
    var page := NormalizePage(params.page);
    var pageSize := NormalizePageSize(params.pageSize, DefaultPageSize);
    var head := [("recordId", IntToString(params.recordId)), ("page", IntToString(page)), ("pageSize", IntToString(pageSize))];
    var tail := AppendOptional([], "period", params.period);
    assert tail == Optional("period", params.period);
    tail := AppendOptional(tail, "use", params.use);
    tail := AppendOptional(tail, "availability", params.availability);
    tail := AppendOptional(tail, "bedrooms", BedroomsText(params.bedrooms));
    tail := AppendOptional(tail, "sort", params.sort);
    query := head + tail;
    assert query[..3] == head && query[3..] == tail;
  }

  /** The parameters the route handler reads from a query string. */
  function ServerQuery(query: Query): UnitsRoute.UnitsQuery {
    UnitsRoute.UnitsQuery(Lookup(query, "recordId"), Lookup(query, "period"), Lookup(query, "use"),
                          Lookup(query, "availability"), Lookup(query, "bedrooms"), Lookup(query, "page"),
                          Lookup(query, "pageSize"), Lookup(query, "sort"))
  }

  /** Reading one key back from a sent query: the fixed head first, then
      the optional pairs. */
  lemma LookupSent(params: SearchUnitsParams, query: Query, key: string)
    requires SentFor(params, query)
    ensures Lookup(query, key)
         == if key == "recordId" then Some(IntToString(params.recordId))
            else if key == "page" then Some(IntToString(ClientPage(params.page)))
            else if key == "pageSize" then Some(IntToString(ClientPageSize(params.pageSize, DefaultPageSize)))
            else if key == "period" && IsTruthy(params.period) then params.period
            else if key == "use" && IsTruthy(params.use) then params.use
            else if key == "availability" && IsTruthy(params.availability) then params.availability
            else if key == "bedrooms" && IsTruthy(BedroomsText(params.bedrooms)) then BedroomsText(params.bedrooms)
            else if key == "sort" && IsTruthy(params.sort) then params.sort
            else None
  {
    assert query == query[..3] + query[3..];
    LookupThree(query[..3], key);
    LookupOptionals5(query[..3], "period", params.period, "use", params.use, "availability", params.availability,
                     "bedrooms", BedroomsText(params.bedrooms), "sort", params.sort, key);
  }

  /** The route handler reads back what the wrapper sent: a positive record id
      passes its checks unchanged, the page and page size are the wrapper's,
      a bedroom count (0 included) becomes the `cant_dormitorios` filter, and
      sort "old" is oldest first. */
  lemma ServerReadsWhatWasSent(params: SearchUnitsParams, query: Query)
    requires SentFor(params, query) && params.recordId >= 1
    ensures var sq := ServerQuery(query);
      && UnitsRoute.ValidRecordId(sq.recordId)
      && ParseInt(sq.recordId.value) == Some(params.recordId)
      && IsPageFor(sq.page, ClientPage(params.page))
      && IsPageSizeFor(sq.pageSize, UnitsRoute.DefaultPageSize, ClientPageSize(params.pageSize, DefaultPageSize))
      && UnitsRoute.BedroomsFilter(sq.bedrooms) == params.bedrooms
      && (UnitsRoute.SortOrderFor(sq.sort) == UnitsRoute.OldestFirst <==> params.sort == Some("old"))
  {
    LookupSent(params, query, "recordId");
    LookupSent(params, query, "page");
    LookupSent(params, query, "pageSize");
    LookupSent(params, query, "bedrooms");
    LookupSent(params, query, "sort");
    UnitsRoute.RecordIdRoundTrip(params.recordId);
    ServerReadsClientPage(params.page);
    ServerReadsClientPageSize(params.pageSize, DefaultPageSize, UnitsRoute.DefaultPageSize);
  }
}
