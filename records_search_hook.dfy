/** The `useRecordsSearch` hook of the projects feature: the listing state of
    the search page and the searches that fill it. The selection (project,
    zone, category, period) is passed to each method; each search is given
    the settled outcome of its `searchRecords` call. */
module RecordsSearchHook {
  import opened Wrappers
  import opened Numbers
  import opened Paging
  import opened Outcomes
  import opened RouteParams
  import opened ClientParams
  import opened RecordsRoute
  import RecordsApi

  const SearchFailure := "Error al obtener registros. Por favor, intenta nuevamente."
  const InitialPageSize: int := 5

  /** The hook's arguments: the selected project's name, if any, and the three
      filter values, "" meaning no filter. */
  datatype Selection = Selection(project: Option<string>, zone: string, category: string, period: string)

  /** The `params` object the hook builds for page `pageToUse`. */
  function RequestFor(sel: Selection, pageToUse: int, pageSize: int): RecordsApi.SearchRecordsParams
    requires sel.project.Some?
  {
    RecordsApi.SearchRecordsParams(sel.project.value, NonEmpty(sel.zone), NonEmpty(sel.category), NonEmpty(sel.period),
                                   Num(pageToUse), Num(pageSize))
  }

  /** What the route reads from the query string the hook's request turns
      into: the selected project, each filter exactly when it is non-empty,
      a positive page as requested, and the hook's page size. */
  lemma RequestReachesRoute(sel: Selection, pageToUse: int, pageSize: int, query: Query)
    requires sel.project.Some? && pageToUse >= 1 && 1 <= pageSize <= MaxPageSize
    requires RecordsApi.SentFor(RequestFor(sel, pageToUse, pageSize), query)
    ensures var sq := RecordsApi.ServerQuery(query);
      && sq.project == sel.project
      && sq.zone == NonEmpty(sel.zone) && sq.category == NonEmpty(sel.category) && sq.period == NonEmpty(sel.period)
      && IsPageFor(sq.page, pageToUse)
      && IsPageSizeFor(sq.pageSize, DefaultPageSize, pageSize)
  {
    RecordsApi.ServerReadsWhatWasSent(RequestFor(sel, pageToUse, pageSize), query);
  }

  class RecordsSearch {
    var items: seq<RecordItem>
    var page: int
    var pageSize: int
    var totalPages: int
    var totalItems: int
    var loadingResults: bool
    var error: Option<string>
    var isInitialMount: bool

    /** The numbers shown agree with each other, as in a body the route sends. */
    predicate Valid()
      reads this
    {
      && 1 <= pageSize <= MaxPageSize
      && 0 <= totalItems
      && totalPages == CeilDiv(totalItems, pageSize)
      && |items| <= pageSize
      && |items| <= totalItems
    }

    /** No results and no error. */
    predicate Cleared()
      reads this
    {
      items == [] && totalItems == 0 && totalPages == 0 && error.None?
    }

    /** The state once a search with a selected project has settled: the
        response's page, page size, items and totals, or, on failure, the
        message, no items and zero totals with the page and page size of
        before. */
    predicate Settled(outcome: Outcome<RecordsPage>, pageBefore: int, pageSizeBefore: int)
      reads this
    {
      && !loadingResults
      && match outcome
         case Ok(resp) =>
           && items == resp.items && page == resp.page && pageSize == resp.pageSize
           && totalItems == resp.totalItems && totalPages == resp.totalPages && error.None?
         case Err(thrown) =>
           && items == [] && totalItems == 0 && totalPages == 0
           && error == Some(MessageOf(thrown, SearchFailure))
           && page == pageBefore && pageSize == pageSizeBefore
    }

    constructor()
      ensures Valid() && Cleared()
      ensures page == 1 && pageSize == InitialPageSize && !loadingResults && isInitialMount
    {
      items := [];
      page := 1;
      pageSize := InitialPageSize;
      totalPages := 0;
      totalItems := 0;
      loadingResults := false;
      error := None;
      isInitialMount := true;
    }

    /** `performSearch(pageToUse)`: with no project, clear the results and
        request nothing; otherwise request page `pageToUse` and settle. */
    method PerformSearch(sel: Selection, pageToUse: int, outcome: Outcome<RecordsPage>)
      returns (request: Option<RecordsApi.SearchRecordsParams>)
      requires Valid()
      requires outcome.Ok? ==> WellFormed(outcome.value)
      modifies this
      ensures Valid()
      ensures isInitialMount == old(isInitialMount)
      ensures sel.project.None? ==>
        && request.None? && Cleared()
        && page == old(page) && pageSize == old(pageSize) && loadingResults == old(loadingResults)
      ensures sel.project.Some? ==>
        && request == Some(RequestFor(sel, pageToUse, old(pageSize)))
        && Settled(outcome, old(page), old(pageSize))
    {
      if sel.project.None? {
        items, totalItems, totalPages, error := [], 0, 0, None;
        return None;
      }
      loadingResults := true;
      error := None;
      request := Some(RequestFor(sel, pageToUse, pageSize));
      if outcome.Ok? {
        var resp := outcome.value;
        items := resp.items;
        page := resp.page;
        pageSize := resp.pageSize;
        totalItems := resp.totalItems;
        totalPages := resp.totalPages;
      } else {
        error := Some(MessageOf(outcome.error, SearchFailure));
        items, totalItems, totalPages := [], 0, 0;
      }
      loadingResults := false;
    }

    /** The effect on a change of project or filters: nothing on the first
        render; then page 1 is searched when a project is selected, and the
        results are cleared when none is. */
    method SelectionChanged(sel: Selection, outcome: Outcome<RecordsPage>)
      returns (request: Option<RecordsApi.SearchRecordsParams>)
      requires Valid()
      requires outcome.Ok? ==> WellFormed(outcome.value)
      modifies this
      ensures Valid()
      ensures !isInitialMount
      ensures old(isInitialMount) ==>
        && request.None? && items == old(items) && page == old(page) && pageSize == old(pageSize)
        && totalItems == old(totalItems) && totalPages == old(totalPages)
        && loadingResults == old(loadingResults) && error == old(error)
      ensures !old(isInitialMount) && sel.project.None? ==>
        && request.None? && Cleared()
        && page == old(page) && pageSize == old(pageSize) && loadingResults == old(loadingResults)
      ensures !old(isInitialMount) && sel.project.Some? ==>
        && request == Some(RequestFor(sel, 1, old(pageSize)))
        && Settled(outcome, 1, old(pageSize))
    {
      if isInitialMount {
        isInitialMount := false;
        return None;
      }
      if sel.project.Some? {
        page := 1;
        request := PerformSearch(sel, 1, outcome);
      } else {
        items, totalItems, totalPages, error := [], 0, 0, None;
        request := None;
      }
    }

    /** The exposed `setPage`: nothing without a project; otherwise move to
        `newPage` and search it. */
    method SetPageAndSearch(sel: Selection, newPage: int, outcome: Outcome<RecordsPage>)
      returns (request: Option<RecordsApi.SearchRecordsParams>)
      requires Valid()
      requires outcome.Ok? ==> WellFormed(outcome.value)
      modifies this
      ensures Valid()
      ensures isInitialMount == old(isInitialMount)
      ensures sel.project.None? ==>
        && request.None? && items == old(items) && page == old(page) && pageSize == old(pageSize)
        && totalItems == old(totalItems) && totalPages == old(totalPages)
        && loadingResults == old(loadingResults) && error == old(error)
      ensures sel.project.Some? ==>
        && request == Some(RequestFor(sel, newPage, old(pageSize)))
        && Settled(outcome, newPage, old(pageSize))
    {
      if sel.project.None? {
        return None;
      }
      page := newPage;
      request := PerformSearch(sel, newPage, outcome);
    }

    /** `refresh`: search the current page again when a project is selected. */
    method Refresh(sel: Selection, outcome: Outcome<RecordsPage>)
      returns (request: Option<RecordsApi.SearchRecordsParams>)
      requires Valid()
      requires outcome.Ok? ==> WellFormed(outcome.value)
      modifies this
      ensures Valid()
      ensures isInitialMount == old(isInitialMount)
      ensures sel.project.None? ==>
        && request.None? && items == old(items) && page == old(page) && pageSize == old(pageSize)
        && totalItems == old(totalItems) && totalPages == old(totalPages)
        && loadingResults == old(loadingResults) && error == old(error)
      ensures sel.project.Some? ==>
        && request == Some(RequestFor(sel, old(page), old(pageSize)))
        && Settled(outcome, old(page), old(pageSize))
    {
      if sel.project.None? {
        return None;
      }
      request := PerformSearch(sel, page, outcome);
    }
  }
}
