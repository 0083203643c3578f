/** The older `useRecordsSearch` hook: a search the user starts by hand with
    `handleSearch`, a default page size of 20, zone and category filters only,
    and totals that survive a failed search. */
module LegacyRecordsSearchHook {
  import opened Wrappers
  import opened Paging
  import opened Outcomes
  import opened RouteParams
  import opened ClientParams
  import opened RecordsRoute
  import LegacyRecordsApi
  import RecordsApi

  const NoProject := "Por favor, selecciona un proyecto primero"
  const SearchFailure := "Error al obtener registros. Por favor, intenta nuevamente."
  const InitialPageSize: int := 20

  /** The hook's arguments: the selected project's name, if any, and the two
      filter values, "" meaning no filter. */
  datatype Selection = Selection(project: Option<string>, zone: string, category: string)

  /** The `params` object `handleSearch` builds from the current page and page size. */
  function RequestFor(sel: Selection, page: int, pageSize: int): LegacyRecordsApi.LegacySearchParams
    requires sel.project.Some?
  {
    LegacyRecordsApi.LegacySearchParams(sel.project.value, NonEmpty(sel.zone), NonEmpty(sel.category), Num(page), Num(pageSize))
  }

  class LegacyRecordsSearch {
    var items: seq<RecordItem>
    var page: int
    var pageSize: int
    var totalPages: int
    var totalItems: int
    var loadingResults: bool
    var error: Option<string>

    /** The numbers shown agree with each other, as in a body the route sends. */
    predicate Valid()
      reads this
    {
      && 1 <= pageSize <= MaxPageSize
      && 0 <= totalItems
      && totalPages == CeilDiv(totalItems, pageSize)
      && |items| <= pageSize
      && |items| <= totalItems
    }

    constructor()
      ensures Valid()
      ensures items == [] && page == 1 && pageSize == InitialPageSize
      ensures totalPages == 0 && totalItems == 0 && !loadingResults && error.None?
    {
      items := [];
      page := 1;
      pageSize := InitialPageSize;
      totalPages := 0;
      totalItems := 0;
      loadingResults := false;
      error := None;
    }

    /** `handleSearch`: without a project only the error is set and nothing is
        requested. Otherwise the current page is requested; a response replaces
        page, page size, items and totals, and a failure sets the error and
        empties the items but keeps the totals of the previous search. */
    method HandleSearch(sel: Selection, outcome: Outcome<RecordsPage>)
      returns (request: Option<LegacyRecordsApi.LegacySearchParams>)
      requires Valid()
      requires outcome.Ok? ==> WellFormed(outcome.value)
      modifies this
      ensures Valid()
      ensures sel.project.None? ==>
        && request.None? && error == Some(NoProject)
        && items == old(items) && page == old(page) && pageSize == old(pageSize)
        && totalItems == old(totalItems) && totalPages == old(totalPages) && loadingResults == old(loadingResults)
      ensures sel.project.Some? ==> request == Some(RequestFor(sel, old(page), old(pageSize))) && !loadingResults
      ensures sel.project.Some? && outcome.Ok? ==>
        && items == outcome.value.items && page == outcome.value.page && pageSize == outcome.value.pageSize
        && totalItems == outcome.value.totalItems && totalPages == outcome.value.totalPages && error.None?
      ensures sel.project.Some? && outcome.Err? ==>
        && items == [] && error == Some(MessageOf(outcome.error, SearchFailure))
        && page == old(page) && pageSize == old(pageSize)
        && totalItems == old(totalItems) && totalPages == old(totalPages)
    {
      if sel.project.None? {
        error := Some(NoProject);
        return None;
      }
      loadingResults := true;
      error := None;
      request := Some(RequestFor(sel, page, pageSize));
      if outcome.Ok? {
        var resp := outcome.value;
        items := resp.items;
        page := resp.page;
        pageSize := resp.pageSize;
        totalItems := resp.totalItems;
        totalPages := resp.totalPages;
      } else {
        error := Some(MessageOf(outcome.error, SearchFailure));
        items := [];
      }
      loadingResults := false;
    }
  }

  /** Every request `handleSearch` makes on a state the class keeps valid is
      read by the route as sent: the page size stays within 1..50, so the
      route does not cap it, and a page from 1 on is the page searched. */
  lemma RequestReachesRoute(sel: Selection, page: int, pageSize: int, query: Query)
    requires sel.project.Some? && page >= 1 && 1 <= pageSize <= MaxPageSize
    requires LegacyRecordsApi.SentFor(RequestFor(sel, page, pageSize), query)
    ensures var sq := RecordsApi.ServerQuery(query);
      && sq.project == sel.project
      && sq.period.None?
      && IsPageFor(sq.page, page)
      && IsPageSizeFor(sq.pageSize, DefaultPageSize, pageSize)
  {
    LegacyRecordsApi.ServerReadsLegacyQuery(RequestFor(sel, page, pageSize), query);
  }
}
