/** The `useUnitsSearch` hook: the current page of units, the loading flag,
    the last error, and the page number the user moves through. The effects
    are methods the caller invokes when React would run them; the search is
    given the settled outcome of its `searchUnits` call. */
module UnitsSearchHook {
  import opened Wrappers
  import opened Outcomes
  import opened ClientParams
  import opened UnitsRoute
  import UnitsApi

  /** The message used when the call threw something other than an `Error`. */
  const SearchFailure := "Error al buscar unidades"

  class UnitsSearch {
    var data: Option<UnitsPage>
    var loading: bool
    var error: Option<string>
    var page: int

    /** The page number never drops below 1, and a loaded page is a body the
        route can send. */
    predicate Valid()
      reads this
    {
      page >= 1 && (data.Some? ==> WellFormed(data.value))
    }

    constructor()
      ensures Valid()
      ensures data.None? && !loading && error.None? && page == 1
    {
      data := None;
      loading := false;
      error := None;
      page := 1;
    }

    /** The first effect: a change of the record, period, use, availability,
        bedrooms or sort sends the hook back to page 1. */
    method FiltersChanged()
      requires Valid()
      modifies this
      ensures Valid()
      ensures page == 1
      ensures data == old(data) && loading == old(loading) && error == old(error)
    {
      page := 1;
    }

    /** The second effect, run to completion. Without parameters the data is
        dropped and nothing is requested; otherwise the current page is
        requested, a result replaces the data, and a failure keeps the old
        data and records the message. */
    method Search(params: Option<UnitsApi.SearchUnitsParams>, outcome: Outcome<UnitsPage>)
      returns (request: Option<UnitsApi.SearchUnitsParams>)
      requires Valid()
      requires outcome.Ok? ==> WellFormed(outcome.value)
      modifies this
      ensures Valid()
      ensures page == old(page)
      ensures params.None? ==> request.None? && data.None? && loading == old(loading) && error == old(error)
      ensures params.Some? ==> request == Some(params.value.(page := Num(old(page)))) && !loading
      ensures params.Some? && outcome.Ok? ==> data == Some(outcome.value) && error.None?
      ensures params.Some? && outcome.Err? ==> data == old(data) && error == Some(MessageOf(outcome.error, SearchFailure))
    {
      if params.None? {
        data := None;
        return None;
      }
      loading := true;
      error := None;
      request := Some(params.value.(page := Num(page)));
      if outcome.Ok? {
        data := Some(outcome.value);
      } else {
        error := Some(MessageOf(outcome.error, SearchFailure));
      }
      loading := false;
    }

    /** `goToPage`: only to a page of the loaded result. */
    method GoToPage(newPage: int)
      requires Valid()
      modifies this
      ensures Valid()
      ensures page == if data.Some? && 1 <= newPage <= data.value.totalPages then newPage else old(page)
      ensures data == old(data) && loading == old(loading) && error == old(error)
      ensures data.Some? && old(page) <= data.value.totalPages ==> page <= data.value.totalPages
    {
      if data.Some? && newPage >= 1 && newPage <= data.value.totalPages {
        page := newPage;
      }
    }

    /** `goToPreviousPage`: one page back, never below page 1. */
    method GoToPreviousPage()
      requires Valid()
      modifies this
      ensures Valid()
      ensures page == if old(page) > 1 then old(page) - 1 else old(page)
      ensures data == old(data) && loading == old(loading) && error == old(error)
      ensures data.Some? && old(page) <= data.value.totalPages ==> page <= data.value.totalPages
    {
      if page > 1 {
        page := page - 1;
      }
    }

    /** `goToNextPage`: one page on, never past the last page of the loaded result. */
    method GoToNextPage()
      requires Valid()
      modifies this
      ensures Valid()
      ensures page == if data.Some? && old(page) < data.value.totalPages then old(page) + 1 else old(page)
      ensures data == old(data) && loading == old(loading) && error == old(error)
      ensures data.Some? && old(page) <= data.value.totalPages ==> page <= data.value.totalPages
    {
      if data.Some? && page < data.value.totalPages {
        page := page + 1;
      }
    }
  }
}
