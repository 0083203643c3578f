/** The three hooks that load one record or unit by id and remember what
    they loaded: a hit is served from the cache without a request, a
    successful load is added to it, and a failure leaves it as it was. The
    details themselves are any type `D`; each load is given the settled
    outcome of the request it would make. */
module DetailsCaches {
  import opened Wrappers
  import opened Outcomes

  const RecordFailure := "Error al obtener detalles. Por favor, intenta nuevamente."
  const UnitFailure := "Error al cargar detalles de la unidad"

  /** The `useRecordDetails` hook of the projects feature, with its own cache. */
  class RecordDetailsHook<D> {
    var details: Option<D>
    var loadingDetails: bool
    var errorDetails: Option<string>
    var cache: map<int, D>

    constructor()
      ensures details.None? && !loadingDetails && errorDetails.None? && cache == map[]
    {
      details := None;
      loadingDetails := false;
      errorDetails := None;
      cache := map[];
    }

    /** `loadDetails(id)`. Returns whether a request was made. */
    method LoadDetails(id: int, fetch: Outcome<D>) returns (fetched: bool)
      modifies this
      ensures fetched <==> id !in old(cache)
      ensures !loadingDetails
      ensures id in old(cache) ==> details == Some(old(cache)[id]) && errorDetails.None? && cache == old(cache)
      ensures id !in old(cache) && fetch.Ok? ==>
        details == Some(fetch.value) && errorDetails.None? && cache == old(cache)[id := fetch.value]
      ensures id !in old(cache) && fetch.Err? ==>
        details.None? && errorDetails == Some(MessageOf(fetch.error, RecordFailure)) && cache == old(cache)
      ensures forall k :: k in old(cache) ==> k in cache && cache[k] == old(cache)[k]
    {
      errorDetails := None;
      if id in cache {
        details := Some(cache[id]);
        loadingDetails := false;
        return false;
      }
      loadingDetails := true;
      if fetch.Ok? {
        details := Some(fetch.value);
        cache := cache[id := fetch.value];
      } else {
        errorDetails := Some(MessageOf(fetch.error, RecordFailure));
        details := None;
      }
      loadingDetails := false;
      return true;
    }
  }

  /** The module-level cache of `useUnitDetails`: one object every instance
      of the hook shares. */
  class UnitCache<D> {
    var entries: map<int, D>

    constructor()
      ensures entries == map[]
    {
      entries := map[];
    }
  }

  /** The `useUnitDetails` hook: its own state over the shared cache. */
  class UnitDetailsHook<D> {
    var details: Option<D>
    var loading: bool
    var error: Option<string>
    const cache: UnitCache<D>

    constructor(shared: UnitCache<D>)
      ensures cache == shared
      ensures details.None? && !loading && error.None?
    {
      cache := shared;
      details := None;
      loading := false;
      error := None;
    }

    /** `loadDetails(unitId)`. A hit leaves the loading flag alone. Returns
        whether a request was made. */
    method LoadDetails(id: int, fetch: Outcome<D>) returns (fetched: bool)
      modifies this, cache
      ensures fetched <==> id !in old(cache.entries)
      ensures id in old(cache.entries) ==>
        details == Some(old(cache.entries)[id]) && error.None? && loading == old(loading) && cache.entries == old(cache.entries)
      ensures id !in old(cache.entries) ==> !loading
      ensures id !in old(cache.entries) && fetch.Ok? ==>
        details == Some(fetch.value) && error.None? && cache.entries == old(cache.entries)[id := fetch.value]
      ensures id !in old(cache.entries) && fetch.Err? ==>
        details.None? && error == Some(MessageOf(fetch.error, UnitFailure)) && cache.entries == old(cache.entries)
    {
      if id in cache.entries {
        details := Some(cache.entries[id]);
        error := None;
        return false;
      }
      loading := true;
      error := None;
      if fetch.Ok? {
        cache.entries := cache.entries[id := fetch.value];
        details := Some(fetch.value);
      } else {
        error := Some(MessageOf(fetch.error, UnitFailure));
        details := None;
      }
      loading := false;
      return true;
    }

    /** `clearCache`: the shared cache is emptied, for every instance, and
        this instance's details are dropped. */
    method ClearCache()
      modifies this, cache
      ensures cache.entries == map[] && details.None?
      ensures loading == old(loading) && error == old(error)
    {
      cache.entries := map[];
      details := None;
    }
  }

  /** A unit one instance of the hook loaded is served to another instance
      from the shared cache, without a request, even when that request would
      have failed. */
  method SharedCacheServesOtherInstance<D>(id: int, unit: D) returns (secondFetched: bool, secondDetails: Option<D>)
    ensures !secondFetched && secondDetails == Some(unit)
  {
    var shared := new UnitCache<D>();
    var first := new UnitDetailsHook<D>(shared);
    var second := new UnitDetailsHook<D>(shared);
    var firstFetched := first.LoadDetails(id, Ok(unit));
    secondFetched := second.LoadDetails(id, Err(NonError));
    secondDetails := second.details;
  }

  /** The older `useRecordDetails` hook: a details modal and a cache that is
      replaced by an extended copy on every successful load. */
  class LegacyRecordDetailsHook<D> {
    var isModalOpen: bool
    var selectedId: Option<int>
    var details: Option<D>
    var loadingDetails: bool
    var errorDetails: Option<string>
    var cache: map<int, D>

    constructor()
      ensures !isModalOpen && selectedId.None? && details.None? && !loadingDetails && errorDetails.None? && cache == map[]
    {
      isModalOpen := false;
      selectedId := None;
      details := None;
      loadingDetails := false;
      errorDetails := None;
      cache := map[];
    }

    /** `openDetails(id)`: select the id and open the modal, then serve the
        details from the cache or load them. Returns whether a request was made. */
    method OpenDetails(id: int, fetch: Outcome<D>) returns (fetched: bool)
      modifies this
      ensures selectedId == Some(id) && isModalOpen && !loadingDetails
      ensures fetched <==> id !in old(cache)
      ensures id in old(cache) ==> details == Some(old(cache)[id]) && errorDetails.None? && cache == old(cache)
      ensures id !in old(cache) && fetch.Ok? ==>
        details == Some(fetch.value) && errorDetails.None? && cache == old(cache)[id := fetch.value]
      ensures id !in old(cache) && fetch.Err? ==>
        details.None? && errorDetails == Some(MessageOf(fetch.error, RecordFailure)) && cache == old(cache)
      ensures forall k :: k in old(cache) ==> k in cache && cache[k] == old(cache)[k]
    {
      selectedId := Some(id);
      isModalOpen := true;
      errorDetails := None;
      if id in cache {
        details := Some(cache[id]);
        loadingDetails := false;
        return false;
      }
      loadingDetails := true;
      if fetch.Ok? {
        details := Some(fetch.value);
        cache := cache[id := fetch.value];
      } else {
        errorDetails := Some(MessageOf(fetch.error, RecordFailure));
        details := None;
      }
      loadingDetails := false;
      return true;
    }

    /** `closeModal`: close the modal and forget the selection and the error;
        the details and the cache stay. */
    method CloseModal()
      modifies this
      ensures !isModalOpen && selectedId.None? && errorDetails.None?
      ensures details == old(details) && cache == old(cache) && loadingDetails == old(loadingDetails)
    {
      isModalOpen := false;
      selectedId := None;
      errorDetails := None;
    }
  }

  /** Reopening a record after closing the modal is served from the cache. */
  method ReopenIsServedFromCache<D>(id: int, record: D) returns (fetchedAgain: bool, shown: Option<D>)
    ensures !fetchedAgain && shown == Some(record)
  {
    var hook := new LegacyRecordDetailsHook<D>();
    var fetched := hook.OpenDetails(id, Ok(record));
    hook.CloseModal();
    fetchedAgain := hook.OpenDetails(id, Err(NonError));
    shown := hook.details;
  }
}
