/** `GET /api/records`: the page of `housing_universe` rows of one project,
    optionally narrowed by zone, category and period, ordered by project name
    and id, each row enriched with its unit counts from `housing_units`. */
module RecordsRoute {
  import opened Wrappers
  import opened Text
  import opened Ordering
  import opened Paging
  import opened Tables
  import opened RouteParams

  const DefaultPageSize: nat := 5
  const MissingProject := "El parámetro 'project' es obligatorio"
  const DatabaseFailure := "Error al obtener registros"
  const Available := "Disponible"

  /** The query string: each parameter is absent (`None`) or its decoded text. */
  datatype RecordsQuery = RecordsQuery(
    project: Option<string>,
    zone: Option<string>,
    category: Option<string>,
    period: Option<string>,
    page: Option<string>,
    pageSize: Option<string>)

  /** The `where` object: the project always, the other columns when set. */
  datatype RecordsWhere = RecordsWhere(
    proyecto: string,
    zona: Option<string>,
    categoria: Option<string>,
    periodo: Option<string>)

  /** One element of `items`: the selected columns and the two unit counts. */
  datatype RecordItem = RecordItem(
    id: int,
    proyecto: string,
    categoria: string,
    zona: Option<string>,
    periodo: string,
    totalUnidades: nat,
    unidadesDisponibles: nat)

  /** The JSON body of a successful response. */
  datatype RecordsPage = RecordsPage(
    items: seq<RecordItem>,
    page: nat,
    pageSize: nat,
    totalItems: nat,
    totalPages: nat)

  /** A row satisfies the `where` object. */
  predicate Matches(w: RecordsWhere, r: UniverseRow) {
    && r.proyecto == w.proyecto
    && (w.zona.Some? ==> r.zona == w.zona)
    && (w.categoria.Some? ==> r.categoria == w.categoria.value)
    && (w.periodo.Some? ==> r.periodo == w.periodo.value)
  }

  /** The rows `count({ where })` counts and `findMany({ where })` reads. */
  function Matching(universe: seq<UniverseRow>, w: RecordsWhere): (r: seq<UniverseRow>)
    ensures forall x :: x in r <==> x in universe && Matches(w, x)
  {
    Filter(universe, (x: UniverseRow) => Matches(w, x))
  }

  /** `orderBy: [{ proyecto: "asc" }, { id: "asc" }]`. */
  predicate ProjectThenId(a: UniverseRow, b: UniverseRow) {
    LexLe(a.proyecto, b.proyecto) && (a.proyecto == b.proyecto ==> a.id <= b.id)
  }

  /** The `where` object the handler builds for a non-blank project. */
  function WhereFor(q: RecordsQuery): (w: RecordsWhere)
    requires !IsBlankParam(q.project)
    ensures w.proyecto == Trim(q.project.value) && w.proyecto != []
    ensures w.zona == TrimmedFilter(q.zone)
    ensures w.categoria == TrimmedFilter(q.category)
    ensures w.periodo == TrimmedFilter(q.period)
  {
    RecordsWhere(Trim(q.project.value), TrimmedFilter(q.zone), TrimmedFilter(q.category), TrimmedFilter(q.period))
  }

  /** The rows on page `page`: sorted, `skip` and `take` applied. */
  function Listing(universe: seq<UniverseRow>, w: RecordsWhere, page: nat, size: nat): seq<UniverseRow>
    requires page >= 1
  {
    PageOf(SortBy(Matching(universe, w), ProjectThenId), page, size)
  }

  /** The units of the row's project and period. */
  function UnitsOf(units: seq<UnitRow>, r: UniverseRow): (us: seq<UnitRow>)
    ensures forall u :: u in us <==> u in units && u.proyecto == r.proyecto && u.periodo == Some(r.periodo)
  {
    Filter(units, (u: UnitRow) => u.proyecto == r.proyecto && u.periodo == Some(r.periodo))
  }

  /** The units of the row's project and period whose availability is "Disponible". */
  function AvailableUnitsOf(units: seq<UnitRow>, r: UniverseRow): (us: seq<UnitRow>)
    ensures forall u :: u in us <==>
      u in units && u.proyecto == r.proyecto && u.periodo == Some(r.periodo) && u.disponibilidad == Some(Available)
  {
    Filter(units, (u: UnitRow) => u.proyecto == r.proyecto && u.periodo == Some(r.periodo) && u.disponibilidad == Some(Available))
  }

  /** Each unit row is counted as often as it occurs in the table when it has
      the record's project and period (and, for the available count, is
      "Disponible"), and not at all otherwise; so the sizes of these lists
      are the two counts `count({ where })` returns. */
  lemma {:induction false} UnitCountsCountMatchingRows(units: seq<UnitRow>, r: UniverseRow, u: UnitRow)
    ensures multiset(UnitsOf(units, r))[u] ==
      if u.proyecto == r.proyecto && u.periodo == Some(r.periodo) then multiset(units)[u] else 0
    ensures multiset(AvailableUnitsOf(units, r))[u] ==
      if u.proyecto == r.proyecto && u.periodo == Some(r.periodo) && u.disponibilidad == Some(Available)
      then multiset(units)[u] else 0
  {
    FilterMultiset(units, (x: UnitRow) => x.proyecto == r.proyecto && x.periodo == Some(r.periodo), u);
    FilterMultiset(units,
      (x: UnitRow) => x.proyecto == r.proyecto && x.periodo == Some(r.periodo) && x.disponibilidad == Some(Available), u);
  }

  /** A row with its unit counts: all units of its project and period, and
      those of them that are "Disponible". No more units are available than exist. */
  function Enrich(r: UniverseRow, units: seq<UnitRow>): (item: RecordItem)
    ensures item.id == r.id && item.proyecto == r.proyecto && item.periodo == r.periodo
    ensures item.categoria == r.categoria && item.zona == r.zona
    ensures item.totalUnidades == |UnitsOf(units, r)|
    ensures item.unidadesDisponibles == |AvailableUnitsOf(units, r)|
    ensures item.unidadesDisponibles <= item.totalUnidades
  {
    FilterCountMonotone(units,
      (u: UnitRow) => u.proyecto == r.proyecto && u.periodo == Some(r.periodo) && u.disponibilidad == Some(Available),
      (u: UnitRow) => u.proyecto == r.proyecto && u.periodo == Some(r.periodo));
    RecordItem(r.id, r.proyecto, r.categoria, r.zona, r.periodo,
               |UnitsOf(units, r)|, |AvailableUnitsOf(units, r)|)
  }

  /** `Promise.all(records.map(...))`: each row enriched, in order. */
  function EnrichAll(rows: seq<UniverseRow>, units: seq<UnitRow>): (items: seq<RecordItem>)
    ensures |items| == |rows|
    ensures forall i :: 0 <= i < |rows| ==> items[i] == Enrich(rows[i], units)
  {
    if rows == [] then [] else [Enrich(rows[0], units)] + EnrichAll(rows[1..], units)
  }

  /** `resp` is the body the handler sends for query `q` against `db`. */
  ghost predicate Answers(q: RecordsQuery, db: Database, resp: RecordsPage)
    requires !IsBlankParam(q.project)
  {
    var w := WhereFor(q);
    && resp.page >= 1
    && IsPageFor(q.page, resp.page)
    && IsPageSizeFor(q.pageSize, DefaultPageSize, resp.pageSize)
    && 1 <= resp.pageSize <= MaxPageSize
    && resp.totalItems == |Matching(db.universe, w)|
    && resp.totalPages == CeilDiv(resp.totalItems, resp.pageSize)
    && resp.items == EnrichAll(Listing(db.universe, w, resp.page, resp.pageSize), db.units)
  }

  /** A response body whose numbers agree with each other: a page from 1 on,
      a page size from 1 to 50, as many pages as the total needs, and no more
      items than a page holds or than there are in all. */
  predicate WellFormed(resp: RecordsPage) {
    && resp.page >= 1
    && 1 <= resp.pageSize <= MaxPageSize
    && resp.totalPages == CeilDiv(resp.totalItems, resp.pageSize)
    && |resp.items| <= resp.pageSize
    && |resp.items| <= resp.totalItems
  }

  /** Every body the handler sends is well formed. */
  lemma AnswersAreWellFormed(q: RecordsQuery, db: Database, resp: RecordsPage)
    requires !IsBlankParam(q.project) && Answers(q, db, resp)
    ensures WellFormed(resp)
  {
    var sorted := SortBy(Matching(db.universe, WhereFor(q)), ProjectThenId);
    PageAtMostSize(sorted, resp.page, resp.pageSize);
    assert |sorted| == |multiset(sorted)| == resp.totalItems;
  }

  /** The handler. `db` is `None` when a database call fails. */
  method Get(q: RecordsQuery, db: Option<Database>) returns (r: Result<RecordsPage, ErrorResponse>)
    ensures IsBlankParam(q.project) ==> r == Err(ErrorResponse(400, MissingProject))
    ensures !IsBlankParam(q.project) && db.None? ==> r == Err(ErrorResponse(500, DatabaseFailure))
    ensures !IsBlankParam(q.project) && db.Some? ==> r.Ok? && Answers(q, db.value, r.value)
  {
    if IsBlankParam(q.project) {
      return Err(ErrorResponse(400, MissingProject));
    }
    var project := Trim(q.project.value);
    var zone := TrimmedFilter(q.zone);
    var category := TrimmedFilter(q.category);
    var period := TrimmedFilter(q.period);

    var page := ReadPage(q.page);
    var pageSize := ReadPageSize(q.pageSize, DefaultPageSize);
    var finalPageSize: nat := Min(pageSize, MaxPageSize);

    var where := RecordsWhere(project, None, None, None);
    if zone.Some? {
      where := where.(zona := zone);
    }
    if category.Some? {
      where := where.(categoria := category);
    }
    if period.Some? {
      where := where.(periodo := period);
    }

    assert where == WhereFor(q);

    if db.None? {
      return Err(ErrorResponse(500, DatabaseFailure));
    }
    var skip := Skip(page, finalPageSize);
    var totalItems := |Matching(db.value.universe, where)|;
    var totalPages := CeilDiv(totalItems, finalPageSize);
    var records := Take(Drop(SortBy(Matching(db.value.universe, where), ProjectThenId), skip), finalPageSize);
    assert records == Listing(db.value.universe, where, page, finalPageSize);
    var items := EnrichAll(records, db.value.units);
    return Ok(RecordsPage(items, page, finalPageSize, totalItems, totalPages));
  }

  /** `ProjectThenId` is a total order on rows, and rows with distinct ids are
      never tied, so `ORDER BY proyecto, id` leaves nothing to chance. */
  lemma ProjectThenIdIsTotalOrder(s: seq<UniverseRow>)
    requires UniqueKeys(s, UniverseId)
    ensures Total(ProjectThenId) && Transitive(ProjectThenId)
    ensures AntisymmetricOn(ProjectThenId, s)
  {
    LexLeIsTotalOrder();
    forall i, j | 0 <= i < |s| && 0 <= j < |s| && ProjectThenId(s[i], s[j]) && ProjectThenId(s[j], s[i])
      ensures s[i] == s[j]
    {
      assert UniverseId(s[i]) == UniverseId(s[j]);
    }
  }

  /** Every listed row satisfies the filters: it belongs to the trimmed project
      and to each zone, category and period that was given. */
  lemma ListingMatches(universe: seq<UniverseRow>, w: RecordsWhere, page: nat, size: nat)
    requires page >= 1
    ensures forall x :: x in Listing(universe, w, page, size) ==> x in universe && Matches(w, x)
  {
    var sorted := SortBy(Matching(universe, w), ProjectThenId);
    PageIsSlice(sorted, page, size);
    forall x | x in Listing(universe, w, page, size) ensures x in universe && Matches(w, x) {
      assert x in multiset(sorted);
    }
  }

  /** The page bounds of a response: at most `pageSize` items; `totalPages` is 0
      exactly when nothing matches; every page up to `totalPages` holds a row and
      every page past it is empty. */
  lemma PageBounds(universe: seq<UniverseRow>, w: RecordsWhere, page: nat, size: nat)
    requires page >= 1 && size >= 1
    ensures |Listing(universe, w, page, size)| <= size
    ensures CeilDiv(|Matching(universe, w)|, size) == 0 <==> Matching(universe, w) == []
    ensures page <= CeilDiv(|Matching(universe, w)|, size) ==> Listing(universe, w, page, size) != []
    ensures page > CeilDiv(|Matching(universe, w)|, size) ==> Listing(universe, w, page, size) == []
  {
    var sorted := SortBy(Matching(universe, w), ProjectThenId);
    assert |sorted| == |multiset(sorted)| == |Matching(universe, w)|;
    PageAtMostSize(sorted, page, size);
    if page <= CeilDiv(|sorted|, size) {
      PageNonEmpty(sorted, page, size);
    } else {
      PageBeyondLast(sorted, page, size);
    }
  }

  /** Walking pages 1 to `totalPages` visits every matching row exactly once:
      the pages put together are the matching rows in order, no id shows up
      on two pages, and no id shows up twice on one page. */
  lemma PagesCoverMatches(universe: seq<UniverseRow>, w: RecordsWhere, size: nat)
    requires UniverseTable(universe) && size >= 1
    ensures var sorted := SortBy(Matching(universe, w), ProjectThenId);
      && multiset(sorted) == multiset(Matching(universe, w))
      && Sorted(sorted, ProjectThenId)
      && Pages(sorted, size, CeilDiv(|Matching(universe, w)|, size)) == sorted
      && UniqueKeys(sorted, UniverseId)
      && forall p, p' :: 1 <= p < p' ==>
           forall x, y :: x in Listing(universe, w, p, size) && y in Listing(universe, w, p', size) ==> x.id != y.id
  {
    var sorted := SortBy(Matching(universe, w), ProjectThenId);
    SortedMatches(universe, w);
    PagesPartition(sorted, size);
    forall p, p' | 1 <= p < p'
      ensures forall x, y :: x in Listing(universe, w, p, size) && y in Listing(universe, w, p', size) ==> x.id != y.id
    {
      ListingsDisjoint(universe, w, size, p, p');
    }
  }

  /** Two different pages of the listing share no id. */
  lemma ListingsDisjoint(universe: seq<UniverseRow>, w: RecordsWhere, size: nat, p: nat, p': nat)
    requires UniverseTable(universe) && 1 <= p < p'
    ensures forall x, y :: x in Listing(universe, w, p, size) && y in Listing(universe, w, p', size) ==> x.id != y.id
  {
    var sorted := SortBy(Matching(universe, w), ProjectThenId);
    SortedMatches(universe, w);
    PagesDisjoint(sorted, size, p, p', UniverseId);
    var a, b := PageOf(sorted, p, size), PageOf(sorted, p', size);
    assert Listing(universe, w, p, size) == a && Listing(universe, w, p', size) == b;
    forall x, y | x in a && y in b ensures x.id != y.id {
      assert UniverseId(x) != UniverseId(y);
    }
  }

  /** The matching rows in listing order: a reordering of the matching rows,
      sorted, with distinct ids. */
  lemma SortedMatches(universe: seq<UniverseRow>, w: RecordsWhere)
    requires UniverseTable(universe)
    ensures var matching := Matching(universe, w);
      var sorted := SortBy(matching, ProjectThenId);
      && multiset(sorted) == multiset(matching)
      && |sorted| == |matching|
      && Sorted(sorted, ProjectThenId)
      && UniqueKeys(sorted, UniverseId)
  {
    var matching := Matching(universe, w);
    var sorted := SortBy(matching, ProjectThenId);
    assert |sorted| == |multiset(sorted)| == |matching|;
    FilterUniqueKeys(universe, (x: UniverseRow) => Matches(w, x), UniverseId);
    SortByUniqueKeys(matching, ProjectThenId, UniverseId);
    LexLeIsTotalOrder();
    ProjectThenIdIsTotalOrder(matching);
    SortBySorted(matching, ProjectThenId);
  }

  /** The listing does not depend on the order the database stores rows in:
      two tables with the same rows give the same page. */
  lemma ListingIndependentOfStorageOrder(a: seq<UniverseRow>, b: seq<UniverseRow>, w: RecordsWhere, page: nat, size: nat)
    requires UniverseTable(a) && multiset(a) == multiset(b) && page >= 1
    ensures Listing(a, w, page, size) == Listing(b, w, page, size)
    ensures |Matching(a, w)| == |Matching(b, w)|
  {
    var ma, mb := Matching(a, w), Matching(b, w);
    FilterPermutation(a, b, (x: UniverseRow) => Matches(w, x));
    FilterUniqueKeys(a, (x: UniverseRow) => Matches(w, x), UniverseId);
    ProjectThenIdIsTotalOrder(ma);
    SortByDeterministic(ma, mb, ProjectThenId);
    assert |ma| == |multiset(ma)| == |mb|;
  }
}
