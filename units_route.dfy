/** `GET /api/units`: the page of `housing_units` rows that belong to the
    project of one `housing_universe` record, optionally narrowed by period,
    use, availability and number of bedrooms, newest or oldest first. */
module UnitsRoute {
  import opened Wrappers
  import opened Text
  import opened Numbers
  import opened Ordering
  import opened Paging
  import opened Tables
  import opened RouteParams

  const DefaultPageSize: nat := 10
  const MissingRecordId := "El parámetro 'recordId' es obligatorio"
  const InvalidRecordId := "El parámetro 'recordId' debe ser un número válido mayor a 0"
  const RecordNotFound := "Registro no encontrado"
  const DatabaseFailure := "Error al buscar unidades"

  /** The query string: each parameter is absent (`None`) or its decoded text. */
  datatype UnitsQuery = UnitsQuery(
    recordId: Option<string>,
    period: Option<string>,
    use: Option<string>,
    availability: Option<string>,
    bedrooms: Option<string>,
    page: Option<string>,
    pageSize: Option<string>,
    sort: Option<string>)

  /** The `where` object: the record's project code always, the other columns when set. */
  datatype UnitsWhere = UnitsWhere(
    codProyecto: Option<string>,
    periodo: Option<string>,
    uso: Option<string>,
    disponibilidad: Option<string>,
    cantDormitorios: Option<int>)

  datatype SortOrder = OldestFirst | NewestFirst

  /** The JSON body of a successful response. */
  datatype UnitsPage = UnitsPage(
    items: seq<UnitRow>,
    page: nat,
    pageSize: nat,
    totalItems: nat,
    totalPages: nat)

  /** `recordId` passes both checks: it is not blank and `parseInt` reads a
      positive integer from it. */
  predicate ValidRecordId(p: Option<string>) {
    !IsBlankParam(p) && IsPositiveInt(p.value)
  }

  /** The `recordId` checks, shared by this route and the catalogs route: a
      blank parameter and one that is not a positive integer are both
      refused with 400, each with its own message. */
  method ValidateRecordId(p: Option<string>) returns (r: Result<nat, ErrorResponse>)
    ensures IsBlankParam(p) ==> r == Err(ErrorResponse(400, MissingRecordId))
    ensures !IsBlankParam(p) && !IsPositiveInt(p.value) ==> r == Err(ErrorResponse(400, InvalidRecordId))
    ensures ValidRecordId(p) ==> r.Ok? && r.value >= 1 && r.value == ParseInt(p.value).value
  {
    if p.None? || Trim(p.value) == "" {
      return Err(ErrorResponse(400, MissingRecordId));
    }
    var parsed := ParseInt(p.value);
    if parsed.None? || parsed.value <= 0 {
      return Err(ErrorResponse(400, InvalidRecordId));
    }
    return Ok(parsed.value);
  }

  /** Every positive id the client writes with `toString` passes the checks
      and is read back unchanged. */
  lemma RecordIdRoundTrip(n: int)
    requires n >= 1
    ensures ValidRecordId(Some(IntToString(n)))
    ensures ParseInt(IntToString(n)) == Some(n)
  {
    ParseIntOfIntToString(n);
    assert IntToString(n)[0] != ' ';
    assert !IsSpace(IntToString(n)[0]);
  }

  /** `period || record.periodo`, applied when not empty. The parameter is used
      as it came, without trimming. */
  function PeriodFilter(p: Option<string>, recordPeriod: string): (f: Option<string>)
    ensures IsTruthy(p) ==> f == p
    ensures !IsTruthy(p) ==> (f.Some? <==> recordPeriod != "") && (f.Some? ==> f.value == recordPeriod)
  {
    var finalPeriod := if IsTruthy(p) then p.value else recordPeriod;
    if finalPeriod != "" then Some(finalPeriod) else None
  }

  /** `v && v.trim() !== ""`: the filter is applied when the parameter is not
      blank, with the parameter as it came, untrimmed. */
  function UntrimmedFilter(p: Option<string>): (f: Option<string>)
    ensures f.Some? <==> !IsBlankParam(p)
    ensures f.Some? ==> f == p
  {
    if IsBlankParam(p) then None else p
  }

  /** `bedrooms` is applied when `parseInt` reads any integer from it, zero and
      negative values included. */
  function BedroomsFilter(p: Option<string>): (f: Option<int>)
    ensures f.Some? <==> IsTruthy(p) && ParseInt(p.value).Some?
    ensures f.Some? ==> f == ParseInt(p.value)
  {
    if IsTruthy(p) && ParseInt(p.value).Some? then ParseInt(p.value) else None
  }

  /** `sort || "new"`: only the exact text "old" asks for ascending ids. */
  function SortOrderFor(p: Option<string>): (o: SortOrder)
    ensures o == OldestFirst <==> p == Some("old")
  {
    if IsTruthy(p) && p.value == "old" then OldestFirst else NewestFirst
  }

  /** The `where` object built from the query and the record it names. */
  function WhereFor(q: UnitsQuery, rec: UniverseRow): (w: UnitsWhere)
    ensures w.codProyecto == rec.codProyecto
    ensures w.periodo == PeriodFilter(q.period, rec.periodo)
    ensures w.uso == UntrimmedFilter(q.use) && w.disponibilidad == UntrimmedFilter(q.availability)
    ensures w.cantDormitorios == BedroomsFilter(q.bedrooms)
  {
    UnitsWhere(rec.codProyecto, PeriodFilter(q.period, rec.periodo), UntrimmedFilter(q.use),
               UntrimmedFilter(q.availability), BedroomsFilter(q.bedrooms))
  }

  /** A unit satisfies the `where` object. A `null` project code matches units
      whose project code is `null`. */
  predicate Matches(w: UnitsWhere, u: UnitRow) {
    && u.codProyecto == w.codProyecto
    && (w.periodo.Some? ==> u.periodo == w.periodo)
    && (w.uso.Some? ==> u.uso == w.uso)
    && (w.disponibilidad.Some? ==> u.disponibilidad == w.disponibilidad)
    && (w.cantDormitorios.Some? ==> u.cantDormitorios == w.cantDormitorios)
  }

  /** The units `count({ where })` counts and `findMany({ where })` reads. */
  function Matching(units: seq<UnitRow>, w: UnitsWhere): (r: seq<UnitRow>)
    ensures forall x :: x in r <==> x in units && Matches(w, x)
  {
    Filter(units, (u: UnitRow) => Matches(w, u))
  }

  predicate IdAsc(a: UnitRow, b: UnitRow) {
    a.id <= b.id
  }

  predicate IdDesc(a: UnitRow, b: UnitRow) {
    a.id >= b.id
  }

  /** `orderBy: [{ id: "asc" }]` or `[{ id: "desc" }]`. */
  function OrderOf(o: SortOrder): (UnitRow, UnitRow) -> bool {
    if o == OldestFirst then IdAsc else IdDesc
  }

  /** The units on page `page`: sorted by id in the requested direction, `skip`
      and `take` applied. */
  function Listing(units: seq<UnitRow>, w: UnitsWhere, o: SortOrder, page: nat, size: nat): seq<UnitRow>
    requires page >= 1
  {
    PageOf(SortBy(Matching(units, w), OrderOf(o)), page, size)
  }

  /** `resp` is the body the handler sends for query `q` once it has found record `rec`. */
  ghost predicate Answers(q: UnitsQuery, db: Database, rec: UniverseRow, resp: UnitsPage) {
    var w := WhereFor(q, rec);
    && resp.page >= 1
    && IsPageFor(q.page, resp.page)
    && IsPageSizeFor(q.pageSize, DefaultPageSize, resp.pageSize)
    && 1 <= resp.pageSize <= MaxPageSize
    && resp.totalItems == |Matching(db.units, w)|
    && resp.totalPages == CeilDiv(resp.totalItems, resp.pageSize)
    && resp.items == Listing(db.units, w, SortOrderFor(q.sort), resp.page, resp.pageSize)
  }

  /** A response body whose numbers agree with each other: a page from 1 on,
      a page size from 1 to 50, as many pages as the total needs, and no more
      items than a page holds or than there are in all. */
  predicate WellFormed(resp: UnitsPage) {
    && resp.page >= 1
    && 1 <= resp.pageSize <= MaxPageSize
    && resp.totalPages == CeilDiv(resp.totalItems, resp.pageSize)
    && |resp.items| <= resp.pageSize
    && |resp.items| <= resp.totalItems
  }

  /** Every body the handler sends is well formed. */
  lemma AnswersAreWellFormed(q: UnitsQuery, db: Database, rec: UniverseRow, resp: UnitsPage)
    requires Answers(q, db, rec, resp)
    ensures WellFormed(resp)
  {
    var sorted := SortBy(Matching(db.units, WhereFor(q, rec)), OrderOf(SortOrderFor(q.sort)));
    PageAtMostSize(sorted, resp.page, resp.pageSize);
    assert |sorted| == |multiset(sorted)| == resp.totalItems;
  }

  /** The handler. `db` is `None` when a database call fails. */
  method Get(q: UnitsQuery, db: Option<Database>) returns (r: Result<UnitsPage, ErrorResponse>)
    ensures IsBlankParam(q.recordId) ==> r == Err(ErrorResponse(400, MissingRecordId))
    ensures !IsBlankParam(q.recordId) && !IsPositiveInt(q.recordId.value) ==> r == Err(ErrorResponse(400, InvalidRecordId))
    ensures ValidRecordId(q.recordId) && db.None? ==> r == Err(ErrorResponse(500, DatabaseFailure))
    ensures ValidRecordId(q.recordId) && db.Some? ==>
      match FindUniverse(db.value.universe, ParseInt(q.recordId.value).value)
      case None => r == Err(ErrorResponse(404, RecordNotFound))
      case Some(rec) => r.Ok? && Answers(q, db.value, rec, r.value)
  {
    var id := ValidateRecordId(q.recordId);
    if id.Err? {
      return Err(id.error);
    }
    if db.None? {
      return Err(ErrorResponse(500, DatabaseFailure));
    }
    var found := FindUniverse(db.value.universe, id.value);
    if found.None? {
      return Err(ErrorResponse(404, RecordNotFound));
    }
    var rec := found.value;

    var page := ReadPage(q.page);
    var pageSize := ReadPageSize(q.pageSize, DefaultPageSize);

    var where := BuildWhere(q, rec);

    var totalItems := |Matching(db.value.units, where)|;
    var skip := Skip(page, pageSize);
    var totalPages := CeilDiv(totalItems, pageSize);
    var order := if q.sort == Some("old") then OldestFirst else NewestFirst;
    var items := Take(Drop(SortBy(Matching(db.value.units, where), OrderOf(order)), skip), pageSize);
    assert items == Listing(db.value.units, where, SortOrderFor(q.sort), page, pageSize);
    return Ok(UnitsPage(items, page, pageSize, totalItems, totalPages));
  }

  /** The `where` object as the handler assembles it, filter by filter. */
  method BuildWhere(q: UnitsQuery, rec: UniverseRow) returns (where: UnitsWhere)
    ensures where == WhereFor(q, rec)
  {
    where := UnitsWhere(rec.codProyecto, None, None, None, None);
    var finalPeriod := if IsTruthy(q.period) then q.period.value else rec.periodo;
    if finalPeriod != "" {
      where := where.(periodo := Some(finalPeriod));
    }
    assert where.periodo == PeriodFilter(q.period, rec.periodo);
    if q.use.Some? && Trim(q.use.value) != "" {
      where := where.(uso := q.use);
    }
    assert where.uso == UntrimmedFilter(q.use);
    if q.availability.Some? && Trim(q.availability.value) != "" {
      where := where.(disponibilidad := q.availability);
    }
    assert where.disponibilidad == UntrimmedFilter(q.availability);
    if IsTruthy(q.bedrooms) {
      var bedrooms := ParseInt(q.bedrooms.value);
      if bedrooms.Some? {
        where := where.(cantDormitorios := bedrooms);
      }
    }
  }

  /** Every listed unit belongs to the record's project and satisfies each filter given. */
  lemma ListingMatches(units: seq<UnitRow>, w: UnitsWhere, o: SortOrder, page: nat, size: nat)
    requires page >= 1
    ensures forall u :: u in Listing(units, w, o, page, size) ==> u in units && Matches(w, u)
  {
    var sorted := SortBy(Matching(units, w), OrderOf(o));
    PageIsSlice(sorted, page, size);
    forall u | u in Listing(units, w, o, page, size) ensures u in units && Matches(w, u) {
      assert u in multiset(sorted);
    }
  }

  lemma IdOrdersAreTotal()
    ensures Total(IdAsc) && Transitive(IdAsc)
    ensures Total(IdDesc) && Transitive(IdDesc)
  {
  }

  /** With distinct ids, ascending order ties no two units. */
  lemma IdAscAntisymmetric(s: seq<UnitRow>)
    requires UniqueKeys(s, UnitId)
    ensures AntisymmetricOn(IdAsc, s)
  {
    forall i, j | 0 <= i < |s| && 0 <= j < |s| && IdAsc(s[i], s[j]) && IdAsc(s[j], s[i])
      ensures s[i] == s[j]
    {
      assert UnitId(s[i]) == UnitId(s[j]);
    }
  }

  /** The listing is strictly ordered by id in the requested direction, so
      "old" and "new" list the same units in opposite orders. */
  lemma ListingStrictlyOrdered(units: seq<UnitRow>, w: UnitsWhere, o: SortOrder, page: nat, size: nat)
    requires UnitsTable(units) && page >= 1
    ensures var l := Listing(units, w, o, page, size);
      forall i :: 0 < i < |l| ==> if o == OldestFirst then l[i - 1].id < l[i].id else l[i - 1].id > l[i].id
  {
    var m := Matching(units, w);
    var sorted := SortBy(m, OrderOf(o));
    IdOrdersAreTotal();
    SortBySorted(m, OrderOf(o));
    FilterUniqueKeys(units, (u: UnitRow) => Matches(w, u), UnitId);
    SortByUniqueKeys(m, OrderOf(o), UnitId);
    PageIsSlice(sorted, page, size);
    var l := Listing(units, w, o, page, size);
    var lo := Min(Skip(page, size), |sorted|);
    forall i | 0 < i < |l|
      ensures if o == OldestFirst then l[i - 1].id < l[i].id else l[i - 1].id > l[i].id
    {
      assert l[i - 1] == sorted[lo + i - 1] && l[i] == sorted[lo + i];
      assert UnitId(sorted[lo + i - 1]) != UnitId(sorted[lo + i]);
    }
  }

  /** Over all pages, "old" is exactly "new" read backwards. */
  lemma OldIsReverseOfNew(units: seq<UnitRow>, w: UnitsWhere)
    requires UnitsTable(units)
    ensures SortBy(Matching(units, w), IdAsc) == Reverse(SortBy(Matching(units, w), IdDesc))
  {
    var m := Matching(units, w);
    var asc, desc := SortBy(m, IdAsc), SortBy(m, IdDesc);
    IdOrdersAreTotal();
    SortBySorted(m, IdAsc);
    SortBySorted(m, IdDesc);
    var rev := Reverse(desc);
    ReverseMultiset(desc);
    assert Sorted(rev, IdAsc) by {
      forall i | 0 < i < |rev| ensures IdAsc(rev[i - 1], rev[i]) {
        var k := |desc| - i;
        assert rev[i - 1] == desc[k] && rev[i] == desc[k - 1];
      }
    }
    FilterUniqueKeys(units, (u: UnitRow) => Matches(w, u), UnitId);
    SortByUniqueKeys(m, IdAsc, UnitId);
    IdAscAntisymmetric(asc);
    SortedUnique(asc, rev, IdAsc);
  }

  /** Walking pages 1 to `totalPages` visits every matching unit exactly once. */
  lemma PagesCoverMatches(units: seq<UnitRow>, w: UnitsWhere, o: SortOrder, size: nat)
    requires UnitsTable(units) && size >= 1
    ensures var sorted := SortBy(Matching(units, w), OrderOf(o));
      && multiset(sorted) == multiset(Matching(units, w))
      && Pages(sorted, size, CeilDiv(|Matching(units, w)|, size)) == sorted
      && UniqueKeys(sorted, UnitId)
  {
    var m := Matching(units, w);
    var sorted := SortBy(m, OrderOf(o));
    assert |sorted| == |multiset(sorted)| == |m|;
    FilterUniqueKeys(units, (u: UnitRow) => Matches(w, u), UnitId);
    SortByUniqueKeys(m, OrderOf(o), UnitId);
    PagesPartition(sorted, size);
  }
}
