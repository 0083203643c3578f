/** `GET /api/units/catalogs`: the uses, availabilities and bedroom counts
    found among the units of one record's project (and period), for the
    filters of the units page. */
module UnitsCatalogsRoute {
  import opened Wrappers
  import opened Text
  import opened Numbers
  import opened Ordering
  import opened Tables
  import opened RouteParams
  import opened Catalogs
  import opened UnitsRoute

  const CatalogsFailure := "Error al obtener catálogos de unidades"

  /** The JSON body of a successful response. */
  datatype UnitCatalogs = UnitCatalogs(uses: seq<string>, availabilities: seq<string>, bedrooms: seq<int>)

  /** The `where` object: the record's project code and the period filter of
      the units route, without the use, availability and bedroom filters. */
  function CatalogWhere(period: Option<string>, rec: UniverseRow): (w: UnitsWhere)
    ensures w.codProyecto == rec.codProyecto
    ensures w.uso.None? && w.disponibilidad.None? && w.cantDormitorios.None?
  {
    UnitsWhere(rec.codProyecto, PeriodFilter(period, rec.periodo), None, None, None)
  }

  /** `units.map(u => u.uso)` without the `null`s. */
  function UseValues(units: seq<UnitRow>): (r: seq<string>)
    ensures forall s :: s in r <==> exists u :: u in units && u.uso == Some(s)
  {
    if units == [] then []
    else
      var rest := UseValues(units[1..]);
      assert forall u :: u in units <==> u == units[0] || u in units[1..];
      if units[0].uso.Some? then [units[0].uso.value] + rest else rest
  }

  /** `units.map(u => u.disponibilidad)` without the `null`s. */
  function AvailabilityValues(units: seq<UnitRow>): (r: seq<string>)
    ensures forall s :: s in r <==> exists u :: u in units && u.disponibilidad == Some(s)
  {
    if units == [] then []
    else
      var rest := AvailabilityValues(units[1..]);
      assert forall u :: u in units <==> u == units[0] || u in units[1..];
      if units[0].disponibilidad.Some? then [units[0].disponibilidad.value] + rest else rest
  }

  /** `units.map(u => u.cant_dormitorios)` without the `null`s. */
  function BedroomValues(units: seq<UnitRow>): (r: seq<int>)
    ensures forall n :: n in r <==> exists u :: u in units && u.cantDormitorios == Some(n)
  {
    if units == [] then []
    else
      var rest := BedroomValues(units[1..]);
      assert forall u :: u in units <==> u == units[0] || u in units[1..];
      if units[0].cantDormitorios.Some? then [units[0].cantDormitorios.value] + rest else rest
  }

  /** `(a, b) => a - b`: numeric order. */
  predicate IntLe(a: int, b: int) {
    a <= b
  }

  /** `Array.from(new Set(values)).sort((a, b) => a - b)`: each bedroom count
      once, in strictly increasing order. */
  function DistinctAscending(values: seq<int>): (r: seq<int>)
    ensures forall n :: n in r <==> n in values
    ensures forall i :: 0 < i < |r| ==> r[i - 1] < r[i]
  {
    var d := Dedup(values);
    assert Total(IntLe) && Transitive(IntLe);
    SortBySorted(d, IntLe);
    SortByMembers(d, IntLe);
    DistinctAsUniqueKeys(d);
    SortByUniqueKeys(d, IntLe, Self);
    DistinctAsUniqueKeys(SortBy(d, IntLe));
    var r := SortBy(d, IntLe);
    assert forall i :: 0 < i < |r| ==> r[i - 1] != r[i];
    r
  }

  /** The handler. `db` is `None` when a database call fails. */
  method Get(recordId: Option<string>, period: Option<string>, db: Option<Database>)
    returns (r: Result<UnitCatalogs, ErrorResponse>)
    ensures IsBlankParam(recordId) ==> r == Err(ErrorResponse(400, MissingRecordId))
    ensures !IsBlankParam(recordId) && !IsPositiveInt(recordId.value) ==> r == Err(ErrorResponse(400, InvalidRecordId))
    ensures ValidRecordId(recordId) && db.None? ==> r == Err(ErrorResponse(500, CatalogsFailure))
    ensures ValidRecordId(recordId) && db.Some? ==>
      match FindUniverse(db.value.universe, ParseInt(recordId.value).value)
      case None => r == Err(ErrorResponse(404, RecordNotFound))
      case Some(rec) =>
        var units := Matching(db.value.units, CatalogWhere(period, rec));
        && r.Ok?
        && IsCatalogOf(r.value.uses, UseValues(units))
        && IsCatalogOf(r.value.availabilities, AvailabilityValues(units))
        && (forall n :: n in r.value.bedrooms <==> n in BedroomValues(units))
        && (forall i :: 0 < i < |r.value.bedrooms| ==> r.value.bedrooms[i - 1] < r.value.bedrooms[i])
  {
    var id := ValidateRecordId(recordId);
    if id.Err? {
      return Err(id.error);
    }
    if db.None? {
      return Err(ErrorResponse(500, CatalogsFailure));
    }
    var found := FindUniverse(db.value.universe, id.value);
    if found.None? {
      return Err(ErrorResponse(404, RecordNotFound));
    }
    var rec := found.value;

    var where := UnitsWhere(rec.codProyecto, None, None, None, None);
    var finalPeriod := if IsTruthy(period) then period.value else rec.periodo;
    if finalPeriod != "" {
      where := where.(periodo := Some(finalPeriod));
    }
    assert where == CatalogWhere(period, rec);

    var units := Matching(db.value.units, where);
    var uses := NonBlankDistinctSorted(UseValues(units));
    var availabilities := NonBlankDistinctSorted(AvailabilityValues(units));
    var bedrooms := DistinctAscending(BedroomValues(units));
    return Ok(UnitCatalogs(uses, availabilities, bedrooms));
  }

  /** Every use offered selects at least one unit of the units route for the
      same record and period: offering it never leads to an empty list by itself. */
  lemma OfferedUseSelectsUnits(q: UnitsQuery, rec: UniverseRow, units: seq<UnitRow>, use: string)
    requires use in NonBlankDistinctSorted(UseValues(Matching(units, CatalogWhere(q.period, rec))))
    requires q.use == Some(use) && q.availability.None? && q.bedrooms.None?
    ensures Matching(units, WhereFor(q, rec)) != []
  {
    var base := Matching(units, CatalogWhere(q.period, rec));
    assert use in UseValues(base);
    var u :| u in base && u.uso == Some(use);
    assert u in Matching(units, WhereFor(q, rec));
  }
}
