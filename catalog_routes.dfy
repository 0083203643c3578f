/** `GET /api/zones`, `GET /api/categories` and `GET /api/periods`: the filter
    catalogs of one project, read from `housing_universe`. A blank project
    yields an empty catalog rather than an error. */
module CatalogRoutes {
  import opened Wrappers
  import opened Text
  import opened Tables
  import opened RouteParams
  import opened Catalogs

  const ZonesFailure := "Error al obtener zonas"
  const CategoriesFailure := "Error al obtener categorías"
  const PeriodsFailure := "Error al obtener períodos"

  /** `findMany({ where: { proyecto, zona: { not: null } }, select: { zona } })`. */
  function ZoneValues(rows: seq<UniverseRow>, name: string): (r: seq<string>)
    ensures forall z :: z in r <==> exists x :: x in rows && x.proyecto == name && x.zona == Some(z)
  {
    if rows == [] then []
    else
      var rest := ZoneValues(rows[1..], name);
      assert forall x :: x in rows <==> x == rows[0] || x in rows[1..];
      if rows[0].proyecto == name && rows[0].zona.Some? then [rows[0].zona.value] + rest else rest
  }

  /** `findMany({ where: { proyecto, categoria: { not: "" } }, select: { categoria } })`. */
  function CategoryValues(rows: seq<UniverseRow>, name: string): (r: seq<string>)
    ensures forall c :: c in r <==> c != "" && exists x :: x in rows && x.proyecto == name && x.categoria == c
  {
    if rows == [] then []
    else
      var rest := CategoryValues(rows[1..], name);
      assert forall x :: x in rows <==> x == rows[0] || x in rows[1..];
      if rows[0].proyecto == name && rows[0].categoria != "" then [rows[0].categoria] + rest else rest
  }

  /** `findMany({ where: { proyecto, periodo: { not: "" } }, select: { periodo } })`. */
  function PeriodValues(rows: seq<UniverseRow>, name: string): (r: seq<string>)
    ensures forall p :: p in r <==> p != "" && exists x :: x in rows && x.proyecto == name && x.periodo == p
  {
    if rows == [] then []
    else
      var rest := PeriodValues(rows[1..], name);
      assert forall x :: x in rows <==> x == rows[0] || x in rows[1..];
      if rows[0].proyecto == name && rows[0].periodo != "" then [rows[0].periodo] + rest else rest
  }

  /** `{ zones }`: the project's non-blank zones, each once, alphabetically.
      `rows` is `None` when the database call fails. */
  function Zones(project: Option<string>, rows: Option<seq<UniverseRow>>): (r: Result<seq<string>, ErrorResponse>)
    ensures IsBlankParam(project) ==> r == Ok([])
    ensures !IsBlankParam(project) && rows.None? ==> r == Err(ErrorResponse(500, ZonesFailure))
    ensures !IsBlankParam(project) && rows.Some? ==>
      r.Ok? && IsCatalogOf(r.value, ZoneValues(rows.value, Trim(project.value)))
  {
    if IsBlankParam(project) then Ok([])
    else if rows.None? then Err(ErrorResponse(500, ZonesFailure))
    else Ok(DistinctNonBlankSorted(ZoneValues(rows.value, Trim(project.value))))
  }

  /** `{ categories }`: the project's non-blank categories, each once, alphabetically. */
  function Categories(project: Option<string>, rows: Option<seq<UniverseRow>>): (r: Result<seq<string>, ErrorResponse>)
    ensures IsBlankParam(project) ==> r == Ok([])
    ensures !IsBlankParam(project) && rows.None? ==> r == Err(ErrorResponse(500, CategoriesFailure))
    ensures !IsBlankParam(project) && rows.Some? ==>
      r.Ok? && IsCatalogOf(r.value, CategoryValues(rows.value, Trim(project.value)))
  {
    if IsBlankParam(project) then Ok([])
    else if rows.None? then Err(ErrorResponse(500, CategoriesFailure))
    else Ok(DistinctNonBlankSorted(CategoryValues(rows.value, Trim(project.value))))
  }

  /** `{ periods }`: the project's non-blank periods, each once, alphabetically. */
  function Periods(project: Option<string>, rows: Option<seq<UniverseRow>>): (r: Result<seq<string>, ErrorResponse>)
    ensures IsBlankParam(project) ==> r == Ok([])
    ensures !IsBlankParam(project) && rows.None? ==> r == Err(ErrorResponse(500, PeriodsFailure))
    ensures !IsBlankParam(project) && rows.Some? ==>
      r.Ok? && IsCatalogOf(r.value, PeriodValues(rows.value, Trim(project.value)))
  {
    if IsBlankParam(project) then Ok([])
    else if rows.None? then Err(ErrorResponse(500, PeriodsFailure))
    else Ok(DistinctNonBlankSorted(PeriodValues(rows.value, Trim(project.value))))
  }

  /** Every zone the records route can be filtered by is offered: a zone is in
      the catalog exactly when some row of the (trimmed) project has it and it
      is not blank. */
  lemma ZonesAreTheProjectsZones(project: string, rows: seq<UniverseRow>, z: string)
    requires !IsBlank(project)
    ensures var r := Zones(Some(project), Some(rows));
      r.Ok? && (z in r.value <==> !IsBlank(z) && exists x :: x in rows && x.proyecto == Trim(project) && x.zona == Some(z))
  {
  }

  /** A period is offered exactly when some row of the project has it and it is not blank. */
  lemma PeriodsAreTheProjectsPeriods(project: string, rows: seq<UniverseRow>, p: string)
    requires !IsBlank(project)
    ensures var r := Periods(Some(project), Some(rows));
      r.Ok? && (p in r.value <==> !IsBlank(p) && exists x :: x in rows && x.proyecto == Trim(project) && x.periodo == p)
  {
  }

  /** A category is offered exactly when some row of the project has it and it is not blank. */
  lemma CategoriesAreTheProjectsCategories(project: string, rows: seq<UniverseRow>, c: string)
    requires !IsBlank(project)
    ensures var r := Categories(Some(project), Some(rows));
      r.Ok? && (c in r.value <==> !IsBlank(c) && exists x :: x in rows && x.proyecto == Trim(project) && x.categoria == c)
  {
  }
}
