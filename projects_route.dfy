/** `GET /api/projects`: the project search behind the autocomplete. Rows of
    `housing_universe` whose name contains the trimmed search term, by name,
    at most 20 of them. Rows are not de-duplicated: a project with several
    periods can appear several times. */
module ProjectsRoute {
  import opened Wrappers
  import opened Text
  import opened Ordering
  import opened Paging
  import opened Tables
  import opened RouteParams

  const Limit: nat := 20
  const SearchFailure := "Error al buscar proyectos"

  /** One element of `projects`: the selected columns. */
  datatype ProjectOption = ProjectOption(proyecto: string, categoria: string, zona: Option<string>, estado: Option<string>)

  /** `q?.trim() || ""`. */
  function SearchTerm(q: Option<string>): (t: string)
    ensures t == [] <==> IsBlankParam(q)
  {
    if q.Some? then Trim(q.value) else ""
  }

  /** `where: { proyecto: { contains: term } }`. */
  function Matching(rows: seq<UniverseRow>, term: string): (r: seq<UniverseRow>)
    ensures forall x :: x in r <==> x in rows && Contains(x.proyecto, term)
  {
    Filter(rows, (x: UniverseRow) => Contains(x.proyecto, term))
  }

  /** `orderBy: { proyecto: "asc" }`. */
  predicate ByName(a: UniverseRow, b: UniverseRow) {
    LexLe(a.proyecto, b.proyecto)
  }

  /** `select: { proyecto, categoria, zona, estado }`. */
  function Select(rows: seq<UniverseRow>): (r: seq<ProjectOption>)
    ensures |r| == |rows|
    ensures forall i :: 0 <= i < |rows| ==>
      r[i] == ProjectOption(rows[i].proyecto, rows[i].categoria, rows[i].zona, rows[i].estado)
  {
    if rows == [] then [] else [ProjectOption(rows[0].proyecto, rows[0].categoria, rows[0].zona, rows[0].estado)] + Select(rows[1..])
  }

  /** The rows returned for a non-empty term: sorted by name, first 20. */
  function Found(rows: seq<UniverseRow>, term: string): seq<UniverseRow> {
    Take(SortBy(Matching(rows, term), ByName), Limit)
  }

  /** The handler. `rows` is `None` when the database call fails. */
  function Search(q: Option<string>, rows: Option<seq<UniverseRow>>): (r: Result<seq<ProjectOption>, ErrorResponse>)
    ensures IsBlankParam(q) ==> r == Ok([])
    ensures !IsBlankParam(q) && rows.None? ==> r == Err(ErrorResponse(500, SearchFailure))
    ensures !IsBlankParam(q) && rows.Some? ==> r == Ok(Select(Found(rows.value, SearchTerm(q))))
    ensures r.Ok? ==> |r.value| <= Limit
    ensures r.Ok? ==> forall i :: 0 <= i < |r.value| ==> Contains(r.value[i].proyecto, SearchTerm(q))
    ensures r.Ok? ==> forall i :: 0 < i < |r.value| ==> LexLe(r.value[i - 1].proyecto, r.value[i].proyecto)
  {
    var term := SearchTerm(q);
    if term == "" then Ok([])
    else if rows.None? then Err(ErrorResponse(500, SearchFailure))
    else
      SelectedOptions(rows.value, term);
      Ok(Select(Found(rows.value, term)))
  }

  /** The options built from the found rows: at most 20, each containing the
      term, in name order. */
  lemma SelectedOptions(rows: seq<UniverseRow>, term: string)
    ensures var o := Select(Found(rows, term));
      && |o| <= Limit
      && (forall i :: 0 <= i < |o| ==> Contains(o[i].proyecto, term))
      && (forall i :: 0 < i < |o| ==> LexLe(o[i - 1].proyecto, o[i].proyecto))
  {
    var f := Found(rows, term);
    FoundProperties(rows, term);
    var o := Select(f);
    forall i | 0 <= i < |o| ensures Contains(o[i].proyecto, term) {
      assert f[i] in f;
    }
    forall i | 0 < i < |o| ensures LexLe(o[i - 1].proyecto, o[i].proyecto) {
      assert ByName(f[i - 1], f[i]);
    }
  }

  lemma ByNameIsTotalPreorder()
    ensures Total(ByName) && Transitive(ByName)
  {
    LexLeIsTotalOrder();
  }

  /** What a search returns: at most 20 rows, each containing the term, in
      name order, and, when 20 or fewer rows contain the term, all of them
      with their repetitions. */
  lemma FoundProperties(rows: seq<UniverseRow>, term: string)
    ensures var f := Found(rows, term);
      && |f| <= Limit
      && (forall x :: x in f ==> x in rows && Contains(x.proyecto, term))
      && Sorted(f, ByName)
      && (|Matching(rows, term)| <= Limit ==> multiset(f) == multiset(Matching(rows, term)))
  {
    var m := Matching(rows, term);
    var sorted := SortBy(m, ByName);
    ByNameIsTotalPreorder();
    SortBySorted(m, ByName);
    SortByMembers(m, ByName);
    assert |sorted| == |multiset(sorted)| == |m|;
  }

  /** The 20-row cut keeps the first names: a matching row whose name sorts
      strictly before the last returned name is among the returned rows. */
  lemma FoundKeepsFirstNames(rows: seq<UniverseRow>, term: string, y: UniverseRow)
    requires var f := Found(rows, term); f != [] && y in rows && Contains(y.proyecto, term)
    requires var f := Found(rows, term); LexLe(y.proyecto, f[|f| - 1].proyecto) && y.proyecto != f[|f| - 1].proyecto
    ensures y in Found(rows, term)
  {
    var m := Matching(rows, term);
    var sorted := SortBy(m, ByName);
    var f := Found(rows, term);
    ByNameIsTotalPreorder();
    LexLeIsTotalOrder();
    SortBySorted(m, ByName);
    SortByMembers(m, ByName);
    assert y in sorted;
    var j :| 0 <= j < |sorted| && sorted[j] == y;
    var last := |f| - 1;
    assert f[last] == sorted[last];
    if j > last {
      SortedLe(sorted, ByName, last, j);
      assert false;
    }
    assert f[j] == y;
  }
}
