/** The two tables the application reads, `housing_universe` ("records") and
    `housing_units` ("units"), as sequences of rows, and the filtering the
    database does for a `where` clause. */
module Tables {
  import opened Wrappers
  import opened Ordering

  /** A row of `housing_universe`: one project in one commercialisation period.
      Only the columns the modelled code reads are kept. */
  datatype UniverseRow = UniverseRow(
    id: int,
    proyecto: string,
    codProyecto: Option<string>,
    categoria: string,
    zona: Option<string>,
    periodo: string,
    estado: Option<string>)

  /** A row of `housing_units`: one sellable unit of a project and period. */
  datatype UnitRow = UnitRow(
    id: int,
    proyecto: string,
    codProyecto: Option<string>,
    periodo: Option<string>,
    uso: Option<string>,
    disponibilidad: Option<string>,
    cantDormitorios: Option<int>)

  /** The contents of the database at the moment a request is served. */
  datatype Database = Database(universe: seq<UniverseRow>, units: seq<UnitRow>)

  function UniverseId(r: UniverseRow): int { r.id }

  function UnitId(u: UnitRow): int { u.id }

  /** `id` is the primary key of `housing_universe`. */
  predicate UniverseTable(t: seq<UniverseRow>) {
    UniqueKeys(t, UniverseId)
  }

  /** `id` is the primary key of `housing_units`. */
  predicate UnitsTable(t: seq<UnitRow>) {
    UniqueKeys(t, UnitId)
  }

  /** The rows of `s` that satisfy `p`, in their stored order. */
  function Filter<T(!new)>(s: seq<T>, p: T -> bool): (r: seq<T>)
    ensures |r| <= |s|
    ensures forall x :: x in r <==> x in s && p(x)
  {
    if s == [] then []
    else
      var rest := Filter(s[1..], p);
      assert forall x :: x in s <==> x == s[0] || x in s[1..];
      if p(s[0]) then [s[0]] + rest else rest
  }

  /** Filtering keeps keys distinct. */
  lemma {:induction false} FilterUniqueKeys<T(!new), K>(s: seq<T>, p: T -> bool, key: T -> K)
    requires UniqueKeys(s, key)
    ensures UniqueKeys(Filter(s, p), key)
  {
    if s != [] {
      assert s == [s[0]] + s[1..];
      UniqueKeysCons(s[0], s[1..], key);
      FilterUniqueKeys(s[1..], p, key);
      if p(s[0]) {
        UniqueKeysCons(s[0], Filter(s[1..], p), key);
      }
    }
  }

  /** A stronger condition selects no more rows. */
  lemma {:induction false} FilterCountMonotone<T(!new)>(s: seq<T>, p: T -> bool, q: T -> bool)
    requires forall x :: p(x) ==> q(x)
    ensures |Filter(s, p)| <= |Filter(s, q)|
  {
    if s != [] {
      FilterCountMonotone(s[1..], p, q);
    }
  }

  /** How often a value occurs among the filtered rows depends only on how often
      it occurs in the table, not on where. */
  lemma {:induction false} FilterMultiset<T(!new)>(s: seq<T>, p: T -> bool, x: T)
    ensures multiset(Filter(s, p))[x] == if p(x) then multiset(s)[x] else 0
  {
    if s != [] {
      assert s == [s[0]] + s[1..];
      FilterMultiset(s[1..], p, x);
    }
  }

  /** Two tables holding the same rows, in whatever order, yield the same
      rows for any filter, up to order. */
  lemma FilterPermutation<T(!new)>(a: seq<T>, b: seq<T>, p: T -> bool)
    requires multiset(a) == multiset(b)
    ensures multiset(Filter(a, p)) == multiset(Filter(b, p))
  {
    forall x ensures multiset(Filter(a, p))[x] == multiset(Filter(b, p))[x] {
      FilterMultiset(a, p, x);
      FilterMultiset(b, p, x);
    }
  }

  /** `findUnique({ where: { id } })`. */
  function FindUniverse(t: seq<UniverseRow>, id: int): (r: Option<UniverseRow>)
    ensures r.Some? ==> r.value in t && r.value.id == id
    ensures r.None? ==> forall x :: x in t ==> x.id != id
  {
    if t == [] then None
    else if t[0].id == id then Some(t[0])
    else FindUniverse(t[1..], id)
  }
}
