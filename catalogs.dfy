/** The shape every filter catalog of the application has: the distinct
    non-blank values of a column, in alphabetical order. */
module Catalogs {
  import opened Text
  import opened Ordering
  import opened Tables

  predicate NotBlank(s: string) {
    !IsBlank(s)
  }

  /** `cat` lists the non-blank values of `values`, each once, alphabetically. */
  ghost predicate IsCatalogOf(cat: seq<string>, values: seq<string>) {
    && Sorted(cat, LexLe)
    && Distinct(cat)
    && forall x :: x in cat <==> x in values && !IsBlank(x)
  }

  function Self<T>(x: T): T { x }

  lemma DistinctAsUniqueKeys<T>(s: seq<T>)
    ensures Distinct(s) <==> UniqueKeys(s, Self)
  {
  }

  /** A catalog is determined by the values it is built from: two catalogs of
      the same values are the same sequence. */
  lemma CatalogUnique(a: seq<string>, b: seq<string>, values: seq<string>)
    requires IsCatalogOf(a, values) && IsCatalogOf(b, values)
    ensures a == b
  {
    LexLeIsTotalOrder();
    DistinctMultiset(a, b);
    assert AntisymmetricOn(LexLe, a);
    SortedUnique(a, b, LexLe);
  }

  /** Two sequences without repetitions that hold the same values hold them
      equally often. */
  lemma DistinctMultiset<T>(a: seq<T>, b: seq<T>)
    requires Distinct(a) && Distinct(b)
    requires forall x :: x in a <==> x in b
    ensures multiset(a) == multiset(b)
  {
    forall x ensures multiset(a)[x] == multiset(b)[x] {
      DistinctCount(a, x);
      DistinctCount(b, x);
    }
  }

  lemma {:induction false} DistinctCount<T>(s: seq<T>, x: T)
    requires Distinct(s)
    ensures multiset(s)[x] == if x in s then 1 else 0
  {
    if s != [] {
      assert s == [s[0]] + s[1..];
      assert Distinct(s[1..]) by {
        forall i, j | 0 <= i < j < |s| - 1 ensures s[1..][i] != s[1..][j] {
          assert s[1..][i] == s[i + 1] && s[1..][j] == s[j + 1];
        }
      }
      DistinctCount(s[1..], x);
      if s[0] == x {
        assert x !in s[1..] by {
          forall k | 0 <= k < |s| - 1 ensures s[1..][k] != x {
            assert s[1..][k] == s[k + 1];
          }
        }
      }
    }
  }

  /** Distinct values stay distinct when some are filtered out and the rest sorted. */
  lemma SortFilterDistinct(s: seq<string>, p: string -> bool)
    requires Distinct(s)
    ensures Distinct(SortBy(Filter(s, p), LexLe))
  {
    DistinctAsUniqueKeys(s);
    FilterUniqueKeys(s, p, Self);
    SortByUniqueKeys(Filter(s, p), LexLe, Self);
    DistinctAsUniqueKeys(SortBy(Filter(s, p), LexLe));
  }

  /** The database's `distinct`, then the handler's `filter(v.trim() !== "")`,
      then `sort` by `localeCompare`: the order of the zones, categories and
      periods routes. */
  function DistinctNonBlankSorted(values: seq<string>): (cat: seq<string>)
    ensures IsCatalogOf(cat, values)
  {
    var d := Dedup(values);
    var f := Filter(d, NotBlank);
    LexLeIsTotalOrder();
    SortBySorted(f, LexLe);
    SortByMembers(f, LexLe);
    SortFilterDistinct(d, NotBlank);
    SortBy(f, LexLe)
  }

  /** The handler's `filter(v.trim() !== "")`, then `new Set`, then `sort` by
      `localeCompare`: the order of the units catalogs route. */
  function NonBlankDistinctSorted(values: seq<string>): (cat: seq<string>)
    ensures IsCatalogOf(cat, values)
  {
    var f := Filter(values, NotBlank);
    var d := Dedup(f);
    LexLeIsTotalOrder();
    SortBySorted(d, LexLe);
    SortByMembers(d, LexLe);
    DistinctAsUniqueKeys(d);
    SortByUniqueKeys(d, LexLe, Self);
    DistinctAsUniqueKeys(SortBy(d, LexLe));
    SortBy(d, LexLe)
  }

  /** Both orders of de-duplicating and dropping blanks give the same catalog. */
  lemma CatalogOrderIrrelevant(values: seq<string>)
    ensures DistinctNonBlankSorted(values) == NonBlankDistinctSorted(values)
  {
    CatalogUnique(DistinctNonBlankSorted(values), NonBlankDistinctSorted(values), values);
  }
}
