/** Orders, sorting and de-duplication: what `ORDER BY`, `Array.prototype.sort`
    and `new Set(...)` do to the rows and values of this application. */
module Ordering {

  /** Lexicographic order on strings by character code. It stands in for both
      the database collation used by `ORDER BY proyecto` and `localeCompare`. */
  predicate LexLe(a: string, b: string) {
    a == [] || (b != [] && (a[0] < b[0] || (a[0] == b[0] && LexLe(a[1..], b[1..]))))
  }

  ghost predicate Total<T(!new)>(le: (T, T) -> bool) {
    forall a, b :: le(a, b) || le(b, a)
  }

  ghost predicate Transitive<T(!new)>(le: (T, T) -> bool) {
    forall a, b, c :: le(a, b) && le(b, c) ==> le(a, c)
  }

  /** `le` relates two different elements of `s` in one direction at most. */
  ghost predicate AntisymmetricOn<T>(le: (T, T) -> bool, s: seq<T>) {
    forall i, j :: 0 <= i < |s| && 0 <= j < |s| && le(s[i], s[j]) && le(s[j], s[i]) ==> s[i] == s[j]
  }

  lemma {:induction false} LexLeTotal(a: string, b: string)
    ensures LexLe(a, b) || LexLe(b, a)
  {
    if a != [] && b != [] && a[0] == b[0] {
      LexLeTotal(a[1..], b[1..]);
    }
  }

  lemma {:induction false} LexLeAntisymmetric(a: string, b: string)
    requires LexLe(a, b) && LexLe(b, a)
    ensures a == b
  {
    if a != [] && b != [] {
      LexLeAntisymmetric(a[1..], b[1..]);
      assert a == [a[0]] + a[1..] && b == [b[0]] + b[1..];
    }
  }

  lemma {:induction false} LexLeTransitive(a: string, b: string, c: string)
    requires LexLe(a, b) && LexLe(b, c)
    ensures LexLe(a, c)
  {
    if a != [] && b != [] && c != [] && a[0] == b[0] && b[0] == c[0] {
      LexLeTransitive(a[1..], b[1..], c[1..]);
    }
  }

  /** `LexLe` is a total order. */
  lemma LexLeIsTotalOrder()
    ensures Total(LexLe) && Transitive(LexLe)
    ensures forall a, b :: LexLe(a, b) && LexLe(b, a) ==> a == b
  {
    forall a, b ensures LexLe(a, b) || LexLe(b, a) {
      LexLeTotal(a, b);
    }
    forall a, b, c | LexLe(a, b) && LexLe(b, c) ensures LexLe(a, c) {
      LexLeTransitive(a, b, c);
    }
    forall a, b | LexLe(a, b) && LexLe(b, a) ensures a == b {
      LexLeAntisymmetric(a, b);
    }
  }

  /** Each element is related by `le` to the next one. */
  predicate Sorted<T>(s: seq<T>, le: (T, T) -> bool) {
    forall i :: 0 < i < |s| ==> le(s[i - 1], s[i])
  }

  /** No value occurs twice. */
  predicate Distinct<T(==)>(s: seq<T>) {
    forall i, j :: 0 <= i < j < |s| ==> s[i] != s[j]
  }

  /** No two elements share a key. */
  predicate UniqueKeys<T, K(==)>(s: seq<T>, key: T -> K) {
    forall i, j :: 0 <= i < j < |s| ==> key(s[i]) != key(s[j])
  }

  /** `x` placed in front of the first element it is `le` to. */
  function Insert<T>(x: T, s: seq<T>, le: (T, T) -> bool): (r: seq<T>)
    ensures multiset(r) == multiset(s) + multiset{x}
    ensures r[0] == x || (s != [] && r[0] == s[0])
  {
    if s == [] || le(x, s[0]) then [x] + s
    else
      assert s == [s[0]] + s[1..];
      [s[0]] + Insert(x, s[1..], le)
  }

  /** Insertion sort of `s` by `le`, the model of an `ORDER BY` or a `sort` call. */
  function SortBy<T>(s: seq<T>, le: (T, T) -> bool): (r: seq<T>)
    ensures multiset(r) == multiset(s)
  {
    if s == [] then []
    else
      assert s == [s[0]] + s[1..];
      Insert(s[0], SortBy(s[1..], le), le)
  }

  /** Sorting neither adds nor loses a value. */
  lemma SortByMembers<T>(s: seq<T>, le: (T, T) -> bool)
    ensures forall x :: x in SortBy(s, le) <==> x in s
  {
    forall x ensures x in SortBy(s, le) <==> x in s {
      assert x in SortBy(s, le) <==> x in multiset(SortBy(s, le));
      assert x in s <==> x in multiset(s);
    }
  }

  lemma {:induction false} InsertSorted<T(!new)>(x: T, s: seq<T>, le: (T, T) -> bool)
    requires Total(le) && Sorted(s, le)
    ensures Sorted(Insert(x, s, le), le)
  {
    if s != [] && !le(x, s[0]) {
      InsertSorted(x, s[1..], le);
      assert le(s[0], x);
    }
  }

  /** The result of `SortBy` is ordered by `le` whenever `le` is total. */
  lemma {:induction false} SortBySorted<T(!new)>(s: seq<T>, le: (T, T) -> bool)
    requires Total(le)
    ensures Sorted(SortBy(s, le), le)
  {
    if s != [] {
      SortBySorted(s[1..], le);
      InsertSorted(s[0], SortBy(s[1..], le), le);
    }
  }

  lemma {:induction false} UniqueKeysCons<T, K>(h: T, t: seq<T>, key: T -> K)
    ensures UniqueKeys([h] + t, key) <==> UniqueKeys(t, key) && forall y :: y in t ==> key(y) != key(h)
  {
    var s := [h] + t;
    if UniqueKeys(s, key) {
      forall i, j | 0 <= i < j < |t| ensures key(t[i]) != key(t[j]) {
        assert t[i] == s[i + 1] && t[j] == s[j + 1];
      }
      forall y | y in t ensures key(y) != key(h) {
        var j :| 0 <= j < |t| && t[j] == y;
        assert s[0] == h && s[j + 1] == y;
      }
    }
  }

  lemma {:induction false} InsertUniqueKeys<T, K>(x: T, s: seq<T>, le: (T, T) -> bool, key: T -> K)
    requires UniqueKeys(s, key)
    requires forall y :: y in s ==> key(y) != key(x)
    ensures UniqueKeys(Insert(x, s, le), key)
  {
    if s == [] || le(x, s[0]) {
      UniqueKeysCons(x, s, key);
    } else {
      UniqueKeysCons(s[0], s[1..], key);
      assert s == [s[0]] + s[1..];
      InsertUniqueKeys(x, s[1..], le, key);
      var r := Insert(x, s[1..], le);
      forall y | y in r ensures key(y) != key(s[0]) {
        assert y in multiset(r);
        assert y == x || y in multiset(s[1..]);
      }
      UniqueKeysCons(s[0], r, key);
    }
  }

  /** Sorting never makes two elements share a key: the rows of a page keep distinct ids. */
  lemma {:induction false} SortByUniqueKeys<T, K>(s: seq<T>, le: (T, T) -> bool, key: T -> K)
    requires UniqueKeys(s, key)
    ensures UniqueKeys(SortBy(s, le), key)
  {
    if s != [] {
      assert s == [s[0]] + s[1..];
      UniqueKeysCons(s[0], s[1..], key);
      SortByUniqueKeys(s[1..], le, key);
      var r := SortBy(s[1..], le);
      forall y | y in r ensures key(y) != key(s[0]) {
        assert y in multiset(r);
        assert y in s[1..];
      }
      InsertUniqueKeys(s[0], r, le, key);
    }
  }

  lemma {:induction false} SortedFirstLeast<T(!new)>(s: seq<T>, le: (T, T) -> bool, j: nat)
    requires Transitive(le) && Sorted(s, le) && 0 < j < |s|
    ensures le(s[0], s[j])
  {
    if j > 1 {
      SortedFirstLeast(s, le, j - 1);
    }
  }

  /** In a sorted sequence every element is related to every later one. */
  lemma {:induction false} SortedLe<T(!new)>(s: seq<T>, le: (T, T) -> bool, i: nat, j: nat)
    requires Transitive(le) && Sorted(s, le) && i < j < |s|
    ensures le(s[i], s[j])
  {
    if j > i + 1 {
      SortedLe(s, le, i, j - 1);
    }
  }

  lemma {:induction false} SortedHeadsEqual<T(!new)>(a: seq<T>, b: seq<T>, le: (T, T) -> bool)
    requires Total(le) && Transitive(le) && AntisymmetricOn(le, a)
    requires Sorted(a, le) && Sorted(b, le) && multiset(a) == multiset(b) && a != []
    ensures b != [] && a[0] == b[0]
  {
    assert a[0] in multiset(b);
    var j :| 0 <= j < |b| && b[j] == a[0];
    assert b[0] in multiset(a);
    var i :| 0 <= i < |a| && a[i] == b[0];
    if j > 0 { SortedFirstLeast(b, le, j); }
    if i > 0 { SortedFirstLeast(a, le, i); }
    assert le(a[0], a[i]) && le(a[i], a[0]);
  }

  lemma MultisetTail<T>(a: seq<T>, b: seq<T>)
    requires multiset(a) == multiset(b) && a != [] && b != [] && a[0] == b[0]
    ensures multiset(a[1..]) == multiset(b[1..])
  {
    assert a == [a[0]] + a[1..] && b == [b[0]] + b[1..];
    assert multiset(a[1..]) == multiset(a) - multiset{a[0]};
    assert multiset(b[1..]) == multiset(b) - multiset{b[0]};
  }

  /** Two orderings of the same elements that are both sorted by a total,
      transitive relation, antisymmetric on those elements, are the same sequence. */
  lemma {:induction false} SortedUnique<T(!new)>(a: seq<T>, b: seq<T>, le: (T, T) -> bool)
    requires Total(le) && Transitive(le) && AntisymmetricOn(le, a)
    requires Sorted(a, le) && Sorted(b, le) && multiset(a) == multiset(b)
    ensures a == b
  {
    assert |a| == |multiset(a)| == |b|;
    if a != [] {
      SortedHeadsEqual(a, b, le);
      MultisetTail(a, b);
      assert AntisymmetricOn(le, a[1..]) by {
        forall i', j' | 0 <= i' < |a| - 1 && 0 <= j' < |a| - 1
          ensures le(a[1..][i'], a[1..][j']) && le(a[1..][j'], a[1..][i']) ==> a[1..][i'] == a[1..][j']
        {
          assert a[1..][i'] == a[i' + 1] && a[1..][j'] == a[j' + 1];
        }
      }
      SortedUnique(a[1..], b[1..], le);
      assert a == [a[0]] + a[1..] && b == [b[0]] + b[1..];
    }
  }

  /** Sorting depends only on which elements there are, not on the order they
      are stored in: the database may return them in any order. */
  lemma SortByDeterministic<T(!new)>(a: seq<T>, b: seq<T>, le: (T, T) -> bool)
    requires Total(le) && Transitive(le) && AntisymmetricOn(le, a)
    requires multiset(a) == multiset(b)
    ensures SortBy(a, le) == SortBy(b, le)
  {
    var sa, sb := SortBy(a, le), SortBy(b, le);
    SortBySorted(a, le);
    SortBySorted(b, le);
    assert AntisymmetricOn(le, sa) by {
      forall i, j | 0 <= i < |sa| && 0 <= j < |sa| && le(sa[i], sa[j]) && le(sa[j], sa[i])
        ensures sa[i] == sa[j]
      {
        assert sa[i] in multiset(a) && sa[j] in multiset(a);
        var i' :| 0 <= i' < |a| && a[i'] == sa[i];
        var j' :| 0 <= j' < |a| && a[j'] == sa[j];
      }
    }
    SortedUnique(sa, sb, le);
  }

  /** `s` back to front. */
  function Reverse<T>(s: seq<T>): (r: seq<T>)
    ensures |r| == |s|
    ensures forall i :: 0 <= i < |s| ==> r[i] == s[|s| - 1 - i]
  {
    if s == [] then [] else Reverse(s[1..]) + [s[0]]
  }

  lemma {:induction false} ReverseMultiset<T>(s: seq<T>)
    ensures multiset(Reverse(s)) == multiset(s)
  {
    if s != [] {
      ReverseMultiset(s[1..]);
      assert s == [s[0]] + s[1..];
    }
  }

  /** `Array.from(new Set(s))`: each value once, at its first occurrence. */
  function Dedup<T(==,!new)>(s: seq<T>): (r: seq<T>)
    ensures forall x :: x in r <==> x in s
    ensures Distinct(r)
  {
    if s == [] then []
    else
      var r := Dedup(s[..|s| - 1]);
      var x := s[|s| - 1];
      assert s == s[..|s| - 1] + [x];
      if x in r then r else r + [x]
  }
}
