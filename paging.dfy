/** Offset pagination as the route handlers ask the database for it:
    `skip = (page - 1) * pageSize`, `take = pageSize`, and
    `totalPages = Math.ceil(totalItems / pageSize)`. */
module Paging {
  import opened Ordering

  function Min(a: int, b: int): int {
    if a <= b then a else b
  }

  /** `Math.ceil(n / d)`: the least number of blocks of `d` that hold `n` items. */
  function CeilDiv(n: nat, d: nat): (q: nat)
    requires d > 0
    ensures n <= q * d
    ensures q == 0 || (q - 1) * d < n
    ensures q == 0 <==> n == 0
  {
    var q := (n + d - 1) / d;
    var r := (n + d - 1) % d;
    assert q * d + r == n + d - 1;
    assert (q - 1) * d == q * d - d;
    q
  }

  /** The database's `skip`: everything after the first `k` rows. */
  function Drop<T>(s: seq<T>, k: nat): (r: seq<T>)
    ensures |r| == if k >= |s| then 0 else |s| - k
  {
    if k >= |s| then [] else s[k..]
  }

  /** The database's `take`: at most the first `k` rows. */
  function Take<T>(s: seq<T>, k: nat): (r: seq<T>)
    ensures |r| == Min(k, |s|)
  {
    if k >= |s| then s else s[..k]
  }

  /** The offset of page `page` (numbered from 1). */
  function Skip(page: nat, size: nat): nat
    requires page >= 1
  {
    (page - 1) * size
  }

  /** Page `page` of `s`: `skip` the pages before it, `take` one page. */
  function PageOf<T>(s: seq<T>, page: nat, size: nat): seq<T>
    requires page >= 1
  {
    Take(Drop(s, Skip(page, size)), size)
  }

  /** A page is the block of positions [skip, skip + size) of `s`, cut at its end. */
  lemma PageIsSlice<T>(s: seq<T>, page: nat, size: nat)
    requires page >= 1
    ensures Skip(page, size) + size == page * size
    ensures PageOf(s, page, size)
         == s[Min(Skip(page, size), |s|)..Min(page * size, |s|)]
  {
    assert Skip(page, size) + size == page * size;
  }

  /** No page holds more than `size` rows. */
  lemma PageAtMostSize<T>(s: seq<T>, page: nat, size: nat)
    requires page >= 1
    ensures |PageOf(s, page, size)| <= size
  {
  }

  /** Every page from 1 to `totalPages` holds at least one row. */
  lemma PageNonEmpty<T>(s: seq<T>, page: nat, size: nat)
    requires size > 0 && 1 <= page <= CeilDiv(|s|, size)
    ensures |PageOf(s, page, size)| >= 1
  {
    var q := CeilDiv(|s|, size);
    assert (q - 1) * size < |s|;
    assert (page - 1) * size <= (q - 1) * size by {
      MulMonotone(page - 1, q - 1, size);
    }
  }

  /** A page past `totalPages` is empty. */
  lemma PageBeyondLast<T>(s: seq<T>, page: nat, size: nat)
    requires size > 0 && page > CeilDiv(|s|, size)
    ensures PageOf(s, page, size) == []
  {
    var q := CeilDiv(|s|, size);
    assert |s| <= q * size;
    MulMonotone(q, page - 1, size);
  }

  lemma MulMonotone(a: nat, b: nat, c: nat)
    requires a <= b
    ensures a * c <= b * c
  {
  }

  /** Pages 1 to `k`, one after the other. */
  function Pages<T>(s: seq<T>, size: nat, k: nat): seq<T> {
    if k == 0 then [] else Pages(s, size, k - 1) + PageOf(s, k, size)
  }

  /** The first `k` pages are exactly the first `k * size` rows. */
  lemma {:induction false} PagesArePrefix<T>(s: seq<T>, size: nat, k: nat)
    ensures Pages(s, size, k) == s[..Min(k * size, |s|)]
  {
    if k > 0 {
      PagesArePrefix(s, size, k - 1);
      PageIsSlice(s, k, size);
      var a, b := Min(Skip(k, size), |s|), Min(k * size, |s|);
      assert Pages(s, size, k) == s[..a] + s[a..b];
      PrefixThenSlice(s, a, b);
    }
  }

  /** A prefix followed by the slice after it is the longer prefix. */
  lemma PrefixThenSlice<T>(s: seq<T>, a: nat, b: nat)
    requires a <= b <= |s|
    ensures s[..a] + s[a..b] == s[..b]
  {
  }

  /** Pages 1 to `totalPages` partition the rows: concatenated, they are the
      whole sequence, so no row is missing and none is repeated. */
  lemma PagesPartition<T>(s: seq<T>, size: nat)
    requires size > 0
    ensures Pages(s, size, CeilDiv(|s|, size)) == s
  {
    PagesArePrefix(s, size, CeilDiv(|s|, size));
  }

  /** Two different pages of a sequence whose elements have distinct keys share no key. */
  lemma PagesDisjoint<T, K>(s: seq<T>, size: nat, p: nat, q: nat, key: T -> K)
    requires UniqueKeys(s, key) && 1 <= p < q
    ensures forall x, y :: x in PageOf(s, p, size) && y in PageOf(s, q, size) ==> key(x) != key(y)
  {
    PageIsSlice(s, p, size);
    PageIsSlice(s, q, size);
    MulMonotone(p, q - 1, size);
    var lp, hp := Min(Skip(p, size), |s|), Min(p * size, |s|);
    var lq, hq := Min(Skip(q, size), |s|), Min(q * size, |s|);
    assert hp <= lq;
    forall x, y | x in PageOf(s, p, size) && y in PageOf(s, q, size) ensures key(x) != key(y) {
      var i :| lp <= i < hp && s[i] == x;
      var j :| lq <= j < hq && s[j] == y;
      assert i < j;
    }
  }
}
