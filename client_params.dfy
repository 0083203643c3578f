/** The client wrappers' side of the query string: how `page` and `pageSize`
    are normalised before they are sent, and the query string itself as the
    ordered list of key/value pairs `URLSearchParams` holds. */
module ClientParams {
  import opened Wrappers
  import opened Numbers
  import opened Paging
  import opened RouteParams

  /** A numeric argument as the wrappers may receive it at run time: absent
      (`undefined` or `null`), an integer, `NaN`, or, despite the declared
      type, a string. */
  datatype NumArg = Absent | Num(n: int) | NaN | Str(s: string)

  /** An ordered list of query-string pairs. */
  type Query = seq<(string, string)>

  function Max(a: int, b: int): int {
    if a >= b then a else b
  }

  /** `String(x)` for an argument that is not a usable number. */
  function AsText(p: NumArg): string
    requires p.NaN? || p.Str?
  {
    if p.NaN? then "NaN" else p.s
  }

  /** The page a wrapper sends: `max(1, page)` for a number, a positive
      `parseInt` of the text otherwise, 1 by default. Never below 1. */
  function ClientPage(p: NumArg): (page: int)
    ensures page >= 1
    ensures p.Num? ==> page == Max(1, p.n)
    ensures p.Num? && p.n >= 1 ==> page == p.n
    ensures p.Str? && IsPositiveInt(p.s) ==> page == ParseInt(p.s).value
    ensures p.Absent? || p.NaN? || (p.Str? && !IsPositiveInt(p.s)) ==> page == 1
  {
    match p
    case Absent => 1
    case Num(n) => Max(1, n)
    case _ => if IsPositiveInt(AsText(p)) then ParseInt(AsText(p)).value else 1
  }

  /** The page size a wrapper sends: a number clamped to 1..50, a positive
      `parseInt` of the text capped at 50, `default` otherwise. */
  function ClientPageSize(p: NumArg, default: nat): (size: int)
    requires 1 <= default <= MaxPageSize
    ensures 1 <= size <= MaxPageSize
    ensures p.Num? ==> size == Max(1, Min(MaxPageSize, p.n))
    ensures p.Num? && 1 <= p.n <= MaxPageSize ==> size == p.n
    ensures p.Str? && IsPositiveInt(p.s) ==> size == Min(MaxPageSize, ParseInt(p.s).value)
    ensures p.Absent? || p.NaN? || (p.Str? && !IsPositiveInt(p.s)) ==> size == default
  {
    match p
    case Absent => default
    case Num(n) => Max(1, Min(MaxPageSize, n))
    case _ => if IsPositiveInt(AsText(p)) then Min(MaxPageSize, ParseInt(AsText(p)).value) else default
  }

  /** The `page` block of the wrappers. */
  method NormalizePage(p: NumArg) returns (page: int)
    ensures page == ClientPage(p)
  {
    page := 1;
    if !p.Absent? {
      if p.Num? {
        page := Max(1, p.n);
      } else {
        var parsed := ParseInt(AsText(p));
        if parsed.Some? && parsed.value > 0 {
          page := parsed.value;
        }
      }
    }
  }

  /** The `pageSize` block of the wrappers. */
  method NormalizePageSize(p: NumArg, default: nat) returns (size: int)
    requires 1 <= default <= MaxPageSize
    ensures size == ClientPageSize(p, default)
  {
    size := default;
    if !p.Absent? {
      if p.Num? {
        size := Max(1, Min(MaxPageSize, p.n));
      } else {
        var parsed := ParseInt(AsText(p));
        if parsed.Some? && parsed.value > 0 {
          size := Min(MaxPageSize, parsed.value);
        }
      }
    }
  }

  /** `searchParams.get(key)`: the first value stored under `key`. */
  function Lookup(q: Query, key: string): (v: Option<string>)
    ensures v.None? <==> forall i :: 0 <= i < |q| ==> q[i].0 != key
    ensures v.Some? ==> exists i :: 0 <= i < |q| && q[i] == (key, v.value)
  {
    if q == [] then None
    else if q[0].0 == key then Some(q[0].1)
    else
      var v := Lookup(q[1..], key);
      assert forall i :: 0 < i < |q| ==> q[i] == q[1..][i - 1];
      v
  }

  /** `if (v) searchParams.append(key, v)`: one pair when `v` is a non-empty string. */
  function Optional(key: string, v: Option<string>): (q: Query)
    ensures |q| <= 1
    ensures q != [] <==> IsTruthy(v)
    ensures q != [] ==> q[0] == (key, v.value)
  {
    if IsTruthy(v) then [(key, v.value)] else []
  }

  /** A filter value as the search hooks put it in the request: only when
      non-empty, `""` meaning no filter. */
  function NonEmpty(s: string): (r: Option<string>)
    ensures IsTruthy(r) <==> s != ""
    ensures r.Some? ==> r.value == s
  {
    if s != "" then Some(s) else None
  }

  /** `if (v) searchParams.append(key, v)` on a query built so far. */
  method AppendOptional(q: Query, key: string, v: Option<string>) returns (r: Query)
    ensures r == q + Optional(key, v)
  {
    r := q;
    if IsTruthy(v) {
      r := r + [(key, v.value)];
    }
  }

  lemma {:induction false} LookupAppend(a: Query, b: Query, key: string)
    ensures Lookup(a + b, key) == if Lookup(a, key).Some? then Lookup(a, key) else Lookup(b, key)
  {
    if a != [] {
      assert (a + b)[1..] == a[1..] + b;
      LookupAppend(a[1..], b, key);
    } else {
      assert a + b == b;
    }
  }

  lemma LookupOptional(k: string, v: Option<string>, key: string)
    ensures Lookup(Optional(k, v), key) == if k == key && IsTruthy(v) then v else None
  {
  }

  /** Reading a key back from a query of three pairs. */
  lemma LookupThree(q: Query, key: string)
    requires |q| == 3
    ensures Lookup(q, key) == if q[0].0 == key then Some(q[0].1)
                              else if q[1].0 == key then Some(q[1].1)
                              else if q[2].0 == key then Some(q[2].1)
                              else None
  {
    assert q[1..][1..] == [q[2]];
    assert [q[2]][1..] == [];
  }

  /** Reading a key back from a query made of a fixed head and three appended
      optional pairs with distinct keys. */
  lemma LookupOptionals3(head: Query, k1: string, v1: Option<string>, k2: string, v2: Option<string>,
                         k3: string, v3: Option<string>, key: string)
    ensures Lookup(head + (Optional(k1, v1) + Optional(k2, v2) + Optional(k3, v3)), key)
         == if Lookup(head, key).Some? then Lookup(head, key)
            else if key == k1 && IsTruthy(v1) then v1
            else if key == k2 && IsTruthy(v2) then v2
            else if key == k3 && IsTruthy(v3) then v3
            else None
  {
    var a, b, c := Optional(k1, v1), Optional(k2, v2), Optional(k3, v3);
    LookupAppend(head, a + b + c, key);
    LookupAppend(a + b, c, key);
    LookupAppend(a, b, key);
    LookupOptional(k1, v1, key);
    LookupOptional(k2, v2, key);
    LookupOptional(k3, v3, key);
  }

  /** The same with two more optional pairs. */
  lemma LookupOptionals5(head: Query, k1: string, v1: Option<string>, k2: string, v2: Option<string>,
                         k3: string, v3: Option<string>, k4: string, v4: Option<string>,
                         k5: string, v5: Option<string>, key: string)
    ensures Lookup(head + (Optional(k1, v1) + Optional(k2, v2) + Optional(k3, v3) + Optional(k4, v4) + Optional(k5, v5)), key)
         == if Lookup(head, key).Some? then Lookup(head, key)
            else if key == k1 && IsTruthy(v1) then v1
            else if key == k2 && IsTruthy(v2) then v2
            else if key == k3 && IsTruthy(v3) then v3
            else if key == k4 && IsTruthy(v4) then v4
            else if key == k5 && IsTruthy(v5) then v5
            else None
  {
    var a, b, c, d, e := Optional(k1, v1), Optional(k2, v2), Optional(k3, v3), Optional(k4, v4), Optional(k5, v5);
    LookupOptionals3(head, k1, v1, k2, v2, k3, v3, key);
    LookupOptionals3([], k1, v1, k2, v2, k3, v3, key);
    assert [] + (a + b + c) == a + b + c;
    LookupAppend(head, a + b + c + d + e, key);
    LookupAppend(a + b + c + d, e, key);
    LookupAppend(a + b + c, d, key);
    LookupOptional(k4, v4, key);
    LookupOptional(k5, v5, key);
  }

  /** Every page the client sends is the page the server reads back. */
  lemma ServerReadsClientPage(p: NumArg)
    ensures IsPageFor(Some(IntToString(ClientPage(p))), ClientPage(p))
  {
    PageRoundTrip(ClientPage(p));
  }

  /** Every page size the client sends is the page size the server uses. */
  lemma ServerReadsClientPageSize(p: NumArg, default: nat, serverDefault: nat)
    requires 1 <= default <= MaxPageSize
    ensures IsPageSizeFor(Some(IntToString(ClientPageSize(p, default))), serverDefault, ClientPageSize(p, default))
  {
    PageSizeRoundTrip(ClientPageSize(p, default), serverDefault);
  }
}
