/** What the route handlers do with the query string before they talk to the
    database: blank-parameter tests, optional trimmed filters, and the
    normalisation of `page` and `pageSize`. */
module RouteParams {
  import opened Wrappers
  import opened Text
  import opened Numbers
  import opened Paging

  /** A JSON error body `{ error }` sent with an HTTP status. */
  datatype ErrorResponse = ErrorResponse(status: nat, error: string)

  /** The largest page size any route hands out. */
  const MaxPageSize: nat := 50

  /** `!p || !p.trim()`: the parameter is missing, empty or only white space. */
  predicate IsBlankParam(p: Option<string>) {
    p.None? || IsBlank(p.value)
  }

  /** JavaScript truthiness of a query parameter: present and not empty. */
  predicate IsTruthy(p: Option<string>) {
    p.Some? && p.value != ""
  }

  /** `p && p.trim() ? p.trim() : null`: an optional filter is set exactly when
      its parameter is not blank, and then to the trimmed parameter. */
  function TrimmedFilter(p: Option<string>): (f: Option<string>)
    ensures f.Some? <==> !IsBlankParam(p)
    ensures f.Some? ==> f.value == Trim(p.value) && f.value != [] && !IsSpace(f.value[0])
  {
    if p.Some? && Trim(p.value) != [] then Some(Trim(p.value)) else None
  }

  /** `page` is what the handler settles on for the parameter `p`: the parsed
      value when `parseInt` reads a positive integer, 1 otherwise. */
  predicate IsPageFor(p: Option<string>, page: nat) {
    if p.Some? && IsPositiveInt(p.value) then page == ParseInt(p.value).value else page == 1
  }

  /** `size` is what the handler settles on for the parameter `p`: the parsed
      value capped at 50 when `parseInt` reads a positive integer, `default`
      otherwise. */
  predicate IsPageSizeFor(p: Option<string>, default: nat, size: nat) {
    if p.Some? && IsPositiveInt(p.value) then size == Min(MaxPageSize, ParseInt(p.value).value)
    else size == default
  }

  /** The `page` block of the handlers: start from 1 and accept a positive parse. */
  method ReadPage(p: Option<string>) returns (page: nat)
    ensures page >= 1
    ensures IsPageFor(p, page)
  {
    page := 1;
    if IsTruthy(p) {
      var parsed := ParseInt(p.value);
      if parsed.Some? && parsed.value > 0 {
        page := parsed.value;
      }
    }
  }

  /** The `pageSize` block of the handlers: start from the route's default and
      accept a positive parse, capped at 50. */
  method ReadPageSize(p: Option<string>, default: nat) returns (size: nat)
    requires 1 <= default <= MaxPageSize
    ensures 1 <= size <= MaxPageSize
    ensures IsPageSizeFor(p, default, size)
  {
    size := default;
    if IsTruthy(p) {
      var parsed := ParseInt(p.value);
      if parsed.Some? && parsed.value > 0 {
        size := Min(MaxPageSize, parsed.value);
      }
    }
  }

  /** A page number the client writes with `toString` is the one the handler reads. */
  lemma PageRoundTrip(n: int)
    requires n >= 1
    ensures IsPageFor(Some(IntToString(n)), n)
  {
    ParseIntOfIntToString(n);
  }

  /** A page size from 1 to 50 that the client writes is the one the handler uses. */
  lemma PageSizeRoundTrip(n: int, default: nat)
    requires 1 <= n <= MaxPageSize
    ensures IsPageSizeFor(Some(IntToString(n)), default, n)
  {
    ParseIntOfIntToString(n);
  }
}
