/** The `Pagination` component: whether it is shown, the "Mostrando X - Y de
    N resultados" range, and which of its two buttons is disabled. */
module Pagination {
  import opened Paging

  /** What the component renders: nothing, or the range and the two buttons. */
  datatype View =
    | Hidden
    | Shown(startItem: int, endItem: int, previousDisabled: bool, nextDisabled: bool)

  /** `(page - 1) * pageSize + 1`: the position of the first item shown. */
  function StartItem(page: int, pageSize: int): int {
    (page - 1) * pageSize + 1
  }

  /** `Math.min(page * pageSize, totalItems)`: the position of the last item shown. */
  function EndItem(page: int, pageSize: int, totalItems: int): int {
    Min(page * pageSize, totalItems)
  }

  function Render(page: int, totalPages: int, totalItems: int, pageSize: int): (v: View)
    ensures v.Hidden? <==> totalPages <= 1
    ensures v.Shown? ==> v.startItem == StartItem(page, pageSize) && v.endItem == EndItem(page, pageSize, totalItems)
    ensures v.Shown? ==> (v.previousDisabled <==> page == 1)
    ensures v.Shown? ==> (v.nextDisabled <==> page >= totalPages)
  {
    if totalPages <= 1 then Hidden
    else Shown(StartItem(page, pageSize), EndItem(page, pageSize, totalItems), page == 1, page >= totalPages)
  }

  /** On every page a route hands out, the range shown is a non-empty stretch
      of 1..totalItems no longer than a page, and it counts exactly the items
      of that page. */
  lemma RangeMatchesPage<T>(items: seq<T>, page: nat, pageSize: nat)
    requires pageSize >= 1 && 1 <= page <= CeilDiv(|items|, pageSize)
    ensures var start, end := StartItem(page, pageSize), EndItem(page, pageSize, |items|);
      && 1 <= start <= end <= |items|
      && end - start + 1 <= pageSize
      && end - start + 1 == |PageOf(items, page, pageSize)|
  {
    PageIsSlice(items, page, pageSize);
    PageNonEmpty(items, page, pageSize);
    assert StartItem(page, pageSize) == Skip(page, pageSize) + 1;
  }

  /** While the component is shown on a valid page, Previous leads to the page
      before, which exists, and Next, when enabled, leads to a page that is not
      empty. */
  lemma ButtonsLeadToPages<T>(items: seq<T>, page: nat, pageSize: nat)
    requires pageSize >= 1 && 1 <= page <= CeilDiv(|items|, pageSize)
    ensures var v := Render(page, CeilDiv(|items|, pageSize), |items|, pageSize);
      && (v.Shown? && !v.previousDisabled ==> page - 1 >= 1)
      && (v.Shown? && !v.nextDisabled ==> PageOf(items, page + 1, pageSize) != [])
      && (v.Shown? && v.nextDisabled ==> PageOf(items, page + 1, pageSize) == [])
  {
    var total := CeilDiv(|items|, pageSize);
    if page < total {
      PageNonEmpty(items, page + 1, pageSize);
    } else {
      PageBeyondLast(items, page + 1, pageSize);
    }
  }
}
