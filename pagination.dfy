/** The pagination control: the page count derived from the item total and the
    page size, and the verbatim forwarding of page-change events. */
module FancyPantsPagination {
  import opened TableTypes

  /** `Math.ceil(totalItems / itemsPerPage)`, as integer ceiling division: the
      least number of pages of `itemsPerPage` items that hold `totalItems` items. */
  function TotalPages(totalItems: nat, itemsPerPage: nat): (pages: nat)
    requires itemsPerPage > 0
    ensures pages * itemsPerPage >= totalItems
    ensures totalItems > 0 ==> (pages - 1) * itemsPerPage < totalItems
    ensures totalItems == 0 ==> pages == 0
  {
    var q := (totalItems + itemsPerPage - 1) / itemsPerPage;
    var m := (totalItems + itemsPerPage - 1) % itemsPerPage;
    assert q * itemsPerPage + m == totalItems + itemsPerPage - 1;
    assert q * itemsPerPage >= totalItems by {
      assert m <= itemsPerPage - 1;
    }
    assert (q - 1) * itemsPerPage == q * itemsPerPage - itemsPerPage;
    q
  }

  /** There is only one page count satisfying the ceiling contract. */
  lemma TotalPagesUnique(totalItems: nat, itemsPerPage: nat, pages: nat)
    requires itemsPerPage > 0
    requires pages * itemsPerPage >= totalItems
    requires pages > 0 ==> (pages - 1) * itemsPerPage < totalItems
    ensures pages == TotalPages(totalItems, itemsPerPage)
  {
  }

  /** What the control renders: the page count and the selected page. */
  datatype PaginationView = PaginationView(count: nat, page: int)

  /** The control shows `totalPages` pages and marks `currentPage` as selected,
      without clamping it to the page count. */
  function Render(props: PaginationProps): (v: PaginationView)
    requires props.itemsPerPage > 0
    ensures v.count * props.itemsPerPage >= props.totalItems
    ensures props.totalItems > 0 ==> (v.count - 1) * props.itemsPerPage < props.totalItems
    ensures props.totalItems == 0 ==> v.count == 0
    ensures v.page == props.currentPage
  {
    PaginationView(TotalPages(props.totalItems, props.itemsPerPage), props.currentPage)
  }

  /** A page-change event calls `onPageChange` exactly once, with the chosen page. */
  function HandleChange(page: int): seq<int> {
    [page]
  }

  /** The selected page may lie beyond the last page: nothing clamps it. */
  lemma CurrentPageNotClamped()
    ensures Render(PaginationProps(10, 25, 7)).count == 1
    ensures Render(PaginationProps(10, 25, 7)).page == 7
  {
  }

  /** The worked example: 101 items at 25 per page make 5 pages. */
  lemma HundredAndOneItems()
    ensures TotalPages(101, 25) == 5
  {
  }
}
