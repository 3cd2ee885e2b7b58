/** The remote list data controller: five query fields with their setters, the
    fetch parameters and fetch key derived from them, the loading flag, and the
    table data that keeps the last truthy fetch result. The data-fetching
    library is not modelled: each fetch result is an input. */
module TableData {
  import opened Values

  datatype EFilterOperator =
    | Eq | Ne | Gt | Lt | Gte | Lte | Like | In | Between
    | ArrayContains | NotArrayContains | IsNotNull

  /** The wire name of each operator. */
  function OperatorName(op: EFilterOperator): string {
    match op
    case Eq => "eq"
    case Ne => "ne"
    case Gt => "gt"
    case Lt => "lt"
    case Gte => "gte"
    case Lte => "lte"
    case Like => "like"
    case In => "in"
    case Between => "between"
    case ArrayContains => "array_contains"
    case NotArrayContains => "not_array_contains"
    case IsNotNull => "is_not_null"
  }

  /** Distinct operators have distinct wire names. */
  lemma OperatorNamesDistinct(a: EFilterOperator, b: EFilterOperator)
    requires OperatorName(a) == OperatorName(b)
    ensures a == b
  {
  }

  datatype Filter = Filter(field: string, operator: EFilterOperator, value: Value)

  /** The parameter object handed to the fetcher. */
  datatype FetcherParams = FetcherParams(page: int, limit: int, filters: seq<Filter>, sortBy: string, sortOrder: string)

  /** The key the fetch is cached and de-duplicated under. */
  datatype FetchKey = FetchKey(fetcherName: string, params: FetcherParams)

  const DefaultPage := 1
  const DefaultItemsPerPage := 25

  /** `!data && !error`: loading until a truthy result or an error arrives. */
  predicate IsLoading<D, E>(data: Option<D>, error: Option<E>) {
    data.None? && error.None?
  }

  /** The table data after a fetch result is observed: replaced by truthy data,
      otherwise kept. */
  function Retain<D>(previous: Option<D>, data: Option<D>): (r: Option<D>)
    ensures data.Some? ==> r == data
    ensures data.None? ==> r == previous
  {
    if data.Some? then data else previous
  }

  /** The table data after a series of fetch results, oldest first. */
  function RetainAll<D>(initial: Option<D>, results: seq<Option<D>>): Option<D>
    decreases |results|
  {
    if |results| == 0 then initial
    else Retain(RetainAll(initial, results[..|results| - 1]), results[|results| - 1])
  }

  /** With no truthy result in the series the table keeps its initial data. */
  lemma {:induction false} RetainAllNoTruthy<D>(initial: Option<D>, results: seq<Option<D>>)
    requires forall k :: 0 <= k < |results| ==> results[k].None?
    ensures RetainAll(initial, results) == initial
    decreases |results|
  {
    if |results| > 0 {
      RetainAllNoTruthy(initial, results[..|results| - 1]);
    }
  }

  /** After a series of fetch results the table shows the latest truthy one. */
  lemma {:induction false} RetainAllIsLatestTruthy<D>(initial: Option<D>, results: seq<Option<D>>, k: nat)
    requires k < |results| && results[k].Some?
    requires forall m :: k < m < |results| ==> results[m].None?
    ensures RetainAll(initial, results) == results[k]
    decreases |results|
  {
    if k < |results| - 1 {
      RetainAllIsLatestTruthy(initial, results[..|results| - 1], k);
    }
  }

  /** A failed fetch ends loading although no data arrives: error without data
      is not loading, and the table data is untouched. */
  lemma ErrorWithoutDataIsNotLoading<D, E>(previous: Option<D>, error: E)
    ensures !IsLoading<D, E>(None, Some(error))
    ensures Retain(previous, None) == previous
  {
  }

  /** The query state of one `useTableData` instance and the table data it shows. */
  class TableDataHook<D> {
    var page: int
    var itemsPerPage: int
    var appliedFilters: seq<Filter>
    var appliedSortBy: string
    var appliedSortOrder: string
    var tableData: Option<D>
    const fetcherName: string

    /** The initial state: each omitted initial value falls back to its default
        (page 1, 25 per page, no filters, empty sort field and order); the table
        data starts as the first fetch result. */
    constructor (fetcherName: string, initialPage: Option<int>, initialItemsPerPage: Option<int>,
                 initialFilters: Option<seq<Filter>>, initialSortBy: Option<string>, initialSortOrder: Option<string>,
                 firstData: Option<D>)
      ensures this.fetcherName == fetcherName
      ensures page == initialPage.GetOr(DefaultPage)
      ensures itemsPerPage == initialItemsPerPage.GetOr(DefaultItemsPerPage)
      ensures appliedFilters == initialFilters.GetOr([])
      ensures appliedSortBy == initialSortBy.GetOr("")
      ensures appliedSortOrder == initialSortOrder.GetOr("")
      ensures tableData == firstData
    {
      this.fetcherName := fetcherName;
      page := initialPage.GetOr(DefaultPage);
      itemsPerPage := initialItemsPerPage.GetOr(DefaultItemsPerPage);
      appliedFilters := initialFilters.GetOr([]);
      appliedSortBy := initialSortBy.GetOr("");
      appliedSortOrder := initialSortOrder.GetOr("");
      tableData := firstData;
    }

    /** The fetch parameters of the current state. */
    function Params(): (p: FetcherParams)
      reads this
      ensures p.page == page && p.limit == itemsPerPage && p.filters == appliedFilters
      ensures p.sortBy == appliedSortBy && p.sortOrder == appliedSortOrder
    {
      FetcherParams(page, itemsPerPage, appliedFilters, appliedSortBy, appliedSortOrder)
    }

    /** The fetch key of the current state: the fetcher's name and the parameters. */
    function Key(): (k: FetchKey)
      reads this
      ensures k.fetcherName == fetcherName && k.params == Params()
    {
      FetchKey(fetcherName, Params())
    }

    method SetPage(p: int)
      modifies this`page
      ensures page == p
    {
      page := p;
    }

    method SetItemsPerPage(n: int)
      modifies this`itemsPerPage
      ensures itemsPerPage == n
    {
      itemsPerPage := n;
    }

    method SetAppliedFilters(filters: seq<Filter>)
      modifies this`appliedFilters
      ensures appliedFilters == filters
    {
      appliedFilters := filters;
    }

    method SetAppliedSortBy(sortBy: string)
      modifies this`appliedSortBy
      ensures appliedSortBy == sortBy
    {
      appliedSortBy := sortBy;
    }

    method SetAppliedSortOrder(sortOrder: string)
      modifies this`appliedSortOrder
      ensures appliedSortOrder == sortOrder
    {
      appliedSortOrder := sortOrder;
    }

    /** The effect that runs when a fetch result arrives. */
    method ObserveData(data: Option<D>)
      modifies this`tableData
      ensures tableData == Retain(old(tableData), data)
    {
      if data.Some? {
        tableData := data;
      }
    }
  }

  /** Two states with the same fetch key agree on every query field, so a change
      of any field changes the key. */
  lemma KeyDeterminesQuery<D>(a: TableDataHook<D>, b: TableDataHook<D>)
    requires a.Key() == b.Key()
    ensures a.page == b.page && a.itemsPerPage == b.itemsPerPage && a.appliedFilters == b.appliedFilters
    ensures a.appliedSortBy == b.appliedSortBy && a.appliedSortOrder == b.appliedSortOrder
  {
  }

  /** A fresh hook with initial page 1, 25 per page, no filters and sort by name
      ascending, whose fetch has returned neither data nor an error: it shows the
      initial query state and is loading. */
  method DefaultStateIsLoading<D>(fetcherName: string) returns (p: FetcherParams, loading: bool)
    ensures p == FetcherParams(1, 25, [], "name", "asc")
    ensures loading
  {
    var data: Option<D> := None;
    var error: Option<string> := None;
    var hook := new TableDataHook<D>(fetcherName, Some(1), Some(25), Some([]), Some("name"), Some("asc"), data);
    p := hook.Params();
    loading := IsLoading(data, error);
  }

  /** A client of the hook whose fetch has returned data: after `setPage(2)` the
      fetch parameters are page 2 with every other field at its initial value,
      and with the data there the hook is not loading. */
  method SetPageThenParams<D>(fetcherName: string, mockData: D) returns (p: FetcherParams, loading: bool)
    ensures p == FetcherParams(2, 25, [], "name", "asc")
    ensures !loading
  {
    var data: Option<D> := Some(mockData);
    var error: Option<string> := None;
    var hook := new TableDataHook<D>(fetcherName, Some(1), Some(25), Some([]), Some("name"), Some("asc"), data);
    hook.SetPage(2);
    p := hook.Params();
    loading := IsLoading(data, error);
  }

  /** Changing the page size to 50 fetches `{page: 1, limit: 50, ...}` and keeps
      the previously fetched data until a truthy result arrives. */
  method ChangePageSizeKeepsData<D>(fetcherName: string, shown: D) returns (p: FetcherParams, data: Option<D>)
    ensures p == FetcherParams(1, 50, [], "name", "asc") && data == Some(shown)
  {
    var hook := new TableDataHook<D>(fetcherName, None, None, None, Some("name"), Some("asc"), Some(shown));
    hook.SetItemsPerPage(50);
    p := hook.Params();
    hook.ObserveData(None);
    data := hook.tableData;
  }
}
