/** The back-office `DataTable`: the same props and body as `DataTable`, a
    header that shows each column's sort direction, and only the previous and
    next page buttons. */
module BoDataTable {

  import opened Wrappers
  import QueryParams
  import DataTable

  /** The marker after a header's title. */
  function Indicator(s: DataTable.SortState): (r: Option<string>)
    ensures r.None? <==> s == DataTable.Unsorted
  {
    match s
    case Asc => Some(" 🔼")
    case Desc => Some(" 🔽")
    case Unsorted => None
  }

  /** A rendered header: whether it takes a click, whether it is highlighted,
      and its marker. */
  datatype Header = Header(clickable: bool, highlighted: bool, indicator: Option<string>)

  function HeaderOf(c: DataTable.Column, sorting: QueryParams.SortingState): Header
  {
    var s := DataTable.SortOf(sorting, c.id);
    Header(c.sortable, s != DataTable.Unsorted, Indicator(s))
  }

  datatype Pagination = Pagination(page: int, pageCount: int, buttons: seq<DataTable.PageButton>)

  datatype View = View(filter: Option<bool>, headers: seq<Header>, body: DataTable.Body, pagination: Option<Pagination>)

  function PaginationOf(p: DataTable.Props): Pagination
    requires DataTable.PageSize(p) > 0
  {
    var page := DataTable.CurrentPage(p);
    var count := DataTable.PageCount(DataTable.TotalCount(p), DataTable.PageSize(p));
    Pagination(page, count, [
      DataTable.PageButton("이전", page == 1, page - 1),
      DataTable.PageButton("다음", page == count, page + 1)
    ])
  }

  function Render(p: DataTable.Props): View
    requires DataTable.PageSize(p) > 0
  {
    var sorting := DataTable.Sorting(p);
    View(if p.showGlobalFilter.GetOr(true) then Some(p.isLoading.GetOr(false)) else None,
         seq(|p.columns|, i requires 0 <= i < |p.columns| => HeaderOf(p.columns[i], sorting)),
         DataTable.BodyOf(p),
         if p.showPagination.GetOr(true) then Some(PaginationOf(p)) else None)
  }

  // ---------------------------------------------------------------------
  // Properties

  /** A header takes a click exactly when its column sorts, is highlighted
      exactly when the column is sorted, and shows 🔼 for ascending, 🔽 for
      descending and nothing otherwise. */
  lemma HeaderRules(p: DataTable.Props, i: int)
    requires DataTable.PageSize(p) > 0 && 0 <= i < |p.columns|
    ensures var h, s := Render(p).headers[i], DataTable.SortOf(DataTable.Sorting(p), p.columns[i].id);
      (h.clickable <==> p.columns[i].sortable)
      && (h.highlighted <==> h.indicator.Some?)
      && (s == DataTable.Asc ==> h.indicator == Some(" 🔼"))
      && (s == DataTable.Desc ==> h.indicator == Some(" 🔽"))
  {
  }

  /** A column sorted descending as the only sort shows 🔽; a column that is
      not in the sorting state shows nothing. */
  lemma SortedColumn(p: DataTable.Props, i: int)
    requires DataTable.PageSize(p) > 0 && 0 <= i < |p.columns|
    requires p.sorting == Some([QueryParams.ColumnSort(p.columns[i].id, true)])
    ensures Render(p).headers[i].indicator == Some(" 🔽")
    ensures forall j :: 0 <= j < |p.columns| && p.columns[j].id != p.columns[i].id ==>
      Render(p).headers[j].indicator.None?
  {
    forall j | 0 <= j < |p.columns| && p.columns[j].id != p.columns[i].id {
      DataTable.SortOfFirst(DataTable.Sorting(p), p.columns[j].id);
    }
  }

  /** Previous is disabled exactly on page 1 and next exactly on the last
      page; they ask for the neighbouring pages; the label pairs the page with
      the ceiling page count. */
  lemma ButtonRules(p: DataTable.Props)
    requires DataTable.PageSize(p) > 0
    ensures var page, count, b := DataTable.CurrentPage(p), DataTable.PageCount(DataTable.TotalCount(p), DataTable.PageSize(p)), PaginationOf(p).buttons;
      |b| == 2
      && (b[0].disabled <==> page == 1) && b[0].target == page - 1
      && (b[1].disabled <==> page == count) && b[1].target == page + 1
      && PaginationOf(p).page == page && PaginationOf(p).pageCount == count
  {
  }

  /** The same body, filter and pagination choices as `DataTable`. */
  lemma SameLayout(p: DataTable.Props)
    requires DataTable.PageSize(p) > 0
    ensures Render(p).body == DataTable.Render(p).body
    ensures Render(p).filter == DataTable.Render(p).filter
    ensures Render(p).pagination.Some? <==> DataTable.Render(p).pagination.Some?
    ensures |Render(p).headers| == |DataTable.Render(p).headers|
    ensures forall i :: 0 <= i < |p.columns| ==>
      Render(p).headers[i].clickable == DataTable.Render(p).headers[i].clickable
      && Render(p).headers[i].highlighted == DataTable.Render(p).headers[i].highlighted
  {
  }

  /** With no rows in total, next stays enabled on page 1. */
  lemma EmptyTotalKeepsNextEnabled(p: DataTable.Props)
    requires DataTable.PageSize(p) > 0 && DataTable.TotalCount(p) == 0 && DataTable.CurrentPage(p) == 1
    ensures DataTable.Click(PaginationOf(p).buttons[1], true) == Some(2)
    ensures DataTable.Click(PaginationOf(p).buttons[0], true).None?
  {
    assert DataTable.PageCount(0, DataTable.PageSize(p)) == 0;
  }
}
