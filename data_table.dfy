/** The `DataTable` component: what it renders from its props. The rendering
    itself is abstracted to the choices the component makes: whether the
    filter input is there and enabled, which headers take a click, the table
    body, the page label and the four page buttons with the page each asks for. */
module DataTable {

  import opened Wrappers
  import QueryParams

  /** A column: its id and whether it can be sorted. */
  datatype Column = Column(id: string, sortable: bool)

  /** The props; an omitted optional prop is `None`. `modelRows` is the number
      of rows the table's row model yields for `data`. */
  datatype Props = Props(
    columns: seq<Column>,
    dataLength: nat,
    modelRows: nat,
    currentPage: Option<int>,
    hasPageHandler: bool,
    totalCount: Option<int>,
    pageSize: Option<int>,
    sorting: Option<QueryParams.SortingState>,
    showGlobalFilter: Option<bool>,
    showPagination: Option<bool>,
    isLoading: Option<bool>)

  function CurrentPage(p: Props): int { p.currentPage.GetOr(1) }
  function TotalCount(p: Props): int { p.totalCount.GetOr(0) }
  function PageSize(p: Props): int { p.pageSize.GetOr(10) }
  function Sorting(p: Props): QueryParams.SortingState { p.sorting.GetOr([]) }

  /** `Math.ceil(totalCount / pageSize)` for a positive page size. */
  function PageCount(totalCount: int, pageSize: int): int
    requires pageSize > 0
  {
    -((-totalCount) / pageSize)
  }

  /** What the sorting state says about one column. */
  datatype SortState = Unsorted | Asc | Desc

  /** The first entry of the sorting state naming the column decides. */
  function SortOf(sorting: QueryParams.SortingState, id: string): SortState
  {
    if |sorting| == 0 then Unsorted
    else if sorting[0].id == id then (if sorting[0].desc then Desc else Asc)
    else SortOf(sorting[1..], id)
  }

  /** A rendered header: whether it takes a click and whether it is
      highlighted as sorted. */
  datatype Header = Header(clickable: bool, highlighted: bool)

  /** The table body: one placeholder row, or one row per row-model row. */
  datatype Body = Placeholder(colSpan: nat, text: string) | Rows(count: nat)

  const EmptyText := "데이터가 없습니다."

  function BodyOf(p: Props): Body
  {
    if p.dataLength > 0 then Rows(p.modelRows) else Placeholder(|p.columns|, EmptyText)
  }

  /** A page button: its label, whether it is disabled, the page it asks for. */
  datatype PageButton = PageButton(caption: string, disabled: bool, target: int)

  datatype Pagination = Pagination(page: int, pageCount: int, buttons: seq<PageButton>)

  datatype View = View(filter: Option<bool>, headers: seq<Header>, body: Body, pagination: Option<Pagination>)

  function PaginationOf(p: Props): Pagination
    requires PageSize(p) > 0
  {
    var page, count := CurrentPage(p), PageCount(TotalCount(p), PageSize(p));
    Pagination(page, count, [
      PageButton("처음", page == 1, 1),
      PageButton("이전", page == 1, page - 1),
      PageButton("다음", page == count, page + 1),
      PageButton("마지막", page == count, count)
    ])
  }

  /** What the component renders. `filter` is the input's `disabled` flag. */
  function Render(p: Props): View
    requires PageSize(p) > 0
  {
    View(if p.showGlobalFilter.GetOr(true) then Some(p.isLoading.GetOr(false)) else None,
         seq(|p.columns|, i requires 0 <= i < |p.columns| =>
           Header(p.columns[i].sortable, SortOf(Sorting(p), p.columns[i].id) != Unsorted)),
         BodyOf(p),
         if p.showPagination.GetOr(true) then Some(PaginationOf(p)) else None)
  }

  /** The page a click on a button reports: none when the button is disabled
      (it takes no click) or when there is no `onPageChange`. */
  function Click(b: PageButton, hasPageHandler: bool): Option<int>
  {
    if !b.disabled && hasPageHandler then Some(b.target) else None
  }

  // ---------------------------------------------------------------------
  // Properties

  /** The page count is the least number of pages of `pageSize` rows that
      holds `totalCount` rows. */
  lemma PageCountIsCeiling(totalCount: int, pageSize: int)
    requires pageSize > 0
    ensures var n := PageCount(totalCount, pageSize);
      pageSize * (n - 1) < totalCount <= pageSize * n
  {
    var q := (-totalCount) / pageSize;
    var r := (-totalCount) % pageSize;
    assert -totalCount == pageSize * q + r && 0 <= r < pageSize;
  }

  lemma PageCountExact(k: int, pageSize: int)
    requires pageSize > 0
    ensures PageCount(k * pageSize, pageSize) == k
  {
    PageCountIsCeiling(k * pageSize, pageSize);
    var n := PageCount(k * pageSize, pageSize);
    FactorBelow(pageSize, n - 1, k);
    FactorBelow(pageSize, k - 1, n);
  }

  lemma FactorBelow(p: int, a: int, b: int)
    requires p > 0 && p * a < p * b
    ensures a < b
  {
    assert p * (b - a) > 0;
  }

  /** Omitted props take their defaults: page 1, no rows in total, pages of
      ten, no sorting, filter and pagination shown, not loading. */
  lemma Defaults(columns: seq<Column>, dataLength: nat, modelRows: nat, hasPageHandler: bool)
    ensures var p := Props(columns, dataLength, modelRows, None, hasPageHandler, None, None, None, None, None, None);
      CurrentPage(p) == 1 && TotalCount(p) == 0 && PageSize(p) == 10 && Sorting(p) == []
      && Render(p).filter == Some(false) && Render(p).pagination.Some?
  {
  }

  /** The buttons: first and previous are disabled exactly on page 1, next and
      last exactly on the last page; they ask for page 1, the page before, the
      page after, and the page count. */
  lemma ButtonRules(p: Props)
    requires PageSize(p) > 0
    ensures var page, count, b := CurrentPage(p), PageCount(TotalCount(p), PageSize(p)), PaginationOf(p).buttons;
      |b| == 4
      && (b[0].disabled <==> page == 1) && b[0].target == 1
      && (b[1].disabled <==> page == 1) && b[1].target == page - 1
      && (b[2].disabled <==> page == count) && b[2].target == page + 1
      && (b[3].disabled <==> page == count) && b[3].target == count
      && PaginationOf(p).page == page && PaginationOf(p).pageCount == count
  {
  }

  /** With no rows at all the page count is 0, so on page 1 next and last stay
      enabled, and last asks for page 0. */
  lemma EmptyTotalKeepsNextEnabled(p: Props)
    requires PageSize(p) > 0 && TotalCount(p) == 0 && CurrentPage(p) == 1 && p.hasPageHandler
    ensures var b := PaginationOf(p).buttons;
      Click(b[2], true) == Some(2) && Click(b[3], true) == Some(0)
      && Click(b[0], true).None? && Click(b[1], true).None?
  {
    assert PageCount(0, PageSize(p)) == 0;
  }

  /** Nothing is reported without `onPageChange`. */
  lemma NoHandlerNoClick(b: PageButton)
    ensures Click(b, false).None?
    ensures Click(b, true).Some? <==> !b.disabled
  {
  }

  /** Empty data gives exactly one placeholder row spanning every column;
      other data gives the row model's rows. */
  lemma BodyRule(p: Props)
    ensures p.dataLength == 0 ==> BodyOf(p) == Placeholder(|p.columns|, EmptyText)
    ensures p.dataLength > 0 ==> BodyOf(p) == Rows(p.modelRows)
  {
  }

  /** The filter is shown exactly when asked, and disabled exactly while
      loading; pagination is shown exactly when asked; a header takes a click
      exactly when its column can be sorted. */
  lemma Visibility(p: Props)
    requires PageSize(p) > 0
    ensures Render(p).filter.Some? <==> p.showGlobalFilter.GetOr(true)
    ensures Render(p).filter.Some? ==> (Render(p).filter.value <==> p.isLoading.GetOr(false))
    ensures Render(p).pagination.Some? <==> p.showPagination.GetOr(true)
    ensures |Render(p).headers| == |p.columns|
    ensures forall i :: 0 <= i < |p.columns| ==> (Render(p).headers[i].clickable <==> p.columns[i].sortable)
    ensures forall i :: 0 <= i < |p.columns| ==>
      (Render(p).headers[i].highlighted <==> exists k :: 0 <= k < |Sorting(p)| && Sorting(p)[k].id == p.columns[i].id)
  {
    forall i | 0 <= i < |p.columns| {
      SortOfFirst(Sorting(p), p.columns[i].id);
    }
  }

  /** A column's sort state is that of the first sorting entry with its id,
      and it is unsorted exactly when no entry names it. */
  lemma {:induction false} SortOfFirst(sorting: QueryParams.SortingState, id: string)
    ensures SortOf(sorting, id) == Unsorted <==> forall k :: 0 <= k < |sorting| ==> sorting[k].id != id
    ensures SortOf(sorting, id) != Unsorted ==>
      exists k :: 0 <= k < |sorting| && sorting[k].id == id
        && (SortOf(sorting, id) == Desc <==> sorting[k].desc)
        && (forall j :: 0 <= j < k ==> sorting[j].id != id)
  {
    if |sorting| > 0 && sorting[0].id != id {
      SortOfFirst(sorting[1..], id);
      assert forall k :: 1 <= k < |sorting| ==> sorting[k] == sorting[1..][k - 1];
      if SortOf(sorting, id) != Unsorted {
        var k :| 0 <= k < |sorting| - 1 && sorting[1..][k].id == id
          && (SortOf(sorting, id) == Desc <==> sorting[1..][k].desc)
          && forall j :: 0 <= j < k ==> sorting[1..][j].id != id;
        assert sorting[k + 1].id == id;
      }
    }
  }

  /** 45 rows in pages of 10, on page 2: five pages, and every button enabled. */
  lemma MiddlePage(p: Props)
    requires TotalCount(p) == 45 && PageSize(p) == 10 && CurrentPage(p) == 2
    ensures PaginationOf(p).pageCount == 5
    ensures forall i :: 0 <= i < 4 ==> !PaginationOf(p).buttons[i].disabled
    ensures [PaginationOf(p).buttons[1].target, PaginationOf(p).buttons[2].target] == [1, 3]
  {
    assert (-45) / 10 == -5;
  }
}
