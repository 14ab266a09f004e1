/** The list query string of `lib/utils.ts`: `buildQueryParams` writes page,
    size, sort and free-text filter as application/x-www-form-urlencoded text,
    and `getSearchParams` reads page, size, sort column and filter back from a
    request URL. */
module QueryParams {

  import opened Wrappers
  import opened Seqs
  import opened Js
  import opened UrlEncoded
  import Utf8

  /** One entry of a TanStack sorting state. */
  datatype ColumnSort = ColumnSort(id: string, desc: bool)

  type SortingState = seq<ColumnSort>

  /** The filter argument is truthy: given and not empty. */
  predicate HasFilter(filter: Option<string>)
  {
    filter.Some? && filter.value != ""
  }

  function Direction(s: ColumnSort): string
  {
    if s.desc then "desc" else "asc"
  }

  /** The pairs `buildQueryParams` appends, in the order it appends them. */
  function QueryPairs(page: int, limit: int, sorting: SortingState, filter: Option<string>): seq<Pair>
  {
    [("page", IntString(page)), ("size", IntString(limit))]
    + (if |sorting| > 0 then [("sort", sorting[0].id), ("order", Direction(sorting[0]))] else [])
    + (if HasFilter(filter) then [("q", filter.value)] else [])
  }

  /** `buildQueryParams(page, limit, sorting, filter)`. */
  method BuildQueryParams(page: int, limit: int, sorting: SortingState, filter: Option<string>)
    returns (query: string)
    ensures query == Serialize(QueryPairs(page, limit, sorting, filter))
    ensures '?' !in query && '#' !in query
  {
    var params := new SearchParams.Empty();
    params.Append("page", IntString(page));
    params.Append("size", IntString(limit));
    ghost var base := params.list;
    if |sorting| > 0 {
      params.Append("sort", sorting[0].id);
      params.Append("order", if sorting[0].desc then "desc" else "asc");
    }
    ghost var sorted := params.list;
    assert sorted == base + (if |sorting| > 0 then [("sort", sorting[0].id), ("order", Direction(sorting[0]))] else []);
    if filter.Some? && filter.value != "" {
      params.Append("q", filter.value);
    }
    assert params.list == sorted + (if HasFilter(filter) then [("q", filter.value)] else []);
    assert params.list == QueryPairs(page, limit, sorting, filter);
    query := params.ToString();
    SerializeNoQueryMark(params.list);
  }

  lemma SerializeNoQueryMark(list: seq<Pair>)
    ensures '?' !in Serialize(list) && '#' !in Serialize(list)
  {
    SerializeBytesSafe(list);
    var s := Serialize(list);
    assert forall i :: 0 <= i < |s| ==> s[i] as int == SerializeBytes(list)[i];
  }

  /** What `getSearchParams` returns. */
  datatype SearchParamsView = SearchParamsView(page: string, size: string, sorting: string, filter: string)

  /** `searchParams.get(name)?.toString() || ''`. */
  function FieldOrEmpty(list: seq<Pair>, name: string): string
  {
    match Lookup(list, name)
    case Some(v) => if v != "" then v else ""
    case None => ""
  }

  /** The query of a URL as `getSearchParams` sees it: the text between the
      first `?` and the next one, or none when the URL has no `?`. */
  function QueryOf(url: string): Option<string>
  {
    var pieces := Split(url, '?');
    if |pieces| > 1 then Some(pieces[1]) else None
  }

  /** `getSearchParams(request)`, for the request's URL. */
  function GetSearchParams(url: string): (r: SearchParamsView)
    ensures '?' !in url ==> r == SearchParamsView("", "", "", "")
  {
    var list := match QueryOf(url) case Some(q) => ParseInit(q) case None => [];
    assert '?' !in url ==> Split(url, '?') == [url] by {
      if '?' !in url {
        SplitPrefix(url, [], '?');
        assert url + [] == url;
      }
    }
    SearchParamsView(FieldOrEmpty(list, "page"), FieldOrEmpty(list, "size"),
                     FieldOrEmpty(list, "sort"), FieldOrEmpty(list, "q"))
  }

  // ---------------------------------------------------------------------
  // Properties of the built query

  /** The names of a pair list, in order. */
  function Names(list: seq<Pair>): seq<string>
  {
    seq(|list|, i requires 0 <= i < |list| => list[i].0)
  }

  /** The query always begins with `page` and then `size`; `sort` and `order`
      come next exactly when there is a sorting entry, taken from the first
      one; `q` comes last exactly when the filter is truthy; no name repeats. */
  lemma QueryPairsShape(page: int, limit: int, sorting: SortingState, filter: Option<string>)
    ensures var list := QueryPairs(page, limit, sorting, filter);
      && list[0] == ("page", IntString(page))
      && list[1] == ("size", IntString(limit))
      && Names(list) == ["page", "size"]
                        + (if |sorting| > 0 then ["sort", "order"] else [])
                        + (if HasFilter(filter) then ["q"] else [])
      && ("sort" in Names(list) <==> |sorting| > 0)
      && ("order" in Names(list) <==> |sorting| > 0)
      && (|sorting| > 0 ==> list[2] == ("sort", sorting[0].id)
                            && list[3].1 == (if sorting[0].desc then "desc" else "asc"))
      && ("q" in Names(list) <==> HasFilter(filter))
      && (HasFilter(filter) ==> list[|list| - 1] == ("q", filter.value))
      && (forall i, j :: 0 <= i < j < |list| ==> list[i].0 != list[j].0)
  {
    var list := QueryPairs(page, limit, sorting, filter);
    var names := Names(list);
    var p, s := ("page", IntString(page)), ("size", IntString(limit));
    if |sorting| > 0 && HasFilter(filter) {
      assert list == [p, s, ("sort", sorting[0].id), ("order", Direction(sorting[0])), ("q", filter.value)];
      assert names == ["page", "size", "sort", "order", "q"];
    } else if |sorting| > 0 {
      assert list == [p, s, ("sort", sorting[0].id), ("order", Direction(sorting[0]))];
      assert names == ["page", "size", "sort", "order"];
    } else if HasFilter(filter) {
      assert list == [p, s, ("q", filter.value)];
      assert names == ["page", "size", "q"];
    } else {
      assert list == [p, s];
      assert names == ["page", "size"];
    }
  }

  /** Lookup in the built pairs, one name at a time. */
  lemma LookupQueryPairs(page: int, limit: int, sorting: SortingState, filter: Option<string>)
    ensures var list := QueryPairs(page, limit, sorting, filter);
      && Lookup(list, "page") == Some(IntString(page))
      && Lookup(list, "size") == Some(IntString(limit))
      && Lookup(list, "sort") == (if |sorting| > 0 then Some(sorting[0].id) else None)
      && Lookup(list, "q") == (if HasFilter(filter) then Some(filter.value) else None)
  {
    QueryPairsShape(page, limit, sorting, filter);
    var list := QueryPairs(page, limit, sorting, filter);
    assert list[1..][0] == list[1];
    if |sorting| > 0 {
      assert list[1..][1..][0] == list[2];
      if HasFilter(filter) {
        assert list[1..][1..][1..][1..][0] == list[4];
        assert list[1..][1..][1..][1..][1..] == [];
      } else {
        assert list[1..][1..][1..][1..] == [];
      }
    } else {
      if HasFilter(filter) {
        assert list[1..][1..][0] == list[2];
        assert list[1..][1..][1..] == [];
      } else {
        assert list[1..][1..] == [];
      }
    }
  }

  /** Round trip: reading back, from a URL whose base has no `?`, what
      `buildQueryParams` wrote gives the page and size as written, the first
      sort column's id (or `''`), and the filter (or `''`). */
  lemma GetSearchParamsBuilt(base: string, page: int, limit: int, sorting: SortingState, filter: Option<string>)
    requires '?' !in base
    ensures var query := Serialize(QueryPairs(page, limit, sorting, filter));
      GetSearchParams(base + "?" + query)
        == SearchParamsView(IntString(page), IntString(limit),
                            if |sorting| > 0 then sorting[0].id else "",
                            if HasFilter(filter) then filter.value else "")
  {
    var list := QueryPairs(page, limit, sorting, filter);
    var query := Serialize(list);
    SerializeNoQueryMark(list);
    SplitPrefix(query, [], '?');
    assert query + [] == query;
    SplitPrefix(base, ['?'] + query, '?');
    assert base + "?" + query == base + (['?'] + query);
    assert (['?'] + query)[1..] == query;
    assert QueryOf(base + "?" + query) == Some(query);
    ParseInitSerialize(list);
    LookupQueryPairs(page, limit, sorting, filter);
  }

  /** The sort direction does not survive the round trip: two queries that
      differ only in the first entry's direction read back the same. */
  lemma DirectionIsLost(base: string, page: int, limit: int, id: string, rest: SortingState, filter: Option<string>)
    requires '?' !in base
    ensures GetSearchParams(base + "?" + Serialize(QueryPairs(page, limit, [ColumnSort(id, true)] + rest, filter)))
         == GetSearchParams(base + "?" + Serialize(QueryPairs(page, limit, [ColumnSort(id, false)] + rest, filter)))
  {
    GetSearchParamsBuilt(base, page, limit, [ColumnSort(id, true)] + rest, filter);
    GetSearchParamsBuilt(base, page, limit, [ColumnSort(id, false)] + rest, filter);
  }
}
