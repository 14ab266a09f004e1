/** The back-office sidebar menu: two levels only, open state kept for the
    top level alone, and second-level links never highlighted. */
module BoNavMain {

  import opened Wrappers
  import opened Seqs
  import NavMain

  /** A second-level link. */
  datatype SubItem = SubItem(title: string, url: string)

  /** A top-level item; `items` is absent for a plain link. */
  datatype Item = Item(title: string, url: string, items: Option<seq<SubItem>>)

  predicate HasChildren(item: Item)
  {
    item.items.Some? && |item.items.value| > 0
  }

  /** The top-level urls. */
  function TopUrls(items: seq<Item>): set<string>
  {
    if |items| == 0 then {} else TopUrls(items[..|items| - 1]) + {items[|items| - 1].url}
  }

  /** The initial open state: each top-level url maps to whether the path
      starts with it; second-level urls get no key. */
  method InitialOpenMenus(items: seq<Item>, pathname: string) returns (initial: NavMain.OpenMenus)
    ensures initial.Keys == TopUrls(items)
    ensures forall u :: u in initial ==> (initial[u] <==> StartsWith(pathname, u))
  {
    initial := map[];
    var i := 0;
    while i < |items|
      invariant 0 <= i <= |items|
      invariant initial.Keys == TopUrls(items[..i])
      invariant forall u :: u in initial ==> (initial[u] <==> StartsWith(pathname, u))
    {
      assert items[..i + 1][..i] == items[..i];
      initial := initial[items[i].url := StartsWith(pathname, items[i].url)];
      i := i + 1;
    }
    assert items[..i] == items;
  }

  /** An item with children is active for any path starting with its url; a
      leaf only for its own url. */
  predicate IsActive(item: Item, pathname: string)
  {
    if HasChildren(item) then StartsWith(pathname, item.url) else pathname == item.url
  }

  /** A rendered second-level link: its href and whether it is highlighted. */
  datatype SubView = SubView(href: string, highlighted: bool)

  datatype ItemView =
    | Menu(url: string, active: bool, open: bool, subs: seq<SubView>)
    | Link(url: string, active: bool)

  function ItemViewOf(item: Item, pathname: string, openMenus: NavMain.OpenMenus): ItemView
  {
    if HasChildren(item) then
      var subs := item.items.value;
      Menu(item.url, IsActive(item, pathname), NavMain.IsOpen(openMenus, item.url),
           seq(|subs|, k requires 0 <= k < |subs| => SubView(subs[k].url, false)))
    else Link(item.url, IsActive(item, pathname))
  }

  function Render(items: seq<Item>, pathname: string, openMenus: NavMain.OpenMenus): (r: seq<ItemView>)
    ensures |r| == |items|
    ensures forall i :: 0 <= i < |items| ==> r[i].url == items[i].url
  {
    seq(|items|, i requires 0 <= i < |items| => ItemViewOf(items[i], pathname, openMenus))
  }

  // ---------------------------------------------------------------------
  // Properties

  lemma {:induction false} TopUrlsMembers(items: seq<Item>, u: string)
    ensures u in TopUrls(items) <==> exists i :: 0 <= i < |items| && items[i].url == u
  {
    if |items| > 0 {
      var front := items[..|items| - 1];
      TopUrlsMembers(front, u);
      assert forall j :: 0 <= j < |front| ==> front[j] == items[j];
    }
  }

  /** A second-level url that no top-level item shares has no key, so its
      state reads as closed. */
  lemma SubUrlHasNoKey(items: seq<Item>, pathname: string, initial: NavMain.OpenMenus, u: string)
    requires initial.Keys == TopUrls(items)
    requires forall i :: 0 <= i < |items| ==> items[i].url != u
    ensures u !in initial && !NavMain.IsOpen(initial, u)
  {
    TopUrlsMembers(items, u);
  }

  /** Right after the first render a menu is open exactly when the path
      starts with its url, and one toggle inverts that. */
  lemma OpenAfterToggle(items: seq<Item>, pathname: string, initial: NavMain.OpenMenus, i: int)
    requires initial.Keys == TopUrls(items)
    requires forall u :: u in initial ==> (initial[u] <==> StartsWith(pathname, u))
    requires 0 <= i < |items|
    ensures NavMain.IsOpen(initial, items[i].url) <==> StartsWith(pathname, items[i].url)
    ensures NavMain.IsOpen(NavMain.Toggle(initial, items[i].url), items[i].url) <==> !StartsWith(pathname, items[i].url)
  {
    TopUrlsMembers(items, items[i].url);
  }

  /** The same active rule as the main menu, read through the matching item. */
  lemma ActiveLikeMain(item: Item, pathname: string)
    ensures IsActive(item, pathname) == NavMain.IsActive(AsNavItem(item), pathname)
  {
  }

  function AsNavItem(item: Item): NavMain.NavItem
  {
    NavMain.NavItem(item.title, item.url,
      if item.items.None? then None
      else Some(seq(|item.items.value|, k requires 0 <= k < |item.items.value| =>
        NavMain.NavItem(item.items.value[k].title, item.items.value[k].url, None))))
  }

  /** Second-level links are never highlighted, even on their own page. */
  lemma SubLinksNeverActive(items: seq<Item>, pathname: string, openMenus: NavMain.OpenMenus, i: int, k: int)
    requires 0 <= i < |items| && HasChildren(items[i]) && 0 <= k < |items[i].items.value|
    ensures var v := Render(items, pathname, openMenus)[i];
      v.Menu? && |v.subs| == |items[i].items.value|
      && v.subs[k] == SubView(items[i].items.value[k].url, false)
  {
  }

  /** Each entry: a collapsible exactly when the item has children,
      highlighted by the active rule, and open exactly when its key is true. */
  lemma RenderRules(items: seq<Item>, pathname: string, openMenus: NavMain.OpenMenus, i: int)
    requires 0 <= i < |items|
    ensures var v := Render(items, pathname, openMenus)[i];
      (v.Menu? <==> HasChildren(items[i]))
      && v.active == IsActive(items[i], pathname)
      && (v.Menu? ==> v.open == NavMain.IsOpen(openMenus, items[i].url))
  {
  }
}
