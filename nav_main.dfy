/** The sidebar menu `NavMain`: which menus start open, how a menu is
    toggled, and which item is shown as active for the current path. */
module NavMain {

  import opened Wrappers
  import opened Seqs

  /** A menu item; `items` is absent for a plain link. */
  datatype NavItem = NavItem(title: string, url: string, items: Option<seq<NavItem>>)

  /** The open state of the collapsible menus, keyed by url. */
  type OpenMenus = map<string, bool>

  /** `item.items ?? []`: what `item.items?.forEach` visits. */
  function Children(item: NavItem): seq<NavItem>
  {
    item.items.GetOr([])
  }

  /** `item.items?.length` is truthy. */
  predicate HasChildren(item: NavItem)
  {
    |Children(item)| > 0
  }

  /** The urls of a list of items. */
  function Urls(items: seq<NavItem>): set<string>
  {
    if |items| == 0 then {} else Urls(items[..|items| - 1]) + {items[|items| - 1].url}
  }

  /** The urls of the top-level items and of their children. */
  function MenuUrls(items: seq<NavItem>): set<string>
  {
    if |items| == 0 then {}
    else
      var last := items[|items| - 1];
      MenuUrls(items[..|items| - 1]) + {last.url} + Urls(Children(last))
  }

  /** The initial open state: every top-level and second-level url maps to
      whether the path starts with it. */
  method InitialOpenMenus(items: seq<NavItem>, pathname: string) returns (initial: OpenMenus)
    ensures initial.Keys == MenuUrls(items)
    ensures forall u :: u in initial ==> (initial[u] <==> StartsWith(pathname, u))
  {
    initial := map[];
    var i := 0;
    while i < |items|
      invariant 0 <= i <= |items|
      invariant initial.Keys == MenuUrls(items[..i])
      invariant forall u :: u in initial ==> (initial[u] <==> StartsWith(pathname, u))
    {
      var menu := items[i];
      assert items[..i + 1][..i] == items[..i];
      initial := initial[menu.url := StartsWith(pathname, menu.url)];
      var subs := Children(menu);
      var j := 0;
      while j < |subs|
        invariant 0 <= j <= |subs|
        invariant initial.Keys == MenuUrls(items[..i]) + {menu.url} + Urls(subs[..j])
        invariant forall u :: u in initial ==> (initial[u] <==> StartsWith(pathname, u))
      {
        assert subs[..j + 1][..j] == subs[..j];
        initial := initial[subs[j].url := StartsWith(pathname, subs[j].url)];
        j := j + 1;
      }
      assert subs[..j] == subs;
      i := i + 1;
    }
    assert items[..i] == items;
  }

  /** `toggleMenu(href)`: `{ ...prev, [href]: !prev[href] }`, where a missing
      key reads as `undefined`, which negates to `true`. */
  function Toggle(prev: OpenMenus, href: string): (next: OpenMenus)
    ensures next.Keys == prev.Keys + {href}
    ensures next[href] == !(href in prev && prev[href])
    ensures forall k :: k in prev && k != href ==> next[k] == prev[k]
  {
    prev[href := !(href in prev && prev[href])]
  }

  /** `openMenus[url]`, with `undefined` read as closed. */
  predicate IsOpen(openMenus: OpenMenus, url: string)
  {
    url in openMenus && openMenus[url]
  }

  /** An item with children is active when the path starts with its url; any
      other item only when the path is its url. */
  predicate IsActive(item: NavItem, pathname: string)
  {
    if HasChildren(item) then StartsWith(pathname, item.url) else pathname == item.url
  }

  /** What a second-level entry renders: a collapsible (with its open state
      and the hrefs of its third-level links) or a plain link. */
  datatype SubView = SubMenu(url: string, open: bool, links: seq<string>) | SubLink(url: string)

  /** What a top-level entry renders: its highlight, and either a collapsible
      with its open state and second-level entries, or a plain link. */
  datatype ItemView =
    | Menu(url: string, active: bool, open: bool, subs: seq<SubView>)
    | Link(url: string, active: bool)

  function SubViewOf(sub: NavItem, openMenus: OpenMenus): SubView
  {
    if HasChildren(sub) then
      var third := Children(sub);
      SubMenu(sub.url, IsOpen(openMenus, sub.url), seq(|third|, k requires 0 <= k < |third| => third[k].url))
    else SubLink(sub.url)
  }

  function ItemViewOf(item: NavItem, pathname: string, openMenus: OpenMenus): ItemView
  {
    if HasChildren(item) then
      var subs := Children(item);
      Menu(item.url, IsActive(item, pathname), IsOpen(openMenus, item.url),
           seq(|subs|, k requires 0 <= k < |subs| => SubViewOf(subs[k], openMenus)))
    else Link(item.url, IsActive(item, pathname))
  }

  /** The whole menu, one entry per top-level item. */
  function Render(items: seq<NavItem>, pathname: string, openMenus: OpenMenus): (r: seq<ItemView>)
    ensures |r| == |items|
    ensures forall i :: 0 <= i < |items| ==> r[i].url == items[i].url
  {
    seq(|items|, i requires 0 <= i < |items| => ItemViewOf(items[i], pathname, openMenus))
  }

  // ---------------------------------------------------------------------
  // Properties

  /** A url belongs to a list's urls exactly when some item has it. */
  lemma {:induction false} UrlsMembers(items: seq<NavItem>, u: string)
    ensures u in Urls(items) <==> exists j :: 0 <= j < |items| && items[j].url == u
  {
    if |items| > 0 {
      var front := items[..|items| - 1];
      UrlsMembers(front, u);
      assert forall j :: 0 <= j < |front| ==> front[j] == items[j];
    }
  }

  /** The keys of the initial state are the urls of the top-level items and
      of their children; third-level urls are not among them unless they
      also appear higher up. */
  lemma {:induction false} MenuUrlsMembers(items: seq<NavItem>, u: string)
    ensures u in MenuUrls(items) <==>
      exists i :: 0 <= i < |items| && (items[i].url == u || u in Urls(Children(items[i])))
  {
    if |items| > 0 {
      var front := items[..|items| - 1];
      MenuUrlsMembers(front, u);
      assert forall j :: 0 <= j < |front| ==> front[j] == items[j];
    }
  }

  /** Every second-level item starts with a key, open exactly when the path
      starts with its url. */
  lemma SecondLevelKey(items: seq<NavItem>, pathname: string, initial: OpenMenus, i: int, j: int)
    requires initial.Keys == MenuUrls(items)
    requires forall u :: u in initial ==> (initial[u] <==> StartsWith(pathname, u))
    requires 0 <= i < |items| && 0 <= j < |Children(items[i])|
    ensures IsOpen(initial, Children(items[i])[j].url) <==> StartsWith(pathname, Children(items[i])[j].url)
  {
    var u := Children(items[i])[j].url;
    UrlsMembers(Children(items[i]), u);
    MenuUrlsMembers(items, u);
  }

  /** A menu whose url is empty always starts open. */
  lemma EmptyUrlStartsOpen(items: seq<NavItem>, pathname: string, initial: OpenMenus)
    requires "" in MenuUrls(items) && initial.Keys == MenuUrls(items)
    requires forall u :: u in initial ==> (initial[u] <==> StartsWith(pathname, u))
    ensures IsOpen(initial, "")
  {
  }

  /** Toggling changes only the toggled key's open state, and flips it. */
  lemma ToggleFlipsOne(prev: OpenMenus, href: string, url: string)
    ensures IsOpen(Toggle(prev, href), url) <==> (if url == href then !IsOpen(prev, url) else IsOpen(prev, url))
  {
  }

  /** Toggling a key that is missing opens it. */
  lemma ToggleMissing(prev: OpenMenus, href: string)
    requires href !in prev
    ensures Toggle(prev, href) == prev[href := true]
  {
  }

  /** Toggling a present key twice gives back the original state. */
  lemma ToggleTwice(prev: OpenMenus, href: string)
    requires href in prev
    ensures Toggle(Toggle(prev, href), href) == prev
  {
  }

  /** Toggling a missing key twice leaves it present and closed. */
  lemma ToggleMissingTwice(prev: OpenMenus, href: string)
    requires href !in prev
    ensures Toggle(Toggle(prev, href), href) == prev[href := false]
  {
  }

  /** The active rule: a parent with children is active for every path below
      its url, a leaf (also one with an empty list) only for its own url. */
  lemma ActiveRule(item: NavItem, pathname: string)
    ensures HasChildren(item) ==> (IsActive(item, pathname) <==> StartsWith(pathname, item.url))
    ensures !HasChildren(item) ==> (IsActive(item, pathname) <==> pathname == item.url)
    ensures item.items == Some([]) ==> (IsActive(item, pathname) <==> pathname == item.url)
  {
  }

  /** A leaf is active only for its own url, never for a path below it. */
  lemma LeafNotActiveBelow(item: NavItem, rest: string)
    requires !HasChildren(item) && |rest| > 0
    ensures !IsActive(item, item.url + rest)
  {
    assert |item.url + rest| != |item.url|;
  }

  /** A parent is active for every path below its url. */
  lemma ParentActiveBelow(item: NavItem, rest: string)
    requires HasChildren(item)
    ensures IsActive(item, item.url + rest)
  {
    assert (item.url + rest)[..|item.url|] == item.url;
  }

  /** Each rendered entry: a collapsible exactly when the item has children,
      highlighted by the active rule, open exactly when its key is true, and
      each second-level entry collapsible exactly when it has children. */
  lemma RenderRules(items: seq<NavItem>, pathname: string, openMenus: OpenMenus, i: int)
    requires 0 <= i < |items|
    ensures var v := Render(items, pathname, openMenus)[i];
      (v.Menu? <==> HasChildren(items[i]))
      && v.active == IsActive(items[i], pathname)
      && (v.Menu? ==>
            v.open == IsOpen(openMenus, items[i].url)
            && |v.subs| == |Children(items[i])|
            && (forall k :: 0 <= k < |v.subs| ==>
                  v.subs[k].url == Children(items[i])[k].url
                  && (v.subs[k].SubMenu? <==> HasChildren(Children(items[i])[k]))
                  && (v.subs[k].SubMenu? ==> v.subs[k].open == IsOpen(openMenus, Children(items[i])[k].url))))
  {
  }

  /** Right after the first render, a top-level menu is open exactly when the
      path starts with its url, and one toggle inverts that. */
  lemma OpenAfterToggle(items: seq<NavItem>, pathname: string, initial: OpenMenus, i: int)
    requires initial.Keys == MenuUrls(items)
    requires forall u :: u in initial ==> (initial[u] <==> StartsWith(pathname, u))
    requires 0 <= i < |items|
    ensures IsOpen(initial, items[i].url) <==> StartsWith(pathname, items[i].url)
    ensures IsOpen(Toggle(initial, items[i].url), items[i].url) <==> !StartsWith(pathname, items[i].url)
  {
    MenuUrlsMembers(items, items[i].url);
  }
}
