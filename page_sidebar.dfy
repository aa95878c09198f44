/** The workspace sidebar: the id of the open page read off the path, the
    Favorites and All Pages lists, and which link is highlighted. */
module PageSidebar {
  import opened Wrappers
  import opened Seqs
  import opened Strings

  /** A listed page as the sidebar reads it. */
  datatype SidebarPage = SidebarPage(id: string, title: string, isFavorite: bool)

  /** `pathname.split("/").pop()`: the text after the last "/", or the whole path
      when it has none. */
  function CurrentDocId(pathname: string): (r: string)
    ensures '/' !in r
    ensures |r| <= |pathname| && r == pathname[|pathname| - |r|..]
    ensures |r| == |pathname| || pathname[|pathname| - |r| - 1] == '/'
    decreases |pathname|
  {
    if pathname == [] || pathname[|pathname| - 1] == '/' then ""
    else CurrentDocId(pathname[..|pathname| - 1]) + [pathname[|pathname| - 1]]
  }

  /** A path ending in "/" opens no page id: the last segment is empty. */
  lemma TrailingSlashGivesEmpty(pathname: string)
    requires pathname != [] && pathname[|pathname| - 1] == '/'
    ensures CurrentDocId(pathname) == ""
  {
  }

  /** The segment after a "/" is the page id whenever it holds no further "/". */
  lemma LastSegment(prefix: string, id: string)
    requires '/' !in id
    ensures CurrentDocId(prefix + "/" + id) == id
  {
    var p := prefix + "/" + id;
    var r := CurrentDocId(p);
    assert p[|prefix|] == '/';
    assert |r| == |id|;
    assert p[|p| - |id|..] == id;
  }

  /** Following a page's link, `/workspace/<id>`, gives back that id. */
  lemma LinkGivesId(id: string)
    requires '/' !in id
    ensures CurrentDocId("/workspace/" + id) == id
  {
    assert "/workspace" + "/" == "/workspace/";
    LastSegment("/workspace", id);
  }

  /** `pages.filter(page => page.isFavorite)`: the favourites in list order. */
  function Favorites(pages: seq<SidebarPage>): (r: seq<SidebarPage>)
    ensures forall i :: 0 <= i < |r| ==> r[i].isFavorite && r[i] in pages
    ensures forall i :: 0 <= i < |pages| && pages[i].isFavorite ==> pages[i] in r
  {
    Filter(pages, (p: SidebarPage) => p.isFavorite)
  }

  /** The favourites keep list order: those of a concatenation are the favourites of
      its first part followed by those of its second. */
  lemma FavoritesConcat(a: seq<SidebarPage>, b: seq<SidebarPage>)
    ensures Favorites(a + b) == Favorites(a) + Favorites(b)
  {
    FilterConcat(a, b, (p: SidebarPage) => p.isFavorite);
  }

  /** A link is highlighted when the path's last segment is its page's id. */
  predicate Highlighted(pathname: string, page: SidebarPage): (r: bool)
    ensures r ==> '/' !in page.id
    ensures r ==> |page.id| <= |pathname| && pathname[|pathname| - |page.id|..] == page.id
  {
    CurrentDocId(pathname) == page.id
  }

  /** With distinct page ids, at most one link of a list is highlighted. */
  lemma AtMostOneHighlighted(pathname: string, pages: seq<SidebarPage>, i: nat, j: nat)
    requires forall a, b :: 0 <= a < b < |pages| ==> pages[a].id != pages[b].id
    requires i < |pages| && j < |pages|
    requires Highlighted(pathname, pages[i]) && Highlighted(pathname, pages[j])
    ensures i == j
  {
  }

  /** A page whose id holds a "/" is never highlighted. */
  lemma SlashIdNeverHighlighted(pathname: string, page: SidebarPage)
    requires '/' in page.id
    ensures !Highlighted(pathname, page)
  {
  }

  /** `createPage({ title: "Untitled", userId })` as `handleNewPage` issues it, or
      nothing without a signed-in user. */
  datatype NewPageRequest = NewPageRequest(title: string, userId: string)

  function HandleNewPage(user: Option<string>): (r: Option<NewPageRequest>)
    ensures r.None? <==> user.None?
    ensures r.Some? ==> r.value.title == "Untitled" && r.value.userId == user.value
  {
    match user
    case None => None
    case Some(id) => Some(NewPageRequest("Untitled", id))
  }
}
