/**
 * The navigation bar: the items it offers, which one is highlighted, and the two state
 * changes it makes itself (the page on a click, and the dark-mode flag).
 */
module Navigation {
  import opened Wrappers
  import opened Seqs
  import Router
  import opened AppContext

  datatype NavItem = NavItem(id: string, caption: string)

  const HomeItem := NavItem("home", "Home")
  const AddBookItem := NavItem("add-book", "Add Book")
  const ProfileItem := NavItem("profile", "Profile")
  const LoginItem := NavItem("login", "Login")

  function Ids(items: seq<NavItem>): (ids: seq<string>)
    ensures |ids| == |items| && forall i :: 0 <= i < |items| ==> ids[i] == items[i].id
  {
    if items == [] then [] else [items[0].id] + Ids(items[1..])
  }

  /** `navItems`: 'home', then 'add-book' and 'profile' for a signed-in user, or 'login' for a visitor. */
  function NavItems(user: Option<User>): seq<NavItem> {
    [HomeItem]
    + (if user.Some? then [AddBookItem] else [])
    + (if user.Some? then [ProfileItem] else [])
    + (if user.None? then [LoginItem] else [])
  }

  /** The item lists for the two cases, 'home' first in both, and no id offered twice. */
  lemma NavItemsShape(user: Option<User>)
    ensures NavItems(user)[0] == HomeItem
    ensures user.Some? ==> Ids(NavItems(user)) == ["home", "add-book", "profile"]
    ensures user.None? ==> Ids(NavItems(user)) == ["home", "login"]
    ensures NoDuplicates(Ids(NavItems(user)))
  {
  }

  /** Every item leads to a page the router recognises, and only the login item hides the bar. */
  lemma NavItemsRoute(user: Option<User>, i: int)
    requires 0 <= i < |NavItems(user)|
    ensures Router.Recognised(NavItems(user)[i].id)
    ensures Router.ShowsChrome(NavItems(user)[i].id) <==> NavItems(user)[i] != LoginItem
  {
    Router.ShowsChromeIffNotAuthPage(NavItems(user)[i].id);
  }

  /** `variant={currentPage === item.id ? "default" : "ghost"}`. */
  predicate Highlighted(item: NavItem, currentPage: string) {
    item.id == currentPage
  }

  /** Since the ids differ, at most one item is highlighted, whatever the current page. */
  lemma AtMostOneHighlighted(user: Option<User>, currentPage: string, i: int, j: int)
    requires 0 <= i < |NavItems(user)| && 0 <= j < |NavItems(user)|
    requires Highlighted(NavItems(user)[i], currentPage) && Highlighted(NavItems(user)[j], currentPage)
    ensures i == j
  {
    NavItemsShape(user);
    var ids := Ids(NavItems(user));
    assert ids[i] == ids[j];
  }

  class NavBar {
    var mobileMenuOpen: bool
    var isDarkMode: bool

    constructor ()
      ensures !mobileMenuOpen && !isDarkMode
    {
      mobileMenuOpen := false;
      isDarkMode := false;
    }

    /** `handleNavClick`: the store's page becomes the item's id and the mobile menu closes. */
    method HandleNavClick(store: AppState, pageId: string)
      modifies store`currentPage, this`mobileMenuOpen
      ensures store.currentPage == pageId && !mobileMenuOpen
    {
      store.SetCurrentPage(pageId);
      mobileMenuOpen := false;
    }

    /** `toggleDarkMode`: the flag flips, so two toggles restore it. */
    method ToggleDarkMode()
      modifies this`isDarkMode
      ensures isDarkMode == !old(isDarkMode)
    {
      isDarkMode := !isDarkMode;
    }
  }
}
