/**
 * The page-string router of `AppContent`: `currentPage` is a plain string, and `renderPage`
 * chooses what to show by exact match or by the `edit-book-` / `book-details-` prefixes.
 */
module Router {
  import Text

  /** What `renderPage` shows, with the id it hands to the form or the details page. */
  datatype Page = Home | Login | Signup | AddBook | EditBook(bookId: string) | BookDetails(bookId: string) | Profile

  const EditPrefix := "edit-book-"
  const DetailsPrefix := "book-details-"

  /**
   * `renderPage`: the cases are tried in the source's order, the prefix is removed with
   * `replace` (its first occurrence), and any other string shows the home page.
   */
  function RenderPage(currentPage: string): Page {
    if currentPage == "home" then Home
    else if currentPage == "login" then Login
    else if currentPage == "signup" then Signup
    else if currentPage == "add-book" then AddBook
    else if EditPrefix <= currentPage then EditBook(Text.ReplaceFirst(currentPage, EditPrefix, ""))
    else if DetailsPrefix <= currentPage then BookDetails(Text.ReplaceFirst(currentPage, DetailsPrefix, ""))
    else if currentPage == "profile" then Profile
    else Home
  }

  /** The string each page is reached by: how the other components build `currentPage`. */
  function PageString(p: Page): string {
    match p
    case Home => "home"
    case Login => "login"
    case Signup => "signup"
    case AddBook => "add-book"
    case EditBook(id) => EditPrefix + id
    case BookDetails(id) => DetailsPrefix + id
    case Profile => "profile"
  }

  /** `book-details-${id}`, as the home page and the card build it. */
  function DetailsPath(bookId: string): (s: string)
    ensures RenderPage(s) == BookDetails(bookId)
  {
    PrefixRoundTrip(DetailsPrefix, bookId);
    assert !(EditPrefix <= DetailsPrefix + bookId) by {
      assert (DetailsPrefix + bookId)[0] == 'b';
    }
    DetailsPrefix + bookId
  }

  /** `edit-book-${id}`, as the details page builds it for the owner. */
  function EditPath(bookId: string): (s: string)
    ensures RenderPage(s) == EditBook(bookId)
  {
    PrefixRoundTrip(EditPrefix, bookId);
    EditPrefix + bookId
  }

  lemma PrefixRoundTrip(prefix: string, id: string)
    ensures prefix <= prefix + id
    ensures Text.ReplaceFirst(prefix + id, prefix, "") == id
  {
    Text.ReplacePrefix(prefix + id, prefix);
    assert (prefix + id)[|prefix|..] == id;
  }

  /** Every page is reached again from the string that names it. */
  lemma RenderPageString(p: Page)
    ensures RenderPage(PageString(p)) == p
  {
    match p
    case EditBook(id) => assert PageString(p) == EditPath(id);
    case BookDetails(id) => assert PageString(p) == DetailsPath(id);
    case _ =>
  }

  /** The strings `renderPage` recognises, as opposed to the ones that fall back to home. */
  predicate Recognised(s: string) {
    s in ["home", "login", "signup", "add-book", "profile"] || EditPrefix <= s || DetailsPrefix <= s
  }

  /**
   * A recognised string is the very string of the page it selects; any other string shows home.
   */
  lemma StringRenderPage(s: string)
    ensures Recognised(s) ==> PageString(RenderPage(s)) == s
    ensures !Recognised(s) ==> RenderPage(s) == Home
  {
    if EditPrefix <= s && s !in ["home", "login", "signup", "add-book"] {
      Text.ReplacePrefix(s, EditPrefix);
      assert EditPrefix + s[|EditPrefix|..] == s;
    } else if DetailsPrefix <= s && s !in ["home", "login", "signup", "add-book"] {
      Text.ReplacePrefix(s, DetailsPrefix);
      assert DetailsPrefix + s[|DetailsPrefix|..] == s;
    }
  }

  /** `!['login', 'signup'].includes(currentPage)`: navigation and footer are shown. */
  predicate ShowsChrome(currentPage: string) {
    currentPage !in ["login", "signup"]
  }

  /** The chrome is hidden exactly on the two authentication pages. */
  lemma ShowsChromeIffNotAuthPage(s: string)
    ensures ShowsChrome(s) <==> RenderPage(s) != Login && RenderPage(s) != Signup
  {
  }
}
