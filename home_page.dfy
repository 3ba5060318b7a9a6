/**
 * The home page's listing pipeline: the genre options, the search and genre filters, the sort by
 * the selected key, and the grid of six books a page with its previous / next controls.
 */
module HomePage {
  import opened Seqs
  import Text
  import Paging
  import opened AppContext

  const BooksPerPage := 6

  // ----- genre options -----

  function GenresOf(books: seq<Book>): (gs: seq<string>)
    ensures |gs| == |books| && forall i :: 0 <= i < |books| ==> gs[i] == books[i].genre
  {
    seq(|books|, i requires 0 <= i < |books| => books[i].genre)
  }

  /** `['All', ...Array.from(new Set(books.map(b => b.genre)))]`. */
  function Genres(books: seq<Book>): seq<string> {
    ["All"] + Distinct(GenresOf(books))
  }

  /**
   * The options start with 'All'; after it every genre of a book appears exactly once, nothing
   * else appears, and the genres come in the order in which the books first show them.
   */
  lemma GenresShape(books: seq<Book>)
    ensures Genres(books)[0] == "All"
    ensures forall g :: g in Genres(books)[1..] <==> exists b :: b in books && b.genre == g
    ensures NoDuplicates(Genres(books)[1..])
    ensures forall i, j :: 1 <= i < j < |Genres(books)| ==>
      FirstIndex(GenresOf(books), Genres(books)[i]) < FirstIndex(GenresOf(books), Genres(books)[j])
  {
    var gs := GenresOf(books);
    assert Genres(books)[1..] == Distinct(gs);
    DistinctFirstAppearanceOrder(gs);
    forall g ensures g in gs <==> exists b :: b in books && b.genre == g {
      if g in gs {
        var i :| 0 <= i < |gs| && gs[i] == g;
        assert books[i] in books;
      }
    }
  }

  // ----- filters -----

  /** The search test: title or author contains the query, compared in lower case. */
  predicate MatchesQuery(b: Book, query: string) {
    Text.Contains(Text.Lower(b.title), Text.Lower(query)) || Text.Contains(Text.Lower(b.author), Text.Lower(query))
  }

  function QueryFilter(query: string): Book -> bool {
    (b: Book) => MatchesQuery(b, query)
  }

  function GenreFilter(genre: string): Book -> bool {
    (b: Book) => b.genre == genre
  }

  predicate QueryActive(query: string) {
    query != ""
  }

  predicate GenreActive(genre: string) {
    genre != "" && genre != "All"
  }

  /** Both tests together, each one only when its control is set. */
  predicate Wanted(b: Book, query: string, genre: string) {
    (QueryActive(query) ==> MatchesQuery(b, query)) && (GenreActive(genre) ==> b.genre == genre)
  }

  function WantedFilter(query: string, genre: string): Book -> bool {
    (b: Book) => Wanted(b, query, genre)
  }

  /** The two `filter` steps of `filteredAndSortedBooks`. */
  function Filtered(books: seq<Book>, query: string, genre: string): seq<Book> {
    var byQuery := if QueryActive(query) then Keep(books, QueryFilter(query)) else books;
    if GenreActive(genre) then Keep(byQuery, GenreFilter(genre)) else byQuery
  }

  /** The two filter steps keep exactly the wanted books, in their original order. */
  lemma FilteredIsWanted(books: seq<Book>, query: string, genre: string)
    ensures Filtered(books, query, genre) == Keep(books, WantedFilter(query, genre))
  {
    if QueryActive(query) && GenreActive(genre) {
      KeepBoth(books, QueryFilter(query), GenreFilter(genre), WantedFilter(query, genre));
    } else if QueryActive(query) {
      KeepBoth(books, QueryFilter(query), WantedFilter(query, genre), WantedFilter(query, genre));
      KeepAll(Keep(books, QueryFilter(query)), WantedFilter(query, genre));
    } else if GenreActive(genre) {
      KeepBoth(books, GenreFilter(genre), GenreFilter(genre), GenreFilter(genre));
      KeepBoth(books, GenreFilter(genre), GenreFilter(genre), WantedFilter(query, genre));
    } else {
      KeepAll(books, WantedFilter(query, genre));
    }
  }

  // ----- sort -----

  /**
   * `compare(a, b) <= 0` for the selected key: 'a' may stand before 'b'. Titles and authors
   * ascend, years and ratings descend, and any other key compares every pair as equal.
   */
  predicate InOrder(sortBy: string, a: Book, b: Book) {
    if sortBy == "title" then Text.LexLe(a.title, b.title)
    else if sortBy == "author" then Text.LexLe(a.author, b.author)
    else if sortBy == "year" then a.year >= b.year
    else if sortBy == "rating" then a.averageRating >= b.averageRating
    else true
  }

  lemma InOrderTotal(sortBy: string, a: Book, b: Book)
    ensures InOrder(sortBy, a, b) || InOrder(sortBy, b, a)
  {
    if sortBy == "title" {
      Text.LexLeTotal(a.title, b.title);
    } else if sortBy == "author" {
      Text.LexLeTotal(a.author, b.author);
    }
  }

  lemma InOrderTransitive(sortBy: string, a: Book, b: Book, c: Book)
    requires InOrder(sortBy, a, b) && InOrder(sortBy, b, c)
    ensures InOrder(sortBy, a, c)
  {
    if sortBy == "title" {
      Text.LexLeTransitive(a.title, b.title, c.title);
    } else if sortBy == "author" {
      Text.LexLeTransitive(a.author, b.author, c.author);
    }
  }

  predicate SortedBy(sortBy: string, s: seq<Book>) {
    forall i, j :: 0 <= i < j < |s| ==> InOrder(sortBy, s[i], s[j])
  }

  /** Puts `x` before the first book it may precede: ahead of its equals, so earlier books stay earlier. */
  function Insert(sortBy: string, x: Book, s: seq<Book>): seq<Book> {
    if s == [] then [x]
    else if InOrder(sortBy, x, s[0]) then [x] + s
    else [s[0]] + Insert(sortBy, x, s[1..])
  }

  /** A stable sort, as `Array.prototype.sort` is. */
  function Sort(sortBy: string, s: seq<Book>): seq<Book> {
    if s == [] then [] else Insert(sortBy, s[0], Sort(sortBy, s[1..]))
  }

  lemma {:induction false} InsertPermutes(sortBy: string, x: Book, s: seq<Book>)
    ensures multiset(Insert(sortBy, x, s)) == multiset(s) + multiset{x}
  {
    if s != [] && !InOrder(sortBy, x, s[0]) {
      InsertPermutes(sortBy, x, s[1..]);
      assert s == [s[0]] + s[1..];
    }
  }

  lemma {:induction false} InsertSorted(sortBy: string, x: Book, s: seq<Book>)
    requires SortedBy(sortBy, s)
    ensures SortedBy(sortBy, Insert(sortBy, x, s))
  {
    if s == [] {
    } else if InOrder(sortBy, x, s[0]) {
      var r := [x] + s;
      forall i, j | 0 <= i < j < |r| ensures InOrder(sortBy, r[i], r[j]) {
        if i == 0 && j > 1 {
          InOrderTransitive(sortBy, x, s[0], s[j - 1]);
        }
      }
    } else {
      InOrderTotal(sortBy, x, s[0]);
      var t := Insert(sortBy, x, s[1..]);
      InsertSorted(sortBy, x, s[1..]);
      InsertPermutes(sortBy, x, s[1..]);
      var r := [s[0]] + t;
      forall i, j | 0 <= i < j < |r| ensures InOrder(sortBy, r[i], r[j]) {
        if i == 0 {
          assert r[j] in multiset(t);
          if r[j] != x {
            assert r[j] in s[1..];
            var k :| 0 <= k < |s[1..]| && s[1..][k] == r[j];
            assert InOrder(sortBy, s[0], s[k + 1]);
          }
        }
      }
    }
  }

  /** The sort returns the same books, each as often as before, in the key's order. */
  lemma {:induction false} SortCorrect(sortBy: string, s: seq<Book>)
    ensures SortedBy(sortBy, Sort(sortBy, s))
    ensures multiset(Sort(sortBy, s)) == multiset(s)
  {
    if s != [] {
      SortCorrect(sortBy, s[1..]);
      InsertSorted(sortBy, s[0], Sort(sortBy, s[1..]));
      InsertPermutes(sortBy, s[0], Sort(sortBy, s[1..]));
      assert s == [s[0]] + s[1..];
    }
  }

  /** With a key the comparator does not know, every pair compares equal and the order is kept. */
  lemma {:induction false} SortUnknownKeyKeepsOrder(sortBy: string, s: seq<Book>)
    requires sortBy !in ["title", "author", "year", "rating"]
    ensures Sort(sortBy, s) == s
  {
    if s != [] {
      SortUnknownKeyKeepsOrder(sortBy, s[1..]);
      assert s == [s[0]] + s[1..];
    }
  }

  /** `filteredAndSortedBooks`. */
  function FilteredAndSorted(books: seq<Book>, query: string, genre: string, sortBy: string): seq<Book> {
    Sort(sortBy, Filtered(books, query, genre))
  }

  /** The listing holds exactly the wanted books, each as often as in the store, in the order of the selected key. */
  lemma ListingCorrect(books: seq<Book>, query: string, genre: string, sortBy: string)
    ensures multiset(FilteredAndSorted(books, query, genre, sortBy)) == multiset(Keep(books, WantedFilter(query, genre)))
    ensures forall b :: b in FilteredAndSorted(books, query, genre, sortBy) <==> b in books && Wanted(b, query, genre)
    ensures SortedBy(sortBy, FilteredAndSorted(books, query, genre, sortBy))
  {
    FilteredIsWanted(books, query, genre);
    SortCorrect(sortBy, Filtered(books, query, genre));
    var r := FilteredAndSorted(books, query, genre, sortBy);
    forall b ensures b in r <==> b in Keep(books, WantedFilter(query, genre)) {
      assert b in r <==> b in multiset(r);
    }
  }

  /** The search filter, read as `includes`: the lower-cased title or author has the lower-cased query in it. */
  lemma MatchesQueryMeans(b: Book, query: string)
    ensures MatchesQuery(b, query) <==>
      Text.Occurs(Text.Lower(b.title), Text.Lower(query)) || Text.Occurs(Text.Lower(b.author), Text.Lower(query))
  {
    Text.ContainsIffOccurs(Text.Lower(b.title), Text.Lower(query));
    Text.ContainsIffOccurs(Text.Lower(b.author), Text.Lower(query));
  }

  // ----- pagination -----

  /** `Math.ceil(filtered.length / booksPerPage)`. */
  function TotalPages(listing: seq<Book>): nat {
    Paging.PageCount(|listing|, BooksPerPage)
  }

  /** `filtered.slice(startIndex, startIndex + booksPerPage)` with `startIndex = (page - 1) * 6`. */
  function PaginatedBooks(listing: seq<Book>, page: nat): seq<Book>
    requires page >= 1
  {
    Paging.PageOf(listing, page, BooksPerPage)
  }

  /**
   * A page shows at most six books, the ones from position (page - 1) * 6 on; the pages
   * 1..TotalPages are non-empty and laid end to end give back the listing.
   */
  lemma PaginationCorrect(listing: seq<Book>, page: nat)
    requires page >= 1
    ensures |PaginatedBooks(listing, page)| <= BooksPerPage
    ensures forall i :: 0 <= i < |PaginatedBooks(listing, page)| ==>
      PaginatedBooks(listing, page)[i] == listing[(page - 1) * BooksPerPage + i]
    ensures page <= TotalPages(listing) ==> PaginatedBooks(listing, page) != []
    ensures page > TotalPages(listing) ==> PaginatedBooks(listing, page) == []
    ensures Paging.Flatten(Paging.Pages(listing, BooksPerPage)) == listing
    ensures |Paging.Pages(listing, BooksPerPage)| == TotalPages(listing)
  {
    Paging.PagesPartition(listing, BooksPerPage);
    if page > TotalPages(listing) {
      Paging.PageBeyondLastIsEmpty(listing, page, BooksPerPage);
    }
  }

  /** The grid's page number (`currentBookPage`) and its controls. */
  class BookPager {
    var currentBookPage: int

    constructor ()
      ensures currentBookPage == 1
    {
      currentBookPage := 1;
    }

    /** The previous control: one page back unless on the first page. */
    method Previous()
      modifies this
      ensures currentBookPage == if old(currentBookPage) > 1 then old(currentBookPage) - 1 else old(currentBookPage)
      ensures old(1 <= currentBookPage) ==> 1 <= currentBookPage <= old(currentBookPage)
    {
      if currentBookPage > 1 {
        currentBookPage := currentBookPage - 1;
      }
    }

    /** The next control: one page on unless on the last page. */
    method Next(totalPages: int)
      modifies this
      ensures currentBookPage == if old(currentBookPage) < totalPages then old(currentBookPage) + 1 else old(currentBookPage)
      ensures old(1 <= currentBookPage <= totalPages) ==> 1 <= currentBookPage <= totalPages
    {
      if currentBookPage < totalPages {
        currentBookPage := currentBookPage + 1;
      }
    }

    /** A numbered link: the links are 1..totalPages, so the page stays in range. */
    method GoToPage(page: int, totalPages: int)
      requires 1 <= page <= totalPages
      modifies this
      ensures currentBookPage == page && 1 <= currentBookPage <= totalPages
    {
      currentBookPage := page;
    }
  }

  /**
   * `filteredAndSortedBooks` as it runs: when neither filter is active `filtered` is the store's
   * own array, and `sort` reorders that array in place.
   */
  method ComputeListing(store: AppState) returns (listing: seq<Book>)
    modifies store`books
    ensures listing == FilteredAndSorted(old(store.books), store.searchQuery, store.selectedGenre, store.sortBy)
    ensures store.books == if !QueryActive(store.searchQuery) && !GenreActive(store.selectedGenre) then listing else old(store.books)
    ensures multiset(store.books) == multiset(old(store.books))
  {
    listing := FilteredAndSorted(store.books, store.searchQuery, store.selectedGenre, store.sortBy);
    SortCorrect(store.sortBy, Filtered(store.books, store.searchQuery, store.selectedGenre));
    if !QueryActive(store.searchQuery) && !GenreActive(store.selectedGenre) {
      store.books := listing;
    }
  }
}
