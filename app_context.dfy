/**
 * The client's view-state store (`AppProvider`): the signed-in user, the book and review lists,
 * the current page string and the listing filters, with the operations every page calls.
 * React's `useState` slots are the fields of `AppState`; each setter call is an assignment.
 */
module AppContext {
  import opened Wrappers
  import opened Seqs
  import Text
  import Ratings

  datatype User = User(id: string, name: string, email: string, avatar: Option<string>)

  datatype Book = Book(
    id: string, title: string, author: string, description: string, genre: string, year: int,
    coverImage: string, createdBy: string, averageRating: real, reviewCount: int)

  datatype Review = Review(
    id: string, bookId: string, userId: string, userName: string, userAvatar: Option<string>,
    rating: int, text: string, createdAt: string)

  /** What `addBook` is given: a book without its id, owner and aggregates. */
  datatype BookDraft = BookDraft(
    title: string, author: string, description: string, genre: string, year: int, coverImage: string)

  /** `Partial<Book>`: each field either absent or a new value. */
  datatype BookPatch = BookPatch(
    id: Option<string>, title: Option<string>, author: Option<string>, description: Option<string>,
    genre: Option<string>, year: Option<int>, coverImage: Option<string>, createdBy: Option<string>,
    averageRating: Option<real>, reviewCount: Option<int>)

  /** What `addReview` keeps of its argument: the other fields are overwritten by the store. */
  datatype ReviewDraft = ReviewDraft(bookId: string, rating: int, text: string)

  const DefaultAvatar := "https://images.unsplash.com/photo-1507003211169-0a1dd7228f2d?w=100&h=100&fit=crop&crop=face"

  /** `{ ...book, ...patch }`. */
  function Merge(b: Book, p: BookPatch): Book {
    Book(p.id.GetOr(b.id), p.title.GetOr(b.title), p.author.GetOr(b.author),
         p.description.GetOr(b.description), p.genre.GetOr(b.genre), p.year.GetOr(b.year),
         p.coverImage.GetOr(b.coverImage), p.createdBy.GetOr(b.createdBy),
         p.averageRating.GetOr(b.averageRating), p.reviewCount.GetOr(b.reviewCount))
  }

  /** A patch that writes only the two aggregate fields. */
  function AggregatePatch(averageRating: real, reviewCount: int): BookPatch {
    BookPatch(None, None, None, None, None, None, None, None, Some(averageRating), Some(reviewCount))
  }

  /**
   * `books.map(book => book.id === id ? { ...book, ...patch } : book)`: same length and order,
   * the patch merged into exactly the books with that id.
   */
  function UpdateBooks(books: seq<Book>, id: string, patch: BookPatch): (r: seq<Book>)
    ensures |r| == |books|
    ensures forall i :: 0 <= i < |books| ==>
      r[i] == if books[i].id == id then Merge(books[i], patch) else books[i]
    ensures patch.id.None? ==> forall i :: 0 <= i < |books| ==> r[i].id == books[i].id
  {
    if books == [] then []
    else [if books[0].id == id then Merge(books[0], patch) else books[0]] + UpdateBooks(books[1..], id, patch)
  }

  function HasId(id: string): Book -> bool {
    (b: Book) => b.id == id
  }

  function LacksId(id: string): Book -> bool {
    (b: Book) => b.id != id
  }

  function ForBook(bookId: string): Review -> bool {
    (r: Review) => r.bookId == bookId
  }

  function NotForBook(bookId: string): Review -> bool {
    (r: Review) => r.bookId != bookId
  }

  /** `reviews.filter(r => r.bookId === bookId)`. */
  function ReviewsFor(reviews: seq<Review>, bookId: string): seq<Review> {
    Keep(reviews, ForBook(bookId))
  }

  function SumRatings(rs: seq<Review>): int {
    SumBy(rs, (r: Review) => r.rating)
  }

  /** `Math.round(average * 10) / 10` over a non-empty list of reviews. */
  function RoundedAverage(rs: seq<Review>): real
    requires rs != []
  {
    Ratings.FromTenths(Ratings.RoundHalfUpTenths(SumRatings(rs), |rs|))
  }

  /**
   * The aggregation invariant for one book: its `reviewCount` is the number of stored reviews
   * for it and, when there is at least one, its `averageRating` is their mean rounded to tenths.
   */
  predicate AggregateHolds(b: Book, reviews: seq<Review>) {
    var rs := ReviewsFor(reviews, b.id);
    b.reviewCount == |rs| && (rs != [] ==> b.averageRating == RoundedAverage(rs))
  }

  predicate AllAggregatesHold(books: seq<Book>, reviews: seq<Review>) {
    forall i :: 0 <= i < |books| ==> AggregateHolds(books[i], reviews)
  }

  /** `books.find(b => b.id === id)`: the first book with that id, if any. */
  function FindBook(books: seq<Book>, id: string): (r: Option<Book>)
    ensures r.None? <==> forall i :: 0 <= i < |books| ==> books[i].id != id
    ensures r.Some? ==> r.value.id == id && exists i :: 0 <= i < |books| && books[i] == r.value && forall j :: 0 <= j < i ==> books[j].id != id
  {
    if books == [] then None
    else if books[0].id == id then Some(books[0])
    else
      var r := FindBook(books[1..], id);
      assert forall i :: 0 <= i < |books| - 1 ==> books[1..][i] == books[i + 1];
      r
  }

  /** The mock login's display name: `email.split('@')[0]`. */
  function NameFromEmail(email: string): string {
    Text.BeforeFirst(email, '@')
  }

  function NewBook(draft: BookDraft, ownerId: string, id: string): Book {
    Book(id, draft.title, draft.author, draft.description, draft.genre, draft.year,
         draft.coverImage, ownerId, 0.0, 0)
  }

  function NewReview(draft: ReviewDraft, author: User, id: string, createdAt: string): Review {
    Review(id, draft.bookId, author.id, author.name, author.avatar, draft.rating, draft.text, createdAt)
  }

  /**
   * The book list after `addReview` of `nr` over the reviews stored `before`: `nr`'s book gets
   * the count and the rounded mean of its earlier reviews followed by `nr`.
   */
  function ReviewedBooks(books: seq<Book>, before: seq<Review>, nr: Review): (r: seq<Book>)
    ensures |r| == |books|
    ensures forall i :: 0 <= i < |books| && books[i].id != nr.bookId ==> r[i] == books[i]
    ensures forall i :: 0 <= i < |books| && books[i].id == nr.bookId ==>
      r[i] == books[i].(averageRating := RoundedAverage(ReviewsFor(before, nr.bookId) + [nr]),
                        reviewCount := |ReviewsFor(before, nr.bookId)| + 1)
  {
    var rs := ReviewsFor(before, nr.bookId) + [nr];
    UpdateBooks(books, nr.bookId, AggregatePatch(RoundedAverage(rs), |rs|))
  }

  // ----- what each operation does to the lists, and the aggregation invariant -----

  /**
   * After `addReview` the book's reviews are the new one followed by the ones stored before:
   * their count is one more than the number stored before (whatever the old `reviewCount` said)
   * and the list averaged by the source (old ones, then the new one) has the same count and sum.
   */
  lemma AddReviewCounts(before: seq<Review>, nr: Review)
    ensures ReviewsFor([nr] + before, nr.bookId) == [nr] + ReviewsFor(before, nr.bookId)
    ensures |ReviewsFor([nr] + before, nr.bookId)| == |ReviewsFor(before, nr.bookId)| + 1
    ensures SumRatings(ReviewsFor(before, nr.bookId) + [nr]) == SumRatings(ReviewsFor([nr] + before, nr.bookId))
  {
    var earlier := ReviewsFor(before, nr.bookId);
    assert ([nr] + before)[1..] == before;
    SumByConcat(earlier, [nr], (r: Review) => r.rating);
    SumByConcat([nr], earlier, (r: Review) => r.rating);
  }

  /** Reviews of another book leave a book's own review list as it was. */
  lemma ReviewsForOther(before: seq<Review>, nr: Review, id: string)
    requires nr.bookId != id
    ensures ReviewsFor([nr] + before, id) == ReviewsFor(before, id)
  {
    assert ([nr] + before)[1..] == before;
  }

  /**
   * `addReview` keeps the aggregation invariant of every book: the target gets the recomputed
   * aggregates, and the other books are neither touched nor affected.
   */
  lemma {:induction false} AddReviewKeepsAggregates(books: seq<Book>, before: seq<Review>, nr: Review)
    requires AllAggregatesHold(books, before)
    ensures AllAggregatesHold(
      UpdateBooks(books, nr.bookId,
        AggregatePatch(RoundedAverage(ReviewsFor(before, nr.bookId) + [nr]), |ReviewsFor(before, nr.bookId) + [nr]|)),
      [nr] + before)
  {
    var rs := ReviewsFor(before, nr.bookId) + [nr];
    var after := UpdateBooks(books, nr.bookId, AggregatePatch(RoundedAverage(rs), |rs|));
    AddReviewCounts(before, nr);
    forall i | 0 <= i < |after|
      ensures AggregateHolds(after[i], [nr] + before)
    {
      assert AggregateHolds(books[i], before);
      if books[i].id != nr.bookId {
        ReviewsForOther(before, nr, books[i].id);
      }
    }
  }

  /** The target book's aggregates after `addReview`, stated on their own. */
  lemma AddReviewTargetAggregate(books: seq<Book>, before: seq<Review>, nr: Review)
    ensures forall b ::
      (b in UpdateBooks(books, nr.bookId,
        AggregatePatch(RoundedAverage(ReviewsFor(before, nr.bookId) + [nr]), |ReviewsFor(before, nr.bookId) + [nr]|))
       && b.id == nr.bookId)
      ==> AggregateHolds(b, [nr] + before) && b.reviewCount == |ReviewsFor(before, nr.bookId)| + 1
  {
    AddReviewCounts(before, nr);
  }

  /** Removing one book's reviews leaves the review list of every other book as it was. */
  lemma DeleteKeepsOtherReviews(reviews: seq<Review>, id: string, other: string)
    requires other != id
    ensures ReviewsFor(Keep(reviews, NotForBook(id)), other) == ReviewsFor(reviews, other)
  {
    KeepBoth(reviews, NotForBook(id), ForBook(other), ForBook(other));
  }

  /** `deleteBook` keeps the aggregation invariant of the books that remain. */
  lemma DeleteKeepsAggregates(books: seq<Book>, reviews: seq<Review>, id: string)
    requires AllAggregatesHold(books, reviews)
    ensures AllAggregatesHold(Keep(books, LacksId(id)), Keep(reviews, NotForBook(id)))
  {
    var kept := Keep(books, LacksId(id));
    forall i | 0 <= i < |kept|
      ensures AggregateHolds(kept[i], Keep(reviews, NotForBook(id)))
    {
      assert kept[i] in books;
      var k :| 0 <= k < |books| && books[k] == kept[i];
      DeleteKeepsOtherReviews(reviews, id, kept[i].id);
    }
  }

  /** A new book (count 0, rating 0) satisfies the invariant when no stored review refers to its id. */
  lemma AddBookKeepsAggregates(books: seq<Book>, reviews: seq<Review>, nb: Book)
    requires AllAggregatesHold(books, reviews)
    requires nb.reviewCount == 0 && ReviewsFor(reviews, nb.id) == []
    ensures AllAggregatesHold([nb] + books, reviews)
  {
    assert forall i :: 1 <= i < |books| + 1 ==> ([nb] + books)[i] == books[i - 1];
  }

  /** The store's state slots and the operations the provider exposes. */
  class AppState {
    var user: Option<User>
    var books: seq<Book>
    var reviews: seq<Review>
    var currentPage: string
    var searchQuery: string
    var selectedGenre: string
    var sortBy: string

    /** The provider's initial state, given the seeded book and review lists. */
    constructor (initialBooks: seq<Book>, initialReviews: seq<Review>)
      ensures user == None && books == initialBooks && reviews == initialReviews
      ensures currentPage == "home" && searchQuery == "" && selectedGenre == "All" && sortBy == "title"
    {
      user := None;
      books := initialBooks;
      reviews := initialReviews;
      currentPage := "home";
      searchQuery := "";
      selectedGenre := "All";
      sortBy := "title";
    }

    method SetCurrentPage(page: string)
      modifies this`currentPage
      ensures currentPage == page
    {
      currentPage := page;
    }

    method SetSearchQuery(query: string)
      modifies this`searchQuery
      ensures searchQuery == query
    {
      searchQuery := query;
    }

    method SetSelectedGenre(genre: string)
      modifies this`selectedGenre
      ensures selectedGenre == genre
    {
      selectedGenre := genre;
    }

    method SetSortBy(sort: string)
      modifies this`sortBy
      ensures sortBy == sort
    {
      sortBy := sort;
    }

    /** The mock login: succeeds exactly when both fields are non-empty, as user '1' named after the email. */
    method Login(email: string, password: string) returns (ok: bool)
      modifies this`user, this`currentPage
      ensures ok <==> email != "" && password != ""
      ensures ok ==> user == Some(User("1", NameFromEmail(email), email, Some(DefaultAvatar))) && currentPage == "home"
      ensures !ok ==> user == old(user) && currentPage == old(currentPage)
    {
      if email != "" && password != "" {
        user := Some(User("1", NameFromEmail(email), email, Some(DefaultAvatar)));
        currentPage := "home";
        return true;
      }
      return false;
    }

    /** Signing out clears the user and the search, shows all genres and goes home; the sort key and the lists stay. */
    method Logout()
      modifies this`user, this`currentPage, this`searchQuery, this`selectedGenre
      ensures user == None && currentPage == "home" && searchQuery == "" && selectedGenre == "All"
    {
      user := None;
      currentPage := "home";
      searchQuery := "";
      selectedGenre := "All";
    }

    /** The mock signup: succeeds exactly when all three fields are non-empty; `newId` stands for `Date.now()`. */
    method Signup(name: string, email: string, password: string, newId: string) returns (ok: bool)
      modifies this`user, this`currentPage
      ensures ok <==> name != "" && email != "" && password != ""
      ensures ok ==> user == Some(User(newId, name, email, Some(DefaultAvatar))) && currentPage == "home"
      ensures !ok ==> user == old(user) && currentPage == old(currentPage)
    {
      if name != "" && email != "" && password != "" {
        user := Some(User(newId, name, email, Some(DefaultAvatar)));
        currentPage := "home";
        return true;
      }
      return false;
    }

    /**
     * Without a user nothing happens; otherwise the new book, owned by the user and with no
     * ratings yet, goes to the front of the list and the page becomes 'home'.
     */
    method AddBook(draft: BookDraft, newId: string)
      modifies this`books, this`currentPage
      ensures user.None? ==> books == old(books) && currentPage == old(currentPage)
      ensures user.Some? ==> books == [NewBook(draft, user.value.id, newId)] + old(books) && currentPage == "home"
      ensures old(AllAggregatesHold(books, reviews)) && ReviewsFor(reviews, newId) == [] ==> AllAggregatesHold(books, reviews)
    {
      if user.None? {
        return;
      }
      var nb := NewBook(draft, user.value.id, newId);
      if AllAggregatesHold(books, reviews) && ReviewsFor(reviews, newId) == [] {
        AddBookKeepsAggregates(books, reviews, nb);
      }
      books := [nb] + books;
      currentPage := "home";
    }

    /** Merges `patch` into every book with that id; the others, the order and the length stay. */
    method UpdateBook(id: string, patch: BookPatch)
      modifies this`books
      ensures books == UpdateBooks(old(books), id, patch)
    {
      books := UpdateBooks(books, id, patch);
    }

    /**
     * When the user confirms (`window.confirm`), drops the books with that id and the reviews for
     * that book; when not, nothing changes.
     */
    method DeleteBook(id: string, confirmed: bool)
      modifies this`books, this`reviews
      ensures confirmed ==> books == Keep(old(books), LacksId(id)) && reviews == Keep(old(reviews), NotForBook(id))
      ensures !confirmed ==> books == old(books) && reviews == old(reviews)
      ensures old(AllAggregatesHold(books, reviews)) ==> AllAggregatesHold(books, reviews)
    {
      if confirmed {
        if AllAggregatesHold(books, reviews) {
          DeleteKeepsAggregates(books, reviews, id);
        }
        books := Keep(books, LacksId(id));
        reviews := Keep(reviews, NotForBook(id));
      }
    }

    /**
     * Without a user nothing happens. Otherwise the review, signed with the user's id, name and
     * avatar, goes to the front of the list, and the book's aggregates are recomputed from the
     * reviews stored before plus the new one. `newId` and `createdAt` stand for the clock.
     */
    method AddReview(draft: ReviewDraft, newId: string, createdAt: string)
      modifies this`books, this`reviews
      ensures user.None? ==> books == old(books) && reviews == old(reviews)
      ensures user.Some? ==>
        var nr := NewReview(draft, user.value, newId, createdAt);
        var rs := ReviewsFor(old(reviews), draft.bookId) + [nr];
        reviews == [nr] + old(reviews)
        && books == UpdateBooks(old(books), draft.bookId, AggregatePatch(RoundedAverage(rs), |rs|))
      ensures user.Some? ==> forall b :: b in books && b.id == draft.bookId ==> AggregateHolds(b, reviews)
      ensures old(AllAggregatesHold(books, reviews)) ==> AllAggregatesHold(books, reviews)
    {
      if user.None? {
        return;
      }
      var nr := NewReview(draft, user.value, newId, createdAt);
      var before := reviews;
      reviews := [nr] + reviews;
      var bookReviews := ReviewsFor(before, draft.bookId) + [nr];
      AddReviewTargetAggregate(books, before, nr);
      if AllAggregatesHold(books, before) {
        AddReviewKeepsAggregates(books, before, nr);
      }
      UpdateBook(draft.bookId, AggregatePatch(RoundedAverage(bookReviews), |bookReviews|));
    }
  }
}
