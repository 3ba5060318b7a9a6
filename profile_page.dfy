/**
 * The profile page: the signed-in user's books and reviews, the three counters in its header,
 * the title lookup of the review list, and its delete button.
 */
module ProfilePage {
  import opened Wrappers
  import opened Seqs
  import Ratings
  import opened AppContext

  function ByOwner(userId: string): Book -> bool {
    (b: Book) => b.createdBy == userId
  }

  function ByAuthor(userId: string): Review -> bool {
    (r: Review) => r.userId == userId
  }

  /** `books.filter(book => book.createdBy === user.id)`. */
  function UserBooks(books: seq<Book>, userId: string): (r: seq<Book>)
    ensures forall b :: b in r <==> b in books && b.createdBy == userId
  {
    Keep(books, ByOwner(userId))
  }

  /** `reviews.filter(review => review.userId === user.id)`. */
  function UserReviews(reviews: seq<Review>, userId: string): (r: seq<Review>)
    ensures forall x :: x in r <==> x in reviews && x.userId == userId
  {
    Keep(reviews, ByAuthor(userId))
  }

  /** The two lists keep the store's order: a list's two parts give the two parts of the result. */
  lemma UserListsInOrder(b1: seq<Book>, b2: seq<Book>, r1: seq<Review>, r2: seq<Review>, userId: string)
    ensures UserBooks(b1 + b2, userId) == UserBooks(b1, userId) + UserBooks(b2, userId)
    ensures UserReviews(r1 + r2, userId) == UserReviews(r1, userId) + UserReviews(r2, userId)
  {
    KeepConcat(b1, b2, ByOwner(userId));
    KeepConcat(r1, r2, ByAuthor(userId));
  }

  /** The "Avg Rating Given" value: 0 without reviews, otherwise the exact mean of their ratings. */
  function AverageRatingGiven(userReviews: seq<Review>): real {
    if userReviews == [] then 0.0 else Ratings.Mean(SumRatings(userReviews), |userReviews|)
  }

  /** The same value as `toFixed(1)` shows it, in tenths ('0.0' is 0). */
  function AverageRatingGivenTenths(userReviews: seq<Review>): int {
    if userReviews == [] then 0 else Ratings.RoundHalfAwayTenths(SumRatings(userReviews), |userReviews|)
  }

  /**
   * Ratings of one to five stars give an average of one to five stars, rounding included; the
   * average times the number of reviews is their total.
   */
  lemma AverageRatingGivenBounds(userReviews: seq<Review>)
    requires userReviews != []
    requires forall i :: 0 <= i < |userReviews| ==> 1 <= userReviews[i].rating <= 5
    ensures 1.0 <= AverageRatingGiven(userReviews) <= 5.0
    ensures 10 <= AverageRatingGivenTenths(userReviews) <= 50
    ensures AverageRatingGiven(userReviews) * (|userReviews| as real) == SumRatings(userReviews) as real
  {
    var s := SumRatings(userReviews);
    var n := |userReviews|;
    SumByBounds(userReviews, (r: Review) => r.rating, 1, 5);
    Ratings.TenthsWithinBounds(s, n, 1, 5);
  }

  /** `getBookTitleById`: the title of the first book with that id, or 'Unknown Book'. */
  function BookTitleById(books: seq<Book>, bookId: string): (title: string)
    ensures (forall i :: 0 <= i < |books| ==> books[i].id != bookId) ==> title == "Unknown Book"
    ensures forall i ::
      (0 <= i < |books| && books[i].id == bookId && forall j :: 0 <= j < i ==> books[j].id != bookId)
      ==> title == books[i].title
  {
    var b := FindBook(books, bookId);
    if b.Some? then b.value.title else "Unknown Book"
  }

  /** What the page shows: the login prompt, or the user's lists with the header's counters. */
  datatype View =
    | LoginPrompt
    | Profile(userBooks: seq<Book>, userReviews: seq<Review>, booksAdded: nat, reviewsWritten: nat, averageTenths: int)

  function ProfileView(user: Option<User>, books: seq<Book>, reviews: seq<Review>): (v: View)
    ensures v.LoginPrompt? <==> user.None?
    ensures v.Profile? ==>
      v.userBooks == UserBooks(books, user.value.id) && v.userReviews == UserReviews(reviews, user.value.id)
      && v.booksAdded == |v.userBooks| && v.reviewsWritten == |v.userReviews|
      && v.averageTenths == AverageRatingGivenTenths(v.userReviews)
  {
    if user.None? then LoginPrompt
    else
      var ub := UserBooks(books, user.value.id);
      var ur := UserReviews(reviews, user.value.id);
      Profile(ub, ur, |ub|, |ur|, AverageRatingGivenTenths(ur))
  }

  /**
   * `handleDeleteBook`: the page asks (`confirmedHere`) and the store's `deleteBook` asks again
   * (`confirmedInStore`); the book and its reviews go only when both are accepted.
   */
  method HandleDeleteBook(store: AppState, bookId: string, confirmedHere: bool, confirmedInStore: bool)
    modifies store`books, store`reviews
    ensures confirmedHere && confirmedInStore ==>
      store.books == Keep(old(store.books), LacksId(bookId)) && store.reviews == Keep(old(store.reviews), NotForBook(bookId))
    ensures !(confirmedHere && confirmedInStore) ==> store.books == old(store.books) && store.reviews == old(store.reviews)
    ensures old(AllAggregatesHold(store.books, store.reviews)) ==> AllAggregatesHold(store.books, store.reviews)
  {
    if confirmedHere {
      store.DeleteBook(bookId, confirmedInStore);
    }
  }
}
