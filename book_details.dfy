/**
 * The book details page: the book's reviews, the rating distribution, the star strips, the
 * owner's controls, the fetch fallback to the store, and the review form with its submit guards.
 */
module BookDetails {
  import opened Wrappers
  import opened Seqs
  import Text
  import Router
  import opened AppContext
  import BookController
  import ReviewController

  /** `reviews.filter(r => r.bookId === bookId)`: this page's reviews, in store order. */
  function BookReviews(reviews: seq<Review>, bookId: string): (r: seq<Review>)
    ensures forall x :: x in r <==> x in reviews && x.bookId == bookId
  {
    ReviewsFor(reviews, bookId)
  }

  /** A review of this book appears as often as in the store, and any other review not at all. */
  lemma BookReviewsCounts(reviews: seq<Review>, bookId: string, x: Review)
    ensures multiset(BookReviews(reviews, bookId))[x] == if x.bookId == bookId then multiset(reviews)[x] else 0
  {
    KeepMultiset(reviews, ForBook(bookId), x);
  }

  /** Filtering keeps the original order: the reviews of a list's two parts stay in their parts. */
  lemma BookReviewsInOrder(a: seq<Review>, b: seq<Review>, bookId: string)
    ensures BookReviews(a + b, bookId) == BookReviews(a, bookId) + BookReviews(b, bookId)
  {
    KeepConcat(a, b, ForBook(bookId));
  }

  // ----- the page's book -----

  /**
   * What `setBook` stores. A successful fetch stores the server's `getBookById` answer as it
   * comes: a document with `_id` and no `id`. The fallback stores a book of the store.
   */
  datatype PageBook = Fetched(answer: BookController.BookWithReviews) | FromStore(book: Book)

  /** `book.id`: a store book's id, and `undefined` (`None`) for a fetched answer. */
  function PageBookId(pb: PageBook): (id: Option<string>)
    ensures id.Some? <==> pb.FromStore?
  {
    if pb.FromStore? then Some(pb.book.id) else None
  }

  /** `book.createdBy`, present in both shapes. */
  function CreatedBy(pb: PageBook): string {
    if pb.FromStore? then pb.book.createdBy else pb.answer.book.createdBy
  }

  /** `book.id` inside a template string: the id, or the text "undefined". */
  function IdText(id: Option<string>): string {
    if id.Some? then id.value else "undefined"
  }

  /** `user?.id === book.createdBy`: the owner's controls are shown only for this. */
  predicate IsOwner(user: Option<User>, book: PageBook) {
    user.Some? && user.value.id == CreatedBy(book)
  }

  // ----- rating distribution -----

  /** A counter of the distribution object: a number, or `NaN` once `undefined` has been incremented. */
  datatype Counter = Count(n: nat) | NaN

  type Distribution = map<int, Counter>

  /** `{ 5: 0, 4: 0, 3: 0, 2: 0, 1: 0 }`. */
  const InitialDistribution: Distribution := map[5 := Count(0), 4 := Count(0), 3 := Count(0), 2 := Count(0), 1 := Count(0)]

  /** `distribution[rating]++`: a missing entry becomes `NaN`, and `NaN` stays `NaN`. */
  function Bump(d: Distribution, rating: int): Distribution {
    if rating in d && d[rating].Count? then d[rating := Count(d[rating].n + 1)] else d[rating := NaN]
  }

  /** The distribution after counting `rs` in order. */
  function DistributionOf(rs: seq<Review>): Distribution {
    if rs == [] then InitialDistribution else Bump(DistributionOf(rs[..|rs| - 1]), rs[|rs| - 1].rating)
  }

  /** How many of `rs` carry rating `k`. */
  function RatingCount(rs: seq<Review>, k: int): nat {
    if rs == [] then 0 else RatingCount(rs[..|rs| - 1], k) + (if rs[|rs| - 1].rating == k then 1 else 0)
  }

  /** `getRatingDistribution`: the `forEach` over this page's reviews. */
  method RatingDistribution(bookReviews: seq<Review>) returns (d: Distribution)
    ensures d == DistributionOf(bookReviews)
  {
    d := InitialDistribution;
    var i := 0;
    while i < |bookReviews|
      invariant 0 <= i <= |bookReviews|
      invariant d == DistributionOf(bookReviews[..i])
    {
      assert bookReviews[..i + 1][..i] == bookReviews[..i];
      d := Bump(d, bookReviews[i].rating);
      i := i + 1;
    }
    assert bookReviews[..i] == bookReviews;
  }

  /**
   * Each of the five keys holds the number of reviews with that rating; any other key is
   * present exactly when some review carries that rating, and then holds `NaN`.
   */
  lemma {:induction false} DistributionCounts(rs: seq<Review>)
    ensures forall k :: 1 <= k <= 5 ==> k in DistributionOf(rs) && DistributionOf(rs)[k] == Count(RatingCount(rs, k))
    ensures forall k :: !(1 <= k <= 5) ==>
      (k in DistributionOf(rs) <==> exists i :: 0 <= i < |rs| && rs[i].rating == k)
      && (k in DistributionOf(rs) ==> DistributionOf(rs)[k] == NaN)
  {
    if rs != [] {
      var p := rs[..|rs| - 1];
      DistributionCounts(p);
      var d := DistributionOf(p);
      var last := rs[|rs| - 1].rating;
      assert DistributionOf(rs) == Bump(d, last);
      forall k | 1 <= k <= 5
        ensures k in DistributionOf(rs) && DistributionOf(rs)[k] == Count(RatingCount(rs, k))
      {
        assert RatingCount(rs, k) == RatingCount(p, k) + (if last == k then 1 else 0);
      }
      forall k | !(1 <= k <= 5)
        ensures (k in DistributionOf(rs) <==> exists i :: 0 <= i < |rs| && rs[i].rating == k)
      {
        if k in DistributionOf(p) {
          var i :| 0 <= i < |p| && p[i].rating == k;
          assert rs[i] == p[i];
        }
        if exists i :: 0 <= i < |rs| && rs[i].rating == k {
          var i :| 0 <= i < |rs| && rs[i].rating == k;
          if i < |p| {
            assert p[i] == rs[i];
          }
        }
      }
    }
  }

  /** When every rating is between 1 and 5, the five counters add up to the number of reviews. */
  lemma {:induction false} DistributionTotal(rs: seq<Review>)
    requires forall i :: 0 <= i < |rs| ==> 1 <= rs[i].rating <= 5
    ensures RatingCount(rs, 1) + RatingCount(rs, 2) + RatingCount(rs, 3) + RatingCount(rs, 4) + RatingCount(rs, 5) == |rs|
  {
    if rs != [] {
      var p := rs[..|rs| - 1];
      assert forall i :: 0 <= i < |p| ==> p[i] == rs[i];
      DistributionTotal(p);
    }
  }

  // ----- stars -----

  /** The details page's strip: star `i` is filled when `i < rating`. */
  function FilledStars(rating: real): (r: seq<bool>)
    ensures |r| == 5
  {
    seq(5, i requires 0 <= i < 5 => (i as real) < rating)
  }

  /** How many of the five stars are filled. */
  function FilledCount(stars: seq<bool>): nat {
    if stars == [] then 0 else (if stars[0] then 1 else 0) + FilledCount(stars[1..])
  }

  /** Filled stars come first: once a star is outlined, so are all after it. */
  lemma FilledStarsPrefix(rating: real, i: int, j: int)
    requires 0 <= i <= j < 5 && FilledStars(rating)[j]
    ensures FilledStars(rating)[i]
  {
  }

  /** A strip whose first `n` stars are the filled ones has `n` filled stars. */
  lemma {:induction false} FilledCountPrefix(stars: seq<bool>, n: int)
    requires 0 <= n <= |stars|
    requires forall i :: 0 <= i < |stars| ==> (stars[i] <==> i < n)
    ensures FilledCount(stars) == n
  {
    if stars != [] {
      FilledCountPrefix(stars[1..], if n > 0 then n - 1 else 0);
    }
  }

  /** A whole rating `n` in 0..5 fills exactly the first `n` stars. */
  lemma FilledStarsWhole(rating: real, n: int)
    requires 0 <= n <= 5 && rating == n as real
    ensures forall i :: 0 <= i < 5 ==> (FilledStars(rating)[i] <==> i < n)
    ensures FilledCount(FilledStars(rating)) == n
  {
    FilledCountPrefix(FilledStars(rating), n);
  }

  // ----- the page's state -----

  /** What the review form posts to `/reviews`; an `undefined` book is dropped from the JSON body. */
  datatype ReviewRequest = ReviewRequest(book: Option<string>, rating: int, comment: string)

  /** The body the server's `addReview` reads from a posted request. */
  function RequestBody(req: ReviewRequest): ReviewController.ReviewBody {
    ReviewController.ReviewBody(req.book, Some(req.rating), Some(req.comment))
  }

  /** What the page hands to the store's `addReview` after a created post. */
  function DraftOf(req: ReviewRequest): ReviewDraft
    requires req.book.Some?
  {
    ReviewDraft(req.book.value, req.rating, req.comment)
  }

  /** How the post ends: created, rejected with an HTTP status, or failed without a response. */
  datatype PostOutcome = Created | Rejected(status: int) | NoResponse

  /** The text shown on the page once loading is over. */
  datatype Shown = Loading | NotFound | Showing(book: PageBook)

  class DetailsView {
    const bookId: string
    var book: Option<PageBook>
    var isLoading: bool
    var rating: int
    var text: string
    var isSubmittingReview: bool

    constructor (bookId: string)
      ensures this.bookId == bookId && book == None && isLoading
      ensures rating == 5 && text == "" && !isSubmittingReview
    {
      this.bookId := bookId;
      book := None;
      isLoading := true;
      rating := 5;
      text := "";
      isSubmittingReview := false;
    }

    function Shows(): Shown
      reads this
    {
      if isLoading then Loading else if book.None? then NotFound else Showing(book.value)
    }

    /**
     * The fetch effect: a fetched answer is stored as it is, so the page's `book.id` is then
     * undefined; when the fetch fails the store's first book with this id is stored, and
     * without one the page keeps what it had (initially "Book not found").
     */
    method LoadBook(books: seq<Book>, fetched: Option<BookController.BookWithReviews>)
      modifies this`book, this`isLoading
      ensures !isLoading
      ensures fetched.Some? ==> book == Some(Fetched(fetched.value)) && PageBookId(book.value).None?
      ensures fetched.None? ==>
        book == if FindBook(books, bookId).Some? then Some(FromStore(FindBook(books, bookId).value)) else old(book)
      ensures fetched.None? && FindBook(books, bookId).Some? ==> PageBookId(book.value) == Some(bookId)
      ensures fetched.None? && old(book) == None ==>
        (Shows() == NotFound <==> forall i :: 0 <= i < |books| ==> books[i].id != bookId)
    {
      isLoading := true;
      if fetched.Some? {
        book := Some(Fetched(fetched.value));
      } else {
        var contextBook := FindBook(books, bookId);
        if contextBook.Some? {
          book := Some(FromStore(contextBook.value));
        }
      }
      isLoading := false;
    }

    /** A click on interactive star `i` (from 0) selects `i + 1` stars. */
    method ClickStar(i: int)
      requires 0 <= i < 5
      modifies this`rating
      ensures rating == i + 1 && 1 <= rating <= 5
      ensures FilledCount(FilledStars(rating as real)) == i + 1
    {
      rating := i + 1;
      FilledStarsWhole(rating as real, rating);
    }

    method SetText(t: string)
      modifies this`text
      ensures text == t
    {
      text := t;
    }

    /**
     * `handleSubmitReview`: an unauthenticated user is sent to the login page and nothing is
     * posted; otherwise the submit goes on as `SubmitText` says. `tokenStored` stands for a
     * 'token' entry in browser storage. A post without a book is refused by the server, so
     * `outcome` is never `Created` for it.
     */
    method SubmitReview(store: AppState, tokenStored: bool, outcome: PostOutcome, newId: string, createdAt: string)
      returns (posted: Option<ReviewRequest>)
      requires book.Some?
      requires PageBookId(book.value).None? ==> !outcome.Created?
      modifies this`rating, this`text, this`isSubmittingReview, store`currentPage, store`books, store`reviews
      ensures store.user.None? && !tokenStored ==>
        posted == None && store.currentPage == "login" && store.books == old(store.books) && store.reviews == old(store.reviews)
        && rating == old(rating) && text == old(text) && isSubmittingReview == old(isSubmittingReview)
      ensures (store.user.Some? || tokenStored) && Text.IsBlank(old(text)) ==>
        posted == None && isSubmittingReview == old(isSubmittingReview) && rating == old(rating) && text == old(text)
        && store.books == old(store.books) && store.reviews == old(store.reviews) && store.currentPage == old(store.currentPage)
      ensures (store.user.Some? || tokenStored) && !Text.IsBlank(old(text)) ==>
        posted == Some(ReviewRequest(PageBookId(book.value), old(rating), Text.Trim(old(text)))) && !isSubmittingReview
      ensures posted.Some? && posted.value.book.None? ==> ReviewController.MissingField(RequestBody(posted.value))
      ensures (store.user.Some? || tokenStored) && !Text.IsBlank(old(text)) && outcome.Created? ==>
        rating == 5 && text == "" && store.currentPage == old(store.currentPage)
        && (store.user.Some? ==>
          var nr := NewReview(ReviewDraft(PageBookId(book.value).value, old(rating), Text.Trim(old(text))), store.user.value, newId, createdAt);
          store.reviews == [nr] + old(store.reviews) && store.books == ReviewedBooks(old(store.books), old(store.reviews), nr))
        && (store.user.None? ==> store.reviews == old(store.reviews) && store.books == old(store.books))
      ensures (store.user.Some? || tokenStored) && !Text.IsBlank(old(text)) && !outcome.Created? ==>
        store.books == old(store.books) && store.reviews == old(store.reviews)
        && rating == old(rating) && text == old(text)
        && store.currentPage == if outcome == Rejected(401) then "login" else old(store.currentPage)
      ensures old(AllAggregatesHold(store.books, store.reviews)) ==> AllAggregatesHold(store.books, store.reviews)
    {
      if store.user.None? && !tokenStored {
        store.SetCurrentPage("login");
        return None;
      }
      posted := SubmitText(store, outcome, newId, createdAt);
    }

    /**
     * The authenticated part of the submit. Blank text: nothing happens. Otherwise the page's
     * `book.id` (possibly undefined), the rating and the trimmed text are posted and the submit
     * finishes as `FinishPost` says.
     */
    method SubmitText(store: AppState, outcome: PostOutcome, newId: string, createdAt: string)
      returns (posted: Option<ReviewRequest>)
      requires book.Some?
      requires PageBookId(book.value).None? ==> !outcome.Created?
      modifies this`rating, this`text, this`isSubmittingReview, store`currentPage, store`books, store`reviews
      ensures Text.IsBlank(old(text)) ==>
        posted == None && isSubmittingReview == old(isSubmittingReview) && rating == old(rating) && text == old(text)
        && store.books == old(store.books) && store.reviews == old(store.reviews) && store.currentPage == old(store.currentPage)
      ensures !Text.IsBlank(old(text)) ==>
        posted == Some(ReviewRequest(PageBookId(book.value), old(rating), Text.Trim(old(text)))) && !isSubmittingReview
      ensures posted.Some? && posted.value.book.None? ==> ReviewController.MissingField(RequestBody(posted.value))
      ensures !Text.IsBlank(old(text)) && outcome.Created? ==>
        rating == 5 && text == "" && store.currentPage == old(store.currentPage)
        && (store.user.Some? ==>
          var nr := NewReview(ReviewDraft(PageBookId(book.value).value, old(rating), Text.Trim(old(text))), store.user.value, newId, createdAt);
          store.reviews == [nr] + old(store.reviews) && store.books == ReviewedBooks(old(store.books), old(store.reviews), nr))
        && (store.user.None? ==> store.reviews == old(store.reviews) && store.books == old(store.books))
      ensures !Text.IsBlank(old(text)) && !outcome.Created? ==>
        store.books == old(store.books) && store.reviews == old(store.reviews)
        && rating == old(rating) && text == old(text)
        && store.currentPage == if outcome == Rejected(401) then "login" else old(store.currentPage)
      ensures old(AllAggregatesHold(store.books, store.reviews)) ==> AllAggregatesHold(store.books, store.reviews)
    {
      var blank := Text.BlankAfterTrim(text);
      if blank {
        return None;
      }
      var trimmed := Text.Trim(text);
      isSubmittingReview := true;
      var request := ReviewRequest(PageBookId(book.value), rating, trimmed);
      posted := Some(request);
      FinishPost(store, outcome, request, newId, createdAt);
    }

    /**
     * After the post: on success the review goes to the store, which recomputes its book's
     * aggregates, and the form is reset; on a 401 the page goes to login, and on any other
     * failure the page and the form stay. The submitting flag is cleared on every path.
     */
    method FinishPost(store: AppState, outcome: PostOutcome, request: ReviewRequest, newId: string, createdAt: string)
      requires request.book.None? ==> !outcome.Created?
      modifies this`rating, this`text, this`isSubmittingReview, store`currentPage, store`books, store`reviews
      ensures !isSubmittingReview
      ensures outcome.Created? ==>
        rating == 5 && text == "" && store.currentPage == old(store.currentPage)
        && (store.user.Some? ==>
          var nr := NewReview(DraftOf(request), store.user.value, newId, createdAt);
          store.reviews == [nr] + old(store.reviews) && store.books == ReviewedBooks(old(store.books), old(store.reviews), nr))
        && (store.user.None? ==> store.reviews == old(store.reviews) && store.books == old(store.books))
      ensures !outcome.Created? ==>
        store.books == old(store.books) && store.reviews == old(store.reviews)
        && rating == old(rating) && text == old(text)
        && store.currentPage == if outcome == Rejected(401) then "login" else old(store.currentPage)
      ensures old(AllAggregatesHold(store.books, store.reviews)) ==> AllAggregatesHold(store.books, store.reviews)
    {
      if outcome.Created? {
        store.AddReview(DraftOf(request), newId, createdAt);
        rating := 5;
        text := "";
      } else if outcome == Rejected(401) {
        store.SetCurrentPage("login");
      }
      isSubmittingReview := false;
    }

    /**
     * The owner's delete button: the page asks first (`confirmedHere`), then the store's
     * `deleteBook` asks again (`confirmedInStore`); once the first is accepted the page goes
     * home. The store removes the books and reviews under `book.id`; for a fetched answer that
     * id is undefined, which no book or review carries, so nothing is removed.
     */
    method HandleDeleteBook(store: AppState, confirmedHere: bool, confirmedInStore: bool)
      requires book.Some? && IsOwner(store.user, book.value)
      modifies store`books, store`reviews, store`currentPage
      ensures !confirmedHere ==> store.books == old(store.books) && store.reviews == old(store.reviews) && store.currentPage == old(store.currentPage)
      ensures confirmedHere ==> store.currentPage == "home"
      ensures confirmedHere && confirmedInStore && PageBookId(book.value).Some? ==>
        var id := PageBookId(book.value).value;
        store.books == Keep(old(store.books), LacksId(id)) && store.reviews == Keep(old(store.reviews), NotForBook(id))
      ensures confirmedHere && (!confirmedInStore || PageBookId(book.value).None?) ==>
        store.books == old(store.books) && store.reviews == old(store.reviews)
    {
      if confirmedHere {
        var id := PageBookId(book.value);
        if id.Some? {
          store.DeleteBook(id.value, confirmedInStore);
        }
        store.SetCurrentPage("home");
      }
    }

    /** The owner's edit button opens the form for `book.id`: for a fetched answer, for "undefined". */
    method EditTarget(user: Option<User>) returns (page: string)
      requires book.Some? && IsOwner(user, book.value)
      ensures Router.RenderPage(page) == Router.EditBook(IdText(PageBookId(book.value)))
      ensures book.value.FromStore? ==> Router.RenderPage(page) == Router.EditBook(book.value.book.id)
    {
      page := Router.EditPath(IdText(PageBookId(book.value)));
    }
  }
}
