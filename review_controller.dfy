/**
 * The review endpoint of the server: `addReview` checks the body, stores the review, and
 * writes the book's average rating (to one decimal) and review count back from every review
 * of that book.
 */
module ReviewController {
  import opened Wrappers
  import opened Seqs
  import Ratings
  import opened Database

  /** The fields `addReview` reads from the request body; a field left out is `None`. */
  datatype ReviewBody = ReviewBody(book: Option<string>, rating: Option<int>, comment: Option<string>)

  /** `!book || !rating || !comment`: a field is missing, or is '' or 0. */
  predicate MissingField(body: ReviewBody) {
    body.book.None? || body.book.value == ""
    || body.rating.None? || body.rating.value == 0
    || body.comment.None? || body.comment.value == ""
  }

  /** The update sent to the book: the rounded average in tenths and the number of reviews. */
  datatype AggregateWrite = AggregateWrite(averageTenths: int, reviewCount: nat)

  /** The aggregate of a book's reviews, `mean.toFixed(1)` read back as a number. */
  function AggregateOf(bookReviews: seq<StoredReview>): (w: AggregateWrite)
    requires bookReviews != []
    ensures w.reviewCount == |bookReviews|
    ensures Ratings.FromTenths(w.averageTenths) - 0.05 <= Ratings.Mean(SumOfRatings(bookReviews), |bookReviews|)
    ensures Ratings.Mean(SumOfRatings(bookReviews), |bookReviews|) <= Ratings.FromTenths(w.averageTenths) + 0.05
  {
    var t := Ratings.RoundHalfAwayTenths(SumOfRatings(bookReviews), |bookReviews|);
    AggregateWrite(t, |bookReviews|)
  }

  /** The book collection after `findByIdAndUpdate(book, { averageRating })`. */
  function SetAverage(books: seq<StoredBook>, bookId: string, average: real): (r: seq<StoredBook>)
    ensures |r| == |books| && BookIds(r) == BookIds(books)
    ensures forall i :: 0 <= i < |books| ==>
      r[i] == if SameObjectId(books[i].id, bookId) then books[i].(averageRating := average) else books[i]
  {
    if books == [] then []
    else
      var head := if SameObjectId(books[0].id, bookId) then books[0].(averageRating := average) else books[0];
      [head] + SetAverage(books[1..], bookId, average)
  }

  /**
   * `addReview`. A missing field answers 400 and stores nothing. A `book` that is not an
   * ObjectId cannot be cast (a review's `book`, like a book's `_id`, is an ObjectId), so the
   * handler answers 500 and stores nothing. Otherwise the review by the authenticated user is
   * appended with its `book` cast, the reviews of that ObjectId (the new one included) are
   * counted and averaged, only the book with that ObjectId has its average replaced, and the
   * review is returned with 201 together with the update that was written.
   */
  method AddReview(db: Db, userId: string, body: ReviewBody, newId: string)
    returns (status: int, created: Option<StoredReview>, written: Option<AggregateWrite>)
    requires db.Valid()
    modifies db`books, db`reviews
    ensures db.Valid()
    ensures status == 400 <==> MissingField(body)
    ensures status == 500 <==> !MissingField(body) && !IsObjectId(body.book.value)
    ensures status == 400 || status == 500 ==>
      created.None? && written.None? && db.books == old(db.books) && db.reviews == old(db.reviews)
    ensures status != 400 && status != 500 ==>
      status == 201
      && IsObjectId(body.book.value)
      && created == Some(StoredReview(newId, userId, CastId(body.book.value), body.rating.value, body.comment.value))
      && db.reviews == old(db.reviews) + [created.value]
      && written.Some?
      && written.value == AggregateOf(ReviewsOf(db.reviews, body.book.value))
      && written.value.reviewCount == |ReviewsOf(old(db.reviews), body.book.value)| + 1
      && db.books == SetAverage(old(db.books), body.book.value, Ratings.FromTenths(written.value.averageTenths))
  {
    if MissingField(body) {
      return 400, None, None;
    }
    if !IsObjectId(body.book.value) {
      return 500, None, None;
    }
    var review := StoredReview(newId, userId, CastId(body.book.value), body.rating.value, body.comment.value);
    var write := StoreReview(db, review, body.book.value);
    return 201, Some(review), Some(write);
  }

  /**
   * The success path of `addReview`: `Review.create`, then `Review.find({ book })` over the
   * reviews now stored, and the average written back to the book with that ObjectId.
   */
  method StoreReview(db: Db, review: StoredReview, bookId: string) returns (write: AggregateWrite)
    requires db.Valid() && IsObjectId(bookId) && review.book == CastId(bookId)
    modifies db`books, db`reviews
    ensures db.Valid()
    ensures db.reviews == old(db.reviews) + [review]
    ensures write == AggregateOf(ReviewsOf(db.reviews, bookId))
    ensures write.reviewCount == |ReviewsOf(old(db.reviews), bookId)| + 1
    ensures db.books == SetAverage(old(db.books), bookId, Ratings.FromTenths(write.averageTenths))
  {
    var reviews := db.reviews + [review];
    KeepConcat(db.reviews, [review], ForBook(bookId));
    assert Keep([review], ForBook(bookId)) == [review];
    write := AggregateOf(ReviewsOf(reviews, bookId));
    var books := SetAverage(db.books, bookId, Ratings.FromTenths(write.averageTenths));
    StoredIdsKept(db.books, books);
    StoredBooksAppend(db.reviews, review);
    db.reviews := reviews;
    db.books := books;
  }

  /** A collection with the same `_id`s in the same places keeps them in stored form. */
  lemma StoredIdsKept(books: seq<StoredBook>, r: seq<StoredBook>)
    requires BookIds(r) == BookIds(books)
    requires forall i :: 0 <= i < |books| ==> IsStoredId(books[i].id)
    ensures forall i :: 0 <= i < |r| ==> IsStoredId(r[i].id)
  {
    assert forall i :: 0 <= i < |r| ==> r[i].id == BookIds(r)[i];
  }

  /** Appending a review whose `book` is in stored form keeps every `book` in stored form. */
  lemma StoredBooksAppend(reviews: seq<StoredReview>, review: StoredReview)
    requires IsStoredId(review.book)
    requires forall j :: 0 <= j < |reviews| ==> IsStoredId(reviews[j].book)
    ensures forall j :: 0 <= j < |reviews + [review]| ==> IsStoredId((reviews + [review])[j].book)
  {
  }

  /** Ratings of one to five stars give a written average of one to five stars. */
  lemma AggregateWithinStars(bookReviews: seq<StoredReview>)
    requires bookReviews != []
    requires forall i :: 0 <= i < |bookReviews| ==> 1 <= bookReviews[i].rating <= 5
    ensures 10 <= AggregateOf(bookReviews).averageTenths <= 50
  {
    SumByBounds(bookReviews, (r: StoredReview) => r.rating, 1, 5);
    Ratings.TenthsWithinBounds(SumOfRatings(bookReviews), |bookReviews|, 1, 5);
  }

  /** Writing one book's average leaves every book with another ObjectId exactly as it was. */
  lemma SetAverageOthersUnchanged(books: seq<StoredBook>, bookId: string, average: real, b: StoredBook)
    requires b in books && !SameObjectId(b.id, bookId)
    ensures b in SetAverage(books, bookId, average)
  {
    var i :| 0 <= i < |books| && books[i] == b;
    assert SetAverage(books, bookId, average)[i] == b;
  }
}
