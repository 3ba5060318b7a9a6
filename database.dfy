/**
 * The server's document store: the book and review collections in their natural order, each
 * book with an ObjectId `_id` no other book has.
 */
module Database {
  import opened Wrappers
  import opened Seqs
  import Text

  /** A book document: the schema's fields. */
  datatype StoredBook = StoredBook(
    id: string,
    title: string,
    author: string,
    description: Option<string>,
    coverImage: Option<string>,
    createdBy: string,
    averageRating: real)

  /** A review document: who wrote it, for which book, the rating and the comment. */
  datatype StoredReview = StoredReview(id: string, user: string, book: string, rating: int, comment: string)

  predicate IsHexDigit(c: char) {
    '0' <= c <= '9' || 'a' <= c <= 'f' || 'A' <= c <= 'F'
  }

  /**
   * A string mongoose can cast to an ObjectId: 24 hexadecimal digits, in either case.
   * `findById` and its variants throw a cast error for any other id, which the handlers
   * answer with 500.
   */
  predicate IsObjectId(s: string) {
    |s| == 24 && forall i :: 0 <= i < |s| ==> IsHexDigit(s[i])
  }

  /** The value of a hexadecimal digit, and 16 for any other character. */
  function DigitValue(c: char): (v: nat)
    ensures v < 16 <==> IsHexDigit(c)
  {
    if '0' <= c <= '9' then c as int - '0' as int
    else if 'a' <= c <= 'f' then c as int - 'a' as int + 10
    else if 'A' <= c <= 'F' then c as int - 'A' as int + 10
    else 16
  }

  /**
   * Two strings cast to the same ObjectId: both are ObjectIds and hold the same twelve bytes,
   * so they agree digit by digit whatever the case of 'a'..'f'. Queries by `_id`, by `book`
   * or by any other ObjectId field compare this way.
   */
  predicate SameObjectId(a: string, b: string) {
    IsObjectId(a) && IsObjectId(b) && forall i :: 0 <= i < 24 ==> DigitValue(a[i]) == DigitValue(b[i])
  }

  /** How MongoDB writes an ObjectId back: 24 digits from '0'..'9' and 'a'..'f'. */
  predicate IsStoredId(s: string) {
    |s| == 24 && forall i :: 0 <= i < |s| ==> '0' <= s[i] <= '9' || 'a' <= s[i] <= 'f'
  }

  /** Two ids in stored form cast to the same ObjectId exactly when they are the same string. */
  lemma StoredSameIffEqual(a: string, b: string)
    requires IsStoredId(a) && IsStoredId(b)
    ensures SameObjectId(a, b) <==> a == b
  {
    if SameObjectId(a, b) {
      forall i | 0 <= i < 24
        ensures a[i] == b[i]
      {
        assert DigitValue(a[i]) == DigitValue(b[i]);
      }
    }
  }

  /**
   * The cast of an id to an ObjectId, as it is then stored: the case of 'A'..'F' is dropped.
   * The result is the one stored-form id that names the same ObjectId.
   */
  function CastId(s: string): (k: string)
    requires IsObjectId(s)
    ensures IsStoredId(k) && SameObjectId(k, s)
    ensures forall t :: IsStoredId(t) ==> (SameObjectId(t, s) <==> t == k)
  {
    var k := Text.Lower(s);
    assert forall i :: 0 <= i < 24 ==> DigitValue(k[i]) == DigitValue(s[i]);
    forall t | IsStoredId(t)
      ensures SameObjectId(t, s) <==> t == k
    {
      StoredSameIffEqual(t, k);
    }
    k
  }

  function BookIds(books: seq<StoredBook>): (ids: seq<string>)
    ensures |ids| == |books| && forall i :: 0 <= i < |books| ==> ids[i] == books[i].id
  {
    if books == [] then [] else [books[0].id] + BookIds(books[1..])
  }

  /** `findById(id)`: the first book whose `_id` is the same ObjectId as `id`. */
  function FindById(books: seq<StoredBook>, id: string): (r: Option<StoredBook>)
    ensures r.None? <==> forall i :: 0 <= i < |books| ==> !SameObjectId(books[i].id, id)
    ensures r.Some? ==> r.value in books && SameObjectId(r.value.id, id)
  {
    if books == [] then None
    else if SameObjectId(books[0].id, id) then Some(books[0])
    else FindById(books[1..], id)
  }

  /** Naming the same ObjectId is transitive (and, with `a == c`, symmetric). */
  lemma SameObjectIdJoin(a: string, b: string, c: string)
    requires SameObjectId(a, c) && SameObjectId(b, c)
    ensures SameObjectId(a, b)
  {
  }

  /**
   * With distinct `_id`s in stored form, any spelling of a stored book's ObjectId finds that
   * book and no other.
   */
  lemma {:induction false} FindByIdUnique(books: seq<StoredBook>, i: int, id: string)
    requires NoDuplicates(BookIds(books))
    requires forall j :: 0 <= j < |books| ==> IsStoredId(books[j].id)
    requires 0 <= i < |books| && SameObjectId(books[i].id, id)
    ensures FindById(books, id) == Some(books[i])
  {
    if i > 0 {
      assert BookIds(books)[0] != BookIds(books)[i];
      if SameObjectId(books[0].id, id) {
        SameObjectIdJoin(books[0].id, books[i].id, id);
        StoredSameIffEqual(books[0].id, books[i].id);
      }
      assert BookIds(books[1..]) == BookIds(books)[1..];
      FindByIdUnique(books[1..], i - 1, id);
    }
  }

  /** `{ book: bookId }` as a query: the review's `book` is the same ObjectId. */
  function ForBook(bookId: string): StoredReview -> bool {
    (r: StoredReview) => SameObjectId(r.book, bookId)
  }

  /** The books a delete by `_id` keeps. */
  function OtherThan(id: string): StoredBook -> bool {
    (b: StoredBook) => !SameObjectId(b.id, id)
  }

  /** `Review.find({ book })`: the reviews of that ObjectId, in store order. */
  function ReviewsOf(reviews: seq<StoredReview>, bookId: string): (r: seq<StoredReview>)
    ensures forall x :: x in r <==> x in reviews && SameObjectId(x.book, bookId)
  {
    Keep(reviews, ForBook(bookId))
  }

  function SumOfRatings(reviews: seq<StoredReview>): int {
    SumBy(reviews, (r: StoredReview) => r.rating)
  }

  class Db {
    var books: seq<StoredBook>
    var reviews: seq<StoredReview>

    /**
     * What MongoDB holds: every book's `_id` and every review's `book` is an ObjectId in
     * stored form, and no two books share an `_id`.
     */
    predicate Valid()
      reads this
    {
      NoDuplicates(BookIds(books))
      && (forall i :: 0 <= i < |books| ==> IsStoredId(books[i].id))
      && (forall j :: 0 <= j < |reviews| ==> IsStoredId(reviews[j].book))
    }

    constructor (books: seq<StoredBook>, reviews: seq<StoredReview>)
      ensures this.books == books && this.reviews == reviews
    {
      this.books := books;
      this.reviews := reviews;
    }
  }
}
