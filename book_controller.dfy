/**
 * The book endpoints of the server: create, the paginated list, the single book with its
 * reviews, update and delete. Each returns an HTTP status with its body; the authenticated
 * user's id and the fresh `_id` of a created document are inputs.
 */
module BookController {
  import opened Wrappers
  import opened Seqs
  import opened Paging
  import opened Database

  /** `getBooks` serves this many books per page. */
  const Limit := 5

  /** The fields `createBook` reads from the request body; a field left out is `None`. */
  datatype CreateBody = CreateBody(
    title: Option<string>, author: Option<string>, description: Option<string>, coverImage: Option<string>)

  /** The schema's `required` check: a missing or empty string fails it. */
  predicate Present(field: Option<string>) {
    field.Some? && field.value != ""
  }

  /**
   * `createBook`: a body lacking a title or an author fails the schema's validation (500) and
   * stores nothing; otherwise the new book, created by the authenticated user with no rating
   * yet, is stored and returned with 201.
   */
  method CreateBook(db: Db, userId: string, body: CreateBody, newId: string)
    returns (status: int, created: Option<StoredBook>)
    requires db.Valid() && IsStoredId(newId) && newId !in BookIds(db.books)
    modifies db`books
    ensures db.Valid()
    ensures status == 201 <==> Present(body.title) && Present(body.author)
    ensures status != 201 ==> status == 500 && created.None? && db.books == old(db.books)
    ensures status == 201 ==>
      created == Some(StoredBook(newId, body.title.value, body.author.value, body.description, body.coverImage, userId, 0.0))
      && db.books == old(db.books) + [created.value]
  {
    if !Present(body.title) || !Present(body.author) {
      return 500, None;
    }
    var book := StoredBook(newId, body.title.value, body.author.value, body.description, body.coverImage, userId, 0.0);
    AppendFreshId(db.books, book);
    db.books := db.books + [book];
    assert forall i :: 0 <= i < |db.books| - 1 ==> db.books[i] == old(db.books)[i];
    return 201, Some(book);
  }

  lemma AppendFreshId(books: seq<StoredBook>, book: StoredBook)
    requires NoDuplicates(BookIds(books)) && book.id !in BookIds(books)
    ensures NoDuplicates(BookIds(books + [book]))
  {
    var ids := BookIds(books + [book]);
    assert ids == BookIds(books) + [book.id];
  }

  /** The body of a `getBooks` answer. */
  datatype Listing = Listing(books: seq<StoredBook>, totalPages: nat)

  /** `parseInt(req.query.page) || 1`: no number (`None`), or 0, means page 1. */
  function RequestedPage(parsed: Option<int>): (page: int)
    ensures page == 1 <==> parsed.None? || parsed.value == 0 || parsed.value == 1
    ensures page != 1 ==> page == parsed.value
  {
    if parsed.None? || parsed.value == 0 then 1 else parsed.value
  }

  /**
   * `getBooks`: the page's window of at most `Limit` books and the page count. A negative
   * requested page makes the skip negative, which the database refuses (500).
   */
  function GetBooks(db: Db, parsed: Option<int>): (r: (int, Option<Listing>))
    reads db
    ensures r.0 == 200 <==> RequestedPage(parsed) >= 1
    ensures r.0 != 200 ==> r.0 == 500 && r.1.None?
    ensures r.0 == 200 ==>
      r.1.Some?
      && r.1.value.books == PageOf(db.books, RequestedPage(parsed), Limit)
      && |r.1.value.books| <= Limit
      && r.1.value.totalPages == PageCount(|db.books|, Limit)
  {
    var page := RequestedPage(parsed);
    var skip := (page - 1) * Limit;
    if skip < 0 then (500, None)
    else (200, Some(Listing(Window(db.books, skip, Limit), PageCount(|db.books|, Limit))))
  }

  /**
   * Every book is served on exactly one of the pages 1..totalPages, in store order, and a
   * page past the last one is empty.
   */
  lemma GetBooksCoversStore(db: Db, page: int)
    requires page >= 1
    ensures |Pages(db.books, Limit)| == PageCount(|db.books|, Limit)
    ensures Flatten(Pages(db.books, Limit)) == db.books
    ensures page <= PageCount(|db.books|, Limit) ==>
      GetBooks(db, Some(page)).1.value.books == Pages(db.books, Limit)[page - 1]
    ensures page > PageCount(|db.books|, Limit) ==> GetBooks(db, Some(page)).1.value.books == []
  {
    PagesPartition(db.books, Limit);
    if page > PageCount(|db.books|, Limit) {
      PageBeyondLastIsEmpty(db.books, page, Limit);
    }
  }

  /** The body of a `getBookById` answer: the book's fields with its reviews. */
  datatype BookWithReviews = BookWithReviews(book: StoredBook, reviews: seq<StoredReview>)

  /**
   * `getBookById`: an id that is not an ObjectId makes `findById` throw (500); an ObjectId no
   * book has gives 404; otherwise the book with that ObjectId and exactly its reviews.
   */
  function GetBookById(db: Db, id: string): (r: (int, Option<BookWithReviews>))
    reads db
    ensures r.0 == 500 <==> !IsObjectId(id)
    ensures r.0 == 404 <==> IsObjectId(id) && forall i :: 0 <= i < |db.books| ==> !SameObjectId(db.books[i].id, id)
    ensures r.0 != 404 && r.0 != 500 ==>
      r.0 == 200 && r.1.Some? && r.1.value.book in db.books && SameObjectId(r.1.value.book.id, id)
      && forall x :: x in r.1.value.reviews <==> x in db.reviews && SameObjectId(x.book, id)
    ensures r.0 != 200 ==> r.1.None?
  {
    if !IsObjectId(id) then (500, None)
    else
      var found := FindById(db.books, id);
      if found.None? then (404, None) else (200, Some(BookWithReviews(found.value, ReviewsOf(db.reviews, id))))
  }

  /**
   * Any spelling of a stored book's ObjectId, in whatever case, is answered with that book
   * and its reviews.
   */
  lemma GetBookByIdFindsIt(db: Db, i: int, id: string)
    requires db.Valid() && 0 <= i < |db.books| && SameObjectId(db.books[i].id, id)
    ensures GetBookById(db, id) == (200, Some(BookWithReviews(db.books[i], ReviewsOf(db.reviews, id))))
  {
    FindByIdUnique(db.books, i, id);
  }

  /** The schema fields an update body may carry; a field left out is `None`. */
  datatype UpdateBody = UpdateBody(
    title: Option<string>, author: Option<string>, description: Option<string>,
    coverImage: Option<string>, createdBy: Option<string>, averageRating: Option<real>)

  /** A `createdBy` in the body casts to an ObjectId. */
  predicate CreatorCasts(u: UpdateBody) {
    u.createdBy.Some? ==> IsObjectId(u.createdBy.value)
  }

  /**
   * The document after `findByIdAndUpdate(id, body)`: each field the body carries is replaced,
   * and a `createdBy` is stored as the ObjectId it casts to.
   */
  function Apply(b: StoredBook, u: UpdateBody): (r: StoredBook)
    requires CreatorCasts(u)
    ensures r.id == b.id
    ensures r.title == u.title.GetOr(b.title) && r.author == u.author.GetOr(b.author)
    ensures r.description == (if u.description.Some? then u.description else b.description)
    ensures r.coverImage == (if u.coverImage.Some? then u.coverImage else b.coverImage)
    ensures u.createdBy.None? ==> r.createdBy == b.createdBy
    ensures u.createdBy.Some? ==> IsStoredId(r.createdBy) && SameObjectId(r.createdBy, u.createdBy.value)
    ensures r.averageRating == u.averageRating.GetOr(b.averageRating)
  {
    StoredBook(
      b.id, u.title.GetOr(b.title), u.author.GetOr(b.author),
      if u.description.Some? then u.description else b.description,
      if u.coverImage.Some? then u.coverImage else b.coverImage,
      if u.createdBy.Some? then CastId(u.createdBy.value) else b.createdBy,
      u.averageRating.GetOr(b.averageRating))
  }

  /** The collection after updating the books whose `_id` is that ObjectId (at most one, ids being distinct). */
  function UpdateWhere(books: seq<StoredBook>, id: string, u: UpdateBody): (r: seq<StoredBook>)
    requires CreatorCasts(u)
    ensures |r| == |books|
    ensures forall i :: 0 <= i < |books| ==> r[i] == if SameObjectId(books[i].id, id) then Apply(books[i], u) else books[i]
    ensures BookIds(r) == BookIds(books)
  {
    if books == [] then []
    else [if SameObjectId(books[0].id, id) then Apply(books[0], u) else books[0]] + UpdateWhere(books[1..], id, u)
  }

  /** The update cannot be cast: the id, or a `createdBy` in the body, is not an ObjectId. */
  predicate UpdateCastFails(id: string, body: UpdateBody) {
    !IsObjectId(id) || !CreatorCasts(body)
  }

  /**
   * `updateBook`: an id or a `createdBy` that is not an ObjectId makes the update throw (500)
   * and changes nothing. Otherwise the book with that ObjectId takes the body's fields and is
   * returned, every other book is left as it was, and for an unknown id nothing changes and
   * the answer is `null` with 200.
   */
  method UpdateBook(db: Db, id: string, body: UpdateBody) returns (status: int, updated: Option<StoredBook>)
    requires db.Valid()
    modifies db`books
    ensures db.Valid()
    ensures status == 500 <==> UpdateCastFails(id, body)
    ensures status == 500 ==> db.books == old(db.books) && updated.None?
    ensures status != 500 ==> status == 200 && db.books == UpdateWhere(old(db.books), id, body)
    ensures status != 500 ==> (updated.None? <==> forall i :: 0 <= i < |old(db.books)| ==> !SameObjectId(old(db.books)[i].id, id))
    ensures updated.Some? ==>
      CreatorCasts(body) && updated.value in db.books && SameObjectId(updated.value.id, id)
      && exists i :: 0 <= i < |old(db.books)| && SameObjectId(old(db.books)[i].id, id) && updated.value == Apply(old(db.books)[i], body)
  {
    if UpdateCastFails(id, body) {
      return 500, None;
    }
    var found := FindById(db.books, id);
    var books := UpdateWhere(db.books, id, body);
    assert forall i :: 0 <= i < |books| ==> books[i].id == db.books[i].id;
    db.books := books;
    if found.None? {
      return 200, None;
    }
    ghost var i :| 0 <= i < |old(db.books)| && old(db.books)[i] == found.value;
    assert db.books[i] == Apply(found.value, body);
    return 200, Some(Apply(found.value, body));
  }

  /**
   * `deleteBook`: an id that is not an ObjectId makes the delete throw (500) and nothing goes.
   * Otherwise the books with that ObjectId go, the reviews stay, and the answer is "Book removed"
   * with 200, whether or not a book had that id.
   */
  method DeleteBook(db: Db, id: string) returns (status: int)
    requires db.Valid()
    modifies db`books
    ensures db.Valid() && db.reviews == old(db.reviews)
    ensures status == 500 <==> !IsObjectId(id)
    ensures status == 500 ==> db.books == old(db.books)
    ensures status != 500 ==> status == 200 && db.books == Keep(old(db.books), OtherThan(id))
    ensures status != 500 ==> forall b :: b in db.books <==> b in old(db.books) && !SameObjectId(b.id, id)
  {
    if !IsObjectId(id) {
      return 500;
    }
    KeepIds(db.books, id);
    db.books := Keep(db.books, OtherThan(id));
    forall i | 0 <= i < |db.books|
      ensures IsStoredId(db.books[i].id)
    {
      assert db.books[i] in old(db.books);
    }
    return 200;
  }

  /** Removing books keeps the remaining ids distinct. */
  lemma {:induction false} KeepIds(books: seq<StoredBook>, id: string)
    requires NoDuplicates(BookIds(books))
    ensures NoDuplicates(BookIds(Keep(books, OtherThan(id))))
    ensures forall x :: x in BookIds(Keep(books, OtherThan(id))) ==> x in BookIds(books)
  {
    if books != [] {
      assert BookIds(books[1..]) == BookIds(books)[1..];
      KeepIds(books[1..], id);
      var rest := Keep(books[1..], OtherThan(id));
      if OtherThan(id)(books[0]) {
        assert Keep(books, OtherThan(id)) == [books[0]] + rest;
        assert BookIds([books[0]] + rest) == [books[0].id] + BookIds(rest);
        assert books[0].id !in BookIds(books[1..]);
      }
    }
  }
}
