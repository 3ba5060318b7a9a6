/**
 * The book card: the five-star rating strip of `renderStars` and the id its "View Details"
 * button reports.
 */
module BookCard {
  import AppContext
  import Router

  /** The three star styles: filled, half-filled and outlined. */
  datatype StarKind = Full | Half | Empty

  /** Star `i` (from 0) for a rating: full below the rating's floor, half up to the rating itself. */
  function StarAt(rating: real, i: int): StarKind {
    if i < rating.Floor then Full
    else if (i as real) < rating then Half
    else Empty
  }

  /** `Array.from({ length: 5 }, (_, i) => …)`. */
  function Stars(rating: real): (r: seq<StarKind>)
    ensures |r| == 5
  {
    seq(5, i requires 0 <= i < 5 => StarAt(rating, i))
  }

  function Rank(k: StarKind): int {
    match k
    case Full => 0
    case Half => 1
    case Empty => 2
  }

  /** Star `i` is full exactly below the floor and half exactly from the floor up to the rating. */
  lemma StarKinds(rating: real, i: int)
    requires 0 <= i < 5
    ensures Stars(rating)[i] == Full <==> i < rating.Floor
    ensures Stars(rating)[i] == Half <==> rating.Floor <= i && (i as real) < rating
    ensures Stars(rating)[i] == Empty <==> rating <= i as real
  {
    assert (rating.Floor as real) <= rating;
    if i < rating.Floor {
      assert (i as real) < rating;
    }
  }

  /** At most one star is half-filled, and none is when the rating is a whole number. */
  lemma AtMostOneHalf(rating: real, i: int, j: int)
    requires 0 <= i < 5 && 0 <= j < 5
    requires Stars(rating)[i] == Half && Stars(rating)[j] == Half
    ensures i == j == rating.Floor
    ensures rating != rating.Floor as real
  {
    StarKinds(rating, i);
    StarKinds(rating, j);
    assert rating < (rating.Floor + 1) as real;
  }

  /** Full stars come first, then the half star, then the outlined ones. */
  lemma StarsOrdered(rating: real, i: int, j: int)
    requires 0 <= i <= j < 5
    ensures Rank(Stars(rating)[i]) <= Rank(Stars(rating)[j])
  {
    StarKinds(rating, i);
    StarKinds(rating, j);
  }

  /** The number of full stars: the rating's floor, kept within 0..5. */
  lemma FullStarCount(rating: real, n: int)
    requires 0 <= n <= 5
    ensures (forall i :: 0 <= i < n ==> Stars(rating)[i] == Full) <==> n <= rating.Floor || n == 0
  {
    if n > 0 && n > rating.Floor {
      if rating.Floor >= 0 {
        StarKinds(rating, rating.Floor);
      } else {
        StarKinds(rating, 0);
      }
    }
  }

  /** "View Details" reports the card's book id, which the home page turns into that book's details page. */
  function ViewDetailsTarget(book: AppContext.Book): (page: string)
    ensures Router.RenderPage(page) == Router.BookDetails(book.id)
  {
    Router.DetailsPath(book.id)
  }
}
