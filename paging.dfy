/**
 * Page arithmetic shared by the client's book grid (`slice(startIndex, startIndex + booksPerPage)`)
 * and the server's book listing (`skip((page - 1) * limit).limit(limit)`).
 */
module Paging {

  function Min(a: int, b: int): int {
    if a <= b then a else b
  }

  /** `Math.ceil(n / size)`: the fewest pages of `size` items that hold `n` items. */
  function PageCount(n: nat, size: nat): (c: nat)
    requires size > 0
    ensures n <= c * size
    ensures c > 0 ==> (c - 1) * size < n
  {
    var c := (n + size - 1) / size;
    assert c * size <= n + size - 1 < (c + 1) * size;
    c
  }

  /** `s.slice(start, start + size)` for `start >= 0`, and equally `skip(start).limit(size)`. */
  function Window<T>(s: seq<T>, start: nat, size: nat): (w: seq<T>)
    ensures |w| == if start >= |s| then 0 else Min(size, |s| - start)
    ensures forall i :: 0 <= i < |w| ==> w[i] == s[start + i]
  {
    if start >= |s| then [] else s[start..Min(start + size, |s|)]
  }

  /** Page `page` (counting from 1) of `s`, `size` items to a page. */
  function PageOf<T>(s: seq<T>, page: nat, size: nat): seq<T>
    requires page >= 1
  {
    Window(s, (page - 1) * size, size)
  }

  /** The pages of `s` in order, each `size` items long except possibly the last. */
  function Pages<T>(s: seq<T>, size: nat): seq<seq<T>>
    requires size > 0
    decreases |s|
  {
    if s == [] then [] else [s[..Min(size, |s|)]] + Pages(s[Min(size, |s|)..], size)
  }

  function Flatten<T>(ps: seq<seq<T>>): seq<T> {
    if ps == [] then [] else ps[0] + Flatten(ps[1..])
  }

  /** A window of the tail after `k` items is the window of the whole, moved `k` items on. */
  lemma WindowShift<T>(s: seq<T>, k: nat, start: nat, size: nat)
    requires k <= |s|
    ensures Window(s[k..], start, size) == Window(s, start + k, size)
  {
  }

  lemma MulMonotonic(a: int, b: int, size: nat)
    requires a <= b
    ensures a * size <= b * size
  {
    assert b * size - a * size == (b - a) * size;
  }

  /** The two bounds of `PageCount` pin it down: any `c` that meets them is the page count. */
  lemma PageCountUnique(n: nat, size: nat, c: nat)
    requires size > 0
    requires n <= c * size && (c > 0 ==> (c - 1) * size < n)
    ensures c == PageCount(n, size)
  {
    var d := PageCount(n, size);
    if c < d {
      MulMonotonic(c, d - 1, size);
    } else if c > d {
      MulMonotonic(d, c - 1, size);
    }
  }

  /** One more full page of items takes one more page. */
  lemma PageCountStep(n: nat, size: nat)
    requires size > 0 && n > size
    ensures PageCount(n, size) == PageCount(n - size, size) + 1
  {
    var c := PageCount(n - size, size);
    assert (c + 1) * size == c * size + size;
    assert c * size == (c - 1) * size + size;
    PageCountUnique(n, size, c + 1);
  }

  /** Page `p + 1` of `s` is page `p` of what follows the first page. */
  lemma PageOfTail<T>(s: seq<T>, size: nat, p: nat)
    requires size > 0 && |s| > size && p >= 1
    ensures PageOf(s[size..], p, size) == PageOf(s, p + 1, size)
  {
    var start := (p - 1) * size;
    assert start + size == p * size;
    WindowShift(s, size, start, size);
  }

  /**
   * Pages 1..PageCount(|s|, size) are exactly the slices `PageOf`, none of them empty, and laid end
   * to end they give back `s`: every item is on exactly one page, in its original order.
   */
  lemma {:induction false} PagesPartition<T>(s: seq<T>, size: nat)
    requires size > 0
    ensures |Pages(s, size)| == PageCount(|s|, size)
    ensures Flatten(Pages(s, size)) == s
    ensures forall p :: 1 <= p <= |Pages(s, size)| ==>
      Pages(s, size)[p - 1] == PageOf(s, p, size) && PageOf(s, p, size) != []
    decreases |s|
  {
    if s != [] {
      var m := Min(size, |s|);
      var rest := s[m..];
      PagesPartition(rest, size);
      var ps := Pages(s, size);
      assert ps == [s[..m]] + Pages(rest, size);
      assert s[..m] + rest == s;
      assert Flatten(ps) == s[..m] + Flatten(Pages(rest, size));
      assert PageOf(s, 1, size) == s[..m];
      if |s| <= size {
        assert rest == [];
        PageCountUnique(|s|, size, 1);
      } else {
        PageCountStep(|s|, size);
        forall p | 2 <= p <= |ps|
          ensures ps[p - 1] == PageOf(s, p, size) && PageOf(s, p, size) != []
        {
          assert ps[p - 1] == Pages(rest, size)[p - 2];
          PageOfTail(s, size, p - 1);
        }
      }
    }
  }

  /** Past the last page there is nothing to show. */
  lemma PageBeyondLastIsEmpty<T>(s: seq<T>, page: nat, size: nat)
    requires size > 0 && page > PageCount(|s|, size)
    ensures PageOf(s, page, size) == []
  {
    var c := PageCount(|s|, size);
    assert |s| <= c * size;
    assert c * size <= (page - 1) * size;
  }
}
