/** The page arithmetic of `PerigonAPI.get_articles`. */
module Pagination {

  /**
   * `math.ceil(a / b)`, with the quotient taken exactly: the least integer `q`
   * with `a / b <= q` in the rationals. For a positive divisor this is
   * `b * (q - 1) < a <= b * q`; a negative divisor reverses the inequalities.
   */
  function CeilDiv(a: int, b: int): (q: int)
    requires b != 0
    ensures b > 0 ==> b * (q - 1) < a <= b * q
    ensures b < 0 ==> b * q <= a < b * (q - 1)
  {
    if b > 0 then -((-a) / b) else a / b
  }

  /** The bounds above pin down the ceiling: no other integer satisfies them. */
  lemma CeilDivUnique(a: int, b: int, q: int)
    requires b > 0
    requires b * (q - 1) < a <= b * q
    ensures q == CeilDiv(a, b)
  {
  }

  /**
   * With a positive page size and more results than fit on one page, the page
   * count is at least two, and the pages hold all results with the last page
   * not empty.
   */
  lemma PagesCoverResults(n: int, size: int)
    requires 0 < size < n
    ensures CeilDiv(n, size) >= 2
    ensures (CeilDiv(n, size) - 1) * size < n <= CeilDiv(n, size) * size
  {
  }

  /** A negative page size never yields more than one page. */
  lemma NegativeSizeOnePage(n: int, size: int)
    requires size < 0 && n > size
    ensures CeilDiv(n, size) <= 1
  {
    var q := CeilDiv(n, size);
    assert size < n < size * (q - 1);
    assert size * (q - 1) == size * (q - 2) + size;
    assert size * (q - 2) > 0;
  }

  /**
   * With `pages` pages of `size` covering `n` results, every page before the
   * last is full and the last holds what remains: page `i` starts inside the
   * results, and it holds more than a full page's worth of the remainder
   * exactly when it is not the last.
   */
  lemma PageFill(n: int, size: int, pages: int, i: int)
    requires 0 < size && (pages - 1) * size < n <= pages * size
    requires 0 <= i < pages
    ensures i * size < n
    ensures i + 1 < pages ==> n - i * size > size
    ensures i + 1 == pages ==> n - i * size <= size
  {
    assert (i + 1) * size == i * size + size;
    assert (pages - 1) * size == pages * size - size;
    if i + 1 < pages {
      assert (i + 1) * size <= (pages - 1) * size;
    }
  }
}
