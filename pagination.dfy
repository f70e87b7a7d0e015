/** The pagination rules shared by the three admin tables (products, carts,
    users). Each table keeps the same code: a page size of 10, an offset
    `(page - 1) * 10`, `totalPages = ceil(total / 10)`, a row of at most five
    numbered page buttons starting two before the current page, and
    First / Prev / Next / Last buttons. They are written once here and used by
    every table class. */
module Pagination {

  /** `limit` in every table. */
  const PageSize: nat := 10

  function Min(a: int, b: int): int { if a <= b then a else b }
  function Max(a: int, b: int): int { if a >= b then a else b }

  // ---------------------------------------------------------------------------
  // Offset and page count

  /** The `skip` sent with the request for page `page`: a whole number of
      pages, `page - 1` of them, and non-negative exactly for pages from 1. */
  function Skip(page: int): (s: int)
    ensures s % PageSize == 0 && s / PageSize == page - 1
    ensures s >= 0 <==> page >= 1
  {
    (page - 1) * PageSize
  }

  /** Page `page` (counting from 1) holds exactly the items whose zero-based
      index lies in `[Skip(page), Skip(page) + PageSize)`, and every item index
      lies on exactly one page. */
  lemma SkipPartitionsItems(k: nat)
    ensures Skip(k / PageSize + 1) <= k < Skip(k / PageSize + 1) + PageSize
    ensures forall page :: Skip(page) <= k < Skip(page) + PageSize ==> page == k / PageSize + 1
  {
  }

  /** `Math.ceil(total / limit)`: the least page count whose pages hold
      `total` items. */
  function TotalPages(total: nat): (n: nat)
    ensures n * PageSize >= total
    ensures n == 0 || (n - 1) * PageSize < total
  {
    (total + PageSize - 1) / PageSize
  }

  /** Every item lies on a page between 1 and the page count, and the last
      page is never empty. */
  lemma ItemsLieOnExistingPages(total: nat, k: nat)
    requires k < total
    ensures 1 <= k / PageSize + 1 <= TotalPages(total)
    ensures Skip(TotalPages(total)) < total
  {
  }

  // ---------------------------------------------------------------------------
  // The numbered page buttons

  /** Buttons `i` to `n - 1` of `[...Array(n)].map((_, i) => ...)`: button `i`
      stands for page `current - 2 + i` and is rendered only when that page
      lies in `[1, totalPages]`. */
  function WindowFrom(current: int, totalPages: nat, i: nat, n: nat): (w: seq<int>)
    ensures |w| <= n - i || (i >= n && w == [])
    ensures forall p :: p in w <==> 1 <= p <= totalPages && current - 2 + i <= p < current - 2 + n
    ensures forall k :: 0 <= k < |w| - 1 ==> w[k + 1] == w[k] + 1
    decreases n - i
  {
    if i >= n then []
    else
      var page := current - 2 + i;
      var rest := WindowFrom(current, totalPages, i + 1, n);
      if 1 <= page <= totalPages then
        assert rest != [] ==> rest[0] == page + 1 by {
          if rest != [] {
            assert rest[0] in rest;
            assert page + 1 in rest;
          }
        }
        [page] + rest
      else rest
  }

  /** The page numbers rendered as buttons, in order: at most five of them,
      and only pages that exist. */
  function Window(current: int, totalPages: nat): (w: seq<int>)
    ensures |w| <= Min(5, totalPages)
    ensures forall p :: p in w ==> 1 <= p <= totalPages
  {
    WindowFrom(current, totalPages, 0, Min(5, totalPages))
  }

  /** The window holds at most `min(5, totalPages)` consecutive, strictly
      increasing pages, each inside `[1, totalPages]` and within two of the
      current page; it is exactly the pages of `[current - 2, current - 2 +
      min(5, totalPages))` that exist. */
  lemma WindowShape(current: int, totalPages: nat)
    ensures |Window(current, totalPages)| <= Min(5, totalPages)
    ensures forall k :: 0 <= k < |Window(current, totalPages)| - 1 ==>
      Window(current, totalPages)[k + 1] == Window(current, totalPages)[k] + 1
    ensures forall k, l :: 0 <= k < l < |Window(current, totalPages)| ==>
      Window(current, totalPages)[k] < Window(current, totalPages)[l]
    ensures forall p :: p in Window(current, totalPages) <==>
      1 <= p <= totalPages && current - 2 <= p < current - 2 + Min(5, totalPages)
    ensures forall p :: p in Window(current, totalPages) ==> current - 2 <= p <= current + 2
  {
    var w := Window(current, totalPages);
    forall k, l | 0 <= k < l < |w| ensures w[k] < w[l] {
      ConsecutiveIncreasing(w, k, l);
    }
  }

  lemma {:induction false} ConsecutiveIncreasing(w: seq<int>, k: nat, l: nat)
    requires forall j :: 0 <= j < |w| - 1 ==> w[j + 1] == w[j] + 1
    requires k < l < |w|
    ensures w[l] == w[k] + (l - k)
    decreases l - k
  {
    if l > k + 1 {
      ConsecutiveIncreasing(w, k, l - 1);
    }
  }

  /** The current page has a button exactly when it exists and there are at
      least three pages: with two pages and the second one current, only
      button 1 is shown, and a single page gets no numbered button at all. */
  lemma CurrentPageShown(current: int, totalPages: nat)
    ensures current in Window(current, totalPages) <==> 1 <= current <= totalPages && totalPages >= 3
    ensures Window(2, 2) == [1]
    ensures Window(1, 1) == []
  {
    WindowShape(current, totalPages);
    WindowShape(2, 2);
    WindowShape(1, 1);
    var w := Window(2, 2);
    assert 1 in w;
    assert w[0] in w;
  }

  // ---------------------------------------------------------------------------
  // The First / Prev / numbered / Next / Last buttons

  datatype PagerButton = First | Prev | Item(page: int) | Next | Last

  /** The page a click on `b` selects: `setCurrentPage(1)`,
      `p => Math.max(1, p - 1)`, `setCurrentPage(page)`,
      `p => Math.min(totalPages, p + 1)` and `setCurrentPage(totalPages)`. */
  function Click(b: PagerButton, current: int, totalPages: nat): (p: int)
    ensures b.Item? ==> p == b.page
    ensures b.First? ==> p == 1
    ensures b.Last? ==> p == totalPages
    ensures !b.Item? && 1 <= current <= totalPages ==> 1 <= p <= totalPages
    ensures (b.First? || b.Prev?) && current >= 1 ==> p <= current
    ensures (b.Next? || b.Last?) && current <= totalPages ==> p >= current
  {
    match b
    case First => 1
    case Prev => Max(1, current - 1)
    case Item(page) => page
    case Next => Min(totalPages, current + 1)
    case Last => totalPages
  }

  /** The `disabled` flag of each button: a numbered button is never
      disabled, and First / Prev / Next / Last are disabled exactly when a
      click on them would leave the page where it is. */
  predicate Disabled(b: PagerButton, current: int, totalPages: nat): (d: bool)
    ensures b.Item? ==> !d
    ensures !b.Item? ==> (d <==> Click(b, current, totalPages) == current)
  {
    match b
    case First | Prev => current == 1
    case Item(_) => false
    case Next | Last => current == totalPages
  }

  /** Prev never goes below page 1, steps back by one when it can and
      otherwise lands on page 1; Next never goes past the last page, steps
      forward by one when it can and otherwise lands on the last page. */
  lemma PrevNextClamp(current: int, totalPages: nat)
    ensures Click(Prev, current, totalPages) >= 1
    ensures current > 1 ==> Click(Prev, current, totalPages) == current - 1
    ensures Click(Next, current, totalPages) <= totalPages
    ensures current < totalPages ==> Click(Next, current, totalPages) == current + 1
    ensures current <= 1 ==> Click(Prev, current, totalPages) == 1
    ensures current >= totalPages ==> Click(Next, current, totalPages) == totalPages
  {
  }

  /** From a page that exists, every button that is rendered leads to a page
      that exists. */
  lemma ClickKeepsPageInRange(b: PagerButton, current: int, totalPages: nat)
    requires 1 <= current <= totalPages
    requires b.Item? ==> b.page in Window(current, totalPages)
    ensures 1 <= Click(b, current, totalPages) <= totalPages
  {
    WindowShape(current, totalPages);
  }

  /** With no items there are no pages; Next and Last are then enabled on
      page 1 and select page 0, whose request has offset -10. */
  lemma EmptyTableLeavesRange()
    ensures TotalPages(0) == 0
    ensures !Disabled(Next, 1, 0) && Click(Next, 1, 0) == 0 && Skip(0) == -10
    ensures !Disabled(Last, 1, 0) && Click(Last, 1, 0) == 0
  {
  }
}
