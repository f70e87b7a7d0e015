/** The carts table of the admin dashboard
    (`src/components/dashboard/CartsManagement.jsx`): the cart total, the
    item count, and the state `carts`, `total`, `currentPage` and
    `userIdFilter` with the handlers that change it. */
module CartsManagement {
  import opened Js
  import Pagination

  /** One line of a cart. */
  datatype CartLine = CartLine(price: real, quantity: int)

  datatype Cart = Cart(id: int, userId: int, totalProducts: Option<int>, products: Option<seq<CartLine>>)

  function Amount(line: CartLine): real {
    line.price * line.quantity as real
  }

  /** The sum of the line amounts, one term per line. */
  function LinesSum(lines: seq<CartLine>): real {
    if lines == [] then 0.0 else Amount(lines[0]) + LinesSum(lines[1..])
  }

  /** `lines.reduce((sum, item) => sum + item.price * item.quantity, acc)`:
      a left fold. */
  function Reduce(acc: real, lines: seq<CartLine>): real
    decreases lines
  {
    if lines == [] then acc else Reduce(acc + Amount(lines[0]), lines[1..])
  }

  /** The left fold from `acc` adds every line's amount exactly once. */
  lemma {:induction false} ReduceIsSum(acc: real, lines: seq<CartLine>)
    ensures Reduce(acc, lines) == acc + LinesSum(lines)
    decreases lines
  {
    if lines != [] {
      ReduceIsSum(acc + Amount(lines[0]), lines[1..]);
    }
  }

  /** `calculateTotal(cart)`: 0 for a cart without `products`, otherwise the
      sum of price times quantity over its lines. */
  function CalculateTotal(cart: Cart): (t: real)
    ensures cart.products.None? ==> t == 0.0
    ensures cart.products.Some? ==> t == LinesSum(cart.products.value)
  {
    if cart.products.None? then 0.0
    else
      ReduceIsSum(0.0, cart.products.value);
      Reduce(0.0, cart.products.value)
  }

  /** Adding a line to a cart adds that line's amount to its total. */
  lemma {:induction false} TotalAddsLine(id: int, userId: int, n: Option<int>, lines: seq<CartLine>, line: CartLine)
    ensures CalculateTotal(Cart(id, userId, n, Some(lines + [line])))
         == CalculateTotal(Cart(id, userId, n, Some(lines))) + Amount(line)
  {
    LinesSumAppend(lines, line);
  }

  lemma {:induction false} LinesSumAppend(lines: seq<CartLine>, line: CartLine)
    ensures LinesSum(lines + [line]) == LinesSum(lines) + Amount(line)
  {
    if lines != [] {
      assert (lines + [line])[1..] == lines[1..] + [line];
      LinesSumAppend(lines[1..], line);
    }
  }

  /** Prices and quantities that are not negative give a total that is not
      negative. */
  lemma {:induction false} TotalNonNegative(lines: seq<CartLine>)
    requires forall i :: 0 <= i < |lines| ==> lines[i].price >= 0.0 && lines[i].quantity >= 0
    ensures LinesSum(lines) >= 0.0
  {
    if lines != [] {
      TotalNonNegative(lines[1..]);
    }
  }

  /** The "Items" cell: `cart.totalProducts || (cart.products?.length || 0)`. */
  function ItemCount(cart: Cart): (n: int)
    ensures cart.totalProducts.Some? && cart.totalProducts.value != 0 ==> n == cart.totalProducts.value
    ensures (cart.totalProducts.None? || cart.totalProducts.value == 0) && cart.products.Some? ==>
      n == |cart.products.value|
    ensures (cart.totalProducts.None? || cart.totalProducts.value == 0) && cart.products.None? ==> n == 0
  {
    if cart.totalProducts.Some? && cart.totalProducts.value != 0 then cart.totalProducts.value
    else if cart.products.Some? then |cart.products.value|
    else 0
  }

  // ---------------------------------------------------------------------------
  // The table's state

  /** The fields `loadCarts` reads from the awaited value: `carts` and `total`. */
  datatype CartsResponse = CartsResponse(carts: Option<seq<Cart>>, total: Option<nat>)

  /** The request `loadCarts` sends: the carts of one user, or one page. */
  datatype CartsRequest = ByUser(userId: string) | AllCarts(limit: nat, skip: int)

  /** The request for a filter value and a page: a non-empty filter asks for
      that user's carts and ignores the page. */
  function RequestFor(userIdFilter: string, currentPage: int): (r: CartsRequest)
    ensures r.ByUser? <==> userIdFilter != ""
    ensures r.ByUser? ==> r.userId == userIdFilter
    ensures r.AllCarts? ==> r.limit == Pagination.PageSize && r.skip == Pagination.Skip(currentPage)
  {
    if userIdFilter != "" then ByUser(userIdFilter)
    else AllCarts(Pagination.PageSize, Pagination.Skip(currentPage))
  }

  /** The `total` recorded for a response: the number of carts returned under
      a user filter, the server's total otherwise. */
  function TotalFor(userIdFilter: string, response: CartsResponse): (n: nat)
    ensures userIdFilter != "" ==> n == |response.carts.GetOr([])|
    ensures userIdFilter == "" ==> n == response.total.GetOr(0)
  {
    if userIdFilter != "" then |response.carts.GetOr([])| else response.total.GetOr(0)
  }

  /** Under a user filter the page is ignored: every page sends the same
      request, and the recorded total is the number of carts that request
      returned, all of which `Load` puts on screen. */
  lemma FilterIgnoresPage(userIdFilter: string, page: int, otherPage: int, response: CartsResponse)
    requires userIdFilter != ""
    ensures RequestFor(userIdFilter, page) == RequestFor(userIdFilter, otherPage) == ByUser(userIdFilter)
    ensures TotalFor(userIdFilter, response) == |response.carts.GetOr([])|
  {
  }

  class CartsTable {
    var carts: seq<Cart>
    var currentPage: int
    var total: nat
    var userIdFilter: string

    constructor ()
      ensures carts == [] && currentPage == 1 && total == 0 && userIdFilter == ""
    {
      carts := [];
      currentPage := 1;
      total := 0;
      userIdFilter := "";
    }

    function TotalPages(): nat
      reads this
    {
      Pagination.TotalPages(total)
    }

    /** The pager is rendered only while no user filter is typed in, that
        is exactly while the table holds a page of all carts. */
    predicate PaginationShown(): (b: bool)
      reads this
      ensures b <==> RequestFor(userIdFilter, currentPage).AllCarts?
    {
      userIdFilter == ""
    }

    /** `loadCarts` with the response its request delivered. */
    method Load(response: CartsResponse) returns (request: CartsRequest)
      modifies this`carts, this`total
      ensures request == RequestFor(userIdFilter, currentPage)
      ensures carts == response.carts.GetOr([])
      ensures total == TotalFor(userIdFilter, response)
    {
      if userIdFilter != "" {
        request := ByUser(userIdFilter);
        carts := response.carts.GetOr([]);
        total := |response.carts.GetOr([])|;
      } else {
        request := AllCarts(Pagination.PageSize, Pagination.Skip(currentPage));
        carts := response.carts.GetOr([]);
        total := response.total.GetOr(0);
      }
    }

    /** Typing into the user-id box: stores the value and goes back to page 1. */
    method SetUserIdFilter(value: string)
      modifies this`userIdFilter, this`currentPage
      ensures userIdFilter == value && currentPage == 1
    {
      userIdFilter := value;
      currentPage := 1;
    }

    /** "Clear Filter": no filter, page 1, so the next load asks for the first
        page of all carts and the pager is shown again. */
    method ClearFilter()
      modifies this`userIdFilter, this`currentPage
      ensures userIdFilter == "" && currentPage == 1
      ensures PaginationShown() && RequestFor(userIdFilter, currentPage) == AllCarts(Pagination.PageSize, 0)
    {
      userIdFilter := "";
      currentPage := 1;
    }

    /** A click on one of the rendered pager buttons. */
    method Click(b: Pagination.PagerButton)
      requires PaginationShown()
      requires b.Item? ==> b.page in Pagination.Window(currentPage, TotalPages())
      modifies this`currentPage
      ensures currentPage == Pagination.Click(b, old(currentPage), TotalPages())
    {
      currentPage := Pagination.Click(b, currentPage, TotalPages());
    }
  }
}
