/** The products table of the admin dashboard
    (`src/components/dashboard/ProductsManagement.jsx`). Its React state
    (`products`, `currentPage`, `total`, `sortBy`, `sortOrder`) is a class
    whose methods are the state updates; the remote response that
    `loadProducts` awaits is a parameter, and the request it sends is a
    result. A change of `currentPage`, `sortBy` or `sortOrder` makes React
    call `loadProducts` again: here that is a further call of `Load`. */
module ProductsManagement {
  import opened Js
  import opened Api
  import opened ProductSort
  import Pagination

  /** What `fetchProducts(limit, skip)` resolves to: `{products, total}`. */
  datatype ProductsResponse = ProductsResponse(products: seq<RemoteProduct>, total: Option<nat>)

  /** The `limit` and `skip` of a page request. */
  datatype PageRequest = PageRequest(limit: nat, skip: int)

  class ProductsTable {
    var products: seq<Product>
    var currentPage: int
    var total: nat
    var sortBy: Option<SortField>
    var sortOrder: SortOrder

    /** The initial `useState` values. */
    constructor ()
      ensures products == [] && currentPage == 1 && total == 0
      ensures sortBy == None && sortOrder == Asc
    {
      products := [];
      currentPage := 1;
      total := 0;
      sortBy := None;
      sortOrder := Asc;
    }

    function TotalPages(): nat
      reads this
    {
      Pagination.TotalPages(total)
    }

    function Sort(): SortState
      reads this
    {
      SortState(sortBy, sortOrder)
    }

    /** `loadProducts` with the response `fetchProducts` delivered: requests
        page `currentPage`, records the server's total (0 when it sends none)
        and shows the transformed products, sorted on `sortBy` when one is
        chosen and in the server's order otherwise. */
    method Load(response: ProductsResponse) returns (request: PageRequest)
      modifies this`products, this`total
      ensures request == PageRequest(Pagination.PageSize, Pagination.Skip(currentPage))
      ensures total == response.total.GetOr(0)
      ensures multiset(products) == multiset(TransformAll(response.products))
      ensures sortBy.None? ==> products == TransformAll(response.products)
      ensures sortBy.Some? ==> Sorted(products, sortBy.value, sortOrder)
    {
      request := PageRequest(Pagination.PageSize, Pagination.Skip(currentPage));
      total := response.total.GetOr(0);
      var list := TransformAll(response.products);
      if sortBy.Some? {
        var a := new Product[|list|](i requires 0 <= i < |list| => list[i]);
        assert a[..] == list;
        SortInPlace(a, sortBy.value, sortOrder);
        list := a[..];
      }
      products := list;
    }

    /** `handleSort(field)`, a click on a column header. */
    method HandleSort(field: SortField)
      modifies this`sortBy, this`sortOrder
      ensures Sort() == ProductSort.HandleSort(old(Sort()), field)
    {
      if sortBy == Some(field) {
        sortOrder := if sortOrder == Asc then Desc else Asc;
      } else {
        sortBy := Some(field);
        sortOrder := Asc;
      }
    }

    /** A click on one of the rendered pager buttons. */
    method Click(b: Pagination.PagerButton)
      requires b.Item? ==> b.page in Pagination.Window(currentPage, TotalPages())
      modifies this`currentPage
      ensures currentPage == Pagination.Click(b, old(currentPage), TotalPages())
    {
      currentPage := Pagination.Click(b, currentPage, TotalPages());
    }
  }
}
