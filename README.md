# Storefront admin tables and catalogue filter, in Dafny

This project models the deterministic rules of a React storefront that is backed by a remote
demo product API. It covers these parts:

- **Admin-table pagination.** The products, carts and users tables all page the same way:
  a page holds 10 rows, page `p` asks for offset `(p-1)*10`, and there are `ceil(total/10)`
  pages. A row of at most five numbered buttons starts two pages before the current one.
  First / Prev / Next / Last buttons clamp the page. Module `Pagination` states this once,
  and every table class uses it.
- **Sorting in the products table.** The comparator handed to `productsList.sort`
  compares numbers for price, rating and stock, and lower-cased strings for anything else.
  An absent value counts as 0 or `''`. Module `ProductSort` sorts an array in place with an
  insertion sort. It proves the result is sorted under that comparator and is a permutation
  of the input. It also models the `handleSort` transition of the (sortBy, sortOrder) pair.
- **The table state.** Modules `ProductsManagement`, `CartsManagement` and `UsersManagement`
  each hold one class. Its fields are the component's React state (`products`/`carts`/`users`,
  `total`, `currentPage`, and `sortBy`/`sortOrder`, `userIdFilter` or `searchTerm`). Its
  methods are the handlers and loaders. A loader takes the remote response as a parameter,
  returns the request it sent, and states the new state. `CartsManagement` also holds the cart
  total (a left fold of price × quantity) and the item-count cell.
- **The storefront listing** (`Storefront`). It filters products by category and by a
  case-insensitive search over name and description, keeping their order. It also builds the
  category drop-down: `'All'`, then each category once, in order of first occurrence.
- **Record normalisation** (`Api`). `transformProduct` maps a remote product to the page
  shape, deriving `inStock` and `originalPrice` and choosing the image. The category-list
  normalisation maps category objects to `name || slug || itself`.
- **JavaScript built-ins** (`Js`): `undefined` as `Option`, `toLowerCase`, `trim`,
  `includes`, and the `<` order on strings.

Some of the code's behaviour differs from what a reader might expect. The model follows the
code and proves these behaviours as lemmas:

- With no rows (`total` 0) there are 0 pages. On page 1, Next and Last stay enabled and select
  page 0, which asks for offset -10 (`Pagination.EmptyTableLeavesRange`).
- The button window is `min(5, totalPages)` long and starts at `currentPage - 2`. So the
  current page has a button only when there are at least three pages. With two pages on page 2
  only button 1 shows (`Pagination.CurrentPageShown`).
- Sorting by the Title column reads `title`, but transformed products call that field `name`.
  Every key is therefore `''` and any order counts as sorted (`ProductSort.TitleSortComparesNothing`).
- The users table tests the trimmed term to decide whether to search, but tests the term as
  typed to decide whether to show the pager. A term of blanks therefore loads a page but hides
  the pager (`UsersManagement.BlankTermHidesPager`).

The comparator treats price, rating and stock as numbers and everything else as lower-cased
strings. On equal keys it returns -1 in both directions, so the order of ties is left
unspecified.

## Model

| member | source | states |
|---|---|---|
| `Pagination.Skip` | src/components/dashboard/ProductsManagement.jsx:36-37 | the offset of page `p` is a whole number of pages, `p-1` of them, and is non-negative exactly for pages from 1 |
| `Pagination.SkipPartitionsItems` | src/components/dashboard/ProductsManagement.jsx:36-37 | page `p` asks for offset `(p-1)*10`; its 10 rows are the indices `[skip, skip+10)` and every row index lies on exactly one page |
| `Pagination.TotalPages` | src/components/dashboard/ProductsManagement.jsx:148 | `ceil(total/10)`: the least page count `n` with `10n >= total` |
| `Pagination.ItemsLieOnExistingPages` | src/components/dashboard/ProductsManagement.jsx:148 | every row lies on a page in `[1, totalPages]` and the last page is not empty |
| `Pagination.WindowFrom` | src/components/dashboard/ProductsManagement.jsx:229-241 | buttons `i..n-1` of the window: consecutive pages, exactly those of `[current-2+i, current-2+n)` inside `[1, totalPages]` |
| `Pagination.Window` | src/components/dashboard/ProductsManagement.jsx:229-241 | at most `min(5, totalPages)` numbered buttons, each for a page in `[1, totalPages]` |
| `Pagination.WindowShape` | src/components/dashboard/ProductsManagement.jsx:229-241 | at most `min(5,totalPages)` buttons, strictly increasing and consecutive, each in `[1,totalPages]` and `[current-2, current+2]`, and exactly the existing pages of `[current-2, current-2+min(5,totalPages))` |
| `Pagination.CurrentPageShown` | src/components/dashboard/ProductsManagement.jsx:229-241 | the current page has a button iff it exists and there are at least 3 pages; window(2,2) is `[1]`, window(1,1) is empty |
| `Pagination.PrevNextClamp` | src/components/dashboard/ProductsManagement.jsx:225-245 | Prev never goes below 1, steps back by one when it can and otherwise gives exactly 1; Next never passes `totalPages`, steps forward by one when it can and otherwise gives exactly `totalPages` |
| `Pagination.ClickKeepsPageInRange` | src/components/dashboard/ProductsManagement.jsx:220-250 | from an existing page every rendered button (First, Prev, a page, Next, Last) leads to an existing page |
| `Pagination.Click` | src/components/dashboard/ProductsManagement.jsx:220-250 | First selects page 1, Last selects `totalPages`, a numbered button its own page; from an existing page First/Prev/Next/Last select an existing page; First and Prev never move forward, Next and Last never move back |
| `Pagination.Disabled` | src/components/dashboard/ProductsManagement.jsx:221-249 | a numbered button is never disabled; First, Prev, Next and Last are disabled exactly when a click on them would leave the page unchanged |
| `Pagination.EmptyTableLeavesRange` | src/components/dashboard/ProductsManagement.jsx:242-249 | with total 0, Next and Last are enabled on page 1 and select page 0, offset -10 |
| `Api.Transform` | src/services/api.js:111-127 | `inStock` iff stock > 0; `originalPrice >= price` for a non-negative price; `name` is `title`; id, description, price, category, stock, brand, discount copied; image is `images[0]` when there are images, else `thumbnail`; rating defaults to 0; images default to `[]` |
| `Api.OriginalPriceIsTwentyPercentMore` | src/services/api.js:117 | `originalPrice` is the price plus a fifth of it |
| `Api.TransformAll` | src/components/dashboard/ProductsManagement.jsx:40 | the mapped list has one transformed product per remote product, in order |
| `Api.CategoryName` | src/services/api.js:96 | a category maps to its truthy `name`, else its truthy `slug`, else itself; `null` throws |
| `Api.CategoryNames` | src/services/api.js:96 | the map throws iff some element is `null`; otherwise it keeps the length and maps each element by `CategoryName` |
| `Api.NormalizeCategories` | src/services/api.js:94-99 | a non-empty array whose first element has `typeof 'object'` is mapped element by element; any other response is returned unchanged |
| `Api.NamedCategoriesNormalise` | src/services/api.js:92-99 | a non-empty list of named category objects becomes the list of their names, and normalising that again changes nothing |
| `ProductSort.NumericValue` | src/components/dashboard/ProductsManagement.jsx:48-50 | an absent price or stock counts as 0; on a transformed product the stock key is positive exactly when the product is in stock |
| `ProductSort.StringKey` | src/components/dashboard/ProductsManagement.jsx:52-53 | a missing value gives key `''`, a string its lower-cased form |
| `ProductSort.Key` | src/components/dashboard/ProductsManagement.jsx:45-54 | the key is numeric exactly for price, rating and stock |
| `ProductSort.Less` | src/components/dashboard/ProductsManagement.jsx:57-59 | `<` on two keys: irreflexive, never true between a number and a string, and of two different keys of one kind one is less than the other |
| `ProductSort.Compare` | src/components/dashboard/ProductsManagement.jsx:56-60 | the comparator answers only 1 or -1 |
| `ProductSort.CompareAsymmetric` | src/components/dashboard/ProductsManagement.jsx:56-60 | when the comparator puts `a` after `b` it never also puts `b` after `a` |
| `ProductSort.CompareTransitive` | src/components/dashboard/ProductsManagement.jsx:56-60 | "need not move after" is transitive on the keys of one field, strings included |
| `ProductSort.SortedNumericKeys` | src/components/dashboard/ProductsManagement.jsx:48-60 | after an ascending sort on price, rating or stock the keys, with absent values as 0, never decrease; descending, never increase |
| `ProductSort.TitleSortComparesNothing` | src/components/dashboard/ProductsManagement.jsx:45-53 | every transformed product has title key `''`, so every order is sorted by title |
| `ProductSort.SortInPlace` | src/components/dashboard/ProductsManagement.jsx:43-61 | the array ends sorted under the comparator and is a permutation of what it held |
| `ProductSort.InsertNext` | src/components/dashboard/ProductsManagement.jsx:44-61 | one insertion step extends the sorted prefix by one element and only reorders |
| `ProductSort.HandleSort` | src/components/dashboard/ProductsManagement.jsx:73-80 | the clicked field becomes `sortBy`; the order flips on the same field and is `asc` on a new one |
| `ProductSort.HandleSortTwice` | src/components/dashboard/ProductsManagement.jsx:73-80 | two clicks on the sorted column restore the state; on a new column they give descending |
| `ProductsManagement.ProductsTable.constructor` | src/components/dashboard/ProductsManagement.jsx:22-25 | the initial state: page 1, total 0, no sort field, ascending |
| `ProductsManagement.ProductsTable.Load` | src/components/dashboard/ProductsManagement.jsx:36-64 | requests limit 10 and offset `(page-1)*10`; total is the server's or 0; products are a permutation of the transformed list, sorted when `sortBy` is set and in server order otherwise |
| `ProductsManagement.ProductsTable.HandleSort` | src/components/dashboard/ProductsManagement.jsx:73-80 | the sort state moves by `ProductSort.HandleSort` |
| `ProductsManagement.ProductsTable.Click` | src/components/dashboard/ProductsManagement.jsx:220-250 | a rendered pager button sets the page by `Pagination.Click` |
| `CartsManagement.ReduceIsSum` | src/components/dashboard/CartsManagement.jsx:67-69 | the left fold from `acc` equals `acc` plus each line's price × quantity, once per line |
| `CartsManagement.CalculateTotal` | src/components/dashboard/CartsManagement.jsx:65-70 | 0 for a cart without `products`, else the sum of the line amounts |
| `CartsManagement.TotalAddsLine` | src/components/dashboard/CartsManagement.jsx:65-70 | appending a line raises the cart total by exactly that line's amount |
| `CartsManagement.LinesSumAppend` | src/components/dashboard/CartsManagement.jsx:67-69 | the sum of lines with one more at the end adds that line's amount |
| `CartsManagement.TotalNonNegative` | src/components/dashboard/CartsManagement.jsx:65-70 | non-negative prices and quantities give a non-negative total |
| `CartsManagement.ItemCount` | src/components/dashboard/CartsManagement.jsx:126 | `totalProducts` when non-zero, else the number of lines, else 0 |
| `CartsManagement.RequestFor` | src/components/dashboard/CartsManagement.jsx:26-32 | a non-empty user filter asks for that user's carts; otherwise limit 10 and offset `(page-1)*10` |
| `CartsManagement.TotalFor` | src/components/dashboard/CartsManagement.jsx:26-35 | under a filter `total` is the number of carts returned (`[]` when absent); otherwise the server's total or 0 |
| `CartsManagement.FilterIgnoresPage` | src/components/dashboard/CartsManagement.jsx:26-35 | under a user filter every page sends the same request for that user's carts, and the total is the number of carts it returned |
| `CartsManagement.CartsTable.constructor` | src/components/dashboard/CartsManagement.jsx:6-13 | the initial state: no carts, page 1, total 0, no filter |
| `CartsManagement.CartsTable.PaginationShown` | src/components/dashboard/CartsManagement.jsx:150 | the pager is shown exactly while the table holds a page of all carts (no user filter) |
| `CartsManagement.CartsTable.Load` | src/components/dashboard/CartsManagement.jsx:26-35 | sends `RequestFor(filter, page)`, sets `carts` to the returned carts or `[]` and `total` by `TotalFor` |
| `CartsManagement.CartsTable.SetUserIdFilter` | src/components/dashboard/CartsManagement.jsx:83-86 | typing a filter stores it and resets the page to 1 |
| `CartsManagement.CartsTable.ClearFilter` | src/components/dashboard/CartsManagement.jsx:90-93 | clearing empties the filter and resets the page to 1; the pager shows and the next load asks for offset 0 |
| `CartsManagement.CartsTable.Click` | src/components/dashboard/CartsManagement.jsx:150-181 | only while no filter is set, a rendered pager button sets the page by `Pagination.Click` |
| `UsersManagement.RequestFor` | src/components/dashboard/UsersManagement.jsx:16-40 | a search sends the term as typed; a paged load asks for limit 10 and offset `(page-1)*10` |
| `UsersManagement.PagerShown` | src/components/dashboard/UsersManagement.jsx:137 | whenever the pager is shown, every page loads a page of all users rather than a search |
| `UsersManagement.SearchIffNonBlank` | src/components/dashboard/UsersManagement.jsx:17-21 | a search is sent iff the term holds a non-blank character |
| `UsersManagement.BlankTermHidesPager` | src/components/dashboard/UsersManagement.jsx:137 | a blank, non-empty term loads a page of all users yet hides the pager |
| `UsersManagement.UsersTable.constructor` | src/components/dashboard/UsersManagement.jsx:6-13 | the initial state: no users, page 1, total 0, empty term |
| `UsersManagement.UsersTable.SetSearchTerm` | src/components/dashboard/UsersManagement.jsx:87 | typing stores the term |
| `UsersManagement.UsersTable.Load` | src/components/dashboard/UsersManagement.jsx:35-65 | sends `RequestFor(term, page)`; users are the returned ones or `[]`, total the server's or 0; a search resets the page to 1 and a paged load keeps it |
| `UsersManagement.UsersTable.Click` | src/components/dashboard/UsersManagement.jsx:137-168 | only for an empty term, a rendered pager button sets the page by `Pagination.Click` |
| `Storefront.MatchesCategory` | src/pages/Products.jsx:13-14 | `''` and `'All'` match every product; any other value exactly the products of that category |
| `Storefront.MatchesSearch` | src/pages/Products.jsx:15-17 | a search term longer than both the name and the description never matches |
| `Storefront.MatchesSearchIffOccurs` | src/pages/Products.jsx:15-17 | a product matches the search exactly when the lower-cased term occurs at some position of the lower-cased name or of the lower-cased description |
| `Storefront.Filter` | src/pages/Products.jsx:12-19 | every product kept matches both the category and the search |
| `Storefront.FilterCounts` | src/pages/Products.jsx:12-19 | a matching product is kept as often as it occurs, any other not at all |
| `Storefront.FilterConcat` | src/pages/Products.jsx:12 | filtering a joined list is joining the filtered parts, so the order is kept |
| `Storefront.FilterIdempotent` | src/pages/Products.jsx:12-19 | filtering a filtered list again changes nothing |
| `Storefront.EmptyTermMatches` | src/pages/Products.jsx:15-17 | the empty search term matches every product |
| `Storefront.NoCriteriaKeepsAll` | src/pages/Products.jsx:12-19 | with category `''` and term `''` the list is unchanged |
| `Storefront.SearchIgnoresCase` | src/pages/Products.jsx:15-17 | the search gives the same answer with the term or the texts lower-cased |
| `Storefront.Distinct` | src/pages/Products.jsx:10 | `[...new Set(xs)]`: the same values as `xs`, each once, in first-occurrence order |
| `Storefront.CategoryColumn` | src/pages/Products.jsx:10 | one category per product, in product order |
| `Storefront.Categories` | src/pages/Products.jsx:10 | the list is `'All'` followed by the distinct categories of the products |
| `Storefront.CategoriesListEachOnce` | src/pages/Products.jsx:10 | after `'All'` each product category appears exactly once, nothing else appears, and the categories come in the order they first occur among the products |
| `Storefront.OptionValue` | src/pages/Products.jsx:53 | the option `'All'` stores `''`, any other its own name |
| `Storefront.ChoosingAnOption` | src/pages/Products.jsx:13-14 | choosing `'All'` leaves only the search; any other option requires exact, case-sensitive category equality |
| `Js.Lower` | src/pages/Products.jsx:16-17 | `toLowerCase`: the same length, each ASCII capital replaced by its small letter and every other character kept |
| `Js.IncludesPrefixesOnly` | src/pages/Products.jsx:16-17 | `includes`: every prefix of a string is included in it, and nothing longer than it is |
| `Js.IncludesIffOccurs` | src/pages/Products.jsx:16-17 | `includes` holds iff the term occurs at some position |
| `Js.Trim` | src/components/dashboard/UsersManagement.jsx:17 | `trim()` is never longer than the string and leaves a string without white space at either end unchanged |
| `Js.TrimEmptyIffAllSpace` | src/components/dashboard/UsersManagement.jsx:17 | `trim()` is empty iff every character is white space |
| `Js.TrimShape` | src/components/dashboard/UsersManagement.jsx:17 | `trim()` is a piece of the string that neither starts nor ends with white space, and everything cut off before and after it is white space |
| `Js.StrLessIrreflexive` | src/components/dashboard/ProductsManagement.jsx:57-59 | `<` on strings is never true of a string and itself |
| `Js.StrLessPrefix` | src/components/dashboard/ProductsManagement.jsx:57-59 | a proper prefix is less than the string it begins |
| `Js.StrLessTransitive` | src/components/dashboard/ProductsManagement.jsx:57-59 | `<` on strings is transitive |
| `Js.StrLessTotal` | src/components/dashboard/ProductsManagement.jsx:57-59 | two different strings are ordered one way or the other |

## Left out

- HTTP requests, JSON parsing, `response.ok` checks, `console.error`, and the `try/catch/finally`
  loading and error flags. These are I/O against the remote service. A remote response is a
  parameter of the loader that awaited it, and the error path is not modelled. One consequence:
  when `data.products` is missing, `loadProducts` sets `total` and then throws; the model has no
  such state.
- `CartsManagement.CartsTable.Load` and `UsersManagement.UsersTable.Load`: the fetchers they
  await (`fetchAllCarts`, `fetchCartsByUser`, `fetchAllUsers`, `searchUsers`) are imported from
  `src/services/api.js`, which defines none of them. Its only exports are `fetchProducts`,
  `fetchProductById`, `fetchProductsByCategory`, `searchProducts`, `fetchCategories` and
  `transformProduct`. The same holds for `addProduct`, `updateProduct` and `deleteProduct`
  imported by the products table. The model assumes each fetcher resolves to a value carrying
  the fields the loader reads (`carts`/`users` and `total`), and it takes that value as a
  parameter. In the program as given, a missing import is either `undefined` or a module load
  failure. If it is `undefined`, every `loadCarts`, `loadUsers` and `performSearch` ends in its
  `catch` branch: the error message is set and `carts`/`users`/`total` keep their old values. If
  the module fails to load, the components never render.
- Timers and asynchrony. The 500 ms debounce of the users search and its cancellation are not
  modelled, nor is the order in which responses arrive. Each `Load` applies the response to
  the request it sent.
- React's re-running of effects: a state change triggers a new load. When the page was not
  already 1, `performSearch` setting page 1 triggers a second search. The model shows each
  effect run as one `Load` call.
- `UsersManagement.UsersTable.SetSearchTerm`: stores the term only; the effect that follows is
  a separate `Load` call.
- `ProductSort.SortInPlace`: the JavaScript engine's own sort algorithm and its tie order. The
  model sorts by insertion, so only sortedness and the permutation property are claimed.
- `Js.StrLess`: orders strings by code point, while JavaScript's `<` compares UTF-16 code units;
  the two differ when a character above U+FFFF meets one from U+E000 to U+FFFF. Strings here
  are sequences of Unicode scalar values, so code units are not modelled. The only string key
  the products sort compares is the title key, which is always `''`.
- `Js.Lower`: maps ASCII letters only; Unicode case mapping is not modelled.
- `Js.IsSpace`: lists the common white-space and line terminators (space, tab, LF, CR, VT, FF,
  NBSP, LS, PS, BOM); other Unicode space separators are not modelled.
- Numbers are mathematical reals: no IEEE rounding, no `toFixed`, no `NaN`. An absent price
  times 1.2 (`NaN` in JavaScript) is an absent `originalPrice`. Numeric fields hold numbers or
  are absent; numeric strings are not parsed by `Number`.
- Server totals are non-negative counts (`nat`). A total of -10 or less would make
  `Array(n)` throw; from -9 to -1 the pager would show no numbered buttons.
- The product editor (`handleAdd`, `handleEdit`, `handleDelete`, `handleSubmit`, with
  `parseFloat`/`parseInt` and `window.confirm`), the detail modals (`handleView`), the
  cart/checkout pages, the auth context, the dashboard's `Promise.all`, and every
  rendering-only page and component. These are host-library parsing, UI, or code that depends
  on modules this model does not include (`src/data/products`, `CartContext`).
- The catalogue that the storefront listing filters (`src/data/products`) is not part of this
  model. `Storefront.Item` holds only the fields the page reads.
