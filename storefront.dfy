/** The product listing page of the storefront (`src/pages/Products.jsx`):
    the category drop-down built from the products, and the list filtered by
    the chosen category and the search box. Everything here is derived from
    the two state values `selectedCategory` and `searchTerm`; nothing is
    changed in place. */
module Storefront {
  import opened Js

  /** A product of the static catalogue the page lists: the fields it reads. */
  datatype Item = Item(id: int, name: string, description: string, category: string)

  // ---------------------------------------------------------------------------
  // Filtering

  /** `''` and `'All'` match every product; any other value only the products
      of exactly that category. */
  predicate MatchesCategory(selected: string, p: Item): (b: bool)
    ensures selected == "" || selected == "All" ==> b
    ensures selected != "" && selected != "All" ==> (b <==> p.category == selected)
  {
    selected == "" || selected == "All" || p.category == selected
  }

  /** The search term, lower-cased, is included in the lower-cased name or
      description; a term longer than both never matches. */
  predicate MatchesSearch(term: string, p: Item): (b: bool)
    ensures b ==> |term| <= |p.name| || |term| <= |p.description|
  {
    IncludesPrefixesOnly(Lower(p.name), Lower(term));
    IncludesPrefixesOnly(Lower(p.description), Lower(term));
    Includes(Lower(p.name), Lower(term)) || Includes(Lower(p.description), Lower(term))
  }

  /** A product matches the search exactly when the lower-cased term occurs
      at some position of its lower-cased name or description. */
  lemma MatchesSearchIffOccurs(term: string, p: Item)
    ensures MatchesSearch(term, p) <==> (exists i :: OccursAt(Lower(p.name), Lower(term), i))
                                        || (exists i :: OccursAt(Lower(p.description), Lower(term), i))
  {
    IncludesIffOccurs(Lower(p.name), Lower(term));
    IncludesIffOccurs(Lower(p.description), Lower(term));
  }

  predicate Matches(selected: string, term: string, p: Item) {
    MatchesCategory(selected, p) && MatchesSearch(term, p)
  }

  /** `filteredProducts`: `products.filter(...)`. Every product kept
      matches; `FilterCounts` shows that every matching one is kept. */
  function Filter(products: seq<Item>, selected: string, term: string): (r: seq<Item>)
    ensures |r| <= |products|
    ensures forall i :: 0 <= i < |r| ==> Matches(selected, term, r[i])
  {
    if products == [] then []
    else
      var rest := Filter(products[1..], selected, term);
      assert products == [products[0]] + products[1..];
      if Matches(selected, term, products[0]) then [products[0]] + rest else rest
  }

  /** Each matching product is kept as often as it occurs, and no other
      product is kept at all. */
  lemma {:induction false} FilterCounts(products: seq<Item>, selected: string, term: string, x: Item)
    ensures multiset(Filter(products, selected, term))[x] ==
      if Matches(selected, term, x) then multiset(products)[x] else 0
  {
    if products != [] {
      FilterCounts(products[1..], selected, term, x);
      assert products == [products[0]] + products[1..];
    }
  }

  /** The filter keeps the relative order: filtering two lists one after the
      other is filtering each and joining the results. */
  lemma {:induction false} FilterConcat(xs: seq<Item>, ys: seq<Item>, selected: string, term: string)
    ensures Filter(xs + ys, selected, term) == Filter(xs, selected, term) + Filter(ys, selected, term)
  {
    if xs == [] {
      assert xs + ys == ys;
    } else {
      var head := if Matches(selected, term, xs[0]) then [xs[0]] else [];
      var left, right := Filter(xs[1..], selected, term), Filter(ys, selected, term);
      assert Filter(xs + ys, selected, term) == head + (left + right) by {
        assert (xs + ys)[0] == xs[0] && (xs + ys)[1..] == xs[1..] + ys;
        FilterHead(xs + ys, selected, term);
        FilterConcat(xs[1..], ys, selected, term);
      }
      assert Filter(xs, selected, term) == head + left by {
        FilterHead(xs, selected, term);
      }
      assert head + (left + right) == (head + left) + right;
    }
  }

  /** The first product is kept or dropped, and the rest is filtered. */
  lemma FilterHead(products: seq<Item>, selected: string, term: string)
    requires products != []
    ensures Filter(products, selected, term) ==
      (if Matches(selected, term, products[0]) then [products[0]] else []) + Filter(products[1..], selected, term)
  {
  }

  /** Filtering a filtered list again changes nothing. */
  lemma {:induction false} FilterIdempotent(products: seq<Item>, selected: string, term: string)
    ensures Filter(Filter(products, selected, term), selected, term) == Filter(products, selected, term)
  {
    if products != [] {
      FilterIdempotent(products[1..], selected, term);
      var rest := Filter(products[1..], selected, term);
      if Matches(selected, term, products[0]) {
        assert ([products[0]] + rest)[1..] == rest;
      }
    }
  }

  /** The empty search term matches every product. */
  lemma EmptyTermMatches(p: Item)
    ensures MatchesSearch("", p)
  {
    IncludesEmpty(Lower(p.name));
  }

  /** With no category and no search term the list is shown unchanged. */
  lemma {:induction false} NoCriteriaKeepsAll(products: seq<Item>)
    ensures Filter(products, "", "") == products
  {
    if products != [] {
      EmptyTermMatches(products[0]);
      NoCriteriaKeepsAll(products[1..]);
    }
  }

  /** The search ignores letter case on both sides. */
  lemma SearchIgnoresCase(term: string, p: Item)
    ensures MatchesSearch(term, p) == MatchesSearch(Lower(term), p)
    ensures MatchesSearch(term, p) == MatchesSearch(term, p.(name := Lower(p.name), description := Lower(p.description)))
  {
    LowerIdempotent(term);
    LowerIdempotent(p.name);
    LowerIdempotent(p.description);
  }

  // ---------------------------------------------------------------------------
  // The category drop-down

  /** The index of the first occurrence of `x` in `xs`. */
  function FirstIndex(xs: seq<string>, x: string): (k: nat)
    requires x in xs
    ensures k < |xs| && xs[k] == x && x !in xs[..k]
  {
    if xs[0] == x then 0
    else
      assert x in xs[1..] by { assert xs == [xs[0]] + xs[1..]; }
      var k := FirstIndex(xs[1..], x);
      assert xs[..k + 1] == [xs[0]] + xs[1..][..k];
      k + 1
  }

  lemma FirstIndexUnique(xs: seq<string>, x: string, k: nat)
    requires k < |xs| && xs[k] == x && x !in xs[..k]
    ensures FirstIndex(xs, x) == k
  {
  }

  /** `[...new Set(xs)]`: every value once, in the order of first occurrence. */
  function Distinct(xs: seq<string>): (r: seq<string>)
    ensures forall x :: x in r <==> x in xs
    ensures forall i, j :: 0 <= i < j < |r| ==> r[i] != r[j]
    ensures forall i, j :: 0 <= i < j < |r| ==> FirstIndex(xs, r[i]) < FirstIndex(xs, r[j])
  {
    if xs == [] then []
    else
      var n := |xs|;
      var init := xs[..n - 1];
      var last := xs[n - 1];
      var r := Distinct(init);
      assert xs == init + [last];
      FirstIndexOfInit(xs, r);
      if last in r then r
      else
        assert FirstIndex(xs, last) == n - 1 by {
          FirstIndexUnique(xs, last, n - 1);
        }
        r + [last]
  }

  /** For values that occur in `xs` without its last element, the first
      occurrence lies in that prefix. */
  lemma FirstIndexOfInit(xs: seq<string>, r: seq<string>)
    requires |xs| > 0
    requires forall x :: x in r ==> x in xs[..|xs| - 1]
    ensures forall x :: x in r ==> x in xs && FirstIndex(xs, x) == FirstIndex(xs[..|xs| - 1], x) < |xs| - 1
  {
    var init := xs[..|xs| - 1];
    forall x | x in r ensures x in xs && FirstIndex(xs, x) == FirstIndex(init, x) < |xs| - 1 {
      var k := FirstIndex(init, x);
      assert xs[..k] == init[..k];
      FirstIndexUnique(xs, x, k);
    }
  }

  /** The category of each product, in order (`products.map((p) => p.category)`). */
  function CategoryColumn(products: seq<Item>): (cats: seq<string>)
    ensures |cats| == |products|
    ensures forall i :: 0 <= i < |products| ==> cats[i] == products[i].category
  {
    seq(|products|, i requires 0 <= i < |products| => products[i].category)
  }

  /** `['All', ...new Set(products.map((p) => p.category))]`. */
  function Categories(products: seq<Item>): (r: seq<string>)
    ensures |r| >= 1 && r[0] == "All"
    ensures r[1..] == Distinct(CategoryColumn(products))
  {
    ["All"] + Distinct(CategoryColumn(products))
  }

  /** After `'All'` the drop-down lists the category of every product exactly
      once and nothing else, in the order the categories first occur. */
  lemma CategoriesListEachOnce(products: seq<Item>)
    ensures forall p :: p in products ==> p.category in Categories(products)[1..]
    ensures forall c :: c in Categories(products)[1..] ==> exists p :: p in products && p.category == c
    ensures forall i, j :: 1 <= i < j < |Categories(products)| ==> Categories(products)[i] != Categories(products)[j]
    ensures forall i, j :: 1 <= i < j < |Categories(products)| ==>
      Categories(products)[i] in CategoryColumn(products) && Categories(products)[j] in CategoryColumn(products) &&
      FirstIndex(CategoryColumn(products), Categories(products)[i]) < FirstIndex(CategoryColumn(products), Categories(products)[j])
  {
    var cats := CategoryColumn(products);
    forall p | p in products ensures p.category in cats {
      var i :| 0 <= i < |products| && products[i] == p;
      assert cats[i] == p.category;
    }
    forall c | c in Distinct(cats) ensures exists p :: p in products && p.category == c {
      var i :| 0 <= i < |cats| && cats[i] == c;
      assert products[i] in products;
    }
  }

  /** The `value` of a drop-down option: `'All'` is stored as `''`. */
  function OptionValue(category: string): (v: string)
    ensures category == "All" ==> v == ""
    ensures category != "All" ==> v == category
  {
    if category == "All" then "" else category
  }

  /** Choosing `'All'` shows every product the search admits; choosing any
      other listed category shows exactly the products of that category that
      the search admits. */
  lemma ChoosingAnOption(products: seq<Item>, category: string, term: string, p: Item)
    ensures category == "All" ==> (Matches(OptionValue(category), term, p) <==> MatchesSearch(term, p))
    ensures category != "All" && category != "" ==>
      (Matches(OptionValue(category), term, p) <==> p.category == category && MatchesSearch(term, p))
  {
  }
}
