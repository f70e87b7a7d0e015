/** The client-side sort of the products table
    (`src/components/dashboard/ProductsManagement.jsx`): the comparator
    handed to `productsList.sort`, the in-place sort itself and the
    `handleSort` transition of the (sortBy, sortOrder) pair. */
module ProductSort {
  import opened Js
  import opened Api

  /** The columns whose header calls `handleSort`. */
  datatype SortField = Title | Price | Rating | Stock

  datatype SortOrder = Asc | Desc

  /** The value the comparator compares: a number for price, rating and
      stock, a lower-cased string for any other field. */
  datatype SortKey = NumKey(n: real) | TextKey(s: string)

  /** `sortBy === 'price' || sortBy === 'rating' || sortBy === 'stock'`. */
  predicate IsNumeric(f: SortField) {
    f == Price || f == Rating || f == Stock
  }

  /** `Number(a[sortBy]) || 0`: an absent price or stock counts as 0, and on
      a transformed product the stock key is positive exactly when the
      product shows as in stock. */
  function NumericValue(p: Product, f: SortField): (v: real)
    requires IsNumeric(f)
    ensures (f == Price && p.price.None?) || (f == Stock && p.stock.None?) ==> v == 0.0
    ensures f == Stock && Consistent(p) ==> (v > 0.0 <==> p.inStock)
  {
    match f
    case Price => p.price.GetOr(0.0)
    case Rating => p.rating
    case Stock => p.stock.GetOr(0) as real
  }

  /** `a['title']`: a transformed product calls its title `name`, so it has
      no `title` property and the lookup is `undefined`. */
  function TitleProperty(p: Product): Option<string> {
    None
  }

  /** `String(v || '').toLowerCase()`. */
  function StringKey(v: Option<string>): (k: string)
    ensures v.None? ==> k == ""
    ensures v.Some? ==> k == Lower(v.value)
  {
    Lower(v.GetOr(""))
  }

  function Key(p: Product, f: SortField): (k: SortKey)
    ensures k.NumKey? <==> IsNumeric(f)
  {
    if IsNumeric(f) then NumKey(NumericValue(p, f)) else TextKey(StringKey(TitleProperty(p)))
  }

  /** JavaScript's `x < y` on two numbers or on two strings: irreflexive,
      never true between a number and a string, and one of two different
      keys of the same kind is always less than the other. */
  predicate Less(x: SortKey, y: SortKey): (b: bool)
    ensures b ==> x != y && (x.NumKey? <==> y.NumKey?)
    ensures x.NumKey? && y.NumKey? && x != y ==> b || y.n < x.n
    ensures x.TextKey? && y.TextKey? && x != y ==> b || StrLess(y.s, x.s)
  {
    match (x, y)
    case (NumKey(m), NumKey(n)) => m < n
    case (TextKey(s), TextKey(t)) =>
      StrLessIrreflexive(s);
      StrLessTotal(s, t);
      StrLess(s, t)
    case _ => false
  }

  /** The comparator: `aVal > bVal ? 1 : -1` ascending and
      `aVal < bVal ? 1 : -1` descending; 1 puts `a` after `b`. */
  function Compare(a: Product, b: Product, f: SortField, o: SortOrder): (c: int)
    ensures c == 1 || c == -1
  {
    var x, y := Key(a, f), Key(b, f);
    match o
    case Asc => if Less(y, x) then 1 else -1
    case Desc => if Less(x, y) then 1 else -1
  }

  /** No element has to move after a later one. */
  ghost predicate Sorted(s: seq<Product>, f: SortField, o: SortOrder) {
    forall i, j :: 0 <= i < j < |s| ==> Compare(s[i], s[j], f, o) < 0
  }

  /** If the comparator puts `a` after `b`, it never also puts `b` after `a`. */
  lemma CompareAsymmetric(a: Product, b: Product, f: SortField, o: SortOrder)
    ensures Compare(a, b, f, o) > 0 ==> Compare(b, a, f, o) < 0
  {
    if !IsNumeric(f) {
      StrLessAsymmetric(Key(a, f).s, Key(b, f).s);
    }
  }

  /** "Need not move after" is transitive: the comparator is a total preorder
      on the keys of one field. */
  lemma CompareTransitive(a: Product, b: Product, c: Product, f: SortField, o: SortOrder)
    requires Compare(a, b, f, o) < 0 && Compare(b, c, f, o) < 0
    ensures Compare(a, c, f, o) < 0
  {
    if !IsNumeric(f) {
      var x, y, z := Key(a, f).s, Key(b, f).s, Key(c, f).s;
      StrLessTotal(x, y);
      StrLessTotal(y, z);
      if o == Asc && StrLess(z, x) {
        if StrLess(x, y) { StrLessTransitive(z, x, y); }
      } else if o == Desc && StrLess(x, z) {
        if StrLess(z, y) { StrLessTransitive(x, z, y); }
      }
    }
  }

  /** After an ascending sort on price, rating or stock the numeric keys
      (absent values counted as 0) never decrease; after a descending one they
      never increase. */
  lemma SortedNumericKeys(s: seq<Product>, f: SortField, o: SortOrder, i: int, j: int)
    requires IsNumeric(f) && Sorted(s, f, o)
    requires 0 <= i < j < |s|
    ensures o == Asc ==> NumericValue(s[i], f) <= NumericValue(s[j], f)
    ensures o == Desc ==> NumericValue(s[i], f) >= NumericValue(s[j], f)
  {
    assert Compare(s[i], s[j], f, o) < 0;
  }

  /** Sorting by the title column compares empty strings only: every product
      has key `''`, so every order of the list counts as sorted. */
  lemma TitleSortComparesNothing(s: seq<Product>, o: SortOrder)
    ensures forall p :: Key(p, Title) == TextKey("")
    ensures Sorted(s, Title, o)
  {
    StrLessIrreflexive("");
  }

  /** Insertion-sort bookkeeping over `s[..i + 1]` while the element at `j`
      is being moved down: every pair not involving `j` is in order ... */
  ghost predicate InOrderExcept(s: seq<Product>, i: int, j: int, f: SortField, o: SortOrder)
    requires 0 <= j <= i < |s|
  {
    forall k, l :: 0 <= k < l <= i && k != j && l != j ==> Compare(s[k], s[l], f, o) < 0
  }

  /** ... and the element at `j` is in order with everything after it. */
  ghost predicate LeadsRest(s: seq<Product>, i: int, j: int, f: SortField, o: SortOrder)
    requires 0 <= j <= i < |s|
  {
    forall l :: j < l <= i ==> Compare(s[j], s[l], f, o) < 0
  }

  lemma StartInsert(s: seq<Product>, i: int, f: SortField, o: SortOrder)
    requires 0 <= i < |s| && Sorted(s[..i], f, o)
    ensures InOrderExcept(s, i, i, f, o) && LeadsRest(s, i, i, f, o)
  {
    forall k, l | 0 <= k < l <= i && k != i && l != i ensures Compare(s[k], s[l], f, o) < 0 {
      assert s[k] == s[..i][k] && s[l] == s[..i][l];
    }
  }

  /** Swapping the element at `j` with its predecessor, which the comparator
      puts after it, keeps the bookkeeping with `j - 1`. */
  lemma SwapDown(s: seq<Product>, i: int, j: int, f: SortField, o: SortOrder)
    requires 0 < j <= i < |s|
    requires InOrderExcept(s, i, j, f, o) && LeadsRest(s, i, j, f, o)
    requires Compare(s[j - 1], s[j], f, o) > 0
    ensures InOrderExcept(s[j - 1 := s[j]][j := s[j - 1]], i, j - 1, f, o)
    ensures LeadsRest(s[j - 1 := s[j]][j := s[j - 1]], i, j - 1, f, o)
  {
    CompareAsymmetric(s[j - 1], s[j], f, o);
  }

  /** Swapping two elements only reorders them. */
  lemma SwapPermutes(s: seq<Product>, j: int)
    requires 0 < j < |s|
    ensures multiset(s[j - 1 := s[j]][j := s[j - 1]]) == multiset(s)
  {
  }

  /** Once the moving element is in order with its predecessor, the prefix
      `s[..i + 1]` is sorted. */
  lemma FinishInsert(s: seq<Product>, i: int, j: int, f: SortField, o: SortOrder)
    requires 0 <= j <= i < |s|
    requires InOrderExcept(s, i, j, f, o) && LeadsRest(s, i, j, f, o)
    requires j == 0 || Compare(s[j - 1], s[j], f, o) < 0
    ensures Sorted(s[..i + 1], f, o)
  {
    forall k | 0 <= k < j ensures Compare(s[k], s[j], f, o) < 0 {
      if k < j - 1 {
        CompareTransitive(s[k], s[j - 1], s[j], f, o);
      }
    }
    var t := s[..i + 1];
    forall k, l | 0 <= k < l < |t| ensures Compare(t[k], t[l], f, o) < 0 {
      assert t[k] == s[k] && t[l] == s[l];
    }
  }

  /** `productsList.sort(comparator)` for a non-empty `sortBy`: reorders the
      array so that it is sorted under the comparator. The order among equal
      keys is not specified. */
  method SortInPlace(a: array<Product>, f: SortField, o: SortOrder)
    modifies a
    ensures Sorted(a[..], f, o)
    ensures multiset(a[..]) == multiset(old(a[..]))
  {
    var i := 0;
    while i < a.Length
      invariant 0 <= i <= a.Length
      invariant Sorted(a[..i], f, o)
      invariant multiset(a[..]) == multiset(old(a[..]))
    {
      InsertNext(a, i, f, o);
      i := i + 1;
    }
    assert a[..] == a[..a.Length];
  }

  /** One insertion step: moves `a[i]` down into the sorted prefix `a[..i]`. */
  method InsertNext(a: array<Product>, i: int, f: SortField, o: SortOrder)
    requires 0 <= i < a.Length && Sorted(a[..i], f, o)
    modifies a
    ensures Sorted(a[..i + 1], f, o)
    ensures multiset(a[..]) == multiset(old(a[..]))
  {
    ghost var input := a[..];
    StartInsert(input, i, f, o);
    var j := i;
    while j > 0 && Compare(a[j - 1], a[j], f, o) > 0
      invariant 0 <= j <= i
      invariant InOrderExcept(a[..], i, j, f, o) && LeadsRest(a[..], i, j, f, o)
      invariant multiset(a[..]) == multiset(input)
    {
      ghost var s := a[..];
      SwapDown(s, i, j, f, o);
      SwapPermutes(s, j);
      a[j - 1], a[j] := a[j], a[j - 1];
      assert a[..] == s[j - 1 := s[j]][j := s[j - 1]];
      j := j - 1;
    }
    FinishInsert(a[..], i, j, f, o);
  }

  // ---------------------------------------------------------------------------
  // Column header clicks

  /** The `sortBy` / `sortOrder` state; `None` is the initial `''`. */
  datatype SortState = SortState(sortBy: Option<SortField>, sortOrder: SortOrder)

  /** `handleSort(field)`. */
  function HandleSort(s: SortState, field: SortField): (t: SortState)
    ensures t.sortBy == Some(field)
    ensures s.sortBy == Some(field) ==> t.sortOrder != s.sortOrder
    ensures s.sortBy != Some(field) ==> t.sortOrder == Asc
  {
    if s.sortBy == Some(field) then
      SortState(s.sortBy, if s.sortOrder == Asc then Desc else Asc)
    else
      SortState(Some(field), Asc)
  }

  /** Two clicks on the column already sorted on restore the original state;
      on a new column the first click sorts ascending and the second
      descending. */
  lemma HandleSortTwice(s: SortState, field: SortField)
    ensures s.sortBy == Some(field) ==> HandleSort(HandleSort(s, field), field) == s
    ensures s.sortBy != Some(field) ==> HandleSort(HandleSort(s, field), field) == SortState(Some(field), Desc)
  {
  }
}
