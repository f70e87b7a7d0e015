/** The pure parts of the service layer (`src/services/api.js`): the mapping
    from a remote product record to the shape the pages use, and the
    normalisation of the remote category list. The HTTP requests around them
    are not modelled. */
module Api {
  import opened Js

  // ---------------------------------------------------------------------------
  // Products

  /** A product as the remote demo API sends it; every property may be absent. */
  datatype RemoteProduct = RemoteProduct(
    id: int,
    title: Option<string>,
    description: Option<string>,
    price: Option<real>,
    discountPercentage: Option<real>,
    rating: Option<real>,
    stock: Option<int>,
    brand: Option<string>,
    category: Option<string>,
    thumbnail: Option<string>,
    images: Option<seq<string>>)

  /** A product in the application's shape. `originalPrice` is `None` where
      JavaScript computes `NaN` (an absent price times 1.2). */
  datatype Product = Product(
    id: int,
    name: Option<string>,
    description: Option<string>,
    price: Option<real>,
    originalPrice: Option<real>,
    image: Option<string>,
    category: Option<string>,
    rating: real,
    inStock: bool,
    stock: Option<int>,
    brand: Option<string>,
    discountPercentage: Option<real>,
    images: seq<string>)

  /** The two derived fields agree with the fields they are derived from:
      a product is in stock exactly when its stock is positive, and a
      non-negative price never exceeds the original price shown beside it. */
  ghost predicate Consistent(p: Product) {
    && (p.inStock <==> p.stock.Some? && p.stock.value > 0)
    && (p.price.Some? && p.price.value >= 0.0 ==>
          p.originalPrice.Some? && p.originalPrice.value >= p.price.value)
  }

  /** `transformProduct`. */
  function Transform(p: RemoteProduct): (r: Product)
    ensures Consistent(r)
    ensures r.id == p.id && r.name == p.title && r.description == p.description
    ensures r.price == p.price && r.category == p.category && r.stock == p.stock
    ensures r.brand == p.brand && r.discountPercentage == p.discountPercentage
    ensures r.images == p.images.GetOr([])
    ensures r.images != [] ==> r.image == Some(r.images[0])
    ensures r.images == [] ==> r.image == p.thumbnail
    ensures p.rating.None? ==> r.rating == 0.0
    ensures p.rating.Some? ==> r.rating == p.rating.value
  {
    Product(
      id := p.id,
      name := p.title,
      description := p.description,
      price := p.price,
      originalPrice := match p.price { case Some(x) => Some(x * 1.2) case None => None },
      image := if p.images.Some? && |p.images.value| > 0 then Some(p.images.value[0]) else p.thumbnail,
      category := p.category,
      rating := match p.rating { case Some(x) => x case None => 0.0 },
      inStock := p.stock.Some? && p.stock.value > 0,
      stock := p.stock,
      brand := p.brand,
      discountPercentage := p.discountPercentage,
      images := p.images.GetOr([]))
  }

  /** The original price is the price plus 20%. */
  lemma OriginalPriceIsTwentyPercentMore(p: RemoteProduct)
    requires p.price.Some?
    ensures Transform(p).originalPrice == Some(p.price.value + p.price.value / 5.0)
  {
  }

  /** `data.products.map(transformProduct)`. */
  function TransformAll(ps: seq<RemoteProduct>): (r: seq<Product>)
    ensures |r| == |ps|
    ensures forall i :: 0 <= i < |ps| ==> r[i] == Transform(ps[i])
  {
    seq(|ps|, i requires 0 <= i < |ps| => Transform(ps[i]))
  }

  // ---------------------------------------------------------------------------
  // Categories

  /** A JSON value as `response.json()` yields it. */
  datatype Json =
    | Null
    | Bool(b: bool)
    | Number(n: real)
    | Str(s: string)
    | Arr(items: seq<Json>)
    | Obj(fields: map<string, Json>)

  /** `typeof v === 'object'`: true of objects, arrays and `null`. */
  predicate IsObjectType(v: Json) {
    v.Null? || v.Arr? || v.Obj?
  }

  /** JavaScript truthiness of a property value; `None` is `undefined`. */
  predicate Truthy(v: Option<Json>) {
    match v
    case None => false
    case Some(Null) => false
    case Some(Bool(b)) => b
    case Some(Number(n)) => n != 0.0
    case Some(Str(s)) => s != ""
    case Some(Arr(_)) => true
    case Some(Obj(_)) => true
  }

  /** `v[key]` on a value that is not `null`: only objects carry the
      properties `name` and `slug`. */
  function Property(v: Json, key: string): Option<Json>
    requires !v.Null?
  {
    if v.Obj? && key in v.fields then Some(v.fields[key]) else None
  }

  /** `cat => cat.name || cat.slug || cat`; `None` when `cat` is `null`, where
      reading a property throws a `TypeError`. */
  function CategoryName(cat: Json): (r: Option<Json>)
    ensures r.None? <==> cat.Null?
    ensures r.Some? && Truthy(Property(cat, "name")) ==> r.value == Property(cat, "name").value
    ensures r.Some? && !Truthy(Property(cat, "name")) && Truthy(Property(cat, "slug")) ==>
      r.value == Property(cat, "slug").value
    ensures r.Some? && !Truthy(Property(cat, "name")) && !Truthy(Property(cat, "slug")) ==>
      r.value == cat
  {
    if cat.Null? then None
    else if Truthy(Property(cat, "name")) then Property(cat, "name")
    else if Truthy(Property(cat, "slug")) then Property(cat, "slug")
    else Some(cat)
  }

  /** `data.map(cat => cat.name || cat.slug || cat)`, which throws (`None`) as
      soon as some element is `null`. */
  function CategoryNames(cats: seq<Json>): (r: Option<seq<Json>>)
    ensures r.None? <==> exists i :: 0 <= i < |cats| && cats[i].Null?
    ensures r.Some? ==> |r.value| == |cats|
    ensures r.Some? ==> forall i :: 0 <= i < |cats| ==> Some(r.value[i]) == CategoryName(cats[i])
  {
    if cats == [] then Some([])
    else
      match CategoryName(cats[0])
      case None => None
      case Some(c) =>
        match CategoryNames(cats[1..])
        case None => None
        case Some(rest) => Some([c] + rest)
  }

  /** The category-list normalisation inside `fetchCategories`: a non-empty
      array whose first element is an object has each element mapped to its
      name, else its slug, else itself; any other response is returned
      unchanged. `None` stands for the `TypeError` thrown when an element is
      `null`. */
  function NormalizeCategories(data: Json): (r: Option<Json>)
    ensures !(data.Arr? && |data.items| > 0 && IsObjectType(data.items[0])) ==> r == Some(data)
    ensures data.Arr? && |data.items| > 0 && IsObjectType(data.items[0]) ==>
      match CategoryNames(data.items)
      case None => r.None?
      case Some(names) => r == Some(Arr(names))
  {
    if data.Arr? && |data.items| > 0 && IsObjectType(data.items[0]) then
      match CategoryNames(data.items)
      case None => None
      case Some(names) => Some(Arr(names))
    else Some(data)
  }

  /** A category object as the demo API sends it: a non-empty `name`. */
  predicate NamedCategory(v: Json) {
    v.Obj? && "name" in v.fields && v.fields["name"].Str? && v.fields["name"].s != ""
  }

  /** A non-empty list of named category objects normalises to the list of
      their names, one per object, in order; and normalising that list of
      strings again changes nothing. */
  lemma NamedCategoriesNormalise(cats: seq<Json>)
    requires |cats| > 0
    requires forall i :: 0 <= i < |cats| ==> NamedCategory(cats[i])
    ensures NormalizeCategories(Arr(cats)).Some?
    ensures |NormalizeCategories(Arr(cats)).value.items| == |cats|
    ensures forall i :: 0 <= i < |cats| ==>
      NamedCategory(cats[i]) && NormalizeCategories(Arr(cats)).value.items[i] == cats[i].fields["name"]
    ensures NormalizeCategories(NormalizeCategories(Arr(cats)).value) == NormalizeCategories(Arr(cats))
  {
    assert IsObjectType(cats[0]);
    var r := CategoryNames(cats);
    assert r.Some? by {
      forall i | 0 <= i < |cats| ensures !cats[i].Null? {
        assert NamedCategory(cats[i]);
      }
    }
    assert r.value[0] == cats[0].fields["name"] by {
      assert Some(r.value[0]) == CategoryName(cats[0]);
    }
  }
}
