/** Products as the product schema stores them: the raw document, the schema
    defaults, validation, and the stored record the report and search read. */
module Products {
  import opened Wrappers

  /** A field that has a schema default, as submitted: left out, set to null
      explicitly, or set to a value. The default fills in only a field left
      out; an explicit null is kept. */
  datatype Field<+T> = Undefined | Null | Value(value: T)

  /** A product as submitted. For the fields without a default, `None` stands
      for a field left out or set to null, which the schema treats alike. */
  datatype ProductDoc = ProductDoc(
    name: Option<string>,
    description: Option<string>,
    category: Option<string>,
    price: Option<real>,
    brand: Option<string>,
    rating: Field<real>,
    stock: Field<int>,
    purchaseCount: Field<int>)

  /** A stored product: `name` and `price` are required, `description`,
      `category` and `brand` stay optional, and the counters hold a value or
      an explicit null (`None`). */
  datatype Product = Product(
    name: string,
    description: Option<string>,
    category: Option<string>,
    price: real,
    brand: Option<string>,
    rating: Option<real>,
    stock: Option<int>,
    purchaseCount: Option<int>)

  /** One failed schema constraint. */
  datatype Violation = NameRequired | PriceRequired

  /** No field that has a schema default is left out. */
  predicate Defaulted(d: ProductDoc) {
    !d.rating.Undefined? && !d.stock.Undefined? && !d.purchaseCount.Undefined?
  }

  /** The stored form of a field that is not left out. */
  function Stored<T>(f: Field<T>): Option<T> {
    if f.Value? then Some(f.value) else None
  }

  /** Fills `rating`, `stock` and `purchaseCount` with 0 where they are left
      out; explicit nulls and values stay. */
  function ApplyDefaults(d: ProductDoc): (r: ProductDoc)
    ensures Defaulted(r)
    ensures r.rating == (if d.rating.Undefined? then Value(0.0) else d.rating)
    ensures r.stock == (if d.stock.Undefined? then Value(0) else d.stock)
    ensures r.purchaseCount == (if d.purchaseCount.Undefined? then Value(0) else d.purchaseCount)
    ensures r.name == d.name && r.description == d.description && r.category == d.category
    ensures r.price == d.price && r.brand == d.brand
    ensures Defaulted(d) ==> r == d
  {
    d.(rating := if d.rating.Undefined? then Value(0.0) else d.rating,
       stock := if d.stock.Undefined? then Value(0) else d.stock,
       purchaseCount := if d.purchaseCount.Undefined? then Value(0) else d.purchaseCount)
  }

  /** Applying the defaults a second time changes nothing. */
  lemma ApplyDefaultsIdempotent(d: ProductDoc)
    ensures ApplyDefaults(ApplyDefaults(d)) == ApplyDefaults(d)
  {
  }

  /** A required string must be present and non-empty; a required number
      only present. */
  predicate ValidProductDoc(d: ProductDoc) {
    d.name.Some? && |d.name.value| > 0 && d.price.Some?
  }

  /** Every constraint the document breaks. */
  function Violations(d: ProductDoc): (vs: seq<Violation>)
    ensures NameRequired in vs <==> d.name.None? || |d.name.value| == 0
    ensures PriceRequired in vs <==> d.price.None?
    ensures vs == [] <==> ValidProductDoc(d)
  {
    (if d.name.None? || |d.name.value| == 0 then [NameRequired] else [])
    + (if d.price.None? then [PriceRequired] else [])
  }

  /** Builds the stored product from a submitted document: the defaults are
      applied first, then the document is validated. */
  function Hydrate(d: ProductDoc): (r: Result<Product, seq<Violation>>)
    ensures r.Success? <==> ValidProductDoc(d)
    ensures r.Success? ==>
      && Some(r.value.name) == d.name
      && Some(r.value.price) == d.price
      && r.value.description == d.description
      && r.value.category == d.category
      && r.value.brand == d.brand
      && r.value.rating == (if d.rating.Undefined? then Some(0.0) else Stored(d.rating))
      && r.value.stock == (if d.stock.Undefined? then Some(0) else Stored(d.stock))
      && r.value.purchaseCount == (if d.purchaseCount.Undefined? then Some(0) else Stored(d.purchaseCount))
    ensures r.Failure? ==>
      && r.error != []
      && (NameRequired in r.error <==> d.name.None? || d.name == Some(""))
      && (PriceRequired in r.error <==> d.price.None?)
  {
    var full := ApplyDefaults(d);
    var vs := Violations(full);
    if vs != [] then Failure(vs)
    else
      Success(Product(
        full.name.value, full.description, full.category, full.price.value,
        full.brand, Stored(full.rating), Stored(full.stock), Stored(full.purchaseCount)))
  }
}
