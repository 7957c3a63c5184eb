/** Orders and their line items as the order schema stores them: the raw
    document, where a field may be absent, the validated record, and the
    validation that turns one into the other. */
module Orders {
  import opened Wrappers
  import opened Bson
  import opened Sequences

  /** The schema's lower bound on a line item's quantity. */
  const MinQuantity := 1

  /** A line item as submitted: any field may be missing. */
  datatype OrderItemDoc = OrderItemDoc(product: Option<ObjectId>, quantity: Option<int>, price: Option<real>)

  /** An order as submitted. `createdAt` and `updatedAt` are set by the
      schema's timestamps option and are therefore always present. */
  datatype OrderDoc = OrderDoc(
    user: Option<ObjectId>,
    items: seq<OrderItemDoc>,
    totalCost: Option<real>,
    createdAt: Timestamp,
    updatedAt: Timestamp)

  /** A stored line item: product reference, quantity and unit price. */
  datatype OrderItem = OrderItem(product: ObjectId, quantity: int, price: real)

  /** A stored order: the buyer, its ordered line items, the total and timestamps. */
  datatype Order = Order(
    user: ObjectId,
    items: seq<OrderItem>,
    totalCost: real,
    createdAt: Timestamp,
    updatedAt: Timestamp)

  /** One failed schema constraint; item constraints name the item's position. */
  datatype Violation =
    | UserRequired
    | TotalCostRequired
    | ItemProductRequired(item: nat)
    | ItemQuantityRequired(item: nat)
    | ItemQuantityBelowMin(item: nat)
    | ItemPriceRequired(item: nat)

  predicate ValidItemDoc(d: OrderItemDoc) {
    && d.product.Some?
    && d.quantity.Some? && d.quantity.value >= MinQuantity
    && d.price.Some?
  }

  /** Every constraint of the order schema holds. */
  predicate ValidOrderDoc(d: OrderDoc) {
    && d.user.Some?
    && d.totalCost.Some?
    && forall i :: 0 <= i < |d.items| ==> ValidItemDoc(d.items[i])
  }

  /** The invariant a stored order keeps: every quantity meets the minimum. */
  predicate ValidOrder(o: Order) {
    forall i :: 0 <= i < |o.items| ==> o.items[i].quantity >= MinQuantity
  }

  /** `d` breaks the constraint `v` names. The minimum is only checked on a
      quantity that is present; a missing one breaks "required" alone. */
  predicate Breaks(d: OrderDoc, v: Violation) {
    match v
    case UserRequired => d.user.None?
    case TotalCostRequired => d.totalCost.None?
    case ItemProductRequired(i) => i < |d.items| && d.items[i].product.None?
    case ItemQuantityRequired(i) => i < |d.items| && d.items[i].quantity.None?
    case ItemQuantityBelowMin(i) =>
      i < |d.items| && d.items[i].quantity.Some? && d.items[i].quantity.value < MinQuantity
    case ItemPriceRequired(i) => i < |d.items| && d.items[i].price.None?
  }

  /** The violations of one line item at position `i`. */
  function ItemViolations(i: nat, d: OrderItemDoc): (vs: seq<Violation>)
    ensures forall v :: v in vs ==> ItemAtOrAfter(v, i) && !ItemAtOrAfter(v, i + 1)
    ensures NoRepeats(vs)
  {
    (if d.product.None? then [ItemProductRequired(i)] else [])
    + (if d.quantity.None? then [ItemQuantityRequired(i)]
       else if d.quantity.value < MinQuantity then [ItemQuantityBelowMin(i)]
       else [])
    + (if d.price.None? then [ItemPriceRequired(i)] else [])
  }

  /** True when `v` is a constraint on a line item at position `from` or later. */
  predicate ItemAtOrAfter(v: Violation, from: nat) {
    match v
    case ItemProductRequired(i) => i >= from
    case ItemQuantityRequired(i) => i >= from
    case ItemQuantityBelowMin(i) => i >= from
    case ItemPriceRequired(i) => i >= from
    case _ => false
  }

  /** The violations of the line items from position `from` on. */
  function ItemsViolations(d: OrderDoc, from: nat): (vs: seq<Violation>)
    requires from <= |d.items|
    ensures forall v :: v in vs <==> ItemAtOrAfter(v, from) && Breaks(d, v)
    ensures vs == [] <==> forall i :: from <= i < |d.items| ==> ValidItemDoc(d.items[i])
    ensures NoRepeats(vs)
    decreases |d.items| - from
  {
    if from == |d.items| then []
    else
      var head := ItemViolations(from, d.items[from]);
      var rest := ItemsViolations(d, from + 1);
      NoRepeatsAppend(head, rest);
      head + rest
  }

  /** Every constraint the document breaks, each once. */
  function Violations(d: OrderDoc): (vs: seq<Violation>)
    ensures forall v :: v in vs <==> Breaks(d, v)
    ensures vs == [] <==> ValidOrderDoc(d)
    ensures NoRepeats(vs)
  {
    var order := (if d.user.None? then [UserRequired] else [])
      + (if d.totalCost.None? then [TotalCostRequired] else []);
    var items := ItemsViolations(d, 0);
    NoRepeatsAppend(order, items);
    order + items
  }

  function ItemOf(d: OrderItemDoc): OrderItem
    requires ValidItemDoc(d)
  {
    OrderItem(d.product.value, d.quantity.value, d.price.value)
  }

  /** Validates an order document: the stored order when every constraint
      holds, otherwise every violated constraint. */
  function ValidateOrder(d: OrderDoc): (r: Result<Order, seq<Violation>>)
    ensures r.Success? <==> ValidOrderDoc(d)
    ensures r.Success? ==>
      && ValidOrder(r.value)
      && Some(r.value.user) == d.user
      && Some(r.value.totalCost) == d.totalCost
      && r.value.createdAt == d.createdAt
      && r.value.updatedAt == d.updatedAt
      && |r.value.items| == |d.items|
      && forall i :: 0 <= i < |d.items| ==>
           var it := r.value.items[i];
           d.items[i] == OrderItemDoc(Some(it.product), Some(it.quantity), Some(it.price))
    ensures r.Failure? ==> r.error != [] && forall v :: v in r.error <==> Breaks(d, v)
    ensures r.Failure? ==> NoRepeats(r.error)
  {
    var vs := Violations(d);
    if vs != [] then Failure(vs)
    else
      Success(Order(
        d.user.value,
        seq(|d.items|, i requires 0 <= i < |d.items| && ValidOrderDoc(d) => ItemOf(d.items[i])),
        d.totalCost.value,
        d.createdAt,
        d.updatedAt))
  }
}
