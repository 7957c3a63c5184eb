/** The top-products-per-category report: the order aggregation behind
    `/reports/top-products`, one function per pipeline stage. The clock read
    that fixes the window is a parameter, `windowStart`. */
module TopProducts {
  import opened Wrappers
  import opened Bson
  import opened Sequences
  import opened Sorting
  import opened Orders
  import opened Products

  /** How many products each category's list keeps. */
  const TopK := 5

  /** A product's summed quantity (the first `$group`). */
  datatype Total = Total(product: ObjectId, totalPurchased: int)

  /** One reported product: id, name and summed quantity. */
  datatype Entry = Entry(productId: ObjectId, name: string, totalPurchased: int)

  /** A total joined with its product's category and name (after `$lookup`). */
  datatype Joined = Joined(category: Option<string>, entry: Entry)

  /** One output document: a category (null when the products have none) and
      its leading products. */
  datatype CategoryReport = CategoryReport(category: Option<string>, top5Products: seq<Entry>)

  // ---------------------------------------------------------------------
  // Reference definitions

  /** The summed quantity of the lines that name product `p`. */
  function SumQty(lines: seq<OrderItem>, p: ObjectId): int {
    if |lines| == 0 then 0
    else (if lines[0].product == p then lines[0].quantity else 0) + SumQty(lines[1..], p)
  }

  /** Some line names product `p`. */
  ghost predicate Purchased(lines: seq<OrderItem>, p: ObjectId) {
    exists l :: l in lines && l.product == p
  }

  /** Quantity of `p` bought by the orders created at or after `windowStart`,
      summed order by order. */
  function WindowQty(orders: seq<Order>, windowStart: Timestamp, p: ObjectId): int {
    if |orders| == 0 then 0
    else
      (if orders[0].createdAt >= windowStart then SumQty(orders[0].items, p) else 0)
      + WindowQty(orders[1..], windowStart, p)
  }

  // ---------------------------------------------------------------------
  // Stage 1 ($match): orders created at or after the window start

  function InWindow(orders: seq<Order>, windowStart: Timestamp): (kept: seq<Order>)
    ensures |kept| <= |orders|
    ensures forall o :: o in kept <==> o in orders && o.createdAt >= windowStart
    ensures forall o :: multiset(kept)[o] == if o.createdAt >= windowStart then multiset(orders)[o] else 0
  {
    if |orders| == 0 then []
    else
      assert orders == [orders[0]] + orders[1..];
      if orders[0].createdAt >= windowStart then [orders[0]] + InWindow(orders[1..], windowStart)
      else InWindow(orders[1..], windowStart)
  }

  // ---------------------------------------------------------------------
  // Stage 2 ($unwind): one line per line item, orders in turn

  /** How many line items equal to `l` the orders hold, counted order by order. */
  function Copies(orders: seq<Order>, l: OrderItem): nat {
    if |orders| == 0 then 0 else multiset(orders[0].items)[l] + Copies(orders[1..], l)
  }

  function Unwind(orders: seq<Order>): (lines: seq<OrderItem>)
    ensures forall l :: l in lines <==> exists o :: o in orders && l in o.items
    ensures forall l :: multiset(lines)[l] == Copies(orders, l)
  {
    if |orders| == 0 then []
    else
      var rest := Unwind(orders[1..]);
      assert forall o :: o in orders <==> o == orders[0] || o in orders[1..];
      orders[0].items + rest
  }

  /** The lines the report aggregates. */
  function WindowLines(orders: seq<Order>, windowStart: Timestamp): seq<OrderItem> {
    Unwind(InWindow(orders, windowStart))
  }

  // ---------------------------------------------------------------------
  // Stage 3 ($group by product, $sum of quantity)

  function ItemProduct(l: OrderItem): ObjectId { l.product }

  function TotalProduct(t: Total): ObjectId { t.product }

  /** The plain sum of the quantities of `lines`. */
  function Quantity(lines: seq<OrderItem>): int {
    if |lines| == 0 then 0 else lines[0].quantity + Quantity(lines[1..])
  }

  lemma {:induction false} QuantityOfSelection(lines: seq<OrderItem>, p: ObjectId)
    ensures Quantity(Select(lines, ItemProduct, p)) == SumQty(lines, p)
  {
    if |lines| > 0 {
      QuantityOfSelection(lines[1..], p);
    }
  }

  /** One total per product named by some line, holding the sum of that
      product's quantities over all lines. */
  function GroupByProduct(lines: seq<OrderItem>): (totals: seq<Total>)
    ensures DistinctBy(totals, TotalProduct)
    ensures forall t :: t in totals ==> Purchased(lines, t.product) && t.totalPurchased == SumQty(lines, t.product)
    ensures forall p :: Purchased(lines, p) ==> Total(p, SumQty(lines, p)) in totals
  {
    var groups := GroupBy(lines, ItemProduct);
    var totals := seq(|groups|, i requires 0 <= i < |groups| => Total(groups[i].key, Quantity(groups[i].members)));
    GroupByProductSpec(lines, groups, totals);
    totals
  }

  lemma GroupByProductSpec(lines: seq<OrderItem>, groups: seq<Group<ObjectId, OrderItem>>, totals: seq<Total>)
    requires forall i :: 0 <= i < |groups| ==> groups[i].members == Select(lines, ItemProduct, groups[i].key)
    requires forall i, j :: 0 <= i < j < |groups| ==> groups[i].key != groups[j].key
    requires forall k :: k in Keys(groups) <==> HasKey(lines, ItemProduct, k)
    requires |totals| == |groups|
    requires forall i :: 0 <= i < |groups| ==> totals[i] == Total(groups[i].key, Quantity(groups[i].members))
    ensures DistinctBy(totals, TotalProduct)
    ensures forall t :: t in totals ==> Purchased(lines, t.product) && t.totalPurchased == SumQty(lines, t.product)
    ensures forall p :: Purchased(lines, p) ==> Total(p, SumQty(lines, p)) in totals
  {
    forall t | t in totals ensures Purchased(lines, t.product) && t.totalPurchased == SumQty(lines, t.product) {
      var i :| 0 <= i < |totals| && totals[i] == t;
      assert groups[i].key in Keys(groups);
      QuantityOfSelection(lines, groups[i].key);
    }
    forall p | Purchased(lines, p) ensures Total(p, SumQty(lines, p)) in totals {
      assert HasKey(lines, ItemProduct, p);
      var i :| 0 <= i < |groups| && Keys(groups)[i] == p;
      QuantityOfSelection(lines, p);
      assert totals[i] == Total(p, SumQty(lines, p));
    }
  }

  // ---------------------------------------------------------------------
  // Stage 4 ($sort by totalPurchased descending, not stable)

  /** `a` sorts no later than `b`: it was bought at least as often. */
  predicate TotalGe(a: Total, b: Total) {
    a.totalPurchased >= b.totalPurchased
  }

  /** `ranked` is an order the unstable sort may produce from `totals`: the
      same totals, by non-increasing quantity, ties in any order. */
  ghost predicate IsRanking(totals: seq<Total>, ranked: seq<Total>) {
    multiset(ranked) == multiset(totals) && SortedBy(ranked, TotalGe)
  }

  function RankByTotal(totals: seq<Total>): (ranked: seq<Total>)
    ensures IsRanking(totals, ranked)
  {
    InsertionSort(totals, TotalGe)
  }

  // ---------------------------------------------------------------------
  // Stages 5-6 ($lookup, $unwind): join with the product; unmatched totals vanish

  function JoinOf(t: Total, p: Product): Joined {
    Joined(p.category, Entry(t.product, p.name, t.totalPurchased))
  }

  function Lookup(ranked: seq<Total>, products: map<ObjectId, Product>): (joined: seq<Joined>)
    ensures |joined| <= |ranked|
    ensures forall j :: j in joined ==>
      exists t :: t in ranked && t.product in products && j == JoinOf(t, products[t.product])
    ensures forall t :: t in ranked && t.product in products ==> JoinOf(t, products[t.product]) in joined
  {
    if |ranked| == 0 then []
    else
      var t := ranked[0];
      var rest := Lookup(ranked[1..], products);
      assert forall u :: u in ranked <==> u == t || u in ranked[1..];
      (if t.product in products then [JoinOf(t, products[t.product])] else []) + rest
  }

  // ---------------------------------------------------------------------
  // Stage 7 ($group by category, $push in arrival order)

  function JoinedCategory(j: Joined): Option<string> { j.category }

  function JoinedProduct(j: Joined): ObjectId { j.entry.productId }

  predicate JoinedGe(a: Joined, b: Joined) {
    a.entry.totalPurchased >= b.entry.totalPurchased
  }

  /** The entries of `js`, in order. */
  function Entries(js: seq<Joined>): seq<Entry> {
    seq(|js|, i requires 0 <= i < |js| => js[i].entry)
  }

  /** The full list a category's group pushes: its joined entries in arrival order. */
  function CategoryList(joined: seq<Joined>, c: Option<string>): seq<Entry> {
    Entries(Select(joined, JoinedCategory, c))
  }

  // ---------------------------------------------------------------------
  // Stage 8 ($project with $slice: the first TopK of each group)

  function Leaderboard(g: Group<Option<string>, Joined>): CategoryReport {
    CategoryReport(g.key, Take(Entries(g.members), TopK))
  }

  function Project(groups: seq<Group<Option<string>, Joined>>): (reports: seq<CategoryReport>)
    ensures |reports| == |groups|
    ensures forall i :: 0 <= i < |groups| ==> reports[i] == Leaderboard(groups[i])
  {
    if |groups| == 0 then [] else [Leaderboard(groups[0])] + Project(groups[1..])
  }

  // ---------------------------------------------------------------------
  // Stage 9 ($sort by category ascending)

  predicate CategoryOrder(a: CategoryReport, b: CategoryReport) {
    NullableStringLe(a.category, b.category)
  }

  function ReportCategory(r: CategoryReport): Option<string> { r.category }

  lemma CategoryOrderIsTotalPreorder()
    ensures TotalPreorder(CategoryOrder)
  {
    forall a: CategoryReport, b: CategoryReport, c: CategoryReport
      ensures CategoryOrder(a, b) || CategoryOrder(b, a)
      ensures CategoryOrder(a, b) && CategoryOrder(b, c) ==> CategoryOrder(a, c)
    {
      NullableStringLeTotalOrder(a.category, b.category, c.category);
    }
  }

  function SortByCategory(reports: seq<CategoryReport>): (sorted: seq<CategoryReport>)
    ensures multiset(sorted) == multiset(reports)
    ensures SortedBy(sorted, CategoryOrder)
  {
    CategoryOrderIsTotalPreorder();
    InsertionSort(reports, CategoryOrder)
  }

  // ---------------------------------------------------------------------
  // The whole pipeline

  /** Stages 7 to 9 applied to the joined records. */
  function Leaderboards(joined: seq<Joined>): seq<CategoryReport> {
    SortByCategory(Project(GroupBy(joined, JoinedCategory)))
  }

  /** Stages 5 to 9 applied to a ranking of the per-product totals. */
  function LeaderboardsFrom(ranked: seq<Total>, products: map<ObjectId, Product>): seq<CategoryReport> {
    Leaderboards(Lookup(ranked, products))
  }

  /** The report over the orders created at or after `windowStart`. */
  function TopProductsReport(orders: seq<Order>, products: map<ObjectId, Product>, windowStart: Timestamp): seq<CategoryReport> {
    LeaderboardsFrom(RankByTotal(GroupByProduct(WindowLines(orders, windowStart))), products)
  }
}
