/** What the top-products report promises. The per-product sort is not
    stable, so the lemmas about the report hold for every ranking of the
    totals the sort may produce (`IsRanking`), not only for the one
    `TopProductsReport` computes. */
module TopProductsProperties {
  import opened Wrappers
  import opened Bson
  import opened Sequences
  import opened Sorting
  import opened Orders
  import opened Products
  import opened TopProducts

  /** The report has a list for category `c`. */
  ghost predicate HasCategory(report: seq<CategoryReport>, c: Option<string>) {
    exists r :: r in report && r.category == c
  }

  /** Some product of category `c` in the catalogue was bought on some line. */
  ghost predicate CategoryPurchased(lines: seq<OrderItem>, products: map<ObjectId, Product>, c: Option<string>) {
    exists p :: p in products && products[p].category == c && Purchased(lines, p)
  }

  /** Product `p` is among the entries of `r`. */
  ghost predicate Lists(r: CategoryReport, p: ObjectId) {
    exists e :: e in r.top5Products && e.productId == p
  }

  /** `r` lists product `p`, or lists `TopK` products each bought at least
      `qty` times. */
  ghost predicate Leads(r: CategoryReport, p: ObjectId, qty: int) {
    || Lists(r, p)
    || (|r.top5Products| == TopK && forall e :: e in r.top5Products ==> e.totalPurchased >= qty)
  }

  predicate EntryGe(a: Entry, b: Entry) {
    a.totalPurchased >= b.totalPurchased
  }

  /** Joined record `j` is a catalogue product bought on `lines`, carrying its
      catalogue category and name and the summed quantity of its lines. */
  ghost predicate JoinedResolves(lines: seq<OrderItem>, products: map<ObjectId, Product>, j: Joined) {
    var p := j.entry.productId;
    && p in products && Purchased(lines, p)
    && j == JoinOf(Total(p, SumQty(lines, p)), products[p])
  }

  /** Output document `r` is a category of the joined records together with
      the first `TopK` entries of that category's list. */
  ghost predicate KeptFromCategory(joined: seq<Joined>, r: CategoryReport) {
    && HasKey(joined, JoinedCategory, r.category)
    && r.top5Products == Take(CategoryList(joined, r.category), TopK)
  }

  /** Entry `e` of document `r` names a catalogue product of `r`'s category,
      under the product's own name, bought on `lines`, with the summed
      quantity of all its lines. */
  ghost predicate EntryResolves(lines: seq<OrderItem>, products: map<ObjectId, Product>, r: CategoryReport, e: Entry) {
    && e.productId in products
    && products[e.productId].category == r.category
    && e.name == products[e.productId].name
    && Purchased(lines, e.productId)
    && e.totalPurchased == SumQty(lines, e.productId)
  }

  /** A kept list: between one and `TopK` entries, by non-increasing quantity. */
  predicate KeptList(top: seq<Entry>) {
    0 < |top| <= TopK && SortedBy(top, EntryGe)
  }

  /** `top` is a kept list and a head of `full`. */
  predicate KeptHead(top: seq<Entry>, full: seq<Entry>) {
    KeptList(top) && |top| <= |full| && top == full[..|top|]
  }

  /** Categories strictly ascend, null first, so none appears twice. */
  predicate CategoriesAscend(report: seq<CategoryReport>) {
    forall i, j :: 0 <= i < j < |report| ==>
      report[i].category != report[j].category && NullableStringLe(report[i].category, report[j].category)
  }

  /** No product id appears at two places of the report. */
  predicate ProductsOnce(report: seq<CategoryReport>) {
    forall i, j, a, b ::
      0 <= i < |report| && 0 <= j < |report| &&
      0 <= a < |report[i].top5Products| && 0 <= b < |report[j].top5Products| &&
      report[i].top5Products[a].productId == report[j].top5Products[b].productId
      ==> i == j && a == b
  }

  /** Entry `e` of document `r` of the report over `orders` names a catalogue
      product of `r`'s category under its own name, with the window's
      quantity for it, which is at least one when every order is valid. */
  ghost predicate EntryIsWindowQuantity(orders: seq<Order>, products: map<ObjectId, Product>, windowStart: Timestamp,
                                        r: CategoryReport, e: Entry) {
    && e.productId in products
    && products[e.productId].category == r.category
    && e.name == products[e.productId].name
    && e.totalPurchased == WindowQty(orders, windowStart, e.productId)
    && ((forall o :: o in orders ==> ValidOrder(o)) ==> e.totalPurchased >= 1)
  }

  // ---------------------------------------------------------------------
  // The window

  lemma {:induction false} SumQtyAppend(a: seq<OrderItem>, b: seq<OrderItem>, p: ObjectId)
    ensures SumQty(a + b, p) == SumQty(a, p) + SumQty(b, p)
  {
    if |a| == 0 {
      assert a + b == b;
    } else {
      assert (a + b)[0] == a[0];
      assert (a + b)[1..] == a[1..] + b;
      SumQtyAppend(a[1..], b, p);
    }
  }

  /** The quantity the report sums for a product is the quantity bought by
      the orders in the window, order by order, counting every line of an
      order that names the product. */
  lemma {:induction false} WindowLinesQty(orders: seq<Order>, windowStart: Timestamp, p: ObjectId)
    ensures SumQty(WindowLines(orders, windowStart), p) == WindowQty(orders, windowStart, p)
  {
    if |orders| > 0 {
      WindowLinesQty(orders[1..], windowStart, p);
      if orders[0].createdAt >= windowStart {
        SumQtyAppend(orders[0].items, WindowLines(orders[1..], windowStart), p);
      }
    }
  }

  lemma {:induction false} InWindowAppend(a: seq<Order>, b: seq<Order>, windowStart: Timestamp)
    ensures InWindow(a + b, windowStart) == InWindow(a, windowStart) + InWindow(b, windowStart)
  {
    if |a| == 0 {
      assert a + b == b;
    } else {
      assert (a + b)[0] == a[0];
      assert (a + b)[1..] == a[1..] + b;
      InWindowAppend(a[1..], b, windowStart);
    }
  }

  /** An order created before the window start changes nothing in the report,
      wherever it sits among the orders. */
  lemma OrderBeforeWindowIgnored(before: seq<Order>, o: Order, after: seq<Order>,
                                 products: map<ObjectId, Product>, windowStart: Timestamp)
    requires o.createdAt < windowStart
    ensures WindowLines(before + [o] + after, windowStart) == WindowLines(before + after, windowStart)
    ensures TopProductsReport(before + [o] + after, products, windowStart)
         == TopProductsReport(before + after, products, windowStart)
  {
    InWindowAppend(before + [o], after, windowStart);
    InWindowAppend(before, [o], windowStart);
    InWindowAppend(before, after, windowStart);
    assert InWindow([o], windowStart) == [];
    assert InWindow(before + [o], windowStart) == InWindow(before, windowStart);
    assert InWindow(before + [o] + after, windowStart) == InWindow(before + after, windowStart);
    assert WindowLines(before + [o] + after, windowStart) == WindowLines(before + after, windowStart);
  }

  /** No orders, no categories. */
  lemma EmptyOrdersEmptyReport(products: map<ObjectId, Product>, windowStart: Timestamp)
    ensures TopProductsReport([], products, windowStart) == []
  {
    assert GroupByProduct([]) == [];
  }

  // ---------------------------------------------------------------------
  // The join

  lemma {:induction false} LookupKeepsOrder(ranked: seq<Total>, products: map<ObjectId, Product>)
    requires SortedBy(ranked, TotalGe)
    ensures SortedBy(Lookup(ranked, products), JoinedGe)
  {
    if |ranked| > 0 {
      LookupKeepsOrder(ranked[1..], products);
      var rest := Lookup(ranked[1..], products);
      var t := ranked[0];
      if t.product in products {
        var r := [JoinOf(t, products[t.product])] + rest;
        forall j | 0 <= j < |rest| ensures JoinedGe(r[0], rest[j]) {
          assert rest[j] in rest;
          var u :| u in ranked[1..] && u.product in products && rest[j] == JoinOf(u, products[u.product]);
          var m :| 0 <= m < |ranked[1..]| && ranked[1..][m] == u;
          assert ranked[1 + m] == u;
        }
        forall i, j | 0 <= i < j < |r| ensures JoinedGe(r[i], r[j]) {
          if i == 0 {
            assert r[j] == rest[j - 1];
          } else {
            assert r[i] == rest[i - 1] && r[j] == rest[j - 1];
          }
        }
      }
    }
  }

  lemma {:induction false} LookupKeepsDistinct(ranked: seq<Total>, products: map<ObjectId, Product>)
    requires DistinctBy(ranked, TotalProduct)
    ensures DistinctBy(Lookup(ranked, products), JoinedProduct)
  {
    if |ranked| > 0 {
      LookupKeepsDistinct(ranked[1..], products);
      var rest := Lookup(ranked[1..], products);
      var t := ranked[0];
      if t.product in products {
        var r := [JoinOf(t, products[t.product])] + rest;
        forall j | 0 <= j < |rest| ensures JoinedProduct(r[0]) != JoinedProduct(rest[j]) {
          assert rest[j] in rest;
          var u :| u in ranked[1..] && u.product in products && rest[j] == JoinOf(u, products[u.product]);
          var m :| 0 <= m < |ranked[1..]| && ranked[1..][m] == u;
          assert ranked[1 + m] == u;
        }
        forall i, j | 0 <= i < j < |r| ensures JoinedProduct(r[i]) != JoinedProduct(r[j]) {
          if i == 0 {
            assert r[j] == rest[j - 1];
          } else {
            assert r[i] == rest[i - 1] && r[j] == rest[j - 1];
          }
        }
      }
    }
  }

  /** The joined records are exactly the purchased, resolvable products,
      each with its catalogue category and name and its summed quantity. */
  lemma JoinedRecords(lines: seq<OrderItem>, ranked: seq<Total>, products: map<ObjectId, Product>)
    requires IsRanking(GroupByProduct(lines), ranked)
    ensures forall j :: j in Lookup(ranked, products) ==> JoinedResolves(lines, products, j)
    ensures forall p :: p in products && Purchased(lines, p) ==>
      JoinOf(Total(p, SumQty(lines, p)), products[p]) in Lookup(ranked, products)
  {
    var totals := GroupByProduct(lines);
    forall t | t in ranked ensures t in totals {
      assert t in multiset(ranked);
    }
    forall p | p in products && Purchased(lines, p)
      ensures JoinOf(Total(p, SumQty(lines, p)), products[p]) in Lookup(ranked, products)
    {
      assert Total(p, SumQty(lines, p)) in multiset(totals);
    }
  }

  // ---------------------------------------------------------------------
  // Grouping, slicing and the final sort, over any joined records

  /** Each output document is one category of the joined records with the
      first `TopK` entries of that category's list. */
  lemma ReportFromGroups(joined: seq<Joined>)
    ensures forall r :: r in Leaderboards(joined) ==> KeptFromCategory(joined, r)
  {
    var groups := GroupBy(joined, JoinedCategory);
    var projected := Project(groups);
    forall r | r in SortByCategory(projected) ensures KeptFromCategory(joined, r) {
      assert r in multiset(projected);
      var i :| 0 <= i < |projected| && projected[i] == r;
      assert groups[i].key in Keys(groups);
    }
  }

  /** Every category of the joined records has an output document. */
  lemma ReportCoversGroups(joined: seq<Joined>)
    ensures forall c :: HasKey(joined, JoinedCategory, c) ==> HasCategory(Leaderboards(joined), c)
  {
    var groups := GroupBy(joined, JoinedCategory);
    var projected := Project(groups);
    var report := SortByCategory(projected);
    forall c | HasKey(joined, JoinedCategory, c) ensures HasCategory(report, c) {
      assert c in Keys(groups);
      var i :| 0 <= i < |groups| && Keys(groups)[i] == c;
      assert projected[i] in multiset(report);
    }
  }

  /** Output documents ascend strictly by category. */
  lemma ReportCategoriesAscend(joined: seq<Joined>)
    ensures CategoriesAscend(Leaderboards(joined))
  {
    var groups := GroupBy(joined, JoinedCategory);
    var projected := Project(groups);
    var report := SortByCategory(projected);
    assert DistinctBy(projected, ReportCategory) by {
      forall i, j | 0 <= i < j < |projected| ensures ReportCategory(projected[i]) != ReportCategory(projected[j]) {
        assert groups[i].key != groups[j].key;
      }
    }
    PermutationKeepsDistinct(projected, report, ReportCategory);
    forall i, j | 0 <= i < j < |report|
      ensures report[i].category != report[j].category
      ensures NullableStringLe(report[i].category, report[j].category)
    {
      assert ReportCategory(report[i]) != ReportCategory(report[j]);
      assert CategoryOrder(report[i], report[j]);
    }
  }

  /** The list kept for category `c` of a sorted join is a non-empty sorted
      head of that category's full list. */
  lemma KeptListIsSortedHead(joined: seq<Joined>, c: Option<string>, top: seq<Entry>)
    requires SortedBy(joined, JoinedGe)
    requires HasKey(joined, JoinedCategory, c)
    requires top == Take(CategoryList(joined, c), TopK)
    ensures KeptHead(top, CategoryList(joined, c))
  {
    var sel := Select(joined, JoinedCategory, c);
    var x :| x in joined && JoinedCategory(x) == c;
    assert x in sel;
    SelectKeepsOrder(joined, JoinedCategory, c, JoinedGe);
    forall i, j | 0 <= i < j < |top| ensures EntryGe(top[i], top[j]) {
      assert JoinedGe(sel[i], sel[j]);
    }
  }

  /** A joined record of category `c` is either kept in that category's list
      or outranked by every one of the `TopK` records kept. */
  lemma KeptListHoldsLeaders(joined: seq<Joined>, c: Option<string>, top: seq<Entry>, j: Joined)
    requires SortedBy(joined, JoinedGe)
    requires j in joined && j.category == c
    requires top == Take(CategoryList(joined, c), TopK)
    ensures j.entry in top || (|top| == TopK && forall e :: e in top ==> e.totalPurchased >= j.entry.totalPurchased)
  {
    var sel := Select(joined, JoinedCategory, c);
    assert j in sel;
    var k :| 0 <= k < |sel| && sel[k] == j;
    if k < TopK {
      assert top[k] == j.entry;
    } else {
      SelectKeepsOrder(joined, JoinedCategory, c, JoinedGe);
      forall e | e in top ensures e.totalPurchased >= j.entry.totalPurchased {
        var m :| 0 <= m < |top| && top[m] == e;
        assert JoinedGe(sel[m], sel[k]);
      }
    }
  }

  /** When the joined records arrive by non-increasing quantity, as the join
      of any ranking does, each category's list is non-empty, holds at most
      `TopK` entries, is the head of that category's full list in arrival
      order, and runs by non-increasing quantity. */
  lemma LeaderboardsAreSortedPrefixes(joined: seq<Joined>)
    requires SortedBy(joined, JoinedGe)
    ensures forall r :: r in Leaderboards(joined) ==> KeptHead(r.top5Products, CategoryList(joined, r.category))
  {
    ReportFromGroups(joined);
    forall r | r in Leaderboards(joined) ensures KeptHead(r.top5Products, CategoryList(joined, r.category)) {
      KeptListIsSortedHead(joined, r.category, r.top5Products);
    }
  }

  /** When no product is joined twice, as in the join of any ranking, a
      product appears at most once in the whole report. */
  lemma ProductsListedOnce(joined: seq<Joined>)
    requires DistinctBy(joined, JoinedProduct)
    ensures ProductsOnce(Leaderboards(joined))
  {
    var report := Leaderboards(joined);
    ReportFromGroups(joined);
    ReportCategoriesAscend(joined);
    forall i, j, a, b |
        0 <= i < |report| && 0 <= j < |report| &&
        0 <= a < |report[i].top5Products| && 0 <= b < |report[j].top5Products| &&
        report[i].top5Products[a].productId == report[j].top5Products[b].productId
      ensures i == j && a == b
    {
      assert report[i] in report && report[j] in report;
      var si := Select(joined, JoinedCategory, report[i].category);
      var sj := Select(joined, JoinedCategory, report[j].category);
      assert report[i].top5Products[a] == si[a].entry;
      assert report[j].top5Products[b] == sj[b].entry;
      assert si[a] in si && sj[b] in sj;
      var m :| 0 <= m < |joined| && joined[m] == si[a];
      var n :| 0 <= n < |joined| && joined[n] == sj[b];
      assert m == n;
      assert report[i].category == report[j].category;
      assert i == j;
      SelectKeepsDistinct(joined, JoinedCategory, report[i].category, JoinedProduct);
      assert JoinedProduct(si[a]) == JoinedProduct(si[b]);
    }
  }

  // ---------------------------------------------------------------------
  // The report's promises, for every ranking the sort may produce

  /** Every reported product resolves in the catalogue, is listed under its
      own category with its own name, was bought in the window, and carries
      the summed quantity of all its lines. A product id with no catalogue
      entry therefore never appears. */
  lemma ReportedEntriesResolve(lines: seq<OrderItem>, ranked: seq<Total>, products: map<ObjectId, Product>)
    requires IsRanking(GroupByProduct(lines), ranked)
    ensures forall r, e :: r in LeaderboardsFrom(ranked, products) && e in r.top5Products ==>
      EntryResolves(lines, products, r, e)
  {
    var joined := Lookup(ranked, products);
    ReportFromGroups(joined);
    JoinedRecords(lines, ranked, products);
    forall r, e | r in Leaderboards(joined) && e in r.top5Products
      ensures EntryResolves(lines, products, r, e)
    {
      var full := CategoryList(joined, r.category);
      assert e in full;
      var sel := Select(joined, JoinedCategory, r.category);
      var k :| 0 <= k < |full| && full[k] == e;
      assert sel[k] in sel;
    }
  }

  /** Categories are listed once each, in ascending order (null first), and
      a category is listed exactly when some catalogue product of that
      category was bought in the window. */
  lemma CategoriesOncePerPurchase(lines: seq<OrderItem>, ranked: seq<Total>, products: map<ObjectId, Product>)
    requires IsRanking(GroupByProduct(lines), ranked)
    ensures CategoriesAscend(LeaderboardsFrom(ranked, products))
    ensures forall c :: HasCategory(LeaderboardsFrom(ranked, products), c) <==> CategoryPurchased(lines, products, c)
  {
    var joined := Lookup(ranked, products);
    var report := Leaderboards(joined);
    ReportFromGroups(joined);
    ReportCoversGroups(joined);
    ReportCategoriesAscend(joined);
    JoinedRecords(lines, ranked, products);
    forall c ensures HasCategory(report, c) <==> CategoryPurchased(lines, products, c) {
      if HasCategory(report, c) {
        var r :| r in report && r.category == c;
        var j :| j in joined && JoinedCategory(j) == c;
        assert products[j.entry.productId].category == c;
      }
      if CategoryPurchased(lines, products, c) {
        var p :| p in products && products[p].category == c && Purchased(lines, p);
        assert JoinOf(Total(p, SumQty(lines, p)), products[p]) in joined;
      }
    }
  }

  /** The lists really are the leaders: a product bought in the window whose
      catalogue entry exists is either listed under its category, or that
      category already lists `TopK` products each bought at least as often. */
  lemma LeadersOutrankTheRest(lines: seq<OrderItem>, ranked: seq<Total>, products: map<ObjectId, Product>, p: ObjectId)
    requires IsRanking(GroupByProduct(lines), ranked)
    requires p in products && Purchased(lines, p)
    ensures exists r :: r in LeaderboardsFrom(ranked, products) && r.category == products[p].category && Leads(r, p, SumQty(lines, p))
  {
    var joined := Lookup(ranked, products);
    var c := products[p].category;
    var jp := JoinOf(Total(p, SumQty(lines, p)), products[p]);
    JoinedRecords(lines, ranked, products);
    assert jp in joined && JoinedCategory(jp) == c;
    assert HasKey(joined, JoinedCategory, c);
    var report := Leaderboards(joined);
    ReportCoversGroups(joined);
    assert HasCategory(report, c);
    var r :| r in report && r.category == c;
    ReportFromGroups(joined);
    assert r.top5Products == Take(CategoryList(joined, c), TopK);
    LookupKeepsOrder(ranked, products);
    KeptListHoldsLeaders(joined, c, r.top5Products, jp);
    assert jp.entry.productId == p && jp.entry.totalPurchased == SumQty(lines, p);
    if jp.entry in r.top5Products {
      assert Lists(r, p);
    }
    assert Leads(r, p, SumQty(lines, p));
  }

  // ---------------------------------------------------------------------
  // The computed report

  /** With valid orders every reported quantity is at least one. */
  lemma {:induction false} SumQtyPositive(lines: seq<OrderItem>, p: ObjectId)
    requires forall l :: l in lines ==> l.quantity >= MinQuantity
    requires Purchased(lines, p)
    ensures SumQty(lines, p) >= 1
  {
    if lines[0].product != p {
      var l :| l in lines && l.product == p;
      assert l in lines[1..];
      SumQtyPositive(lines[1..], p);
    } else {
      SumQtyNonNegative(lines[1..], p);
    }
  }

  lemma {:induction false} SumQtyNonNegative(lines: seq<OrderItem>, p: ObjectId)
    requires forall l :: l in lines ==> l.quantity >= MinQuantity
    ensures SumQty(lines, p) >= 0
  {
    if |lines| > 0 {
      SumQtyNonNegative(lines[1..], p);
    }
  }

  /** Every line of a window's orders meets the schema minimum when the orders are valid. */
  lemma WindowLinesValid(orders: seq<Order>, windowStart: Timestamp)
    requires forall o :: o in orders ==> ValidOrder(o)
    ensures forall l :: l in WindowLines(orders, windowStart) ==> l.quantity >= MinQuantity
  {
    forall l | l in WindowLines(orders, windowStart) ensures l.quantity >= MinQuantity {
      var o :| o in InWindow(orders, windowStart) && l in o.items;
      var i :| 0 <= i < |o.items| && o.items[i] == l;
    }
  }

  /** Every reported quantity is the window's quantity for the product,
      summed order by order; with valid orders it is at least one. */
  lemma ReportedTotalsAreWindowQuantities(orders: seq<Order>, products: map<ObjectId, Product>, windowStart: Timestamp)
    ensures forall r, e :: r in TopProductsReport(orders, products, windowStart) && e in r.top5Products ==>
      EntryIsWindowQuantity(orders, products, windowStart, r, e)
  {
    var lines := WindowLines(orders, windowStart);
    var ranked := RankByTotal(GroupByProduct(lines));
    ReportedEntriesResolve(lines, ranked, products);
    var valid := forall o :: o in orders ==> ValidOrder(o);
    if valid {
      WindowLinesValid(orders, windowStart);
    }
    forall r, e | r in TopProductsReport(orders, products, windowStart) && e in r.top5Products
      ensures EntryIsWindowQuantity(orders, products, windowStart, r, e)
    {
      WindowLinesQty(orders, windowStart, e.productId);
      if valid {
        SumQtyPositive(lines, e.productId);
      }
    }
  }

  /** The computed report's shape: each list holds between one and `TopK`
      entries by non-increasing quantity, categories ascend strictly, and no
      product is listed twice. */
  lemma TopProductsReportShape(orders: seq<Order>, products: map<ObjectId, Product>, windowStart: Timestamp)
    ensures forall r :: r in TopProductsReport(orders, products, windowStart) ==> KeptList(r.top5Products)
    ensures CategoriesAscend(TopProductsReport(orders, products, windowStart))
    ensures ProductsOnce(TopProductsReport(orders, products, windowStart))
  {
    var totals := GroupByProduct(WindowLines(orders, windowStart));
    var ranked := RankByTotal(totals);
    var joined := Lookup(ranked, products);
    LookupKeepsOrder(ranked, products);
    PermutationKeepsDistinct(totals, ranked, TotalProduct);
    LookupKeepsDistinct(ranked, products);
    LeaderboardsAreSortedPrefixes(joined);
    ReportCategoriesAscend(joined);
    ProductsListedOnce(joined);
  }
}
