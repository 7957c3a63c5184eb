/** Small worked instances of the report. */
module TopProductsScenarios {
  import opened Wrappers
  import opened Sequences
  import opened Sorting
  import opened Orders
  import opened Products
  import opened TopProducts

  const Novel := Product("Novel", None, Some("Books"), 12.5, None, Some(0.0), Some(0), Some(0))

  /** One order inside the window buying three copies of a book: one
      category, one entry, quantity three. */
  lemma SingleOrderInWindow()
    ensures TopProductsReport([Order(7, [OrderItem(1, 3, 12.5)], 37.5, 100, 100)], map[1 := Novel], 100)
         == [CategoryReport(Some("Books"), [Entry(1, "Novel", 3)])]
  {
    var orders := [Order(7, [OrderItem(1, 3, 12.5)], 37.5, 100, 100)];
    var lines := WindowLines(orders, 100);
    assert lines == [OrderItem(1, 3, 12.5)];
    var totals := GroupByProduct(lines);
    assert Reject([OrderItem(1, 3, 12.5)][1..], ItemProduct, 1) == [];
    assert totals == [Total(1, 3)];
    assert RankByTotal(totals) == [Total(1, 3)];
    var joined := Lookup([Total(1, 3)], map[1 := Novel]);
    assert joined == [Joined(Some("Books"), Entry(1, "Novel", 3))];
    assert Reject(joined[1..], JoinedCategory, Some("Books")) == [];
    assert Select(joined, JoinedCategory, Some("Books")) == joined;
    var none: seq<Joined> := [];
    assert GroupBy(none, JoinedCategory) == [];
    var groups := GroupBy(joined, JoinedCategory);
    assert groups == [Group(Some("Books"), joined)];
    assert Entries(joined) == [Entry(1, "Novel", 3)];
    var report := [CategoryReport(Some("Books"), [Entry(1, "Novel", 3)])];
    assert Project(groups) == report;
    assert SortByCategory(report) == report;
  }

  const TwoOrders := [
    Order(7, [OrderItem(1, 2, 12.5), OrderItem(9, 2, 4.0), OrderItem(1, 1, 12.5)], 45.5, 100, 100),
    Order(8, [OrderItem(1, 40, 12.5)], 500.0, 99, 99)]

  lemma TwoOrdersTotals()
    ensures GroupByProduct(WindowLines(TwoOrders, 100)) == [Total(1, 3), Total(9, 2)]
  {
    var lines := WindowLines(TwoOrders, 100);
    assert InWindow(TwoOrders, 100) == [TwoOrders[0]];
    assert lines == [OrderItem(1, 2, 12.5), OrderItem(9, 2, 4.0), OrderItem(1, 1, 12.5)];
    var none: seq<OrderItem> := [];
    assert Select(lines, ItemProduct, 1) == [OrderItem(1, 2, 12.5), OrderItem(1, 1, 12.5)];
    assert Reject(lines[1..], ItemProduct, 1) == [OrderItem(9, 2, 4.0)];
    assert Select([OrderItem(9, 2, 4.0)], ItemProduct, 9) == [OrderItem(9, 2, 4.0)];
    assert Reject([OrderItem(9, 2, 4.0)][1..], ItemProduct, 9) == none;
    assert GroupBy(none, ItemProduct) == [];
  }

  lemma TwoTotalsRanked()
    ensures RankByTotal([Total(1, 3), Total(9, 2)]) == [Total(1, 3), Total(9, 2)]
  {
    var s := [Total(1, 3), Total(9, 2)];
    assert InsertionSort(s[1..], TotalGe) == [Total(9, 2)];
    assert TotalGe(Total(1, 3), Total(9, 2));
  }

  /** The same report when the book is bought on two lines of one order, the
      order also names a product missing from the catalogue, and an older
      order falls before the window: the lines are summed, the unknown
      product is dropped without failing, and the old order is ignored. */
  lemma UnknownProductAndOldOrder()
    ensures TopProductsReport(TwoOrders, map[1 := Novel], 100)
         == [CategoryReport(Some("Books"), [Entry(1, "Novel", 3)])]
  {
    TwoOrdersTotals();
    TwoTotalsRanked();
    assert Lookup([Total(1, 3), Total(9, 2)], map[1 := Novel]) == Lookup([Total(1, 3)], map[1 := Novel]);
    SingleOrderInWindow();
    SingleOrderRanked();
  }

  lemma SingleOrderRanked()
    ensures RankByTotal(GroupByProduct(WindowLines([Order(7, [OrderItem(1, 3, 12.5)], 37.5, 100, 100)], 100)))
         == [Total(1, 3)]
  {
    var none: seq<OrderItem> := [];
    assert WindowLines([Order(7, [OrderItem(1, 3, 12.5)], 37.5, 100, 100)], 100) == [OrderItem(1, 3, 12.5)];
    assert Reject([OrderItem(1, 3, 12.5)][1..], ItemProduct, 1) == none;
    assert GroupBy(none, ItemProduct) == [];
  }
}
