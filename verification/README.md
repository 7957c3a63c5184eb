# Top products per category, product search and the two schemas, in Dafny

This project models the analytical core of a small e-commerce API built on a
document store, and proves properties of the model.

- **The top-products report** (`GET /reports/top-products`). It is an
  aggregation pipeline over the orders. It keeps the orders created at or
  after a window start. It flattens them into line items and sums the
  quantities per product. It sorts the sums in descending order and joins
  each one to its product, dropping ids that have no product. It groups the
  entries by the product's category, keeps the first five of each group, and
  sorts the groups by category. Module `TopProducts` has one function per
  stage. Module `TopProductsProperties` proves what the report promises.
  Module `TopProductsScenarios` works through two concrete inputs.
- **Search result selection** (`GET /products/search`). A missing or empty
  query is rejected. Otherwise the text-index hits are returned if there are
  any. If there are none, the regular-expression matches are returned, at
  most 20 of them. Module `ProductSearch`.
- **The order and product schemas**. These give the raw documents, their
  validation, the defaults of the product counters, and the stored records
  that the pipeline reads. Modules `Orders` and `Products`.

Shared modules: `Wrappers` (`Option`, `Result`), `Bson` (ids, timestamps and
the store's order on strings and nulls), `Sequences` (prefix, select, group
by key) and `Sorting` (sorting by a total preorder, and what a permutation
preserves).

## Modelling decisions

- The clock read that fixes the window (thirty days before now) becomes the
  parameter `windowStart`. The bound is inclusive (`createdAt >= windowStart`)
  and there is no upper bound.
- The sort by `totalPurchased` is not stable, so ties may come out in any
  order. The report lemmas therefore hold for every ranking the sort may
  produce: `IsRanking` means the same totals, in non-increasing order.
  `TopProductsReport` uses insertion sort, which `RankByTotal` proves is one
  such ranking.
- A product's `category` is optional. The grouping key is
  `Option<string>`: products without a category are grouped under null and
  reported with a null category. The model places null before every string
  when categories are sorted, because that is BSON comparison order. Strings
  compare character by character, with a proper prefix first. This is the
  store's default binary collation.
- The first `$group` emits products in an unspecified order. The model uses
  order of first appearance. This matters only for products with equal
  totals: `$sort` (index.js:202-204) leaves their relative order to its
  input, so their order in a list, and which of them a full list of five
  keeps, is open in the source as well. The report lemmas quantify over
  every ranking (`IsRanking`), so none of them depends on this choice. The
  second `$group` pushes entries in the order they arrive, which is the
  order of the ranking.
- Schema validation collects every broken constraint. A `required` string
  must be present and non-empty, which is the document library's rule. A
  `required` number or id only has to be present. The `min: 1` check on
  `quantity` is applied only when a quantity is present.
- `quantity` is an `int`. `price`, `totalCost` and `rating` are `real`.
  `stock` and `purchaseCount` are `int`.

- Each output document carries its entries in the field `top5Products`.
- Only the regex fallback is limited to 20 results. Text-search hits are
  returned in full.
- A counter with a default (`rating`, `stock`, `purchaseCount`) is a
  `Field`: left out, explicitly null, or a value. The default fills in only
  a counter that is left out, so an explicit null is stored as null. For the
  other fields, left out and null are treated alike, so they are `Option`s.

## Model

| member | source | states |
|---|---|---|
| `TopProducts.InWindow` | index.js:185-187 | An order is kept exactly when it is among the input orders and `createdAt >= windowStart` (inclusive bound), as many times as it occurs there; nothing else is kept |
| `TopProducts.Unwind` | index.js:191 | A line is produced exactly when it is a line item of one of the orders, and as many times as the orders hold it in all; orders with no items contribute nothing |
| `TopProductsProperties.WindowLinesQty` | index.js:185-198 | The quantity summed for a product over the flattened window equals the sum, order by order, of the quantities of every line of every in-window order that names it, repeated lines included |
| `TopProductsProperties.OrderBeforeWindowIgnored` | index.js:185-187 | Inserting an order created before the window start anywhere in the input leaves the window's lines, and so the report, unchanged |
| `TopProducts.TopProductsReport` | index.js:182-252 | The whole aggregation over the orders, with the window start as a parameter. It only composes the stage functions and has no contract of its own. Its properties are stated by `EmptyOrdersEmptyReport`, `OrderBeforeWindowIgnored`, `ReportedTotalsAreWindowQuantities` and `TopProductsReportShape`, and for every ranking by the lemmas below |
| `TopProductsProperties.EmptyOrdersEmptyReport` | index.js:182-249 | No orders give an empty report |
| `TopProducts.GroupByProduct` | index.js:195-198 | One total per purchased product, no product twice, each total equal to the sum of that product's line quantities, and every purchased product has one |
| `TopProducts.RankByTotal` | index.js:202-204 | The ranked totals are a permutation of the totals in non-increasing `totalPurchased` order |
| `Sorting.InsertionSort` | index.js:202-204 | The output is a permutation of the input, sorted by the given total preorder |
| `TopProducts.Lookup` | index.js:208-218 | Every joined record comes from a ranked total whose product exists and carries that product's category and name; every ranked total whose product exists is joined; totals with unknown ids are dropped without failure |
| `TopProductsProperties.LookupKeepsOrder` | index.js:202-218 | The join keeps the non-increasing quantity order of the ranking |
| `TopProductsProperties.LookupKeepsDistinct` | index.js:195-218 | The join names no product twice when the ranking does not |
| `TopProductsProperties.JoinedRecords` | index.js:195-218 | For any ranking, the joined records are exactly the purchased products that exist in the catalogue, each with its category, name and summed quantity |
| `Sequences.GroupBy` | index.js:221-231 | One group per key that occurs, keys distinct, each group non-empty and holding exactly that key's elements in arrival order |
| `Sequences.Take` | index.js:238-239 | The result is the prefix of length min(n, length) |
| `TopProducts.Project` | index.js:233-241 | One output document per category group, in group order, each holding the group's category and the first five entries of the group's list |
| `TopProductsProperties.ReportFromGroups` | index.js:221-241 | For any joined records, each output document is a category of those records together with the first five entries of that category's full list |
| `TopProductsProperties.ReportCoversGroups` | index.js:221-231 | For any joined records, every category that occurs among them has an output document |
| `TopProductsProperties.ReportCategoriesAscend` | index.js:221-247 | For any joined records, output documents have pairwise distinct categories in strictly ascending order, null first |
| `TopProducts.SortByCategory` | index.js:245-247 | The output is a permutation of the input, ordered by category ascending with null first |
| `TopProducts.CategoryOrderIsTotalPreorder` | index.js:245-247 | Ordering by category relates any two documents and is transitive |
| `Bson.NullableStringLeTotalOrder` | index.js:245-247 | The category order is total, transitive and antisymmetric, so sorting distinct categories gives a single result |
| `Bson.StringLeTotal` | index.js:245-247 | Any two strings compare under the binary string order |
| `Bson.StringLeTransitive` | index.js:245-247 | The binary string order is transitive |
| `Bson.StringLeAntisymmetric` | index.js:245-247 | Two strings that compare both ways are equal |
| `TopProductsProperties.ReportedEntriesResolve` | index.js:195-231 | For any ranking, every reported product exists in the catalogue, is reported under its own category with its own name, was bought in the window, and carries the sum of all its in-window line quantities; an id with no product never appears |
| `TopProductsProperties.LeaderboardsAreSortedPrefixes` | index.js:202-239 | For joined records in non-increasing quantity order (what the join of any ranking gives), each category's list has between 1 and 5 entries, is a prefix of that category's full grouped list, and runs in non-increasing `totalPurchased` order |
| `TopProductsProperties.KeptListIsSortedHead` | index.js:238-239 | The first five of a category taken from a sorted join are a non-empty sorted prefix of that category's list |
| `TopProductsProperties.KeptListHoldsLeaders` | index.js:202-239 | A joined record of a category is either kept in that category's list, or the list is full and every kept entry has at least its quantity |
| `TopProductsProperties.CategoriesOncePerPurchase` | index.js:208-247 | For any ranking, categories appear once each in ascending order, and a category appears exactly when some catalogue product of that category was bought in the window |
| `TopProductsProperties.ProductsListedOnce` | index.js:195-231 | For joined records that name each product once (what the join of any ranking gives), a product id appears at most once in the whole report |
| `TopProductsProperties.LeadersOutrankTheRest` | index.js:202-239 | For any ranking, a catalogue product bought in the window is listed under its category, or that category lists five products each bought at least as often |
| `TopProductsProperties.SumQtyPositive` | models/order.js:5 | When every line has quantity at least 1, any purchased product's summed quantity is at least 1 |
| `TopProductsProperties.WindowLinesValid` | models/order.js:5 | When the orders are valid, every flattened line in the window has quantity at least 1 |
| `TopProductsProperties.ReportedTotalsAreWindowQuantities` | index.js:185-231 | Each entry of the computed report resolves under its own category and name, its quantity equals the window's order-by-order quantity for it, and that quantity is at least 1 when the orders are valid |
| `TopProductsProperties.TopProductsReportShape` | index.js:182-249 | The computed report's lists hold between 1 and 5 entries in non-increasing order, its categories ascend strictly, and no product appears twice |
| `TopProductsScenarios.SingleOrderInWindow` | index.js:182-249 | One in-window order buying three of a book gives exactly one "Books" document with that book and quantity 3 |
| `TopProductsScenarios.UnknownProductAndOldOrder` | index.js:185-218 | Two lines of the same book in one order are summed, a line with an unknown product is dropped, and an order before the window is ignored; the report is the same as in the single-order scenario |
| `TopProductsScenarios.TwoOrdersTotals` | index.js:185-198 | In that scenario, the per-product totals are 3 for the book and 2 for the unknown id, and the out-of-window order is excluded |
| `TopProductsScenarios.TwoTotalsRanked` | index.js:202-204 | The totals 3 (product 1) and 2 (product 9), given in that order, are ranked in that order |
| `TopProductsScenarios.SingleOrderRanked` | index.js:185-204 | One order at the window start buying three of product 1 gives the single ranked total 3 for product 1 |
| `ProductSearch.Search` | index.js:124-161 | A missing or empty query is rejected, and only such a query is. Non-empty text hits are returned unchanged as a text search. Otherwise an invalid pattern fails, and only then. Otherwise the answer is a regex fallback holding the first min(20, matches) regex matches. `count` always equals the number of results |
| `ProductSearch.SearchReturnsStoreHits` | index.js:135-161 | A successful search had a non-blank query; with text hits it is a text search returning exactly those hits, and without any it is a regex fallback returning at most 20 products, each a regex match |
| `Orders.Violations` | models/order.js:3-13 | The violations listed are exactly the constraints the document breaks, each once, and the list is empty exactly when the document is valid |
| `Orders.ValidateOrder` | models/order.js:3-13 | Validation succeeds exactly for valid documents. On success the stored order keeps the user, total cost, timestamps and every item's product, quantity and price in order, and every quantity is at least 1. On failure the error lists exactly the broken constraints, each once, and is non-empty |
| `Products.ApplyDefaults` | models/product.js:9-11 | `rating`, `stock` and `purchaseCount` that are left out become 0, explicit nulls and values are kept, and every other field is unchanged |
| `Products.ApplyDefaultsIdempotent` | models/product.js:9-11 | Applying the defaults twice gives the same document as applying them once |
| `Products.Violations` | models/product.js:4-7 | A missing or empty `name` and a missing `price` are reported; nothing is reported exactly when the document is valid |
| `Products.Hydrate` | models/product.js:3-12 | A product is stored exactly when `name` is present and non-empty and `price` is present. `description`, `category` and `brand` stay optional and unchanged. A counter left out is stored as 0, and an explicit null or value is stored as given. A failure is non-empty, reports the name exactly when it is missing or empty, and reports the price exactly when it is missing |

## Left out

- HTTP plumbing: the app and middleware, status codes, JSON shaping, the
  database connection and server start (index.js:16-27, 263-265). The model's
  `QueryRequired` stands for the 400 response and `InvalidPattern` for the 500
  response.
- The clock: the window start is a parameter, not `new Date()` minus 30 days
  (index.js:178-179).
- The lookup routes for one order, a user's orders and a product's reviews
  (index.js:44-112). These are database finds with population and id checks.
  The user and review models are not part of this model.
- Text-score ranking and regular-expression matching (index.js:130-133,
  148-155) belong to the store. Their outputs are inputs to `Search`, and so
  is whether the query compiles as a pattern.
- Store failures inside any handler (the catch-all 500 responses).
- `ProductSearch.Search`: the query is only absent or a string. A query that
  arrives as an array or an object is not modelled.
- `generateData.js` and `seed.js`: random sample data, file input and output,
  and bulk inserts.
- Index declarations (models/product.js:15-19, models/order.js:15). They only
  affect performance.
- Product timestamps. They are not read by the core.
- Number semantics: quantities are integers and prices are reals. Floating
  point, `NaN`, and the library's casting of strings to numbers or ids are
  not modelled.
