/**
 * Product lookups, the guarded stock update, sale (discount) state, the
 * in-stock product listing and the sold-products report.
 */
module ProductService {
  import opened Wrappers
  import opened Errors
  import opened Models

  /** The product with id `pid`, or ProductNotFound. */
  function GetProduct(s: Store, pid: ProductId): (r: Result<Product, Error>)
    ensures r.Success? <==> pid in s.products
    ensures r.Success? ==> r.value == s.products[pid]
    ensures r.Failure? ==> r.error == ProductNotFound
  {
    if pid in s.products then Success(s.products[pid]) else Failure(ProductNotFound)
  }

  /**
   * The service layer's single place where stock changes: adds the signed `delta` to the
   * stock of `pid`, refusing with InsufficientStock (and writing nothing)
   * when the result would be negative.
   */
  function ModifyStock(s: Store, pid: ProductId, delta: int): (r: Result<Store, Error>)
    requires pid in s.products
    ensures r.Failure? <==> s.products[pid].stock + delta < 0
    ensures r.Failure? ==> r.error == InsufficientStock
    ensures r.Success? ==> OnlyStockChanged(s.products, r.value.products, pid, s.products[pid].stock + delta)
    ensures r.Success? ==> r.value.products[pid].stock >= 0
    ensures r.Success? ==> r.value.categories == s.categories && r.value.reservations == s.reservations
    ensures r.Success? && StockNonNegative(s) ==> StockNonNegative(r.value)
  {
    var product := s.products[pid];
    if product.stock + delta < 0 then
      Failure(InsufficientStock)
    else
      Success(s.(products := s.products[pid := product.(stock := product.stock + delta)]))
  }

  /** `after` differs from `before` only in the discount of `pid`, which is `d`. */
  predicate OnlyDiscountChanged(before: Store, after: Store, pid: ProductId, d: real) {
    && pid in before.products
    && after.categories == before.categories
    && after.reservations == before.reservations
    && after.products.Keys == before.products.Keys
    && after.products[pid] == before.products[pid].(discount := d)
    && forall q :: q in before.products && q != pid ==> after.products[q] == before.products[q]
  }

  /** Shared body of start_sale and end_sale: look the product up, then store discount `d`. */
  function SetDiscount(s: Store, pid: ProductId, d: real): (r: Result<Committed<Product>, Error>)
    ensures r.Success? <==> pid in s.products
    ensures r.Failure? ==> r.error == ProductNotFound
    ensures r.Success? ==> OnlyDiscountChanged(s, r.value.store, pid, d)
    ensures r.Success? ==> r.value.value == r.value.store.products[pid]
    ensures r.Success? && Valid(s) ==> Valid(r.value.store)
  {
    var product :- GetProduct(s, pid);
    var updated := product.(discount := d);
    Success(Committed(s.(products := s.products[pid := updated]), updated))
  }

  /** Puts `pid` on sale at `d` percent; the percentage is not range-checked. */
  function StartSale(s: Store, pid: ProductId, d: real): (r: Result<Committed<Product>, Error>)
    ensures r.Success? <==> pid in s.products
    ensures r.Failure? ==> r.error == ProductNotFound
    ensures r.Success? ==> OnlyDiscountChanged(s, r.value.store, pid, d) && r.value.value.discount == d
    ensures r.Success? ==> r.value.value == r.value.store.products[pid]
    ensures r.Success? && Valid(s) ==> Valid(r.value.store)
  {
    SetDiscount(s, pid, d)
  }

  /** Ends the sale on `pid`: its discount returns to zero. */
  function EndSale(s: Store, pid: ProductId): (r: Result<Committed<Product>, Error>)
    ensures r.Success? <==> pid in s.products
    ensures r.Failure? ==> r.error == ProductNotFound
    ensures r.Success? ==> OnlyDiscountChanged(s, r.value.store, pid, DefaultDiscount)
    ensures r.Success? ==> r.value.value == r.value.store.products[pid]
    ensures r.Success? ==> DiscountedPrice(r.value.value) == r.value.value.price
    ensures r.Success? && Valid(s) ==> Valid(r.value.store)
  {
    SetDiscount(s, pid, 0.0)
  }

  /** Ending a sale after starting one gives the store that ending it straight away gives. */
  lemma EndSaleUndoesStartSale(s: Store, pid: ProductId, d: real)
    requires pid in s.products
    ensures StartSale(s, pid, d).Success?
    ensures EndSale(StartSale(s, pid, d).value.store, pid) == EndSale(s, pid)
    ensures EndSale(s, pid).value.value == s.products[pid].(discount := DefaultDiscount)
  {
    var started := StartSale(s, pid, d).value.store;
    assert started.products[pid := s.products[pid].(discount := 0.0)]
        == s.products[pid := s.products[pid].(discount := 0.0)];
  }

  /** Ending a sale twice is the same as ending it once. */
  lemma EndSaleIdempotent(s: Store, pid: ProductId)
    requires pid in s.products
    ensures EndSale(EndSale(s, pid).value.store, pid) == EndSale(s, pid)
  {
    var ended := EndSale(s, pid).value.store;
    assert ended.products[pid := ended.products[pid]] == ended.products;
  }

  /** Whether category `c` is `scope` itself or one of its direct subcategories. */
  predicate InScope(categories: map<CategoryId, Category>, scope: CategoryId, c: CategoryId) {
    c == scope || (c in categories && categories[c].parent == Some(scope))
  }

  /**
   * The products with stock left, restricted, when a category is given, to
   * that category and its direct subcategories; an unknown category is an error.
   */
  function ListProducts(s: Store, category: Option<CategoryId>): (r: Result<map<ProductId, Product>, Error>)
    ensures r.Failure? <==> category.Some? && category.value !in s.categories
    ensures r.Failure? ==> r.error == CategoryNotFound
    ensures r.Success? ==> forall pid :: pid in r.value ==> pid in s.products && r.value[pid] == s.products[pid]
    ensures r.Success? ==> forall pid :: pid in r.value ==> r.value[pid].stock > 0
    ensures r.Success? && category.Some? ==>
      forall pid :: pid in r.value ==> InScope(s.categories, category.value, r.value[pid].category)
    ensures r.Success? ==> forall pid ::
      (pid in s.products && s.products[pid].stock > 0
       && (category.None? || InScope(s.categories, category.value, s.products[pid].category)))
      ==> pid in r.value
  {
    match category
    case None =>
      Success(map pid | pid in s.products && s.products[pid].stock > 0 :: s.products[pid])
    case Some(c) =>
      if c !in s.categories then Failure(CategoryNotFound)
      else Success(map pid | pid in s.products && s.products[pid].stock > 0
                               && InScope(s.categories, c, s.products[pid].category) :: s.products[pid])
  }

  /** Filtering by a category never adds a product the unfiltered listing lacks. */
  lemma ListFilteredWithinUnfiltered(s: Store, c: CategoryId)
    requires c in s.categories
    ensures ListProducts(s, None).Success? && ListProducts(s, Some(c)).Success?
    ensures ListProducts(s, Some(c)).value.Keys <= ListProducts(s, None).value.Keys
  {
  }

  /** The category filter does not recurse: a product two levels below `c` is not listed. */
  lemma ListExcludesGrandchildren(s: Store, c: CategoryId, child: CategoryId, pid: ProductId)
    requires c in s.categories && child in s.categories
    requires s.categories[child].parent == Some(c)
    requires pid in s.products
    requires s.products[pid].category in s.categories
    requires s.categories[s.products[pid].category].parent == Some(child)
    requires child != c && s.products[pid].category != c
    ensures pid !in ListProducts(s, Some(c)).value
  {
  }

  /** A row of the sold-products report. */
  datatype ReportRow = ReportRow(name: string, category: CategoryId, totalSold: nat, totalRevenue: real)

  /** Units of `pid` in `sold` reservations. */
  function TotalSold(rs: seq<Reservation>, pid: ProductId): nat {
    QuantityWhere(rs, pid, {Sold})
  }

  /** Sum, over the `sold` reservations of `pid`, of quantity times `price`. */
  function TotalRevenue(rs: seq<Reservation>, pid: ProductId, price: real): real
    decreases |rs|
  {
    if rs == [] then 0.0
    else
      var r := rs[|rs| - 1];
      TotalRevenue(rs[..|rs| - 1], pid, price)
      + (if r.product == pid && r.status == Sold then r.quantity as real * price else 0.0)
  }

  /** Because one price multiplies every row, revenue is units sold times that price. */
  lemma {:induction false} RevenueIsUnitsTimesPrice(rs: seq<Reservation>, pid: ProductId, price: real)
    ensures TotalRevenue(rs, pid, price) == TotalSold(rs, pid) as real * price
    decreases |rs|
  {
    if rs != [] {
      RevenueIsUnitsTimesPrice(rs[..|rs| - 1], pid, price);
    }
  }

  /** Whether `pid` appears in the report: sold units above zero and, if given, the exact category. */
  predicate Reported(s: Store, category: Option<CategoryId>, pid: ProductId) {
    && pid in s.products
    && TotalSold(s.reservations, pid) > 0
    && (category.None? || s.products[pid].category == category.value)
  }

  /**
   * `row` reports `pid`'s name and category, its units in `sold` reservations,
   * and those units priced at the product's current price.
   */
  predicate Describes(row: ReportRow, s: Store, pid: ProductId)
    requires pid in s.products
  {
    && row.name == s.products[pid].name
    && row.category == s.products[pid].category
    && row.totalSold == TotalSold(s.reservations, pid)
    && row.totalRevenue == row.totalSold as real * s.products[pid].price
  }

  /** The report row of `pid`, aggregated over its `sold` reservations. */
  function RowFor(s: Store, pid: ProductId): (row: ReportRow)
    requires pid in s.products
    ensures Describes(row, s, pid)
  {
    var p := s.products[pid];
    RevenueIsUnitsTimesPrice(s.reservations, pid, p.price);
    ReportRow(p.name, p.category, TotalSold(s.reservations, pid), TotalRevenue(s.reservations, pid, p.price))
  }

  /**
   * One row per product with more than zero sold units, restricted to an
   * exact category when one is given; revenue uses the product's current price.
   */
  function SoldReport(s: Store, category: Option<CategoryId>): (r: map<ProductId, ReportRow>)
    ensures forall pid :: pid in r <==> Reported(s, category, pid)
    ensures forall pid :: pid in r ==> pid in s.products && Describes(r[pid], s, pid)
  {
    map pid | pid in s.products && Reported(s, category, pid) :: RowFor(s, pid)
  }
}
