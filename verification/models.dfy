/**
 * The entities of the store: categories, products and reservations, the
 * derived discounted price, and the store state the services transform.
 * Money and discount percentages are exact `real`s; the storage precision of
 * the decimal columns is not modelled.
 */
module Models {
  import opened Wrappers

  type CategoryId = nat
  type ProductId = nat

  /** A reservation is identified by its position in the store's reservation list. */
  type ReservationId = nat

  /** A category; `parent` links it to the category it is a subcategory of. */
  datatype Category = Category(name: string, parent: Option<CategoryId>)

  /**
   * A product. `stock` is an `int` so that staying non-negative is a proved
   * invariant of the store (see `Valid`) rather than a fact of the type.
   */
  datatype Product = Product(
    name: string,
    category: CategoryId,
    description: string,
    price: real,
    stock: int,
    discount: real)

  /** Discount of a product that was never put on sale. */
  const DefaultDiscount: real := 0.0

  /** The price after the percentage discount; derived on read, never stored. */
  function DiscountedPrice(p: Product): (r: real)
    ensures p.discount == DefaultDiscount ==> r == p.price
    ensures p.discount == 100.0 ==> r == 0.0
    ensures 0.0 <= p.discount <= 100.0 && 0.0 <= p.price ==> 0.0 <= r <= p.price
    ensures 0.0 < p.discount && 0.0 < p.price ==> r < p.price
  {
    var factor := 1.0 - p.discount / 100.0;
    assert 0.0 <= p.discount <= 100.0 && 0.0 <= p.price ==> p.price * factor <= p.price * 1.0 by {
      if 0.0 <= p.discount <= 100.0 && 0.0 <= p.price {
        assert p.price * (1.0 - factor) >= 0.0;
      }
    }
    p.price * factor
  }

  /** The three reservation statuses; every reservation is in exactly one. */
  datatype Status = Reserved | Sold | Canceled

  const DefaultStatus: Status := Reserved
  const DefaultQuantity: nat := 1

  /** A hold on `quantity` units of `product` on behalf of a free-text user label. */
  datatype Reservation = Reservation(product: ProductId, user: string, status: Status, quantity: nat)

  /** The whole persistent state the services read and write. */
  datatype Store = Store(
    categories: map<CategoryId, Category>,
    products: map<ProductId, Product>,
    reservations: seq<Reservation>)

  /** A committed write: the store after the call and the object the call returns. */
  datatype Committed<+T> = Committed(store: Store, value: T)

  predicate StockNonNegative(s: Store) {
    forall pid :: pid in s.products ==> s.products[pid].stock >= 0
  }

  /** Every reservation points at an existing product (the foreign key guarantees this). */
  predicate ReservationsReferToProducts(s: Store) {
    forall i :: 0 <= i < |s.reservations| ==> s.reservations[i].product in s.products
  }

  /** The store invariant every operation preserves. */
  predicate Valid(s: Store) {
    StockNonNegative(s) && ReservationsReferToProducts(s)
  }

  /**
   * `after` differs from `before` only in the stock of `pid`, which is `n`;
   * the set of products is the same.
   */
  predicate OnlyStockChanged(before: map<ProductId, Product>, after: map<ProductId, Product>, pid: ProductId, n: int) {
    && pid in before
    && after.Keys == before.Keys
    && after[pid] == before[pid].(stock := n)
    && forall q :: q in before && q != pid ==> after[q] == before[q]
  }

  /** What reservation `r` contributes to a tally of `pid`'s units in the given statuses. */
  function Counted(r: Reservation, pid: ProductId, statuses: set<Status>): nat {
    if r.product == pid && r.status in statuses then r.quantity else 0
  }

  /** Total quantity of the reservations of `pid` whose status is in `statuses`. */
  function QuantityWhere(rs: seq<Reservation>, pid: ProductId, statuses: set<Status>): nat
    decreases |rs|
  {
    if rs == [] then 0
    else QuantityWhere(rs[..|rs| - 1], pid, statuses) + Counted(rs[|rs| - 1], pid, statuses)
  }

  lemma QuantityWhereAppend(rs: seq<Reservation>, r: Reservation, pid: ProductId, statuses: set<Status>)
    ensures QuantityWhere(rs + [r], pid, statuses) == QuantityWhere(rs, pid, statuses) + Counted(r, pid, statuses)
  {
    assert (rs + [r])[..|rs|] == rs;
  }

  /** Replacing one reservation changes a tally by exactly the difference of the two contributions. */
  lemma {:induction false} QuantityWhereUpdate(rs: seq<Reservation>, i: nat, r: Reservation, pid: ProductId, statuses: set<Status>)
    requires i < |rs|
    ensures QuantityWhere(rs[i := r], pid, statuses)
            == QuantityWhere(rs, pid, statuses) - Counted(rs[i], pid, statuses) + Counted(r, pid, statuses)
  {
    var last := |rs| - 1;
    if i == last {
      assert rs[i := r][..last] == rs[..last];
    } else {
      assert rs[i := r][..last] == rs[..last][i := r];
      QuantityWhereUpdate(rs[..last], i, r, pid, statuses);
    }
  }
}
