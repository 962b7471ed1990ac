/**
 * Concrete runs of the services on the fixture of the product tests: one
 * category, one product with ten units, and one reservation of one unit
 * that was written directly, without charging stock.
 */
module Scenarios {
  import opened Wrappers
  import opened Errors
  import opened Models
  import opened ProductService
  import opened ReservationService
  import opened Traces

  const Electronics: CategoryId := 1
  const Smartphone: ProductId := 1

  function Fixture(): (s: Store)
    ensures Valid(s)
  {
    Store(
      map[Electronics := Category("Electronics", None)],
      map[Smartphone := Product("Smartphone", Electronics, "Latest model", 999.99, 10, DefaultDiscount)],
      [Reservation(Smartphone, "testuser", Reserved, 1)])
  }

  /** Ten units in stock: asking for twenty is refused. */
  lemma InsufficientStockRefused()
    ensures CreateReservation(Fixture(), ReservationRequest(Some(Smartphone), Some(20), None)) == Failure(InsufficientStock)
  {
  }

  /** Reserving one unit takes stock from ten to nine and adds a second reservation. */
  lemma ReserveOneUnit()
    ensures var r := CreateReservation(Fixture(), ReservationRequest(Some(Smartphone), Some(1), Some("testuser2")));
            && r.Success?
            && |r.value.store.reservations| == 2
            && r.value.store.products[Smartphone].stock == 9
            && r.value.store.reservations[r.value.value] == Reservation(Smartphone, "testuser2", Reserved, 1)
  {
  }

  /** A request naming only the product reserves one unit for "Anonymous". */
  lemma RequestDefaults()
    ensures var r := CreateReservation(Fixture(), ReservationRequest(Some(Smartphone), None, None));
            && r.Success?
            && r.value.store.reservations[r.value.value] == Reservation(Smartphone, "Anonymous", Reserved, 1)
  {
  }

  /** Cancelling the fixture's reservation refunds its unit: ten becomes eleven. */
  lemma CancelRefunds()
    ensures var r := CancelReservation(Fixture(), 0);
            && r.Success?
            && r.value.value.status == Canceled
            && r.value.store.products[Smartphone].stock == 11
  {
  }

  /** Cancelling it a second time is accepted too and refunds the unit again. */
  lemma CancelTwiceRefundsTwice()
    ensures var once := CancelReservation(Fixture(), 0);
            && once.Success?
            && var twice := CancelReservation(once.value.store, 0);
            && twice.Success?
            && twice.value.store.products[Smartphone].stock == 12
  {
  }

  /** Starting a 20 percent sale stores discount 20; ending it restores the full price. */
  lemma SaleAtTwentyPercent()
    ensures var started := StartSale(Fixture(), Smartphone, 20.0);
            && started.Success?
            && started.value.value.discount == 20.0
            && DiscountedPrice(started.value.value) == 799.992
            && var ended := EndSale(started.value.store, Smartphone);
            && ended.Success?
            && DiscountedPrice(ended.value.value) == 999.99
  {
  }

  /** Two reservations that together take the whole stock succeed; a third unit is refused. */
  lemma ExhaustStock()
    ensures var first := CreateReservation(Fixture(), ReservationRequest(Some(Smartphone), Some(4), None));
            && first.Success?
            && var second := CreateReservation(first.value.store, ReservationRequest(Some(Smartphone), Some(6), None));
            && second.Success?
            && second.value.store.products[Smartphone].stock == 0
            && CreateReservation(second.value.store, ReservationRequest(Some(Smartphone), Some(1), None))
               == Failure(InsufficientStock)
  {
  }

  /** Once the fixture's reservation is sold, the report has one row with one unit sold. */
  lemma ReportAfterSale()
    ensures var sold := CompleteSale(Fixture(), 0);
            && sold.Success?
            && var report := SoldReport(sold.value.store, None);
            && report.Keys == {Smartphone}
            && report[Smartphone].totalSold == 1
            && report[Smartphone].totalRevenue == 999.99
  {
    var sold := CompleteSale(Fixture(), 0).value.store;
    assert TotalSold(sold.reservations, Smartphone) == 1 by {
      assert sold.reservations[..0] == [];
    }
  }

  /** Two units sold at 100.00 report 200.00 of revenue. */
  lemma ReportTwoUnitsAtHundred()
    ensures var s := Store(
              map[Electronics := Category("Electronics", None)],
              map[Smartphone := Product("Smartphone", Electronics, "", 100.0, 8, DefaultDiscount)],
              [Reservation(Smartphone, "testuser", Sold, 2)]);
            var report := SoldReport(s, None);
            && Smartphone in report
            && report[Smartphone].totalSold == 2
            && report[Smartphone].totalRevenue == 200.0
  {
    var rs := [Reservation(Smartphone, "testuser", Sold, 2)];
    assert rs[..0] == [];
    assert Counted(rs[0], Smartphone, {Sold}) == 2;
    assert QuantityWhere(rs, Smartphone, {Sold}) == 2;
  }
}
