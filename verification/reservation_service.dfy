/**
 * The reservation state machine: creating a reservation charges stock,
 * completing a sale consumes it, cancelling refunds it. Every stock change
 * goes through `ProductService.ModifyStock`.
 */
module ReservationService {
  import opened Wrappers
  import opened Errors
  import opened Models
  import opened ProductService

  /** The body of a create request; every key may be absent. */
  datatype ReservationRequest = ReservationRequest(product: Option<ProductId>, quantity: Option<nat>, user: Option<string>)

  /** User label of a request that names no user. */
  const AnonymousUser: string := "Anonymous"

  function RequestedQuantity(req: ReservationRequest): nat {
    req.quantity.GetOr(DefaultQuantity)
  }

  function RequestedUser(req: ReservationRequest): string {
    req.user.GetOr(AnonymousUser)
  }

  /** The transitions the status enumeration is meant to allow: out of `reserved` only. */
  predicate AllowedTransition(from: Status, to: Status) {
    from == Reserved && to != Reserved
  }

  /**
   * `after` is `before` with `pid`'s stock lowered by the requested quantity
   * and one new `reserved` reservation, numbered `id`, appended.
   */
  predicate Created(before: Store, after: Store, id: ReservationId, req: ReservationRequest) {
    && req.product.Some?
    && var pid := req.product.value;
    && pid in before.products
    && id == |before.reservations|
    && after.reservations
       == before.reservations + [Reservation(pid, RequestedUser(req), Reserved, RequestedQuantity(req))]
    && OnlyStockChanged(before.products, after.products, pid, before.products[pid].stock - RequestedQuantity(req))
    && after.categories == before.categories
  }

  /** Reserves units of a product: charge the stock first, then record the reservation. */
  function CreateReservation(s: Store, req: ReservationRequest): (r: Result<Committed<ReservationId>, Error>)
    ensures (req.product.None? || req.product.value !in s.products) ==> r == Failure(ProductNotFound)
    ensures req.product.Some? && req.product.value in s.products
            && RequestedQuantity(req) > s.products[req.product.value].stock
            ==> r == Failure(InsufficientStock)
    ensures (req.product.Some? && req.product.value in s.products
             && RequestedQuantity(req) <= s.products[req.product.value].stock) ==> r.Success?
    ensures r.Success? ==> Created(s, r.value.store, r.value.value, req)
    ensures r.Success? ==> r.value.store.reservations[r.value.value].status == DefaultStatus
    ensures r.Success? && Valid(s) ==> Valid(r.value.store)
  {
    match req.product
    case None => Failure(ProductNotFound)
    case Some(pid) =>
      var _ :- GetProduct(s, pid);
      var quantity := RequestedQuantity(req);
      var charged :- ModifyStock(s, pid, -(quantity as int));
      var reservation := Reservation(pid, RequestedUser(req), DefaultStatus, quantity);
      var id: ReservationId := |s.reservations|;
      Success(Committed(charged.(reservations := charged.reservations + [reservation]), id))
  }

  /** The reservation numbered `rid`, or ReservationNotFound. */
  function FindReservation(s: Store, rid: ReservationId): (r: Result<Reservation, Error>)
    ensures r.Success? <==> rid < |s.reservations|
    ensures r.Success? ==> r.value == s.reservations[rid]
    ensures r.Failure? ==> r.error == ReservationNotFound
  {
    if rid < |s.reservations| then Success(s.reservations[rid]) else Failure(ReservationNotFound)
  }

  /** Marks a `reserved` reservation `sold`; the units were charged at creation, so stock is untouched. */
  function CompleteSale(s: Store, rid: ReservationId): (r: Result<Committed<Reservation>, Error>)
    ensures rid >= |s.reservations| ==> r == Failure(ReservationNotFound)
    ensures rid < |s.reservations| && s.reservations[rid].status != Reserved
            ==> r == Failure(ReservationError(NotAvailableForSale))
    ensures rid < |s.reservations| && s.reservations[rid].status == Reserved ==> r.Success?
    ensures r.Success? ==> rid < |s.reservations| && AllowedTransition(s.reservations[rid].status, Sold)
    ensures r.Success? ==> r.value.value == s.reservations[rid].(status := Sold)
    ensures r.Success? ==> r.value.store.reservations == s.reservations[rid := r.value.value]
    ensures r.Success? ==> r.value.store.products == s.products && r.value.store.categories == s.categories
    ensures r.Success? && Valid(s) ==> Valid(r.value.store)
  {
    var reservation :- FindReservation(s, rid);
    if reservation.status != Reserved then
      Failure(ReservationError(NotAvailableForSale))
    else
      var sold := reservation.(status := Sold);
      Success(Committed(s.(reservations := s.reservations[rid := sold]), sold))
  }

  /**
   * `after` is `before` with reservation `rid` marked `canceled` and its
   * quantity added back to its product's stock.
   */
  predicate Refunded(before: Store, after: Store, rid: ReservationId) {
    && rid < |before.reservations|
    && var res := before.reservations[rid];
    && res.product in before.products
    && OnlyStockChanged(before.products, after.products, res.product, before.products[res.product].stock + res.quantity)
    && after.reservations == before.reservations[rid := res.(status := Canceled)]
    && after.categories == before.categories
  }

  /**
   * Cancels a reservation unless it is `sold`, refunding its quantity to
   * stock. An already `canceled` reservation is not refused: it is refunded
   * again (see `DoubleCancelRefundsTwice`).
   */
  function CancelReservation(s: Store, rid: ReservationId): (r: Result<Committed<Reservation>, Error>)
    requires rid < |s.reservations| ==> s.reservations[rid].product in s.products
    ensures rid >= |s.reservations| ==> r == Failure(ReservationNotFound)
    ensures rid < |s.reservations| && s.reservations[rid].status == Sold
            ==> r == Failure(ReservationError(AlreadyCompleted))
    ensures (rid < |s.reservations| && s.reservations[rid].status != Sold
             && s.products[s.reservations[rid].product].stock >= 0) ==> r.Success?
    ensures r.Success? ==> Refunded(s, r.value.store, rid)
    ensures r.Success? ==> r.value.value == s.reservations[rid].(status := Canceled)
    ensures r.Success? && Valid(s) ==> Valid(r.value.store)
  {
    var reservation :- FindReservation(s, rid);
    if reservation.status == Sold then
      Failure(ReservationError(AlreadyCompleted))
    else
      var refunded :- ModifyStock(s, reservation.product, reservation.quantity);
      var canceled := reservation.(status := Canceled);
      Success(Committed(refunded.(reservations := refunded.reservations[rid := canceled]), canceled))
  }

  /**
   * Corrected cancel: a reservation that is already `canceled` is refused
   * like a `sold` one, so every accepted cancel is an allowed transition.
   */
  function CancelReservationGuarded(s: Store, rid: ReservationId): (r: Result<Committed<Reservation>, Error>)
    requires rid < |s.reservations| ==> s.reservations[rid].product in s.products
    ensures rid >= |s.reservations| ==> r == Failure(ReservationNotFound)
    ensures rid < |s.reservations| && s.reservations[rid].status == Canceled
            ==> r == Failure(ReservationError(AlreadyCanceled))
    ensures rid < |s.reservations| && s.reservations[rid].status == Sold
            ==> r == Failure(ReservationError(AlreadyCompleted))
    ensures (rid < |s.reservations| && s.reservations[rid].status == Reserved
             && s.products[s.reservations[rid].product].stock >= 0) ==> r.Success?
    ensures r.Success? ==> rid < |s.reservations| && AllowedTransition(s.reservations[rid].status, Canceled)
    ensures r.Success? ==> Refunded(s, r.value.store, rid)
    ensures r.Success? && Valid(s) ==> Valid(r.value.store)
  {
    var reservation :- FindReservation(s, rid);
    if reservation.status == Canceled then
      Failure(ReservationError(AlreadyCanceled))
    else
      CancelReservation(s, rid)
  }

  /** Cancelling a reservation just created puts every product back as it was. */
  lemma CreateThenCancelRestoresProducts(s: Store, req: ReservationRequest)
    requires Valid(s)
    requires CreateReservation(s, req).Success?
    ensures var created := CreateReservation(s, req).value;
            var canceled := CancelReservation(created.store, created.value);
            && canceled.Success?
            && canceled.value.store.products == s.products
            && canceled.value.value.status == Canceled
  {
    var created := CreateReservation(s, req).value;
    var pid := req.product.value;
    var after := CancelReservation(created.store, created.value).value.store;
    assert after.products.Keys == s.products.Keys;
    forall q | q in s.products
      ensures after.products[q] == s.products[q]
    {
    }
  }

  /** A sold reservation cannot be canceled afterwards. */
  lemma SoldCannotBeCanceled(s: Store, rid: ReservationId)
    requires Valid(s)
    requires CompleteSale(s, rid).Success?
    ensures CancelReservation(CompleteSale(s, rid).value.store, rid) == Failure(ReservationError(AlreadyCompleted))
  {
  }

  /** A canceled reservation cannot be sold afterwards. */
  lemma CanceledCannotBeSold(s: Store, rid: ReservationId)
    requires Valid(s)
    requires CancelReservation(s, rid).Success?
    ensures CompleteSale(CancelReservation(s, rid).value.store, rid) == Failure(ReservationError(NotAvailableForSale))
  {
  }

  /**
   * As written, cancelling twice succeeds twice and refunds the quantity
   * twice: the second call is a `canceled` to `canceled` step that the
   * allowed transitions exclude.
   */
  lemma DoubleCancelRefundsTwice(s: Store, rid: ReservationId)
    requires Valid(s)
    requires rid < |s.reservations| && s.reservations[rid].status != Sold
    ensures var once := CancelReservation(s, rid);
            && once.Success?
            && var twice := CancelReservation(once.value.store, rid);
            && twice.Success?
            && !AllowedTransition(once.value.value.status, Canceled)
            && var res := s.reservations[rid];
            twice.value.store.products[res.product].stock == s.products[res.product].stock + 2 * res.quantity
  {
  }

  /** With the guard, a second cancel is refused and nothing is refunded twice. */
  lemma GuardedCancelIsFinal(s: Store, rid: ReservationId)
    requires Valid(s)
    requires CancelReservationGuarded(s, rid).Success?
    ensures CancelReservationGuarded(CancelReservationGuarded(s, rid).value.store, rid)
            == Failure(ReservationError(AlreadyCanceled))
  {
  }
}
