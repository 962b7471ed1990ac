/**
 * Arbitrary sequences of state-changing calls. A failed call leaves the
 * store as it was, so a trace runs each call on the store the previous
 * successful calls produced.
 */
module Traces {
  import opened Wrappers
  import opened Models
  import opened ProductService
  import opened ReservationService

  /** A state-changing service call. */
  datatype Call =
    | Reserve(req: ReservationRequest)
    | Complete(rid: ReservationId)
    | Cancel(rid: ReservationId)
    | BeginSale(pid: ProductId, discount: real)
    | FinishSale(pid: ProductId)

  /** The store after `call`, as written: a second cancel of the same reservation refunds again. */
  function Apply(s: Store, call: Call): (s': Store)
    requires Valid(s)
    ensures Valid(s')
    ensures s'.products.Keys == s.products.Keys
  {
    match call
    case Reserve(req) =>
      var r := CreateReservation(s, req);
      if r.Success? then r.value.store else s
    case Complete(rid) =>
      var r := CompleteSale(s, rid);
      if r.Success? then r.value.store else s
    case Cancel(rid) =>
      var r := CancelReservation(s, rid);
      if r.Success? then r.value.store else s
    case BeginSale(pid, d) =>
      var r := StartSale(s, pid, d);
      if r.Success? then r.value.store else s
    case FinishSale(pid) =>
      var r := EndSale(s, pid);
      if r.Success? then r.value.store else s
  }

  /** The store after every call of `calls` in order; it stays valid, so stock never goes below zero. */
  function Run(s: Store, calls: seq<Call>): (s': Store)
    requires Valid(s)
    ensures Valid(s')
    ensures s'.products.Keys == s.products.Keys
    decreases |calls|
  {
    if calls == [] then s else Run(Apply(s, calls[0]), calls[1..])
  }

  /** Units of `pid` that `call` charged: the quantity of a successful create on `pid`. */
  function ChargedBy(s: Store, call: Call, pid: ProductId): nat
    requires Valid(s)
  {
    if call.Reserve? && call.req.product == Some(pid) && CreateReservation(s, call.req).Success?
    then RequestedQuantity(call.req) else 0
  }

  /** Units of `pid` that `call` refunded: the quantity of a successful cancel call on one of its reservations. */
  function RefundedBy(s: Store, call: Call, pid: ProductId): nat
    requires Valid(s)
  {
    if call.Cancel? && CancelReservation(s, call.rid).Success? && s.reservations[call.rid].product == pid
    then s.reservations[call.rid].quantity else 0
  }

  /** Units of `pid` charged by the successful creates of a trace. */
  function TotalCharged(s: Store, calls: seq<Call>, pid: ProductId): nat
    requires Valid(s)
    decreases |calls|
  {
    if calls == [] then 0 else ChargedBy(s, calls[0], pid) + TotalCharged(Apply(s, calls[0]), calls[1..], pid)
  }

  /** Units of `pid` refunded by the successful cancel calls of a trace. */
  function TotalRefunded(s: Store, calls: seq<Call>, pid: ProductId): nat
    requires Valid(s)
    decreases |calls|
  {
    if calls == [] then 0 else RefundedBy(s, calls[0], pid) + TotalRefunded(Apply(s, calls[0]), calls[1..], pid)
  }

  /** One call moves `pid`'s stock by what it refunded minus what it charged. */
  lemma ApplyStock(s: Store, call: Call, pid: ProductId)
    requires Valid(s) && pid in s.products
    ensures Apply(s, call).products[pid].stock == s.products[pid].stock - ChargedBy(s, call, pid) + RefundedBy(s, call, pid)
  {
    match call
    case Reserve(req) =>
    case Complete(rid) =>
    case Cancel(rid) =>
    case BeginSale(p, d) =>
    case FinishSale(p) =>
  }

  /**
   * The stock ledger: current stock is the initial stock, minus the
   * quantities of successful creates, plus the quantities of successful
   * cancel calls (calls, not canceled reservations: a re-cancel counts twice).
   */
  lemma {:induction false} StockLedger(s: Store, calls: seq<Call>, pid: ProductId)
    requires Valid(s) && pid in s.products
    ensures pid in Run(s, calls).products
    ensures Run(s, calls).products[pid].stock
            == s.products[pid].stock - TotalCharged(s, calls, pid) + TotalRefunded(s, calls, pid)
    decreases |calls|
  {
    if calls != [] {
      ApplyStock(s, calls[0], pid);
      StockLedger(Apply(s, calls[0]), calls[1..], pid);
    }
  }

  /** Corollary of `Run`'s contract, for every prefix of a trace: no stock is negative. */
  lemma StockNeverNegative(s: Store, calls: seq<Call>, k: nat, pid: ProductId)
    requires Valid(s) && k <= |calls|
    requires pid in Run(s, calls[..k]).products
    ensures Run(s, calls[..k]).products[pid].stock >= 0
  {
  }

  /** The store after `call` in the corrected model, where re-cancelling is refused. */
  function ApplyGuarded(s: Store, call: Call): (s': Store)
    requires Valid(s)
    ensures Valid(s')
    ensures s'.products.Keys == s.products.Keys
  {
    match call
    case Cancel(rid) =>
      var r := CancelReservationGuarded(s, rid);
      if r.Success? then r.value.store else s
    case _ => Apply(s, call)
  }

  function RunGuarded(s: Store, calls: seq<Call>): (s': Store)
    requires Valid(s)
    ensures Valid(s')
    ensures s'.products.Keys == s.products.Keys
    decreases |calls|
  {
    if calls == [] then s else RunGuarded(ApplyGuarded(s, calls[0]), calls[1..])
  }

  /** Units of `pid` held by reservations that are not canceled: reserved or consumed by a sale. */
  function Outstanding(s: Store, pid: ProductId): nat {
    QuantityWhere(s.reservations, pid, {Reserved, Sold})
  }

  /** Units of `pid` accounted for: those still in stock plus those its live reservations hold. */
  function Holdings(s: Store, pid: ProductId): int
    requires pid in s.products
  {
    s.products[pid].stock + Outstanding(s, pid)
  }

  /** In the corrected model no call changes a product's holdings. */
  lemma ApplyGuardedKeepsHoldings(s: Store, call: Call, pid: ProductId)
    requires Valid(s) && pid in s.products
    ensures Holdings(ApplyGuarded(s, call), pid) == Holdings(s, pid)
  {
    match call
    case Reserve(req) =>
      var r := CreateReservation(s, req);
      if r.Success? {
        QuantityWhereAppend(s.reservations, r.value.store.reservations[|s.reservations|], pid, {Reserved, Sold});
      }
    case Complete(rid) =>
      var r := CompleteSale(s, rid);
      if r.Success? {
        QuantityWhereUpdate(s.reservations, rid, r.value.value, pid, {Reserved, Sold});
      }
    case Cancel(rid) =>
      var r := CancelReservationGuarded(s, rid);
      if r.Success? {
        QuantityWhereUpdate(s.reservations, rid, s.reservations[rid].(status := Canceled), pid, {Reserved, Sold});
      }
    case BeginSale(p, d) =>
    case FinishSale(p) =>
  }

  /**
   * Conservation in the corrected model: along any trace, a product's stock
   * plus the units its non-canceled reservations hold never changes.
   */
  lemma {:induction false} GuardedHoldingsConserved(s: Store, calls: seq<Call>, pid: ProductId)
    requires Valid(s) && pid in s.products
    ensures pid in RunGuarded(s, calls).products
    ensures Holdings(RunGuarded(s, calls), pid) == Holdings(s, pid)
    decreases |calls|
  {
    if calls != [] {
      ApplyGuardedKeepsHoldings(s, calls[0], pid);
      GuardedHoldingsConserved(ApplyGuarded(s, calls[0]), calls[1..], pid);
    }
  }

  /**
   * As written, cancelling an already canceled reservation raises its
   * product's holdings by the reservation's quantity: units nobody returned.
   */
  lemma RecancelInflatesHoldings(s: Store, rid: ReservationId)
    requires Valid(s)
    requires rid < |s.reservations| && s.reservations[rid].status == Canceled
    ensures var pid := s.reservations[rid].product;
            Holdings(Apply(s, Cancel(rid)), pid) == Holdings(s, pid) + s.reservations[rid].quantity
  {
    var pid := s.reservations[rid].product;
    var r := CancelReservation(s, rid);
    assert r.Success?;
    QuantityWhereUpdate(s.reservations, rid, s.reservations[rid].(status := Canceled), pid, {Reserved, Sold});
    assert s.reservations[rid := s.reservations[rid].(status := Canceled)] == s.reservations;
  }

  /** The sold report grows by exactly the quantity of the reservation a successful sale completes. */
  lemma CompleteSaleAddsToSoldTotal(s: Store, rid: ReservationId, pid: ProductId)
    requires CompleteSale(s, rid).Success?
    ensures var after := CompleteSale(s, rid).value.store;
            TotalSold(after.reservations, pid)
            == TotalSold(s.reservations, pid) + (if s.reservations[rid].product == pid then s.reservations[rid].quantity else 0)
  {
    var r := CompleteSale(s, rid);
    QuantityWhereUpdate(s.reservations, rid, r.value.value, pid, {Sold});
  }
}
