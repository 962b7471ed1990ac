# Stock and reservation workflow of the shop API, in Dafny

This project models the service layer of a small shop backend. It covers
products with stock and a sale discount, categories with one level of
subcategories, and reservations that move from `reserved` to `sold` or
`canceled`.

The store is an immutable value (`Models.Store`) with three parts:
- a map of categories, each with an optional parent;
- a map of products (name, category, description, price, stock, discount);
- the list of reservations (product, user label, status, quantity). A reservation's id is its position in this list.

Every service call is a pure function from a store to a `Result`. It returns
either the new store together with the object the call returns, or a domain
error. A failed call returns no store, so a failure never changes state.
Money and percentages are exact `real`s.

Modules follow the source:
- `Models` — the entities, the derived discounted price and the store invariant.
- `ProductService` — lookup, the guarded stock update, the sale state, the listing and the sold report.
- `CategoryService` — category lookup.
- `ReservationService` — the reservation state machine.
- `Traces` — arbitrary sequences of calls and the global stock facts over them.
- `Scenarios` — worked instances on the fixture of the product tests.
- `Wrappers` and `Errors` — the `Option`/`Result` types and the error kinds.

The global facts are proved over arbitrary traces. A trace contains only
the state-changing service calls: create, complete, cancel, start sale and end
sale. Editing a product through the product update endpoint is not such a
call. That endpoint writes `stock` directly without going through
`modify_stock` (products/views.py:35, products/serializers.py:21). After one
such edit, the stock ledger below no longer describes the program. Non-negative
stock is still enforced there, but by the column, not by the service guard.
- Stock never goes below zero. `Valid` is preserved by every call, so `Traces.Run` keeps it.
- Current stock equals the initial stock, minus the quantities of successful creates, plus the quantities of successful cancel calls (`Traces.StockLedger`). The ledger counts cancel calls, not canceled reservations, because the code refunds a reservation again when it is cancelled a second time.

The specification and the code disagree in a few places. The model follows the code:
- Cancelling an already canceled reservation is not refused; it refunds the stock again (see Findings).
- A reservation quantity of 0 is accepted. The quantity column is a non-negative integer field, and nothing checks for zero.
- A missing reservation is not wrapped in a domain error. The store's "does not exist" signal propagates; it is modelled as `ReservationNotFound`.
- The sold report prices sold units at the product's current price, not the price at the time of sale.

## Model

| member | source | states |
|---|---|---|
| Models.DiscountedPrice | products/models.py:31-32 | Discount 0 gives the full price, discount 100 gives 0, a discount between 0 and 100 on a non-negative price gives a value between 0 and the price, and any positive discount on a positive price lowers it |
| ProductService.GetProduct | products/services.py:29-33 | Succeeds exactly when the id is in the store, returning that product; otherwise fails with ProductNotFound |
| ProductService.ModifyStock | products/services.py:36-43 | Fails with InsufficientStock exactly when stock + delta < 0, and then writes nothing; otherwise the product's stock becomes stock + delta (hence ≥ 0) and no other product, reservation or category changes |
| ProductService.StartSale | products/services.py:46-50 | Unknown id fails with ProductNotFound; otherwise the discount becomes the given value (not range-checked), nothing else changes, and the updated product is returned |
| ProductService.EndSale | products/services.py:53-57 | Unknown id fails with ProductNotFound; otherwise the discount becomes 0, nothing else changes, and the returned product's discounted price equals its price |
| ProductService.EndSaleUndoesStartSale | products/services.py:46-57 | Ending a sale right after starting one at any discount gives the same store as ending it directly: the product back at discount 0 with all other fields as before |
| ProductService.EndSaleIdempotent | products/services.py:53-57 | Ending a sale a second time changes nothing |
| ProductService.ListProducts | products/services.py:20-26 | Lists exactly the in-stock products (stock > 0) unchanged; with a category, exactly those whose category is it or a direct subcategory of it; an unknown category fails with CategoryNotFound |
| ProductService.ListFilteredWithinUnfiltered | products/services.py:20-26 | The category-filtered listing is contained in the unfiltered one |
| ProductService.ListExcludesGrandchildren | products/services.py:23-25 | A product whose category is two levels below the filter category is not listed |
| ProductService.RevenueIsUnitsTimesPrice | products/services.py:62-65 | Summing quantity × price over the sold reservations of a product equals its units sold times that one price |
| ProductService.SoldReport | products/services.py:60-74 | A product has a row exactly when it exists, its sold units are above zero and, if a category is given, its category equals it; the row carries its name, its category, its sold units, and those units times its current price as revenue |
| CategoryService.GetCategory | products/services.py:84-85 | Succeeds exactly when the id is in the store, returning that category; otherwise fails with CategoryNotFound |
| ReservationService.CreateReservation | products/services.py:95-103 | No or unknown product fails with ProductNotFound; quantity above stock fails with InsufficientStock; exactly when the product exists and the quantity is at most its stock, it succeeds: stock drops by the quantity (default 1) and exactly one `reserved` reservation (user default "Anonymous") is appended under the next id; validity is preserved |
| ReservationService.FindReservation | products/services.py:107 | Succeeds exactly for an existing reservation id; otherwise fails with ReservationNotFound |
| ReservationService.CompleteSale | products/services.py:106-112 | Unknown id fails with ReservationNotFound; a status other than `reserved` fails with ReservationError; a `reserved` one always succeeds, and only that reservation changes, to `sold`, and no product (stock included) changes |
| ReservationService.CancelReservation | products/services.py:115-123 | Unknown id fails with ReservationNotFound; `sold` fails with ReservationError; any other status (including `canceled`) with non-negative stock succeeds, adds the quantity back to the product's stock and sets the status to `canceled`, nothing else changing |
| ReservationService.CancelReservationGuarded | products/services.py:115-123 | Corrected cancel: also refuses a `canceled` reservation and accepts a `reserved` one (given non-negative stock), so every accepted cancel is a `reserved` to `canceled` step with the same refund |
| ReservationService.CreateThenCancelRestoresProducts | products/services.py:95-123 | Cancelling the reservation just created succeeds and gives back exactly the original products map |
| ReservationService.SoldCannotBeCanceled | products/services.py:106-118 | After a successful sale, cancelling the reservation fails with ReservationError (already completed) |
| ReservationService.CanceledCannotBeSold | products/services.py:106-123 | After a successful cancel, completing the reservation fails with ReservationError (not available for sale) |
| ReservationService.DoubleCancelRefundsTwice | products/services.py:117-122 | Cancelling a non-sold reservation twice succeeds twice, the second step is not an allowed transition, and the stock rises by twice the quantity |
| ReservationService.GuardedCancelIsFinal | products/services.py:115-123 | With the guard, a second cancel of the same reservation is refused |
| Traces.Apply | products/services.py:40-43 | Every state-changing call keeps all stock non-negative and every reservation pointing at an existing product, and never adds or removes products |
| Traces.Run | products/models.py:27 | Along any sequence of calls, stock stays non-negative and the set of products is unchanged |
| Traces.ApplyStock | products/services.py:99-120 | One call moves a product's stock by exactly what it refunded minus what it charged |
| Traces.StockLedger | products/services.py:95-123 | After any trace, stock = initial stock − quantities of successful creates + quantities of successful cancel calls |
| Traces.StockNeverNegative | products/services.py:40-43 | Corollary of `Traces.Run`: at every point of any trace, every product's stock is non-negative |
| Traces.ApplyGuarded | products/services.py:115-123 | The corrected step function keeps the store valid and the products' set unchanged |
| Traces.RunGuarded | products/services.py:115-123 | The corrected trace keeps the store valid and the products' set unchanged |
| Traces.ApplyGuardedKeepsHoldings | products/services.py:95-123 | In the corrected model no call changes stock plus the units held by non-canceled reservations |
| Traces.GuardedHoldingsConserved | products/services.py:95-123 | In the corrected model, stock plus units held by non-canceled reservations is the same after any trace |
| Traces.RecancelInflatesHoldings | products/services.py:117-122 | As written, re-cancelling a canceled reservation raises stock plus held units by its quantity |
| Traces.CompleteSaleAddsToSoldTotal | products/services.py:61-65 | A successful sale adds exactly the reservation's quantity to its product's sold units in the report and leaves every other product's total unchanged |
| Scenarios.InsufficientStockRefused | products/tests.py:54-58 | Ten in stock, a request for twenty is refused with InsufficientStock |
| Scenarios.ReserveOneUnit | products/tests.py:60-67 | Reserving one unit gives two reservations and stock 9 |
| Scenarios.RequestDefaults | products/services.py:97-98 | A request naming only the product reserves one unit for "Anonymous" |
| Scenarios.CancelRefunds | products/tests.py:69-76 | Cancelling the fixture reservation gives status `canceled` and stock 11 |
| Scenarios.CancelTwiceRefundsTwice | products/services.py:117-122 | Cancelling the fixture reservation twice gives stock 12 |
| Scenarios.SaleAtTwentyPercent | products/tests.py:78-83 | A 20 percent sale stores discount 20 (price 999.99 becomes 799.992); ending it restores 999.99 |
| Scenarios.ExhaustStock | products/services.py:99-100 | Reservations of 4 and 6 on stock 10 succeed and leave 0; one more unit is refused |
| Scenarios.ReportAfterSale | products/tests.py:85-92 | After the fixture reservation is sold, the report has one row with one unit sold and revenue 999.99 |
| Scenarios.ReportTwoUnitsAtHundred | products/services.py:62-65 | Two units sold at 100.00 report total sold 2 and revenue 200.00 |

## Left out

- HTTP routing, request parsing, serialization and schema metadata (products/views.py, products/urls.py, products/serializers.py) are not part of this model. The same goes for the mapping of errors to status codes (products/exceptions.py); the errors are the `Errors.Error` variants.
- The reservation detail view calls a `get_reservation` service that the service layer does not define. It is not modelled.
- `get_all_categories` and `get_all_reservations` return a whole collection unfiltered. In the model these are the store's `categories` and `reservations` fields.
- Transactions, locking and partial failure are not modelled. The code saves the stock before it creates the reservation row; here each call is one atomic step.
- The date-range filter of the sold report is not modelled. Its effect depends on how the mapper joins a filter placed after an aggregation on a multi-valued relation.
- The decimal columns' precision and rounding are not modelled; prices and discounts are exact reals. Creation and update timestamps are not modelled either.
- The range of the integer columns is not modelled. `stock` and `quantity` are unbounded here, but the database guarantees only 0 to 2147483647 for them (products/models.py:27, 50). In the source, a refund that takes stock past that bound fails when the product is saved (products/services.py:43). `ProductService.ModifyStock` and `ReservationService.CancelReservation` succeed on the same input. Repeated re-cancel refunds (see Findings) can reach the bound.
- Category, product and reservation CRUD are not modelled: creation, editing, deletion and cascade deletion. So no call adds or removes products or categories. Nothing in the code checks categories for cycles, so there is nothing to model there.
- The `int(...)` parse of the requested quantity is not modelled; the model takes the quantity as a natural number and so excludes negative quantities. The source accepts them (products/services.py:97). With quantity -3, `modify_stock` passes its guard and saves stock raised by 3 (products/services.py:40-43). The reservation insert then violates the non-negative `quantity` column (products/models.py:50). With no transaction, the stock stays raised by 3 and no reservation exists.
- Query parameters that are absent (or empty strings, which Python treats as false) are `None` options.
- Reservation ids are positions in the reservation list, starting at 0. The database's auto-increment ids start at 1.
- ReservationService.CancelReservation: requires that the reservation's product exists. The foreign key guarantees this in the source. The contract guarantees success only when that product's stock is non-negative, which `Valid` ensures.
- ProductService.ModifyStock: takes a product id that must be in the store, in place of the already-fetched product object the source passes.

## Findings

| source | as written | input that shows it | evidently intended | confidence | as-written member | corrected member |
|---|---|---|---|---|---|---|
| products/services.py:117 | cancel refuses only `sold`, so a `canceled` reservation can be canceled again and its quantity is added to stock again | stock 10 with one `reserved` reservation of 1 unit; cancel it twice: stock becomes 12 (`Scenarios.CancelTwiceRefundsTwice`) | a terminal `canceled` reservation is refused like a `sold` one, so stock plus units held by live reservations never changes | medium, not executed | ReservationService.DoubleCancelRefundsTwice | ReservationService.CancelReservationGuarded |

The main trace model (`Traces.Apply`, `Traces.Run`, `Traces.StockLedger`)
keeps the behaviour as written, so its ledger counts cancel calls. The
corrected trace model (`Traces.ApplyGuarded`, `Traces.RunGuarded`) uses the
guarded cancel. For it, `Traces.GuardedHoldingsConserved` proves that stock
plus units held by live reservations never changes. `Traces.RecancelInflatesHoldings`
shows that the as-written cancel breaks this.
