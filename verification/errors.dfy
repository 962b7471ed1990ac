/** The domain errors the services raise. Their mapping to HTTP status codes is not modelled. */
module Errors {

  /** Why a reservation transition was refused. */
  datatype ReservationFault =
    | NotAvailableForSale   // complete_sale on a reservation that is not `reserved`
    | AlreadyCompleted      // cancel_reservation on a `sold` reservation
    | AlreadyCanceled       // only raised by the guarded cancel of the corrected model

  datatype Error =
    | ProductNotFound       // ProductNotFoundError
    | CategoryNotFound      // Category.DoesNotExist, propagated unwrapped
    | ReservationNotFound   // Reservation.DoesNotExist, propagated unwrapped
    | InsufficientStock     // InsufficientStockError
    | ReservationError(fault: ReservationFault)
}
