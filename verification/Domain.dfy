/**
 The shop's identifiers and the documents that several modules share.
 Ids stand for the store's object ids and random tokens; a currency stands for its upper-cased code.
 */
module Domain {
  type ProductId = nat
  type OrderId = nat
  type UserId = nat
  type PaymentRef = nat
  type Currency = nat
  type IdempotencyKey = nat

  // Milliseconds since the epoch
  type Time = int

  datatype Option<+T> = None | Some(value: T)

  // One line of a reservation: the same product may occur on several lines.
  datatype Item = Item(product: ProductId, qty: int)

  datatype Stock = Stock(onHand: int, reserved: int)

  datatype ReservationStatus = Active | Committed | Released | Expired

  datatype Reservation = Reservation(items: seq<Item>, status: ReservationStatus, expiresAt: Time)
}
