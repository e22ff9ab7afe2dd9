// Core value types of the book: sides, normalised book events, and the errors
// the book returns instead of throwing.
module Types {
  type Ticks = int
  type Qty = int
  type OrderId = nat
  type Nanos = int

  datatype Option<+T> = None | Some(value: T) {
    function GetOr(default: T): T {
      if None? then default else value
    }
  }

  datatype Side = Bid | Ask

  function Opposite(s: Side): Side {
    if s.Bid? then Ask else Bid
  }

  datatype BookError =
    | Ok
    | UnknownOrder
    | DuplicateOrder
    | PriceOutOfWindow
    | PoolExhausted
    | BadQuantity
    | CrossedBook

  datatype EventType = Add | Reduce | Delete | Execute | Replace | Clear | Aggress

  // One normalised event. Only the fields its type names are meaningful.
  datatype BookEvent = BookEvent(
    ts: Nanos,
    seqNo: nat,
    orderId: OrderId,
    newId: OrderId,
    price: Ticks,
    qty: Qty,
    kind: EventType,
    side: Side)

  function Min(a: int, b: int): int {
    if a <= b then a else b
  }

  function Max(a: int, b: int): int {
    if a <= b then b else a
  }

  const INT64_MAX: nat := 0x7FFF_FFFF_FFFF_FFFF
  const INT64_MIN: int := -0x8000_0000_0000_0000

  function Pow10(n: nat): (p: nat)
    ensures p > 0
  {
    if n == 0 then 1 else 10 * Pow10(n - 1)
  }
}
