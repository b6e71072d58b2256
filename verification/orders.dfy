/** The rows the shop-data endpoint returns (`product`, `variant` and
    `orders` tables) and the arithmetic the analytics views share. */
module Orders {
  import opened Common
  import opened Calendar

  datatype Product = Product(productId: int, shopId: int, name: string)

  datatype Variant = Variant(variantId: int, productId: int, name: string)

  /** One order row. `price` is in integer cents; `date` is the text the
      endpoint returned, `None` standing for null, absent or non-string. */
  datatype Order = Order(orderId: int, variantId: int, quantity: int, price: int, date: Option<string>)

  function Quantity(o: Order): int {
    o.quantity
  }

  /** `order.price * order.quantity`, in cents. */
  function LineRevenue(o: Order): int {
    o.price * o.quantity
  }

  /** `totalUnitsSold`: the quantities summed. */
  function TotalUnits(os: seq<Order>): int {
    SumOf(os, Quantity)
  }

  /** `totalRevenue`: the line revenues summed. */
  function TotalRevenue(os: seq<Order>): int {
    SumOf(os, LineRevenue)
  }

  /** Revenue per unit: `revenue / units` when `units > 0`, otherwise 0
      (`avgPrice` in the sales view, `averagePrice` in the price view). */
  function AverageUnitPrice(revenue: int, units: int): (r: real)
    ensures units > 0 ==> r * (units as real) == revenue as real
    ensures units <= 0 ==> r == 0.0
  {
    if units > 0 then (revenue as real) / (units as real) else 0.0
  }

  /** `new Date(text)`: a valid calendar day, or `None` for an Invalid Date. */
  type DateParser = string -> Option<ValidDate>

  /** The order's date as the analytics read it: a missing or empty date
      (falsy in JavaScript) is skipped before parsing is attempted. */
  function ParsedDate(o: Order, parse: DateParser): Option<ValidDate> {
    if o.date.None? || o.date.value == "" then None else parse(o.date.value)
  }
}
