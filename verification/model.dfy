/** The order entity (`model.Order`) and its serialised form. */
module OrderModel {
  import opened Wrappers
  import opened Uint64

  /** An instant (`time.Time` in UTC), e.g. nanoseconds since the epoch. */
  type Time = int

  /** An opaque 128-bit identifier (`uuid.UUID`). */
  datatype Uuid = Uuid(hi: u64, lo: u64)

  datatype LineItem = LineItem(itemId: Uuid, quantity: u64)

  /** `CreatedAt`, `ShippedAt` and `CompletedAt` are pointers in Go; nil is None. */
  datatype Order = Order(
    orderId: u64,
    customerId: Uuid,
    lineItems: seq<LineItem>,
    createdAt: Option<Time>,
    shippedAt: Option<Time>,
    completedAt: Option<Time>)

  /** A stored string value. `Json` is what `json.Marshal` of an order
      produces; `Malformed` stands for any text that `json.Unmarshal` into an
      order refuses (data corruption, schema drift). */
  datatype Payload = Json(order: Order) | Malformed(text: string)

  /** `json.Marshal` of an order; it never fails. */
  function Encode(o: Order): (p: Payload)
    ensures Decode(p) == Some(o)
  {
    Json(o)
  }

  /** `json.Unmarshal` into an order; it may fail. */
  function Decode(p: Payload): (r: Option<Order>)
    ensures r.None? <==> p.Malformed?
  {
    match p
    case Json(o) => Some(o)
    case Malformed(_) => None
  }
}
