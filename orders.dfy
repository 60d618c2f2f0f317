/**
 * The order aggregate (models/orders.go, models/delivery.go, models/payment.go,
 * models/items.go) as plain values, and the errors the core passes around
 * (internal/errHandle/Errors.go and the server's apperror sentinels).
 */
module Orders {

  /** Go's int64: the validator only compares these fields with zero. */
  type Int64 = x: int | -0x8000_0000_0000_0000 <= x < 0x8000_0000_0000_0000

  /** One byte of a message key or payload. */
  type Byte = b: int | 0 <= b < 256

  datatype Delivery = Delivery(
    id: Int64,
    orderUid: string,
    name: string,
    phone: string,
    zip: string,
    city: string,
    address: string,
    region: string,
    email: string)

  datatype Payment = Payment(
    orderId: string,
    transaction: string,
    requestId: string,
    currency: string,
    provider: string,
    amount: Int64,
    paymentDt: Int64,
    bank: string,
    deliveryCost: Int64,
    goodsTotal: Int64,
    customFee: Int64)

  /** Item with the integer ChrtId and Sale that the validator compares with zero. */
  datatype Item = Item(
    id: Int64,
    orderUid: string,
    chrtId: Int64,
    trackNumber: string,
    price: Int64,
    rid: string,
    name: string,
    sale: Int64,
    size: string,
    totalPrice: Int64,
    nmId: Int64,
    brand: string,
    status: Int64)

  /** The creation timestamp is kept as an opaque integer. */
  datatype Order = Order(
    payment: Payment,
    items: seq<Item>,
    delivery: Delivery,
    orderUid: string,
    trackNumber: string,
    entry: string,
    locale: string,
    internalSignature: string,
    customerId: string,
    deliveryService: string,
    shardkey: string,
    smId: Int64,
    dateCreated: int,
    oofShard: string)

  /** The errors the service, the consumer and the lookup handler tell apart. */
  datatype Error =
    | NotFound                 // errHandle.ErrNotFound: the store has no such identifier
    | Validation               // errHandle.ErrValidation: CreateOrder rejected the order's shape
    | OrderUidRequired         // "need order_uid", returned by CreateOrder for an empty identifier
    | OrderUidMissing          // apperror.ErrOrderUIDMissing, raised by the lookup handler
    | Other(reason: string)    // anything else: a database, network or context error
}
