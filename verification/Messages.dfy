/** The seven events of the saga; each constructor is one Kafka topic. */
module Messages {
  import opened Base

  datatype PaymentType = Pix | CreditCard | Boleto

  /** PRODUCT_NOT_FOUND, STOCK_NOT_FOUND, INSUFFICIENT_STOCK, BOLETO_NOT_ACCEPTED, AMOUNT_EXCEEDED. */
  datatype Reason = ProductNotFound | StockNotFound | QuantityNotAvailable | BoletoNotAccepted | AmountExceeded

  datatype Message =
    | OrderCreated(orderId: Uuid, productId: int, quantity: int, paymentType: PaymentType)
    | OrderConfirmed(orderId: Uuid)
    | InventoryReserved(orderId: Uuid, amount: int, paymentType: PaymentType)
    | InsufficientStock(orderId: Uuid, reason: Reason)
    | InventoryReleased(orderId: Uuid, reason: Reason)
    | PaymentAuthorized(orderId: Uuid, paymentId: Uuid)
    | PaymentDenied(orderId: Uuid, paymentId: Uuid, reason: Reason)

  function OrderOf(m: Message): Uuid {
    m.orderId
  }

  datatype Topic =
    | OrdersCreatedTopic | OrdersConfirmedTopic
    | InventoryReservedTopic | InsufficientStockTopic | InventoryReleasedTopic
    | PaymentsAuthorizedTopic | PaymentsDeniedTopic

  /** The event type of an outbox row, which is also the name of its topic. */
  function TopicOf(m: Message): Topic {
    match m
    case OrderCreated(_, _, _, _) => OrdersCreatedTopic
    case OrderConfirmed(_) => OrdersConfirmedTopic
    case InventoryReserved(_, _, _) => InventoryReservedTopic
    case InsufficientStock(_, _) => InsufficientStockTopic
    case InventoryReleased(_, _) => InventoryReleasedTopic
    case PaymentAuthorized(_, _) => PaymentsAuthorizedTopic
    case PaymentDenied(_, _, _) => PaymentsDeniedTopic
  }

  /** No two kinds of event share a topic. */
  lemma TopicPerEvent(m: Message, n: Message)
    ensures TopicOf(m) == TopicOf(n) <==>
            || (m.OrderCreated? && n.OrderCreated?) || (m.OrderConfirmed? && n.OrderConfirmed?)
            || (m.InventoryReserved? && n.InventoryReserved?) || (m.InsufficientStock? && n.InsufficientStock?)
            || (m.InventoryReleased? && n.InventoryReleased?)
            || (m.PaymentAuthorized? && n.PaymentAuthorized?) || (m.PaymentDenied? && n.PaymentDenied?)
  {
  }
}
