/** Concrete requests passed to the two handlers, with the resulting answers and calls proved. */
module Scenarios {
  import opened Wrappers
  import opened Money
  import opened AmountPolicy
  import opened Correlation
  import opened PaymentStatus
  import opened Messages
  import opened PaymentInitiator
  import opened WebhookReconciler

  /** A "success" notification for 4000 kopecks about order 555 posts "40.00" to that order. */
  method WebhookSuccessFor555(cfg: Config) returns (resp: Response, calls: seq<Call>)
    ensures resp == Ack
    ensures |calls| == 1 && calls[0].StorePost?
    ensures calls[0].url == TransactionsUrl(cfg, "555") && calls[0].transaction.amount == "40.00"
  {
    var ev := WebhookEvent(Some("inv-1"), Some("success"), 4000, Some("shopify_order_555_1690000000000"));
    DecodeExamples();
    StatusExamples();
    PriceExample4000();
    resp, calls := HandleWebhook(cfg, ev, Ok(()));
  }

  /** An "expired" notification is acknowledged and nothing is posted. */
  method WebhookExpired(cfg: Config) returns (resp: Response, calls: seq<Call>)
    ensures resp == Ack && calls == []
  {
    var ev := WebhookEvent(Some("inv-1"), Some("expired"), 4000, Some("shopify_order_555_1690000000000"));
    StatusExamples();
    resp, calls := HandleWebhook(cfg, ev, Ok(()));
  }

  /** A notification whose reference is not ours is acknowledged and nothing is posted, even for "success". */
  method WebhookForeignReference(cfg: Config) returns (resp: Response, calls: seq<Call>)
    ensures resp == Ack && calls == []
  {
    var ev := WebhookEvent(Some("inv-1"), Some("success"), 4000, Some("order 42"));
    DecodeNeedsPrefix("order 42");
    resp, calls := HandleWebhook(cfg, ev, Ok(()));
  }

  /** The Store refusing the transaction makes the Gateway deliver again. */
  method WebhookStoreRefuses(cfg: Config) returns (resp: Response, calls: seq<Call>)
    ensures resp == Status(500, "Shopify transaction error") && |calls| == 1
  {
    var ev := WebhookEvent(Some("inv-1"), Some("Hold"), 4000, Some("shopify_order_555_1690000000000"));
    DecodeExamples();
    StatusExamples();
    resp, calls := HandleWebhook(cfg, ev, NotOk("denied"));
  }

  /** `/pay` without an order id answers 400 and calls nobody. */
  method PayWithoutOrderId(cfg: Config, orderReply: Reply<Order>, invoiceReply: Reply<InvoiceCreated>)
    returns (resp: Response, calls: seq<Call>)
    requires orderReply.Ok? ==> IsPriceText(orderReply.value.totalPrice)
    ensures resp == Status(400, "order_id is required") && calls == []
  {
    resp, calls := Pay(cfg, PayRequest(None, Some("deposit")), orderReply, invoiceReply, 0);
  }

  /** An order of "199.99": the full mode charges 19999 kopecks, a 20% deposit 4000. */
  method PayFor19999(cfg: Config, mode: string, token: nat) returns (resp: Response, calls: seq<Call>)
    requires cfg.depositPercent == 20
    ensures resp == Redirect("https://pay.example/p/1")
    ensures |calls| == 2 && calls[1].GatewayPost?
    ensures calls[1].invoice.amount == (if mode == DepositMode then 4000 else 19999)
    ensures Decode(calls[1].invoice.reference) == Some(Decimal.Digits(555))
  {
    var order := Order(555, "#1001", "199.99");
    PriceExample199();
    MoneyToMinorDefinedIff("199.99");
    DepositExamples();
    resp, calls := Pay(cfg, PayRequest(Some("555"), Some(mode)), Ok(order),
      Ok(InvoiceCreated(Some("https://pay.example/p/1"), Some("inv-1"))), token);
    InvoiceForMeaning(calls[1].invoice, cfg, order, mode, token);
  }
}
