/**
 * The `/mono/webhook` handler: decode the order id from the correlation
 * reference, check that the status means the payment is effective, build the
 * transaction record, post it to the Store, and answer 200 or 500.  The
 * Store's answer is an input; the handler returns its HTTP answer and the
 * outbound calls it made.
 */
module WebhookReconciler {
  import opened Wrappers
  import opened Money
  import opened Correlation
  import opened PaymentStatus
  import opened Messages

  /** The fields of the Gateway's notification the handler reads; an absent field is `None`. */
  datatype WebhookEvent = WebhookEvent(
    invoiceId: Option<string>,
    status: Option<string>,
    amount: nat,
    reference: Option<string>)

  /** `merchantPaymInfo?.reference || ''`. */
  function ReferenceText(ev: WebhookEvent): string {
    ev.reference.GetOr("")
  }

  /** `String(status)`. */
  function StatusText(ev: WebhookEvent): string {
    TemplateText(ev.status)
  }

  /** The acknowledgement that stops the Gateway from delivering again. */
  const Ack: Response := Status(200, "")

  method HandleWebhook(cfg: Config, ev: WebhookEvent, txReply: Reply<()>)
    returns (resp: Response, calls: seq<Call>)
    // the Store is called once, and only for a decoded reference and an effective status
    ensures |calls| <= 1
    ensures calls != [] <==> Decode(ReferenceText(ev)).Some? && IsEffective(StatusText(ev))
    ensures calls == [] ==> resp == Ack
    // the call posts the transaction to the decoded order
    ensures calls != [] ==> calls[0] == StorePost(
      TransactionsUrl(cfg, Decode(ReferenceText(ev)).value),
      cfg.storeAccessToken,
      Transaction(
        kind := "sale",
        status := "success",
        amount := MinorToMoney(ev.amount),
        currency := cfg.currency,
        gateway := cfg.gatewayName,
        source := "external",
        message := "Mono invoice " + TemplateText(ev.invoiceId)))
    ensures calls != [] ==> MoneyToMinor(calls[0].transaction.amount) == Some(ev.amount)
    // the Store's answer decides between 200 and 500
    ensures calls != [] && txReply.Ok? ==> resp == Ack
    ensures calls != [] && txReply.NotOk? ==> resp == Status(500, "Shopify transaction error")
    ensures calls != [] && txReply.Broken? ==> resp == Status(500, "")
    ensures resp.Status? && (resp.code == 200 || resp.code == 500)
    ensures resp.code == 500 <==> calls != [] && !txReply.Ok?
  {
    calls := [];
    var reference := ReferenceText(ev);

    var m := Decode(reference);
    if m.None? {
      return Ack, calls;
    }
    var orderId := m.value;

    var success := IsEffective(StatusText(ev));
    if !success {
      return Ack, calls;
    }

    var money := MinorToMoney(ev.amount);
    MoneyRoundTripFromMinor(ev.amount);
    var tx := Transaction(
      kind := "sale",
      status := "success",
      amount := money,
      currency := cfg.currency,
      gateway := cfg.gatewayName,
      source := "external",
      message := "Mono invoice " + TemplateText(ev.invoiceId));

    calls := calls + [StorePost(TransactionsUrl(cfg, orderId), cfg.storeAccessToken, tx)];
    match txReply
    case Broken =>
      resp := Status(500, "");
    case NotOk(_) =>
      resp := Status(500, "Shopify transaction error");
    case Ok(_) =>
      resp := Ack;
  }
}
