/**
 * The `/pay` handler: check the order id, fetch the order from the Store,
 * compute the amount, build the invoice, create it at the Gateway, and
 * redirect the payer to the hosted payment page.  Each upstream answer is an
 * input; the handler returns its HTTP answer and the outbound calls it made,
 * in order.
 */
module PaymentInitiator {
  import opened Wrappers
  import opened Decimal
  import opened Money
  import opened AmountPolicy
  import opened Correlation
  import opened Messages

  /** The query of `GET /pay?order_id=...&mode=...`; an absent parameter is `None`. */
  datatype PayRequest = PayRequest(orderId: Option<string>, mode: Option<string>)

  /** `!order_id`: the parameter is absent or empty. */
  predicate OrderIdMissing(req: PayRequest) {
    req.orderId.None? || req.orderId.value == ""
  }

  /** The mode, "full" when the parameter is absent. */
  function ModeOf(req: PayRequest): string {
    req.mode.GetOr("full")
  }

  /** A mode left out of the query charges the whole order. */
  lemma AbsentModeChargesTotal(req: PayRequest, totalMinor: nat, depositPercent: int)
    requires req.mode.None?
    ensures PayableMinor(totalMinor, ModeOf(req), depositPercent) == totalMinor
  {
    FullModeChargesTotal(totalMinor, ModeOf(req), depositPercent);
  }

  /** The payer-facing purpose line, naming the order and whether this is a deposit or the full amount. */
  function Destination(order: Order, mode: string): string {
    "Оплата заказа #" + order.name + " ("
      + (if mode == DepositMode then "предоплата" else "полная") + ")"
  }

  /** The purpose line tells the payer which order it is and whether only a deposit is asked. */
  lemma DestinationIdentifies(a: Order, m: string, b: Order, n: string)
    requires Destination(a, m) == Destination(b, n)
    ensures a.name == b.name
    ensures m == DepositMode <==> n == DepositMode
  {
    var head := "Оплата заказа #";
    var tailA := " (" + (if m == DepositMode then "предоплата" else "полная") + ")";
    var tailB := " (" + (if n == DepositMode then "предоплата" else "полная") + ")";
    var d := Destination(a, m);
    assert d == head + a.name + tailA;
    assert d == head + b.name + tailB;
    // the two tails differ nine characters from the end: 'е' against ' '
    assert d[|d| - 9] == tailA[|tailA| - 9] && d[|d| - 9] == tailB[|tailB| - 9];
    assert tailA == tailB;
    assert a.name == d[|head|..|d| - |tailA|];
    assert b.name == d[|head|..|d| - |tailB|];
  }

  /** The invoice the initiator sends for `order`. */
  predicate IsInvoiceFor(inv: Invoice, cfg: Config, order: Order, mode: string, token: nat)
    requires MoneyToMinor(order.totalPrice).Some?
  {
    inv.amount == PayableMinor(MoneyToMinor(order.totalPrice).value, mode, cfg.depositPercent)
    && inv.ccy == InvoiceCurrency
    && inv.validity == InvoiceValidity
    && inv.reference == Encode(order.id, token)
    && inv.redirectUrl == cfg.appBaseUrl + "/mono/return?order_id=" + Digits(order.id)
    && inv.webHookUrl == cfg.appBaseUrl + "/mono/webhook"
    && inv.destination == Destination(order, mode)
  }

  /**
   * What the invoice promises: the amount never under-collects and never
   * exceeds the order total, and its reference decodes back to the order.
   */
  lemma InvoiceForMeaning(inv: Invoice, cfg: Config, order: Order, mode: string, token: nat)
    requires MoneyToMinor(order.totalPrice).Some? && IsInvoiceFor(inv, cfg, order, mode, token)
    ensures var total := MoneyToMinor(order.totalPrice).value;
      inv.amount <= total
      && (mode == DepositMode ==> inv.amount * 100 >= total * ClampPercent(cfg.depositPercent))
      && (mode != DepositMode ==> inv.amount == total)
    ensures Decode(inv.reference) == Some(Digits(order.id))
  {
    DepositBounds(MoneyToMinor(order.totalPrice).value, cfg.depositPercent, 0);
    DecodeEncode(order.id, token);
  }

  /**
   * Step 3: start from the total and, in deposit mode, replace it by the
   * clamped percentage of the total rounded up to the next kopeck.
   */
  method ChargeAmount(totalMinor: nat, mode: string, depositPercent: int) returns (payMinor: nat)
    ensures payMinor == PayableMinor(totalMinor, mode, depositPercent)
  {
    payMinor := totalMinor;
    if mode == DepositMode {
      var perc := ClampPercent(depositPercent);
      var product: nat := totalMinor * perc;
      CeilHundredthByAdding(product);
      payMinor := (product + 99) / 100;
    }
  }

  method Pay(cfg: Config, req: PayRequest, orderReply: Reply<Order>, invoiceReply: Reply<InvoiceCreated>, token: nat)
    returns (resp: Response, calls: seq<Call>)
    requires orderReply.Ok? ==> IsPriceText(orderReply.value.totalPrice)
    // step 1: no order id, no outbound call
    ensures OrderIdMissing(req) <==> calls == []
    ensures OrderIdMissing(req) <==> resp == Status(400, "order_id is required")
    // step 2: the order is fetched first, by the requested id
    ensures calls != [] ==> calls[0] == StoreGet(OrderUrl(cfg, req.orderId.value), cfg.storeAccessToken)
    ensures calls != [] && orderReply.NotOk? ==> resp == Status(500, "Shopify order fetch error: " + orderReply.text)
    ensures calls != [] && orderReply.Broken? ==> resp == Status(500, "Internal error")
    // steps 3-5: an invoice is created only for a fetched order
    ensures |calls| <= 2
    ensures |calls| == 2 <==> !OrderIdMissing(req) && orderReply.Ok?
    ensures |calls| == 2 ==>
      calls[1].GatewayPost? && calls[1].url == GatewayInvoiceUrl && calls[1].token == cfg.gatewayToken
      && IsInvoiceFor(calls[1].invoice, cfg, orderReply.value, ModeOf(req), token)
    ensures |calls| == 2 && invoiceReply.NotOk? ==> resp == Status(500, "Mono create invoice error: " + invoiceReply.text)
    ensures |calls| == 2 && invoiceReply.Broken? ==> resp == Status(500, "Internal error")
    // step 6: redirect only after a created invoice, to its page
    ensures resp.Redirect? <==> |calls| == 2 && invoiceReply.Ok?
    ensures resp.Redirect? ==> resp.location == TemplateText(invoiceReply.value.pageUrl)
  {
    calls := [];
    var orderId := req.orderId.GetOr("");
    var mode := ModeOf(req);
    if orderId == "" {
      return Status(400, "order_id is required"), calls;
    }

    calls := calls + [StoreGet(OrderUrl(cfg, orderId), cfg.storeAccessToken)];
    if orderReply.Broken? {
      return Status(500, "Internal error"), calls;
    }
    if orderReply.NotOk? {
      return Status(500, "Shopify order fetch error: " + orderReply.text), calls;
    }
    var order := orderReply.value;

    MoneyToMinorDefinedIff(order.totalPrice);
    var totalMinor := MoneyToMinor(order.totalPrice).value;
    var payMinor := ChargeAmount(totalMinor, mode, cfg.depositPercent);

    var payload := Invoice(
      amount := payMinor,
      ccy := InvoiceCurrency,
      reference := Encode(order.id, token),
      destination := Destination(order, mode),
      redirectUrl := cfg.appBaseUrl + "/mono/return?order_id=" + Digits(order.id),
      webHookUrl := cfg.appBaseUrl + "/mono/webhook",
      validity := InvoiceValidity);

    calls := calls + [GatewayPost(GatewayInvoiceUrl, cfg.gatewayToken, payload)];
    if invoiceReply.Broken? {
      return Status(500, "Internal error"), calls;
    }
    if invoiceReply.NotOk? {
      return Status(500, "Mono create invoice error: " + invoiceReply.text), calls;
    }
    resp := Redirect(TemplateText(invoiceReply.value.pageUrl));
  }
}
