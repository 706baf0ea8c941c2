/**
 * What the two handlers exchange with the outside: the explicit
 * configuration, the data read from the Store and the Gateway, the records
 * sent to them, the log of outbound calls, and the HTTP answer.
 */
module Messages {
  import opened Wrappers

  /** The process settings, passed in instead of read from the environment. */
  datatype Config = Config(
    appBaseUrl: string,        // base URL of this service
    storeDomain: string,       // the Store's host name
    storeAccessToken: string,  // the Store's admin API token
    apiVersion: string,        // the Store API version, "2023-10" by default
    gatewayToken: string,      // the Gateway's merchant token
    currency: string,          // the transaction currency label, "UAH" by default
    depositPercent: int,       // the deposit percentage, 20 by default
    gatewayName: string)       // the gateway label written on transactions

  /** The part of a Store order the initiator reads. */
  datatype Order = Order(id: nat, name: string, totalPrice: string)

  /** The invoice-creation payload sent to the Gateway. */
  datatype Invoice = Invoice(
    amount: nat,
    ccy: nat,
    reference: string,
    destination: string,
    redirectUrl: string,
    webHookUrl: string,
    validity: nat)

  /** The fields of the Gateway's invoice-creation answer the initiator reads. */
  datatype InvoiceCreated = InvoiceCreated(pageUrl: Option<string>, invoiceId: Option<string>)

  /** The transaction record posted to the Store. */
  datatype Transaction = Transaction(
    kind: string,
    status: string,
    amount: string,
    currency: string,
    gateway: string,
    source: string,
    message: string)

  /** One outbound request, with the authentication token it carries. */
  datatype Call =
    | StoreGet(url: string, accessToken: string)
    | GatewayPost(url: string, token: string, invoice: Invoice)
    | StorePost(url: string, accessToken: string, transaction: Transaction)

  /**
   * The result of an outbound request: a success status with its decoded body,
   * a failure status with the body's text, or a request that threw (network
   * failure, or a body that could not be read as expected).
   */
  datatype Reply<+T> = Ok(value: T) | NotOk(text: string) | Broken

  /** The HTTP answer: a status with a body, or a redirect (302). */
  datatype Response = Status(code: nat, body: string) | Redirect(location: string)

  const GatewayInvoiceUrl: string := "https://api.monobank.ua/api/merchant/invoice/create"

  /** The Gateway's numeric currency code: 980, the ISO 4217 code of the hryvnia. */
  const InvoiceCurrency: nat := 980

  /** How long the hosted payment page stays usable: 24 hours, in seconds. */
  const InvoiceValidity: nat := 86400

  /** A value interpolated into a template string: an absent one prints as "undefined". */
  function TemplateText(v: Option<string>): string {
    v.GetOr("undefined")
  }

  function StoreApiBase(cfg: Config): string {
    "https://" + cfg.storeDomain + "/admin/api/" + cfg.apiVersion + "/orders/"
  }

  function OrderUrl(cfg: Config, orderId: string): string {
    StoreApiBase(cfg) + orderId + ".json"
  }

  function TransactionsUrl(cfg: Config, orderId: string): string
  {
    StoreApiBase(cfg) + orderId + "/transactions.json"
  }

  /** The URL names its order: two transaction URLs are equal only for the same order id. */
  lemma TransactionsUrlInjective(cfg: Config, a: string, b: string)
    requires TransactionsUrl(cfg, a) == TransactionsUrl(cfg, b)
    ensures a == b
  {
    var p, q := StoreApiBase(cfg), "/transactions.json";
    var u := TransactionsUrl(cfg, a);
    assert u == p + a + q;
    assert u == p + b + q;
    assert a == u[|p|..|u| - |q|];
    assert b == u[|p|..|u| - |q|];
  }

  /** Likewise for the order URL. */
  lemma OrderUrlInjective(cfg: Config, a: string, b: string)
    requires OrderUrl(cfg, a) == OrderUrl(cfg, b)
    ensures a == b
  {
    var p, q := StoreApiBase(cfg), ".json";
    var u := OrderUrl(cfg, a);
    assert u == p + a + q;
    assert u == p + b + q;
    assert a == u[|p|..|u| - |q|];
    assert b == u[|p|..|u| - |q|];
  }
}
