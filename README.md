# Monobank payment bridge for a Shopify store, modelled in Dafny

This project models the decision logic of a small Express service. The service
connects a Shopify store (the Store) with the monobank card-payment service
(the Gateway). It has two request handlers:

- `GET /pay` starts a payment. It reads the order from the Store and works out
  the amount: the whole total, or a deposit of a configured percentage. It then
  creates a hosted invoice at the Gateway and redirects the payer there.
- `POST /mono/webhook` receives the Gateway's status notification. It recovers
  the order id from the invoice's correlation reference and checks the payment
  status against a whitelist. For an effective payment it posts a `sale`
  transaction to the order in the Store.

The model has one module per component:

- `Decimal`: digit strings and the numbers they denote (`${n}`, a `\d+` run).
- `Money`: `moneyToMinor` and `minorToMoney`, exact over integers and digit strings.
- `AmountPolicy`: the percentage clamp and the rounded-up deposit.
- `Correlation`: the reference `shopify_order_<id>_<token>` and its decoding
  with the unanchored pattern `shopify_order_(\d+)_`. The regex is given a
  reference meaning (`OccursAt`), and the leftmost-match decoder is proved
  against it.
- `PaymentStatus`: the case-insensitive status whitelist.
- `Messages`: the configuration record, the records sent to and read from the
  Store and the Gateway, the outbound call log and HTTP responses.
- `PaymentInitiator`, `WebhookReconciler`: the two handlers, as methods. Each
  takes the upstream answers as inputs. Each returns its HTTP response and the
  outbound calls it made, in order. A `Reply` is `Ok(value)`, `NotOk(text)`
  for a non-success status, or `Broken` for a request that threw. A `Broken`
  reply leads to the catch-all 500.
- `Scenarios`: concrete requests passed to the handlers, with the resulting
  answers and calls proved.

Behaviour of the code that is easy to misread, and that the model keeps:

- Decoding is not anchored at the start of the reference. The leftmost
  `shopify_order_<digits>_` anywhere in the string wins.
- A failed order fetch gives 500 with the Store's text. "Not found" is not
  treated differently from any other failure.
- The invoice currency is always 980 (ISO 4217 for the hryvnia). The configured
  currency label is used only on the Store transaction.
- Nothing deduplicates webhook deliveries. Each effective delivery posts one
  more transaction, and no property says otherwise.
- A mode other than `deposit`, including an absent one, charges the full amount.

## Model

| member | source | states |
|---|---|---|
| Decimal.Digits | server.js:74 | `${n}` of a natural number is a non-empty string of decimal digits |
| Decimal.ValueOfDigits | server.js:74 | the printed form of `n` denotes `n` |
| Decimal.DigitsOfValue | server.js:28 | a canonical digit string (no leading zero) is exactly the printed form of the number it denotes |
| Decimal.DigitsInjective | server.js:74 | two different numbers never print the same |
| Decimal.DigitRun | server.js:135 | the greedy `\d+` from a position reads only digits and stops at a non-digit or at the end |
| Decimal.DigitRunUnique | server.js:135 | any digit run that ends at a non-digit is the greedy one, so backtracking cannot choose another length |
| Money.MoneyToMinor | server.js:22-26 | `moneyToMinor`: the integer part, an optional `.` and up to two decimals, in kopecks; meaning proved in `MoneyToMinorDefinedIff` and `MoneyToMinorOfParts` |
| Money.MinorToMoney | server.js:28 | `minorToMoney`: hryvnias, `.`, two digits of kopecks; meaning proved in `MinorToMoneyShape` and the two round-trip lemmas |
| Money.MoneyToMinorDefinedIff | server.js:22-26 | `moneyToMinor` gives a number exactly when the text is an integer part, optionally with `.` and at most two fractional digits |
| Money.MoneyToMinorOfParts | server.js:22-26 | the value of such a text is its integer part times 100 plus its fractional digits in hundredths |
| Money.PriceExample1234 | server.js:23 | "1234.56" is 123456 kopecks |
| Money.PriceExample199 | server.js:22-26 | "199.99" is 19999 kopecks |
| Money.MinorToMoneyShape | server.js:28 | `minorToMoney(n)` is a canonical integer part, `.`, two digits; the parts denote `n / 100` and `n % 100` |
| Money.MoneyRoundTripFromMinor | server.js:22-28 | reading back a printed amount gives the same number of kopecks |
| Money.MoneyRoundTripFromText | server.js:22-28 | for every canonical two-decimal price `s`, `minorToMoney(moneyToMinor(s)) == s` |
| Money.PriceExample4000 | server.js:152 | 4000 kopecks print as "40.00" |
| AmountPolicy.CeilHundredth | server.js:60 | `Math.ceil` of a whole number of kopecks divided by 100; meaning proved in `CeilHundredthIsLeast` and `CeilHundredthByAdding` |
| AmountPolicy.PayableMinor | server.js:55-61 | the amount `/pay` charges: the total, or the rounded-up clamped percentage of it in deposit mode; meaning proved in `FullModeChargesTotal`, `DepositBounds`, `OutOfRangePercent` and `DepositMonotone` |
| AmountPolicy.ClampPercent | server.js:59 | the percentage is forced into [1, 100]: unchanged inside, the nearest bound outside |
| AmountPolicy.CeilHundredthIsLeast | server.js:60 | the deposit rounding gives the least `r` with `100 * r >= a` |
| AmountPolicy.CeilHundredthByAdding | server.js:60 | the integer formula `(a + 99) / 100` is that rational ceiling |
| AmountPolicy.FullModeChargesTotal | server.js:56-58 | any mode other than "deposit" charges the total unchanged |
| AmountPolicy.DepositBounds | server.js:58-61 | a deposit covers the clamped percentage of the total, is the least amount that does, and never exceeds the total |
| AmountPolicy.OutOfRangePercent | server.js:59 | a percentage below 1 acts as 1; above 100 the deposit is the whole total |
| AmountPolicy.DepositMonotone | server.js:59-60 | a larger configured percentage never charges less |
| AmountPolicy.DepositExamples | server.js:55-61 | 10000 at 20% gives 2000, 10001 gives 2001, 19999 gives 4000; full mode gives 19999 |
| PaymentInitiator.ChargeAmount | server.js:55-61 | the local `payMinor`, set to the total and replaced by the rounded-up deposit in deposit mode, ends as the policy's payable amount |
| Correlation.Encode | server.js:74 | the reference `shopify_order_<order id>_<token>`; meaning proved in `DecodeEncode` and `EncodeSeparatesOrders` |
| Correlation.Decode | server.js:135-140 | the regex match with its captured group; a result is a non-empty digit string shorter than the reference; meaning proved in `DecodeMeaning` |
| Correlation.MatchAt | server.js:135 | the regex tried at one position: the prefix, a non-empty greedy digit run, then `_`; meaning proved in `MatchAtIff` against the independent `OccursAt` |
| Correlation.Capture | server.js:140 | `m[1]`, the digit run after the prefix of a match; meaning proved in `MatchAtIff` (it is the `id` of the occurrence) and `DecodeMeaning` |
| Correlation.FindFrom | server.js:135 | the search returns the first position from which the pattern matches, or reports that it matches nowhere |
| Correlation.MatchAtIff | server.js:135 | the matcher accepts a position and captures `id` exactly when `shopify_order_` + `id` + `_` occurs there with `id` non-empty digits |
| Correlation.DecodeMeaning | server.js:135-140 | decoding fails exactly when the pattern occurs nowhere; otherwise it gives the digits of the leftmost occurrence |
| Correlation.DecodeOfShape | server.js:135-140 | `shopify_order_` + `id` + `_` + anything decodes to `id`, for every non-empty digit string `id` |
| Correlation.DecodeEncode | server.js:74 | the invoice reference decodes back to the order id as printed, for every token |
| Correlation.EncodeSeparatesOrders | server.js:74 | references of two different orders never decode to the same id |
| Correlation.DecodeNeedsPrefix | server.js:135-139 | a text without the literal prefix does not decode |
| Correlation.DecodeExamples | server.js:133-140 | "shopify_order_555_1690000000000" decodes to "555"; the empty reference does not decode |
| PaymentStatus.LowerChar | server.js:144 | lower-casing maps an ASCII capital to its small letter and leaves every other character alone |
| PaymentStatus.Lower | server.js:144 | `toLowerCase`: same length, every character lower-cased by `LowerChar`; meaning proved in `LowerIsWord` |
| PaymentStatus.IsEffective | server.js:143-145 | the whitelist test on the lower-cased status; meaning proved in `EffectiveIff` |
| PaymentStatus.LowerIsWord | server.js:143-145 | a string lower-cases to a lower-case word exactly when it spells that word with letters in either case |
| PaymentStatus.EffectiveIff | server.js:143-145 | a status is effective exactly when it spells `success`, `hold`, `approved` or `processed` in any mix of case |
| PaymentStatus.StatusExamples | server.js:143-149 | "success", "SUCCESS", "Hold" are effective; "expired", "holded" and "undefined" are not |
| Messages.TemplateText | server.js:163 | `${x}` of an absent value prints "undefined"; its effect proved in `HandleWebhook`, `Pay` (the redirect) and `StatusExamples` |
| Messages.OrderUrl | server.js:39 | the Store's order URL for the requested id; meaning proved in `OrderUrlInjective` and `Pay` (the first call) |
| Messages.TransactionsUrl | server.js:168 | the Store's transactions URL for the decoded id; meaning proved in `TransactionsUrlInjective` and `HandleWebhook` |
| Messages.OrderUrlInjective | server.js:39 | the order URL names exactly one order id |
| Messages.TransactionsUrlInjective | server.js:168 | the transactions URL names exactly one order id |
| PaymentInitiator.OrderIdMissing | server.js:35 | `!order_id`: the parameter is absent or empty; its effect proved in `Pay` and `PayWithoutOrderId` |
| PaymentInitiator.ModeOf | server.js:34 | `mode = 'full'`: an absent mode reads as "full"; its effect proved in `AbsentModeChargesTotal` and `Pay` |
| PaymentInitiator.AbsentModeChargesTotal | server.js:34 | a request without a mode is charged the whole order total |
| PaymentInitiator.Destination | server.js:75 | the purpose line `Оплата заказа #<name> (…)` with `предоплата` in deposit mode and `полная` otherwise; meaning proved in `DestinationIdentifies` |
| PaymentInitiator.DestinationIdentifies | server.js:75 | two equal purpose lines name the same order and agree on whether a deposit is asked |
| PaymentInitiator.IsInvoiceFor | server.js:70-80 | the invoice payload built for an order: amount, currency, validity, reference, return and webhook URLs, purpose line; meaning proved in `InvoiceForMeaning` and `Pay` |
| PaymentInitiator.InvoiceForMeaning | server.js:70-80 | the invoice amount is at most the total, covers the clamped percentage in deposit mode, equals the total otherwise, and its reference decodes to the order id |
| PaymentInitiator.Pay | server.js:32-109 | no order id gives 400 and no call; otherwise the first call fetches that order; a failed fetch gives 500 and no invoice call; for a fetched order the second call creates an invoice with the payable amount, currency 980, validity 86400, the order's reference, return URL and description; a failed creation gives 500 and no redirect; otherwise the payer is redirected to `pageUrl` |
| WebhookReconciler.HandleWebhook | server.js:127-192 | at most one call; the Store is called exactly when the reference decodes and the status is effective, otherwise the answer is 200; the call posts to `orders/<decoded id>/transactions.json` a `sale`/`success`/`external` record whose amount reads back as the notified kopecks and whose message names the invoice; the Store's answer gives 200 or 500 |
| WebhookReconciler.ReferenceText | server.js:133 | `reference || ''`: an absent reference reads as the empty text; its effect proved in `HandleWebhook` and `DecodeExamples` |
| WebhookReconciler.StatusText | server.js:144 | `String(status)`: an absent status reads as "undefined"; its effect proved in `HandleWebhook` and `StatusExamples` |
| Scenarios.WebhookSuccessFor555 | server.js:127-186 | a "success" notification for 4000 kopecks about order 555 posts "40.00" to order 555 and answers 200 |
| Scenarios.WebhookExpired | server.js:143-149 | an "expired" notification answers 200 with no call |
| Scenarios.WebhookForeignReference | server.js:133-139 | a reference without the pattern answers 200 with no call, even with status "success" |
| Scenarios.WebhookStoreRefuses | server.js:179-183 | a Store refusal answers 500 so that the Gateway delivers again |
| Scenarios.PayWithoutOrderId | server.js:35 | `/pay` without an order id answers 400 and makes no call, whatever the upstream would answer |
| Scenarios.PayFor19999 | server.js:55-103 | an order of "199.99" gets an invoice for 19999 kopecks in full mode and 4000 in deposit mode at 20%, and a redirect to the page URL |

## Left out

- Express setup, body parsing, route registration, the `/mono/return` page and
  the healthcheck are framework plumbing or presentation.
- Environment reading is replaced by the `Config` record. Its defaults are
  API version "2023-10", currency "UAH", deposit 20% and the gateway label. The
  deposit percentage is an integer; a non-numeric setting (which gives NaN in
  the source) is not modelled.
- The `fetch` calls, HTTP headers other than the authentication token,
  `JSON.stringify` and `.json()` are network I/O. Their results are inputs, and
  every way a request can throw is a single `Broken` reply, which leads to the
  catch-all 500. Logging is left out.
- `Date.now()` is replaced by an arbitrary natural-number token.
- `order.id` and `Date.now()` are JavaScript numbers: from 10^21 up they print
  in exponent form (`1e+21`), and above 2^53 they are inexact. The model prints
  every natural number in full decimal digits.
- `toLowerCase` is modelled on ASCII letters only. For the whitelist test this
  is exact: the only characters outside ASCII that Unicode lower-cases to ASCII
  letters are U+212A (to `k`) and U+0130 (to `i` and a combining dot), and no
  whitelisted word contains `k` or `i`. `Lower` itself differs from
  `toLowerCase` on other non-ASCII letters.
- `String(status)` is modelled for a string or an absent status. An absent
  status prints as "undefined". Non-string JSON values and `null` are not modelled.
- The webhook reference is modelled as a string or absent. A falsy reference
  (`null`, `0`, `false`) reads as `''` like an absent one (`ReferenceText`'s
  `None`). A truthy non-string makes `.match` throw (500); this is not modelled.
- WebhookReconciler.HandleWebhook: the notified amount is a natural number.
  A missing, negative, fractional or huge amount (`"NaN"`, a minus sign or
  exponent notation from `toFixed`) is not modelled.
- PaymentInitiator.Pay: requires the fetched order's `total_price` to be a
  well-formed price (digits, optionally `.` and at most two digits). For
  another text `parseFloat`/`Math.round` give NaN or a rounded value; this
  float behaviour is not modelled.
- Money.MoneyToMinorDefinedIff: states exact decimal semantics. `parseFloat`
  also accepts leading blanks, signs, exponents, trailing garbage, more than
  two decimals, a text with no integer part (`".5"` gives 50 kopecks, the model
  gives none) and `"Infinity"`, and loses precision above 2^53; none of that is
  modelled.
- AmountPolicy.DepositBounds: the deposit is the exact rational ceiling. The
  source computes `Math.ceil(total * (perc / 100))` in floating point, which can
  round up one kopeck too far for some totals and percentages. That float
  artefact is not modelled.
- Repeated webhook deliveries are not deduplicated by the source, so no
  at-most-once property is stated.
