/**
 * The correlation reference carried through the Gateway: the payment side
 * writes `shopify_order_<order id>_<token>` into the invoice, and the webhook
 * side recovers the order id with the unanchored pattern
 * `shopify_order_(\d+)_`, taking the leftmost match.
 */
module Correlation {
  import opened Wrappers
  import opened Decimal

  const Prefix: string := "shopify_order_"

  /** The reference for order `orderId`; `token` only keeps repeated attempts apart. */
  function Encode(orderId: nat, token: nat): string
  {
    Prefix + Digits(orderId) + "_" + Digits(token)
  }

  /**
   * Reference semantics of the pattern: `shopify_order_`, then the digits
   * `id` (at least one), then `_`, starting at position `p` of `s`.
   */
  predicate OccursAt(s: string, p: nat, id: string) {
    |id| >= 1 && AllDigits(id) && p + |Prefix| + |id| < |s|
    && s[p..p + |Prefix| + |id| + 1] == Prefix + id + "_"
  }

  /** The literal prefix starts at position `p` of `s`. */
  predicate PrefixAt(s: string, p: nat) {
    p + |Prefix| <= |s| && s[p..p + |Prefix|] == Prefix
  }

  /**
   * How the matcher sees position `p`: the prefix is there, the greedy digit
   * run after it is non-empty, and the character after the run is `_`.
   */
  predicate MatchAt(s: string, p: nat)
    requires p <= |s|
  {
    PrefixAt(s, p)
    && var k := DigitRun(s, p + |Prefix|);
    k >= 1 && p + |Prefix| + k < |s| && s[p + |Prefix| + k] == '_'
  }

  /** The captured group of a match at `p`: the digit run after the prefix. */
  function Capture(s: string, p: nat): string
    requires p <= |s| && MatchAt(s, p)
  {
    s[p + |Prefix|..p + |Prefix| + DigitRun(s, p + |Prefix|)]
  }

  /** The first position at or after `from` where the pattern matches. */
  function FindFrom(s: string, from: nat): (r: Option<nat>)
    requires from <= |s|
    ensures r.Some? ==> from <= r.value <= |s| && MatchAt(s, r.value)
    ensures r.Some? ==> forall q :: from <= q < r.value ==> !MatchAt(s, q)
    ensures r.None? ==> forall q :: from <= q <= |s| ==> !MatchAt(s, q)
    decreases |s| - from
  {
    if MatchAt(s, from) then Some(from)
    else if from == |s| then None
    else FindFrom(s, from + 1)
  }

  /** `reference.match(/shopify_order_(\d+)_/)`, giving the captured order id. */
  function Decode(s: string): (r: Option<string>)
    ensures r.Some? ==> |r.value| >= 1 && AllDigits(r.value) && |r.value| + |Prefix| < |s|
  {
    match FindFrom(s, 0)
    case Some(p) => Some(Capture(s, p))
    case None => None
  }

  /**
   * Backtracking adds nothing: the pattern occurs at `p` with digits `id`
   * exactly when the matcher accepts `p` and captures `id`.
   */
  lemma MatchAtIff(s: string, p: nat, id: string)
    requires p <= |s|
    ensures OccursAt(s, p, id) <==> MatchAt(s, p) && Capture(s, p) == id
  {
    if OccursAt(s, p, id) {
      OccursThenMatches(s, p, id);
    }
    if MatchAt(s, p) && Capture(s, p) == id {
      MatchThenOccurs(s, p);
    }
  }

  lemma OccursThenMatches(s: string, p: nat, id: string)
    requires OccursAt(s, p, id)
    ensures MatchAt(s, p) && Capture(s, p) == id
  {
    var a := p + |Prefix|;
    var b := a + |id|;
    var m := Prefix + id + "_";
    assert s[p..b + 1] == m;
    assert m[..|Prefix|] == Prefix;
    assert m[|Prefix|..|Prefix| + |id|] == id;
    assert m[|Prefix| + |id|] == '_';
    SliceOfSlice(s, p, b + 1, 0, |Prefix|);
    SliceOfSlice(s, p, b + 1, |Prefix|, |Prefix| + |id|);
    assert s[p..a] == Prefix;
    assert s[a..b] == id;
    assert s[b] == '_';
    DigitRunUnique(s, a, b);
  }

  lemma MatchThenOccurs(s: string, p: nat)
    requires p <= |s| && MatchAt(s, p)
    ensures OccursAt(s, p, Capture(s, p))
  {
    var a := p + |Prefix|;
    var id := Capture(s, p);
    var b := a + |id|;
    assert s[p..b + 1] == s[p..a] + s[a..b] + [s[b]];
  }

  /**
   * Decoding succeeds exactly when the pattern occurs somewhere, and then
   * gives the digits of its leftmost occurrence.
   */
  lemma DecodeMeaning(s: string)
    ensures Decode(s).None? <==> forall p: nat, id :: !OccursAt(s, p, id)
    ensures Decode(s).Some? ==> exists p: nat ::
      OccursAt(s, p, Decode(s).value) && forall q: nat, id :: q < p ==> !OccursAt(s, q, id)
  {
    match FindFrom(s, 0)
    case None =>
      forall p: nat, id | OccursAt(s, p, id) ensures false {
        MatchAtIff(s, p, id);
      }
    case Some(p) =>
      var id := Capture(s, p);
      MatchAtIff(s, p, id);
      forall q: nat, id' | q < p ensures !OccursAt(s, q, id') {
        MatchAtIff(s, q, id');
      }
  }

  /** A reference that starts with the prefix, digits and `_` decodes to those digits, whatever follows. */
  lemma DecodeOfShape(id: string, rest: string)
    requires |id| >= 1 && AllDigits(id)
    ensures Decode(Prefix + id + "_" + rest) == Some(id)
  {
    var s := Prefix + id + "_" + rest;
    assert s[0..|Prefix| + |id| + 1] == Prefix + id + "_";
    assert OccursAt(s, 0, id);
    MatchAtIff(s, 0, id);
  }

  /** Encode then decode recovers the order id as it was printed, for every token. */
  lemma DecodeEncode(orderId: nat, token: nat)
    ensures Decode(Encode(orderId, token)) == Some(Digits(orderId))
  {
    DecodeOfShape(Digits(orderId), Digits(token));
  }

  /** References of different orders never decode to the same id. */
  lemma EncodeSeparatesOrders(m: nat, n: nat, s: nat, t: nat)
    requires Decode(Encode(m, s)) == Decode(Encode(n, t))
    ensures m == n
  {
    DecodeEncode(m, s);
    DecodeEncode(n, t);
    DigitsInjective(m, n);
  }

  /** A text that never contains the prefix does not decode. */
  lemma DecodeNeedsPrefix(s: string)
    requires forall p: nat :: !PrefixAt(s, p)
    ensures Decode(s) == None
  {
  }

  lemma DecodeExamples()
    ensures Decode("shopify_order_555_1690000000000") == Some("555")
    ensures Decode("") == None
  {
    assert "shopify_order_555_1690000000000" == Prefix + "555" + "_" + "1690000000000";
    DecodeOfShape("555", "1690000000000");
  }
}
