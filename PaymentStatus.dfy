/**
 * Which Gateway statuses mean that money has moved or is reserved: the
 * whitelist `success`, `hold`, `approved`, `processed`, compared after
 * lower-casing the status.
 */
module PaymentStatus {

  const Whitelist: seq<string> := ["success", "hold", "approved", "processed"]

  predicate IsUpperAscii(c: char) {
    'A' <= c <= 'Z'
  }

  predicate IsLowerAscii(c: char) {
    'a' <= c <= 'z'
  }

  /** `toLowerCase` on one character, for the ASCII letters. */
  function LowerChar(c: char): (r: char)
    ensures IsUpperAscii(c) ==> IsLowerAscii(r) && r as int == c as int + 32
    ensures !IsUpperAscii(c) ==> r == c
  {
    if IsUpperAscii(c) then (c as int + 32) as char else c
  }

  /** `toLowerCase` on a string, for the ASCII letters. */
  function Lower(s: string): (r: string)
    ensures |r| == |s| && forall i :: 0 <= i < |s| ==> r[i] == LowerChar(s[i])
  {
    seq(|s|, i requires 0 <= i < |s| => LowerChar(s[i]))
  }

  /** `[...whitelist].includes(String(status).toLowerCase())`. */
  predicate IsEffective(status: string) {
    Lower(status) in Whitelist
  }

  /** `s` spells the lower-case word `w`, each letter in either case. */
  predicate SpellsIgnoringCase(s: string, w: string) {
    |s| == |w| && forall i :: 0 <= i < |s| ==> s[i] == w[i] || s[i] as int + 32 == w[i] as int
  }

  predicate AllLowerLetters(w: string) {
    forall i :: 0 <= i < |w| ==> IsLowerAscii(w[i])
  }

  /** Lower-casing gives a word of lower-case letters exactly when the string spells it in any case. */
  lemma LowerIsWord(s: string, w: string)
    requires AllLowerLetters(w)
    ensures Lower(s) == w <==> SpellsIgnoringCase(s, w)
  {
    if SpellsIgnoringCase(s, w) {
      forall i | 0 <= i < |s| ensures Lower(s)[i] == w[i] {
        assert IsLowerAscii(w[i]);
      }
    }
  }

  /** A status is effective exactly when it spells a whitelisted word, in upper, lower or mixed case. */
  lemma EffectiveIff(status: string)
    ensures IsEffective(status) <==> exists w :: w in Whitelist && SpellsIgnoringCase(status, w)
  {
    forall w | w in Whitelist ensures Lower(status) == w <==> SpellsIgnoringCase(status, w) {
      LowerIsWord(status, w);
    }
  }

  lemma StatusExamples()
    ensures IsEffective("success") && IsEffective("SUCCESS") && IsEffective("Hold")
    ensures !IsEffective("expired") && !IsEffective("holded") && !IsEffective("undefined")
  {
    assert Lower("success") == "success";
    assert Lower("SUCCESS") == "success";
    assert Lower("Hold") == "hold";
    assert Lower("expired") == "expired";
    assert Lower("holded") == "holded";
    assert Lower("undefined") == "undefined";
  }
}
