/**
 * Decimal numerals and the `EVT-<n>` event identifiers built from the
 * event-id counter (src/index.js:181).
 */
module Decimal {
  import opened Optional

  predicate IsDigit(c: char) {
    '0' <= c <= '9'
  }

  predicate AllDigits(s: string) {
    forall i :: 0 <= i < |s| ==> IsDigit(s[i])
  }

  function DigitChar(d: nat): (c: char)
    requires d < 10
    ensures IsDigit(c)
  {
    ('0' as int + d) as char
  }

  function DigitValue(c: char): (d: nat)
    requires IsDigit(c)
    ensures d < 10
  {
    c as int - '0' as int
  }

  /** The decimal numeral of `n`, as a JavaScript template literal writes a non-negative integer. */
  function NatToString(n: nat): (s: string)
    ensures |s| > 0 && AllDigits(s)
    ensures s[0] == '0' ==> n == 0
    decreases n
  {
    if n < 10 then [DigitChar(n)] else NatToString(n / 10) + [DigitChar(n % 10)]
  }

  /** Reads a string of decimal digits back as a number. */
  function ParseNat(s: string): nat
    requires AllDigits(s)
    decreases |s|
  {
    if s == [] then 0 else ParseNat(s[..|s| - 1]) * 10 + DigitValue(s[|s| - 1])
  }

  /** Reading a numeral gives back the number it was written from. */
  lemma {:induction false} ParseNatToString(n: nat)
    ensures ParseNat(NatToString(n)) == n
    decreases n
  {
    if n >= 10 {
      var s := NatToString(n / 10);
      ParseNatToString(n / 10);
      assert (s + [DigitChar(n % 10)])[..|s|] == s;
    }
  }

  /** Different numbers have different numerals. */
  lemma NatToStringInjective(a: nat, b: nat)
    ensures NatToString(a) == NatToString(b) <==> a == b
  {
    ParseNatToString(a);
    ParseNatToString(b);
  }

  const EventIdPrefix: string := "EVT-"

  /** The identifier `EVT-<n>` stamped on the event made with counter value `n`. */
  function EventId(n: nat): (s: string)
    ensures |s| > |EventIdPrefix| && s[..|EventIdPrefix|] == EventIdPrefix
  {
    EventIdPrefix + NatToString(n)
  }

  /** The counter value an event identifier was made from, if it has the `EVT-<n>` form. */
  function ParseEventId(id: string): (r: Option<nat>)
    ensures r.Some? ==> |id| > |EventIdPrefix| && id[..|EventIdPrefix|] == EventIdPrefix
  {
    var k := |EventIdPrefix|;
    if |id| > k && id[..k] == EventIdPrefix && AllDigits(id[k..]) then Some(ParseNat(id[k..])) else None
  }

  /** An event identifier reads back as the counter value it was made from. */
  lemma {:induction false} ParseEventIdRoundTrip(n: nat)
    ensures ParseEventId(EventId(n)) == Some(n)
  {
    var id := EventId(n);
    assert id[..|EventIdPrefix|] == EventIdPrefix;
    assert id[|EventIdPrefix|..] == NatToString(n);
    ParseNatToString(n);
  }

  /** Two counter values give the same identifier only when they are equal. */
  lemma EventIdInjective(a: nat, b: nat)
    ensures EventId(a) == EventId(b) <==> a == b
  {
    ParseEventIdRoundTrip(a);
    ParseEventIdRoundTrip(b);
  }
}
