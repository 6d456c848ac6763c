/** The part of strconv the program relies on: base-10 integers of 64 bits. */
module Decimal {
  import opened Common
  import opened Radix

  const MAX_INT64 := 0x7FFF_FFFF_FFFF_FFFF

  predicate AllDigits(s: string) {
    forall i | 0 <= i < |s| :: '0' <= s[i] <= '9'
  }

  function DigitsIn(s: string): seq<nat>
    requires AllDigits(s)
  {
    seq(|s|, i requires 0 <= i < |s| => s[i] as int - '0' as int)
  }

  function Number(s: string): nat
    requires AllDigits(s)
  {
    Value(10, DigitsIn(s))
  }

  /** Of digits ParseInt makes their value, with the sign in front of them if there is one, provided it is in range. */
  lemma DigitsParse(digits: string)
    requires digits != "" && AllDigits(digits)
    ensures ParseInt(digits) == ParseInt("+" + digits) ==
            if Number(digits) <= 0x7FFF_FFFF_FFFF_FFFF then Some(Number(digits)) else None
    ensures ParseInt("-" + digits) ==
            if Number(digits) <= 0x8000_0000_0000_0000 then Some(0 - Number(digits)) else None
  {
    assert digits[0] != '-' && digits[0] != '+';
    assert ("+" + digits)[1..] == digits && ("-" + digits)[1..] == digits;
  }

  /** ParseInt(s, 10, 64): an optional sign, at least one digit, and a value in range. */
  function ParseInt(s: string): (n: Option<int>)
    ensures n.Some? ==> s != "" && (forall i | 1 <= i < |s| :: '0' <= s[i] <= '9') &&
                        ('0' <= s[0] <= '9' || ((s[0] == '+' || s[0] == '-') && |s| > 1))
  {
    var negative := s != "" && s[0] == '-';
    var body := if s != "" && (s[0] == '-' || s[0] == '+') then s[1..] else s;
    if body == "" || !AllDigits(body) then None
    else
      var n: int := Number(body);
      if negative then (if n <= MAX_INT64 + 1 then Some(0 - n) else None)
      else if n <= MAX_INT64 then Some(n) else None
  }
}
