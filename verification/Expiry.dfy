/** internal/service/url.go, parseExpiry: a link's lifetime in int64 nanoseconds. */
module Expiry {
  import opened Common
  import opened Decimal

  const MINUTE := 60 * SECOND
  const HOUR := 60 * MINUTE
  const DAY := 24 * HOUR
  const MAX_EXPIRY := 365 * DAY

  /** What a Go int64 holds after arithmetic that may overflow. */
  function Wrap(x: int): int {
    (x + 0x8000_0000_0000_0000) % 0x1_0000_0000_0000_0000 - 0x8000_0000_0000_0000
  }

  /** The pattern ^(\d+)([mhd])$. */
  predicate Matches(s: string) {
    |s| >= 2 && AllDigits(s[..|s| - 1]) && s[|s| - 1] in "mhd"
  }

  function Amount(s: string): nat
    requires Matches(s)
  {
    Number(s[..|s| - 1])
  }

  function Unit(s: string): int
    requires Matches(s)
  {
    match s[|s| - 1]
    case 'm' => MINUTE
    case 'h' => HOUR
    case _ => DAY
  }

  /** parseExpiry: the absolute expiry, or None for ErrInvalidExpiry. Whatever the digits,
      an accepted expiry is in the future and at most 365 days ahead. */
  function ParseExpiry(s: string, now: int): (r: Option<int>)
    ensures r.Some? ==> now < r.value <= now + 31_536_000_000_000_000
    ensures r.Some? ==> |s| >= 2 && s[|s| - 1] in "mhd" && forall i | 0 <= i < |s| - 1 :: '0' <= s[i] <= '9'
  {
    if !Matches(s) || ParseInt(s[..|s| - 1]).None? then None
    else
      var n := ParseInt(s[..|s| - 1]).value;
      var d := match s[|s| - 1]
               case 'm' => Wrap(n * MINUTE)
               case 'h' => Wrap(n * HOUR)
               case _ => Wrap(Wrap(n * 24) * HOUR);
      if d > MAX_EXPIRY || d <= 0 then None else Some(now + d)
  }

  /** Wrapping between the two factors of a day changes nothing. */
  lemma WrapInside(n: int)
    ensures Wrap(Wrap(n * 24) * HOUR) == Wrap(n * DAY)
  {
    var k := (n * 24 + 0x8000_0000_0000_0000) / 0x1_0000_0000_0000_0000;
    assert Wrap(n * 24) == n * 24 - k * 0x1_0000_0000_0000_0000;
    WrapShift(n * DAY, k * HOUR);
  }

  lemma WrapShift(x: int, k: int)
    ensures Wrap(x - k * 0x1_0000_0000_0000_0000) == Wrap(x)
  {}

  /** ParseExpiry in one formula: the wrapped product decides. */
  lemma Characterised(s: string, now: int)
    requires Matches(s)
    ensures ParseExpiry(s, now) ==
            if Amount(s) <= MAX_INT64 && 0 < Wrap(Amount(s) * Unit(s)) <= MAX_EXPIRY
            then Some(now + Wrap(Amount(s) * Unit(s))) else None
  {
    WrapInside(Amount(s));
    assert '0' <= s[..|s| - 1][0] <= '9';
  }

  /** A number and a unit: the caller gets the lifetime asked for exactly when it lies in (0, 365 days]. */
  lemma GrantedAsAsked(digits: string, unit: char, now: int)
    requires digits != "" && AllDigits(digits) && unit in "mhd"
    ensures
      var nanoseconds := match unit
                         case 'm' => 60_000_000_000
                         case 'h' => 3_600_000_000_000
                         case _ => 86_400_000_000_000;
      ParseExpiry(digits + [unit], now) == Some(now + Number(digits) * nanoseconds) <==>
      0 < Number(digits) * nanoseconds <= 31_536_000_000_000_000
  {
    var s := digits + [unit];
    assert s[..|s| - 1] == digits;
    Characterised(s, now);
  }

  /** Some other lifetime is granted exactly when the product overruns 64 bits
      and its remainder happens to be an acceptable lifetime. */
  lemma GrantedOtherwise(s: string, now: int)
    requires Matches(s)
    ensures ParseExpiry(s, now).Some? && ParseExpiry(s, now) != Some(now + Amount(s) * Unit(s)) <==>
            Amount(s) <= MAX_INT64 &&
            Amount(s) * Unit(s) >= 0x1_0000_0000_0000_0000 &&
            0 < Amount(s) * Unit(s) % 0x1_0000_0000_0000_0000 <= MAX_EXPIRY
  {
    Characterised(s, now);
    WrappedIntoRange(Amount(s) * Unit(s));
  }

  lemma WrappedIntoRange(x: nat)
    ensures 0 < Wrap(x) <= MAX_EXPIRY && Wrap(x) != x <==>
            x >= 0x1_0000_0000_0000_0000 && 0 < x % 0x1_0000_0000_0000_0000 <= MAX_EXPIRY
  {}

  /** Such a request exists: 307445735 minutes, 584 years, become 26.29 seconds. */
  lemma WrappedRequest(now: int)
    ensures ParseExpiry("307445735m", now) == Some(now + 26_290_448_384)
  {
    var s := "307445735m";
    assert s[..9] == "307445735";
    var ds := DigitsIn("307445735");
    assert ds == [3, 0, 7, 4, 4, 5, 7, 3, 5];
    Nine(ds);
    Characterised(s, now);
  }

  lemma Nine(ds: seq<nat>)
    requires ds == [3, 0, 7, 4, 4, 5, 7, 3, 5]
    ensures Radix.Value(10, ds) == 307445735
  {
    assert ds[..8][..7] == [3, 0, 7, 4, 4, 5, 7];
    assert ds[..8][..7][..6][..5] == [3, 0, 7, 4, 4];
    assert ds[..8][..7][..6][..5][..4][..3] == [3, 0, 7];
    assert Radix.Value(10, [3, 0, 7]) == 307 by {
      assert [3, 0, 7][..2] == [3, 0];
      assert [3, 0][..1] == [3];
    }
    assert Radix.Value(10, ds[..8][..7][..6][..5]) == 30744;
    assert Radix.Value(10, ds[..8][..7]) == 3074457;
  }
}
