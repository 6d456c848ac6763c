/** internal/service/base62.go: row ids written in base 62. */
module Base62 {
  import opened Radix

  const DIGITS := "0123456789"
  const UPPER := "ABCDEFGHIJKLMNOPQRSTUVWXYZ"
  const LOWER := "abcdefghijklmnopqrstuvwxyz"
  const ALPHABET := DIGITS + UPPER + LOWER

  newtype uint64 = x: int | 0 <= x < 0x1_0000_0000_0000_0000

  function Pow62(k: nat): (p: nat)
    ensures p >= 1
  {
    if k == 0 then 1 else 62 * Pow62(k - 1)
  }

  function DigitsOf(n: nat): seq<nat> {
    if n < 62 then [n] else DigitsOf(n / 62) + [n % 62]
  }

  predicate IsNumeral(s: string) {
    forall c | c in s :: c in ALPHABET
  }

  /** A numeral with no superfluous leading '0'. */
  predicate IsCanonical(s: string) {
    s != [] && IsNumeral(s) && (s[0] == '0' ==> |s| == 1)
  }

  /** The place of an alphabet character, by arithmetic on its byte. */
  function DigitOf(c: char): nat {
    if c < '0' then 0
    else if c <= '9' then c as int - '0' as int
    else if c <= 'Z' then c as int - 'A' as int + 10
    else c as int - 'a' as int + 36
  }

  function CharOf(d: nat): char
    requires d < 62
  {
    ALPHABET[d]
  }

  function Spell(ds: seq<nat>): string
    requires Digits(62, ds)
  {
    seq(|ds|, i requires 0 <= i < |ds| => CharOf(ds[i]))
  }

  function Unspell(s: string): seq<nat>
    requires IsNumeral(s)
  {
    seq(|s|, i requires 0 <= i < |s| => DigitOf(s[i]))
  }

  function Encode(n: nat): string {
    DigitsOfFacts(n);
    Spell(DigitsOf(n))
  }

  function Decode(s: string): nat
    requires IsNumeral(s)
  {
    Value(62, Unspell(s))
  }

  /** Shorter strings first, and strings of one length in byte order. */
  ghost predicate Precedes(a: string, b: string) {
    |a| < |b| ||
    (|a| == |b| && exists i | 0 <= i < |a| :: a[..i] == b[..i] && a[i] < b[i])
  }

  // ---------------------------------------------------------------- digits

  lemma AlphabetIsIncreasing()
    ensures |ALPHABET| == 62
    ensures forall d | 0 <= d < 62 :: DigitOf(ALPHABET[d]) == d
    ensures forall d, e | 0 <= d < e < 62 :: ALPHABET[d] < ALPHABET[e]
  {
    assert |DIGITS| == 10 && |UPPER| == 26 && |LOWER| == 26;
    assert forall d | 0 <= d < 10 :: DIGITS[d] == '0' + d as char;
    assert forall d | 0 <= d < 26 :: UPPER[d] == 'A' + d as char;
    assert forall d | 0 <= d < 26 :: LOWER[d] == 'a' + d as char;
  }

  lemma AlphabetIsAlphanumeric(c: char)
    requires c in ALPHABET
    ensures '0' <= c <= '9' || 'A' <= c <= 'Z' || 'a' <= c <= 'z'
  {
    var d :| 0 <= d < |ALPHABET| && ALPHABET[d] == c;
    AlphabetAt(d);
  }

  lemma AlphabetAt(d: nat)
    requires d < |ALPHABET|
    ensures ALPHABET[d] == if d < 10 then '0' + d as char
                           else if d < 36 then 'A' + (d - 10) as char else 'a' + (d - 36) as char
  {
    assert |DIGITS| == 10 && |UPPER| == 26 && |LOWER| == 26;
    if d < 10 {
      assert ALPHABET[d] == DIGITS[d];
    } else if d < 36 {
      assert ALPHABET[d] == UPPER[d - 10];
    } else {
      assert ALPHABET[d] == LOWER[d - 36];
    }
  }

  lemma {:induction false} DigitsOfFacts(n: nat)
    ensures DigitsOf(n) != [] && Digits(62, DigitsOf(n)) && Value(62, DigitsOf(n)) == n
    ensures n > 0 ==> DigitsOf(n)[0] != 0
    ensures n == 0 ==> DigitsOf(n) == [0]
    decreases n
  {
    if n < 62 {
      assert [n][..0] == [];
    } else {
      DigitsOfFacts(n / 62);
      assert DigitsOf(n)[..|DigitsOf(n)| - 1] == DigitsOf(n / 62);
    }
  }

  lemma {:induction false} ValueFacts(ds: seq<nat>)
    requires ds != [] && Digits(62, ds) && (ds[0] == 0 ==> |ds| == 1)
    ensures DigitsOf(Value(62, ds)) == ds
    decreases |ds|
  {
    var n := |ds| - 1;
    var front := ds[..n];
    if n > 0 {
      ValueFacts(front);
      assert ds == front + [ds[n]];
    }
  }

  lemma {:induction false} LengthBounds(n: nat)
    ensures n < Pow62(|DigitsOf(n)|)
    ensures n > 0 ==> Pow62(|DigitsOf(n)| - 1) <= n
    decreases n
  {
    if n >= 62 {
      LengthBounds(n / 62);
    }
  }

  lemma {:induction false} PowMonotone(j: nat, k: nat)
    requires j <= k
    ensures Pow62(j) <= Pow62(k)
  {
    if j < k {
      PowMonotone(j, k - 1);
    }
  }

  lemma UnspellSpell(ds: seq<nat>)
    requires Digits(62, ds)
    ensures IsNumeral(Spell(ds)) && Unspell(Spell(ds)) == ds
  {
    AlphabetIsIncreasing();
  }

  lemma SpellUnspell(s: string)
    requires IsNumeral(s)
    ensures Digits(62, Unspell(s)) && Spell(Unspell(s)) == s
  {
    AlphabetIsIncreasing();
    forall i | 0 <= i < |s| ensures DigitOf(s[i]) < 62 && ALPHABET[DigitOf(s[i])] == s[i] {
      assert s[i] in s;
      var d :| 0 <= d < |ALPHABET| && ALPHABET[d] == s[i];
    }
  }

  lemma CharKeepsOrder(d: nat, e: nat)
    requires d < 62 && e < 62
    ensures CharOf(d) < CharOf(e) <==> d < e
    ensures CharOf(d) == CharOf(e) <==> d == e
  {
    AlphabetIsIncreasing();
  }

  lemma SpellPrefix(a: seq<nat>, b: seq<nat>, i: nat)
    requires i <= |a| == |b| && Digits(62, a) && Digits(62, b)
    ensures Spell(a)[..i] == Spell(b)[..i] <==> a[..i] == b[..i]
  {
    forall j | 0 <= j < i ensures Spell(a)[..i][j] == Spell(b)[..i][j] <==> a[..i][j] == b[..i][j] {
      CharKeepsOrder(a[j], b[j]);
    }
  }

  lemma SpellKeepsOrder(a: seq<nat>, b: seq<nat>)
    requires |a| == |b| && Digits(62, a) && Digits(62, b)
    ensures Lex(a, b) <==> Precedes(Spell(a), Spell(b))
  {
    if Lex(a, b) {
      var i :| 0 <= i < |a| && a[..i] == b[..i] && a[i] < b[i];
      SpellPrefix(a, b, i);
      CharKeepsOrder(a[i], b[i]);
    }
    if Precedes(Spell(a), Spell(b)) {
      var i :| 0 <= i < |a| && Spell(a)[..i] == Spell(b)[..i] && Spell(a)[i] < Spell(b)[i];
      SpellPrefix(a, b, i);
      CharKeepsOrder(a[i], b[i]);
    }
  }

  // ---------------------------------------------------------------- results

  /** Codes decode back to their number, and are canonical. */
  lemma EncodeRoundTrip(n: nat)
    ensures IsCanonical(Encode(n)) && Decode(Encode(n)) == n
    ensures Encode(n)[0] == '0' <==> n == 0
  {
    DigitsOfFacts(n);
    UnspellSpell(DigitsOf(n));
    AlphabetIsIncreasing();
    assert Encode(n)[0] == ALPHABET[DigitsOf(n)[0]];
    assert ALPHABET[0] == '0';
  }

  /** Every canonical string is the code of the number it denotes. */
  lemma DecodeRoundTrip(s: string)
    requires IsCanonical(s)
    ensures Encode(Decode(s)) == s
  {
    SpellUnspell(s);
    AlphabetIsIncreasing();
    assert Unspell(s)[0] == DigitOf(s[0]);
    assert ALPHABET[0] == '0';
    assert Unspell(s)[0] == 0 ==> s[0] == '0' by {
      if Unspell(s)[0] == 0 { assert Spell(Unspell(s))[0] == CharOf(0); }
    }
    ValueFacts(Unspell(s));
  }

  lemma EncodeInjective(n: nat, m: nat)
    requires Encode(n) == Encode(m)
    ensures n == m
  {
    EncodeRoundTrip(n);
    EncodeRoundTrip(m);
  }

  /** Ids are ordered exactly as their codes are, by length and then byte by byte. */
  lemma EncodeIsOrderIsomorphism(n: nat, m: nat)
    ensures n < m <==> Precedes(Encode(n), Encode(m))
  {
    var dn, dm := DigitsOf(n), DigitsOf(m);
    DigitsOfFacts(n);
    DigitsOfFacts(m);
    LengthBounds(n);
    LengthBounds(m);
    if |dn| < |dm| {
      PowMonotone(|dn|, |dm| - 1);
    } else if |dm| < |dn| {
      PowMonotone(|dm|, |dn| - 1);
    } else {
      LexIsOrder(62, dn, dm);
      SpellKeepsOrder(dn, dm);
    }
  }

  /** The length of a code tells between which powers of 62 the id lies. */
  lemma EncodeLength(n: nat, k: nat)
    requires k >= 1
    ensures |Encode(n)| <= k <==> n < Pow62(k)
  {
    DigitsOfFacts(n);
    LengthBounds(n);
    var l := |DigitsOf(n)|;
    if l <= k {
      PowMonotone(l, k);
    } else {
      PowMonotone(k, l - 1);
    }
  }

  /** Every uint64, so every row id, has a code of at most eleven characters. */
  lemma ElevenDigitsSuffice(n: nat)
    requires n < 0x1_0000_0000_0000_0000
    ensures 1 <= |Encode(n)| <= 11 && n < Pow62(11)
  {
    assert Pow62(3) == 238328;
    assert Pow62(6) == 56800235584;
    assert Pow62(9) == 13537086546263552;
    EncodeLength(n, 11);
    DigitsOfFacts(n);
  }

  /** The digits still to be written in front of those already in the buffer. */
  function Leading(n: nat): string {
    if n == 0 then "" else Encode(n)
  }

  lemma SpellAppend(ds: seq<nat>, d: nat)
    requires Digits(62, ds) && d < 62
    ensures Digits(62, ds + [d]) && Spell(ds + [d]) == Spell(ds) + [CharOf(d)]
  {}

  lemma LeadingStep(n: nat)
    requires n > 0
    ensures Leading(n) == Leading(n / 62) + [CharOf(n % 62)]
  {
    var q, d := n / 62, n % 62;
    if q > 0 {
      DigitsOfFacts(q);
      assert DigitsOf(n) == DigitsOf(q) + [d];
      SpellAppend(DigitsOf(q), d);
    } else {
      assert DigitsOf(n) == [] + [d];
      SpellAppend([], d);
    }
  }

  /** One turn of the loop: the next digit goes in front of those already written. */
  lemma LoopTurn(n: nat, written: string, longer: string)
    requires n > 0 && longer == [CharOf(n % 62)] + written
    ensures Leading(n) + written == Leading(n / 62) + longer
  {
    LeadingStep(n);
  }

  lemma ZeroIsZero()
    ensures Encode(0) == "0"
  {
    assert DigitsOf(0) == [0];
    assert ALPHABET[0] == '0';
  }

  /** EncodeBase62: fills an 11-byte buffer from the end; the index never underruns. */
  method EncodeBase62(id: uint64) returns (code: string)
    ensures code == Encode(id as nat) && 1 <= |code| <= 11
  {
    ElevenDigitsSuffice(id as nat);
    if id == 0 {
      ZeroIsZero();
      return "0";
    }
    var n := id;
    var buf := new char[11];
    var i := buf.Length;
    while n > 0
      invariant 0 <= i <= 11 == buf.Length
      invariant (n as int) < Pow62(i)
      invariant Encode(id as nat) == Leading(n as nat) + buf[i..]
    {
      ghost var written := buf[i..];
      i := i - 1;
      buf[i] := ALPHABET[n % 62];
      LoopTurn(n as nat, written, buf[i..]);
      n := n / 62;
    }
    code := buf[i..];
  }
}
