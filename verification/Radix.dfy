/** Positional notation, most significant digit first. */
module Radix {

  ghost predicate Digits(b: nat, ds: seq<nat>) {
    forall i | 0 <= i < |ds| :: ds[i] < b
  }

  function Value(b: nat, ds: seq<nat>): nat {
    if ds == [] then 0 else Value(b, ds[..|ds| - 1]) * b + ds[|ds| - 1]
  }

  /** The first difference decides, as in byte-wise string comparison. */
  ghost predicate Lex(a: seq<nat>, c: seq<nat>) {
    exists i | 0 <= i < |a| && i < |c| :: a[..i] == c[..i] && a[i] < c[i]
  }

  lemma Carry(b: nat, u: nat, v: nat, x: nat, y: nat)
    requires u < v && x < b
    ensures u * b + x < v * b + y
  {
    var k := v - u - 1;
    assert v * b == u * b + k * b + b;
  }

  lemma ExtendLex(a: seq<nat>, c: seq<nat>, n: nat)
    requires n <= |a| && n <= |c| && Lex(a[..n], c[..n])
    ensures Lex(a, c)
  {
    var i :| 0 <= i < n && a[..n][..i] == c[..n][..i] && a[..n][i] < c[..n][i];
    assert a[..i] == a[..n][..i] && c[..i] == c[..n][..i];
  }

  lemma RestrictLex(a: seq<nat>, c: seq<nat>, n: nat)
    requires |a| == |c| == n + 1 && Lex(a, c)
    ensures Lex(a[..n], c[..n]) || (a[..n] == c[..n] && a[n] < c[n])
  {
    var i :| 0 <= i < |a| && a[..i] == c[..i] && a[i] < c[i];
    if i < n {
      assert a[..n][..i] == a[..i] && c[..n][..i] == c[..i];
      assert a[..n][i] < c[..n][i];
    }
  }

  /** On numerals of one length, comparing digits from the left compares values. */
  lemma {:induction false} LexIsOrder(b: nat, a: seq<nat>, c: seq<nat>)
    requires |a| == |c| && Digits(b, a) && Digits(b, c)
    ensures Value(b, a) < Value(b, c) <==> Lex(a, c)
    ensures Value(b, a) == Value(b, c) <==> a == c
    decreases |a|
  {
    if a != [] {
      var n := |a| - 1;
      var u, v := Value(b, a[..n]), Value(b, c[..n]);
      LexIsOrder(b, a[..n], c[..n]);
      LexIsOrder(b, c[..n], a[..n]);
      if Lex(a, c) {
        RestrictLex(a, c, n);
      }
      if u < v {
        Carry(b, u, v, a[n], c[n]);
        ExtendLex(a, c, n);
      } else if v < u {
        Carry(b, v, u, c[n], a[n]);
      } else {
        assert a == a[..n] + [a[n]] && c == c[..n] + [c[n]];
      }
    }
  }
}
