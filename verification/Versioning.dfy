/** The names of the embedded migrations (internal/repository/migrate.go, migrationVersion):
    which version a name stands for, and what the order of the names says about the versions. */
module Versioning {
  import opened Common
  import opened Decimal
  import opened Radix

  const SUFFIX := ".up.sql"

  function TrimSuffix(s: string, suffix: string): string {
    if |suffix| <= |s| && s[|s| - |suffix|..] == suffix then s[..|s| - |suffix|] else s
  }

  function CutAt(s: string, sep: char): string {
    if s == "" || s[0] == sep then "" else [s[0]] + CutAt(s[1..], sep)
  }

  function Prefix(name: string): string {
    CutAt(TrimSuffix(name, SUFFIX), '_')
  }

  /** migrationVersion: None when the prefix is no 64-bit integer. */
  function Version(name: string): Option<int> {
    ParseInt(Prefix(name))
  }

  /** A migration file, with what migrationVersion makes of its name. */
  datatype File = File(name: string, version: Option<int>)

  ghost predicate Genuine(files: seq<File>) {
    forall k | 0 <= k < |files| :: files[k].version == Version(files[k].name)
  }

  /** Byte-wise string comparison, as sort.Strings orders the names. */
  ghost predicate Before(a: string, b: string) {
    exists i | 0 <= i <= |a| && i < |b| :: a[..i] == b[..i] && (i == |a| || a[i] < b[i])
  }

  ghost predicate Ascending(files: seq<File>) {
    forall i, j | 0 <= i < j < |files| :: Before(files[i].name, files[j].name)
  }

  /** The name starts with exactly w digits, and then an underscore or the suffix. */
  predicate Numbered(name: string, w: nat) {
    w > 0 && |Prefix(name)| == w && AllDigits(Prefix(name))
  }

  lemma {:induction false} CutIsPrefix(s: string, sep: char)
    ensures CutAt(s, sep) <= s
    decreases |s|
  {
    if s != "" && s[0] != sep {
      CutIsPrefix(s[1..], sep);
      assert s == [s[0]] + s[1..];
    }
  }

  lemma NumberedVersion(name: string, w: nat)
    requires Numbered(name, w)
    ensures w <= |name| && Prefix(name) == name[..w]
    ensures Version(name) == if Number(Prefix(name)) <= MAX_INT64 then Some(Number(Prefix(name))) else None
  {
    DigitsParse(Prefix(name));
    CutIsPrefix(TrimSuffix(name, SUFFIX), '_');
  }

  lemma {:induction false} CutDigits(digits: string, rest: string)
    requires AllDigits(digits) && (rest == "" || rest[0] == '_')
    ensures CutAt(digits + rest, '_') == digits
    decreases |digits|
  {
    if digits == "" {
      assert digits + rest == rest;
    } else {
      assert digits[0] != '_' && (digits + rest)[1..] == digits[1..] + rest;
      CutDigits(digits[1..], rest);
      assert digits == [digits[0]] + digits[1..];
    }
  }

  /** A name of digits, an underscore, anything, and the suffix stands for the number, if that has 64 bits;
      so does one of digits and the suffix. */
  lemma NumberedNameParses(digits: string, rest: string)
    requires digits != "" && AllDigits(digits) && (rest == "" || rest[0] == '_')
    ensures Version(digits + rest + ".up.sql") ==
            if Number(digits) <= 0x7FFF_FFFF_FFFF_FFFF then Some(Number(digits)) else None
  {
    var name := digits + rest + ".up.sql";
    assert name[|name| - |SUFFIX|..] == SUFFIX && name[..|name| - |SUFFIX|] == digits + rest;
    CutDigits(digits, rest);
    DigitsParse(digits);
  }

  lemma DigitsFollowNames(a: string, b: string, w: nat)
    requires w <= |a| && w <= |b| && Before(a, b) && AllDigits(a[..w]) && AllDigits(b[..w])
    ensures Number(a[..w]) <= Number(b[..w])
  {
    var i :| 0 <= i <= |a| && i < |b| && a[..i] == b[..i] && (i == |a| || a[i] < b[i]);
    var x, y := DigitsIn(a[..w]), DigitsIn(b[..w]);
    if i < w {
      assert forall k | 0 <= k < i :: a[k] == a[..i][k] == b[..i][k] == b[k];
      assert x[..i] == y[..i] && x[i] < y[i];
      LexIsOrder(10, x, y);
    } else {
      assert a[..w] == a[..i][..w] == b[..i][..w] == b[..w];
    }
  }

  /** With prefixes of one width, the names' order is never against the versions'. */
  lemma NamesFollowVersions(a: string, b: string, w: nat)
    requires Numbered(a, w) && Numbered(b, w) && Before(a, b)
    requires Version(a).Some? && Version(b).Some?
    ensures Version(a).value <= Version(b).value
  {
    NumberedVersion(a, w);
    NumberedVersion(b, w);
    DigitsFollowNames(a, b, w);
  }

  /** The order of the files is never against the versions'. */
  ghost predicate Ranked(files: seq<File>) {
    forall i, j | 0 <= i < j < |files| && files[i].version.Some? && files[j].version.Some? ::
      files[i].version.value <= files[j].version.value
  }

  lemma PairRanked(x: File, y: File, w: nat)
    requires x.version == Version(x.name) && x.version.Some? && y.version == Version(y.name) && y.version.Some?
    requires Numbered(x.name, w) && Numbered(y.name, w) && Before(x.name, y.name)
    ensures x.version.value <= y.version.value
  {
    NamesFollowVersions(x.name, y.name, w);
  }

  lemma NamesRank(files: seq<File>, w: nat)
    requires Genuine(files) && Ascending(files) && forall k | 0 <= k < |files| :: Numbered(files[k].name, w)
    ensures Ranked(files)
  {
    forall i, j | 0 <= i < j < |files| && files[i].version.Some? && files[j].version.Some?
      ensures files[i].version.value <= files[j].version.value
    {
      PairRanked(files[i], files[j], w);
    }
  }

  lemma TenParses()
    ensures Version("10_b.up.sql") == Some(10)
  {
    var a := "10_b.up.sql";
    assert a[|a| - |SUFFIX|..] == SUFFIX && a[..|a| - |SUFFIX|] == "10_b";
    assert CutAt("10_b", '_') == "10" by {
      assert "10_b"[1..] == "0_b" && "0_b"[1..] == "_b";
      assert CutAt("_b", '_') == "" && CutAt("0_b", '_') == "0";
    }
    assert DigitsIn("10") == [1, 0] && [1, 0][..1] == [1] && [1][..0] == [];
    assert Value(10, [1]) == 1;
  }

  lemma TwoParses()
    ensures Version("2_a.up.sql") == Some(2)
  {
    var b := "2_a.up.sql";
    assert b[|b| - |SUFFIX|..] == SUFFIX && b[..|b| - |SUFFIX|] == "2_a";
    assert CutAt("2_a", '_') == "2" by {
      assert "2_a"[1..] == "_a" && CutAt("_a", '_') == "";
    }
    assert DigitsIn("2") == [2] && [2][..0] == [];
    assert Value(10, []) == 0;
  }

  /** Without one width the sorted order can put version 10 before version 2. */
  lemma UnequalWidthsMisorder()
    ensures Before("10_b.up.sql", "2_a.up.sql")
    ensures Version("10_b.up.sql") == Some(10) && Version("2_a.up.sql") == Some(2)
  {
    var a, b := "10_b.up.sql", "2_a.up.sql";
    assert a[..0] == b[..0] && a[0] < b[0];
    TenParses();
    TwoParses();
  }
}
