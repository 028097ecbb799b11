/** Text helpers that the fingerprints and the SMTP behaviour share: joining and splitting at a
    separator, decimal and hexadecimal numbers. */
module Text {
  /** The parts of a text with a separator between them. */
  function Join(parts: seq<string>, sep: char): string {
    if parts == [] then ""
    else if |parts| == 1 then parts[0]
    else parts[0] + [sep] + Join(parts[1..], sep)
  }

  /** The text between the separators; a text without a separator is one part. */
  function Split(s: string, sep: char): (parts: seq<string>)
    ensures |parts| >= 1
    decreases |s|
  {
    if sep !in s then [s]
    else
      var i := First(s, sep);
      [s[..i]] + Split(s[i + 1..], sep)
  }

  function First(s: string, c: char): (i: nat)
    requires c in s
    ensures i < |s| && s[i] == c && c !in s[..i]
  {
    if s[0] == c then 0
    else
      var i := 1 + First(s[1..], c);
      assert s[..i] == [s[0]] + s[1..][..i - 1];
      i
  }

  ghost predicate Free(parts: seq<string>, sep: char) {
    forall i :: 0 <= i < |parts| ==> sep !in parts[i]
  }

  ghost predicate NonEmpty(parts: seq<string>) {
    forall i :: 0 <= i < |parts| ==> parts[i] != ""
  }

  lemma SplitFirst(part: string, rest: string, sep: char)
    requires sep !in part
    ensures Split(part + [sep] + rest, sep) == [part] + Split(rest, sep)
  {
    var s := part + [sep] + rest;
    assert s[|part|] == sep && s[..|part|] == part;
    FirstIs(s, sep, |part|);
    assert s[|part| + 1..] == rest;
  }

  lemma {:induction false} FirstIs(s: string, c: char, i: nat)
    requires i < |s| && s[i] == c && c !in s[..i]
    ensures First(s, c) == i
    decreases i
  {
    if i > 0 {
      assert s[0] == s[..i][0];
      assert s[1..][..i - 1] == s[..i][1..];
      FirstIs(s[1..], c, i - 1);
    }
  }

  /** Splitting undoes joining, as long as no part contains the separator. */
  lemma {:induction false} SplitJoin(parts: seq<string>, sep: char)
    requires parts != [] && Free(parts, sep)
    ensures Split(Join(parts, sep), sep) == parts
    decreases |parts|
  {
    if |parts| > 1 {
      SplitFirst(parts[0], Join(parts[1..], sep), sep);
      SplitJoin(parts[1..], sep);
    }
  }

  lemma JoinIsEmpty(parts: seq<string>, sep: char)
    requires NonEmpty(parts)
    ensures Join(parts, sep) == "" <==> parts == []
  {
  }

  /** Lists of separator-free, non-empty parts have equal texts only when they are equal. */
  lemma JoinInjective(a: seq<string>, b: seq<string>, sep: char)
    requires Free(a, sep) && NonEmpty(a) && Free(b, sep) && NonEmpty(b)
    ensures Join(a, sep) == Join(b, sep) <==> a == b
  {
    JoinIsEmpty(a, sep);
    JoinIsEmpty(b, sep);
    if a != [] && b != [] {
      SplitJoin(a, sep);
      SplitJoin(b, sep);
    }
  }

  /** A separator that a text starts without is a place to cut it. */
  lemma CutInjective(a: string, s: string, b: string, t: string, sep: char)
    requires sep !in a && sep !in b
    ensures a + [sep] + s == b + [sep] + t <==> a == b && s == t
  {
    var x, y := a + [sep] + s, b + [sep] + t;
    assert x[|a|] == sep && x[..|a|] == a && x[|a| + 1..] == s;
    assert y[|b|] == sep && y[..|b|] == b && y[|b| + 1..] == t;
    FirstIs(x, sep, |a|);
    FirstIs(y, sep, |b|);
  }

  lemma {:induction false} JoinContains(parts: seq<string>, sep: char, c: char)
    requires Free(parts, c) && c != sep
    ensures c !in Join(parts, sep)
    decreases |parts|
  {
    if |parts| > 1 {
      JoinContains(parts[1..], sep, c);
    }
  }

  // ---------------------------------------------------------------------
  // Numbers.

  const DIGITS := "0123456789abcdef"

  function Digit(d: nat): (c: char)
    requires d < 16
    ensures d < 10 ==> '0' <= c <= '9'
    ensures d >= 10 ==> 'a' <= c <= 'f'
  {
    DIGITS[d]
  }

  lemma DigitInjective(d: nat, e: nat)
    requires d < 16 && e < 16 && Digit(d) == Digit(e)
    ensures d == e
  {
  }

  function Decimal(n: nat): (s: string)
    ensures s != ""
    ensures forall i :: 0 <= i < |s| ==> '0' <= s[i] <= '9'
  {
    if n < 10 then [Digit(n)] else Decimal(n / 10) + [Digit(n % 10)]
  }

  lemma {:induction false} DecimalInjective(m: nat, n: nat)
    requires Decimal(m) == Decimal(n)
    ensures m == n
    decreases m
  {
    assert Decimal(m)[|Decimal(m)| - 1] == Digit(m % 10);
    assert Decimal(n)[|Decimal(n)| - 1] == Digit(n % 10);
    DigitInjective(m % 10, n % 10);
    DecimalLength(m);
    DecimalLength(n);
    if m >= 10 {
      assert Decimal(m / 10) == Decimal(m)[..|Decimal(m)| - 1];
      assert Decimal(n / 10) == Decimal(n)[..|Decimal(n)| - 1];
      DecimalInjective(m / 10, n / 10);
    }
  }

  lemma DecimalLength(n: nat)
    ensures |Decimal(n)| == 1 <==> n < 10
  {
    if n >= 10 {
      assert |Decimal(n)| == |Decimal(n / 10)| + 1;
    }
  }

  /** Four hexadecimal digits. */
  function Hex4(v: nat): (s: string)
    requires v < 65536
    ensures |s| == 4
    ensures forall i :: 0 <= i < 4 ==> '0' <= s[i] <= '9' || 'a' <= s[i] <= 'f'
  {
    [Digit(v / 4096), Digit(v / 256 % 16), Digit(v / 16 % 16), Digit(v % 16)]
  }

  lemma Hex4Injective(v: nat, w: nat)
    requires v < 65536 && w < 65536 && Hex4(v) == Hex4(w)
    ensures v == w
  {
    var a, b := Hex4(v), Hex4(w);
    assert a[0] == b[0] && a[1] == b[1] && a[2] == b[2] && a[3] == b[3];
    DigitInjective(v / 4096, w / 4096);
    DigitInjective(v / 256 % 16, w / 256 % 16);
    DigitInjective(v / 16 % 16, w / 16 % 16);
    DigitInjective(v % 16, w % 16);
    Digits4(v);
    Digits4(w);
  }

  lemma Digits4(v: nat)
    requires v < 65536
    ensures v == v / 4096 * 4096 + v / 256 % 16 * 256 + v / 16 % 16 * 16 + v % 16
  {
    assert v / 16 / 16 == v / 256;
    assert v / 256 / 16 == v / 4096;
  }
}
