/** Reading the fingerprint texts of ja3.go and ja4.go back: which number stands where in them. */
module FingerprintText {
  import opened Bytes
  import opened ClientHello
  import opened Fingerprint
  import opened SmtpLines
  import opened Text

  // ---------------------------------------------------------------------
  // Reading numbers.

  /** The text is the number in decimal, without leading zeros. */
  predicate Spells(s: string, n: nat) {
    DigitsValue(s) == Some(n) && (s[0] == '0' ==> |s| == 1)
  }

  /** The text is the numbers in decimal, with dashes. */
  ghost predicate SpellsAll(s: string, values: seq<nat>) {
    if values == [] then s == ""
    else
      var parts := Split(s, '-');
      |parts| == |values| && forall i :: 0 <= i < |values| ==> Spells(parts[i], values[i])
  }

  function HexDigit(c: char): (d: Option<nat>) {
    if '0' <= c <= '9' then Some(c as int - '0' as int)
    else if 'a' <= c <= 'f' then Some(c as int - 'a' as int + 10)
    else None
  }

  function HexValue(s: string): (v: Option<nat>) {
    if s == "" then Some(0)
    else
      var high, low := HexValue(s[..|s| - 1]), HexDigit(s[|s| - 1]);
      if high.None? || low.None? then None else Some(16 * high.value + low.value)
  }

  /** The text is the values in four hexadecimal digits each, with commas. */
  ghost predicate SpellsHex(s: string, values: seq<u16>) {
    if values == [] then s == ""
    else
      var parts := Split(s, ',');
      |parts| == |values| && forall i :: 0 <= i < |values| ==> |parts[i]| == 4 && HexValue(parts[i]) == Some(values[i])
  }

  lemma DigitValue(d: nat)
    requires d < 16
    ensures d < 10 ==> Digit(d) as int == '0' as int + d
    ensures d >= 10 ==> Digit(d) as int == 'a' as int + d - 10
  {
  }

  lemma {:induction false} DecimalSpells(n: nat)
    ensures Spells(Decimal(n), n)
    decreases n
  {
    DigitValue(n % 10);
    if n >= 10 {
      DecimalSpells(n / 10);
      var s := Decimal(n);
      assert s[..|s| - 1] == Decimal(n / 10);
    }
  }

  lemma DecimalsSpell(values: seq<u16>)
    ensures SpellsAll(Join(Decimals(values), '-'), values)
  {
    if values != [] {
      SplitJoin(Decimals(values), '-');
      forall i | 0 <= i < |values|
        ensures Spells(Decimals(values)[i], values[i])
      {
        DecimalSpells(values[i]);
      }
    }
  }

  lemma HexOf(s: string, c: char)
    ensures HexValue(s + [c]) == (if HexValue(s).None? || HexDigit(c).None? then None
                                  else Some(16 * HexValue(s).value + HexDigit(c).value))
  {
    PrefixOfSnoc(s, c);
  }

  lemma DigitReads(d: nat)
    requires d < 16
    ensures HexDigit(Digit(d)) == Some(d)
  {
    DigitValue(d);
  }

  lemma FourDigits(p: char, q: char, r: char, s: char, a: nat, b: nat, c: nat, d: nat)
    requires HexDigit(p) == Some(a) && HexDigit(q) == Some(b) && HexDigit(r) == Some(c) && HexDigit(s) == Some(d)
    ensures HexValue([p, q, r, s]) == Some(16 * (16 * (16 * a + b) + c) + d)
  {
    HexOf("", p);
    HexOf([p], q);
    HexOf([p, q], r);
    HexOf([p, q, r], s);
    assert [] + [p] == [p] && [p] + [q] == [p, q] && [p, q] + [r] == [p, q, r] && [p, q, r] + [s] == [p, q, r, s];
  }

  lemma Hex4Spells(v: u16)
    ensures HexValue(Hex4(v)) == Some(v)
  {
    var a, b, c, d := v / 4096, v / 256 % 16, v / 16 % 16, v % 16;
    DigitReads(a);
    DigitReads(b);
    DigitReads(c);
    DigitReads(d);
    FourDigits(Digit(a), Digit(b), Digit(c), Digit(d), a, b, c, d);
    Digits4(v);
  }

  lemma HexesSpell(values: seq<u16>)
    ensures SpellsHex(HexList(values), values)
  {
    if values != [] {
      SplitJoin(Hexes(values), ',');
      forall i | 0 <= i < |values|
        ensures HexValue(Hexes(values)[i]) == Some(values[i])
      {
        Hex4Spells(values[i]);
      }
    }
  }

  // ---------------------------------------------------------------------
  // Which values are left out.

  /** The sixteen values of section 2 of RFC 8701: 0x0A0A, 0x1A1A and so on up to 0xFAFA. */
  predicate Reserved(v: int) {
    exists k :: 0 <= k < 16 && ReservedAt(v, k)
  }

  predicate ReservedAt(v: int, k: int) {
    v == 0x0A0A + 0x1010 * k
  }

  lemma TwoSameBytes(v: int, q: int)
    requires 0 <= q < 256 && v == 256 * q + q
    ensures v / 256 == q && v % 256 == q
  {
  }

  lemma GreaseIsReserved(v: u16)
    ensures IsGREASE(v) <==> Reserved(v)
  {
    if IsGREASE(v) {
      var q := v / 256;
      assert q == 16 * (q / 16) + 10 && q < 256;
      assert ReservedAt(v, q / 16);
    }
    if Reserved(v) {
      var k :| 0 <= k < 16 && ReservedAt(v, k);
      TwoSameBytes(v, 16 * k + 10);
      assert (16 * k + 10) % 16 == 10;
      assert v % 16 == v % 256 % 16;
    }
  }

  lemma {:induction false} NonGreaseOfSum(a: seq<u16>, b: seq<u16>)
    ensures NonGrease(a + b) == NonGrease(a) + NonGrease(b)
    decreases |a|
  {
    if a == [] {
      assert a + b == b;
    } else {
      assert (a + b)[0] == a[0] && (a + b)[1..] == a[1..] + b;
      NonGreaseOfSum(a[1..], b);
    }
  }

  /** The filter takes out the sixteen values, wherever they stand, and nothing else. */
  lemma OnlyGreaseIsDropped(a: seq<u16>, v: u16, b: seq<u16>)
    ensures NonGrease([]) == []
    ensures NonGrease(a + [v] + b) == NonGrease(a) + (if Reserved(v) then [] else [v]) + NonGrease(b)
  {
    NonGreaseOfSum(a + [v], b);
    NonGreaseSnoc(a, v);
    GreaseIsReserved(v);
  }

  // ---------------------------------------------------------------------
  // JA3.

  /** The JA3 text read back: version, ciphers, extensions, curves and point formats, in this order. */
  lemma JA3Reads(h: Hello)
    ensures var parts := Split(JA3Text(h), ',');
            && |parts| == 5
            && Spells(parts[0], h.version)
            && SpellsAll(parts[1], NonGrease(h.cipherSuites))
            && SpellsAll(parts[2], NonGrease(h.extensions))
            && SpellsAll(parts[3], NonGrease(h.ellipticCurves))
            && SpellsAll(parts[4], h.ecPointFormats)
  {
    JA3PartsAreFree(h);
    SplitJoin(JA3Parts(h), ',');
    DecimalSpells(h.version);
    DecimalsSpell(NonGrease(h.cipherSuites));
    DecimalsSpell(NonGrease(h.extensions));
    DecimalsSpell(NonGrease(h.ellipticCurves));
    DecimalsSpell(h.ecPointFormats);
  }

  // ---------------------------------------------------------------------
  // JA4.

  /** The version that JA4 shows: the legacy one, or the highest one offered above it that is not GREASE. */
  ghost predicate Shown(h: Hello, v: u16) {
    && (v == h.version || (v in h.supportedVersions && !Reserved(v)))
    && h.version <= v && forall w :: w in h.supportedVersions && !Reserved(w) ==> w <= v
  }

  lemma {:induction false} HighestIsShown(version: u16, supported: seq<u16>)
    ensures var v := Highest(version, supported);
            && (v == version || (v in supported && !Reserved(v)))
            && version <= v && forall w :: w in supported && !Reserved(w) ==> w <= v
    decreases |supported|
  {
    if supported != [] {
      var before, last := supported[..|supported| - 1], supported[|supported| - 1];
      HighestIsShown(version, before);
      GreaseIsReserved(last);
      assert supported == before + [last];
    }
  }

  /** The two characters of a version. */
  predicate Codes(code: string, v: u16) {
    && (code == "13" <==> v == 0x0304)
    && (code == "12" <==> v == 0x0303)
    && (code == "11" <==> v == 0x0302)
    && (code == "10" <==> v == 0x0301)
    && (code == "s3" <==> v == 0x0300)
    && (code == "s2" <==> v == 0x0002)
    && (code in ["13", "12", "11", "10", "s3", "s2"] || code == "00")
  }

  lemma VersionCodes(v: u16)
    ensures Codes(VersionCode(v), v)
  {
    assert "13"[0] != "s3"[0] && "13"[1] != "12"[1] && "13"[1] != "11"[1] && "13"[1] != "10"[1];
    assert "12"[1] != "11"[1] && "12"[1] != "10"[1] && "11"[1] != "10"[1] && "s3"[1] != "s2"[1];
    assert "00"[0] != "13"[0] && "00"[0] != "12"[0] && "00"[0] != "11"[0] && "00"[0] != "10"[0];
    assert "00"[0] != "s3"[0] && "00"[0] != "s2"[0];
  }

  lemma CountSpells(n: nat)
    ensures DigitsValue(Count(n)) == Some(if n > 99 then 99 else n)
  {
    var m := if n > 99 then 99 else n;
    DigitValue(m / 10);
    DigitValue(m % 10);
    assert Count(n)[..1] == [Digit(m / 10)];
  }

  predicate LetterOrDigit(b: byte) {
    '0' as int <= b <= '9' as int || 'A' as int <= b <= 'Z' as int || 'a' as int <= b <= 'z' as int
  }

  /** The ends of the first protocol: as they are if both are letters or digits, else in hexadecimal. */
  predicate ShowsEnds(code: string, protocols: seq<seq<byte>>) {
    if protocols == [] || protocols[0] == [] then code == "00"
    else
      var p := protocols[0];
      var first, last := p[0], p[|p| - 1];
      && |code| == 2
      && if LetterOrDigit(first) && LetterOrDigit(last) then code[0] as int == first && code[1] as int == last
         else HexDigit(code[0]) == Some(first / 16) && HexDigit(code[1]) == Some(last % 16)
  }

  lemma AlpnShowsEnds(protocols: seq<seq<byte>>)
    ensures ShowsEnds(AlpnCode(protocols), protocols)
  {
    if protocols != [] && protocols[0] != [] {
      var p := protocols[0];
      DigitValue(p[0] / 16);
      DigitValue(p[|p| - 1] % 16);
    }
  }

  lemma Pieces(t: string, v: string, d: string, a: string, b: string, c: string)
    requires |t| == 1 && |v| == 2 && |d| == 1 && |a| == 2 && |b| == 2 && |c| == 2
    ensures var s := t + v + d + a + b + c;
            && |s| == 10 && s[0] == t[0] && s[1..3] == v && s[3] == d[0] && s[4..6] == a && s[6..8] == b && s[8..] == c
  {
  }

  /** Section a read back: TCP, the version, whether there is a server name, how many ciphers and extensions without
      GREASE, at most 99, and the first protocol. */
  lemma SectionAReads(h: Hello) returns (v: u16)
    ensures Shown(h, v)
    ensures var a := SectionA(h);
            && |a| == 10 && a[0] == 't' && Codes(a[1..3], v) && a[3] == (if h.serverName == [] then 'i' else 'd')
            && DigitsValue(a[4..6]) == Some(Min(|NonGrease(h.cipherSuites)|, 99))
            && DigitsValue(a[6..8]) == Some(Min(|NonGrease(h.extensions)|, 99))
            && ShowsEnds(a[8..], h.alpnProtocols)
  {
    v := Highest(h.version, h.supportedVersions);
    var ciphers, extensions := |NonGrease(h.cipherSuites)|, |NonGrease(h.extensions)|;
    Pieces("t", VersionCode(v), if h.serverName != [] then "d" else "i", Count(ciphers), Count(extensions),
           AlpnCode(h.alpnProtocols));
    HighestIsShown(h.version, h.supportedVersions);
    VersionCodes(v);
    CountSpells(ciphers);
    CountSpells(extensions);
    AlpnShowsEnds(h.alpnProtocols);
  }

  /** Section b read back: the ciphers without GREASE, in ascending order. */
  lemma SectionBReads(h: Hello) returns (sorted: seq<u16>)
    ensures Sorted(sorted) && multiset(sorted) == multiset(NonGrease(h.cipherSuites))
    ensures SpellsHex(SectionB(h), sorted)
  {
    sorted := SortU16(NonGrease(h.cipherSuites));
    HexesSpell(sorted);
  }

  lemma SplitInTwo(a: string, b: string, sep: char)
    requires sep !in a && sep !in b
    ensures Split(a + [sep] + b, sep) == [a, b]
  {
    SplitFirst(a, b, sep);
    assert Split(b, sep) == [b];
  }

  /** Section c read back: the extensions without GREASE, server name and ALPN in ascending order, and the signature
      algorithms without GREASE in the order of the client. */
  lemma SectionCReads(h: Hello) returns (sorted: seq<u16>)
    ensures Sorted(sorted) && multiset(sorted) == multiset(NonGrease(h.extensions))[0x0000 := 0][0x0010 := 0]
    ensures var parts := Split(SectionC(h), '_');
            |parts| == 2 && SpellsHex(parts[0], sorted) && SpellsHex(parts[1], NonGrease(h.signatureAlgorithms))
  {
    var algorithms := NonGrease(h.signatureAlgorithms);
    sorted := SortU16(Hashed(h.extensions));
    HashedIsBag(h.extensions);
    HexListHasNo(sorted, '_');
    HexListHasNo(algorithms, '_');
    SplitInTwo(HexList(sorted), HexList(algorithms), '_');
    HexesSpell(sorted);
    HexesSpell(algorithms);
  }
}
