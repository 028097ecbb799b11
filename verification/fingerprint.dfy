/** The JA3 and JA4 fingerprints of ja3.go and ja4.go, as the texts that are hashed. */
module Fingerprint {
  import opened Bytes
  import opened ClientHello
  import opened Text

  /** Section 2 of RFC 8701: both bytes equal, with a low digit of ten. */
  predicate IsGREASE(v: u16) {
    v % 256 == v / 256 && v % 16 == 10
  }

  function NonGrease(values: seq<u16>): (kept: seq<u16>)
    ensures forall i :: 0 <= i < |kept| ==> !IsGREASE(kept[i])
  {
    if values == [] then []
    else (if IsGREASE(values[0]) then [] else [values[0]]) + NonGrease(values[1..])
  }

  lemma {:induction false} NonGreaseSnoc(values: seq<u16>, v: u16)
    ensures NonGrease(values + [v]) == NonGrease(values) + if IsGREASE(v) then [] else [v]
  {
    if values == [] {
      assert values + [v] == [v];
    } else {
      assert (values + [v])[1..] == values[1..] + [v];
      NonGreaseSnoc(values[1..], v);
    }
  }

  // ---------------------------------------------------------------------
  // JA3.

  function Decimals(values: seq<u16>): (parts: seq<string>)
    ensures |parts| == |values|
  {
    seq(|values|, i requires 0 <= i < |values| => Decimal(values[i]))
  }

  /** The text of a list of 16-bit values, without the GREASE values when asked. */
  method U16Str(vals: seq<u16>, skipGREASE: bool) returns (s: string)
    ensures s == Join(Decimals(if skipGREASE then NonGrease(vals) else vals), '-')
  {
    var parts: seq<string> := [];
    for i := 0 to |vals|
      invariant parts == Decimals(if skipGREASE then NonGrease(vals[..i]) else vals[..i])
    {
      PrefixNext(vals, i);
      NonGreaseSnoc(vals[..i], vals[i]);
      if skipGREASE && IsGREASE(vals[i]) {
        continue;
      }
      parts := parts + [Decimal(vals[i])];
    }
    PrefixAll(vals);
    s := Join(parts, '-');
  }

  method U8Str(vals: seq<byte>) returns (s: string)
    ensures s == Join(Decimals(vals), '-')
  {
    var parts: seq<string> := [];
    for i := 0 to |vals|
      invariant parts == Decimals(vals[..i])
    {
      PrefixNext(vals, i);
      parts := parts + [Decimal(vals[i])];
    }
    PrefixAll(vals);
    s := Join(parts, '-');
  }

  function JA3Parts(h: Hello): seq<string> {
    [Decimal(h.version),
     Join(Decimals(NonGrease(h.cipherSuites)), '-'),
     Join(Decimals(NonGrease(h.extensions)), '-'),
     Join(Decimals(NonGrease(h.ellipticCurves)), '-'),
     Join(Decimals(h.ecPointFormats), '-')]
  }

  /** The text whose MD5 digest is the JA3 hash. */
  function JA3Text(h: Hello): string {
    Join(JA3Parts(h), ',')
  }

  method JA3FromHello(h: Hello) returns (text: string)
    ensures text == JA3Text(h)
  {
    var ciphers := U16Str(h.cipherSuites, true);
    var extensions := U16Str(h.extensions, true);
    var curves := U16Str(h.ellipticCurves, true);
    var formats := U8Str(h.ecPointFormats);
    text := Join([Decimal(h.version), ciphers, extensions, curves, formats], ',');
  }

  lemma DecimalsInjective(a: seq<u16>, b: seq<u16>)
    ensures Join(Decimals(a), '-') == Join(Decimals(b), '-') <==> a == b
  {
    var p, q := Decimals(a), Decimals(b);
    JoinInjective(p, q, '-');
    if p == q {
      forall i | 0 <= i < |a|
        ensures a[i] == b[i]
      {
        assert p[i] == q[i];
        DecimalInjective(a[i], b[i]);
      }
    }
  }

  lemma JA3PartsAreFree(h: Hello)
    ensures Free(JA3Parts(h), ',')
  {
    JoinContains(Decimals(NonGrease(h.cipherSuites)), '-', ',');
    JoinContains(Decimals(NonGrease(h.extensions)), '-', ',');
    JoinContains(Decimals(NonGrease(h.ellipticCurves)), '-', ',');
    JoinContains(Decimals(h.ecPointFormats), '-', ',');
  }

  /** Two clients share a JA3 text exactly when they offer the same version, the same lists without
      GREASE in the same order, and the same point formats. */
  lemma JA3IsCanonical(h: Hello, g: Hello)
    ensures JA3Text(h) == JA3Text(g) <==>
      && h.version == g.version
      && NonGrease(h.cipherSuites) == NonGrease(g.cipherSuites)
      && NonGrease(h.extensions) == NonGrease(g.extensions)
      && NonGrease(h.ellipticCurves) == NonGrease(g.ellipticCurves)
      && h.ecPointFormats == g.ecPointFormats
  {
    var p, q := JA3Parts(h), JA3Parts(g);
    JA3PartsAreFree(h);
    JA3PartsAreFree(g);
    SplitJoin(p, ',');
    SplitJoin(q, ',');
    DecimalsInjective(NonGrease(h.cipherSuites), NonGrease(g.cipherSuites));
    DecimalsInjective(NonGrease(h.extensions), NonGrease(g.extensions));
    DecimalsInjective(NonGrease(h.ellipticCurves), NonGrease(g.ellipticCurves));
    DecimalsInjective(h.ecPointFormats, g.ecPointFormats);
    if JA3Text(h) == JA3Text(g) {
      assert p == q;
      assert p[0] == q[0] && p[1] == q[1] && p[2] == q[2] && p[3] == q[3] && p[4] == q[4];
      DecimalInjective(h.version, g.version);
    }
  }

  // ---------------------------------------------------------------------
  // Sorting.

  ghost predicate Sorted(s: seq<u16>) {
    forall i, j :: 0 <= i < j < |s| ==> s[i] <= s[j]
  }

  function Insert(v: u16, s: seq<u16>): (r: seq<u16>)
    ensures multiset(r) == multiset(s) + multiset{v}
  {
    if s == [] || v <= s[0] then [v] + s
    else
      assert s == [s[0]] + s[1..];
      [s[0]] + Insert(v, s[1..])
  }

  lemma {:induction false} InsertSorts(v: u16, s: seq<u16>)
    requires Sorted(s)
    ensures Sorted(Insert(v, s))
  {
    if s != [] && v > s[0] {
      var tail := s[1..];
      InsertSorts(v, tail);
      var r := Insert(v, tail);
      forall i | 0 <= i < |r|
        ensures s[0] <= r[i]
      {
        assert r[i] in multiset(r);
        assert r[i] == v || r[i] in tail;
      }
    }
  }

  /** The values in ascending order. */
  function SortU16(s: seq<u16>): (r: seq<u16>)
    ensures Sorted(r) && multiset(r) == multiset(s)
  {
    if s == [] then []
    else
      assert s == [s[0]] + s[1..];
      InsertSorts(s[0], SortU16(s[1..]));
      Insert(s[0], SortU16(s[1..]))
  }

  lemma BagOfRest<T>(s: seq<T>)
    requires s != []
    ensures s == [s[0]] + s[1..] && multiset(s[1..]) == multiset(s) - multiset{s[0]}
  {
    assert s == [s[0]] + s[1..];
  }

  /** Ascending lists with the same values are the same list. */
  lemma {:induction false} SortedIsUnique(a: seq<u16>, b: seq<u16>)
    requires Sorted(a) && Sorted(b) && multiset(a) == multiset(b)
    ensures a == b
    decreases |a|
  {
    assert |multiset(a)| == |a| && |multiset(b)| == |b|;
    if a != [] {
      assert a[0] in multiset(b) && b[0] in multiset(a);
      assert a[0] == b[0];
      BagOfRest(a);
      BagOfRest(b);
      SortedIsUnique(a[1..], b[1..]);
    }
  }

  // ---------------------------------------------------------------------
  // JA4.

  /** The three sections of a JA4 fingerprint, before sections b and c are hashed. */
  datatype JA4 = JA4(a: string, b: string, c: string)

  function Hexes(values: seq<u16>): (parts: seq<string>)
    ensures |parts| == |values|
  {
    seq(|values|, i requires 0 <= i < |values| => Hex4(values[i]))
  }

  function HexList(values: seq<u16>): string {
    Join(Hexes(values), ',')
  }

  /** The extensions of section c: no GREASE, no SNI, no ALPN. */
  function Hashed(extensions: seq<u16>): seq<u16> {
    if extensions == [] then [] else Kept(extensions[0]) + Hashed(extensions[1..])
  }

  function Kept(e: u16): seq<u16> {
    if IsGREASE(e) || e == SERVER_NAME || e == ALPN then [] else [e]
  }

  lemma {:induction false} HashedSnoc(extensions: seq<u16>, e: u16)
    ensures Hashed(extensions + [e]) == Hashed(extensions) + Kept(e)
    decreases |extensions|
  {
    if extensions == [] {
      assert extensions + [e] == [e];
    } else {
      assert (extensions + [e])[1..] == extensions[1..] + [e];
      HashedSnoc(extensions[1..], e);
    }
  }

  /** The highest offered version: the legacy one, or a non-GREASE supported one above it. */
  function Highest(version: u16, supported: seq<u16>): u16 {
    if supported == [] then version
    else
      var v := supported[|supported| - 1];
      var lower := Highest(version, supported[..|supported| - 1]);
      if !IsGREASE(v) && v > lower then v else lower
  }

  function VersionCode(v: u16): (s: string)
    ensures |s| == 2
  {
    if v == 0x0304 then "13"
    else if v == 0x0303 then "12"
    else if v == 0x0302 then "11"
    else if v == 0x0301 then "10"
    else if v == 0x0300 then "s3"
    else if v == 0x0002 then "s2"
    else "00"
  }

  method JA4Version(h: Hello) returns (code: string)
    ensures code == VersionCode(Highest(h.version, h.supportedVersions))
  {
    var v := h.version;
    for i := 0 to |h.supportedVersions|
      invariant v == Highest(h.version, h.supportedVersions[..i])
    {
      PrefixNext(h.supportedVersions, i);
      var sv := h.supportedVersions[i];
      if IsGREASE(sv) {
        continue;
      }
      if sv > v {
        v := sv;
      }
    }
    PrefixAll(h.supportedVersions);
    code := VersionCode(v);
  }

  /** Two digits, at most 99. */
  function Count(n: nat): (s: string)
    ensures |s| == 2 && '0' <= s[0] <= '9' && '0' <= s[1] <= '9'
  {
    var m := if n > 99 then 99 else n;
    [Digit(m / 10), Digit(m % 10)]
  }

  predicate Alphanumeric(b: byte) {
    48 <= b <= 57 || 65 <= b <= 90 || 97 <= b <= 122
  }

  /** The end bytes of the first protocol, or end digits of its hexadecimal form. */
  function AlpnCode(protocols: seq<seq<byte>>): (s: string)
    ensures |s| == 2
  {
    if |protocols| == 0 || |protocols[0]| == 0 then "00"
    else
      var p := protocols[0];
      var first, last := p[0], p[|p| - 1];
      if Alphanumeric(first) && Alphanumeric(last) then [first as char, last as char]
      else [Digit(first / 16), Digit(last % 16)]
  }

  function SectionA(h: Hello): string {
    "t" + VersionCode(Highest(h.version, h.supportedVersions))
    + (if h.serverName != [] then "d" else "i")
    + Count(|NonGrease(h.cipherSuites)|) + Count(|NonGrease(h.extensions)|)
    + AlpnCode(h.alpnProtocols)
  }

  function SectionB(h: Hello): string {
    HexList(SortU16(NonGrease(h.cipherSuites)))
  }

  function SectionC(h: Hello): string {
    HexList(SortU16(Hashed(h.extensions))) + "_" + HexList(NonGrease(h.signatureAlgorithms))
  }

  function JA4Of(h: Hello): JA4 {
    JA4(SectionA(h), SectionB(h), SectionC(h))
  }

  /** The loop over the ciphers, and that over the signature algorithms. */
  method DropGREASE(values: seq<u16>) returns (kept: seq<u16>)
    ensures kept == NonGrease(values)
  {
    kept := [];
    for i := 0 to |values|
      invariant kept == NonGrease(values[..i])
    {
      PrefixNext(values, i);
      NonGreaseSnoc(values[..i], values[i]);
      if !IsGREASE(values[i]) {
        kept := kept + [values[i]];
      }
    }
    PrefixAll(values);
  }

  method ComputeJA4(h: Hello) returns (j: JA4)
    ensures j == JA4Of(h)
  {
    var ciphers := DropGREASE(h.cipherSuites);
    var extCount, exts := FilterExtensions(h.extensions);
    var sigAlgs := DropGREASE(h.signatureAlgorithms);
    var version := JA4Version(h);
    var sni := if h.serverName != [] then "d" else "i";
    var a := "t" + version + sni + Count(|ciphers|) + Count(extCount) + AlpnCode(h.alpnProtocols);
    j := JA4(a, HexList(SortU16(ciphers)), HexList(SortU16(exts)) + "_" + HexList(sigAlgs));
  }

  /** SNI and ALPN are counted but not listed. */
  method FilterExtensions(extensions: seq<u16>) returns (extCount: nat, exts: seq<u16>)
    ensures extCount == |NonGrease(extensions)| && exts == Hashed(extensions)
  {
    extCount, exts := 0, [];
    for i := 0 to |extensions|
      invariant extCount == |NonGrease(extensions[..i])| && exts == Hashed(extensions[..i])
    {
      var e := extensions[i];
      PrefixNext(extensions, i);
      NonGreaseSnoc(extensions[..i], e);
      HashedSnoc(extensions[..i], e);
      if IsGREASE(e) {
        continue;
      }
      extCount := extCount + 1;
      if e == SERVER_NAME || e == ALPN {
        continue;
      }
      exts := exts + [e];
    }
    PrefixAll(extensions);
  }

  lemma HexListInjective(a: seq<u16>, b: seq<u16>)
    ensures HexList(a) == HexList(b) <==> a == b
  {
    var p, q := Hexes(a), Hexes(b);
    JoinInjective(p, q, ',');
    if p == q {
      forall i | 0 <= i < |a|
        ensures a[i] == b[i]
      {
        assert p[i] == q[i];
        Hex4Injective(a[i], b[i]);
      }
    }
  }

  /** Section b sees the offered ciphers as a bag: order and GREASE make no difference, and nothing
      else is lost. */
  lemma SectionBIsCanonical(h: Hello, g: Hello)
    ensures SectionB(h) == SectionB(g) <==> multiset(NonGrease(h.cipherSuites)) == multiset(NonGrease(g.cipherSuites))
  {
    var a, b := SortU16(NonGrease(h.cipherSuites)), SortU16(NonGrease(g.cipherSuites));
    HexListInjective(a, b);
    if multiset(a) == multiset(b) {
      SortedIsUnique(a, b);
    }
  }

  /** Section c sees the hashed extensions as a bag and the signature algorithms as a list. */
  lemma SectionCIsCanonical(h: Hello, g: Hello)
    ensures SectionC(h) == SectionC(g) <==>
      && multiset(Hashed(h.extensions)) == multiset(Hashed(g.extensions))
      && NonGrease(h.signatureAlgorithms) == NonGrease(g.signatureAlgorithms)
  {
    var a, b := SortU16(Hashed(h.extensions)), SortU16(Hashed(g.extensions));
    var s, t := NonGrease(h.signatureAlgorithms), NonGrease(g.signatureAlgorithms);
    HexListInjective(a, b);
    HexListInjective(s, t);
    HexListHasNo(a, '_');
    HexListHasNo(b, '_');
    CutInjective(HexList(a), HexList(s), HexList(b), HexList(t), '_');
    if multiset(a) == multiset(b) {
      SortedIsUnique(a, b);
    }
  }

  lemma HexListHasNo(values: seq<u16>, c: char)
    requires c != ',' && !('0' <= c <= '9') && !('a' <= c <= 'f')
    ensures c !in HexList(values)
  {
    JoinContains(Hexes(values), ',', c);
  }

  /** A client that shuffles its ciphers and extensions, or sprinkles GREASE over them, keeps its
      JA4: equal bags give equal fingerprints when the rest of the hello is the same. */
  lemma ShufflingKeepsJA4(h: Hello, g: Hello)
    requires multiset(NonGrease(h.cipherSuites)) == multiset(NonGrease(g.cipherSuites))
    requires multiset(NonGrease(h.extensions)) == multiset(NonGrease(g.extensions))
    requires h == g.(cipherSuites := h.cipherSuites, extensions := h.extensions)
    ensures JA4Of(h) == JA4Of(g)
  {
    SectionBIsCanonical(h, g);
    HashedIsBag(h.extensions);
    HashedIsBag(g.extensions);
    assert multiset(Hashed(h.extensions)) == multiset(Hashed(g.extensions));
    SectionCIsCanonical(h, g);
    assert |multiset(NonGrease(h.cipherSuites))| == |NonGrease(h.cipherSuites)|;
    assert |multiset(NonGrease(g.cipherSuites))| == |NonGrease(g.cipherSuites)|;
    assert |multiset(NonGrease(h.extensions))| == |NonGrease(h.extensions)|;
    assert |multiset(NonGrease(g.extensions))| == |NonGrease(g.extensions)|;
  }

  function Without(m: multiset<u16>): multiset<u16> {
    m[SERVER_NAME := 0][ALPN := 0]
  }

  lemma WithoutSum(m: multiset<u16>, e: u16)
    ensures Without(multiset{e} + m) ==
            (if e == SERVER_NAME || e == ALPN then multiset{} else multiset{e}) + Without(m)
  {
  }

  lemma BagOfSum(a: seq<u16>, b: seq<u16>)
    ensures multiset(a + b) == multiset(a) + multiset(b)
  {
  }

  lemma {:induction false} HashedIsBag(es: seq<u16>)
    ensures multiset(Hashed(es)) == Without(multiset(NonGrease(es)))
  {
    if es != [] {
      var e, rest := es[0], es[1..];
      HashedIsBag(rest);
      BagOfSum(Kept(e), Hashed(rest));
      BagOfSum([e], NonGrease(rest));
      WithoutSum(multiset(NonGrease(rest)), e);
      assert multiset([e]) == multiset{e};
    }
  }

  // ---------------------------------------------------------------------
  // The printed form.

  const ZEROS := "000000000000"

  function HashSection(s: string, hash: string -> string): string {
    if s == "" then ZEROS else hash(s)
  }

  /** The fingerprint with its sections b and c hashed to twelve digits each. */
  function Render(j: JA4, hash: string -> string): string {
    Join([j.a, HashSection(j.b, hash), HashSection(j.c, hash)], '_')
  }

  predicate LowerHex(s: string) {
    forall i :: 0 <= i < |s| ==> '0' <= s[i] <= '9' || 'a' <= s[i] <= 'f'
  }

  predicate DigitsOrLetters(s: string) {
    forall i :: 0 <= i < |s| ==> '0' <= s[i] <= '9' || 'a' <= s[i] <= 'z'
  }

  predicate IsJA4Fingerprint(s: string) {
    var parts := Split(s, '_');
    && |parts| == 3
    && |parts[0]| == 10 && parts[0][0] == 't' && DigitsOrLetters(parts[0])
    && |parts[1]| == 12 && LowerHex(parts[1])
    && |parts[2]| == 12 && LowerHex(parts[2])
  }

  /** The first protocol is shown by its end letters and one of them is a capital. */
  predicate ShowsCapital(protocols: seq<seq<byte>>) {
    && |protocols| > 0 && |protocols[0]| > 0
    && Alphanumeric(protocols[0][0]) && Alphanumeric(protocols[0][|protocols[0]| - 1])
    && (65 <= protocols[0][0] <= 90 || 65 <= protocols[0][|protocols[0]| - 1] <= 90)
  }

  /** The part of section a before the ALPN code. */
  lemma HeadShape(h: Hello) returns (head: string)
    ensures SectionA(h) == head + AlpnCode(h.alpnProtocols) && |head| == 8 && head[0] == 't' && DigitsOrLetters(head)
  {
    head := "t" + VersionCode(Highest(h.version, h.supportedVersions)) + (if h.serverName != [] then "d" else "i")
            + Count(|NonGrease(h.cipherSuites)|) + Count(|NonGrease(h.extensions)|);
  }

  lemma CodeShape(protocols: seq<seq<byte>>)
    ensures '_' !in AlpnCode(protocols) && (DigitsOrLetters(AlpnCode(protocols)) <==> !ShowsCapital(protocols))
  {
    var code := AlpnCode(protocols);
    assert code == [code[0], code[1]];
  }

  /** Section a has ten characters, and only the ALPN code can leave the accepted alphabet. */
  lemma SectionAShape(h: Hello)
    ensures var a := SectionA(h);
            && |a| == 10 && a[0] == 't' && '_' !in a
            && (DigitsOrLetters(a) <==> !ShowsCapital(h.alpnProtocols))
  {
    var head := HeadShape(h);
    var code := AlpnCode(h.alpnProtocols);
    CodeShape(h.alpnProtocols);
    var a := head + code;
    assert forall i :: 0 <= i < 2 ==> a[8 + i] == code[i];
  }

  /** What the validator accepts of what the producer prints, for any twelve-digit hash: everything
      but an ALPN code with a capital letter. */
  lemma RenderedShape(h: Hello, hash: string -> string)
    requires forall s :: |hash(s)| == 12 && LowerHex(hash(s))
    ensures IsJA4Fingerprint(Render(JA4Of(h), hash)) <==> !ShowsCapital(h.alpnProtocols)
  {
    SectionAShape(h);
    ShapeOfParts(JA4Of(h), hash);
  }

  lemma ShapeOfParts(j: JA4, hash: string -> string)
    requires |j.a| == 10 && j.a[0] == 't' && '_' !in j.a
    requires forall s :: |hash(s)| == 12 && LowerHex(hash(s))
    ensures IsJA4Fingerprint(Render(j, hash)) <==> DigitsOrLetters(j.a)
  {
    HashedShape(j.b, hash);
    HashedShape(j.c, hash);
    SplitJoin([j.a, HashSection(j.b, hash), HashSection(j.c, hash)], '_');
  }

  lemma HashedShape(s: string, hash: string -> string)
    requires forall s :: |hash(s)| == 12 && LowerHex(hash(s))
    ensures var r := HashSection(s, hash);
            |r| == 12 && LowerHex(r) && '_' !in r
  {
  }

  /** A hello with the single protocol "H2" has a fingerprint that the validator refuses. */
  lemma CapitalsAreRefused(hash: string -> string)
    requires forall s :: |hash(s)| == 12 && LowerHex(hash(s))
    ensures !IsJA4Fingerprint(Render(JA4Of(Blank(0x0303).(alpnProtocols := [[72, 50]])), hash))
  {
    RenderedShape(Blank(0x0303).(alpnProtocols := [[72, 50]]), hash);
  }

  /** The zero sentinel marks the absence of ciphers in section b, and never appears for section c. */
  lemma SentinelMarksNoCiphers(h: Hello)
    ensures SectionB(h) == "" <==> NonGrease(h.cipherSuites) == []
    ensures SectionC(h) != ""
  {
    var sorted := SortU16(NonGrease(h.cipherSuites));
    assert |multiset(sorted)| == |sorted|;
    assert |multiset(NonGrease(h.cipherSuites))| == |NonGrease(h.cipherSuites)|;
    JoinIsEmpty(Hexes(sorted), ',');
  }
}
