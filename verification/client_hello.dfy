/** The bounded ClientHello parser of ja3.go. */
module ClientHello {
  import opened Bytes

  datatype Hello = Hello(
    version: u16,
    cipherSuites: seq<u16>,
    extensions: seq<u16>,
    ellipticCurves: seq<u16>,
    ecPointFormats: seq<byte>,
    serverName: seq<byte>,
    alpnProtocols: seq<seq<byte>>,
    supportedVersions: seq<u16>,
    signatureAlgorithms: seq<u16>)

  datatype ParseError =
    | NotClientHello
    | Truncated
    | BadVersion
    | BadRandom
    | BadSessionIdLength
    | BadSessionId
    | BadCipherLength
    | BadCiphers
    | BadCompressionLength
    | BadCompression
    | BadExtensionsLength
    | ExtensionsOverrun
    | BadExtensionBody(extension: u16)

  type ParseResult = Result<Hello, ParseError>

  const SERVER_NAME: u16 := 0x0000
  const SUPPORTED_GROUPS: u16 := 0x000a
  const EC_POINT_FORMATS: u16 := 0x000b
  const SIGNATURE_ALGORITHMS: u16 := 0x000d
  const ALPN: u16 := 0x0010
  const SUPPORTED_VERSIONS: u16 := 0x002b

  // ---------------------------------------------------------------------
  // The specification, on suffixes of the message instead of positions.

  /** The 16-bit values of a byte string; an odd last byte is ignored. */
  function Pairs(s: seq<byte>): (values: seq<u16>)
    ensures |values| == |s| / 2
  {
    if |s| < 2 then [] else [U16(s[0], s[1])] + Pairs(s[2..])
  }

  /** The 16-bit values of a list with a two-byte length, cut at the end of the extension. */
  function U16List(ext: seq<byte>): seq<u16> {
    if |ext| < 2 then [] else Pairs(ext[2..Min(2 + U16(ext[0], ext[1]), |ext|)])
  }

  function PointFormats(ext: seq<byte>): seq<byte> {
    if |ext| < 1 then []
    else
      var n: int := ext[0];
      ext[1..Min(1 + n, |ext|)]
  }

  /** An extension of two bytes is the single version of a ServerHello. */
  function VersionList(ext: seq<byte>): seq<u16> {
    if |ext| == 2 then [U16(ext[0], ext[1])]
    else if |ext| < 1 then []
    else
      var n: int := ext[0];
      Pairs(ext[1..Min(1 + n, |ext|)])
  }

  /** The first host name of a list of (type, length, name) entries, or nothing. */
  function HostName(list: seq<byte>): seq<byte>
    decreases |list|
  {
    if |list| < 3 then []
    else
      var n: int := U16(list[1], list[2]);
      if 3 + n > |list| then []
      else if list[0] == 0 then list[3..3 + n]
      else HostName(list[3 + n..])
  }

  function ServerName(ext: seq<byte>): seq<byte> {
    if |ext| < 2 then [] else HostName(ext[2..Min(|ext|, 2 + U16(ext[0], ext[1]))])
  }

  /** The protocol names of a list, up to the first that does not fit. */
  function Names(list: seq<byte>): seq<seq<byte>>
    decreases |list|
  {
    if |list| < 1 then []
    else
      var n: int := list[0];
      if 1 + n > |list| then [] else [list[1..1 + n]] + Names(list[1 + n..])
  }

  function Protocols(ext: seq<byte>): seq<seq<byte>> {
    if |ext| < 2 then [] else Names(ext[2..Min(|ext|, 2 + U16(ext[0], ext[1]))])
  }

  /** One extension: groups and point formats accumulate, the others replace. */
  function AddExtension(h: Hello, kind: u16, ext: seq<byte>): Hello {
    var g := h.(extensions := h.extensions + [kind]);
    if kind == SERVER_NAME then g.(serverName := ServerName(ext))
    else if kind == SUPPORTED_GROUPS then g.(ellipticCurves := g.ellipticCurves + U16List(ext))
    else if kind == EC_POINT_FORMATS then g.(ecPointFormats := g.ecPointFormats + PointFormats(ext))
    else if kind == SIGNATURE_ALGORITHMS then g.(signatureAlgorithms := U16List(ext))
    else if kind == ALPN then g.(alpnProtocols := Protocols(ext))
    else if kind == SUPPORTED_VERSIONS then g.(supportedVersions := VersionList(ext))
    else g
  }

  /** The extension block; fewer than four bytes at its end are ignored. */
  function ParseExtensions(m: seq<byte>, h: Hello): ParseResult
    decreases |m|
  {
    if |m| < 4 then Ok(h)
    else
      var kind, n: int := U16(m[0], m[1]), U16(m[2], m[3]);
      if 4 + n > |m| then Err(BadExtensionBody(kind))
      else ParseExtensions(m[4 + n..], AddExtension(h, kind, m[4..4 + n]))
  }

  /** What follows the compression methods. */
  function ParseTail(m: seq<byte>, h: Hello): ParseResult {
    if m == [] then Ok(h)
    else if |m| < 2 then Err(BadExtensionsLength)
    else
      var n: int := U16(m[0], m[1]);
      if 2 + n > |m| then Err(ExtensionsOverrun) else ParseExtensions(m[2..2 + n], h)
  }

  function ParseCompression(m: seq<byte>, h: Hello): ParseResult {
    if |m| < 1 then Err(BadCompressionLength)
    else
      var n: int := m[0];
      if 1 + n > |m| then Err(BadCompression) else ParseTail(m[1 + n..], h)
  }

  function ParseCiphers(m: seq<byte>, h: Hello): ParseResult {
    if |m| < 2 then Err(BadCipherLength)
    else
      var n: int := U16(m[0], m[1]);
      if n % 2 != 0 || 2 + n > |m| then Err(BadCiphers)
      else ParseCompression(m[2 + n..], h.(cipherSuites := Pairs(m[2..2 + n])))
  }

  function ParseSessionId(m: seq<byte>, h: Hello): ParseResult {
    if |m| < 1 then Err(BadSessionIdLength)
    else
      var n: int := m[0];
      if 1 + n > |m| then Err(BadSessionId) else ParseCiphers(m[1 + n..], h)
  }

  function Blank(version: u16): Hello {
    Hello(version, [], [], [], [], [], [], [], [])
  }

  /** The body of a ClientHello, after the handshake header. */
  function ParseBody(m: seq<byte>): ParseResult {
    if |m| < 2 then Err(BadVersion)
    else if |m| < 34 then Err(BadRandom)
    else ParseSessionId(m[34..], Blank(U16(m[0], m[1])))
  }

  /** A record header, a handshake header and the body that it declares. */
  function Parse(data: seq<byte>): ParseResult {
    if |data| < 9 || data[0] != HANDSHAKE || data[5] != 1 then Err(NotClientHello)
    else
      var n := U24(data[6], data[7], data[8]);
      if |data| < 9 + n then Err(Truncated) else ParseBody(data[9..9 + n])
  }

  /** The result depends on the first byte and on the bytes of the declared message only. */
  lemma ParseReadsOnlyTheMessage(a: seq<byte>, b: seq<byte>)
    requires |a| >= 9 && |b| >= 9 && a[0] == b[0] && a[5..9] == b[5..9]
    requires var end := 9 + U24(a[6], a[7], a[8]);
             |a| >= end && |b| >= end && a[9..end] == b[9..end]
    ensures Parse(a) == Parse(b)
  {
    assert a[5] == a[5..9][0] && a[6] == a[5..9][1] && a[7] == a[5..9][2] && a[8] == a[5..9][3];
    assert b[5] == b[5..9][0] && b[6] == b[5..9][1] && b[7] == b[5..9][2] && b[8] == b[5..9][3];
  }

  // ---------------------------------------------------------------------
  // The parser, position by position.

  lemma {:induction false} PairsSnoc(s: seq<byte>, hi: byte, lo: byte)
    requires |s| % 2 == 0
    ensures Pairs(s + [hi, lo]) == Pairs(s) + [U16(hi, lo)]
    decreases |s|
  {
    if s == [] {
      assert [hi, lo][2..] == [];
    } else {
      assert (s + [hi, lo])[2..] == s[2..] + [hi, lo];
      PairsSnoc(s[2..], hi, lo);
    }
  }

  /** Reads the values of `ext[start..stop]`, two bytes at a time, as the loops over lists do. */
  method ReadPairs(ext: seq<byte>, start: nat, stop: nat) returns (values: seq<u16>)
    requires start <= |ext|
    ensures values == Pairs(ext[start..Max(start, Min(stop, |ext|))])
  {
    values := [];
    var i := start;
    while i + 2 <= stop && i + 2 <= |ext|
      invariant start <= i <= Max(start, Min(stop, |ext|))
      invariant (i - start) % 2 == 0
      invariant values == Pairs(ext[start..i])
    {
      PairsSnoc(ext[start..i], ext[i], ext[i + 1]);
      assert ext[start..i] + [ext[i], ext[i + 1]] == ext[start..i + 2];
      values := values + [U16(ext[i], ext[i + 1])];
      i := i + 2;
    }
    PairsDropOdd(ext[start..i], ext[start..Max(start, Min(stop, |ext|))]);
  }

  lemma {:induction false} PairsDropOdd(even: seq<byte>, s: seq<byte>)
    requires |even| % 2 == 0 && even <= s && |s| <= |even| + 1
    ensures Pairs(even) == Pairs(s)
    decreases |s|
  {
    if |s| >= 2 {
      assert even[2..] <= s[2..];
      PairsDropOdd(even[2..], s[2..]);
    }
  }

  method ParseU16List(ext: seq<byte>) returns (values: seq<u16>)
    ensures values == U16List(ext)
  {
    if |ext| < 2 {
      return [];
    }
    values := ReadPairs(ext, 2, 2 + U16(ext[0], ext[1]));
  }

  method ParseSupportedVersions(ext: seq<byte>) returns (versions: seq<u16>)
    ensures versions == VersionList(ext)
  {
    if |ext| == 2 {
      return [U16(ext[0], ext[1])];
    }
    if |ext| < 1 {
      return [];
    }
    var listLen: int := ext[0];
    versions := ReadPairs(ext, 1, 1 + listLen);
  }

  method ParsePointFormats(ext: seq<byte>) returns (formats: seq<byte>)
    ensures formats == PointFormats(ext)
  {
    formats := [];
    if |ext| >= 1 {
      var n: int := ext[0];
      var i := 1;
      while i <= n && i < |ext|
        invariant 1 <= i <= Min(1 + n, |ext|)
        invariant formats == ext[1..i]
      {
        formats := formats + [ext[i]];
        i := i + 1;
      }
    }
  }

  /** One entry of a server name list, in place. */
  lemma NameAt(ext: seq<byte>, pos: nat, end: nat)
    requires pos + 3 <= end <= |ext|
    ensures var n: int := U16(ext[pos + 1], ext[pos + 2]);
            HostName(ext[pos..end]) ==
            if pos + 3 + n > end then []
            else if ext[pos] == 0 then ext[pos + 3..pos + 3 + n]
            else HostName(ext[pos + 3 + n..end])
  {
    var n: int := U16(ext[pos + 1], ext[pos + 2]);
    if pos + 3 + n <= end {
      SliceOfSlice(ext, pos, end, 3, 3 + n);
      SliceTail(ext, pos, end, 3 + n);
    }
  }

  method ParseSNI(ext: seq<byte>) returns (name: seq<byte>)
    ensures name == ServerName(ext)
  {
    if |ext| < 2 {
      return [];
    }
    var pos := 2;
    var end := Min(|ext|, 2 + U16(ext[0], ext[1]));
    while pos + 3 <= end
      invariant 2 <= pos <= end <= |ext|
      invariant ServerName(ext) == HostName(ext[pos..end])
      decreases end - pos
    {
      NameAt(ext, pos, end);
      var nameType := ext[pos];
      var nameLen: int := U16(ext[pos + 1], ext[pos + 2]);
      pos := pos + 3;
      if pos + nameLen > end {
        return [];
      }
      if nameType == 0 {
        return ext[pos..pos + nameLen];
      }
      pos := pos + nameLen;
    }
    return [];
  }

  /** One entry of a protocol list, in place. */
  lemma ProtocolAt(ext: seq<byte>, pos: nat, end: nat)
    requires pos < end <= |ext|
    ensures var n: int := ext[pos];
            Names(ext[pos..end]) ==
            if pos + 1 + n > end then []
            else [ext[pos + 1..pos + 1 + n]] + Names(ext[pos + 1 + n..end])
  {
    var n: int := ext[pos];
    if pos + 1 + n <= end {
      SliceOfSlice(ext, pos, end, 1, 1 + n);
      SliceTail(ext, pos, end, 1 + n);
    }
  }

  method ParseALPN(ext: seq<byte>) returns (protocols: seq<seq<byte>>)
    ensures protocols == Protocols(ext)
  {
    if |ext| < 2 {
      return [];
    }
    var pos := 2;
    var end := Min(|ext|, 2 + U16(ext[0], ext[1]));
    protocols := [];
    while pos < end
      invariant 2 <= pos <= end <= |ext|
      invariant Protocols(ext) == protocols + Names(ext[pos..end])
      decreases end - pos
    {
      ProtocolAt(ext, pos, end);
      var protoLen: int := ext[pos];
      pos := pos + 1;
      if pos + protoLen > end {
        PlusNothing(protocols);
        return protocols;
      }
      var name := ext[pos..pos + protoLen];
      Associative(protocols, [name], Names(ext[pos + protoLen..end]));
      protocols := protocols + [name];
      pos := pos + protoLen;
    }
  }

  /** Handles one extension of the switch. */
  method StoreExtension(h: Hello, extType: u16, ext: seq<byte>) returns (g: Hello)
    ensures g == AddExtension(h, extType, ext)
  {
    g := h.(extensions := h.extensions + [extType]);
    if extType == SERVER_NAME {
      var name := ParseSNI(ext);
      g := g.(serverName := name);
    } else if extType == SUPPORTED_GROUPS {
      var groups := ParseU16List(ext);
      g := g.(ellipticCurves := g.ellipticCurves + groups);
    } else if extType == EC_POINT_FORMATS {
      var formats := ParsePointFormats(ext);
      g := g.(ecPointFormats := g.ecPointFormats + formats);
    } else if extType == SIGNATURE_ALGORITHMS {
      var values := ParseU16List(ext);
      g := g.(signatureAlgorithms := values);
    } else if extType == ALPN {
      var protocols := ParseALPN(ext);
      g := g.(alpnProtocols := protocols);
    } else if extType == SUPPORTED_VERSIONS {
      var versions := ParseSupportedVersions(ext);
      g := g.(supportedVersions := versions);
    }
  }

  /** One extension of a block, in place. */
  lemma ExtensionAt(data: seq<byte>, pos: nat, extEnd: nat, h: Hello)
    requires pos + 4 <= extEnd <= |data|
    ensures var kind, n: int := U16(data[pos], data[pos + 1]), U16(data[pos + 2], data[pos + 3]);
            ParseExtensions(data[pos..extEnd], h) ==
            if pos + 4 + n > extEnd then Err(BadExtensionBody(kind))
            else ParseExtensions(data[pos + 4 + n..extEnd], AddExtension(h, kind, data[pos + 4..pos + 4 + n]))
  {
    var m := data[pos..extEnd];
    var n: int := U16(data[pos + 2], data[pos + 3]);
    if pos + 4 + n <= extEnd {
      SliceOfSlice(data, pos, extEnd, 4, 4 + n);
      SliceTail(data, pos, extEnd, 4 + n);
    }
  }

  /** The extension block in `data[start..extEnd]`. */
  method ParseExtensionBlock(data: seq<byte>, start: nat, extEnd: nat, h: Hello) returns (r: ParseResult)
    requires start <= extEnd <= |data|
    ensures r == ParseExtensions(data[start..extEnd], h)
  {
    var pos, ch := start, h;
    while pos + 4 <= extEnd
      invariant start <= pos <= extEnd
      invariant ParseExtensions(data[start..extEnd], h) == ParseExtensions(data[pos..extEnd], ch)
      decreases extEnd - pos
    {
      var next;
      r, next := ParseExtension(data, pos, extEnd, ch);
      if r.Err? {
        return;
      }
      pos, ch := next, r.value;
    }
    return Ok(ch);
  }

  /** One turn of the loop. */
  method ParseExtension(data: seq<byte>, start: nat, extEnd: nat, h: Hello) returns (r: ParseResult, pos: nat)
    requires start + 4 <= extEnd <= |data|
    ensures r.Err? ==> ParseExtensions(data[start..extEnd], h) == r
    ensures r.Ok? ==> start < pos <= extEnd
    ensures r.Ok? ==> ParseExtensions(data[start..extEnd], h) == ParseExtensions(data[pos..extEnd], r.value)
  {
    ExtensionAt(data, start, extEnd, h);
    var extType := U16(data[start], data[start + 1]);
    var extLen: int := U16(data[start + 2], data[start + 3]);
    pos := start + 4;
    if pos + extLen > extEnd {
      return Err(BadExtensionBody(extType)), pos;
    }
    var ch := StoreExtension(h, extType, data[pos..pos + extLen]);
    return Ok(ch), pos + extLen;
  }

  method ParseClientHello(data: seq<byte>) returns (r: ParseResult)
    ensures r == Parse(data)
  {
    if |data| < 9 || data[0] != HANDSHAKE || data[5] != 1 {
      return Err(NotClientHello);
    }
    var hsLen := U24(data[6], data[7], data[8]);
    var end := 9 + hsLen;
    if |data| < end {
      return Err(Truncated);
    }
    ghost var m := data[9..end];
    var pos := 9;
    if pos + 2 > end {
      return Err(BadVersion);
    }
    var ch := Blank(U16(data[pos], data[pos + 1]));
    assert ch == Blank(U16(m[0], m[1]));
    pos := pos + 2;
    if pos + 32 > end {
      return Err(BadRandom);
    }
    pos := pos + 32;
    assert m[34..] == data[pos..end];
    m := data[pos..end];
    assert Parse(data) == ParseSessionId(m, ch);
    if pos + 1 > end {
      return Err(BadSessionIdLength);
    }
    var sidLen: int := data[pos];
    pos := pos + 1;
    if pos + sidLen > end {
      return Err(BadSessionId);
    }
    pos := pos + sidLen;
    assert m[1 + sidLen..] == data[pos..end];
    assert Parse(data) == ParseCiphers(data[pos..end], ch);
    r := ParseFromCiphers(data, pos, end, ch);
  }

  method ReadCipherSuites(data: seq<byte>, start: nat, cipherLen: nat) returns (suites: seq<u16>)
    requires cipherLen % 2 == 0 && start + cipherLen <= |data|
    ensures suites == Pairs(data[start..start + cipherLen])
  {
    suites := [];
    var pos := start;
    var i := 0;
    while i < cipherLen
      invariant 0 <= i <= cipherLen && i % 2 == 0 && pos == start + i
      invariant suites == Pairs(data[start..pos])
    {
      PairsSnoc(data[start..pos], data[pos], data[pos + 1]);
      assert data[start..pos] + [data[pos], data[pos + 1]] == data[start..pos + 2];
      suites := suites + [U16(data[pos], data[pos + 1])];
      pos := pos + 2;
      i := i + 2;
    }
  }

  /** The second part of the parser, from the cipher suites on. */
  method ParseFromCiphers(data: seq<byte>, start: nat, end: nat, h: Hello) returns (r: ParseResult)
    requires start <= end <= |data|
    ensures r == ParseCiphers(data[start..end], h)
  {
    var pos, ch := start, h;
    ghost var m := data[pos..end];
    if pos + 2 > end {
      return Err(BadCipherLength);
    }
    var cipherLen: int := U16(data[pos], data[pos + 1]);
    assert U16(m[0], m[1]) == cipherLen;
    pos := pos + 2;
    if cipherLen % 2 != 0 || pos + cipherLen > end {
      return Err(BadCiphers);
    }
    var suites := ReadCipherSuites(data, pos, cipherLen);
    ch := ch.(cipherSuites := suites);
    pos := pos + cipherLen;
    SliceOfSlice(data, start, end, 2, 2 + cipherLen);
    assert m[2 + cipherLen..] == data[pos..end];
    r := ParseFromCompression(data, pos, end, ch);
  }

  /** The last part of the parser, from the compression methods on. */
  method ParseFromCompression(data: seq<byte>, start: nat, end: nat, ch: Hello) returns (r: ParseResult)
    requires start <= end <= |data|
    ensures r == ParseCompression(data[start..end], ch)
  {
    var pos := start;
    ghost var m := data[pos..end];
    if pos + 1 > end {
      return Err(BadCompressionLength);
    }
    var compLen: int := data[pos];
    pos := pos + 1;
    if pos + compLen > end {
      return Err(BadCompression);
    }
    pos := pos + compLen;
    assert m[1 + compLen..] == data[pos..end];
    assert ParseCompression(m, ch) == ParseTail(data[pos..end], ch);
    m := data[pos..end];
    if pos == end {
      return Ok(ch);
    }
    if pos + 2 > end {
      return Err(BadExtensionsLength);
    }
    var extEnd := pos + 2 + U16(data[pos], data[pos + 1]);
    pos := pos + 2;
    if extEnd > end {
      return Err(ExtensionsOverrun);
    }
    SliceOfSlice(data, pos - 2, end, 2, 2 + (extEnd - pos));
    r := ParseExtensionBlock(data, pos, extEnd, ch);
  }
}
