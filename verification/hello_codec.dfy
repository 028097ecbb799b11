/** A ClientHello serializer written from section 4.1.2 of RFC 8446 and its extensions, and the
    proof that the parser reads back what it wrote, however the records are cut. */
module HelloCodec {
  import opened Bytes
  import opened ClientHello
  import Records

  /** The extensions that the parser looks into; section 3 of RFC 6066 (server_name, with entries of
      any name type) and section 3.1 of RFC 7301 (ALPN) define the lists. */
  datatype Extension =
    | Hosts(names: seq<(byte, seq<byte>)>)
    | Groups(groups: seq<u16>)
    | Formats(formats: seq<byte>)
    | Signatures(algorithms: seq<u16>)
    | Applications(protocols: seq<seq<byte>>)
    | Versions(versions: seq<u16>)
    | Other(kind: u16, data: seq<byte>)

  datatype Message = Message(
    version: u16,
    random: seq<byte>,
    sessionId: seq<byte>,
    cipherSuites: seq<u16>,
    compression: seq<byte>,
    extensions: Option<seq<Extension>>)

  // ---------------------------------------------------------------------
  // Serialization.

  /** A vector behind its one-byte length. */
  function Vector8(s: seq<byte>): (v: seq<byte>)
    requires |s| < 256
    ensures |v| == 1 + |s| && v[0] == |s| && v[1..] == s
  {
    [|s|] + s
  }

  /** A vector behind its two-byte length. */
  function Vector16(s: seq<byte>): (v: seq<byte>)
    requires |s| < 65536
    ensures |v| == 2 + |s| && U16(v[0], v[1]) == |s| && v[2..] == s
  {
    Put16(|s|) + s
  }

  function PutValues(values: seq<u16>): (s: seq<byte>)
    ensures |s| == 2 * |values|
  {
    if values == [] then [] else Put16(values[0]) + PutValues(values[1..])
  }

  predicate FitsNames(names: seq<(byte, seq<byte>)>) {
    forall i :: 0 <= i < |names| ==> |names[i].1| < 65536
  }

  function PutNames(names: seq<(byte, seq<byte>)>): seq<byte>
    requires FitsNames(names)
  {
    if names == [] then []
    else [names[0].0] + Vector16(names[0].1) + PutNames(names[1..])
  }

  predicate FitsProtocols(protocols: seq<seq<byte>>) {
    forall i :: 0 <= i < |protocols| ==> |protocols[i]| < 256
  }

  function PutProtocols(protocols: seq<seq<byte>>): seq<byte>
    requires FitsProtocols(protocols)
  {
    if protocols == [] then [] else Vector8(protocols[0]) + PutProtocols(protocols[1..])
  }

  function Kind(e: Extension): u16 {
    match e
    case Hosts(_) => SERVER_NAME
    case Groups(_) => SUPPORTED_GROUPS
    case Formats(_) => EC_POINT_FORMATS
    case Signatures(_) => SIGNATURE_ALGORITHMS
    case Applications(_) => ALPN
    case Versions(_) => SUPPORTED_VERSIONS
    case Other(kind, _) => kind
  }

  /** The bodies that have a wire form: every vector fits its length field. */
  predicate Fits(e: Extension) {
    match e
    case Hosts(names) => FitsNames(names) && 2 + |PutNames(names)| < 65536
    case Groups(groups) => 2 + 2 * |groups| < 65536
    case Formats(formats) => |formats| < 256
    case Signatures(algorithms) => 2 + 2 * |algorithms| < 65536
    case Applications(protocols) => FitsProtocols(protocols) && 2 + |PutProtocols(protocols)| < 65536
    case Versions(versions) => 2 * |versions| < 256
    case Other(kind, data) => kind !in {SERVER_NAME, SUPPORTED_GROUPS, EC_POINT_FORMATS,
                                        SIGNATURE_ALGORITHMS, ALPN, SUPPORTED_VERSIONS} && |data| < 65536
  }

  function Body(e: Extension): (s: seq<byte>)
    requires Fits(e)
    ensures |s| < 65536
  {
    match e
    case Hosts(names) => Vector16(PutNames(names))
    case Groups(groups) => Vector16(PutValues(groups))
    case Formats(formats) => Vector8(formats)
    case Signatures(algorithms) => Vector16(PutValues(algorithms))
    case Applications(protocols) => Vector16(PutProtocols(protocols))
    case Versions(versions) => Vector8(PutValues(versions))
    case Other(_, data) => data
  }

  predicate FitAll(extensions: seq<Extension>) {
    forall i :: 0 <= i < |extensions| ==> Fits(extensions[i])
  }

  function PutExtensions(extensions: seq<Extension>): seq<byte>
    requires FitAll(extensions)
  {
    if extensions == [] then []
    else Put16(Kind(extensions[0])) + Vector16(Body(extensions[0])) + PutExtensions(extensions[1..])
  }

  predicate WellFormed(m: Message) {
    && |m.random| == 32
    && |m.sessionId| < 256
    && 2 * |m.cipherSuites| < 65536
    && |m.compression| < 256
    && (m.extensions.Some? ==> FitAll(m.extensions.value) && |PutExtensions(m.extensions.value)| < 65536)
  }

  function PutBlock(m: Message): (s: seq<byte>)
    requires WellFormed(m)
    ensures |s| < 2 + 65536
  {
    if m.extensions.None? then []
    else Vector16(PutExtensions(m.extensions.value))
  }

  /** The handshake body. */
  function PutMessage(m: Message): (s: seq<byte>)
    requires WellFormed(m)
    ensures |s| < 0x1_000000
  {
    Put16(m.version) + m.random
    + (Vector8(m.sessionId) + (Vector16(PutValues(m.cipherSuites)) + (Vector8(m.compression) + PutBlock(m))))
  }

  /** The handshake message: type 1, a 24-bit length and the body. */
  function PutHandshake(m: Message): seq<byte>
    requires WellFormed(m)
  {
    [1] + Put24(|PutMessage(m)|) + PutMessage(m)
  }

  // ---------------------------------------------------------------------
  // What a message means.

  function FirstHost(names: seq<(byte, seq<byte>)>): seq<byte> {
    if names == [] then [] else if names[0].0 == 0 then names[0].1 else FirstHost(names[1..])
  }

  function Kinds(es: seq<Extension>): seq<u16> {
    seq(|es|, i requires 0 <= i < |es| => Kind(es[i]))
  }

  function AllGroups(es: seq<Extension>): seq<u16> {
    if es == [] then []
    else
      var last := es[|es| - 1];
      AllGroups(es[..|es| - 1]) + if last.Groups? then last.groups else []
  }

  function AllFormats(es: seq<Extension>): seq<byte> {
    if es == [] then []
    else
      var last := es[|es| - 1];
      AllFormats(es[..|es| - 1]) + if last.Formats? then last.formats else []
  }

  /** The last extension of a kind decides; without duplicates it is the only one. */
  function LastHost(es: seq<Extension>): seq<byte> {
    if es == [] then []
    else
      var last := es[|es| - 1];
      if last.Hosts? then FirstHost(last.names) else LastHost(es[..|es| - 1])
  }

  function LastProtocols(es: seq<Extension>): seq<seq<byte>> {
    if es == [] then []
    else
      var last := es[|es| - 1];
      if last.Applications? then last.protocols else LastProtocols(es[..|es| - 1])
  }

  function LastVersions(es: seq<Extension>): seq<u16> {
    if es == [] then []
    else
      var last := es[|es| - 1];
      if last.Versions? then last.versions else LastVersions(es[..|es| - 1])
  }

  function LastSignatures(es: seq<Extension>): seq<u16> {
    if es == [] then []
    else
      var last := es[|es| - 1];
      if last.Signatures? then last.algorithms else LastSignatures(es[..|es| - 1])
  }

  function Offered(m: Message, es: seq<Extension>): Hello {
    Hello(m.version, m.cipherSuites, Kinds(es), AllGroups(es), AllFormats(es),
          LastHost(es), LastProtocols(es), LastVersions(es), LastSignatures(es))
  }

  function Meaning(m: Message): Hello {
    Offered(m, if m.extensions.Some? then m.extensions.value else [])
  }

  // ---------------------------------------------------------------------
  // Reading back.

  lemma {:induction false} PairsOfValues(values: seq<u16>)
    ensures Pairs(PutValues(values)) == values
  {
    if values != [] {
      var s := PutValues(values);
      assert s[0] == Put16(values[0])[0] && s[1] == Put16(values[0])[1];
      assert s[2..] == PutValues(values[1..]);
      PairsOfValues(values[1..]);
    }
  }

  /** A length-prefixed head of a byte string: where it starts and where it ends. */
  lemma Vector8Splits(v: seq<byte>, more: seq<byte>)
    requires |v| < 256
    ensures var s := Vector8(v) + more;
            s[0] == |v| && s[1..1 + |v|] == v && s[1 + |v|..] == more
  {
  }

  lemma Vector16Splits(before: seq<byte>, v: seq<byte>, more: seq<byte>)
    requires |v| < 65536
    ensures var s, n := before + Vector16(v) + more, |before|;
            && |s| >= n + 2 && U16(s[n], s[n + 1]) == |v|
            && s[n + 2..n + 2 + |v|] == v && s[n + 2 + |v|..] == more
  {
    var s, n := before + Vector16(v) + more, |before|;
    assert s[n] == Vector16(v)[0] && s[n + 1] == Vector16(v)[1];
  }

  lemma {:induction false} ListOfValues(values: seq<u16>)
    requires 2 + 2 * |values| < 65536
    ensures U16List(Vector16(PutValues(values))) == values
  {
    var ext := Vector16(PutValues(values));
    assert ext[2..|ext|] == PutValues(values);
    PairsOfValues(values);
  }

  lemma {:induction false} HostOfNames(names: seq<(byte, seq<byte>)>)
    requires FitsNames(names)
    ensures HostName(PutNames(names)) == FirstHost(names)
  {
    if names != [] {
      Vector16Splits([names[0].0], names[0].1, PutNames(names[1..]));
      HostOfNames(names[1..]);
    }
  }

  lemma {:induction false} NamesOfProtocols(protocols: seq<seq<byte>>)
    requires FitsProtocols(protocols)
    ensures Names(PutProtocols(protocols)) == protocols
  {
    if protocols != [] {
      Vector8Splits(protocols[0], PutProtocols(protocols[1..]));
      NamesOfProtocols(protocols[1..]);
    }
  }

  lemma {:induction false} ServerNameReadsBack(names: seq<(byte, seq<byte>)>)
    requires FitsNames(names) && 2 + |PutNames(names)| < 65536
    ensures ServerName(Vector16(PutNames(names))) == FirstHost(names)
  {
    var ext := Vector16(PutNames(names));
    assert ext[2..|ext|] == PutNames(names);
    HostOfNames(names);
  }

  lemma {:induction false} ProtocolsReadBack(protocols: seq<seq<byte>>)
    requires FitsProtocols(protocols) && 2 + |PutProtocols(protocols)| < 65536
    ensures Protocols(Vector16(PutProtocols(protocols))) == protocols
  {
    var ext := Vector16(PutProtocols(protocols));
    assert ext[2..|ext|] == PutProtocols(protocols);
    NamesOfProtocols(protocols);
  }

  lemma {:induction false} VersionsReadBack(versions: seq<u16>)
    requires 2 * |versions| < 256
    ensures VersionList(Vector8(PutValues(versions))) == versions
  {
    var ext := Vector8(PutValues(versions));
    assert |ext| == 1 + 2 * |versions|;
    assert ext[1..|ext|] == PutValues(versions);
    PairsOfValues(versions);
  }

  /** Every body reads back. */
  lemma BodyReadsBack(e: Extension)
    requires Fits(e)
    ensures e.Hosts? ==> ServerName(Body(e)) == FirstHost(e.names)
    ensures e.Groups? ==> U16List(Body(e)) == e.groups
    ensures e.Formats? ==> PointFormats(Body(e)) == e.formats
    ensures e.Signatures? ==> U16List(Body(e)) == e.algorithms
    ensures e.Applications? ==> Protocols(Body(e)) == e.protocols
    ensures e.Versions? ==> VersionList(Body(e)) == e.versions
  {
    match e {
      case Hosts(names) => ServerNameReadsBack(names);
      case Groups(groups) => ListOfValues(groups);
      case Formats(formats) =>
        var ext := Vector8(formats);
        assert ext[1..|ext|] == formats;
      case Signatures(algorithms) => ListOfValues(algorithms);
      case Applications(protocols) => ProtocolsReadBack(protocols);
      case Versions(versions) => VersionsReadBack(versions);
      case Other(_, _) =>
    }
  }

  lemma ExtensionReadsBack(m: Message, es: seq<Extension>, e: Extension)
    requires Fits(e)
    ensures AddExtension(Offered(m, es), Kind(e), Body(e)) == Offered(m, es + [e])
  {
    BodyReadsBack(e);
    var longer := es + [e];
    assert longer[..|longer| - 1] == es;
    assert Kinds(longer) == Kinds(es) + [Kind(e)];
    var h := Offered(m, es);
    assert h.ellipticCurves + [] == h.ellipticCurves && h.ecPointFormats + [] == h.ecPointFormats;
  }

  lemma FirstExtension(e: Extension, more: seq<byte>)
    requires Fits(e)
    ensures var block, n := Put16(Kind(e)) + Vector16(Body(e)) + more, |Body(e)|;
            && |block| >= 4 + n && U16(block[0], block[1]) == Kind(e) && U16(block[2], block[3]) == n
            && block[4..4 + n] == Body(e) && block[4 + n..] == more
  {
    Vector16Splits(Put16(Kind(e)), Body(e), more);
    var block := Put16(Kind(e)) + Vector16(Body(e)) + more;
    assert block[0] == Put16(Kind(e))[0] && block[1] == Put16(Kind(e))[1];
  }

  lemma ExtensionStep(e: Extension, more: seq<byte>, h: Hello)
    requires Fits(e)
    ensures ParseExtensions(Put16(Kind(e)) + Vector16(Body(e)) + more, h)
         == ParseExtensions(more, AddExtension(h, Kind(e), Body(e)))
  {
    FirstExtension(e, more);
  }

  /** The extensions taken in one after the other. */
  function AddAll(h: Hello, es: seq<Extension>): Hello
    requires FitAll(es)
    decreases |es|
  {
    if es == [] then h else AddAll(AddExtension(h, Kind(es[0]), Body(es[0])), es[1..])
  }

  lemma {:induction false} BlockIsAddAll(h: Hello, es: seq<Extension>)
    requires FitAll(es)
    ensures ParseExtensions(PutExtensions(es), h) == Ok(AddAll(h, es))
    decreases |es|
  {
    if es != [] {
      ExtensionStep(es[0], PutExtensions(es[1..]), h);
      BlockIsAddAll(AddExtension(h, Kind(es[0]), Body(es[0])), es[1..]);
    }
  }

  lemma {:induction false} ExtensionsReadBack(m: Message, es: seq<Extension>, h: Hello)
    requires FitAll(es) && h == Offered(m, [])
    ensures AddAll(h, es) == Offered(m, es)
    decreases |es|
  {
    if es != [] {
      var last := |es| - 1;
      AddAllSnoc(h, es[..last], es[last]);
      ExtensionsReadBack(m, es[..last], h);
      ExtensionReadsBack(m, es[..last], es[last]);
      assert es[..last] + [es[last]] == es;
    }
  }

  lemma {:induction false} AddAllSnoc(h: Hello, es: seq<Extension>, e: Extension)
    requires FitAll(es + [e])
    ensures FitAll(es) && Fits(e)
    ensures AddAll(h, es + [e]) == AddExtension(AddAll(h, es), Kind(e), Body(e))
    decreases |es|
  {
    assert (es + [e])[|es|] == e;
    assert forall i :: 0 <= i < |es| ==> es[i] == (es + [e])[i];
    if es != [] {
      assert (es + [e])[1..] == es[1..] + [e];
      AddAllSnoc(AddExtension(h, Kind(es[0]), Body(es[0])), es[1..], e);
    }
  }

  lemma BlockReadsBack(m: Message)
    requires WellFormed(m)
    ensures ParseTail(PutBlock(m), Offered(m, [])) == Ok(Meaning(m))
  {
    if m.extensions.Some? {
      var es := m.extensions.value;
      assert PutBlock(m)[2..2 + |PutExtensions(es)|] == PutExtensions(es);
      BlockIsAddAll(Offered(m, []), es);
      ExtensionsReadBack(m, es, Offered(m, []));
    }
  }

  lemma CompressionSkips(m: Message)
    requires WellFormed(m)
    ensures ParseCompression(Vector8(m.compression) + PutBlock(m), Offered(m, [])) == Ok(Meaning(m))
  {
    Vector8Splits(m.compression, PutBlock(m));
    BlockReadsBack(m);
  }

  lemma SuitesReadBack(m: Message)
    requires WellFormed(m)
    ensures ParseCiphers(Vector16(PutValues(m.cipherSuites)) + (Vector8(m.compression) + PutBlock(m)), Blank(m.version))
         == Ok(Meaning(m))
  {
    var rest := Vector8(m.compression) + PutBlock(m);
    CompressionSkips(m);
    assert [] + Vector16(PutValues(m.cipherSuites)) + rest == Vector16(PutValues(m.cipherSuites)) + rest;
    Vector16Splits([], PutValues(m.cipherSuites), rest);
    PairsOfValues(m.cipherSuites);
    assert Blank(m.version).(cipherSuites := m.cipherSuites) == Offered(m, []);
  }

  lemma BodyRoundTrip(m: Message)
    requires WellFormed(m)
    ensures ParseBody(PutMessage(m)) == Ok(Meaning(m))
  {
    var suites := Vector16(PutValues(m.cipherSuites)) + (Vector8(m.compression) + PutBlock(m));
    var session := Vector8(m.sessionId) + suites;
    var s := PutMessage(m);
    assert s == Put16(m.version) + m.random + session;
    assert s[0] == Put16(m.version)[0] && s[1] == Put16(m.version)[1];
    assert s[34..] == session;
    Vector8Splits(m.sessionId, suites);
    SuitesReadBack(m);
  }

  /** Parsing a serialized ClientHello after any handshake record header returns its meaning. */
  lemma RoundTrip(m: Message, header: seq<byte>, more: seq<byte>)
    requires WellFormed(m)
    requires |header| == 5 && header[0] == HANDSHAKE
    ensures Parse(header + PutHandshake(m) + more) == Ok(Meaning(m))
  {
    var n := |PutMessage(m)|;
    var data := header + PutHandshake(m) + more;
    assert data[5] == 1;
    assert data[6] == Put24(n)[0] && data[7] == Put24(n)[1] && data[8] == Put24(n)[2];
    assert data[9..9 + n] == PutMessage(m);
    BodyRoundTrip(m);
  }

  // ---------------------------------------------------------------------
  // Across the reassemblers.

  lemma MessageOfHello(m: Message)
    requires WellFormed(m) && |PutHandshake(m)| <= MAX_CLIENT_HELLO
    ensures Records.HandshakeMessage(PutHandshake(m))
  {
    var message, n := PutHandshake(m), |PutMessage(m)|;
    assert message[1] == Put24(n)[0] && message[2] == Put24(n)[1] && message[3] == Put24(n)[2];
  }

  /** However the records of a ClientHello are cut, both reassemblers hand the parser a buffer that
      gives the same Hello, and so the same fingerprints; the raw bytes are the records. */
  lemma FragmentedHelloParses(m: Message, fragments: seq<((byte, byte), seq<byte>)>, more: seq<byte>)
    requires WellFormed(m) && |PutHandshake(m)| <= MAX_CLIENT_HELLO
    requires Records.Fragments(fragments) && Records.Payload(fragments) == PutHandshake(m)
    ensures var stream := Records.Stream(fragments);
            && |stream| >= 5
            && Records.FromBytes(stream + more).Assembled?
            && Parse(Records.FromBytes(stream + more).buffer) == Ok(Meaning(m))
    ensures var stream := Records.Stream(fragments);
            var read := Records.ReadFrom(stream[..5], stream[..5], stream[5..] + more, [], stream[..5]);
            read.Read? && read.raw == stream && Parse(read.buffer) == Ok(Meaning(m))
  {
    var message := PutHandshake(m);
    MessageOfHello(m);
    Records.FragmentationIndependence(fragments, more, message);
    var header := Records.Stream(fragments)[..5];
    Records.FirstRecord(fragments);
    assert header[0] == HANDSHAKE;
    RoundTrip(m, header, []);
    assert header + message + [] == header + message;
  }
}
