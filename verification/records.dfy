/** The two reassemblers of a ClientHello that is spread over TLS handshake records:
    one reads a connection record by record (proxy.go), the other re-reads a buffer
    that grows (smtp_proxy.go). */
module Records {
  import opened Bytes

  datatype RecordError = NotHandshake | BadRecord | TooLarge

  /** What the bytes seen so far amount to. */
  datatype Assembly =
    | Incomplete
    | Rejected(error: RecordError)
    | Assembled(buffer: seq<byte>)

  // ---------------------------------------------------------------------
  // The specification: a walk over the records of a byte string.

  /** The length of the handshake message that starts with the bytes of `bodies`. */
  function MessageLength(bodies: seq<byte>): nat
    requires |bodies| >= 4
  {
    4 + U24(bodies[1], bodies[2], bodies[3])
  }

  /** The verdict on the handshake bytes collected so far; Incomplete asks for another record. */
  function Judge(bodies: seq<byte>): Assembly {
    if |bodies| < 4 then Incomplete
    else if MessageLength(bodies) > MAX_CLIENT_HELLO then Rejected(TooLarge)
    else if |bodies| >= MessageLength(bodies) then Assembled(bodies)
    else Incomplete
  }

  /** The body length that a record header declares, or the reason to refuse the header. */
  function BodyLength(header: seq<byte>): Result<nat, RecordError>
    requires |header| >= 5
  {
    if header[0] != HANDSHAKE then Err(NotHandshake)
    else
      var n := U16(header[3], header[4]);
      if n == 0 || n > MAX_RECORD_BODY then Err(BadRecord) else Ok(n)
  }

  /** Walks the records of `raw` after the handshake bytes `bodies` were already collected. */
  function Walk(raw: seq<byte>, bodies: seq<byte>): Assembly
    decreases |raw|
  {
    if |raw| < 5 then Incomplete
    else match BodyLength(raw)
      case Err(e) => Rejected(e)
      case Ok(n) =>
        if |raw| - 5 < n then Incomplete
        else
          var collected := bodies + raw[5..5 + n];
          if Judge(collected).Incomplete? then Walk(raw[5 + n..], collected) else Judge(collected)
  }

  /** The answer for a whole buffer: the first record header followed by the handshake bytes. */
  function FromBytes(raw: seq<byte>): Assembly {
    match Walk(raw, [])
    case Assembled(bodies) => if |raw| < 5 then Incomplete else Assembled(raw[..5] + bodies)
    case other => other
  }

  // ---------------------------------------------------------------------
  // The buffered reassembler.

  /** One record of the buffer. */
  lemma WalkAt(raw: seq<byte>, off: nat, bodies: seq<byte>)
    requires off + 5 <= |raw|
    ensures BodyLength(raw[off..off + 5]).Err? ==>
            Walk(raw[off..], bodies) == Rejected(BodyLength(raw[off..off + 5]).error)
    ensures BodyLength(raw[off..off + 5]).Ok? ==>
      var n := BodyLength(raw[off..off + 5]).value;
      if off + 5 + n > |raw| then Walk(raw[off..], bodies) == Incomplete
      else
        var collected := bodies + raw[off + 5..off + 5 + n];
        Walk(raw[off..], bodies) ==
        if Judge(collected).Incomplete? then Walk(raw[off + 5 + n..], collected) else Judge(collected)
  {
    var tail := raw[off..];
    assert BodyLength(tail) == BodyLength(raw[off..off + 5]);
    if BodyLength(tail).Ok? && off + 5 + BodyLength(tail).value <= |raw| {
      var n := BodyLength(tail).value;
      TailOfTail(raw, off, 5, 5 + n);
    }
  }

  method ClientHelloFromBytes(raw: seq<byte>) returns (a: Assembly)
    ensures a == FromBytes(raw)
  {
    var bodies: seq<byte> := [];
    var off := 0;
    var first: seq<byte> := [];
    FromStart(raw);
    while true
      invariant 0 <= off <= |raw|
      invariant Walk(raw, []) == Walk(raw[off..], bodies)
      invariant off == 0 ==> first == []
      invariant off > 0 ==> |raw| >= 5 && first == raw[..5]
      decreases |raw| - off
    {
      if |raw| - off < 5 {
        return Incomplete;
      }
      if |first| == 0 {
        first := raw[..5];
      }
      var answer;
      answer, off, bodies := TakeRecord(raw, off, bodies);
      match answer {
        case None =>
        case Some(Assembled(message)) => return Assembled(first + message);
        case Some(other) => return other;
      }
    }
  }

  /** One turn of the loop. */
  method TakeRecord(raw: seq<byte>, start: nat, before: seq<byte>)
    returns (answer: Option<Assembly>, off: nat, bodies: seq<byte>)
    requires start + 5 <= |raw|
    ensures answer.Some? ==> Walk(raw[start..], before) == answer.value
    ensures answer.None? ==> start < off <= |raw| && Walk(raw[start..], before) == Walk(raw[off..], bodies)
  {
    WalkAt(raw, start, before);
    off, bodies := start, before;
    var h := raw[off..off + 5];
    var length := BodyLength(h);
    if length.Err? {
      return Some(Rejected(length.error)), off, bodies;
    }
    var n := length.value;
    if |raw| - off - 5 < n {
      return Some(Incomplete), off, bodies;
    }
    bodies := bodies + raw[off + 5..off + 5 + n];
    off := off + 5 + n;
    if |bodies| >= 4 {
      var total := 4 + U24(bodies[1], bodies[2], bodies[3]);
      if total > MAX_CLIENT_HELLO {
        return Some(Rejected(TooLarge)), off, bodies;
      }
      if |bodies| >= total {
        return Some(Assembled(bodies)), off, bodies;
      }
    }
    return None, off, bodies;
  }

  // ---------------------------------------------------------------------
  // The streaming reassembler.

  /** A connection: the bytes that will still arrive before it ends or times out. */
  class Conn {
    var rest: seq<byte>

    constructor (bytes: seq<byte>)
      ensures rest == bytes
    {
      rest := bytes;
    }

    /** Fills a buffer of `n` bytes; a short read consumes what there is and reports failure. */
    method ReadFull(n: nat) returns (ok: bool, got: seq<byte>)
      modifies this
      ensures ok <==> n <= |old(rest)|
      ensures ok ==> got == old(rest)[..n] && rest == old(rest)[n..]
      ensures !ok ==> got == old(rest) && rest == []
    {
      if n <= |rest| {
        ok, got, rest := true, rest[..n], rest[n..];
      } else {
        ok, got, rest := false, rest, [];
      }
    }
  }

  /** The outcome of reading a ClientHello; `raw` is what the caller may forward. */
  datatype ReadOutcome =
    | Read(buffer: seq<byte>, raw: seq<byte>)
    | Refused(error: RecordError, raw: seq<byte>)
    | ShortRead(raw: seq<byte>)

  /** Reads records after `header`, when `bodies` were collected and `raw` consumed. */
  function ReadFrom(first: seq<byte>, header: seq<byte>, rest: seq<byte>, bodies: seq<byte>,
                    raw: seq<byte>): ReadOutcome
    requires |header| == 5
    decreases |rest|
  {
    match BodyLength(header)
    case Err(e) => Refused(e, raw)
    case Ok(n) =>
      if |bodies| + n > MAX_CLIENT_HELLO then Refused(TooLarge, raw)
      else if |rest| < n then ShortRead(raw)
      else
        var collected := bodies + rest[..n];
        var consumed := raw + rest[..n];
        match Judge(collected)
        case Rejected(e) => Refused(e, consumed)
        case Assembled(_) => Read(first + collected, consumed)
        case Incomplete =>
          if |rest| - n < 5 then ShortRead(consumed)
          else ReadFrom(first, rest[n..n + 5], rest[n + 5..], collected, consumed + rest[n..n + 5])
  }

  method ReadClientHello(conn: Conn, firstHeader: seq<byte>) returns (o: ReadOutcome)
    requires |firstHeader| == 5
    modifies conn
    ensures o == ReadFrom(firstHeader, firstHeader, old(conn.rest), [], firstHeader)
    ensures !o.ShortRead? ==> o.raw + conn.rest == firstHeader + old(conn.rest)
  {
    var raw := firstHeader;
    var hdr := firstHeader;
    var bodies: seq<byte> := [];
    while true
      invariant |hdr| == 5
      invariant ReadFrom(firstHeader, firstHeader, old(conn.rest), [], firstHeader)
             == ReadFrom(firstHeader, hdr, conn.rest, bodies, raw)
      invariant raw + conn.rest == firstHeader + old(conn.rest)
      decreases |conn.rest|
    {
      var answer;
      answer, hdr, bodies, raw := ReadRecord(conn, firstHeader, hdr, bodies, raw);
      if answer.Some? {
        return answer.value;
      }
    }
  }

  /** One turn of the loop: the body of a record and, if the message continues, the header of the next. */
  method ReadRecord(conn: Conn, firstHeader: seq<byte>, header: seq<byte>, before: seq<byte>, consumed: seq<byte>)
    returns (answer: Option<ReadOutcome>, hdr: seq<byte>, bodies: seq<byte>, raw: seq<byte>)
    requires |header| == 5
    modifies conn
    ensures answer.Some? ==> answer.value == ReadFrom(firstHeader, header, old(conn.rest), before, consumed)
    ensures answer.Some? && !answer.value.ShortRead? ==> answer.value.raw + conn.rest == consumed + old(conn.rest)
    ensures answer.None? ==> |hdr| == 5 && |conn.rest| < |old(conn.rest)|
    ensures answer.None? ==> raw + conn.rest == consumed + old(conn.rest)
    ensures answer.None? ==>
            ReadFrom(firstHeader, header, old(conn.rest), before, consumed) ==
            ReadFrom(firstHeader, hdr, conn.rest, bodies, raw)
  {
    hdr, bodies, raw := header, before, consumed;
    if hdr[0] != HANDSHAKE {
      return Some(Refused(NotHandshake, raw)), hdr, bodies, raw;
    }
    var bodyLen: int := U16(hdr[3], hdr[4]);
    if bodyLen == 0 || bodyLen > MAX_RECORD_BODY {
      return Some(Refused(BadRecord, raw)), hdr, bodies, raw;
    }
    if |bodies| + bodyLen > MAX_CLIENT_HELLO {
      return Some(Refused(TooLarge, raw)), hdr, bodies, raw;
    }
    ghost var rest := conn.rest;
    var ok, body := conn.ReadFull(bodyLen);
    if !ok {
      return Some(ShortRead(raw)), hdr, bodies, raw;
    }
    raw := raw + body;
    bodies := bodies + body;
    CutAt(rest, bodyLen);
    Associative(consumed, body, conn.rest);
    if |bodies| >= 4 {
      var total := 4 + U24(bodies[1], bodies[2], bodies[3]);
      if total > MAX_CLIENT_HELLO {
        return Some(Refused(TooLarge, raw)), hdr, bodies, raw;
      }
      if |bodies| >= total {
        return Some(Read(firstHeader + bodies, raw)), hdr, bodies, raw;
      }
    }
    ghost var more := conn.rest;
    ok, hdr := conn.ReadFull(5);
    if !ok {
      return Some(ShortRead(raw)), hdr, bodies, raw;
    }
    TailOfTail(rest, bodyLen, 0, 5);
    CutAt(more, 5);
    Associative(raw, hdr, conn.rest);
    raw := raw + hdr;
    return None, hdr, bodies, raw;
  }

  // ---------------------------------------------------------------------
  // A settled answer never changes.

  /** Once a walk has an answer, more bytes do not change it. */
  lemma {:induction false} WalkIsStable(raw: seq<byte>, more: seq<byte>, bodies: seq<byte>)
    requires !Walk(raw, bodies).Incomplete?
    ensures Walk(raw + more, bodies) == Walk(raw, bodies)
    decreases |raw|
  {
    var all := raw + more;
    assert all[0] == raw[0] && all[3] == raw[3] && all[4] == raw[4];
    if BodyLength(raw).Ok? {
      var n := BodyLength(raw).value;
      assert all[5..5 + n] == raw[5..5 + n];
      var collected := bodies + raw[5..5 + n];
      if Judge(collected).Incomplete? {
        assert all[5 + n..] == raw[5 + n..] + more;
        WalkIsStable(raw[5 + n..], more, collected);
      }
    }
  }

  /** An answer for a buffer holds for every extension of it: a ClientHello or an error that
      was reported once is reported for ever, whatever arrives later. */
  lemma AnswerIsStable(raw: seq<byte>, more: seq<byte>)
    requires !FromBytes(raw).Incomplete?
    ensures FromBytes(raw + more) == FromBytes(raw)
  {
    WalkIsStable(raw, more, []);
    assert (raw + more)[..5] == raw[..5];
  }

  // ---------------------------------------------------------------------
  // The two reassemblers agree.

  lemma MiddleAndRest<T>(a: seq<T>, b: seq<T>, c: seq<T>)
    ensures (a + (b + c))[|a|..|a| + |b|] == b && (a + (b + c))[|a| + |b|..] == c
  {
  }

  /** The walk over one whole record. */
  lemma WalkStep(header: seq<byte>, body: seq<byte>, more: seq<byte>, bodies: seq<byte>)
    requires |header| == 5 && BodyLength(header) == Ok(|body|)
    ensures Walk(header + (body + more), bodies)
         == if Judge(bodies + body).Incomplete? then Walk(more, bodies + body) else Judge(bodies + body)
  {
    var raw := header + (body + more);
    assert BodyLength(raw) == BodyLength(header);
    MiddleAndRest(header, body, more);
  }

  /** The streaming reader's turn for one whole record. */
  lemma ReadStep(first: seq<byte>, header: seq<byte>, body: seq<byte>, more: seq<byte>, bodies: seq<byte>,
                 raw: seq<byte>)
    requires |header| == 5 && BodyLength(header) == Ok(|body|)
    requires |bodies| + |body| <= MAX_CLIENT_HELLO
    ensures ReadFrom(first, header, body + more, bodies, raw)
         == var verdict := Judge(bodies + body);
            if verdict.Rejected? then Refused(verdict.error, raw + body)
            else if verdict.Assembled? then Read(first + (bodies + body), raw + body)
            else if |more| < 5 then ShortRead(raw + body)
            else ReadFrom(first, more[..5], more[5..], bodies + body, raw + body + more[..5])
  {
    var n := |body|;
    var rest := body + more;
    assert rest[..n] == body;
    assert |rest| - n == |more|;
    if |more| >= 5 {
      assert rest[n..n + 5] == more[..5];
      assert rest[n + 5..] == more[5..];
    }
  }

  lemma ReadMeansHeader(first: seq<byte>, header: seq<byte>, rest: seq<byte>, bodies: seq<byte>, raw: seq<byte>)
    requires |header| == 5 && ReadFrom(first, header, rest, bodies, raw).Read?
    ensures BodyLength(header).Ok? && BodyLength(header).value <= |rest|
    ensures |bodies| + BodyLength(header).value <= MAX_CLIENT_HELLO
  {
  }

  lemma ReadEnds(first: seq<byte>, header: seq<byte>, body: seq<byte>, more: seq<byte>, bodies: seq<byte>,
                 raw: seq<byte>)
    requires |header| == 5 && BodyLength(header) == Ok(|body|) && |bodies| + |body| <= MAX_CLIENT_HELLO
    requires Judge(bodies + body).Assembled?
    ensures ReadFrom(first, header, body + more, bodies, raw) == Read(first + (bodies + body), raw + body)
    ensures Walk(header + body, bodies) == Assembled(bodies + body)
  {
    ReadStep(first, header, body, more, bodies, raw);
    WalkStep(header, body, [], bodies);
    PlusNothing(body);
  }

  lemma ReadGoesOn(first: seq<byte>, header: seq<byte>, body: seq<byte>, more: seq<byte>, bodies: seq<byte>,
                   raw: seq<byte>)
    requires |header| == 5 && BodyLength(header) == Ok(|body|) && |bodies| + |body| <= MAX_CLIENT_HELLO
    requires ReadFrom(first, header, body + more, bodies, raw).Read? && !Judge(bodies + body).Assembled?
    ensures Judge(bodies + body).Incomplete? && |more| >= 5
    ensures ReadFrom(first, header, body + more, bodies, raw) ==
            ReadFrom(first, more[..5], more[5..], bodies + body, raw + body + more[..5])
  {
    ReadStep(first, header, body, more, bodies, raw);
  }

  /** The first record and what is taken after it, put together again. */
  lemma Glue(header: seq<byte>, rest: seq<byte>, n: nat, j: nat, bodies: seq<byte>, raw: seq<byte>)
    requires |header| == 5 && BodyLength(header) == Ok(n) && n + 5 + j <= |rest|
    requires Judge(bodies + rest[..n]).Incomplete?
    ensures Walk(header + rest[..n + 5 + j], bodies) == Walk(rest[n..][..5] + rest[n..][5..][..j], bodies + rest[..n])
    ensures raw + rest[..n] + rest[n..][..5] + rest[n..][5..][..j] == raw + rest[..n + 5 + j]
  {
    CutTwice(rest, n, 5, j);
    Regroup(raw, rest[..n], rest[n..][..5], rest[n..][5..][..j]);
    WalkStep(header, rest[..n], rest[n..][..5] + rest[n..][5..][..j], bodies);
  }

  /** What the streaming reader accepts is the walk's answer for exactly the bytes it consumed. */
  lemma {:induction false} ReadIsWalk(first: seq<byte>, header: seq<byte>, rest: seq<byte>, bodies: seq<byte>,
                                      raw: seq<byte>)
    returns (k: nat)
    requires |header| == 5
    requires ReadFrom(first, header, rest, bodies, raw).Read?
    ensures k <= |rest|
    ensures ReadFrom(first, header, rest, bodies, raw).raw == raw + rest[..k]
    ensures Walk(header + rest[..k], bodies).Assembled?
    ensures ReadFrom(first, header, rest, bodies, raw).buffer == first + Walk(header + rest[..k], bodies).buffer
    decreases |rest|
  {
    ReadMeansHeader(first, header, rest, bodies, raw);
    var n := BodyLength(header).value;
    var body, more := rest[..n], rest[n..];
    CutAt(rest, n);
    if Judge(bodies + body).Assembled? {
      k := n;
      ReadEnds(first, header, body, more, bodies, raw);
    } else {
      ReadGoesOn(first, header, body, more, bodies, raw);
      var j := ReadIsWalk(first, more[..5], more[5..], bodies + body, raw + body + more[..5]);
      k := n + 5 + j;
      Glue(header, rest, n, j, bodies, raw);
    }
  }

  /** Every ClientHello that the streaming reader accepts is accepted by the buffered one from
      the same raw bytes, with the same buffer. */
  lemma StreamedIsBuffered(header: seq<byte>, rest: seq<byte>)
    requires |header| == 5
    requires ReadFrom(header, header, rest, [], header).Read?
    ensures var r := ReadFrom(header, header, rest, [], header);
            r.raw <= header + rest && FromBytes(r.raw) == Assembled(r.buffer)
  {
    var k := ReadIsWalk(header, header, rest, [], header);
    assert (header + rest[..k])[..5] == header;
    assert header + rest[..k] == (header + rest)[..5 + k];
  }

  /** Some record header that the streaming reader comes to declares more than the cap leaves room for. */
  predicate Overflows(header: seq<byte>, rest: seq<byte>, bodies: seq<byte>)
    requires |header| == 5
    decreases |rest|
  {
    && BodyLength(header).Ok?
    && var n := BodyLength(header).value;
       || |bodies| + n > MAX_CLIENT_HELLO
       || (n + 5 <= |rest| && Judge(bodies + rest[..n]).Incomplete? &&
           Overflows(rest[n..n + 5], rest[n + 5..], bodies + rest[..n]))
  }

  lemma OverflowStep(header: seq<byte>, body: seq<byte>, more: seq<byte>, bodies: seq<byte>)
    requires |header| == 5 && BodyLength(header) == Ok(|body|) && |bodies| + |body| <= MAX_CLIENT_HELLO
    ensures Overflows(header, body + more, bodies) <==>
            Judge(bodies + body).Incomplete? && |more| >= 5 && Overflows(more[..5], more[5..], bodies + body)
  {
    var n, rest := |body|, body + more;
    HeadAndRest(body, more);
    if |more| >= 5 {
      assert rest[n..n + 5] == more[..5];
      assert rest[n + 5..] == more[5..];
    }
  }

  /** The streaming reader's outcome against the walk over the same bytes: where the walk waits for more, the reader
      has either read short, or refused a record that cannot fit the cap. */
  ghost predicate Matches(first: seq<byte>, walk: Assembly, read: ReadOutcome, overflows: bool) {
    match walk
    case Incomplete => if overflows then read.Refused? && read.error == TooLarge else read.ShortRead?
    case Rejected(e) => !overflows && read.Refused? && read.error == e
    case Assembled(b) => !overflows && read.Read? && read.buffer == first + b
  }

  /** While the collected and the waiting bytes fit the cap, the reader answers as the walk does. */
  lemma {:induction false} WalkIsRead(first: seq<byte>, header: seq<byte>, rest: seq<byte>, bodies: seq<byte>,
                                      raw: seq<byte>)
    requires |header| == 5
    requires |bodies| + 5 + |rest| <= MAX_CLIENT_HELLO
    ensures Matches(first, Walk(header + rest, bodies), ReadFrom(first, header, rest, bodies, raw),
                    Overflows(header, rest, bodies))
    decreases |rest|
  {
    assert BodyLength(header + rest) == BodyLength(header);
    if BodyLength(header).Ok? && BodyLength(header).value <= |rest| {
      var n := BodyLength(header).value;
      var body, more := rest[..n], rest[n..];
      CutAt(rest, n);
      ReadStep(first, header, body, more, bodies, raw);
      WalkStep(header, body, more, bodies);
      OverflowStep(header, body, more, bodies);
      if Judge(bodies + body).Incomplete? && |more| >= 5 {
        WalkIsRead(first, more[..5], more[5..], bodies + body, raw + body + more[..5]);
        CutAt(more, 5);
      }
    }
  }

  /** For at most 64 KiB of input the two reassemblers give the same verdict: they accept the same inputs with the same
      buffer, and refuse for the same reason; where the buffered one waits for more bytes, the streaming one refuses
      exactly when a record header overflows the cap, and reads short otherwise. */
  lemma ReassemblersAgree(header: seq<byte>, rest: seq<byte>)
    requires |header| == 5
    requires 5 + |rest| <= MAX_CLIENT_HELLO
    ensures Matches([], FromBytes(header + rest), ReadFrom(header, header, rest, [], header),
                    Overflows(header, rest, []))
  {
    WalkIsRead(header, header, rest, [], header);
    HeadAndRest(header, rest);
    match Walk(header + rest, []) {
      case Assembled(b) => PlusNothing(header + b);
      case _ =>
    }
  }

  function Zeros(n: nat): (s: seq<byte>)
    ensures |s| == n
  {
    seq(n, _ => 0)
  }

  /** A record header that declares a full record. */
  const FULL: seq<byte> := [HANDSHAKE, 3, 3] + Put16(MAX_RECORD_BODY)

  /** The first of several full records of a handshake message of 64 KiB. */
  const OPENING: seq<byte> := [1, 0, 255, 252] + Zeros(MAX_RECORD_BODY - 4)

  lemma OpeningWaits(more: seq<byte>)
    requires |OPENING + more| < MAX_CLIENT_HELLO
    ensures Judge(OPENING + more).Incomplete?
  {
    var s := OPENING + more;
    assert s[1] == 0 && s[2] == 255 && s[3] == 252;
  }

  /** Three full records of a message of 64 KiB and the header of a fourth: the buffered reassembler waits for it, and
      the streaming one refuses it at once. */
  lemma FourthRecordOverflows()
    ensures var rest := OPENING + (FULL + (Zeros(MAX_RECORD_BODY) + (FULL + (Zeros(MAX_RECORD_BODY) + FULL))));
            && 5 + |rest| <= MAX_CLIENT_HELLO
            && FromBytes(FULL + rest).Incomplete?
            && ReadFrom(FULL, FULL, rest, [], FULL).Refused?
  {
    var z := Zeros(MAX_RECORD_BODY);
    var r3 := z + FULL;
    var r2 := z + (FULL + r3);
    var rest := OPENING + (FULL + r2);
    assert BodyLength(FULL) == Ok(MAX_RECORD_BODY);
    PlusNothing(OPENING);
    PlusNothing(FULL);
    OpeningWaits([]);
    OpeningWaits(z);
    Associative(OPENING, z, z);
    OpeningWaits(z + z);
    OverflowStep(FULL, OPENING, FULL + r2, []);
    HeadAndRest(FULL, r2);
    OverflowStep(FULL, z, FULL + r3, OPENING);
    HeadAndRest(FULL, r3);
    OverflowStep(FULL, z, FULL, OPENING + z);
    HeadAndRest(FULL, []);
    ReassemblersAgree(FULL, rest);
  }

  // ---------------------------------------------------------------------
  // Fragmentation does not matter.

  /** The wire form of one handshake record with an arbitrary version. */
  function Record(version: (byte, byte), fragment: seq<byte>): seq<byte>
    requires |fragment| <= MAX_RECORD_BODY
  {
    [HANDSHAKE, version.0, version.1] + Put16(|fragment|) + fragment
  }

  /** Section 5.1 of RFC 8446: fragments are not empty, and here at most 18 KiB. */
  ghost predicate Fragments(fragments: seq<((byte, byte), seq<byte>)>) {
    forall i :: 0 <= i < |fragments| ==> 0 < |fragments[i].1| <= MAX_RECORD_BODY
  }

  function Stream(fragments: seq<((byte, byte), seq<byte>)>): seq<byte>
    requires Fragments(fragments)
  {
    if fragments == [] then [] else Record(fragments[0].0, fragments[0].1) + Stream(fragments[1..])
  }

  function Payload(fragments: seq<((byte, byte), seq<byte>)>): seq<byte> {
    if fragments == [] then [] else fragments[0].1 + Payload(fragments[1..])
  }

  /** A handshake message whose header declares exactly its own length. */
  ghost predicate HandshakeMessage(message: seq<byte>) {
    4 <= |message| <= MAX_CLIENT_HELLO && MessageLength(message) == |message|
  }

  /** A proper prefix of a handshake message never settles the question. */
  lemma PrefixIsUnsettled(part: seq<byte>, message: seq<byte>)
    requires HandshakeMessage(message) && part <= message
    ensures Judge(part) == if |part| == |message| then Assembled(message) else Incomplete
  {
    if |part| >= 4 {
      assert part[1] == message[1] && part[2] == message[2] && part[3] == message[3];
    }
    if |part| == |message| {
      assert part == message;
    }
  }

  /** Peels the first record off a stream. */
  lemma FirstRecord(fragments: seq<((byte, byte), seq<byte>)>)
    requires Fragments(fragments) && fragments != []
    ensures |Stream(fragments)| >= 5
    ensures BodyLength(Stream(fragments)[..5]) == Ok(|fragments[0].1|)
    ensures Stream(fragments)[5..] == fragments[0].1 + Stream(fragments[1..])
  {
    var version, fragment := fragments[0].0, fragments[0].1;
    var header := [HANDSHAKE, version.0, version.1] + Put16(|fragment|);
    Associative(header, fragment, Stream(fragments[1..]));
    HeadAndRest(header, fragment + Stream(fragments[1..]));
    HeaderDeclares(version, |fragment|);
  }

  lemma HeaderDeclares(version: (byte, byte), n: nat)
    requires 0 < n <= MAX_RECORD_BODY
    ensures BodyLength([HANDSHAKE, version.0, version.1] + Put16(n)) == Ok(n)
  {
  }

  /** After the first fragment a message is complete exactly when no fragment is left. */
  lemma FirstFragment(fragments: seq<((byte, byte), seq<byte>)>, bodies: seq<byte>, message: seq<byte>)
    requires Fragments(fragments) && fragments != []
    requires HandshakeMessage(message) && bodies + Payload(fragments) == message
    ensures bodies + fragments[0].1 + Payload(fragments[1..]) == message
    ensures |bodies| + |fragments[0].1| <= MAX_CLIENT_HELLO
    ensures Judge(bodies + fragments[0].1) == if fragments[1..] == [] then Assembled(message) else Incomplete
  {
    var collected := bodies + fragments[0].1;
    var tail := fragments[1..];
    assert collected + Payload(tail) == message;
    assert collected == message[..|collected|];
    PrefixIsUnsettled(collected, message);
    if tail != [] {
      assert |Payload(tail)| >= |tail[0].1| > 0;
    } else {
      assert collected == message;
    }
  }

  lemma {:induction false} FragmentsAssemble(fragments: seq<((byte, byte), seq<byte>)>, bodies: seq<byte>,
                                             more: seq<byte>, message: seq<byte>)
    requires Fragments(fragments) && fragments != []
    requires HandshakeMessage(message) && bodies + Payload(fragments) == message
    ensures Walk(Stream(fragments) + more, bodies) == Assembled(message)
    decreases |fragments|
  {
    var tail := fragments[1..];
    var stream := Stream(fragments);
    FirstRecord(fragments);
    FirstFragment(fragments, bodies, message);
    CutAt(stream, 5);
    Associative(fragments[0].1, Stream(tail), more);
    Associative(stream[..5], stream[5..], more);
    WalkStep(stream[..5], fragments[0].1, Stream(tail) + more, bodies);
    if tail != [] {
      FragmentsAssemble(tail, bodies + fragments[0].1, more, message);
    }
  }

  lemma CutInFirst(header: seq<byte>, body: seq<byte>, rest: seq<byte>, p: nat, bodies: seq<byte>)
    requires |header| == 5 && BodyLength(header) == Ok(|body|) && p < 5 + |body|
    ensures Walk((header + (body + rest))[..p], bodies).Incomplete?
  {
    var part := (header + (body + rest))[..p];
    if p >= 5 {
      assert BodyLength(part) == BodyLength(header);
    }
  }

  lemma CutLater<T>(a: seq<T>, b: seq<T>, c: seq<T>, p: nat)
    requires |a| + |b| <= p <= |a| + |b| + |c|
    ensures (a + (b + c))[..p] == a + (b + c[..p - |a| - |b|])
  {
  }

  /** A stream that is cut short is never settled. */
  lemma {:induction false} CutStreamWaits(fragments: seq<((byte, byte), seq<byte>)>, p: nat, bodies: seq<byte>,
                                          message: seq<byte>)
    requires Fragments(fragments) && p < |Stream(fragments)|
    requires HandshakeMessage(message) && bodies + Payload(fragments) == message
    ensures Walk(Stream(fragments)[..p], bodies).Incomplete?
    decreases |fragments|
  {
    var stream, body, tail := Stream(fragments), fragments[0].1, fragments[1..];
    FirstRecord(fragments);
    FirstFragment(fragments, bodies, message);
    CutAt(stream, 5);
    if p < 5 + |body| {
      CutInFirst(stream[..5], body, Stream(tail), p, bodies);
    } else {
      CutLater(stream[..5], body, Stream(tail), p);
      WalkStep(stream[..5], body, Stream(tail)[..p - 5 - |body|], bodies);
      CutStreamWaits(tail, p - 5 - |body|, bodies + body, message);
    }
  }

  lemma {:induction false} FragmentsRead(first: seq<byte>, fragments: seq<((byte, byte), seq<byte>)>, bodies: seq<byte>,
                                         raw: seq<byte>, more: seq<byte>, message: seq<byte>)
    requires Fragments(fragments) && fragments != []
    requires HandshakeMessage(message) && bodies + Payload(fragments) == message
    ensures |Stream(fragments)| >= 5
    ensures ReadFrom(first, Stream(fragments)[..5], Stream(fragments)[5..] + more, bodies, raw)
         == Read(first + message, raw + Stream(fragments)[5..])
    decreases |fragments|
  {
    var tail := fragments[1..];
    var fragment := fragments[0].1;
    var stream := Stream(fragments);
    FirstRecord(fragments);
    FirstFragment(fragments, bodies, message);
    var next := Stream(tail);
    Associative(fragment, next, more);
    ReadStep(first, stream[..5], fragment, next + more, bodies, raw);
    if tail == [] {
      assert stream[5..] == fragment;
    } else {
      FragmentsRead(first, tail, bodies + fragment, raw + fragment + next[..5], more, message);
      TakeFive(next, more);
      Associative(raw + fragment, next[..5], next[5..]);
      Associative(raw, fragment, next);
    }
  }

  lemma TakeFive(s: seq<byte>, more: seq<byte>)
    requires |s| >= 5
    ensures (s + more)[..5] == s[..5] && (s + more)[5..] == s[5..] + more
    ensures s[..5] + s[5..] == s
  {
  }

  /** However a handshake message is cut into non-empty records, both reassemblers rebuild it, and
      the streaming one consumes, and so forwards, exactly the records that carry it. */
  lemma FragmentationIndependence(fragments: seq<((byte, byte), seq<byte>)>, more: seq<byte>, message: seq<byte>)
    requires Fragments(fragments) && HandshakeMessage(message) && Payload(fragments) == message
    ensures |Stream(fragments)| >= 5
    ensures FromBytes(Stream(fragments) + more) == Assembled(Stream(fragments)[..5] + message)
    ensures ReadFrom(Stream(fragments)[..5], Stream(fragments)[..5], Stream(fragments)[5..] + more, [],
                     Stream(fragments)[..5])
         == Read(Stream(fragments)[..5] + message, Stream(fragments))
  {
    var header := Stream(fragments)[..5];
    FragmentsAssemble(fragments, [], more, message);
    FragmentsRead(header, fragments, [], header, more, message);
    assert (Stream(fragments) + more)[..5] == header;
    assert header + Stream(fragments)[5..] == Stream(fragments);
  }
}
