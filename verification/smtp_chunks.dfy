/** How the input is cut into chunks: when exactly a chunk works like its bytes one by one. It does unless a TLS record
    hides in the middle of a client chunk, or a chunk overflows a buffer that its bytes one by one would empty. */
module SmtpChunks {
  import opened Bytes
  import opened SmtpLines
  import opened SmtpObserver
  import ClientHello
  import Records
  import SmtpBehavior
  import SmtpEvent

  // ---------------------------------------------------------------------
  // The reference machine: one byte at a time.

  /** The next client byte would start a command line of an observer that still reads. */
  predicate Boundary(o: State) {
    Reading(o) && AtBoundary(o)
  }

  function ClientByte(o: State, b: byte, at: int): State {
    if o.flags.fingerprinted || o.flags.disabled then o
    else if o.flags.tlsArmed then ObserveTLS(o, [b], at)
    else if AtBoundary(o) && b == HANDSHAKE then o.(flags := o.flags.(premature := true, disabled := true))
    else if o.bdatRemaining > 0 then o.(bdatRemaining := o.bdatRemaining - 1)
    else if |o.clientLines| == MAX_LINES then o.(flags := o.flags.(disabled := true))
    else if b != LF then o.(clientLines := o.clientLines + [b])
    else ClientLine(o.(clientLines := []), o.clientLines + [LF], at)
  }

  function ServerByte(o: State, b: byte, at: int): State {
    if !Reading(o) then o
    else if |o.serverLines| == MAX_LINES then o.(flags := o.flags.(disabled := true))
    else if b != LF then o.(serverLines := o.serverLines + [b])
    else ServerLine(o.(serverLines := []), TrimEnd(o.serverLines + [LF]), at)
  }

  function FeedClient(o: State, p: seq<byte>, at: int): State
    decreases |p|
  {
    if p == [] then o else FeedClient(ClientByte(o, p[0], at), p[1..], at)
  }

  function FeedServer(o: State, p: seq<byte>, at: int): State
    decreases |p|
  {
    if p == [] then o else FeedServer(ServerByte(o, p[0], at), p[1..], at)
  }

  /** The state without the buffers that an observer which has stopped never reads again. */
  function Forget(o: State): State {
    if o.flags.disabled || o.flags.fingerprinted then o.(clientLines := [], serverLines := [], tlsBytes := []) else o
  }

  /** No byte of `p` is a TLS handshake byte where a command could start. */
  predicate Smooth(o: State, p: seq<byte>, at: int)
    decreases |p|
  {
    p == [] || (!(p[0] == HANDSHAKE && Boundary(o)) && Smooth(ClientByte(o, p[0], at), p[1..], at))
  }

  /** Only the first byte of a chunk is checked for TLS; a later one can be missed. */
  predicate HidesHandshake(o: State, p: seq<byte>, at: int) {
    p != [] && !Smooth(ClientByte(o, p[0], at), p[1..], at)
  }

  /** How many payload bytes are still to come. */
  function Payload(o: State): nat {
    if o.bdatRemaining > 0 then o.bdatRemaining else 0
  }

  function PastPayload(o: State): State {
    if o.bdatRemaining > 0 then o.(bdatRemaining := 0) else o
  }

  /** The part of a chunk that is not payload. */
  function Remainder(o: State, p: seq<byte>): seq<byte> {
    p[Min(|p|, Payload(o))..]
  }

  /** A chunk fits the line buffer; payload bytes leave it before its length is checked. */
  predicate Room(o: State, p: seq<byte>) {
    |o.clientLines| + |p| <= MAX_LINES + Payload(o)
  }

  /** One state is like the other but for the line buffer and having stopped. */
  predicate Unmoved(o: State, r: State) {
    r == o.(clientLines := r.clientLines, flags := o.flags.(disabled := r.flags.disabled))
  }

  /** Byte by byte, nothing happens until a line is too long: before it there are only blank commands, or only lines
      within a message. */
  predicate Drowns(o: State, p: seq<byte>, at: int)
    decreases |p|
  {
    p != [] &&
    var next := ClientByte(o, p[0], at);
    Unmoved(o, next) && (next.flags.disabled || Drowns(next, p[1..], at))
  }

  /** The bytes hold a whole ClientHello that can be parsed. */
  predicate HoldsHello(bytes: seq<byte>) {
    var assembly := Records.FromBytes(bytes);
    assembly.Assembled? && ClientHello.Parse(assembly.buffer).Ok?
  }

  /** When a client chunk works like its bytes one by one: a chunk that fits must not hide a handshake; one that does
      not fit stops the observer as a whole, so nothing may happen in it before the buffer overflows. */
  predicate Alike(o: State, p: seq<byte>, at: int) {
    if o.flags.disabled || o.flags.fingerprinted then true
    else if o.flags.tlsArmed then
      |o.tlsBytes| + |p| > MAX_CLIENT_HELLO ==> !HoldsHello((o.tlsBytes + p)[..MAX_CLIENT_HELLO])
    else if AtBoundary(o) && p != [] && p[0] == HANDSHAKE then true
    else if Room(o, p) then !HidesHandshake(o, p, at)
    else Drowns(PastPayload(o), Remainder(o, p), at)
  }

  predicate ServerUnmoved(o: State, r: State) {
    r == o.(serverLines := r.serverLines, flags := o.flags.(disabled := r.flags.disabled))
  }

  /** Byte by byte, nothing happens until a reply line is too long: before it there is nothing that ends a reply to a
      command. */
  predicate ServerDrowns(o: State, p: seq<byte>, at: int)
    decreases |p|
  {
    p != [] &&
    var next := ServerByte(o, p[0], at);
    ServerUnmoved(o, next) && (next.flags.disabled || ServerDrowns(next, p[1..], at))
  }

  predicate ServerAlike(o: State, p: seq<byte>, at: int) {
    !Reading(o) || |o.serverLines| + |p| <= MAX_LINES || ServerDrowns(o, p, at)
  }

  // ---------------------------------------------------------------------
  // Feeding.

  lemma {:induction false} FeedSplits(o: State, p: seq<byte>, q: seq<byte>, at: int)
    ensures FeedClient(o, p + q, at) == FeedClient(FeedClient(o, p, at), q, at)
    ensures Smooth(o, p + q, at) <==> Smooth(o, p, at) && Smooth(FeedClient(o, p, at), q, at)
    decreases |p|
  {
    if p == [] {
      assert p + q == q;
    } else {
      assert (p + q)[0] == p[0] && (p + q)[1..] == p[1..] + q;
      FeedSplits(ClientByte(o, p[0], at), p[1..], q, at);
    }
  }

  /** An observer that has stopped ignores its client. */
  lemma {:induction false} StoppedFeed(o: State, p: seq<byte>, at: int)
    requires o.flags.disabled || o.flags.fingerprinted
    ensures FeedClient(o, p, at) == o && Smooth(o, p, at)
    decreases |p|
  {
    if p != [] {
      StoppedFeed(o, p[1..], at);
    }
  }

  lemma {:induction false} PayloadFeed(o: State, p: seq<byte>, at: int)
    requires Reading(o) && 0 < o.bdatRemaining && |p| <= o.bdatRemaining
    ensures FeedClient(o, p, at) == o.(bdatRemaining := o.bdatRemaining - |p|)
    decreases |p|
  {
    if p != [] {
      var next := o.(bdatRemaining := o.bdatRemaining - 1);
      assert ClientByte(o, p[0], at) == next;
      if |p| > 1 {
        PayloadFeed(next, p[1..], at);
      }
    }
  }

  lemma {:induction false} PartFeed(o: State, p: seq<byte>, at: int)
    requires Reading(o) && o.bdatRemaining <= 0 && LF !in p && |o.clientLines| + |p| <= MAX_LINES
    requires Smooth(o, p, at)
    ensures FeedClient(o, p, at) == o.(clientLines := o.clientLines + p)
    decreases |p|
  {
    if p == [] {
      assert o.clientLines + p == o.clientLines;
    } else {
      var next := o.(clientLines := o.clientLines + [p[0]]);
      assert ClientByte(o, p[0], at) == next;
      PartFeed(next, p[1..], at);
      assert o.clientLines + [p[0]] + p[1..] == o.clientLines + p;
    }
  }

  lemma PayloadPasses(o: State, p: seq<byte>, at: int)
    requires Reading(o) && Payload(o) <= |p|
    ensures FeedClient(o, p, at) == FeedClient(PastPayload(o), p[Payload(o)..], at)
    ensures Smooth(o, p, at) ==> Smooth(PastPayload(o), p[Payload(o)..], at)
  {
    var k := Payload(o);
    if k == 0 {
      assert p[0..] == p;
    } else {
      assert p == p[..k] + p[k..];
      FeedSplits(o, p[..k], p[k..], at);
      PayloadFeed(o, p[..k], at);
    }
  }

  /** A line does not look at the buffer it was cut from. */
  lemma LineCommutes(o: State, raw: seq<byte>, rest: seq<byte>, at: int)
    ensures ClientLine(o.(clientLines := rest), raw, at) ==
            ClientLine(o.(clientLines := []), raw, at).(clientLines := rest)
  {
    var words := Words(Chars(TrimEnd(raw)));
    if !o.flags.inData && words != [] {
      var verb := SmtpBehavior.CanonicalVerb(words[0]);
      var tracked := o.(behavior := SmtpBehavior.Track(o.behavior, raw, verb, o.flags.greeted, at));
      EnqueueCommutes(tracked, verb, words, rest);
    }
  }

  lemma EnqueueCommutes(o: State, verb: string, words: seq<string>, rest: seq<byte>)
    ensures Enqueue(o.(clientLines := rest), verb, words) ==
            Enqueue(o.(clientLines := []), verb, words).(clientLines := rest)
  {
    PayloadCommutes(o.(commands := o.commands + [verb]), PayloadSize(words), rest);
  }

  lemma PayloadCommutes(o: State, size: Option<int>, rest: seq<byte>)
    ensures ExpectPayload(o.(clientLines := rest), size) ==
            ExpectPayload(o.(clientLines := []), size).(clientLines := rest)
  {
  }

  lemma LineFeed(o: State, line: seq<byte>, at: int)
    requires Reading(o) && o.bdatRemaining <= 0 && LF !in line && |o.clientLines| + |line| < MAX_LINES
    requires Smooth(o, line + [LF], at)
    ensures FeedClient(o, line + [LF], at) == ClientLine(o.(clientLines := []), o.clientLines + line + [LF], at)
  {
    FeedSplits(o, line, [LF], at);
    PartFeed(o, line, at);
    var r := o.(clientLines := o.clientLines + line);
    assert [LF][1..] == [];
    assert FeedClient(r, [LF], at) == ClientByte(r, LF, at);
  }

  lemma LoopWithinPayload(o: State, p: seq<byte>, at: int)
    requires Reading(o) && o.clientLines == [] && o.bdatRemaining > |p|
    ensures ClientLoop(o.(clientLines := o.clientLines + p), at) == FeedClient(o, p, at)
  {
    LoopOnPayload(o.(clientLines := o.clientLines + p), at);
    PayloadFeed(o, p, at);
  }

  lemma LoopOnUnended(o: State, p: seq<byte>, at: int)
    requires Reading(o) && LF !in o.clientLines && LF !in p && o.bdatRemaining <= 0 && Room(o, p) && Smooth(o, p, at)
    ensures ClientLoop(o.(clientLines := o.clientLines + p), at) == FeedClient(o, p, at)
  {
    PartFeed(o, p, at);
    LoopOnPart(o.(clientLines := o.clientLines + p), at);
  }

  /** The loop over the buffer is the same as feeding its new bytes one by one. */
  lemma {:induction false} LoopIsFeed(o: State, p: seq<byte>, at: int)
    requires Reading(o) && LF !in o.clientLines && Room(o, p)
    requires o.bdatRemaining > 0 ==> o.clientLines == []
    requires Smooth(o, p, at)
    ensures Forget(ClientLoop(o.(clientLines := o.clientLines + p), at)) == Forget(FeedClient(o, p, at))
    decreases |p|
  {
    if o.bdatRemaining > |p| {
      LoopWithinPayload(o, p, at);
    } else if o.bdatRemaining > 0 {
      LoopAfterPayload(o, p, at);
      LoopIsFeed(o.(bdatRemaining := 0), p[o.bdatRemaining..], at);
    } else if LF !in p {
      LoopOnUnended(o, p, at);
    } else {
      var r := LoopAfterLine(o, p, at);
      var rest := p[IndexOf(p, LF) + 1..];
      if r.flags.disabled {
        StoppedFeed(r, rest, at);
      } else {
        LoopIsFeed(r, rest, at);
      }
    }
  }

  /** The loop and the bytes agree on the payload that ends in `p`. */
  lemma LoopAfterPayload(o: State, p: seq<byte>, at: int)
    requires Reading(o) && o.clientLines == [] && 0 < o.bdatRemaining <= |p|
    requires Smooth(o, p, at)
    ensures var r, rest := o.(bdatRemaining := 0), p[o.bdatRemaining..];
            && ClientLoop(o.(clientLines := o.clientLines + p), at) ==
               ClientLoop(r.(clientLines := r.clientLines + rest), at)
            && FeedClient(o, p, at) == FeedClient(r, rest, at)
            && Smooth(r, rest, at)
  {
    var k := o.bdatRemaining;
    assert o.clientLines + p == p && o.clientLines + p[k..] == p[k..];
    LoopOnPayload(o.(clientLines := p), at);
    PayloadPasses(o, p, at);
  }

  lemma LineAndRest(p: seq<byte>, i: nat)
    requires i < |p| && p[i] == LF
    ensures p == p[..i] + [LF] + p[i + 1..]
  {
  }

  /** The loop and the bytes agree on the first line that `p` completes. */
  lemma LoopAfterLine(o: State, p: seq<byte>, at: int) returns (r: State)
    requires Reading(o) && LF !in o.clientLines && |o.clientLines| + |p| <= MAX_LINES
    requires o.bdatRemaining <= 0 && LF in p
    requires Smooth(o, p, at)
    ensures r.clientLines == [] && !r.flags.tlsArmed && !r.flags.fingerprinted
    ensures var i := IndexOf(p, LF);
            && i >= 0
            && var rest := p[i + 1..];
               var s := r.(clientLines := r.clientLines + rest);
               && ClientLoop(o.(clientLines := o.clientLines + p), at) ==
                  (if r.flags.disabled then s else ClientLoop(s, at))
               && FeedClient(o, p, at) == FeedClient(r, rest, at)
               && Smooth(r, rest, at)
  {
    var i := IndexOf(p, LF);
    LineAndRest(p, i);
    r := LoopAfterCut(o, p[..i], p[i + 1..], at);
  }

  lemma LoopAfterCut(o: State, line: seq<byte>, rest: seq<byte>, at: int) returns (r: State)
    requires Reading(o) && LF !in o.clientLines && LF !in line
    requires |o.clientLines| + |line| + 1 + |rest| <= MAX_LINES && o.bdatRemaining <= 0
    requires Smooth(o, line + [LF] + rest, at)
    ensures r.clientLines == [] && !r.flags.tlsArmed && !r.flags.fingerprinted
    ensures var s := r.(clientLines := r.clientLines + rest);
            ClientLoop(o.(clientLines := o.clientLines + (line + [LF] + rest)), at) ==
            if r.flags.disabled then s else ClientLoop(s, at)
    ensures FeedClient(o, line + [LF] + rest, at) == FeedClient(r, rest, at) && Smooth(r, rest, at)
  {
    r := FeedAfterLine(o, line, rest, at);
    PlusNothing(rest);
    LoopOnGrownLine(o, line, rest, at);
  }

  lemma FeedAfterLine(o: State, line: seq<byte>, rest: seq<byte>, at: int) returns (r: State)
    requires Reading(o) && o.bdatRemaining <= 0 && LF !in line && |o.clientLines| + |line| < MAX_LINES
    requires Smooth(o, line + [LF] + rest, at)
    ensures r == ClientLine(o.(clientLines := []), o.clientLines + line + [LF], at)
    ensures r.clientLines == [] && !r.flags.tlsArmed && !r.flags.fingerprinted
    ensures FeedClient(o, line + [LF] + rest, at) == FeedClient(r, rest, at) && Smooth(r, rest, at)
  {
    r := ClientLine(o.(clientLines := []), o.clientLines + line + [LF], at);
    FeedSplits(o, line + [LF], rest, at);
    LineFeed(o, line, at);
    ClientLineFrame(o.(clientLines := []), o.clientLines + line + [LF], at);
  }

  lemma LoopOnGrownLine(o: State, line: seq<byte>, rest: seq<byte>, at: int)
    requires o.bdatRemaining <= 0 && LF !in o.clientLines && LF !in line
    requires |o.clientLines| + |line| + 1 + |rest| <= MAX_LINES
    ensures var r := ClientLine(o.(clientLines := []), o.clientLines + line + [LF], at).(clientLines := rest);
            ClientLoop(o.(clientLines := o.clientLines + (line + [LF] + rest)), at) ==
            if r.flags.disabled then r else ClientLoop(r, at)
  {
    LineCommutes(o, o.clientLines + line + [LF], rest, at);
    Associative(line, [LF], rest);
    Regroup(o.clientLines, line, [LF], rest);
    LoopOnLine(o.(clientLines := o.clientLines + (line + [LF] + rest)), o.clientLines + line, rest, at);
  }

  /** After the accepted STARTTLS, too: the reassembler's answers do not depend on the cuts. */
  lemma {:induction false} TLSIsFeed(o: State, p: seq<byte>, at: int)
    requires o.flags.tlsArmed && !o.flags.disabled && !o.flags.fingerprinted
    requires Records.FromBytes(o.tlsBytes).Incomplete?
    requires |o.tlsBytes| + |p| <= MAX_CLIENT_HELLO
    ensures Forget(ObserveTLS(o, p, at)) == Forget(FeedClient(o, p, at))
    decreases |p|
  {
    if p == [] {
      assert o.tlsBytes + p == o.tlsBytes;
    } else {
      var one := o.tlsBytes + [p[0]];
      assert one + p[1..] == o.tlsBytes + p;
      if Records.FromBytes(one).Incomplete? {
        TLSWaits(o, p, one, at);
        TLSIsFeed(o.(tlsBytes := one), p[1..], at);
      } else {
        TLSAnswers(o, p, one, at);
      }
    }
  }

  /** A byte that leaves the ClientHello incomplete is only kept. */
  lemma TLSWaits(o: State, p: seq<byte>, one: seq<byte>, at: int)
    requires o.flags.tlsArmed && !o.flags.disabled && !o.flags.fingerprinted && p != []
    requires one == o.tlsBytes + [p[0]] && one + p[1..] == o.tlsBytes + p && |one| <= MAX_CLIENT_HELLO
    requires Records.FromBytes(one).Incomplete?
    ensures ObserveTLS(o, p, at) == ObserveTLS(o.(tlsBytes := one), p[1..], at)
    ensures FeedClient(o, p, at) == FeedClient(o.(tlsBytes := one), p[1..], at)
  {
    assert ClientByte(o, p[0], at) == o.(tlsBytes := one);
  }

  /** The byte that completes or spoils it settles the rest of the chunk. */
  lemma TLSAnswers(o: State, p: seq<byte>, one: seq<byte>, at: int)
    requires o.flags.tlsArmed && !o.flags.disabled && !o.flags.fingerprinted && p != []
    requires one == o.tlsBytes + [p[0]] && one + p[1..] == o.tlsBytes + p && |one + p[1..]| <= MAX_CLIENT_HELLO
    requires !Records.FromBytes(one).Incomplete?
    ensures Forget(ObserveTLS(o, p, at)) == Forget(FeedClient(o, p, at))
  {
    var assembly := Records.FromBytes(one);
    Records.AnswerIsStable(one, p[1..]);
    var r := Settle(o.(tlsBytes := one), assembly, at);
    assert ClientByte(o, p[0], at) == r;
    StoppedFeed(r, p[1..], at);
    SettleForgets(o, one, one + p[1..], assembly, at);
  }

  lemma SettleForgets(o: State, a: seq<byte>, b: seq<byte>, assembly: Records.Assembly, at: int)
    requires !assembly.Incomplete?
    ensures Forget(Settle(o.(tlsBytes := a), assembly, at)) == Forget(Settle(o.(tlsBytes := b), assembly, at))
  {
    if assembly.Assembled? {
      ConcludeForgets(o, a, b, ClientHello.Parse(assembly.buffer), at);
    }
  }

  lemma ConcludeForgets(o: State, a: seq<byte>, b: seq<byte>, result: ClientHello.ParseResult, at: int)
    ensures Forget(Conclude(o.(tlsBytes := a), result, at)) == Forget(Conclude(o.(tlsBytes := b), result, at))
  {
    if result.Ok? {
      AnnounceForgets(o, a, b, HelloEvent(o.base, result.value, at));
    }
  }

  lemma AnnounceForgets(o: State, a: seq<byte>, b: seq<byte>, e: SmtpEvent.Event)
    ensures Forget(Fingerprinted(o.(tlsBytes := a), e)) == Forget(Fingerprinted(o.(tlsBytes := b), e))
  {
  }

  /** A handshake byte that hides where a command could start ends the reference machine. */
  lemma {:induction false} HiddenHandshakeStops(o: State, p: seq<byte>, at: int)
    requires !Smooth(o, p, at)
    ensures FeedClient(o, p, at).flags.premature
    decreases |p|
  {
    if p[0] == HANDSHAKE && Boundary(o) {
      StoppedFeed(ClientByte(o, p[0], at), p[1..], at);
    } else {
      HiddenHandshakeStops(ClientByte(o, p[0], at), p[1..], at);
    }
  }

  lemma {:induction false} ArmedIsSmooth(o: State, p: seq<byte>, at: int)
    requires o.flags.tlsArmed
    ensures Smooth(o, p, at)
    decreases |p|
  {
    if p != [] {
      ArmedIsSmooth(ClientByte(o, p[0], at), p[1..], at);
    }
  }

  /** What client lines and bytes can do to the commands: something other than waiting or stopping adds one. */
  predicate AddsCommands(o: State, r: State) {
    && (Unmoved(o, r) || r.flags.disabled || |r.commands| > |o.commands|) && |r.commands| >= |o.commands|
    && !r.flags.tlsArmed && !r.flags.fingerprinted && r.tlsBytes == o.tlsBytes
  }

  lemma LineAddsCommands(o: State, raw: seq<byte>, at: int)
    requires Reading(o)
    ensures AddsCommands(o, ClientLine(o, raw, at))
  {
    if !o.flags.inData {
      var words := Words(Chars(TrimEnd(raw)));
      if words != [] {
        var verb := SmtpBehavior.CanonicalVerb(words[0]);
        var tracked := o.(behavior := SmtpBehavior.Track(o.behavior, raw, verb, o.flags.greeted, at));
        EnqueueAddsCommands(tracked, verb, words);
      }
    }
  }

  lemma EnqueueAddsCommands(o: State, verb: string, words: seq<string>)
    ensures var r := Enqueue(o, verb, words);
            |r.commands| >= |o.commands| && (r.flags.disabled || |r.commands| > |o.commands|)
  {
  }

  lemma ByteAddsCommands(o: State, b: byte, at: int)
    requires Reading(o) && o.bdatRemaining <= 0
    ensures AddsCommands(o, ClientByte(o, b, at))
  {
    if |o.clientLines| != MAX_LINES && b == LF {
      var r := LineByte(o, at);
      assert AddsCommands(o, r);
    } else {
      assert ClientByte(o, b, at).commands == o.commands;
    }
  }

  lemma LineByte(o: State, at: int) returns (r: State)
    requires Reading(o) && o.bdatRemaining <= 0 && |o.clientLines| != MAX_LINES
    ensures r == ClientByte(o, LF, at) && AddsCommands(o.(clientLines := []), r)
  {
    r := ClientLine(o.(clientLines := []), o.clientLines + [LF], at);
    LineAddsCommands(o.(clientLines := []), o.clientLines + [LF], at);
  }

  /** Client bytes never take a command off the queue. */
  lemma {:induction false} FeedKeepsCommands(o: State, p: seq<byte>, at: int)
    requires !o.flags.tlsArmed
    ensures |FeedClient(o, p, at).commands| >= |o.commands|
    decreases |p|
  {
    if o.flags.disabled || o.flags.fingerprinted {
      StoppedFeed(o, p, at);
    } else if p != [] {
      var next := NextState(o, p[0], at);
      FeedKeepsCommands(next, p[1..], at);
    }
  }

  lemma NextState(o: State, b: byte, at: int) returns (next: State)
    requires Reading(o)
    ensures next == ClientByte(o, b, at) && !next.flags.tlsArmed && |next.commands| >= |o.commands|
  {
    next := ClientByte(o, b, at);
    if o.bdatRemaining <= 0 {
      ByteAddsCommands(o, b, at);
    } else {
      assert !AtBoundary(o);
    }
  }

  /** Bytes that drown end the reference machine as it was, and no others do. */
  lemma {:induction false} DrownsMeans(o: State, p: seq<byte>, at: int)
    requires Reading(o) && o.bdatRemaining <= 0
    ensures Drowns(o, p, at) <==>
            Forget(FeedClient(o, p, at)) == Forget(o.(flags := o.flags.(disabled := true)))
    decreases |p|
  {
    if p != [] {
      var next := ClientByte(o, p[0], at);
      ByteAddsCommands(o, p[0], at);
      if next.flags.disabled {
        StoppedFeed(next, p[1..], at);
      } else if Unmoved(o, next) {
        DrownsMeans(next, p[1..], at);
      } else {
        FeedKeepsCommands(next, p[1..], at);
      }
    }
  }

  /** A chunk that does not fit the line buffer. */
  lemma OversizedChunk(o: State, p: seq<byte>, at: int)
    requires Valid(o) && Reading(o) && !Room(o, p) && !(AtBoundary(o) && p[0] == HANDSHAKE)
    ensures Forget(Client(o, p, at)) == Forget(FeedClient(o, p, at)) <==>
            Drowns(PastPayload(o), Remainder(o, p), at)
  {
    var full, r := o.(clientLines := o.clientLines + p), PastPayload(o);
    if o.bdatRemaining > 0 {
      LoopOnPayload(full, at);
    }
    PayloadPasses(o, p, at);
    DrownsMeans(r, p[Payload(o)..], at);
    assert Forget(ClientLoop(full, at)) == Forget(r.(flags := r.flags.(disabled := true)));
  }

  /** A line that is too long is one such chunk: without a line feed in time both ways stop, and alike. */
  lemma {:induction false} LongLineDrowns(o: State, p: seq<byte>, at: int)
    requires Reading(o) && o.bdatRemaining <= 0 && |o.clientLines| <= MAX_LINES < |o.clientLines| + |p|
    requires LF !in p[..MAX_LINES - |o.clientLines|]
    requires !(AtBoundary(o) && p[0] == HANDSHAKE)
    ensures Drowns(o, p, at)
    decreases |p|
  {
    if |o.clientLines| < MAX_LINES {
      assert p[..MAX_LINES - |o.clientLines|][0] == p[0];
      var next := o.(clientLines := o.clientLines + [p[0]]);
      assert ClientByte(o, p[0], at) == next;
      assert p[1..][..MAX_LINES - |next.clientLines|] == p[..MAX_LINES - |o.clientLines|][1..];
      LongLineDrowns(next, p[1..], at);
    }
  }

  /** Without a line feed in time both ways stop the observer, and alike. */
  lemma LongLineStopsBoth(o: State, p: seq<byte>, at: int)
    requires Valid(o) && Reading(o) && o.bdatRemaining <= 0 && MAX_LINES < |o.clientLines| + |p|
    requires LF !in p[..MAX_LINES - |o.clientLines|]
    ensures Client(o, p, at).flags.disabled
    ensures Forget(Client(o, p, at)) == Forget(FeedClient(o, p, at))
  {
    if AtBoundary(o) && p[0] == HANDSHAKE {
      StoppedFeed(ClientByte(o, p[0], at), p[1..], at);
    } else {
      assert Remainder(o, p) == p;
      LongLineDrowns(o, p, at);
      OversizedChunk(o, p, at);
    }
  }

  /** TLS bytes over the cap: byte by byte, a ClientHello that is whole before the cap is still reported. */
  lemma OversizedHello(o: State, p: seq<byte>, at: int)
    requires o.flags.tlsArmed && !o.flags.disabled && !o.flags.fingerprinted
    requires Records.FromBytes(o.tlsBytes).Incomplete?
    requires |o.tlsBytes| <= MAX_CLIENT_HELLO < |o.tlsBytes| + |p|
    ensures Forget(Client(o, p, at)) == Forget(FeedClient(o, p, at)) <==>
            !HoldsHello((o.tlsBytes + p)[..MAX_CLIENT_HELLO])
  {
    var k := MAX_CLIENT_HELLO - |o.tlsBytes|;
    var a, b := p[..k], p[k..];
    CutAt(p, k);
    assert (o.tlsBytes + p)[..MAX_CLIENT_HELLO] == o.tlsBytes + a;
    FeedSplits(o, a, b, at);
    TLSIsFeed(o, a, at);
    FullHello(o, o.tlsBytes + a, at);
    OverflowStops(FeedClient(o, a, at), o, o.tlsBytes + a, b, at);
  }

  /** The byte after a full buffer stops an observer that still waits. */
  lemma OverflowStops(r: State, o: State, full: seq<byte>, b: seq<byte>, at: int)
    requires b != [] && |full| == MAX_CLIENT_HELLO && o.flags.tlsArmed && !o.flags.disabled && !o.flags.fingerprinted
    requires Forget(r) == Forget(Settle(o.(tlsBytes := full), Records.FromBytes(full), at))
    requires !HoldsHello(full) ==>
             Forget(r) == Forget(o.(tlsBytes := full, flags := o.flags.(disabled := r.flags.disabled)))
    requires r.flags.fingerprinted == HoldsHello(full)
    ensures HoldsHello(full) ==> FeedClient(r, b, at).flags.fingerprinted
    ensures !HoldsHello(full) ==> Forget(FeedClient(r, b, at)) == Forget(o.(flags := o.flags.(disabled := true)))
  {
    if r.flags.disabled || r.flags.fingerprinted {
      StoppedFeed(r, b, at);
    } else {
      StoppedFeed(ClientByte(r, b[0], at), b[1..], at);
    }
  }

  /** What the reassembler and the parser make of the bytes. */
  lemma FullHello(o: State, bytes: seq<byte>, at: int)
    requires !o.flags.disabled && !o.flags.fingerprinted
    ensures var r := Settle(o.(tlsBytes := bytes), Records.FromBytes(bytes), at);
            && (HoldsHello(bytes) <==> r.flags.fingerprinted)
            && (!HoldsHello(bytes) ==> r == o.(tlsBytes := bytes, flags := o.flags.(disabled := r.flags.disabled)))
  {
  }

  /** A client chunk works exactly like its bytes one by one if and only if it fits the buffers and does not hide the
      start of a TLS handshake, or does not fit and holds nothing before the buffer overflows. */
  lemma ClientChunkIsBytes(o: State, p: seq<byte>, at: int)
    requires Valid(o)
    ensures Forget(Client(o, p, at)) == Forget(FeedClient(o, p, at)) <==> Alike(o, p, at)
  {
    if o.flags.fingerprinted || o.flags.disabled {
      StoppedFeed(o, p, at);
    } else if o.flags.tlsArmed {
      if |o.tlsBytes| + |p| <= MAX_CLIENT_HELLO {
        TLSIsFeed(o, p, at);
      } else {
        OversizedHello(o, p, at);
      }
    } else if AtBoundary(o) && p != [] && p[0] == HANDSHAKE {
      StoppedFeed(ClientByte(o, p[0], at), p[1..], at);
    } else if Room(o, p) {
      FittingChunk(o, p, at);
    } else {
      OversizedChunk(o, p, at);
    }
  }

  lemma FittingChunk(o: State, p: seq<byte>, at: int)
    requires Valid(o) && Reading(o) && Room(o, p) && !(AtBoundary(o) && p != [] && p[0] == HANDSHAKE)
    ensures Forget(Client(o, p, at)) == Forget(FeedClient(o, p, at)) <==> !HidesHandshake(o, p, at)
  {
    if HidesHandshake(o, p, at) {
      assert !Smooth(o, p, at);
      HiddenHandshakeStops(o, p, at);
      LoopIsNeverPremature(o.(clientLines := o.clientLines + p), at);
    } else {
      LoopIsFeed(o, p, at);
    }
  }

  /** A client that sends an empty line and a TLS record in one chunk is missed. */
  lemma HiddenHandshake(instance: string, base: SmtpEvent.Event, at: int)
    ensures HidesHandshake(Fresh(instance, base), [LF, HANDSHAKE], at)
    ensures Forget(Client(Fresh(instance, base), [LF, HANDSHAKE], at)) !=
            Forget(FeedClient(Fresh(instance, base), [LF, HANDSHAKE], at))
  {
    var o, p: seq<byte> := Fresh(instance, base), [LF, HANDSHAKE];
    FreshIsValid(instance, base);
    assert TrimEnd([LF]) == [] && Words("") == [];
    assert p[1..] == [HANDSHAKE];
    assert ClientByte(o, LF, at) == ClientLine(o, [LF], at) == o;
    ClientChunkIsBytes(o, p, at);
  }

  lemma {:induction false} LoopIsNeverPremature(o: State, at: int)
    ensures ClientLoop(o, at).flags.premature == o.flags.premature
    decreases |o.clientLines|, o.bdatRemaining > 0
  {
    if o.bdatRemaining > 0 {
      LoopOnPayload(o, at);
      if o.bdatRemaining <= |o.clientLines| {
        LoopIsNeverPremature(o.(clientLines := o.clientLines[o.bdatRemaining..], bdatRemaining := 0), at);
      }
    } else if |o.clientLines| <= MAX_LINES && LF in o.clientLines {
      var i := IndexOf(o.clientLines, LF);
      var line, rest := o.clientLines[..i], o.clientLines[i + 1..];
      LoopOnLine(o, line, rest, at);
      ClientLineFrame(o.(clientLines := rest), line + [LF], at);
      var r := ClientLine(o.(clientLines := rest), line + [LF], at);
      if !r.flags.disabled {
        LoopIsNeverPremature(r, at);
      }
    }
  }

  // ---------------------------------------------------------------------
  // The server's side.

  lemma {:induction false} DeafFeed(o: State, p: seq<byte>, at: int)
    requires !Reading(o)
    ensures FeedServer(o, p, at) == o
    decreases |p|
  {
    if p != [] {
      DeafFeed(o, p[1..], at);
    }
  }

  lemma {:induction false} ServerPartFeed(o: State, p: seq<byte>, rest: seq<byte>, at: int)
    requires Reading(o) && LF !in p && |o.serverLines| + |p| <= MAX_LINES
    ensures FeedServer(o, p + rest, at) == FeedServer(o.(serverLines := o.serverLines + p), rest, at)
    decreases |p|
  {
    if p == [] {
      assert p + rest == rest && o.serverLines + p == o.serverLines;
    } else {
      assert (p + rest)[0] == p[0] && (p + rest)[1..] == p[1..] + rest;
      ServerPartFeed(o.(serverLines := o.serverLines + [p[0]]), p[1..], rest, at);
      assert o.serverLines + [p[0]] + p[1..] == o.serverLines + p;
    }
  }

  /** The bytes of a line, one by one, and the loop on the line come to the same reply. */
  lemma ServerLineFeeds(o: State, line: seq<byte>, rest: seq<byte>, at: int)
    requires Reading(o) && LF !in o.serverLines && LF !in line && |o.serverLines| + |line| < MAX_LINES
    ensures FeedServer(o, line + ([LF] + rest), at) ==
            FeedServer(ServerLine(o.(serverLines := []), TrimEnd(o.serverLines + line + [LF]), at), rest, at)
  {
    ServerPartFeed(o, line, [LF] + rest, at);
    assert ([LF] + rest)[1..] == rest;
  }

  lemma ServerLineLoops(o: State, line: seq<byte>, rest: seq<byte>, at: int)
    requires Reading(o) && LF !in o.serverLines && LF !in line
    ensures var r := ServerLine(o.(serverLines := []), TrimEnd(o.serverLines + line + [LF]), at);
            ServerLoop(o.(serverLines := o.serverLines + line + [LF] + rest), at) ==
            if r.flags.tlsArmed then r else ServerLoop(r.(serverLines := rest), at)
  {
    var full := o.(serverLines := o.serverLines + line + [LF] + rest);
    ServerOnLine(full, o.serverLines + line, rest, at);
    ReplyCommutes(o, TrimEnd(o.serverLines + line + [LF]), rest, at);
  }

  lemma CutLine(p: seq<byte>, i: nat)
    requires i < |p| && p[i] == LF
    ensures p == p[..i] + ([LF] + p[i + 1..])
  {
  }

  /** The first line of a chunk, in both ways of working. */
  lemma FirstServerLine(o: State, p: seq<byte>, i: nat, at: int)
    requires Reading(o) && LF !in o.serverLines && |o.serverLines| + |p| <= MAX_LINES
    requires i < |p| && p[i] == LF && LF !in p[..i]
    ensures var r := ServerLine(o.(serverLines := []), TrimEnd(o.serverLines + p[..i] + [LF]), at);
            && r.serverLines == [] && (r.flags.tlsArmed || Reading(r))
            && FeedServer(o, p, at) == FeedServer(r, p[i + 1..], at)
            && ServerLoop(o.(serverLines := o.serverLines + p), at) ==
                 if r.flags.tlsArmed then r else ServerLoop(r.(serverLines := p[i + 1..]), at)
  {
    var line, rest := p[..i], p[i + 1..];
    CutLine(p, i);
    FirstServerLineFeeds(o, p, line, rest, at);
    FirstServerLineLoops(o, p, line, rest, at);
    ReplyCommutes(o, TrimEnd(o.serverLines + line + [LF]), [], at);
  }

  lemma FirstServerLineFeeds(o: State, p: seq<byte>, line: seq<byte>, rest: seq<byte>, at: int)
    requires Reading(o) && LF !in o.serverLines && LF !in line && |o.serverLines| + |line| < MAX_LINES
    requires p == line + ([LF] + rest)
    ensures FeedServer(o, p, at) ==
            FeedServer(ServerLine(o.(serverLines := []), TrimEnd(o.serverLines + line + [LF]), at), rest, at)
  {
    ServerLineFeeds(o, line, rest, at);
  }

  lemma FirstServerLineLoops(o: State, p: seq<byte>, line: seq<byte>, rest: seq<byte>, at: int)
    requires Reading(o) && LF !in o.serverLines && LF !in line && p == line + ([LF] + rest)
    ensures var r := ServerLine(o.(serverLines := []), TrimEnd(o.serverLines + line + [LF]), at);
            ServerLoop(o.(serverLines := o.serverLines + p), at) ==
            if r.flags.tlsArmed then r else ServerLoop(r.(serverLines := rest), at)
  {
    Regroup(o.serverLines, line, [LF], rest);
    ServerLineLoops(o, line, rest, at);
  }

  lemma {:induction false} ServerLoopIsFeed(o: State, p: seq<byte>, at: int)
    requires Reading(o) && LF !in o.serverLines && |o.serverLines| + |p| <= MAX_LINES
    ensures ServerLoop(o.(serverLines := o.serverLines + p), at) == FeedServer(o, p, at)
    decreases |p|
  {
    if LF !in p {
      assert p + [] == p;
      ServerPartFeed(o, p, [], at);
      ServerOnPart(o.(serverLines := o.serverLines + p), at);
    } else {
      var i := IndexOf(p, LF);
      var r := ServerLine(o.(serverLines := []), TrimEnd(o.serverLines + p[..i] + [LF]), at);
      FirstServerLine(o, p, i, at);
      if r.flags.tlsArmed {
        DeafFeed(r, p[i + 1..], at);
      } else {
        ServerLoopIsFeed(r, p[i + 1..], at);
        assert [] + p[i + 1..] == p[i + 1..];
      }
    }
  }

  /** What server bytes can do: something other than waiting or stopping is the greeting or takes a command. */
  predicate TakesCommands(o: State, r: State) {
    && (ServerUnmoved(o, r) || (r.flags.greeted && !o.flags.greeted) || |r.commands| < |o.commands|)
    && |r.commands| <= |o.commands| && (o.flags.greeted ==> r.flags.greeted)
  }

  lemma LineTakesCommands(o: State, line: seq<byte>, at: int)
    requires Reading(o)
    ensures TakesCommands(o, ServerLine(o, line, at))
  {
  }

  lemma ByteTakesCommands(o: State, b: byte, at: int)
    ensures TakesCommands(o, ServerByte(o, b, at))
  {
    if Reading(o) {
      LineTakesCommands(o.(serverLines := []), TrimEnd(o.serverLines + [LF]), at);
    }
  }

  /** Server bytes never add a command, and never take the greeting back. */
  lemma {:induction false} FeedTakesCommands(o: State, p: seq<byte>, at: int)
    ensures var r := FeedServer(o, p, at);
            |r.commands| <= |o.commands| && (o.flags.greeted ==> r.flags.greeted)
    decreases |p|
  {
    if p != [] {
      ByteTakesCommands(o, p[0], at);
      FeedTakesCommands(ServerByte(o, p[0], at), p[1..], at);
    }
  }

  lemma {:induction false} ServerDrownsMeans(o: State, p: seq<byte>, at: int)
    requires Reading(o)
    ensures ServerDrowns(o, p, at) <==>
            Forget(FeedServer(o, p, at)) == Forget(o.(flags := o.flags.(disabled := true)))
    decreases |p|
  {
    if p != [] {
      var next := ServerByte(o, p[0], at);
      ByteTakesCommands(o, p[0], at);
      if !Reading(next) {
        DeafFeed(next, p[1..], at);
      } else if ServerUnmoved(o, next) {
        ServerDrownsMeans(next, p[1..], at);
      } else {
        FeedTakesCommands(next, p[1..], at);
      }
    }
  }

  /** A server chunk works like its bytes one by one if and only if it fits the buffer, or holds no reply that counts
      before the buffer overflows; if it fits, the buffers are the same, too. */
  lemma ServerChunkIsBytes(o: State, p: seq<byte>, at: int)
    requires Valid(o)
    ensures Forget(Server(o, p, at)) == Forget(FeedServer(o, p, at)) <==> ServerAlike(o, p, at)
    ensures |o.serverLines| + |p| <= MAX_LINES ==> Server(o, p, at) == FeedServer(o, p, at)
  {
    if !Reading(o) {
      DeafFeed(o, p, at);
    } else if |o.serverLines| + |p| <= MAX_LINES {
      ServerLoopIsFeed(o, p, at);
    } else {
      ServerDrownsMeans(o, p, at);
    }
  }

  // ---------------------------------------------------------------------
  // Whole runs.

  datatype Input =
    | FromClient(bytes: seq<byte>, at: int)
    | FromServer(bytes: seq<byte>, at: int)

  function Step(o: State, i: Input): State {
    match i
    case FromClient(bytes, at) => Client(o, bytes, at)
    case FromServer(bytes, at) => Server(o, bytes, at)
  }

  function Run(o: State, inputs: seq<Input>): State
    decreases |inputs|
  {
    if inputs == [] then o else Run(Step(o, inputs[0]), inputs[1..])
  }

  lemma {:induction false} RunJoins(o: State, a: seq<Input>, b: seq<Input>)
    ensures Run(o, a + b) == Run(Run(o, a), b)
    decreases |a|
  {
    if a == [] {
      assert a + b == b;
    } else {
      assert (a + b)[0] == a[0] && (a + b)[1..] == a[1..] + b;
      RunJoins(Step(o, a[0]), a[1..], b);
    }
  }

  lemma RunNext(o: State, inputs: seq<Input>, n: nat)
    requires n < |inputs|
    ensures Run(o, inputs[..n + 1]) == Step(Run(o, inputs[..n]), inputs[n])
  {
    PrefixNext(inputs, n);
    RunJoins(o, inputs[..n], [inputs[n]]);
    OneInput(Run(o, inputs[..n]), inputs[n]);
  }

  lemma OneInput(o: State, i: Input)
    ensures Run(o, [i]) == Step(o, i)
  {
    assert [i][1..] == [];
  }

  datatype Arrival = Arrival(fromClient: bool, b: byte, at: int)

  function Arrive(o: State, a: Arrival): State {
    if a.fromClient then ClientByte(o, a.b, a.at) else ServerByte(o, a.b, a.at)
  }

  function RunBytes(o: State, arrivals: seq<Arrival>): State
    decreases |arrivals|
  {
    if arrivals == [] then o else RunBytes(Arrive(o, arrivals[0]), arrivals[1..])
  }

  /** The bytes of an input, each with its side and its time. */
  function Arrivals(i: Input): seq<Arrival> {
    seq(|i.bytes|, k requires 0 <= k < |i.bytes| => Arrival(i.FromClient?, i.bytes[k], i.at))
  }

  function Flatten(inputs: seq<Input>): seq<Arrival> {
    if inputs == [] then [] else Arrivals(inputs[0]) + Flatten(inputs[1..])
  }

  /** The chunk works like its bytes one by one. */
  predicate Clean(o: State, i: Input) {
    match i
    case FromClient(p, at) => Alike(o, p, at)
    case FromServer(p, at) => ServerAlike(o, p, at)
  }

  /** Every chunk of a run is clean when it arrives. */
  predicate CleanRun(o: State, inputs: seq<Input>)
    decreases |inputs|
  {
    inputs == [] || (Clean(o, inputs[0]) && CleanRun(Step(o, inputs[0]), inputs[1..]))
  }

  lemma {:induction false} RunBytesSplits(o: State, a: seq<Arrival>, b: seq<Arrival>)
    ensures RunBytes(o, a + b) == RunBytes(RunBytes(o, a), b)
    decreases |a|
  {
    if a == [] {
      assert a + b == b;
    } else {
      assert (a + b)[0] == a[0] && (a + b)[1..] == a[1..] + b;
      RunBytesSplits(Arrive(o, a[0]), a[1..], b);
    }
  }

  lemma {:induction false} InputIsArrivals(o: State, i: Input)
    ensures RunBytes(o, Arrivals(i)) ==
            if i.FromClient? then FeedClient(o, i.bytes, i.at) else FeedServer(o, i.bytes, i.at)
    decreases |i.bytes|
  {
    if i.bytes != [] {
      var tail := if i.FromClient? then FromClient(i.bytes[1..], i.at) else FromServer(i.bytes[1..], i.at);
      assert Arrivals(i)[1..] == Arrivals(tail);
      InputIsArrivals(Arrive(o, Arrivals(i)[0]), tail);
    }
  }

  /** States that differ in forgotten buffers only stay that way. */
  lemma {:induction false} ForgetIsCongruent(o: State, r: State, arrivals: seq<Arrival>)
    requires Forget(o) == Forget(r)
    ensures Forget(RunBytes(o, arrivals)) == Forget(RunBytes(r, arrivals))
    decreases |arrivals|
  {
    if arrivals != [] && o != r {
      assert (o.flags.disabled || o.flags.fingerprinted) && (r.flags.disabled || r.flags.fingerprinted);
      ForgetIsCongruent(Arrive(o, arrivals[0]), Arrive(r, arrivals[0]), arrivals[1..]);
    }
  }

  lemma StepKeepsValid(o: State, i: Input)
    requires Valid(o)
    ensures Valid(Step(o, i))
  {
    match i {
      case FromClient(p, at) => ClientKeepsValid(o, p, at);
      case FromServer(p, at) => ServerKeepsValid(o, p, at);
    }
  }

  lemma StepIsArrivals(o: State, i: Input)
    requires Valid(o)
    ensures Forget(Step(o, i)) == Forget(RunBytes(o, Arrivals(i))) <==> Clean(o, i)
  {
    InputIsArrivals(o, i);
    match i {
      case FromClient(p, at) => ClientChunkIsBytes(o, p, at);
      case FromServer(p, at) => ServerChunkIsBytes(o, p, at);
    }
  }

  /** A run over clean chunks ends like the run over its bytes. */
  lemma {:induction false} RunIsBytes(o: State, inputs: seq<Input>)
    requires Valid(o) && CleanRun(o, inputs)
    ensures Forget(Run(o, inputs)) == Forget(RunBytes(o, Flatten(inputs)))
    decreases |inputs|
  {
    if inputs != [] {
      StepKeepsValid(o, inputs[0]);
      StepIsArrivals(o, inputs[0]);
      RunIsBytes(Step(o, inputs[0]), inputs[1..]);
      ForgetIsCongruent(Step(o, inputs[0]), RunBytes(o, Arrivals(inputs[0])), Flatten(inputs[1..]));
      RunBytesSplits(o, Arrivals(inputs[0]), Flatten(inputs[1..]));
    }
  }

  /** Two ways of cutting the same bytes into clean chunks end in the same state, with the same
      events, the same behaviour and the same reported end state. */
  lemma ChunkIndependence(o: State, a: seq<Input>, b: seq<Input>)
    requires Valid(o) && CleanRun(o, a) && CleanRun(o, b)
    requires Flatten(a) == Flatten(b)
    ensures Forget(Run(o, a)) == Forget(Run(o, b))
    ensures Run(o, a).emitted == Run(o, b).emitted && Run(o, a).behavior == Run(o, b).behavior
    ensures EndState(Run(o, a)) == EndState(Run(o, b))
  {
    RunIsBytes(o, a);
    RunIsBytes(o, b);
    assert EndState(Run(o, a)) == EndState(Forget(Run(o, a)));
    assert EndState(Run(o, b)) == EndState(Forget(Run(o, b)));
  }

  // ---------------------------------------------------------------------
  // Runs that are clean because of the bytes alone.

  /** The pump's buffer. */
  const MAX_CHUNK := 32 * 1024

  /** The buffers leave room for any chunk of the pump. */
  predicate Short(o: State) {
    || o.flags.disabled || o.flags.fingerprinted
    || (|o.clientLines| <= MAX_CHUNK && |o.serverLines| <= MAX_CHUNK && |o.tlsBytes| <= MAX_CHUNK)
  }

  /** Byte by byte, the buffers stay short and no handshake starts where a command could. */
  predicate Calm(o: State, arrivals: seq<Arrival>)
    decreases |arrivals|
  {
    && Short(o)
    && (arrivals != [] ==>
      && !(arrivals[0].fromClient && arrivals[0].b == HANDSHAKE && Boundary(o))
      && Calm(Arrive(o, arrivals[0]), arrivals[1..]))
  }

  // ---------------------------------------------------------------------
  // A run of short chunks without any handshake byte whose cutting matters.

  /** A stretch of the letter a. */
  function Filler(n: nat): (p: seq<byte>)
    ensures |p| == n && forall i :: 0 <= i < n ==> p[i] == 97
  {
    seq(n, i => 97)
  }

  lemma {:induction false} NoHandshakeIsSmooth(o: State, p: seq<byte>, at: int)
    requires HANDSHAKE !in p
    ensures Smooth(o, p, at)
    decreases |p|
  {
    if p != [] {
      NoHandshakeIsSmooth(ClientByte(o, p[0], at), p[1..], at);
    }
  }

  lemma FillerFeeds(o: State, n: nat, at: int)
    requires Reading(o) && o.bdatRemaining == 0 && |o.clientLines| + n <= MAX_LINES
    ensures FeedClient(o, Filler(n), at) == o.(clientLines := o.clientLines + Filler(n))
  {
    NoHandshakeIsSmooth(o, Filler(n), at);
    PartFeed(o, Filler(n), at);
  }

  lemma FillerIsOneWord(n: nat)
    requires n > 8
    ensures var words := Words(Chars(TrimEnd(Filler(n) + [LF])));
            |words| == 1 && SmtpBehavior.CanonicalVerb(words[0]) == "OTHER"
  {
    var t := TrimEnd(Filler(n) + [LF]);
    assert t == Filler(n);
    var s := Chars(t);
    assert s[0] == 'a' && WordLength(s) == n;
    assert s[..n] == s && s[n..] == "";
    assert Words(s) == [s];
    assert |SmtpBehavior.ToUpper(s)| == n;
  }

  /** A long line is a command like others. */
  lemma FillerIsTaken(o: State, n: nat, at: int)
    requires Reading(o) && o.bdatRemaining == 0 && o.commands == [] && !o.flags.inData && n > 8
    requires o.clientLines == Filler(n) && n < MAX_LINES
    ensures var r := ClientByte(o, LF, at);
            Reading(r) && r.bdatRemaining == 0 && r.clientLines == [] && r.commands == ["OTHER"]
  {
    FillerIsOneWord(n);
  }

  /** Both ways keep an unfinished line. */
  lemma FillerIsKept(o: State, held: nat, n: nat, at: int)
    requires Reading(o) && o.bdatRemaining == 0 && o.clientLines == Filler(held) && held + n <= MAX_LINES
    ensures Client(o, Filler(n), at) == o.(clientLines := Filler(held + n))
    ensures FeedClient(o, Filler(n), at) == o.(clientLines := Filler(held + n))
  {
    assert Filler(held) + Filler(n) == Filler(held + n);
    FillerFeeds(o, n, at);
    LoopOnPart(o.(clientLines := Filler(held + n)), at);
  }

  /** The end of a line and the beginning of the next, together too long for the buffer, and each alone not. */
  lemma NextLineFloods(o: State, held: nat, n: nat, at: int)
    requires Reading(o) && o.bdatRemaining == 0 && o.commands == [] && !o.flags.inData && o.clientLines == Filler(held)
    requires 8 < held < MAX_LINES && n <= MAX_LINES < held + 1 + n
    ensures Client(o, [LF] + Filler(n), at).flags.disabled
    ensures !FeedClient(o, [LF] + Filler(n), at).flags.disabled
  {
    FillerIsTaken(o, held, at);
    assert ([LF] + Filler(n))[1..] == Filler(n);
    FillerFeeds(ClientByte(o, LF, at), n, at);
  }

  /** Three chunks, the first two of which are kept. */
  lemma ThreeChunks(o: State, a: State, b: State, half: seq<byte>, last: seq<byte>, at: int)
    requires Client(o, half, at) == a && FeedClient(o, half, at) == a
    requires Client(a, half, at) == b && FeedClient(a, half, at) == b
    requires Client(b, last, at).flags.disabled && !FeedClient(b, last, at).flags.disabled
    ensures Run(o, [FromClient(half, at), FromClient(half, at), FromClient(last, at)]).flags.disabled
    ensures !FeedClient(FeedClient(FeedClient(o, half, at), half, at), last, at).flags.disabled
  {
    var i, j := FromClient(half, at), FromClient(last, at);
    assert [i, i, j][1..] == [i, j] && [i, j][1..] == [j] && [j][1..] == [];
    assert Run(b, [j]) == Client(b, last, at);
    assert Run(a, [i, j]) == Run(b, [j]);
  }

  lemma FloodsInThree(o: State, n: nat, m: nat, at: int)
    requires Reading(o) && o.bdatRemaining == 0 && o.commands == [] && !o.flags.inData && o.clientLines == []
    requires 4 < n && 2 * n < MAX_LINES && m <= MAX_LINES < 2 * n + 1 + m
    ensures var half, last := Filler(n), [LF] + Filler(m);
            && Run(o, [FromClient(half, at), FromClient(half, at), FromClient(last, at)]).flags.disabled
            && !FeedClient(FeedClient(FeedClient(o, half, at), half, at), last, at).flags.disabled
  {
    assert o.clientLines == Filler(0);
    var a, b := o.(clientLines := Filler(n)), o.(clientLines := Filler(n + n));
    FillerIsKept(o, 0, n, at);
    FillerIsKept(a, n, n, at);
    NextLineFloods(b, n + n, m, at);
    ThreeChunks(o, a, b, Filler(n), [LF] + Filler(m), at);
  }

  /** A client that sends 40 KiB of a command line in two chunks, and the rest of it with the beginning of the next line
      in a third of 32 KiB: the observer gives up, though byte by byte it would read on. */
  lemma LongChunkIsLost(instance: string, base: SmtpEvent.Event, at: int)
    ensures var half, last := Filler(20 * 1024), [LF] + Filler(MAX_CHUNK - 1);
            && |half| <= MAX_CHUNK && |last| == MAX_CHUNK && HANDSHAKE !in half && HANDSHAKE !in last
            && Run(Fresh(instance, base), [FromClient(half, at), FromClient(half, at), FromClient(last, at)])
                 .flags.disabled
            && !FeedClient(FeedClient(FeedClient(Fresh(instance, base), half, at), half, at), last, at).flags.disabled
  {
    FloodsInThree(Fresh(instance, base), 20 * 1024, MAX_CHUNK - 1, at);
  }

  lemma {:induction false} CalmSplits(o: State, a: seq<Arrival>, b: seq<Arrival>)
    requires Calm(o, a + b)
    ensures Calm(o, a) && Calm(RunBytes(o, a), b)
    decreases |a|
  {
    if a == [] {
      assert a + b == b;
    } else {
      assert (a + b)[0] == a[0] && (a + b)[1..] == a[1..] + b;
      CalmSplits(Arrive(o, a[0]), a[1..], b);
    }
  }

  lemma {:induction false} CalmIsSmooth(o: State, p: seq<byte>, at: int)
    requires Calm(o, Arrivals(FromClient(p, at)))
    ensures Smooth(o, p, at)
    decreases |p|
  {
    if p != [] {
      assert Arrivals(FromClient(p, at))[1..] == Arrivals(FromClient(p[1..], at));
      CalmIsSmooth(ClientByte(o, p[0], at), p[1..], at);
    }
  }

  lemma {:induction false} CalmIsCongruent(o: State, r: State, arrivals: seq<Arrival>)
    requires Forget(o) == Forget(r) && Calm(o, arrivals)
    ensures Calm(r, arrivals)
    decreases |arrivals|
  {
    if o != r {
      assert (o.flags.disabled || o.flags.fingerprinted) && (r.flags.disabled || r.flags.fingerprinted);
      if arrivals != [] {
        CalmIsCongruent(Arrive(o, arrivals[0]), Arrive(r, arrivals[0]), arrivals[1..]);
      }
    }
  }

  lemma CalmInputIsClean(o: State, i: Input)
    requires Calm(o, Arrivals(i)) && |i.bytes| <= MAX_CHUNK
    ensures Clean(o, i)
  {
    if i.FromClient? {
      CalmIsSmooth(o, i.bytes, i.at);
    }
  }

  /** Cut in any way into chunks of the pump's size, calm bytes make a clean run. */
  lemma {:induction false} CalmRunIsClean(o: State, inputs: seq<Input>)
    requires Valid(o) && Calm(o, Flatten(inputs))
    requires forall i :: 0 <= i < |inputs| ==> |inputs[i].bytes| <= MAX_CHUNK
    ensures CleanRun(o, inputs)
    decreases |inputs|
  {
    if inputs != [] {
      var i := inputs[0];
      CalmSplits(o, Arrivals(i), Flatten(inputs[1..]));
      CalmInputIsClean(o, i);
      StepKeepsValid(o, i);
      StepIsArrivals(o, i);
      CalmIsCongruent(RunBytes(o, Arrivals(i)), Step(o, i), Flatten(inputs[1..]));
      CalmRunIsClean(Step(o, i), inputs[1..]);
    }
  }
}
