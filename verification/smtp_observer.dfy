/** The passive observer of an SMTP connection (smtp_proxy.go): chunks of both directions go in,
    telemetry events come out. */
module SmtpObserver {
  import opened Bytes
  import opened ClientHello
  import opened Fingerprint
  import opened SmtpBehavior
  import opened SmtpEvent
  import opened SmtpLines
  import Records

  const MAX_LINES := 64 * 1024
  const MAX_COMMANDS := 256

  /** The modes and marks of an observer. */
  datatype Flags = Flags(
    inData: bool,
    disabled: bool,
    tlsArmed: bool,
    fingerprinted: bool,
    refused: bool,
    premature: bool,
    greeted: bool)

  /** The whole state of an observer, and the events that it has emitted. */
  datatype State = State(
    instance: string,
    base: Event,
    clientLines: seq<byte>,
    serverLines: seq<byte>,
    commands: seq<string>,
    flags: Flags,
    tlsBytes: seq<byte>,
    bdatRemaining: int,
    behavior: Tracked,
    emitted: seq<Event>)

  const NO_FLAGS := Flags(false, false, false, false, false, false, false)

  function Fresh(instance: string, base: Event): State {
    State(instance, base, [], [], [], NO_FLAGS, [], 0, FRESH, [])
  }

  // ---------------------------------------------------------------------
  // The specification of one chunk.

  /** The observer reads SMTP commands and replies. */
  predicate Reading(o: State) {
    !o.flags.fingerprinted && !o.flags.disabled && !o.flags.tlsArmed
  }

  /** The next client byte would start a command line. */
  predicate AtBoundary(o: State) {
    o.clientLines == [] && !o.flags.inData && o.bdatRemaining == 0
  }

  /** The payload size that a BDAT command announces. */
  function PayloadSize(words: seq<string>): Option<int> {
    if |words| < 2 then None else ParseInt32(words[1])
  }

  function ExpectPayload(o: State, size: Option<int>): State {
    if size.None? then o.(flags := o.flags.(disabled := true)) else o.(bdatRemaining := size.value)
  }

  /** A command joins the queue; BDAT announces how many payload bytes follow. */
  function Enqueue(o: State, verb: string, words: seq<string>): (r: State)
    ensures r == o.(commands := r.commands, bdatRemaining := r.bdatRemaining,
                    flags := o.flags.(disabled := r.flags.disabled))
  {
    if |o.commands| >= MAX_COMMANDS then o.(flags := o.flags.(disabled := true))
    else
      var queued := o.(commands := o.commands + [verb]);
      if verb == "BDAT" then ExpectPayload(queued, PayloadSize(words)) else queued
  }

  /** One command line, with its line end. */
  function CommandLine(o: State, raw: seq<byte>, at: int): (r: State)
    ensures r == o.(commands := r.commands, bdatRemaining := r.bdatRemaining, behavior := r.behavior,
                    flags := o.flags.(disabled := r.flags.disabled))
  {
    var words := Words(Chars(TrimEnd(raw)));
    if words == [] then o
    else
      var verb := CanonicalVerb(words[0]);
      Enqueue(o.(behavior := Track(o.behavior, raw, verb, o.flags.greeted, at)), verb, words)
  }

  /** One line of a DATA body. */
  function BodyLine(o: State, raw: seq<byte>): State {
    if Chars(TrimEnd(raw)) == "." then o.(commands := o.commands + ["."], flags := o.flags.(inData := false)) else o
  }

  /** One whole line of the client. */
  function ClientLine(o: State, raw: seq<byte>, at: int): State {
    if o.flags.inData then BodyLine(o, raw) else CommandLine(o, raw, at)
  }

  lemma ClientLineFrame(o: State, raw: seq<byte>, at: int)
    ensures var r := ClientLine(o, raw, at);
            r == o.(commands := r.commands, bdatRemaining := r.bdatRemaining, behavior := r.behavior,
                    flags := o.flags.(inData := r.flags.inData, disabled := r.flags.disabled))
    ensures o.bdatRemaining <= 0 && ClientLine(o, raw, at).bdatRemaining > 0 ==> !o.flags.inData
  {
  }

  /** A buffer between two chunks: at most one unfinished line of bounded length. */
  predicate Unfinished(lines: seq<byte>) {
    |lines| <= MAX_LINES && LF !in lines
  }

  /** Works off the client buffer, payload by payload and line by line. */
  function ClientLoop(o: State, at: int): State
    decreases |o.clientLines|, o.bdatRemaining > 0
  {
    if o.bdatRemaining > 0 then
      var discard := Min(|o.clientLines|, o.bdatRemaining);
      var r := o.(clientLines := o.clientLines[discard..], bdatRemaining := o.bdatRemaining - discard);
      if r.bdatRemaining > 0 then r else ClientLoop(r, at)
    else if |o.clientLines| > MAX_LINES then o.(flags := o.flags.(disabled := true))
    else
      var i := IndexOf(o.clientLines, LF);
      if i < 0 then o
      else
        ClientLineFrame(o.(clientLines := o.clientLines[i + 1..]), o.clientLines[..i + 1], at);
        var r := ClientLine(o.(clientLines := o.clientLines[i + 1..]), o.clientLines[..i + 1], at);
        if r.flags.disabled then r else ClientLoop(r, at)
  }

  /** The server loop takes the first whole line off the buffer. */
  lemma ServerOnLine(o: State, line: seq<byte>, rest: seq<byte>, at: int)
    requires LF !in line && o.serverLines == line + [LF] + rest
    ensures var r := ServerLine(o.(serverLines := rest), TrimEnd(line + [LF]), at);
            ServerLoop(o, at) == if r.flags.tlsArmed then r else ServerLoop(r, at)
  {
    IndexIs(line, LF, rest);
    assert o.serverLines[|line| + 1..] == rest && o.serverLines[..|line| + 1] == line + [LF];
  }

  lemma ServerOnPart(o: State, at: int)
    requires LF !in o.serverLines
    ensures ServerLoop(o, at) == o
  {
  }

  /** The loop drops the payload bytes of a BDAT chunk, as far as they have arrived. */
  lemma LoopOnPayload(o: State, at: int)
    requires o.bdatRemaining > 0
    ensures ClientLoop(o, at) ==
      if o.bdatRemaining > |o.clientLines| then
        o.(clientLines := [], bdatRemaining := o.bdatRemaining - |o.clientLines|)
      else
        ClientLoop(o.(clientLines := o.clientLines[o.bdatRemaining..], bdatRemaining := 0), at)
  {
    assert o.clientLines[|o.clientLines|..] == [];
  }

  /** The loop takes the first whole line off the buffer. */
  lemma LoopOnLine(o: State, line: seq<byte>, rest: seq<byte>, at: int)
    requires o.bdatRemaining <= 0 && |o.clientLines| <= MAX_LINES
    requires LF !in line && o.clientLines == line + [LF] + rest
    ensures var r := ClientLine(o.(clientLines := rest), line + [LF], at);
            ClientLoop(o, at) == if r.flags.disabled then r else ClientLoop(r, at)
  {
    IndexIs(line, LF, rest);
    assert o.clientLines[|line| + 1..] == rest && o.clientLines[..|line| + 1] == line + [LF];
  }

  /** The loop leaves an unfinished line in the buffer. */
  lemma LoopOnPart(o: State, at: int)
    requires o.bdatRemaining <= 0 && Unfinished(o.clientLines)
    ensures ClientLoop(o, at) == o
  {
  }

  /** The event that reports a parsed ClientHello. */
  function HelloEvent(base: Event, h: Hello, at: int): Event {
    base.(kind := FingerprintEvent, timestamp := Some(at), ja3 := JA3Text(h), ja4 := Some(JA4Of(h)))
  }

  function Fingerprinted(o: State, e: Event): State {
    o.(emitted := o.emitted + [Stamp(e, o.instance)], flags := o.flags.(fingerprinted := true))
  }

  /** What follows from the parser's answer. */
  function Conclude(o: State, result: ParseResult, at: int): (r: State)
    ensures r.flags.disabled || r.flags.fingerprinted
  {
    if result.Err? then o.(flags := o.flags.(disabled := true))
    else Fingerprinted(o, HelloEvent(o.base, result.value, at))
  }

  /** What follows from the reassembler's answer. */
  function Settle(o: State, assembly: Records.Assembly, at: int): (r: State)
    ensures assembly.Incomplete? ==> r == o
    ensures !assembly.Incomplete? ==> r.flags.disabled || r.flags.fingerprinted
  {
    match assembly
    case Incomplete => o
    case Rejected(_) => o.(flags := o.flags.(disabled := true))
    case Assembled(buffer) => Conclude(o, Parse(buffer), at)
  }

  function ObserveTLS(o: State, p: seq<byte>, at: int): State {
    var r := o.(tlsBytes := o.tlsBytes + p);
    if |r.tlsBytes| > MAX_CLIENT_HELLO then r.(flags := r.flags.(disabled := true))
    else Settle(r, Records.FromBytes(r.tlsBytes), at)
  }

  /** A chunk from the client. */
  function Client(o: State, p: seq<byte>, at: int): State {
    if o.flags.fingerprinted || o.flags.disabled then o
    else if o.flags.tlsArmed then ObserveTLS(o, p, at)
    else if AtBoundary(o) && p != [] && p[0] == HANDSHAKE then
      o.(flags := o.flags.(premature := true, disabled := true))
    else ClientLoop(o.(clientLines := o.clientLines + p), at)
  }

  function Outcome(o: State, outcome: string, at: int): State {
    var e := o.base.(kind := StarttlsEvent, timestamp := Some(at), state := outcome);
    o.(behavior := o.behavior.(starttlsOutcome := outcome), emitted := o.emitted + [Stamp(e, o.instance)])
  }

  /** An accepted upgrade ends the reading of lines. */
  function StarttlsReply(o: State, accepted: bool, at: int): State {
    if accepted then
      Outcome(o, "accepted", at)
        .(flags := o.flags.(tlsArmed := true), clientLines := [], serverLines := [], commands := [])
    else Outcome(o, "refused", at).(flags := o.flags.(refused := true))
  }

  /** The final reply line to the oldest unanswered command. */
  function Reply(o: State, line: seq<byte>, at: int): State
    requires o.commands != []
  {
    var cmd := o.commands[0];
    var r := o.(commands := o.commands[1..],
                flags := o.flags.(inData := o.flags.inData || (cmd == "DATA" && HasCode(line, "354"))));
    if cmd == "STARTTLS" then StarttlsReply(r, HasCode(line, "220"), at) else r
  }

  /** One whole line of the server. A dash continues a multiline reply. */
  function ServerLine(o: State, line: seq<byte>, at: int): (r: State)
    ensures |r.serverLines| <= |o.serverLines|
  {
    if |line| < 3 then o
    else if |line| > 3 && line[3] == '-' as int then o
    else if !o.flags.greeted then o.(flags := o.flags.(greeted := true))
    else if o.commands == [] then o
    else Reply(o, line, at)
  }

  function ServerLoop(o: State, at: int): State
    decreases |o.serverLines|
  {
    var i := IndexOf(o.serverLines, LF);
    if i < 0 then o
    else
      var r := ServerLine(o.(serverLines := o.serverLines[i + 1..]), TrimEnd(o.serverLines[..i + 1]), at);
      if r.flags.tlsArmed then r else ServerLoop(r, at)
  }

  /** A chunk from the server. */
  function Server(o: State, p: seq<byte>, at: int): State {
    if !Reading(o) then o
    else
      var r := o.(serverLines := o.serverLines + p);
      if |r.serverLines| > MAX_LINES then r.(flags := r.flags.(disabled := true)) else ServerLoop(r, at)
  }

  /** The state that the end event reports. */
  function EndState(o: State): string {
    if o.flags.fingerprinted then "fingerprinted"
    else if o.flags.tlsArmed then "starttls_accepted_no_fingerprint"
    else if o.flags.disabled then if o.flags.premature then "premature_tls" else "observer_incomplete"
    else if o.flags.refused then "starttls_refused"
    else if !o.flags.greeted || o.clientLines != [] || o.serverLines != [] then "observer_incomplete"
    else "no_observed_upgrade"
  }

  // ---------------------------------------------------------------------
  // What every observer keeps.

  /** The part of the invariant that holds in the middle of a chunk, too. The bound on the queue is
      inductive because the end of a DATA body, which is queued without a check, has its place kept. */
  ghost predicate Sound(o: State) {
    && Consistent(o.behavior)
    && |o.commands| + (if o.flags.inData then 1 else 0) <= MAX_COMMANDS
    && (o.flags.premature ==> o.flags.disabled && !o.flags.tlsArmed)
    && (o.flags.fingerprinted ==> o.flags.tlsArmed && !o.flags.disabled)
  }

  ghost predicate Valid(o: State) {
    && Sound(o)
    && (Reading(o) ==>
      && Unfinished(o.clientLines)
      && Unfinished(o.serverLines)
      && (o.bdatRemaining > 0 ==> o.clientLines == []))
    && (o.flags.tlsArmed && !o.flags.disabled ==> |o.tlsBytes| <= MAX_CLIENT_HELLO)
    && (!o.flags.tlsArmed ==> o.tlsBytes == [])
    && (o.flags.tlsArmed && !o.flags.disabled && !o.flags.fingerprinted ==> Records.FromBytes(o.tlsBytes).Incomplete?)
  }

  lemma FreshIsValid(instance: string, base: Event)
    ensures Valid(Fresh(instance, base))
  {
  }

  lemma LineKeepsSound(o: State, raw: seq<byte>, at: int)
    requires Sound(o) && Reading(o)
    ensures var r := ClientLine(o, raw, at);
            && Sound(r) && r.clientLines == o.clientLines && r.serverLines == o.serverLines
            && r.tlsBytes == o.tlsBytes && !r.flags.tlsArmed && !r.flags.fingerprinted
            && (o.bdatRemaining <= 0 && r.bdatRemaining > 0 ==> !o.flags.inData)
  {
    ClientLineFrame(o, raw, at);
    if !o.flags.inData {
      var words := Words(Chars(TrimEnd(raw)));
      if words != [] {
        TrackKeepsConsistent(o.behavior, raw, CanonicalVerb(words[0]), o.flags.greeted, at);
      }
    }
  }

  lemma {:induction false} ClientLoopKeepsValid(o: State, at: int)
    requires Sound(o) && Reading(o) && Unfinished(o.serverLines) && o.tlsBytes == []
    ensures Valid(ClientLoop(o, at)) && !ClientLoop(o, at).flags.tlsArmed
    decreases |o.clientLines|, o.bdatRemaining > 0
  {
    if o.bdatRemaining > 0 {
      LoopOnPayload(o, at);
      if o.bdatRemaining <= |o.clientLines| {
        ClientLoopKeepsValid(o.(clientLines := o.clientLines[o.bdatRemaining..], bdatRemaining := 0), at);
      }
    } else if |o.clientLines| <= MAX_LINES && LF in o.clientLines {
      var i := IndexOf(o.clientLines, LF);
      var line, rest := o.clientLines[..i], o.clientLines[i + 1..];
      LoopOnLine(o, line, rest, at);
      LineKeepsSound(o.(clientLines := rest), line + [LF], at);
      var r := ClientLine(o.(clientLines := rest), line + [LF], at);
      if !r.flags.disabled {
        ClientLoopKeepsValid(r, at);
      }
    }
  }

  /** Every client chunk keeps the invariant. */
  lemma ClientKeepsValid(o: State, p: seq<byte>, at: int)
    requires Valid(o)
    ensures Valid(Client(o, p, at))
  {
    if Reading(o) && !(AtBoundary(o) && p != [] && p[0] == HANDSHAKE) {
      ClientLoopKeepsValid(o.(clientLines := o.clientLines + p), at);
    }
  }

  lemma ReplyKeepsValid(o: State, line: seq<byte>, at: int)
    requires Valid(o) && Reading(o)
    ensures Valid(ServerLine(o, line, at).(serverLines := []))
    ensures !ServerLine(o, line, at).flags.tlsArmed ==> Reading(ServerLine(o, line, at))
  {
    if |line| >= 3 && !(|line| > 3 && line[3] == '-' as int) && o.flags.greeted && o.commands != [] {
      CommandReplyKeepsValid(o, line, at);
    }
  }

  lemma CommandReplyKeepsValid(o: State, line: seq<byte>, at: int)
    requires Valid(o) && Reading(o) && o.commands != []
    ensures Valid(Reply(o, line, at).(serverLines := []))
    ensures !Reply(o, line, at).flags.tlsArmed ==> Reading(Reply(o, line, at))
  {
    var cmd := o.commands[0];
    var r := o.(commands := o.commands[1..],
                flags := o.flags.(inData := o.flags.inData || (cmd == "DATA" && HasCode(line, "354"))));
    assert Valid(r.(serverLines := []));
    if cmd == "STARTTLS" {
      OutcomeKeepsValid(r, HasCode(line, "220"), at);
    }
  }

  lemma OutcomeKeepsValid(o: State, accepted: bool, at: int)
    requires Valid(o.(serverLines := [])) && Reading(o)
    ensures Valid(StarttlsReply(o, accepted, at).(serverLines := []))
    ensures StarttlsReply(o, accepted, at).flags.tlsArmed || Reading(StarttlsReply(o, accepted, at))
  {
    NothingIsIncomplete();
  }

  lemma NothingIsIncomplete()
    ensures Records.FromBytes([]).Incomplete?
  {
  }

  lemma ReplyCommutes(o: State, line: seq<byte>, rest: seq<byte>, at: int)
    requires Reading(o)
    ensures var r := ServerLine(o.(serverLines := []), line, at);
            ServerLine(o.(serverLines := rest), line, at) == if r.flags.tlsArmed then r else r.(serverLines := rest)
    ensures var r := ServerLine(o.(serverLines := []), line, at);
            r.serverLines == [] && !r.flags.disabled && !r.flags.fingerprinted
  {
    if o.commands != [] {
      CommandReplyCommutes(o, line, rest, at);
    }
  }

  lemma CommandReplyCommutes(o: State, line: seq<byte>, rest: seq<byte>, at: int)
    requires Reading(o) && o.commands != []
    ensures var r := Reply(o.(serverLines := []), line, at);
            && Reply(o.(serverLines := rest), line, at) == (if r.flags.tlsArmed then r else r.(serverLines := rest))
            && r.serverLines == [] && !r.flags.disabled && !r.flags.fingerprinted
  {
    var cmd := o.commands[0];
    var r := o.(commands := o.commands[1..],
                flags := o.flags.(inData := o.flags.inData || (cmd == "DATA" && HasCode(line, "354"))));
    if cmd == "STARTTLS" {
      OutcomeCommutes(r, HasCode(line, "220"), rest, at);
      var accepted := HasCode(line, "220");
      assert Reply(o.(serverLines := rest), line, at) == StarttlsReply(r.(serverLines := rest), accepted, at);
      assert Reply(o.(serverLines := []), line, at) == StarttlsReply(r.(serverLines := []), accepted, at);
    }
  }

  lemma OutcomeCommutes(o: State, accepted: bool, rest: seq<byte>, at: int)
    ensures var r := StarttlsReply(o.(serverLines := []), accepted, at);
            && StarttlsReply(o.(serverLines := rest), accepted, at) ==
                 (if accepted then r else r.(serverLines := rest))
            && r.serverLines == [] && r.flags.tlsArmed == (o.flags.tlsArmed || accepted)
            && r.flags.disabled == o.flags.disabled && r.flags.fingerprinted == o.flags.fingerprinted
  {
  }

  lemma {:induction false} ServerLoopKeepsValid(o: State, at: int)
    requires Valid(o.(serverLines := [])) && Reading(o) && |o.serverLines| <= MAX_LINES
    ensures Valid(ServerLoop(o, at))
    decreases |o.serverLines|
  {
    if LF !in o.serverLines {
      ServerOnPart(o, at);
    } else {
      var i := IndexOf(o.serverLines, LF);
      var line, rest := o.serverLines[..i], o.serverLines[i + 1..];
      ServerOnLine(o, line, rest, at);
      ReplyKeepsValid(o.(serverLines := []), TrimEnd(line + [LF]), at);
      ReplyCommutes(o, TrimEnd(line + [LF]), rest, at);
      var r := ServerLine(o.(serverLines := rest), TrimEnd(line + [LF]), at);
      if !r.flags.tlsArmed {
        ServerLoopKeepsValid(r, at);
      }
    }
  }

  /** Every server chunk keeps the invariant. */
  lemma ServerKeepsValid(o: State, p: seq<byte>, at: int)
    requires Valid(o)
    ensures Valid(Server(o, p, at))
  {
    if Reading(o) && |o.serverLines + p| <= MAX_LINES {
      ServerLoopKeepsValid(o.(serverLines := o.serverLines + p), at);
    }
  }
}
