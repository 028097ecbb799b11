/** The observer as the object of smtp_proxy.go: its methods update its fields chunk by chunk. */
module SmtpProxy {
  import opened Bytes
  import opened ClientHello
  import opened Fingerprint
  import opened SmtpBehavior
  import opened SmtpEvent
  import opened SmtpLines
  import Observer = SmtpObserver
  import Records

  class SmtpObserver {
    const instance: string
    const base: Event
    const behavior: BehaviorTracker
    var clientLines: seq<byte>
    var serverLines: seq<byte>
    var commands: seq<string>
    var inData: bool
    var disabled: bool
    var tlsArmed: bool
    var fingerprinted: bool
    var refused: bool
    var premature: bool
    var greeted: bool
    var tlsBytes: seq<byte>
    var bdatRemaining: int
    var emitted: seq<Event>

    function Abs(): Observer.State
      reads this, behavior
    {
      Observer.State(instance, base, clientLines, serverLines, commands,
                     Observer.Flags(inData, disabled, tlsArmed, fingerprinted, refused, premature, greeted),
                     tlsBytes, bdatRemaining, behavior.Value(), emitted)
    }

    constructor (instance: string, base: Event)
      ensures Abs() == Observer.Fresh(instance, base) && fresh(behavior)
      ensures Observer.Valid(Abs())
    {
      this.instance, this.base := instance, base;
      behavior := new BehaviorTracker();
      clientLines, serverLines, commands, tlsBytes := [], [], [], [];
      inData, disabled, tlsArmed, fingerprinted := false, false, false, false;
      refused, premature, greeted := false, false, false;
      bdatRemaining, emitted := 0, [];
      new;
      Observer.FreshIsValid(instance, base);
    }

    /** The lossy writer may still drop what is emitted here. */
    method Emit(e: Event)
      modifies this`emitted
      ensures emitted == old(emitted) + [Stamp(e, instance)]
    {
      emitted := emitted + [Stamp(e, instance)];
    }

    /** A chunk from the client: exactly the specified step, and the invariant is kept. */
    method Client(p: seq<byte>, at: int)
      requires Observer.Valid(Abs())
      modifies this, behavior
      ensures Abs() == Observer.Client(old(Abs()), p, at)
      ensures Observer.Valid(Abs())
    {
      Observer.ClientKeepsValid(Abs(), p, at);
      if fingerprinted || disabled {
        return;
      }
      if tlsArmed {
        ObserveTLS(p, at);
        return;
      }
      if |clientLines| == 0 && !inData && bdatRemaining == 0 && |p| > 0 && p[0] == HANDSHAKE {
        premature, disabled := true, true;
        return;
      }
      clientLines := clientLines + p;
      DrainClient(at);
    }

    /** The loop over the client buffer. */
    method DrainClient(at: int)
      requires !disabled
      modifies this`clientLines, this`commands, this`inData, this`disabled, this`bdatRemaining, behavior
      ensures Abs() == Observer.ClientLoop(old(Abs()), at)
    {
      ghost var result := Observer.ClientLoop(Abs(), at);
      var more := true;
      while more
        invariant more ==> !disabled && Observer.ClientLoop(Abs(), at) == result
        invariant !more ==> Abs() == result
        decreases more, |clientLines|, bdatRemaining > 0
      {
        more := Turn(at);
      }
    }

    /** One turn of the loop; `more` says that it goes on. */
    method Turn(at: int) returns (more: bool)
      requires !disabled
      modifies this`clientLines, this`commands, this`inData, this`disabled, this`bdatRemaining, behavior
      ensures !more ==> Abs() == Observer.ClientLoop(old(Abs()), at)
      ensures more ==> !disabled && Observer.ClientLoop(Abs(), at) == Observer.ClientLoop(old(Abs()), at)
      ensures more && |clientLines| >= |old(clientLines)| ==>
              |clientLines| == |old(clientLines)| && bdatRemaining <= 0 < old(bdatRemaining)
    {
      if bdatRemaining > 0 {
        Observer.LoopOnPayload(Abs(), at);
        var stop := Discard();
        return !stop;
      }
      if |clientLines| > Observer.MAX_LINES {
        disabled := true;
        return false;
      }
      var i := IndexOf(clientLines, LF);
      if i < 0 {
        Observer.LoopOnPart(Abs(), at);
        return false;
      }
      Observer.LoopOnLine(Abs(), clientLines[..i], clientLines[i + 1..], at);
      assert clientLines[..i] + [LF] == clientLines[..i + 1];
      var stop := NextLine(i, at);
      return !stop;
    }

    /** Cuts the first line off the buffer and works on it. */
    method NextLine(i: nat, at: int) returns (stop: bool)
      requires !disabled && i < |clientLines|
      modifies this`clientLines, this`commands, this`inData, this`disabled, this`bdatRemaining, behavior
      ensures var o := old(Abs());
              Abs() == Observer.ClientLine(o.(clientLines := o.clientLines[i + 1..]), o.clientLines[..i + 1], at)
      ensures stop <==> disabled
      ensures clientLines == old(clientLines[i + 1..])
    {
      var rawLine := clientLines[..i + 1];
      clientLines := clientLines[i + 1..];
      stop := Line(rawLine, at);
    }

    /** Drops payload bytes of a BDAT chunk; `stop` says that more are to come. */
    method Discard() returns (stop: bool)
      requires bdatRemaining > 0
      modifies this`clientLines, this`bdatRemaining
      ensures var n := Min(|old(clientLines)|, old(bdatRemaining));
              clientLines == old(clientLines)[n..] && bdatRemaining == old(bdatRemaining) - n
      ensures stop <==> bdatRemaining > 0
    {
      var discard := |clientLines|;
      if discard > bdatRemaining {
        discard := bdatRemaining;
      }
      clientLines := clientLines[discard..];
      bdatRemaining := bdatRemaining - discard;
      stop := bdatRemaining > 0;
    }

    /** The loop's work on one line; `stop` says that the loop ends here. */
    method Line(rawLine: seq<byte>, at: int) returns (stop: bool)
      requires !disabled
      modifies this`commands, this`inData, this`disabled, this`bdatRemaining, behavior
      ensures Abs() == Observer.ClientLine(old(Abs()), rawLine, at)
      ensures stop <==> disabled
    {
      var line := Chars(TrimEnd(rawLine));
      if inData {
        if line == "." {
          inData := false;
          commands := commands + ["."];
        }
        return false;
      }
      var fields := Words(line);
      if |fields| == 0 {
        return false;
      }
      var verb := CanonicalVerb(fields[0]);
      behavior.Command(rawLine, verb, greeted, at);
      stop := Enqueue(verb, fields);
    }

    method Enqueue(verb: string, fields: seq<string>) returns (stop: bool)
      requires !disabled
      modifies this`commands, this`disabled, this`bdatRemaining
      ensures Abs() == Observer.Enqueue(old(Abs()), verb, fields)
      ensures stop <==> disabled
    {
      if |commands| >= Observer.MAX_COMMANDS {
        disabled := true;
        return true;
      }
      commands := commands + [verb];
      if verb == "BDAT" {
        if |fields| < 2 {
          disabled := true;
          return true;
        }
        var size := ParseInt32(fields[1]);
        if size.None? {
          disabled := true;
          return true;
        }
        bdatRemaining := size.value;
      }
      return false;
    }

    /** A chunk from the server: exactly the specified step, and the invariant is kept. */
    method Server(p: seq<byte>, at: int)
      requires Observer.Valid(Abs())
      modifies this, behavior
      ensures Abs() == Observer.Server(old(Abs()), p, at)
      ensures Observer.Valid(Abs())
    {
      Observer.ServerKeepsValid(Abs(), p, at);
      if fingerprinted || disabled || tlsArmed {
        return;
      }
      serverLines := serverLines + p;
      if |serverLines| > Observer.MAX_LINES {
        disabled := true;
        return;
      }
      DrainServer(at);
    }

    /** The loop over the server buffer. */
    method DrainServer(at: int)
      requires !tlsArmed
      modifies this, behavior
      ensures Abs() == Observer.ServerLoop(old(Abs()), at)
    {
      ghost var result := Observer.ServerLoop(Abs(), at);
      while true
        invariant !tlsArmed
        invariant Observer.ServerLoop(Abs(), at) == result
        decreases |serverLines|
      {
        var i := IndexOf(serverLines, LF);
        if i < 0 {
          Observer.ServerOnPart(Abs(), at);
          return;
        }
        Observer.ServerOnLine(Abs(), serverLines[..i], serverLines[i + 1..], at);
        assert serverLines[..i] + [LF] == serverLines[..i + 1];
        NextReply(i, at);
        if tlsArmed {
          return;
        }
      }
    }

    /** Cuts the first line off the buffer and works on it. */
    method NextReply(i: nat, at: int)
      requires !tlsArmed && i < |serverLines|
      modifies this, behavior
      ensures var o := old(Abs());
              Abs() == Observer.ServerLine(o.(serverLines := o.serverLines[i + 1..]), TrimEnd(o.serverLines[..i + 1]),
                                           at)
      ensures |serverLines| < |old(serverLines)|
    {
      var line := TrimEnd(serverLines[..i + 1]);
      serverLines := serverLines[i + 1..];
      ServerLine(line, at);
    }

    /** The loop's work on one line of the server. */
    method ServerLine(line: seq<byte>, at: int)
      requires !tlsArmed
      modifies this, behavior
      ensures Abs() == Observer.ServerLine(old(Abs()), line, at)
    {
      if |line| < 3 {
        return;
      }
      if |line| > 3 && line[3] == '-' as int {
        return;
      }
      if !greeted {
        greeted := true;
        return;
      }
      if |commands| == 0 {
        return;
      }
      FinalReply(line, at);
    }

    /** The final reply line takes the oldest command off the queue. */
    method FinalReply(line: seq<byte>, at: int)
      requires commands != []
      modifies this, behavior
      ensures Abs() == Observer.Reply(old(Abs()), line, at)
    {
      var cmd := commands[0];
      commands := commands[1..];
      if cmd == "DATA" && HasCode(line, "354") {
        inData := true;
      }
      if cmd == "STARTTLS" {
        StarttlsReply(HasCode(line, "220"), at);
      }
    }

    method StarttlsReply(accepted: bool, at: int)
      modifies this, behavior
      ensures Abs() == Observer.StarttlsReply(old(Abs()), accepted, at)
    {
      if accepted {
        Report("accepted", at);
        tlsArmed := true;
        clientLines, serverLines, commands := [], [], [];
        return;
      }
      Report("refused", at);
      refused := true;
    }

    /** The outcome of a STARTTLS command. */
    method Report(outcome: string, at: int)
      modifies this`emitted, behavior
      ensures Abs() == Observer.Outcome(old(Abs()), outcome, at)
    {
      behavior.Outcome(outcome);
      Emit(base.(kind := StarttlsEvent, timestamp := Some(at), state := outcome));
    }

    method ObserveTLS(p: seq<byte>, at: int)
      modifies this`tlsBytes, this`disabled, this`fingerprinted, this`emitted
      ensures Abs() == Observer.ObserveTLS(old(Abs()), p, at)
    {
      tlsBytes := tlsBytes + p;
      if |tlsBytes| > MAX_CLIENT_HELLO {
        disabled := true;
        return;
      }
      var assembly := Records.ClientHelloFromBytes(tlsBytes);
      match assembly {
        case Rejected(_) =>
          disabled := true;
        case Incomplete =>
        case Assembled(parse) =>
          var hello := ParseClientHello(parse);
          match hello {
            case Err(_) =>
              disabled := true;
            case Ok(h) =>
              Fingerprint(h, at);
          }
      }
    }

    method Fingerprint(h: Hello, at: int)
      modifies this`fingerprinted, this`emitted
      ensures Abs() == Observer.Fingerprinted(old(Abs()), Observer.HelloEvent(base, h, at))
    {
      var ja3 := JA3FromHello(h);
      var ja4 := ComputeJA4(h);
      fingerprinted := true;
      Emit(base.(kind := FingerprintEvent, timestamp := Some(at), ja3 := ja3, ja4 := Some(ja4)));
    }

    method EndState() returns (state: string)
      ensures state == Observer.EndState(Abs())
    {
      if fingerprinted {
        return "fingerprinted";
      }
      if tlsArmed {
        return "starttls_accepted_no_fingerprint";
      }
      if disabled {
        if premature {
          return "premature_tls";
        }
        return "observer_incomplete";
      }
      if refused {
        return "starttls_refused";
      }
      if !greeted || |clientLines| != 0 || |serverLines| != 0 {
        return "observer_incomplete";
      }
      return "no_observed_upgrade";
    }

    /** The summary for the end event always passes the consumer's validator. */
    method BehaviorSnapshot() returns (b: Behavior)
      requires Observer.Valid(Abs())
      ensures b == Snapshot(behavior.Value(), base.timestamp, disabled)
      ensures ValidBehavior(Some(b))
    {
      SnapshotIsValid(behavior.Value(), base.timestamp, disabled);
      b := Snapshot(behavior.Value(), base.timestamp, disabled);
    }
  }
}
