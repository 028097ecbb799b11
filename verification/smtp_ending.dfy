/** How an observer comes to stop: what its marks say about the chunks that it was given. */
module SmtpEnding {
  import opened Bytes
  import opened SmtpLines
  import opened SmtpObserver
  import opened SmtpChunks
  import ClientHello
  import Records
  import SmtpBehavior
  import SmtpEvent

  /** The client's chunk begins with the first byte of a TLS record where a command could begin. */
  predicate StartsTLS(o: State, i: Input) {
    && i.FromClient? && i.bytes != [] && i.bytes[0] == 0x16
    && !o.flags.disabled && !o.flags.tlsArmed && !o.flags.fingerprinted
    && o.clientLines == [] && !o.flags.inData && o.bdatRemaining == 0
  }

  /** The observer read before the chunk and has stopped after it, though it was no start of TLS. */
  predicate LosesTrack(o: State, i: Input) {
    && !o.flags.disabled && !o.flags.tlsArmed && !o.flags.fingerprinted
    && Step(o, i).flags.disabled && !StartsTLS(o, i)
  }

  ghost predicate TLSAt(o: State, inputs: seq<Input>, n: nat) {
    n < |inputs| && StartsTLS(Run(o, inputs[..n]), inputs[n])
  }

  ghost predicate LossAt(o: State, inputs: seq<Input>, n: nat) {
    n < |inputs| && LosesTrack(Run(o, inputs[..n]), inputs[n])
  }

  /** Some chunk of the run began TLS without an upgrade. */
  ghost predicate SawTLS(o: State, inputs: seq<Input>) {
    exists n: nat :: TLSAt(o, inputs, n)
  }

  /** Some chunk of the run made the observer give up. */
  ghost predicate LostTrack(o: State, inputs: seq<Input>) {
    exists n: nat :: LossAt(o, inputs, n)
  }

  // ---------------------------------------------------------------------
  // One chunk.

  predicate SameMarks(o: State, r: State) {
    r.flags.disabled == o.flags.disabled && r.flags.premature == o.flags.premature
  }

  lemma LineKeepsMarks(o: State, line: seq<byte>, at: int)
    ensures SameMarks(o, ServerLine(o, line, at))
  {
  }

  lemma {:induction false} ServerLoopKeepsMarks(o: State, at: int)
    ensures SameMarks(o, ServerLoop(o, at))
    decreases |o.serverLines|
  {
    if LF !in o.serverLines {
      ServerOnPart(o, at);
    } else {
      var i := IndexOf(o.serverLines, LF);
      var line, rest := o.serverLines[..i], o.serverLines[i + 1..];
      ServerOnLine(o, line, rest, at);
      LineKeepsMarks(o.(serverLines := rest), TrimEnd(line + [LF]), at);
      var r := ServerLine(o.(serverLines := rest), TrimEnd(line + [LF]), at);
      if !r.flags.tlsArmed {
        ServerLoopKeepsMarks(r, at);
      }
    }
  }

  /** What a chunk does to an observer that waits for TLS bytes. */
  lemma TLSKeepsMarks(o: State, p: seq<byte>, at: int)
    ensures ObserveTLS(o, p, at).flags.premature == o.flags.premature
    ensures ObserveTLS(o, p, at).flags.tlsArmed == o.flags.tlsArmed
  {
    var assembly := Records.FromBytes(o.tlsBytes + p);
    if assembly.Assembled? {
      var result := ClientHello.Parse(assembly.buffer);
    }
  }

  lemma StepIsPremature(o: State, i: Input)
    ensures Step(o, i).flags.premature == (o.flags.premature || StartsTLS(o, i))
  {
    match i {
      case FromClient(p, at) =>
        TLSKeepsMarks(o, p, at);
        LoopIsNeverPremature(o.(clientLines := o.clientLines + p), at);
      case FromServer(p, at) =>
        ServerLoopKeepsMarks(o.(serverLines := o.serverLines + p), at);
    }
  }

  /** An observer that has given up. */
  predicate Lost(o: State) {
    o.flags.disabled && !o.flags.tlsArmed && !o.flags.premature
  }

  lemma StepIsLost(o: State, i: Input)
    requires Valid(o)
    ensures Lost(Step(o, i)) <==> Lost(o) || LosesTrack(o, i)
  {
    StepIsPremature(o, i);
    match i {
      case FromClient(p, at) =>
        TLSKeepsMarks(o, p, at);
        if Reading(o) {
          ClientLoopKeepsValid(o.(clientLines := o.clientLines + p), at);
        }
      case FromServer(p, at) =>
        ServerLoopKeepsMarks(o.(serverLines := o.serverLines + p), at);
    }
  }

  // ---------------------------------------------------------------------
  // Whole runs.

  lemma {:induction false} RunIsValid(o: State, inputs: seq<Input>)
    requires Valid(o)
    ensures Valid(Run(o, inputs))
    decreases |inputs|
  {
    if inputs != [] {
      StepKeepsValid(o, inputs[0]);
      RunIsValid(Step(o, inputs[0]), inputs[1..]);
    }
  }

  lemma NextMarks(o: State, inputs: seq<Input>, n: nat)
    requires Valid(o) && n < |inputs|
    ensures Run(o, inputs[..n + 1]).flags.premature == (Run(o, inputs[..n]).flags.premature || TLSAt(o, inputs, n))
    ensures Lost(Run(o, inputs[..n + 1])) <==> Lost(Run(o, inputs[..n])) || LossAt(o, inputs, n)
  {
    RunNext(o, inputs, n);
    RunIsValid(o, inputs[..n]);
    StepIsPremature(Run(o, inputs[..n]), inputs[n]);
    StepIsLost(Run(o, inputs[..n]), inputs[n]);
  }

  /** A mark that is set once and stays. */
  lemma {:induction false} Latches(mark: nat -> bool, sets: nat -> bool, k: nat)
    requires !mark(0) && forall n: nat :: n < k ==> mark(n + 1) == (mark(n) || sets(n))
    ensures mark(k) <==> exists n: nat :: n < k && sets(n)
    decreases k
  {
    if k > 0 {
      Latches(mark, sets, k - 1);
      assert mark(k - 1 + 1) == (mark(k - 1) || sets(k - 1));
    }
  }

  ghost predicate PrematureAfter(o: State, inputs: seq<Input>, n: nat) {
    n <= |inputs| && Run(o, inputs[..n]).flags.premature
  }

  ghost predicate LostAfter(o: State, inputs: seq<Input>, n: nat) {
    n <= |inputs| && Lost(Run(o, inputs[..n]))
  }

  /** After the whole run the first mark tells whether a chunk began TLS. */
  lemma TLSAfter(o: State, inputs: seq<Input>)
    requires Valid(o) && !o.flags.premature
    ensures PrematureAfter(o, inputs, |inputs|) <==> SawTLS(o, inputs)
  {
    var mark := (n: nat) => PrematureAfter(o, inputs, n);
    var sets := (n: nat) => n < |inputs| && TLSAt(o, inputs, n);
    assert inputs[..0] == [];
    forall n: nat | n < |inputs| ensures mark(n + 1) == (mark(n) || sets(n)) {
      NextMarks(o, inputs, n);
    }
    Latches(mark, sets, |inputs|);
    assert mark(|inputs|) == PrematureAfter(o, inputs, |inputs|);
    assert forall n: nat :: sets(n) == (n < |inputs| && TLSAt(o, inputs, n));
  }

  /** And the second whether one made the observer give up. */
  lemma LossAfter(o: State, inputs: seq<Input>)
    requires Valid(o) && !Lost(o)
    ensures LostAfter(o, inputs, |inputs|) <==> LostTrack(o, inputs)
  {
    var mark := (n: nat) => LostAfter(o, inputs, n);
    var sets := (n: nat) => n < |inputs| && LossAt(o, inputs, n);
    assert inputs[..0] == [];
    forall n: nat | n < |inputs| ensures mark(n + 1) == (mark(n) || sets(n)) {
      NextMarks(o, inputs, n);
    }
    Latches(mark, sets, |inputs|);
    assert mark(|inputs|) == LostAfter(o, inputs, |inputs|);
    assert forall n: nat :: sets(n) == (n < |inputs| && LossAt(o, inputs, n));
  }

  /** The marks of a whole run. */
  lemma MarksMean(o: State, inputs: seq<Input>)
    requires Valid(o) && !o.flags.premature && !Lost(o)
    ensures Run(o, inputs).flags.premature <==> SawTLS(o, inputs)
    ensures Lost(Run(o, inputs)) <==> LostTrack(o, inputs)
  {
    TLSAfter(o, inputs);
    LossAfter(o, inputs);
    PrefixAll(inputs);
  }

  // ---------------------------------------------------------------------
  // Why an observer stops.

  /** A command line that cannot be followed: the queue is full, or BDAT does not say how long its payload is. */
  predicate Unreadable(o: State, line: seq<byte>) {
    var words := Words(Chars(TrimEnd(line)));
    && !o.flags.inData && words != []
    && (|o.commands| >= 256 ||
        (SmtpBehavior.ToUpper(words[0]) == "BDAT" && (|words| < 2 || ParseInt32(words[1]).None?)))
  }

  lemma LineStopsExactlyWhen(o: State, line: seq<byte>, at: int)
    requires !o.flags.disabled
    ensures ClientLine(o, line, at).flags.disabled <==> Unreadable(o, line)
  {
    var words := Words(Chars(TrimEnd(line)));
    if !o.flags.inData && words != [] {
      SmtpBehavior.CanonicalIsVocabulary(words[0]);
      assert SmtpBehavior.CanonicalVerb(words[0]) == "BDAT" <==> SmtpBehavior.ToUpper(words[0]) == "BDAT";
    }
  }

  /** Byte by byte, an observer that reads is stopped by its client exactly by the first byte of a TLS record where a
      command could begin, by a byte too many for the line buffer, or by the end of a line that cannot be followed. */
  lemma ByteStopsExactlyWhen(o: State, b: byte, at: int)
    requires Reading(o)
    ensures ClientByte(o, b, at).flags.disabled <==>
            || StartsTLS(o, FromClient([b], at))
            || (o.bdatRemaining <= 0 && |o.clientLines| == 64 * 1024)
            || (o.bdatRemaining <= 0 && b == LF && Unreadable(o, o.clientLines + [LF]))
  {
    LineStopsExactlyWhen(o.(clientLines := []), o.clientLines + [LF], at);
  }

  /** Its server stops it exactly by a byte too many for the line buffer. */
  lemma ServerByteStopsExactlyWhen(o: State, b: byte, at: int)
    requires Reading(o)
    ensures ServerByte(o, b, at).flags.disabled <==> |o.serverLines| == 64 * 1024
  {
  }
}
