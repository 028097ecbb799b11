/** From the accepted STARTTLS to the fingerprint event. */
module SmtpUpgrade {
  import opened Bytes
  import opened ClientHello
  import opened SmtpObserver
  import opened SmtpChunks
  import HelloCodec
  import Records
  import SmtpDialogue
  import SmtpEvent
  import SmtpLoss

  /** The observer waits for the rest of a ClientHello. */
  predicate Waiting(o: State) {
    && o.flags.tlsArmed && !o.flags.disabled && !o.flags.fingerprinted
    && Records.FromBytes(o.tlsBytes).Incomplete?
  }

  /** What the client sends in a run. */
  function ClientBytes(inputs: seq<Input>): seq<byte> {
    if inputs == [] then []
    else (if inputs[0].FromClient? then inputs[0].bytes else []) + ClientBytes(inputs[1..])
  }

  lemma {:induction false} StoppedRun(o: State, inputs: seq<Input>)
    requires o.flags.fingerprinted
    ensures Run(o, inputs) == o
    decreases |inputs|
  {
    if inputs != [] {
      StoppedRun(o, inputs[1..]);
    }
  }

  /** The chunk that completes the ClientHello. */
  lemma Completes(o: State, i: Input, h: Hello)
    requires Waiting(o) && i.FromClient? && |o.tlsBytes + i.bytes| <= MAX_CLIENT_HELLO
    requires Records.FromBytes(o.tlsBytes + i.bytes).Assembled?
    requires Parse(Records.FromBytes(o.tlsBytes + i.bytes).buffer) == Ok(h)
    ensures Step(o, i).flags.fingerprinted
    ensures Step(o, i).emitted == o.emitted + [SmtpEvent.Stamp(HelloEvent(o.base, h, i.at), o.instance)]
  {
  }

  /** A chunk before that is only kept. */
  lemma KeepsWaiting(o: State, i: Input, more: seq<byte>)
    requires Waiting(o) && i.FromClient? && |o.tlsBytes + i.bytes| <= MAX_CLIENT_HELLO
    requires Records.FromBytes(o.tlsBytes + i.bytes + more).Incomplete?
    ensures Step(o, i) == o.(tlsBytes := o.tlsBytes + i.bytes) && Waiting(Step(o, i))
  {
    if !Records.FromBytes(o.tlsBytes + i.bytes).Incomplete? {
      Records.AnswerIsStable(o.tlsBytes + i.bytes, more);
    }
  }

  lemma {:induction false} ClientBytesSplit(inputs: seq<Input>, n: nat)
    requires n <= |inputs|
    ensures ClientBytes(inputs) == ClientBytes(inputs[..n]) + ClientBytes(inputs[n..])
    decreases n
  {
    if n == 0 {
      FromStart(inputs);
      PlusNothing(ClientBytes(inputs));
    } else {
      var i := if inputs[0].FromClient? then inputs[0].bytes else [];
      assert inputs[..n][0] == inputs[0] && inputs[..n][1..] == inputs[1..][..n - 1] &&
             inputs[1..][n - 1..] == inputs[n..];
      ClientBytesSplit(inputs[1..], n - 1);
      Associative(i, ClientBytes(inputs[1..][..n - 1]), ClientBytes(inputs[n..]));
    }
  }

  lemma OneChunk(i: Input)
    ensures i.FromClient? ==> ClientBytes([i]) == i.bytes
    ensures i.FromServer? ==> ClientBytes([i]) == []
  {
    assert [i][1..] == [];
  }

  lemma ClientBytesNext(inputs: seq<Input>, n: nat)
    requires n < |inputs|
    ensures ClientBytes(inputs[..n + 1]) ==
            ClientBytes(inputs[..n]) + if inputs[n].FromClient? then inputs[n].bytes else []
  {
    ClientBytesSplit(inputs[..n + 1], n);
    PrefixNext(inputs, n);
    assert inputs[..n + 1][n..] == [inputs[n]];
    OneChunk(inputs[n]);
  }

  /** Whatever the chunks before and after it, the ClientHello that chunk `n` of the run completes is reported, once, at
      the time of that chunk; only the bytes up to it count towards the 64 KiB. */
  lemma {:induction false} HelloIsReported(o: State, inputs: seq<Input>, n: nat, h: Hello)
    requires Waiting(o) && n < |inputs| && inputs[n].FromClient?
    requires var before := o.tlsBytes + ClientBytes(inputs[..n]);
             && Records.FromBytes(before).Incomplete?
             && |before + inputs[n].bytes| <= MAX_CLIENT_HELLO
             && Records.FromBytes(before + inputs[n].bytes).Assembled?
             && Parse(Records.FromBytes(before + inputs[n].bytes).buffer) == Ok(h)
    ensures Run(o, inputs).flags.fingerprinted
    ensures Run(o, inputs).emitted == o.emitted + [SmtpEvent.Stamp(HelloEvent(o.base, h, inputs[n].at), o.instance)]
    decreases n
  {
    var i, rest := inputs[0], inputs[1..];
    if n == 0 {
      PlusNothing(o.tlsBytes);
      Completes(o, i, h);
      StoppedRun(Step(o, i), rest);
    } else {
      assert rest[n - 1] == inputs[n] && inputs[..n][1..] == rest[..n - 1];
      if i.FromClient? {
        Associative(o.tlsBytes, i.bytes, ClientBytes(rest[..n - 1]));
        KeepsWaiting(o, i, ClientBytes(rest[..n - 1]));
        HelloIsReported(o.(tlsBytes := o.tlsBytes + i.bytes), rest, n - 1, h);
      } else {
        PlusNothing(ClientBytes(rest[..n - 1]));
        HelloIsReported(o, rest, n - 1, h);
      }
    }
  }

  /** The chunk with which the client has sent `size` bytes. */
  lemma {:induction false} CompletingChunk(inputs: seq<Input>, m: nat, size: nat) returns (n: nat)
    requires m <= |inputs| && 0 < size <= |ClientBytes(inputs[..m])|
    ensures n < m && inputs[n].FromClient?
    ensures |ClientBytes(inputs[..n])| < size <= |ClientBytes(inputs[..n + 1])|
    decreases m
  {
    assert m > 0;
    ClientBytesNext(inputs, m - 1);
    if |ClientBytes(inputs[..m - 1])| < size {
      n := m - 1;
    } else {
      n := CompletingChunk(inputs, m - 1, size);
    }
  }

  lemma CutAtChunk(inputs: seq<Input>, size: nat) returns (n: nat, rest: seq<byte>)
    requires 0 < size <= |ClientBytes(inputs)|
    ensures n < |inputs| && inputs[n].FromClient?
    ensures |ClientBytes(inputs[..n])| < size <= |ClientBytes(inputs[..n])| + |inputs[n].bytes|
    ensures ClientBytes(inputs) == ClientBytes(inputs[..n]) + inputs[n].bytes + rest
  {
    PrefixAll(inputs);
    n := CompletingChunk(inputs, |inputs|, size);
    ClientBytesNext(inputs, n);
    ClientBytesSplit(inputs, n + 1);
    rest := ClientBytes(inputs[n + 1..]);
  }

  lemma CutOfSum<T>(stream: seq<T>, more: seq<T>, a: seq<T>, b: seq<T>) returns (extra: seq<T>)
    requires stream + more == a + b
    ensures |a| <= |stream| ==> a == stream[..|a|]
    ensures |a| >= |stream| ==> a == stream + extra
  {
    assert a == (a + b)[..|a|];
    extra := if |a| >= |stream| then more[..|a| - |stream|] else [];
  }

  /** The bytes before the completing chunk are too few, and with it they are enough. */
  lemma ChunkCompletes(m: HelloCodec.Message, fragments: seq<((byte, byte), seq<byte>)>, more: seq<byte>,
                       before: seq<byte>, chunk: seq<byte>, rest: seq<byte>)
    requires HelloCodec.WellFormed(m) && |HelloCodec.PutHandshake(m)| <= MAX_CLIENT_HELLO
    requires Records.Fragments(fragments) && Records.Payload(fragments) == HelloCodec.PutHandshake(m)
    requires Records.Stream(fragments) + more == before + chunk + rest
    requires |before| < |Records.Stream(fragments)| <= |before| + |chunk|
    ensures Records.FromBytes(before).Incomplete?
    ensures Records.FromBytes(before + chunk).Assembled?
    ensures Parse(Records.FromBytes(before + chunk).buffer) == Ok(HelloCodec.Meaning(m))
  {
    var stream, message := Records.Stream(fragments), HelloCodec.PutHandshake(m);
    Associative(before, chunk, rest);
    var none := CutOfSum(stream, more, before, chunk + rest);
    HelloCodec.MessageOfHello(m);
    PlusNothing(message);
    Records.CutStreamWaits(fragments, |before|, [], message);
    var extra := CutOfSum(stream, more, before + chunk, rest);
    HelloCodec.FragmentedHelloParses(m, fragments, extra);
  }

  /** A chunk of the client that begins before it has sent `size` bytes. */
  predicate IsEarly(inputs: seq<Input>, k: int, size: nat) {
    0 <= k < |inputs| && inputs[k].FromClient? && |ClientBytes(inputs[..k])| < size
  }

  /** The client sends a serialized ClientHello, cut into records and chunks in any way, and then whatever it likes; the
      bytes up to the chunk that completes the ClientHello fit 64 KiB. */
  ghost predicate SendsHello(m: HelloCodec.Message, fragments: seq<((byte, byte), seq<byte>)>, more: seq<byte>,
                             inputs: seq<Input>) {
    && HelloCodec.WellFormed(m) && |HelloCodec.PutHandshake(m)| <= MAX_CLIENT_HELLO
    && Records.Fragments(fragments) && Records.Payload(fragments) == HelloCodec.PutHandshake(m)
    && ClientBytes(inputs) == Records.Stream(fragments) + more
    && forall k :: IsEarly(inputs, k, |Records.Stream(fragments)|) ==>
                     |ClientBytes(inputs[..k])| + |inputs[k].bytes| <= MAX_CLIENT_HELLO
  }

  /** Chunk `n` brings the last of the first `size` bytes. */
  predicate Brings(inputs: seq<Input>, n: nat, size: nat) {
    && n < |inputs| && inputs[n].FromClient?
    && |ClientBytes(inputs[..n])| < size <= |ClientBytes(inputs[..n])| + |inputs[n].bytes|
  }

  /** After an accepted STARTTLS, every serialized ClientHello is fingerprinted as what it means, at the time of the
      chunk that completes it, however its records and the chunks are cut, whatever the server sends meanwhile, and
      however much the client sends afterwards. */
  lemma UpgradeIsFingerprinted(o: State, m: HelloCodec.Message, fragments: seq<((byte, byte), seq<byte>)>,
                               more: seq<byte>, inputs: seq<Input>)
    returns (n: nat)
    requires SmtpDialogue.Armed(o) && SendsHello(m, fragments, more, inputs)
    ensures Brings(inputs, n, |Records.Stream(fragments)|)
    ensures Run(o, inputs).flags.fingerprinted
    ensures Run(o, inputs).emitted ==
            o.emitted + [SmtpEvent.Stamp(HelloEvent(o.base, HelloCodec.Meaning(m), inputs[n].at), o.instance)]
  {
    StreamIsLong(m, fragments);
    var rest;
    n, rest := CutAtChunk(inputs, |Records.Stream(fragments)|);
    ChunkCompletes(m, fragments, more, ClientBytes(inputs[..n]), inputs[n].bytes, rest);
    PlusNothing(ClientBytes(inputs[..n]));
    HelloIsReported(o, inputs, n, HelloCodec.Meaning(m));
  }

  lemma StreamIsLong(m: HelloCodec.Message, fragments: seq<((byte, byte), seq<byte>)>)
    requires HelloCodec.WellFormed(m) && |HelloCodec.PutHandshake(m)| <= MAX_CLIENT_HELLO
    requires Records.Fragments(fragments) && Records.Payload(fragments) == HelloCodec.PutHandshake(m)
    ensures |Records.Stream(fragments)| >= 5
  {
    HelloCodec.FragmentedHelloParses(m, fragments, []);
  }

  /** The chunks are those of a compliant dialogue that ends in an accepted STARTTLS. */
  ghost predicate EndsInUpgrade(acts: seq<SmtpDialogue.Act>, dialogue: seq<Input>) {
    && SmtpDialogue.AllowedRun(SmtpDialogue.SILENCE, acts)
    && Flatten(dialogue) == SmtpDialogue.Heard(SmtpDialogue.SILENCE, acts)
    && (forall i :: 0 <= i < |dialogue| ==> |dialogue[i].bytes| <= MAX_CHUNK)
    && SmtpDialogue.Accepted(SmtpDialogue.After(SmtpDialogue.SILENCE, acts))
  }

  /** From the greeting to the fingerprint: a compliant dialogue that ends in an accepted STARTTLS, in any interleaving
      and cut, and after it a ClientHello in any cut, end fingerprinted, and the last event is the fingerprint of what
      the ClientHello means. */
  lemma DialogueIsFingerprinted(instance: string, base: SmtpEvent.Event, acts: seq<SmtpDialogue.Act>,
                                dialogue: seq<Input>, m: HelloCodec.Message,
                                fragments: seq<((byte, byte), seq<byte>)>, more: seq<byte>, later: seq<Input>)
    returns (n: nat)
    requires EndsInUpgrade(acts, dialogue) && SendsHello(m, fragments, more, later)
    ensures Brings(later, n, |Records.Stream(fragments)|)
    ensures EndState(Run(Fresh(instance, base), dialogue + later)) == "fingerprinted"
    ensures Run(Fresh(instance, base), dialogue + later).emitted ==
            Run(Fresh(instance, base), dialogue).emitted +
            [SmtpEvent.Stamp(HelloEvent(base, HelloCodec.Meaning(m), later[n].at), instance)]
  {
    var start := Fresh(instance, base);
    SmtpDialogue.ObserverIsFaithful(instance, base, acts, dialogue);
    RunJoins(start, dialogue, later);
    SmtpLoss.RunStory(start, instance, base, dialogue);
    n := UpgradeIsFingerprinted(Run(start, dialogue), m, fragments, more, later);
  }
}
