/** The behaviour summary of a compliant dialogue: what it tells of the client is true. */
module SmtpConduct {
  import opened Bytes
  import opened BehaviorSummary
  import opened SmtpBehavior
  import opened SmtpChunks
  import opened SmtpDialogue
  import opened SmtpLines
  import opened SmtpObserver
  import ClientHello
  import Records
  import SmtpEvent

  // ---------------------------------------------------------------------
  // What is said.

  function FirstWord(text: seq<byte>): string {
    var words := Words(Chars(text));
    if words == [] then "" else words[0]
  }

  /** The command that an act of the client completes, before or after the last byte of the greeting. */
  function Completed(t: Talk, act: Act): seq<Said> {
    if act.ClientSends? && t.saying.Some? && !t.saying.value.Body? && t.said + 1 == |Head(t.saying.value)| then
      var text := t.saying.value.text;
      [Said(text + [CR, LF], FirstWord(text), t.replies != [], act.at)]
    else []
  }

  /** The commands of a dialogue, in order. */
  function Commands(t: Talk, acts: seq<Act>): seq<Said>
    decreases |acts|
  {
    if acts == [] then [] else Completed(t, acts[0]) + Commands(Next(t, acts[0]), acts[1..])
  }

  /** What became of STARTTLS. */
  ghost function Verdict(t: Talk): string
    requires Answered(t) <= |t.sent|
  {
    if Upgraded(t, Answered(t)) then "accepted" else if Declined(t, Answered(t)) then "refused" else ""
  }

  // ---------------------------------------------------------------------
  // One byte.

  lemma SameVerbTracks(b: Tracked, raw: seq<byte>, word: string, greeted: bool, at: int)
    ensures Track(b, raw, CanonicalVerb(word), greeted, at) == Track(b, raw, word, greeted, at)
  {
    CanonicalIsVocabulary(CanonicalVerb(word));
    CanonicalIsVocabulary(word);
  }

  lemma TracksOne(b: Tracked, s: Said)
    ensures Tracks(b, [s]) == Track(b, s.raw, s.verb, s.greeted, s.at)
  {
    assert [s][..0] == [];
    assert Tracks(b, [s][..0]) == b;
  }

  lemma {:induction false} TracksSum(b: Tracked, a: seq<Said>, c: seq<Said>)
    ensures Tracks(b, a + c) == Tracks(Tracks(b, a), c)
    decreases |c|
  {
    if c == [] {
      PlusNothing(a);
    } else {
      var n := |c| - 1;
      assert (a + c)[..|a + c| - 1] == a + c[..n] && (a + c)[|a + c| - 1] == c[n];
      TracksSum(b, a, c[..n]);
    }
  }

  /** The tracker without the outcome. */
  function Core(b: Tracked): Tracked {
    b.(starttlsOutcome := "")
  }

  lemma {:induction false} CoreTracks(b: Tracked, said: seq<Said>)
    ensures Core(Tracks(b, said)) == Tracks(Core(b), said)
    ensures Tracks(b, said).starttlsOutcome == b.starttlsOutcome
    decreases |said|
  {
    if said != [] {
      CoreTracks(b, said[..|said| - 1]);
    }
  }

  lemma CommandConduct(o: State, t: Talk, at: int)
    requires SmtpDialogue.Ok(t) && GoodTalk(t) && Faithful(o, t) && t.saying.Some? && !t.saying.value.Body?
    requires t.said < |Head(t.saying.value)| && Head(t.saying.value)[t.said] == LF
    ensures ClientByte(o, LF, at).behavior == Tracks(o.behavior, Completed(t, ClientSends(at)))
  {
    var text := t.saying.value.text;
    CommandTaken(o, t, at);
    SmtpDialogue.FirstWord(Chars(text));
    SameVerbTracks(o.behavior, text + [CR, LF], FirstWord(text), o.flags.greeted, at);
    TracksOne(o.behavior, Completed(t, ClientSends(at))[0]);
  }

  lemma InsideConduct(o: State, t: Talk, at: int)
    requires SmtpDialogue.Ok(t) && GoodTalk(t) && Faithful(o, t) && t.saying.Some? && t.said < |Head(t.saying.value)|
    requires Head(t.saying.value)[t.said] != LF
    ensures ClientByte(o, Head(t.saying.value)[t.said], at).behavior == o.behavior
    ensures Completed(t, ClientSends(at)) == []
  {
    var u := t.saying.value;
    UnitLines(u);
    var k := WirePart(Lines(u), t.said);
    InsideLine(o, t, at);
    InsideByte(o, Head(u)[t.said], at);
  }

  lemma BodyConduct(o: State, t: Talk, at: int)
    requires SmtpDialogue.Ok(t) && GoodTalk(t) && Faithful(o, t) && t.saying.Some? && t.saying.value.Body?
    requires t.said < |Head(t.saying.value)| && Head(t.saying.value)[t.said] == LF
    ensures ClientByte(o, LF, at).behavior == o.behavior && Completed(t, ClientSends(at)) == []
  {
    var k := EndOfLine(o, t, at);
    BodyLineMeans(o.(clientLines := []), t.saying.value, k);
  }

  lemma PayloadConduct(o: State, t: Talk, at: int)
    requires SmtpDialogue.Ok(t) && Faithful(o, t) && InPayload(t)
    ensures ClientByte(o, Wire(t.saying.value)[t.said], at).behavior == o.behavior
    ensures Completed(t, ClientSends(at)) == []
  {
  }

  /** A byte of the client is tracked when it completes a command, and only then. */
  lemma ClientConduct(o: State, t: Talk, at: int)
    requires SmtpDialogue.Ok(t) && GoodTalk(t) && Faithful(o, t) && t.saying.Some?
    ensures ClientByte(o, Wire(t.saying.value)[t.said], at).behavior ==
            Tracks(o.behavior, Completed(t, ClientSends(at)))
  {
    var u := t.saying.value;
    if t.said >= |Head(u)| {
      PayloadConduct(o, t, at);
    } else if Head(u)[t.said] != LF {
      InsideConduct(o, t, at);
    } else if u.Body? {
      BodyConduct(o, t, at);
    } else {
      CommandConduct(o, t, at);
    }
  }

  lemma ReplyConduct(o: State, line: seq<byte>, at: int)
    requires o.commands != []
    ensures Reply(o, line, at).behavior ==
            if o.commands[0] != "STARTTLS" then o.behavior
            else o.behavior.(starttlsOutcome := if HasCode(line, "220") then "accepted" else "refused")
  {
  }

  /** The last byte of a reply to STARTTLS sets the outcome. */
  lemma FinalConduct(o: State, t: Talk, at: int)
    requires SmtpDialogue.Ok(t) && Faithful(o, t) && !Upgraded(t, Answered(t)) && t.replying.Some? && t.replies != []
    requires GoodTalk(t) && o.behavior.starttlsOutcome == Verdict(t)
    requires WireReply(t.replying.value)[t.replied] == LF && t.replied + 1 == |WireReply(t.replying.value)|
    ensures Answered(Next(t, ServerSends(at))) <= |Next(t, ServerSends(at)).sent|
    ensures ServerByte(o, LF, at).behavior == o.behavior.(starttlsOutcome := Verdict(Next(t, ServerSends(at))))
  {
    var a := t.replying.value;
    FinalByte(o, t, at);
    OldestVerb(t);
    FinalLine(o.(serverLines := []), a, at);
    ReplyConduct(o.(serverLines := []), a.code + a.text, at);
    ReplyKeepsOk(t, at);
    ReplyDecides(t, at);
  }

  /** Before the last line of a reply, and in the greeting, no line matters. */
  lemma QuietLine(o: State, line: seq<byte>, at: int)
    requires (|line| > 3 && line[3] == DASH) || !o.flags.greeted
    ensures ServerLine(o, line, at).behavior == o.behavior
  {
  }

  lemma QuietReplyLine(o: State, t: Talk, at: int)
    requires SmtpDialogue.Ok(t) && GoodTalk(t) && Faithful(o, t) && t.replying.Some?
    requires WireReply(t.replying.value)[t.replied] == LF
    requires t.replies == [] || t.replied + 1 < |WireReply(t.replying.value)|
    ensures ServerByte(o, LF, at).behavior == o.behavior
  {
    AnswerLines(t.replying.value);
    var k := EndOfReplyLine(o, t, at);
    if t.replies != [] {
      assert ReplyLines(t.replying.value)[k][3] == DASH;
    }
    QuietLine(o.(serverLines := []), ReplyLines(t.replying.value)[k], at);
  }

  lemma HeardConduct(o: State, t: Talk, at: int)
    requires SmtpDialogue.Ok(t) && GoodTalk(t) && Faithful(o, t) && t.replying.Some?
    requires t.replies == [] || t.replied + 1 < |WireReply(t.replying.value)|
    ensures ServerByte(o, WireReply(t.replying.value)[t.replied], at).behavior == o.behavior
  {
    var a := t.replying.value;
    if WireReply(a)[t.replied] == LF {
      QuietReplyLine(o, t, at);
    } else {
      AnswerLines(a);
      var k := WirePart(ReplyLines(a), t.replied);
      InsideReplyByte(o, WireReply(a)[t.replied], at);
    }
  }

  lemma VerdictStays(t: Talk, n: Talk)
    requires n.replies == t.replies && t.sent <= n.sent && Answered(t) <= |t.sent|
    ensures Verdict(n) == Verdict(t)
  {
    AnswersStay(t, n, Answered(t));
  }

  lemma GreetingVerdict(t: Talk, at: int)
    requires SmtpDialogue.Ok(t) && t.replying.Some? && t.replies == [] && Answered(Next(t, ServerSends(at))) <= |t.sent|
    ensures Verdict(Next(t, ServerSends(at))) == Verdict(t) == ""
  {
  }

  /** A byte of the server changes at most the outcome. */
  lemma ServerConduct(o: State, t: Talk, at: int)
    requires SmtpDialogue.Ok(t) && Faithful(o, t) && !Upgraded(t, Answered(t)) && t.replying.Some? && GoodTalk(t)
    requires o.behavior.starttlsOutcome == Verdict(t)
    ensures Answered(Next(t, ServerSends(at))) <= |Next(t, ServerSends(at)).sent|
    ensures ServerByte(o, WireReply(t.replying.value)[t.replied], at).behavior ==
            o.behavior.(starttlsOutcome := Verdict(Next(t, ServerSends(at))))
  {
    var a, n := t.replying.value, Next(t, ServerSends(at));
    if t.replied + 1 < |WireReply(a)| {
      HeardConduct(o, t, at);
      VerdictStays(t, n);
    } else {
      LastReplyByte(t);
      if t.replies == [] {
        HeardConduct(o, t, at);
        GreetingVerdict(t, at);
      } else {
        FinalConduct(o, t, at);
      }
    }
  }

  lemma LastReplyByte(t: Talk)
    requires SmtpDialogue.Ok(t) && GoodTalk(t) && t.replying.Some? && t.replied + 1 == |WireReply(t.replying.value)|
    ensures WireReply(t.replying.value)[t.replied] == LF
  {
    AnswerLines(t.replying.value);
    var k := WirePart(ReplyLines(t.replying.value), t.replied);
  }

  // ---------------------------------------------------------------------
  // Whole dialogues.

  /** The tracker has seen these commands, and the outcome of STARTTLS. */
  ghost predicate Conducts(o: State, t: Talk, said: seq<Said>) {
    Knows(o, t) && Core(o.behavior) == Tracks(FRESH, said) && o.behavior.starttlsOutcome == Verdict(t)
  }

  lemma MoreCommands(b: Tracked, c: Tracked, said: seq<Said>, more: seq<Said>)
    requires Core(b) == Tracks(FRESH, said) && c == Tracks(b, more)
    ensures Core(c) == Tracks(FRESH, said + more) && c.starttlsOutcome == b.starttlsOutcome
  {
    CoreTracks(b, more);
    TracksSum(FRESH, said, more);
  }

  lemma ActConduct(o: State, t: Talk, act: Act, said: seq<Said>)
    requires Conducts(o, t, said) && Allowed(t, act)
    ensures Conducts(RunBytes(o, SmtpDialogue.Sound(t, act)), Next(t, act), said + Completed(t, act))
  {
    OutcomesAgree(t);
    ActStep(o, t, act);
    match act {
      case ClientSends(at) =>
        ClientAct(o, t, at);
        OneByte(o, SmtpDialogue.Sound(t, act)[0]);
        ClientConduct(o, t, at);
        ClientTalk(t, at);
        VerdictStays(t, Next(t, act));
        MoreCommands(o.behavior, RunBytes(o, SmtpDialogue.Sound(t, act)).behavior, said, Completed(t, act));
      case ServerSends(at) =>
        ServerAct(o, t, at);
        OneByte(o, SmtpDialogue.Sound(t, act)[0]);
        ServerConduct(o, t, at);
        PlusNothing(said);
      case _ =>
        VerdictStays(t, Next(t, act));
        PlusNothing(said);
    }
  }

  lemma {:induction false} ActsConduct(o: State, t: Talk, acts: seq<Act>, said: seq<Said>)
    requires Conducts(o, t, said) && AllowedRun(t, acts)
    ensures Conducts(RunBytes(o, Heard(t, acts)), After(t, acts), said + Commands(t, acts))
    decreases |acts|
  {
    if acts == [] {
      PlusNothing(said);
    } else {
      var sound, rest := SmtpDialogue.Sound(t, acts[0]), Heard(Next(t, acts[0]), acts[1..]);
      ActConduct(o, t, acts[0], said);
      RunBytesSplits(o, sound, rest);
      ActsConduct(RunBytes(o, sound), Next(t, acts[0]), acts[1..], said + Completed(t, acts[0]));
      Associative(said, Completed(t, acts[0]), Commands(Next(t, acts[0]), acts[1..]));
    }
  }

  lemma ConductOfRun(instance: string, base: SmtpEvent.Event, acts: seq<Act>, inputs: seq<Input>)
    requires AllowedRun(SILENCE, acts) && Flatten(inputs) == Heard(SILENCE, acts)
    requires forall i :: 0 <= i < |inputs| ==> |inputs[i].bytes| <= MAX_CHUNK
    ensures Conducts(Run(Fresh(instance, base), inputs), After(SILENCE, acts), Commands(SILENCE, acts))
  {
    SilenceIsKnown(instance, base);
    BytesDecide(instance, base, acts, inputs);
    ActsConduct(Fresh(instance, base), SILENCE, acts, []);
    assert [] + Commands(SILENCE, acts) == Commands(SILENCE, acts);
  }

  lemma ConductIsSummed(o: State, t: Talk, said: seq<Said>, start: Option<int>, incomplete: bool)
    requires Conducts(o, t, said) && (incomplete ==> Accepted(t))
    ensures var b := Snapshot(o.behavior, start, incomplete);
            && Summarizes(b, said, start)
            && b.starttlsOutcome == (if Accepted(t) then "accepted" else if Refused(t) then "refused" else "not_seen")
  {
    OutcomesAgree(t);
    assert o.behavior == Tracks(FRESH, said).(starttlsOutcome := Verdict(t));
    SummaryMeans(said, Verdict(t), start, incomplete);
  }

  lemma {:induction false} ArmedKeepsBehavior(o: State, inputs: seq<Input>)
    requires o.flags.tlsArmed
    ensures Run(o, inputs).behavior == o.behavior
    decreases |inputs|
  {
    if inputs != [] {
      TLSKeepsBehavior(o, inputs[0].bytes, inputs[0].at);
      ArmedKeepsBehavior(Step(o, inputs[0]), inputs[1..]);
    }
  }

  lemma TLSKeepsBehavior(o: State, p: seq<byte>, at: int)
    ensures ObserveTLS(o, p, at).behavior == o.behavior && ObserveTLS(o, p, at).flags.tlsArmed == o.flags.tlsArmed
  {
    var assembly := Records.FromBytes(o.tlsBytes + p);
    if assembly.Assembled? {
      var result := ClientHello.Parse(assembly.buffer);
    }
  }

  /** The summary that ends the journal of a compliant dialogue, in every interleaving and cut, and whatever TLS bytes
      follow an accepted upgrade, says what the client's commands were, when they came, and which were early; its
      outcome is that of the replies to STARTTLS. */
  lemma SummaryIsTrue(instance: string, base: SmtpEvent.Event, acts: seq<Act>, inputs: seq<Input>, later: seq<Input>)
    requires AllowedRun(SILENCE, acts) && Flatten(inputs) == Heard(SILENCE, acts)
    requires forall i :: 0 <= i < |inputs| ==> |inputs[i].bytes| <= MAX_CHUNK
    requires Accepted(After(SILENCE, acts)) || later == []
    ensures var o, t := Run(Fresh(instance, base), inputs + later), After(SILENCE, acts);
            var b := Snapshot(o.behavior, base.timestamp, o.flags.disabled);
            && Summarizes(b, Commands(SILENCE, acts), base.timestamp)
            && b.starttlsOutcome == (if Accepted(t) then "accepted" else if Refused(t) then "refused" else "not_seen")
  {
    var start := Fresh(instance, base);
    var r, o, t := Run(start, inputs), Run(start, inputs + later), After(SILENCE, acts);
    ObserverIsFaithful(instance, base, acts, inputs);
    ConductOfRun(instance, base, acts, inputs);
    RunJoins(start, inputs, later);
    if later != [] {
      ArmedKeepsBehavior(r, later);
    }
    ConductIsSummed(r, t, Commands(SILENCE, acts), base.timestamp, o.flags.disabled);
  }

  lemma BytesDecide(instance: string, base: SmtpEvent.Event, acts: seq<Act>, inputs: seq<Input>)
    requires AllowedRun(SILENCE, acts) && Flatten(inputs) == Heard(SILENCE, acts)
    requires forall i :: 0 <= i < |inputs| ==> |inputs[i].bytes| <= MAX_CHUNK
    ensures Run(Fresh(instance, base), inputs) == RunBytes(Fresh(instance, base), Heard(SILENCE, acts))
  {
    var start := Fresh(instance, base);
    SilenceIsKnown(instance, base);
    FreshIsValid(instance, base);
    BytesFollow(start, SILENCE, acts);
    CalmRunIsClean(start, inputs);
    RunIsBytes(start, inputs);
    KnownStays(RunBytes(start, Heard(SILENCE, acts)), Run(start, inputs), After(SILENCE, acts));
  }

  lemma KnownStays(r: State, o: State, t: Talk)
    requires Knows(r, t) && Forget(o) == Forget(r)
    ensures o == r
  {
  }
}
