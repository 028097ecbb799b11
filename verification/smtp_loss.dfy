/** From the observer to the connection record (handleSMTPConn in smtp_proxy.go, completeObservation
    in smtp_correlate.go): what an unreliable journal can and cannot do to a record. */
module SmtpLoss {
  import opened Bytes
  import opened SmtpEvent
  import opened SmtpFold
  import opened SmtpJournal
  import opened SmtpBehavior
  import opened SmtpLines
  import opened SmtpObserver
  import opened SmtpChunks
  import opened SmtpEnding
  import Fingerprint
  import SmtpProxy
  import ClientHello
  import Records

  // ---------------------------------------------------------------------
  // The consumer's test.

  /** A zero time is before every other time. */
  predicate Before(a: Option<int>, b: Option<int>) {
    b.Some? && (a.None? || a.value < b.value)
  }

  /** What the reported end state lets a reader expect. */
  datatype Ending = NoUpgrade | UpgradeSeen | UpgradeUnread | NotObserved

  function EndingOf(state: string): Ending {
    if state == "no_observed_upgrade" || state == "starttls_refused" || state == "premature_tls" then NoUpgrade
    else if state == "fingerprinted" then UpgradeSeen
    else if state == "starttls_accepted_no_fingerprint" then UpgradeUnread
    else NotObserved
  }

  predicate CompleteObservation(r: Record) {
    && !r.invalid && r.start.Some? && !Before(r.end, r.start)
    && match EndingOf(r.state)
       case NoUpgrade => r.accepted.None? && r.tls.None?
       case UpgradeSeen =>
         && r.accepted.Some? && !Before(r.tls, r.accepted) && !Before(r.accepted, r.start) && !Before(r.end, r.tls)
         && r.ja3 != "" && r.ja4.Some?
       case UpgradeUnread => r.accepted.Some? && !Before(r.accepted, r.start) && !Before(r.end, r.accepted)
       case NotObserved => false
  }

  /** The time is known and not before the other, which is known too. */
  predicate NotBefore(later: Option<int>, earlier: Option<int>) {
    later.Some? && earlier.Some? && earlier.value <= later.value
  }

  /** What a complete record shows, for each reported end state. */
  lemma CompleteExactlyWhen(r: Record)
    ensures CompleteObservation(r) <==>
            && !r.invalid && NotBefore(r.end, r.start)
            && (|| (r.state in ["no_observed_upgrade", "starttls_refused", "premature_tls"] && r.accepted == None &&
                    r.tls == None)
                || (r.state == "fingerprinted" && NotBefore(r.accepted, r.start) && NotBefore(r.tls, r.accepted) &&
                    NotBefore(r.end, r.tls) && r.ja3 != "" && r.ja4 != None)
                || (r.state == "starttls_accepted_no_fingerprint" && NotBefore(r.accepted, r.start) &&
                    NotBefore(r.end, r.accepted)))
  {
  }

  // ---------------------------------------------------------------------
  // The producer.

  /** The identity of a connection, with the time at which it started. */
  predicate Named(base: Event) {
    base.connectionId != "" && base.client != "" && base.listener != "" && base.timestamp.Some?
  }

  function StartOf(instance: string, base: Event): Event {
    Stamp(base.(kind := StartEvent), instance)
  }

  function EndOf(instance: string, base: Event, state: string, error: string, behavior: Option<Behavior>,
                 at: int): Event {
    Stamp(base.(kind := EndEvent, state := state, error := error, behavior := behavior, timestamp := Some(at)),
          instance)
  }

  /** What handleSMTPConn emits for a connection whose backend answers. */
  function Journal(instance: string, base: Event, inputs: seq<Input>, at: int): seq<Event> {
    var o := Run(Fresh(instance, base), inputs);
    var summary := Snapshot(o.behavior, base.timestamp, o.flags.disabled);
    [StartOf(instance, base)] + o.emitted + [EndOf(instance, base, EndState(o), "", Some(summary), at)]
  }

  /** What it emits when the backend cannot be reached or told who the client is. */
  function FailedJournal(instance: string, base: Event, error: string, at: int): seq<Event> {
    [StartOf(instance, base), EndOf(instance, base, "observer_incomplete", error, None, at)]
  }

  /** The event order of one connection; a failure before the relay starts is an error text. */
  method HandleSMTPConn(instance: string, base: Event, failure: string, inputs: seq<Input>, at: int)
    returns (journal: seq<Event>)
    ensures journal ==
            if failure == "" then Journal(instance, base, inputs, at) else FailedJournal(instance, base, failure, at)
  {
    journal := [StartOf(instance, base)];
    var end := base.(kind := EndEvent, state := "observer_incomplete", timestamp := Some(at));
    if failure != "" {
      return journal + [Stamp(end.(error := failure, behavior := None), instance)];
    }
    var o := new SmtpProxy.SmtpObserver(instance, base);
    for i := 0 to |inputs|
      invariant fresh(o) && fresh(o.behavior) && o.base == base
      invariant Valid(o.Abs())
      invariant Run(o.Abs(), inputs[i..]) == Run(Fresh(instance, base), inputs)
    {
      assert inputs[i..][0] == inputs[i] && inputs[i..][1..] == inputs[i + 1..];
      match inputs[i] {
        case FromClient(bytes, now) => o.Client(bytes, now);
        case FromServer(bytes, now) => o.Server(bytes, now);
      }
    }
    var state := o.EndState();
    var summary := o.BehaviorSnapshot();
    journal := journal + o.emitted + [Stamp(end.(state := state, error := "", behavior := Some(summary)), instance)];
  }

  // ---------------------------------------------------------------------
  // What a run has told so far.

  predicate Own(e: Event, instance: string, base: Event) {
    e.instance == instance && e.connectionId == base.connectionId && e.client == base.client &&
    e.listener == base.listener
  }

  /** An event that an observer emits between the start and the end of its connection. */
  predicate Middle(e: Event, instance: string, base: Event) {
    && Own(e, instance, base) && e.timestamp.Some?
    && (e.kind == StarttlsEvent || (e.kind == FingerprintEvent && e.ja3 != "" && e.ja4.Some?))
  }

  ghost predicate AnyAccepts(es: seq<Event>) {
    exists e :: e in es && Accepts(e)
  }

  ghost predicate AnyRefuses(es: seq<Event>) {
    exists e :: e in es && e.kind == StarttlsEvent && e.state == "refused"
  }

  ghost predicate AnyPrints(es: seq<Event>) {
    exists e :: e in es && e.kind == FingerprintEvent
  }

  /** At most one upgrade and one fingerprint. */
  ghost predicate OneOfEach(es: seq<Event>) {
    forall e, f :: e in es && f in es && Single(e) && Single(f) && e.kind == f.kind ==> e == f
  }

  /** A fingerprint comes after the upgrade. */
  predicate UpgradeFirst(es: seq<Event>) {
    forall i, j :: 0 <= i < |es| && 0 <= j < |es| && Accepts(es[i]) && es[j].kind == FingerprintEvent ==> i < j
  }

  ghost predicate Told(es: seq<Event>, instance: string, base: Event, armed: bool, refused: bool, printed: bool) {
    && (forall e :: e in es ==> Middle(e, instance, base))
    && (armed <==> AnyAccepts(es))
    && (refused <==> AnyRefuses(es))
    && (printed <==> AnyPrints(es))
    && OneOfEach(es) && UpgradeFirst(es)
  }

  ghost predicate Story(o: State, instance: string, base: Event) {
    && o.instance == instance && o.base == base
    && Told(o.emitted, instance, base, o.flags.tlsArmed, o.flags.refused, o.flags.fingerprinted)
    && (o.flags.fingerprinted ==> o.flags.tlsArmed)
  }

  lemma TellOutcome(es: seq<Event>, instance: string, base: Event, e: Event, refused: bool)
    requires Told(es, instance, base, false, refused, false)
    requires Middle(e, instance, base) && e.kind == StarttlsEvent
    ensures Told(es + [e], instance, base, e.state == "accepted", refused || e.state == "refused", false)
  {
    MemberSnoc(es, e);
  }

  lemma TellPrint(es: seq<Event>, instance: string, base: Event, e: Event, refused: bool)
    requires Told(es, instance, base, true, refused, false)
    requires Middle(e, instance, base) && e.kind == FingerprintEvent
    ensures Told(es + [e], instance, base, true, refused, true)
  {
    MemberSnoc(es, e);
  }

  /** A part of the state that client lines leave alone. */
  predicate SameTale(o: State, r: State) {
    && r.instance == o.instance && r.base == o.base && r.emitted == o.emitted
    && r.flags.tlsArmed == o.flags.tlsArmed && r.flags.fingerprinted == o.flags.fingerprinted
    && r.flags.refused == o.flags.refused
  }

  lemma {:induction false} ClientLoopTellsNothing(o: State, at: int)
    ensures SameTale(o, ClientLoop(o, at))
    decreases |o.clientLines|, o.bdatRemaining > 0
  {
    if o.bdatRemaining > 0 {
      LoopOnPayload(o, at);
      if o.bdatRemaining <= |o.clientLines| {
        ClientLoopTellsNothing(o.(clientLines := o.clientLines[o.bdatRemaining..], bdatRemaining := 0), at);
      }
    } else if |o.clientLines| <= MAX_LINES && LF in o.clientLines {
      var i := IndexOf(o.clientLines, LF);
      var line, rest := o.clientLines[..i], o.clientLines[i + 1..];
      LoopOnLine(o, line, rest, at);
      ClientLineFrame(o.(clientLines := rest), line + [LF], at);
      var r := ClientLine(o.(clientLines := rest), line + [LF], at);
      if !r.flags.disabled {
        ClientLoopTellsNothing(r, at);
      }
    }
  }

  lemma HelloStory(o: State, instance: string, base: Event, h: ClientHello.Hello, at: int)
    requires Story(o, instance, base) && o.flags.tlsArmed && !o.flags.fingerprinted
    ensures Story(Fingerprinted(o, HelloEvent(o.base, h, at)), instance, base)
  {
    var e := Stamp(HelloEvent(base, h, at), instance);
    TextHasCommas(h);
    TellPrint(o.emitted, instance, base, e, o.flags.refused);
  }

  lemma TextHasCommas(h: ClientHello.Hello)
    ensures Fingerprint.JA3Text(h) != ""
  {
    assert |Fingerprint.JA3Parts(h)| == 5;
  }

  lemma ConcludeStory(o: State, instance: string, base: Event, result: ClientHello.ParseResult, at: int)
    requires Story(o, instance, base) && o.flags.tlsArmed && !o.flags.fingerprinted
    ensures Story(Conclude(o, result, at), instance, base)
  {
    if result.Ok? {
      HelloStory(o, instance, base, result.value, at);
    }
  }

  lemma SettleStory(o: State, instance: string, base: Event, assembly: Records.Assembly, at: int)
    requires Story(o, instance, base) && o.flags.tlsArmed && !o.flags.fingerprinted
    ensures Story(Settle(o, assembly, at), instance, base)
  {
    if assembly.Assembled? {
      ConcludeStory(o, instance, base, ClientHello.Parse(assembly.buffer), at);
    }
  }

  lemma TLSStory(o: State, instance: string, base: Event, p: seq<byte>, at: int)
    requires Story(o, instance, base) && o.flags.tlsArmed && !o.flags.fingerprinted
    ensures Story(ObserveTLS(o, p, at), instance, base)
  {
    var r := o.(tlsBytes := o.tlsBytes + p);
    SettleStory(r, instance, base, Records.FromBytes(r.tlsBytes), at);
  }

  lemma ClientStory(o: State, instance: string, base: Event, p: seq<byte>, at: int)
    requires Story(o, instance, base)
    ensures Story(Client(o, p, at), instance, base)
  {
    if !o.flags.fingerprinted && !o.flags.disabled {
      if o.flags.tlsArmed {
        TLSStory(o, instance, base, p, at);
      } else {
        ClientLoopTellsNothing(o.(clientLines := o.clientLines + p), at);
      }
    }
  }

  lemma ServerLineStory(o: State, instance: string, base: Event, line: seq<byte>, at: int)
    requires Story(o, instance, base) && !o.flags.tlsArmed
    ensures Story(ServerLine(o, line, at), instance, base)
  {
    OutcomeStory(o, instance, base, "accepted", at);
    OutcomeStory(o, instance, base, "refused", at);
  }

  lemma OutcomeStory(o: State, instance: string, base: Event, outcome: string, at: int)
    requires Story(o, instance, base) && !o.flags.tlsArmed
    ensures Told(Outcome(o, outcome, at).emitted, instance, base, outcome == "accepted",
                 o.flags.refused || outcome == "refused", false)
  {
    var e := Stamp(base.(kind := StarttlsEvent, timestamp := Some(at), state := outcome), instance);
    TellOutcome(o.emitted, instance, base, e, o.flags.refused);
  }

  lemma {:induction false} ServerLoopStory(o: State, instance: string, base: Event, at: int)
    requires Story(o, instance, base) && !o.flags.tlsArmed
    ensures Story(ServerLoop(o, at), instance, base)
    decreases |o.serverLines|
  {
    if LF !in o.serverLines {
      ServerOnPart(o, at);
    } else {
      var i := IndexOf(o.serverLines, LF);
      var line, rest := o.serverLines[..i], o.serverLines[i + 1..];
      ServerOnLine(o, line, rest, at);
      ServerLineStory(o.(serverLines := rest), instance, base, TrimEnd(line + [LF]), at);
      var r := ServerLine(o.(serverLines := rest), TrimEnd(line + [LF]), at);
      if !r.flags.tlsArmed {
        ServerLoopStory(r, instance, base, at);
      }
    }
  }

  lemma ServerStory(o: State, instance: string, base: Event, p: seq<byte>, at: int)
    requires Story(o, instance, base)
    ensures Story(Server(o, p, at), instance, base)
  {
    if Reading(o) && |o.serverLines + p| <= MAX_LINES {
      ServerLoopStory(o.(serverLines := o.serverLines + p), instance, base, at);
    }
  }

  /** Whatever the clock does, the emitted events are the connection's own, with at most one upgrade and, after it, at
      most one fingerprint. */
  lemma {:induction false} RunStory(o: State, instance: string, base: Event, inputs: seq<Input>)
    requires Story(o, instance, base)
    ensures Story(Run(o, inputs), instance, base)
    decreases |inputs|
  {
    if inputs != [] {
      match inputs[0] {
        case FromClient(bytes, at) => ClientStory(o, instance, base, bytes, at);
        case FromServer(bytes, at) => ServerStory(o, instance, base, bytes, at);
      }
      RunStory(Step(o, inputs[0]), instance, base, inputs[1..]);
    }
  }

  // ---------------------------------------------------------------------
  // The times of the events.

  /** The clock does not go back, and does not pass `last`. */
  predicate Ordered(now: int, inputs: seq<Input>, last: int)
    decreases |inputs|
  {
    if inputs == [] then now <= last else now <= inputs[0].at && Ordered(inputs[0].at, inputs[1..], last)
  }

  /** The events are in the order of their times, which are between `from` and `now`. */
  predicate Rising(es: seq<Event>, from: int, now: int) {
    && from <= now
    && (forall i :: 0 <= i < |es| ==> es[i].timestamp.Some? && from <= es[i].timestamp.value <= now)
    && forall i, j :: 0 <= i < j < |es| ==> es[i].timestamp.value <= es[j].timestamp.value
  }

  lemma RisesTo(es: seq<Event>, e: Event, from: int, now: int, at: int)
    requires Rising(es, from, now) && now <= at && e.timestamp == Some(at)
    ensures Rising(es + [e], from, at)
  {
  }

  lemma {:induction false} ServerLoopRises(o: State, from: int, now: int, at: int)
    requires Rising(o.emitted, from, now) && now <= at
    ensures Rising(ServerLoop(o, at).emitted, from, at)
    decreases |o.serverLines|
  {
    if LF !in o.serverLines {
      ServerOnPart(o, at);
    } else {
      var i := IndexOf(o.serverLines, LF);
      var line, rest := o.serverLines[..i], o.serverLines[i + 1..];
      ServerOnLine(o, line, rest, at);
      var r := ServerLine(o.(serverLines := rest), TrimEnd(line + [LF]), at);
      LineRises(o.(serverLines := rest), TrimEnd(line + [LF]), from, now, at);
      if !r.flags.tlsArmed {
        ServerLoopRises(r, from, at, at);
      }
    }
  }

  lemma LineRises(o: State, line: seq<byte>, from: int, now: int, at: int)
    requires Rising(o.emitted, from, now) && now <= at
    ensures Rising(ServerLine(o, line, at).emitted, from, at)
  {
    var e := o.base.(kind := StarttlsEvent, timestamp := Some(at));
    RisesTo(o.emitted, Stamp(e.(state := "accepted"), o.instance), from, now, at);
    RisesTo(o.emitted, Stamp(e.(state := "refused"), o.instance), from, now, at);
  }

  lemma TLSRises(o: State, p: seq<byte>, from: int, now: int, at: int)
    requires Rising(o.emitted, from, now) && now <= at
    ensures Rising(ObserveTLS(o, p, at).emitted, from, at)
  {
    var assembly := Records.FromBytes(o.tlsBytes + p);
    if assembly.Assembled? {
      var result := ClientHello.Parse(assembly.buffer);
      if result.Ok? {
        RisesTo(o.emitted, Stamp(HelloEvent(o.base, result.value, at), o.instance), from, now, at);
      }
    }
  }

  lemma StepRises(o: State, i: Input, from: int, now: int)
    requires Rising(o.emitted, from, now) && now <= i.at
    ensures Rising(Step(o, i).emitted, from, i.at)
  {
    if i.FromServer? {
      ServerLoopRises(o.(serverLines := o.serverLines + i.bytes), from, now, i.at);
    } else {
      TLSRises(o, i.bytes, from, now, i.at);
      ClientLoopTellsNothing(o.(clientLines := o.clientLines + i.bytes), i.at);
    }
  }

  /** With a clock that does not go back, the emitted events are in the order of their times. */
  lemma {:induction false} RunRises(o: State, from: int, inputs: seq<Input>, now: int, last: int)
    requires Rising(o.emitted, from, now) && Ordered(now, inputs, last)
    ensures Rising(Run(o, inputs).emitted, from, last)
    decreases |inputs|
  {
    if inputs != [] {
      StepRises(o, inputs[0], from, now);
      RunRises(Step(o, inputs[0]), from, inputs[1..], inputs[0].at, last);
    }
  }

  // ---------------------------------------------------------------------
  // The record of a whole connection.

  /** Everything that the journal of a finished connection contains. */
  ghost predicate WholeJournal(es: seq<Event>, instance: string, base: Event, o: State, end: Event) {
    && Named(base) && Story(o, instance, base) && Valid(o)
    && (forall e :: e in es <==> e == StartOf(instance, base) || e in o.emitted || e == end)
    && end.kind == EndEvent && end.timestamp.Some? && Own(end, instance, base) && end.state == EndState(o)
  }

  lemma Ends(instance: string, base: Event, es: seq<Event>, end: Event)
    ensures var js := [StartOf(instance, base)] + es + [end];
            js[|js| - 1] == end && forall e :: e in js <==> e == StartOf(instance, base) || e in es || e == end
  {
  }

  lemma JournalIsWhole(instance: string, base: Event, inputs: seq<Input>, at: int) returns (end: Event)
    requires Named(base)
    ensures WholeJournal(Journal(instance, base, inputs, at), instance, base, Run(Fresh(instance, base), inputs), end)
    ensures end.timestamp == Some(at)
  {
    var o := Fresh(instance, base);
    FreshIsValid(instance, base);
    RunIsValid(o, inputs);
    RunStory(o, instance, base, inputs);
    var r := Run(o, inputs);
    end := EndOf(instance, base, EndState(r), "", Some(Snapshot(r.behavior, base.timestamp, r.flags.disabled)), at);
    Ends(instance, base, r.emitted, end);
  }

  /** The events of one connection never contradict each other. */
  lemma WholeIsConsistent(es: seq<Event>, instance: string, base: Event, o: State, end: Event)
    requires WholeJournal(es, instance, base, o, end)
    ensures !Conflicted(es) && OneConnection(es) && Settled(es)
  {
    var start := StartOf(instance, base);
    forall e | e in es
      ensures Own(e, instance, base) && KnownKind(e)
      ensures e == start || e == end || Middle(e, instance, base)
    {
    }
    forall e, f | e in es && f in es
      ensures !Contradicts(e, f)
    {
      assert Own(e, instance, base) && Own(f, instance, base);
      assert OneOfEach(o.emitted);
    }
  }

  /** The times and marks of a record of a whole journal. */
  lemma WholeRecord(r: Record, es: seq<Event>, instance: string, base: Event, o: State, end: Event)
    requires WholeJournal(es, instance, base, o, end) && Describes(r, es)
    ensures r.start == base.timestamp && r.end == end.timestamp && r.state == EndState(o)
    ensures Has(es, StarttlsEvent) <==> o.flags.tlsArmed
    ensures Has(es, FingerprintEvent) <==> o.flags.fingerprinted
    ensures !o.flags.tlsArmed ==> r.accepted.None?
    ensures !o.flags.fingerprinted ==> r.tls.None?
  {
    assert StartOf(instance, base) in es && end in es;
    assert Agrees(r, StartOf(instance, base)) && Agrees(r, end);
    UpgradeIsThere(es, instance, base, o, end);
  }

  lemma UpgradeIsThere(es: seq<Event>, instance: string, base: Event, o: State, end: Event)
    requires WholeJournal(es, instance, base, o, end)
    ensures Has(es, StarttlsEvent) <==> o.flags.tlsArmed
    ensures Has(es, FingerprintEvent) <==> o.flags.fingerprinted
  {
    if o.flags.tlsArmed {
      var e :| e in o.emitted && Accepts(e);
      assert e in es;
    }
    if o.flags.fingerprinted {
      var e :| e in o.emitted && e.kind == FingerprintEvent;
      assert e in es;
    }
  }

  /** The record has the times of the upgrade from the events that were emitted. */
  lemma UpgradeTimes(r: Record, es: seq<Event>, instance: string, base: Event, o: State, end: Event)
    requires WholeJournal(es, instance, base, o, end) && Describes(r, es)
    ensures forall e :: e in o.emitted && Accepts(e) ==> r.accepted == e.timestamp && e.timestamp.Some?
    ensures forall e :: e in o.emitted && e.kind == FingerprintEvent ==>
            r.tls == e.timestamp && e.timestamp.Some? && r.ja3 != "" && r.ja4.Some?
  {
    forall e | e in o.emitted
      ensures Agrees(r, e) && Middle(e, instance, base)
    {
      assert e in es;
    }
  }

  /** No time goes back, as far as the record shows: from the start to the upgrade, the fingerprint, the end. */
  ghost predicate InTime(start: int, es: seq<Event>, end: int) {
    && start <= end
    && (forall e :: e in es && Accepts(e) ==> e.timestamp.Some? && start <= e.timestamp.value <= end)
    && (forall e, f :: e in es && f in es && Accepts(e) && f.kind == FingerprintEvent ==>
        e.timestamp.Some? && f.timestamp.Some? && e.timestamp.value <= f.timestamp.value <= end)
  }

  lemma RisingIsInTime(es: seq<Event>, start: int, end: int)
    requires Rising(es, start, end) && UpgradeFirst(es)
    ensures InTime(start, es, end)
  {
    forall e, f | e in es && f in es && Accepts(e) && f.kind == FingerprintEvent
      ensures e.timestamp.Some? && f.timestamp.Some? && e.timestamp.value <= f.timestamp.value <= end
    {
      var i :| 0 <= i < |es| && es[i] == e;
      var j :| 0 <= j < |es| && es[j] == f;
    }
  }

  lemma InTimeOfRecord(r: Record, es: seq<Event>, start: int, end: int)
    requires forall e :: e in es && Accepts(e) ==> r.accepted == e.timestamp && e.timestamp.Some?
    requires forall e :: e in es && e.kind == FingerprintEvent ==> r.tls == e.timestamp && e.timestamp.Some?
    requires (AnyAccepts(es) <==> r.accepted.Some?) && (AnyPrints(es) <==> r.tls.Some?)
    requires AnyPrints(es) ==> AnyAccepts(es)
    ensures InTime(start, es, end) <==>
            && start <= end && (r.accepted.Some? ==> start <= r.accepted.value <= end)
            && (r.tls.Some? ==> r.accepted.Some? && r.accepted.value <= r.tls.value <= end)
  {
  }

  lemma WholeTimes(r: Record, es: seq<Event>, instance: string, base: Event, o: State, end: Event)
    requires WholeJournal(es, instance, base, o, end) && Describes(r, es)
    ensures (r.accepted.Some? <==> o.flags.tlsArmed) && (r.tls.Some? <==> o.flags.fingerprinted)
    ensures r.tls.Some? ==> r.ja3 != "" && r.ja4.Some?
    ensures InTime(base.timestamp.value, o.emitted, end.timestamp.value) <==>
            && base.timestamp.value <= end.timestamp.value
            && (r.accepted.Some? ==> base.timestamp.value <= r.accepted.value <= end.timestamp.value)
            && (r.tls.Some? ==> r.accepted.Some? && r.accepted.value <= r.tls.value <= end.timestamp.value)
  {
    WholeRecord(r, es, instance, base, o, end);
    UpgradeTimes(r, es, instance, base, o, end);
    assert AnyAccepts(o.emitted) ==> r.accepted.Some?;
    assert AnyPrints(o.emitted) ==> r.tls.Some?;
    InTimeOfRecord(r, o.emitted, base.timestamp.value, end.timestamp.value);
  }

  // ---------------------------------------------------------------------
  // What the report stands for.

  /** A line is under way, or the server has not greeted yet. */
  predicate Unsettled(o: State) {
    !o.flags.greeted || o.clientLines != [] || o.serverLines != []
  }

  /** The report of a run tells what the run emitted and what stopped it: TLS without an upgrade, or a loss of track. */
  lemma ReportMeans(instance: string, base: Event, inputs: seq<Input>)
    ensures var start := Fresh(instance, base);
            var o := Run(start, inputs);
            var accepted, refused := AnyAccepts(o.emitted), AnyRefuses(o.emitted);
            var tls, lost := SawTLS(start, inputs), LostTrack(start, inputs);
            && (EndState(o) == "fingerprinted" <==> AnyPrints(o.emitted))
            && (EndState(o) == "starttls_accepted_no_fingerprint" <==> accepted && !AnyPrints(o.emitted))
            && (EndState(o) == "premature_tls" <==> tls)
            && (EndState(o) == "starttls_refused" <==> !accepted && !tls && !lost && refused)
            && (EndState(o) == "no_observed_upgrade" <==> !accepted && !tls && !lost && !refused && !Unsettled(o))
            && (EndState(o) == "observer_incomplete" <==> !accepted && !tls && (lost || (!refused && Unsettled(o))))
  {
    var start := Fresh(instance, base);
    var o := Run(start, inputs);
    FreshIsValid(instance, base);
    RunIsValid(start, inputs);
    RunStory(start, instance, base, inputs);
    MarksMean(start, inputs);
    MarksReport(o, AnyAccepts(o.emitted), AnyRefuses(o.emitted), AnyPrints(o.emitted), SawTLS(start, inputs),
                LostTrack(start, inputs));
  }

  lemma MarksReport(o: State, accepted: bool, refused: bool, printed: bool, tls: bool, lost: bool)
    requires Valid(o) && o.flags.tlsArmed == accepted && o.flags.refused == refused && o.flags.fingerprinted == printed
    requires o.flags.premature == tls && Lost(o) == lost
    ensures EndState(o) == "fingerprinted" <==> printed
    ensures EndState(o) == "starttls_accepted_no_fingerprint" <==> accepted && !printed
    ensures EndState(o) == "premature_tls" <==> tls
    ensures EndState(o) == "starttls_refused" <==> !accepted && !tls && !lost && refused
    ensures EndState(o) == "no_observed_upgrade" <==> !accepted && !tls && !lost && !refused && !Unsettled(o)
    ensures EndState(o) == "observer_incomplete" <==> !accepted && !tls && (lost || (!refused && Unsettled(o)))
  {
  }

  /** The observer could follow the connection to its end, or to the upgrade, or saw TLS begin without one. */
  ghost predicate Followed(instance: string, base: Event, inputs: seq<Input>) {
    var start := Fresh(instance, base);
    var o := Run(start, inputs);
    || AnyAccepts(o.emitted) || SawTLS(start, inputs)
    || (!LostTrack(start, inputs) && (AnyRefuses(o.emitted) || !Unsettled(o)))
  }

  lemma EndingIs(o: State)
    requires Valid(o)
    ensures o.flags.fingerprinted <==> EndingOf(EndState(o)) == UpgradeSeen
    ensures o.flags.tlsArmed && !o.flags.fingerprinted <==> EndingOf(EndState(o)) == UpgradeUnread
    ensures EndingOf(EndState(o)) == NotObserved <==> EndState(o) == "observer_incomplete"
  {
  }

  /** A journal that arrives whole, in whatever order and however often, gives a valid record; it is complete exactly
      when the observer could follow the connection and the clock was not seen to go back. */
  lemma LosslessIsComplete(instance: string, base: Event, inputs: seq<Input>, at: int, es: seq<Event>)
    requires Named(base) && es != [] && SameEvents(es, Journal(instance, base, inputs, at))
    ensures !FoldOne(es).record.invalid
    ensures CompleteObservation(FoldOne(es).record) <==>
            && Followed(instance, base, inputs)
            && InTime(base.timestamp.value, Run(Fresh(instance, base), inputs).emitted, at)
    ensures Ordered(base.timestamp.value, inputs, at) ==>
            InTime(base.timestamp.value, Run(Fresh(instance, base), inputs).emitted, at)
  {
    var o := Run(Fresh(instance, base), inputs);
    var end := JournalIsWhole(instance, base, inputs, at);
    WholeIsComplete(es, instance, base, o, end);
    ReportMeans(instance, base, inputs);
    if Ordered(base.timestamp.value, inputs, at) {
      RunRises(Fresh(instance, base), base.timestamp.value, inputs, base.timestamp.value, at);
      RisingIsInTime(o.emitted, base.timestamp.value, at);
    }
  }

  lemma WholeIsComplete(es: seq<Event>, instance: string, base: Event, o: State, end: Event)
    requires es != [] && WholeJournal(es, instance, base, o, end)
    ensures !FoldOne(es).record.invalid
    ensures CompleteObservation(FoldOne(es).record) <==>
            EndState(o) != "observer_incomplete" && InTime(base.timestamp.value, o.emitted, end.timestamp.value)
  {
    WholeIsConsistent(es, instance, base, o, end);
    FoldMeans(es);
    var r := FoldOne(es).record;
    WholeRecord(r, es, instance, base, o, end);
    WholeTimes(r, es, instance, base, o, end);
    EndingIs(o);
    CompleteByParts(r, base.timestamp.value, end.timestamp.value, o.flags.tlsArmed, o.flags.fingerprinted);
  }

  lemma CompleteByParts(r: Record, start: int, end: int, armed: bool, printed: bool)
    requires !r.invalid && r.start == Some(start) && r.end == Some(end) && (printed ==> armed)
    requires (r.accepted.Some? <==> armed) && (r.tls.Some? <==> printed) && (printed ==> r.ja3 != "" && r.ja4.Some?)
    requires printed <==> EndingOf(r.state) == UpgradeSeen
    requires armed && !printed <==> EndingOf(r.state) == UpgradeUnread
    ensures CompleteObservation(r) <==>
            && EndingOf(r.state) != NotObserved && start <= end && (armed ==> start <= r.accepted.value <= end)
            && (printed ==> r.accepted.value <= r.tls.value <= end)
  {
  }

  /** Whatever events are lost, repeated or reordered on the way, and whatever the clock does: a record that passes the
      consumer's test is the record of the whole journal. */
  lemma LossIsHarmless(instance: string, base: Event, inputs: seq<Input>, at: int, es: seq<Event>)
    requires Named(base) && es != [] && Within(es, Journal(instance, base, inputs, at))
    ensures !FoldOne(es).record.invalid
    ensures CompleteObservation(FoldOne(es).record) ==>
            FoldOne(es).record == FoldOne(Journal(instance, base, inputs, at)).record
  {
    var js := Journal(instance, base, inputs, at);
    var end := JournalIsWhole(instance, base, inputs, at);
    PartOfWhole(es, js, instance, base, Run(Fresh(instance, base), inputs), end);
  }

  /** An observer that lost track never makes a complete record, whatever happens to its events. */
  lemma LostIsIncomplete(instance: string, base: Event, inputs: seq<Input>, at: int, es: seq<Event>)
    requires Named(base) && es != [] && Within(es, Journal(instance, base, inputs, at))
    requires LostTrack(Fresh(instance, base), inputs)
    ensures !CompleteObservation(FoldOne(es).record)
  {
    var js := Journal(instance, base, inputs, at);
    LossIsHarmless(instance, base, inputs, at, es);
    LosslessIsComplete(instance, base, inputs, at, js);
    ReportMeans(instance, base, inputs);
    LostIsNotFollowed(instance, base, inputs);
  }

  lemma LostIsNotFollowed(instance: string, base: Event, inputs: seq<Input>)
    requires LostTrack(Fresh(instance, base), inputs)
    ensures !Followed(instance, base, inputs)
  {
    var start := Fresh(instance, base);
    FreshIsValid(instance, base);
    MarksMean(start, inputs);
    RunStory(start, instance, base, inputs);
  }

  lemma PartOfWhole(es: seq<Event>, js: seq<Event>, instance: string, base: Event, o: State, end: Event)
    requires WholeJournal(js, instance, base, o, end) && es != [] && Within(es, js)
    ensures !FoldOne(es).record.invalid
    ensures CompleteObservation(FoldOne(es).record) ==> FoldOne(es).record == FoldOne(js).record
  {
    WholeIsConsistent(js, instance, base, o, end);
    PartIsConsistent(es, js);
    FoldMeans(es);
    assert end in js;
    FoldMeans(js);
    if CompleteObservation(FoldOne(es).record) {
      CompleteIsWhole(FoldOne(es).record, FoldOne(js).record, es, js, instance, base, o, end);
    }
  }

  lemma PartIsConsistent(es: seq<Event>, js: seq<Event>)
    requires Within(es, js) && !Conflicted(js) && OneConnection(js) && Settled(js)
    ensures !Conflicted(es) && OneConnection(es) && Settled(es)
  {
  }

  lemma CompleteIsWhole(q: Record, r: Record, es: seq<Event>, js: seq<Event>, instance: string, base: Event, o: State,
                        end: Event)
    requires WholeJournal(js, instance, base, o, end) && Describes(r, js)
    requires Within(es, js) && es != [] && Describes(q, es) && CompleteObservation(q)
    ensures q == r
  {
    SameEnds(q, r, es, js);
    SameIdentity(q, r, es, js, instance, base, o, end);
    SameUpgrade(q, r, es, js, instance, base, o, end);
  }

  lemma SameEnds(q: Record, r: Record, es: seq<Event>, js: seq<Event>)
    requires Describes(r, js) && Within(es, js) && Describes(q, es) && CompleteObservation(q)
    ensures q.start == r.start && q.end == r.end && q.state == r.state && q.behavior == r.behavior
  {
    CompleteHas(q, es);
    SharedPart(r, q, js, es, StartEvent);
    SharedPart(r, q, js, es, EndEvent);
  }

  /** A complete record shows which events it was made from. */
  lemma CompleteHas(q: Record, es: seq<Event>)
    requires Describes(q, es) && CompleteObservation(q)
    ensures Has(es, StartEvent) && Has(es, EndEvent)
    ensures EndingOf(q.state) == UpgradeSeen ==> Has(es, StarttlsEvent) && Has(es, FingerprintEvent)
    ensures EndingOf(q.state) == UpgradeUnread ==> Has(es, StarttlsEvent)
  {
    assert EndingOf("") == NotObserved;
  }

  lemma SameIdentity(q: Record, r: Record, es: seq<Event>, js: seq<Event>, instance: string, base: Event, o: State,
                     end: Event)
    requires WholeJournal(js, instance, base, o, end) && Describes(r, js)
    requires Within(es, js) && es != [] && Describes(q, es)
    ensures q.id == r.id && q.instance == r.instance && q.client == r.client && q.listener == r.listener
  {
    var e := es[0];
    assert Agrees(q, e) && Agrees(r, e);
    assert e == StartOf(instance, base) || e == end || Middle(e, instance, base);
    assert Own(e, instance, base);
  }

  lemma SameUpgrade(q: Record, r: Record, es: seq<Event>, js: seq<Event>, instance: string, base: Event, o: State,
                    end: Event)
    requires WholeJournal(js, instance, base, o, end) && Describes(r, js)
    requires Within(es, js) && Describes(q, es) && CompleteObservation(q)
    requires q.state == r.state
    ensures q.accepted == r.accepted && q.tls == r.tls && q.ja3 == r.ja3 && q.ja4 == r.ja4
  {
    EndingIs(o);
    WholeRecord(r, js, instance, base, o, end);
    SameByParts(q, r, es, js);
  }

  lemma SameByParts(q: Record, r: Record, es: seq<Event>, js: seq<Event>)
    requires Describes(r, js) && Within(es, js) && Describes(q, es) && CompleteObservation(q)
    requires q.state == r.state
    requires Has(js, FingerprintEvent) <==> EndingOf(r.state) == UpgradeSeen
    requires Has(js, StarttlsEvent) && !Has(js, FingerprintEvent) <==> EndingOf(r.state) == UpgradeUnread
    ensures q.accepted == r.accepted && q.tls == r.tls && q.ja3 == r.ja3 && q.ja4 == r.ja4
  {
    CompleteHas(q, es);
    SharedPart(r, q, js, es, StarttlsEvent);
    SharedPart(r, q, js, es, FingerprintEvent);
  }

  /** A connection that never reached its backend is never complete. */
  lemma FailureIsIncomplete(instance: string, base: Event, error: string, at: int, es: seq<Event>)
    requires Named(base) && es != [] && Within(es, FailedJournal(instance, base, error, at))
    ensures !FoldOne(es).record.invalid && !CompleteObservation(FoldOne(es).record)
  {
    var js := FailedJournal(instance, base, error, at);
    PairIsConsistent(js[0], js[1]);
    assert js == [js[0], js[1]];
    PartIsConsistent(es, js);
    FoldMeans(es);
    OnlyEndsCount(FoldOne(es).record, es);
  }

  lemma PairIsConsistent(e: Event, f: Event)
    requires e.kind == StartEvent && f.kind == EndEvent && e.client != "" && e.listener != ""
    requires Own(f, e.instance, e)
    ensures !Conflicted([e, f]) && OneConnection([e, f]) && Settled([e, f])
  {
    assert !Contradicts(e, f) && !Contradicts(f, e) && !Contradicts(e, e) && !Contradicts(f, f);
  }

  lemma OnlyEndsCount(r: Record, es: seq<Event>)
    requires Describes(r, es)
    requires forall e :: e in es && e.kind == EndEvent ==> e.state == "observer_incomplete"
    ensures !CompleteObservation(r)
  {
    if Has(es, EndEvent) {
      var e :| e in es && Single(e) && e.kind == EndEvent;
      assert Agrees(r, e);
    }
    assert EndingOf("") == NotObserved && EndingOf("observer_incomplete") == NotObserved;
  }
}
