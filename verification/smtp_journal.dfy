/** What a connection record means: it depends on which events of the connection are in the journal,
    not on their order or number. */
module SmtpJournal {
  import opened Bytes
  import opened SmtpEvent
  import opened SmtpFold

  predicate ClientsDiffer(e: Event, f: Event) {
    e.client != "" && f.client != "" && e.client != f.client
  }

  predicate ListenersDiffer(e: Event, f: Event) {
    e.listener != "" && f.listener != "" && e.listener != f.listener
  }

  predicate NamesDiffer(e: Event, f: Event) {
    ClientsDiffer(e, f) || ListenersDiffer(e, f)
  }

  /** Two events that cannot both be right. */
  predicate Contradicts(e: Event, f: Event) {
    NamesDiffer(e, f) || (Single(e) && Single(f) && e.kind == f.kind && e != f)
  }

  ghost predicate Unknown(es: seq<Event>) {
    exists e :: e in es && !KnownKind(e)
  }

  ghost predicate Conflicted(es: seq<Event>) {
    Unknown(es) || exists e, f :: e in es && f in es && Contradicts(e, f)
  }

  ghost predicate OneConnection(es: seq<Event>) {
    forall e, f :: e in es && f in es ==> e.instance == f.instance && e.connectionId == f.connectionId
  }

  ghost predicate StartsNameClient(es: seq<Event>) {
    forall e :: e in es && e.kind == StartEvent ==> e.client != ""
  }

  ghost predicate StartsNameListener(es: seq<Event>) {
    forall e :: e in es && e.kind == StartEvent ==> e.listener != ""
  }

  /** Of each field, the client and the listener: every start event names it, or no event does. */
  ghost predicate Settled(es: seq<Event>) {
    && (StartsNameClient(es) || forall e :: e in es ==> e.client == "")
    && (StartsNameListener(es) || forall e :: e in es ==> e.listener == "")
  }

  ghost predicate Has(es: seq<Event>, kind: Kind) {
    exists e :: e in es && Single(e) && e.kind == kind
  }

  ghost predicate NamedIn(client: string, listener: string, es: seq<Event>) {
    && (client == "" || exists e :: e in es && e.client == client)
    && (listener == "" || exists e :: e in es && e.listener == listener)
  }

  ghost predicate BlankElsewhere(r: Record, es: seq<Event>) {
    && (!Has(es, StartEvent) ==> r.start == None)
    && (!Has(es, StarttlsEvent) ==> r.accepted == None)
    && (!Has(es, FingerprintEvent) ==> r.tls == None && r.ja3 == "" && r.ja4 == None)
    && (!Has(es, EndEvent) ==> r.end == None && r.state == "" && r.behavior == None)
  }

  /** The record says what the events say, each part from the event that carries it. */
  ghost predicate Describes(r: Record, es: seq<Event>) {
    && !r.invalid
    && (forall e :: e in es ==> Agrees(r, e))
    && NamedIn(r.client, r.listener, es)
    && BlankElsewhere(r, es)
  }

  predicate NamesAgree(r: Record, e: Event) {
    && r.id == e.connectionId && r.instance == e.instance
    && (e.client != "" ==> r.client == e.client)
    && (e.listener != "" ==> r.listener == e.listener)
  }

  predicate PartAgrees(r: Record, e: Event) {
    match e.kind
    case StartEvent => r.start == e.timestamp
    case StarttlsEvent => e.state == "accepted" ==> r.accepted == e.timestamp
    case FingerprintEvent => r.tls == e.timestamp && r.ja3 == e.ja3 && r.ja4 == e.ja4
    case EndEvent => r.end == e.timestamp && r.state == e.state && r.behavior == e.behavior
    case OtherEvent(_) => true
  }

  predicate Agrees(r: Record, e: Event) {
    NamesAgree(r, e) && PartAgrees(r, e)
  }

  ghost predicate Remembers(seen: map<Kind, Event>, es: seq<Event>) {
    && (forall t :: t in seen ==> seen[t] in es && Single(seen[t]) && seen[t].kind == t)
    && (forall e :: e in es && Single(e) ==> e.kind in seen)
  }

  // ---------------------------------------------------------------------
  // One more event.

  lemma InvalidStays(s: Slot, e: Event)
    requires s.record.invalid
    ensures Absorb(s, e).record.invalid
  {
  }

  lemma MemberSnoc(es: seq<Event>, e: Event)
    ensures forall f :: f in es + [e] <==> f in es || f == e
  {
    assert e in es + [e];
  }

  /** Names that differ from those of the record make it invalid. */
  lemma OtherNamesAreNoticed(s: Slot, e: Event, f: Event)
    requires NamesAgree(s.record, f) && NamesDiffer(e, f)
    ensures Absorb(s, e).record.invalid
  {
    assert Identify(s.record, e).invalid;
  }

  /** A contradiction with the events so far is noticed. */
  lemma ConflictIsNoticed(s: Slot, es: seq<Event>, e: Event)
    requires Describes(s.record, es) && Remembers(s.seen, es)
    requires !Conflicted(es) && Conflicted(es + [e])
    ensures Absorb(s, e).record.invalid
  {
    MemberSnoc(es, e);
    if KnownKind(e) {
      var a, b :| a in es + [e] && b in es + [e] && Contradicts(a, b);
      var f := if a == e then b else a;
      assert f in es && Contradicts(e, f);
      assert Agrees(s.record, f);
      if NamesDiffer(e, f) {
        OtherNamesAreNoticed(s, e, f);
      } else {
        var g := s.seen[f.kind];
        assert !Contradicts(g, f);
        assert Conflicts(s, e);
      }
    }
  }

  /** Names that agree with those of the record leave it valid. */
  lemma SameNamesAreTaken(r: Record, es: seq<Event>, e: Event)
    requires NamedIn(r.client, r.listener, es) && !r.invalid
    requires forall f :: f in es ==> !NamesDiffer(e, f)
    ensures !Identify(r, e).invalid
  {
  }

  /** Without a contradiction the record takes the event in. */
  lemma EventIsTaken(s: Slot, es: seq<Event>, e: Event)
    requires Describes(s.record, es) && Remembers(s.seen, es) && !Conflicted(es + [e])
    ensures Absorb(s, e).seen == (if Single(e) then s.seen[e.kind := e] else s.seen)
    ensures Absorb(s, e).record == Apply(Identify(s.record, e), e) && !Identify(s.record, e).invalid && KnownKind(e)
  {
    MemberSnoc(es, e);
    assert forall f :: f in es ==> !Contradicts(e, f);
    SameNamesAreTaken(s.record, es, e);
    if Conflicts(s, e) {
      assert Contradicts(e, s.seen[e.kind]);
    }
  }

  lemma PartsAfter(r: Record, es: seq<Event>, e: Event, f: Event)
    requires PartAgrees(r, f) || f == e
    requires KnownKind(e) && !Contradicts(e, f)
    ensures PartAgrees(Apply(Identify(r, e), e), f)
  {
    if Single(e) && f.kind == e.kind && Single(f) {
      assert f == e;
    }
  }

  lemma NamesAfter(r: Record, e: Event, f: Event)
    requires r.id == e.connectionId && r.instance == e.instance
    requires NamesAgree(r, f) || f == e
    requires !NamesDiffer(e, f)
    requires e.kind == StartEvent ==> (e.client != "" || f.client == "") && (e.listener != "" || f.listener == "")
    ensures NamesAgree(Apply(Identify(r, e), e), f)
  {
  }

  /** The new record says what the events say. */
  lemma AllAgree(s: Slot, es: seq<Event>, e: Event)
    requires Describes(s.record, es) && es != []
    requires !Conflicted(es + [e]) && OneConnection(es + [e]) && Settled(es + [e])
    ensures forall f :: f in es + [e] ==> Agrees(Apply(Identify(s.record, e), e), f)
  {
    MemberSnoc(es, e);
    assert es[0] in es + [e] && Agrees(s.record, es[0]);
    forall f | f in es + [e]
      ensures Agrees(Apply(Identify(s.record, e), e), f)
    {
      assert !Contradicts(e, f) && KnownKind(e);
      if f in es {
        assert Agrees(s.record, f);
      }
      PartsAfter(s.record, es, e, f);
      NamesAfter(s.record, e, f);
    }
  }

  lemma HasSnoc(es: seq<Event>, e: Event, kind: Kind)
    ensures Has(es + [e], kind) <==> Has(es, kind) || (Single(e) && e.kind == kind)
  {
    MemberSnoc(es, e);
  }

  lemma StillBlank(r: Record, es: seq<Event>, e: Event)
    requires BlankElsewhere(r, es) && KnownKind(e)
    ensures BlankElsewhere(Apply(Identify(r, e), e), es + [e])
  {
    HasSnoc(es, e, StartEvent);
    HasSnoc(es, e, StarttlsEvent);
    HasSnoc(es, e, FingerprintEvent);
    HasSnoc(es, e, EndEvent);
  }

  lemma NamesStay(r: Record, es: seq<Event>, e: Event)
    requires NamedIn(r.client, r.listener, es)
    ensures NamedIn(Apply(Identify(r, e), e).client, Apply(Identify(r, e), e).listener, es + [e])
  {
    NamedInMore(r.client, r.listener, es, e);
    var q := Apply(Identify(r, e), e);
    assert e in es + [e];
    assert q.client in {r.client, e.client} && q.listener in {r.listener, e.listener};
  }

  lemma NamedInMore(client: string, listener: string, es: seq<Event>, e: Event)
    requires NamedIn(client, listener, es)
    ensures NamedIn(client, listener, es + [e])
  {
    MemberSnoc(es, e);
  }

  lemma StillRemembers(s: Slot, es: seq<Event>, e: Event)
    requires Remembers(s.seen, es)
    ensures Remembers(if Single(e) then s.seen[e.kind := e] else s.seen, es + [e])
  {
    MemberSnoc(es, e);
  }

  lemma RecordGrows(s: Slot, es: seq<Event>, e: Event)
    requires Describes(s.record, es) && Remembers(s.seen, es)
    requires !Conflicted(es + [e]) && OneConnection(es + [e]) && Settled(es + [e]) && es != []
    ensures Describes(Absorb(s, e).record, es + [e]) && Remembers(Absorb(s, e).seen, es + [e])
  {
    EventIsTaken(s, es, e);
    AllAgree(s, es, e);
    StillBlank(s.record, es, e);
    NamesStay(s.record, es, e);
    StillRemembers(s, es, e);
  }

  lemma ConflictStays(es: seq<Event>, e: Event)
    requires Conflicted(es)
    ensures Conflicted(es + [e])
  {
    MemberSnoc(es, e);
  }

  lemma FirstEvent(e: Event)
    requires Settled([e])
    ensures FoldOne([e]).record.invalid <==> Conflicted([e])
    ensures !Conflicted([e]) ==> Describes(FoldOne([e]).record, [e]) && Remembers(FoldOne([e]).seen, [e])
  {
    assert e in [e];
    assert !Contradicts(e, e);
    assert Conflicted([e]) <==> !KnownKind(e);
    assert FoldOne([e]) == Absorb(Slot(NewRecord(e), map[]), e);
    if KnownKind(e) {
      FirstIsDescribed(e);
    }
  }

  lemma FirstIsDescribed(e: Event)
    requires KnownKind(e) && Settled([e])
    ensures var s := Absorb(Slot(NewRecord(e), map[]), e);
            Describes(s.record, [e]) && Remembers(s.seen, [e])
  {
    var s := Slot(NewRecord(e), map[]);
    assert [] + [e] == [e];
    StillBlank(s.record, [], e);
    NamesStay(s.record, [], e);
    StillRemembers(s, [], e);
    FirstAgrees(e);
    assert Absorb(s, e).record == Apply(Identify(s.record, e), e);
  }

  lemma FirstAgrees(e: Event)
    requires KnownKind(e)
    ensures var r := Apply(Identify(NewRecord(e), e), e);
            Agrees(r, e) && !r.invalid
  {
  }

  /** A record is invalid exactly when its events conflict, and otherwise says what they say. */
  lemma {:induction false} FoldMeans(es: seq<Event>)
    requires es != [] && OneConnection(es) && Settled(es)
    ensures FoldOne(es).record.invalid <==> Conflicted(es)
    ensures !Conflicted(es) ==> Describes(FoldOne(es).record, es) && Remembers(FoldOne(es).seen, es)
    decreases |es|
  {
    var n := |es| - 1;
    if n == 0 {
      assert es == [es[0]];
      FirstEvent(es[0]);
    } else {
      var before, e := es[..n], es[n];
      assert es == before + [e];
      assert forall f :: f in before ==> f in es;
      FoldMeans(before);
      if Conflicted(before) {
        ConflictStays(before, e);
        InvalidStays(FoldOne(before), e);
      } else if Conflicted(es) {
        ConflictIsNoticed(FoldOne(before), before, e);
      } else {
        RecordGrows(FoldOne(before), before, e);
      }
    }
  }

  // ---------------------------------------------------------------------
  // Order and repetition.

  ghost predicate Within(fs: seq<Event>, es: seq<Event>) {
    forall e :: e in fs ==> e in es
  }

  ghost predicate SameEvents(es: seq<Event>, fs: seq<Event>) {
    Within(es, fs) && Within(fs, es)
  }

  /** Two records that agree with an event have the part that it carries in common. */
  lemma SharedPart(r: Record, q: Record, es: seq<Event>, fs: seq<Event>, kind: Kind)
    requires Describes(r, es) && Describes(q, fs) && Within(fs, es)
    ensures Has(fs, kind) ==> Has(es, kind)
    ensures Has(fs, kind) ==> exists e :: Single(e) && e.kind == kind && PartAgrees(r, e) && PartAgrees(q, e)
  {
    if Has(fs, kind) {
      var e :| e in fs && Single(e) && e.kind == kind;
      assert Agrees(r, e) && Agrees(q, e);
    }
  }

  lemma SameNames(r: Record, q: Record, es: seq<Event>, fs: seq<Event>)
    requires Describes(r, es) && Describes(q, fs) && SameEvents(es, fs)
    ensures r.client == q.client && r.listener == q.listener
  {
    assert forall e :: e in es ==> NamesAgree(r, e) && NamesAgree(q, e);
  }

  lemma SameTimes(r: Record, q: Record, es: seq<Event>, fs: seq<Event>)
    requires Describes(r, es) && Describes(q, fs) && SameEvents(es, fs)
    ensures r.start == q.start && r.accepted == q.accepted
    ensures r.tls == q.tls && r.ja3 == q.ja3 && r.ja4 == q.ja4
    ensures r.end == q.end && r.state == q.state && r.behavior == q.behavior
  {
    SharedPart(r, q, es, fs, StartEvent);
    assert Has(es, StartEvent) ==> Has(fs, StartEvent);
    SharedPart(r, q, es, fs, StarttlsEvent);
    assert Has(es, StarttlsEvent) ==> Has(fs, StarttlsEvent);
    SharedPart(r, q, es, fs, FingerprintEvent);
    assert Has(es, FingerprintEvent) ==> Has(fs, FingerprintEvent);
    SharedPart(r, q, es, fs, EndEvent);
    assert Has(es, EndEvent) ==> Has(fs, EndEvent);
  }

  /** Only one record says what the events say. */
  lemma DescriptionIsUnique(r: Record, q: Record, es: seq<Event>, fs: seq<Event>)
    requires Describes(r, es) && Describes(q, fs) && SameEvents(es, fs) && es != []
    ensures r == q
  {
    assert Agrees(r, es[0]) && Agrees(q, es[0]);
    SameTimes(r, q, es, fs);
    SameNames(r, q, es, fs);
  }

  /** Permuting or repeating the events of a connection changes neither whether its record is invalid
      nor, when it is not, any part of the record. */
  lemma OrderDoesNotMatter(es: seq<Event>, fs: seq<Event>)
    requires es != [] && fs != [] && SameEvents(es, fs)
    requires OneConnection(es) && Settled(es)
    ensures FoldOne(es).record.invalid == FoldOne(fs).record.invalid
    ensures !FoldOne(es).record.invalid ==> FoldOne(es).record == FoldOne(fs).record
  {
    FoldMeans(es);
    FoldMeans(fs);
    assert Conflicted(es) <==> Conflicted(fs);
    if !Conflicted(es) {
      DescriptionIsUnique(FoldOne(es).record, FoldOne(fs).record, es, fs);
    }
  }

  lemma FoldSnoc(es: seq<Event>, e: Event)
    requires es != []
    ensures FoldOne(es + [e]) == Absorb(FoldOne(es), e)
  {
    PrefixOfSnoc(es, e);
  }

  // ---------------------------------------------------------------------
  // When exactly the order does not matter.

  ghost predicate TwoSingles(es: seq<Event>) {
    exists e, f :: e in es && f in es && Single(e) && Single(f) && e.kind == f.kind && e != f
  }

  /** The events are wrong in any order: an unknown kind, two different single events of one kind, or two different
      names of a field that every start event names. */
  ghost predicate Hopeless(es: seq<Event>) {
    || Unknown(es)
    || TwoSingles(es)
    || (StartsNameClient(es) && exists e, f :: e in es && f in es && ClientsDiffer(e, f))
    || (StartsNameListener(es) && exists e, f :: e in es && f in es && ListenersDiffer(e, f))
  }

  /** What a record that is still valid has taken in. */
  ghost predicate TakenIn(s: Slot, es: seq<Event>) {
    !s.record.invalid ==>
      && (forall e :: e in es ==> KnownKind(e))
      && (forall e :: e in es && Single(e) ==> e.kind in s.seen && s.seen[e.kind] == e)
      && (StartsNameClient(es) ==> forall e :: e in es && e.client != "" ==> e.client == s.record.client)
      && (StartsNameListener(es) ==> forall e :: e in es && e.listener != "" ==> e.listener == s.record.listener)
  }

  lemma StepTakesIn(s: Slot, es: seq<Event>, e: Event)
    requires TakenIn(s, es)
    ensures TakenIn(Absorb(s, e), es + [e])
  {
    MemberSnoc(es, e);
    if !Absorb(s, e).record.invalid {
      assert !s.record.invalid && !Conflicts(s, e);
      assert StartsNameClient(es + [e]) ==> StartsNameClient(es);
      assert StartsNameListener(es + [e]) ==> StartsNameListener(es);
    }
  }

  lemma {:induction false} FoldTakesIn(es: seq<Event>)
    requires es != []
    ensures TakenIn(FoldOne(es), es)
    decreases |es|
  {
    var n := |es| - 1;
    PrefixNext(es, n);
    PrefixAll(es);
    if n == 0 {
      StepTakesIn(Slot(NewRecord(es[0]), map[]), [], es[0]);
      assert [] + [es[0]] == es;
    } else {
      FoldTakesIn(es[..n]);
      StepTakesIn(FoldOne(es[..n]), es[..n], es[n]);
    }
  }

  lemma HopelessIsInvalid(es: seq<Event>)
    requires es != [] && Hopeless(es)
    ensures FoldOne(es).record.invalid
  {
    FoldTakesIn(es);
  }

  lemma HopelessTogether(es: seq<Event>, fs: seq<Event>)
    requires SameEvents(es, fs) && Hopeless(es)
    ensures Hopeless(fs)
  {
  }

  /** Every event followed by the start event, which takes back the names that it does not name itself. */
  function Interleave(es: seq<Event>, start: Event): seq<Event> {
    if es == [] then [] else Interleave(es[..|es| - 1], start) + [es[|es| - 1]] + [start]
  }

  lemma {:induction false} InterleaveHas(es: seq<Event>, start: Event)
    ensures forall e :: e in Interleave(es, start) <==> e in es || (e == start && es != [])
    decreases |es|
  {
    if es != [] {
      InterleaveHas(es[..|es| - 1], start);
      PrefixNext(es, |es| - 1);
      PrefixAll(es);
      MemberSnoc(Interleave(es[..|es| - 1], start), es[|es| - 1]);
      MemberSnoc(Interleave(es[..|es| - 1], start) + [es[|es| - 1]], start);
      MemberSnoc(es[..|es| - 1], es[|es| - 1]);
    }
  }

  /** Events that can all be right, but for names that the start event does not name. */
  ghost predicate Bearable(es: seq<Event>, start: Event) {
    && start in es && start.kind == StartEvent && !Unknown(es) && !TwoSingles(es)
    && forall e :: e in es ==> !ClientsDiffer(e, start) && !ListenersDiffer(e, start)
  }

  /** After a start event the record has its names, and remembers single events of the connection only. */
  ghost predicate JustStarted(s: Slot, es: seq<Event>, start: Event) {
    && !s.record.invalid && s.record.client == start.client && s.record.listener == start.listener
    && forall t :: t in s.seen ==> s.seen[t] in es && Single(s.seen[t]) && s.seen[t].kind == t
  }

  lemma NoConflict(s: Slot, es: seq<Event>, e: Event)
    requires e in es && !TwoSingles(es)
    requires forall t :: t in s.seen ==> s.seen[t] in es && Single(s.seen[t]) && s.seen[t].kind == t
    ensures !Conflicts(s, e)
  {
  }

  lemma PairStarts(s: Slot, es: seq<Event>, e: Event, start: Event)
    requires Bearable(es, start) && e in es
    requires JustStarted(s, es, start) || s == Slot(NewRecord(e), map[])
    ensures JustStarted(Absorb(Absorb(s, e), start), es, start)
  {
    NoConflict(s, es, e);
    assert KnownKind(e) && !ClientsDiffer(e, start) && !ListenersDiffer(e, start);
    var mid := Absorb(s, e);
    assert !mid.record.invalid;
    NoConflict(mid, es, start);
  }

  lemma {:induction false} InterleavedIsValid(fs: seq<Event>, es: seq<Event>, start: Event)
    requires fs != [] && Within(fs, es) && Bearable(es, start)
    ensures Interleave(fs, start) != [] && JustStarted(FoldOne(Interleave(fs, start)), es, start)
    decreases |fs|
  {
    var before, e := fs[..|fs| - 1], fs[|fs| - 1];
    var done := Interleave(before, start);
    PrefixOfSnoc(done, e);
    PrefixOfSnoc(done + [e], start);
    var s := if done == [] then Slot(NewRecord(e), map[]) else FoldOne(done);
    assert FoldOne(done + [e]) == Absorb(s, e);
    assert FoldOne(done + [e] + [start]) == Absorb(Absorb(s, e), start);
    if before != [] {
      InterleavedIsValid(before, es, start);
    } else {
      assert done == [];
    }
    PairStarts(s, es, e, start);
  }

  /** The events other than start events. */
  function Others(es: seq<Event>): (os: seq<Event>)
    ensures forall e :: e in os <==> e in es && e.kind != StartEvent
  {
    if es == [] then []
    else Others(es[..|es| - 1]) + if es[|es| - 1].kind == StartEvent then [] else [es[|es| - 1]]
  }

  lemma NameSticks(s: Slot, e: Event)
    requires e.kind != StartEvent
    ensures s.record.client != "" || e.client != "" ==> Absorb(s, e).record.client != ""
    ensures s.record.listener != "" || e.listener != "" ==> Absorb(s, e).record.listener != ""
  {
  }

  /** Without a later start event a name that was given is not taken back. */
  lemma {:induction false} NamesStick(start: Event, os: seq<Event>)
    requires forall e :: e in os ==> e.kind != StartEvent
    ensures (exists e :: e in os && e.client != "") ==> FoldOne([start] + os).record.client != ""
    ensures (exists e :: e in os && e.listener != "") ==> FoldOne([start] + os).record.listener != ""
    decreases |os|
  {
    if os != [] {
      var before, e := os[..|os| - 1], os[|os| - 1];
      PrefixNext(os, |os| - 1);
      PrefixAll(os);
      MemberSnoc(before, e);
      NamesStick(start, before);
      Associative([start], before, [e]);
      FoldSnoc([start] + before, e);
      NameSticks(FoldOne([start] + before), e);
    }
  }

  ghost predicate SameOutcome(es: seq<Event>, fs: seq<Event>)
    requires es != [] && fs != []
  {
    && FoldOne(es).record.invalid == FoldOne(fs).record.invalid
    && (!FoldOne(es).record.invalid ==> FoldOne(es).record == FoldOne(fs).record)
  }

  /** Every order and repetition of the events has the same outcome. */
  ghost predicate OrderFree(es: seq<Event>)
    requires es != []
  {
    forall fs :: fs != [] && SameEvents(es, fs) ==> SameOutcome(es, fs)
  }

  lemma UnnamedIsBearable(es: seq<Event>, start: Event)
    requires !Hopeless(es) && start in es && start.kind == StartEvent
    ensures Bearable(es, start) && (forall e :: e in es && e.kind == StartEvent ==> e == start)
  {
    assert forall e :: e in es && e.kind == StartEvent ==> e == start;
  }

  /** A field that a start event does not name, but another event does, has two outcomes. */
  lemma UnnamedMatters(es: seq<Event>, start: Event, f: Event)
    requires es != [] && !Hopeless(es) && start in es && f in es && start.kind == StartEvent
    requires (start.client == "" && f.client != "") || (start.listener == "" && f.listener != "")
    ensures !OrderFree(es)
  {
    UnnamedIsBearable(es, start);
    var last, first := Interleave(es, start), [start] + Others(es);
    InterleavedIsValid(es, es, start);
    InterleaveHas(es, start);
    StartGoesFirst(es, start);
    NameSticksFirst(es, start, f);
    assert SameEvents(es, last);
    assert !(SameOutcome(es, last) && SameOutcome(es, first));
  }

  lemma NameSticksFirst(es: seq<Event>, start: Event, f: Event)
    requires f in es && f.kind != StartEvent
    ensures f.client != "" ==> FoldOne([start] + Others(es)).record.client != ""
    ensures f.listener != "" ==> FoldOne([start] + Others(es)).record.listener != ""
  {
    assert f in Others(es);
    NamesStick(start, Others(es));
  }

  lemma StartGoesFirst(es: seq<Event>, start: Event)
    requires start in es && forall e :: e in es && e.kind == StartEvent ==> e == start
    ensures SameEvents(es, [start] + Others(es))
  {
    assert forall e :: e in [start] + Others(es) <==> e == start || e in Others(es);
  }

  /** The outcome for the events of one connection does not depend on their order and number if and only if they are
      wrong in any order, or each field is named by every start event or by no event. */
  lemma OrderFreeExactlyWhen(es: seq<Event>)
    requires es != [] && OneConnection(es)
    ensures OrderFree(es) <==> Settled(es) || Hopeless(es)
  {
    if Hopeless(es) {
      forall fs | fs != [] && SameEvents(es, fs)
        ensures SameOutcome(es, fs)
      {
        HopelessTogether(es, fs);
        HopelessIsInvalid(es);
        HopelessIsInvalid(fs);
      }
    } else if Settled(es) {
      forall fs | fs != [] && SameEvents(es, fs)
        ensures SameOutcome(es, fs)
      {
        OrderDoesNotMatter(es, fs);
      }
    } else {
      var start, f :| start in es && f in es && start.kind == StartEvent
                      && ((start.client == "" && f.client != "") || (start.listener == "" && f.listener != ""));
      UnnamedMatters(es, start, f);
    }
  }

  /** For example, a start event that names no client lets a contradiction pass in one
      order that is noticed in another. */
  lemma UnnamedStartHidesConflict(e: Event, a: Event, b: Event)
    requires e.kind == StartEvent && e.client == "" && e.listener == ""
    requires a == e.(kind := StarttlsEvent, state := "refused", client := "a") && b == a.(client := "b")
    ensures !FoldOne([a, e, b]).record.invalid && FoldOne([a, b, e]).record.invalid
  {
    assert [a] + [e] == [a, e] && [a, e] + [b] == [a, e, b];
    assert [a] + [b] == [a, b] && [a, b] + [e] == [a, b, e];
    FoldSnoc([a], e);
    FoldSnoc([a, e], b);
    FoldSnoc([a], b);
    FoldSnoc([a, b], e);
    assert FoldOne([a]) == Slot(NewRecord(a).(client := "a"), map[]);
    assert FoldOne([a, e]).record.client == "" && !FoldOne([a, e]).record.invalid;
    assert FoldOne([a, b]).record.invalid;
  }
}
