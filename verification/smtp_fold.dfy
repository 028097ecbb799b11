/** The consumer of the event journal (smtp_correlate.go): events fold back into connection records. */
module SmtpFold {
  import opened Bytes
  import opened Fingerprint
  import opened SmtpBehavior
  import opened SmtpEvent

  /** A line of the journal, already decoded. */
  datatype Line = Undecodable | Decoded(event: Event)

  /** A connection as the journal shows it; an absent time is a zero time. */
  datatype Record = Record(
    id: string,
    instance: string,
    client: string,
    listener: string,
    ja3: string,
    ja4: Option<JA4>,
    start: Option<int>,
    end: Option<int>,
    tls: Option<int>,
    accepted: Option<int>,
    state: string,
    invalid: bool,
    behavior: Option<Behavior>)

  function Key(e: Event): string {
    e.instance + [0 as char] + e.connectionId
  }

  function NewRecord(e: Event): Record {
    Record(e.connectionId, e.instance, "", "", "", None, None, None, None, None, "", false, None)
  }

  predicate Usable(line: Line) {
    && line.Decoded?
    && line.event.connectionId != "" && line.event.instance != ""
    && line.event.timestamp.Some? && line.event.version == EVENT_VERSION
  }

  predicate Accepts(e: Event) {
    e.kind == StarttlsEvent && e.state == "accepted"
  }

  /** The events that may appear only once with different contents. */
  predicate Single(e: Event) {
    e.kind == StartEvent || e.kind == EndEvent || e.kind == FingerprintEvent || Accepts(e)
  }

  predicate KnownKind(e: Event) {
    !e.kind.OtherEvent?
  }

  /** The names of an event must agree with the names so far. */
  function Identify(c: Record, e: Event): Record {
    var d := if e.client == "" then c
             else c.(client := e.client, invalid := c.invalid || (c.client != "" && c.client != e.client));
    if e.listener == "" then d
    else d.(listener := e.listener, invalid := d.invalid || (d.listener != "" && d.listener != e.listener))
  }

  function Apply(c: Record, e: Event): Record {
    match e.kind
    case StartEvent => c.(start := e.timestamp, client := e.client, listener := e.listener)
    case FingerprintEvent => c.(tls := e.timestamp, ja3 := e.ja3, ja4 := e.ja4)
    case StarttlsEvent => if e.state == "accepted" then c.(accepted := e.timestamp) else c
    case EndEvent => c.(end := e.timestamp, state := e.state, behavior := e.behavior)
    case OtherEvent(_) => c.(invalid := true)
  }

  // ---------------------------------------------------------------------
  // One connection.

  /** A record with the single events it was made from. */
  datatype Slot = Slot(record: Record, seen: map<Kind, Event>)

  function Absorb(s: Slot, e: Event): Slot {
    var c := Identify(s.record, e);
    if Conflicts(s, e) then Slot(c.(invalid := true), s.seen)
    else Slot(Apply(c, e), if Single(e) then s.seen[e.kind := e] else s.seen)
  }

  /** The events of one connection, in the order of the journal. */
  function FoldOne(es: seq<Event>): Slot
    requires es != []
  {
    var last := es[|es| - 1];
    if |es| == 1 then Absorb(Slot(NewRecord(last), map[]), last) else Absorb(FoldOne(es[..|es| - 1]), last)
  }

  // ---------------------------------------------------------------------
  // The whole journal.

  /** The events of a connection. */
  function Of(lines: seq<Line>, k: string): seq<Event> {
    if lines == [] then []
    else
      var last := lines[|lines| - 1];
      Of(lines[..|lines| - 1], k) + if Usable(last) && Key(last.event) == k then [last.event] else []
  }

  predicate Conflicts(s: Slot, e: Event) {
    Single(e) && e.kind in s.seen && s.seen[e.kind] != e
  }

  /** The count of malformed events: lines that cannot be used, single events that contradict an
      earlier one of their connection, and events of an unknown kind. */
  function Malformed(lines: seq<Line>): nat {
    if lines == [] then 0
    else
      var before, last := lines[..|lines| - 1], lines[|lines| - 1];
      Malformed(before) +
      if !Usable(last) then 1
      else
        var es := Of(before, Key(last.event));
        if (es != [] && Conflicts(FoldOne(es), last.event)) || !KnownKind(last.event) then 1 else 0
  }

  lemma OfSnoc(lines: seq<Line>, line: Line, k: string)
    ensures Of(lines + [line], k) == Of(lines, k) + if Usable(line) && Key(line.event) == k then [line.event] else []
  {
    PrefixOfSnoc(lines, line);
  }

  /** The two maps of the reader hold, for a connection, the fold of its own events. */
  ghost predicate HoldsAt(records: map<string, Record>, seen: map<(string, Kind), Event>, es: seq<Event>, k: string) {
    && (k in records <==> es != [])
    && (es == [] ==> forall t :: (k, t) !in seen)
    && (es != [] ==>
      && records[k] == FoldOne(es).record
      && (forall t :: (k, t) in seen <==> t in FoldOne(es).seen)
      && (forall t :: (k, t) in seen ==> seen[(k, t)] == FoldOne(es).seen[t]))
  }

  ghost predicate Holds(records: map<string, Record>, seen: map<(string, Kind), Event>, lines: seq<Line>) {
    forall k :: HoldsAt(records, seen, Of(lines, k), k)
  }

  /** The reader: one pass over the journal, with records and single events in maps. */
  method ReadConnections(lines: seq<Line>) returns (records: map<string, Record>, bad: nat)
    ensures forall k :: k in records <==> Of(lines, k) != []
    ensures forall k :: k in records ==> records[k] == FoldOne(Of(lines, k)).record
    ensures bad == Malformed(lines)
  {
    records, bad := map[], 0;
    var seen: map<(string, Kind), Event> := map[];
    for i := 0 to |lines|
      invariant Holds(records, seen, lines[..i])
      invariant bad == Malformed(lines[..i])
    {
      PrefixNext(lines, i);
      records, seen, bad := ReadLine(records, seen, bad, lines[..i], lines[i]);
    }
    PrefixAll(lines);
  }

  /** A usable event changes the record and the single events of its own connection only. */
  lemma HoldsAfter(records: map<string, Record>, seen: map<(string, Kind), Event>, before: seq<Line>, e: Event,
                   seen': map<(string, Kind), Event>)
    requires Holds(records, seen, before) && Usable(Decoded(e))
    requires seen' == (if Absorb(SlotOf(before, e), e).seen == SlotOf(before, e).seen then seen
                       else seen[(Key(e), e.kind) := e])
    ensures Holds(records[Key(e) := Absorb(SlotOf(before, e), e).record], seen', before + [Decoded(e)])
  {
    var k := Key(e);
    var records' := records[k := Absorb(SlotOf(before, e), e).record];
    forall j
      ensures HoldsAt(records', seen', Of(before + [Decoded(e)], j), j)
    {
      OfSnoc(before, Decoded(e), j);
      assert HoldsAt(records, seen, Of(before, j), j);
      if j == k {
        FoldOneSnoc(before, e);
        HoldsHere(records, seen, before, e, seen');
      } else {
        assert Of(before, j) + [] == Of(before, j);
      }
    }
  }

  lemma HoldsHere(records: map<string, Record>, seen: map<(string, Kind), Event>, before: seq<Line>, e: Event,
                  seen': map<(string, Kind), Event>)
    requires HoldsAt(records, seen, Of(before, Key(e)), Key(e)) && Usable(Decoded(e))
    requires seen' == (if Absorb(SlotOf(before, e), e).seen == SlotOf(before, e).seen then seen
                       else seen[(Key(e), e.kind) := e])
    ensures HoldsAt(records[Key(e) := Absorb(SlotOf(before, e), e).record], seen', Of(before, Key(e)) + [e], Key(e))
  {
    FoldOneSnoc(before, e);
    var s := SlotOf(before, e);
    var k := Key(e);
    assert forall t :: (k, t) in seen <==> t in s.seen;
    assert forall t :: (k, t) in seen ==> seen[(k, t)] == s.seen[t];
    if Absorb(s, e).seen != s.seen {
      assert Absorb(s, e).seen == s.seen[e.kind := e];
    }
  }

  /** What is known of the event's connection before it. */
  function SlotOf(before: seq<Line>, e: Event): Slot {
    if Of(before, Key(e)) == [] then Slot(NewRecord(e), map[]) else FoldOne(Of(before, Key(e)))
  }

  lemma FoldOneSnoc(before: seq<Line>, e: Event)
    requires Usable(Decoded(e))
    ensures Of(before + [Decoded(e)], Key(e)) == Of(before, Key(e)) + [e]
    ensures FoldOne(Of(before, Key(e)) + [e]) == Absorb(SlotOf(before, e), e)
  {
    OfSnoc(before, Decoded(e), Key(e));
    var es := Of(before, Key(e)) + [e];
    assert es[..|es| - 1] == Of(before, Key(e));
  }

  method ReadLine(records: map<string, Record>, seen: map<(string, Kind), Event>, bad: nat, ghost before: seq<Line>,
                  line: Line)
    returns (records': map<string, Record>, seen': map<(string, Kind), Event>, bad': nat)
    requires Holds(records, seen, before)
    ensures Holds(records', seen', before + [line])
    ensures bad' == bad + Malformed(before + [line]) - Malformed(before)
  {
    PrefixOfSnoc(before, line);
    if !Usable(line) {
      forall k
        ensures Of(before + [line], k) == Of(before, k)
      {
        OfSnoc(before, line, k);
        assert HoldsAt(records, seen, Of(before, k), k);
      }
      return records, seen, bad + 1;
    }
    records', seen', bad' := ReadEvent(records, seen, bad, before, line.event);
  }

  method ReadEvent(records: map<string, Record>, seen: map<(string, Kind), Event>, bad: nat, ghost before: seq<Line>,
                   e: Event)
    returns (records': map<string, Record>, seen': map<(string, Kind), Event>, bad': nat)
    requires Holds(records, seen, before) && Usable(Decoded(e))
    ensures Holds(records', seen', before + [Decoded(e)])
    ensures bad' == bad + if Conflicts(SlotOf(before, e), e) || !KnownKind(e) then 1 else 0
  {
    records', seen', bad' := records, seen, bad;
    var k := Key(e);
    var c := if k in records then records[k] else NewRecord(e);
    ghost var slot := SlotOf(before, e);
    assert HoldsAt(records, seen, Of(before, k), k);
    c := Identify(c, e);
    if Single(e) {
      if (k, e.kind) in seen && seen[(k, e.kind)] != e {
        records' := records[k := c.(invalid := true)];
        bad' := bad + 1;
        HoldsAfter(records, seen, before, e, seen');
        return;
      }
      seen' := seen[(k, e.kind) := e];
    }
    if !KnownKind(e) {
      bad' := bad + 1;
    }
    records' := records[k := Apply(c, e)];
    assert Absorb(slot, e).seen == slot.seen ==> seen' == seen;
    HoldsAfter(records, seen, before, e, seen');
  }
}
