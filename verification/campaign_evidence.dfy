/** The Postscreen log reader (readSMTPCampaignEvidence in smtp_campaign.go): which lines make up one
    session of evidence. */
module CampaignEvidence {
  import opened Bytes
  import opened Sorting

  datatype Service = Postscreen | Smtpd

  /** The three bounded fields of a rejection. */
  datatype Envelope = Envelope(sender: string, recipient: string, helo: string)

  /** A log line, already classified. A client that is no address and port, and an envelope with a missing
      or overlong field, are absent. */
  datatype Line =
    | Connect(at: int, client: Option<string>, service: Service)
    | Pregreet(at: int, client: Option<string>, verb: string, user: bool)
    | Reject(at: int, client: Option<string>, envelope: Option<Envelope>)
    | Broken
    | Foreign

  datatype Evidence = Evidence(
    client: string,
    start: int,
    lastAt: int,
    pregreetAt: Option<int>,
    verb: string,
    ehloUser: bool,
    rejectAt: Option<int>,
    envelope: Envelope,
    sawPostscreen: bool,
    sawSmtpd: bool)

  const NOTHING := Envelope("", "", "")

  predicate HasClient(line: Line) {
    (line.Connect? || line.Pregreet? || line.Reject?) && line.client.Some?
  }

  predicate WellFormed(line: Line) {
    HasClient(line) && (line.Reject? ==> line.envelope.Some?)
  }

  predicate Malformed(line: Line) {
    !line.Foreign? && !WellFormed(line)
  }

  // ---------------------------------------------------------------------
  // The specification: sessions with the lines that they are made of.

  datatype Session = Session(evidence: Evidence, lines: seq<nat>)

  datatype State = State(active: map<string, Session>, done: seq<Session>)

  predicate Timely(e: Evidence, at: int, lifetime: nat) {
    e.lastAt <= at <= e.lastAt + lifetime
  }

  /** The line continues the session. */
  predicate Joins(e: Evidence, line: Line, lifetime: nat)
    requires HasClient(line)
  {
    && Timely(e, line.at, lifetime)
    && match line
       case Connect(_, _, service) => service == Smtpd && e.sawPostscreen && !e.sawSmtpd
       case Pregreet(_, _, _, _) => e.pregreetAt.None?
       case _ => true
  }

  function Begin(line: Line): Evidence
    requires WellFormed(line)
  {
    var e := Evidence(line.client.value, line.at, line.at, None, "", false, None, NOTHING, false, false);
    match line
    case Connect(_, _, service) => e.(sawPostscreen := service == Postscreen, sawSmtpd := service == Smtpd)
    case _ => Extend(e, line)
  }

  function Extend(e: Evidence, line: Line): Evidence
    requires WellFormed(line)
  {
    match line
    case Connect(at, _, _) => e.(sawSmtpd := true, lastAt := at)
    case Pregreet(at, _, verb, user) =>
      e.(pregreetAt := Some(at), verb := verb, ehloUser := verb == "EHLO" && user, lastAt := at)
    case Reject(at, _, envelope) => e.(rejectAt := Some(at), envelope := envelope.value, lastAt := at)
  }

  function Close(s: State, client: string): State {
    if client in s.active then State(s.active - {client}, s.done + [s.active[client]]) else s
  }

  predicate Continues(s: State, line: Line, lifetime: nat)
    requires HasClient(line)
  {
    line.client.value in s.active && Joins(s.active[line.client.value].evidence, line, lifetime)
  }

  /** Puts line `i` into a session of its client. */
  function Place(s: State, line: Line, i: nat, lifetime: nat): State
    requires WellFormed(line)
  {
    var client := line.client.value;
    if Continues(s, line, lifetime) then
      var session := s.active[client];
      s.(active := s.active[client := Session(Extend(session.evidence, line), session.lines + [i])])
    else
      var closed := Close(s, client);
      closed.(active := closed.active[client := Session(Begin(line), [i])])
  }

  function Step(s: State, line: Line, i: nat, lifetime: nat): State {
    if WellFormed(line) then
      var placed := Place(s, line, i, lifetime);
      if line.Reject? then Close(placed, line.client.value) else placed
    else if HasClient(line) && !Continues(s, line, lifetime) then Close(s, line.client.value)
    else s
  }

  function Read(lines: seq<Line>, n: nat, lifetime: nat): State
    requires n <= |lines|
  {
    if n == 0 then State(map[], []) else Step(Read(lines, n - 1, lifetime), lines[n - 1], n - 1, lifetime)
  }

  /** The rest of the open sessions, each once, in the order of their clients. */
  predicate Rest(rest: seq<Session>, active: map<string, Session>) {
    && |rest| == |active|
    && (forall k :: 0 <= k < |rest| ==> rest[k].evidence.client in active && active[rest[k].evidence.client] == rest[k])
    && (forall k, l :: 0 <= k < l < |rest| ==> rest[k].evidence.client != rest[l].evidence.client)
    && (forall k, l :: 0 <= k < l < |rest| ==> Below(rest[k].evidence.client, rest[l].evidence.client))
  }

  function MalformedLines(lines: seq<Line>, n: nat): nat
    requires n <= |lines|
  {
    if n == 0 then 0 else MalformedLines(lines, n - 1) + if Malformed(lines[n - 1]) then 1 else 0
  }

  function EvidenceOf(sessions: seq<Session>): (r: seq<Evidence>)
    ensures |r| == |sessions|
    ensures forall k :: 0 <= k < |r| ==> r[k] == sessions[k].evidence
  {
    seq(|sessions|, k requires 0 <= k < |sessions| => sessions[k].evidence)
  }

  // ---------------------------------------------------------------------
  // The reader.

  /** The reader's map and list are those of the specification, without the line numbers. */
  ghost predicate Mirrors(active: map<string, Evidence>, result: seq<Evidence>, s: State) {
    && (forall c :: c in active <==> c in s.active)
    && (forall c :: c in active ==> active[c] == s.active[c].evidence)
    && result == EvidenceOf(s.done)
  }

  method Flush(active: map<string, Evidence>, result: seq<Evidence>, client: string, ghost s: State)
    returns (active': map<string, Evidence>, result': seq<Evidence>)
    requires Mirrors(active, result, s)
    ensures Mirrors(active', result', Close(s, client))
    ensures client !in active'
  {
    active', result' := active, result;
    if client in active {
      result' := result + [active[client]];
      active' := active - {client};
      assert result' == EvidenceOf(Close(s, client).done);
    }
  }

  method ReadSMTPCampaignEvidence(lines: seq<Line>, lifetime: nat)
    returns (result: seq<Evidence>, malformed: nat, ghost rest: seq<Session>)
    ensures Rest(rest, Read(lines, |lines|, lifetime).active)
    ensures result == EvidenceOf(Read(lines, |lines|, lifetime).done + rest)
    ensures malformed == MalformedLines(lines, |lines|)
  {
    result, malformed, rest := [], 0, [];
    var active: map<string, Evidence> := map[];
    for n := 0 to |lines|
      invariant Mirrors(active, result, Read(lines, n, lifetime))
      invariant malformed == MalformedLines(lines, n)
    {
      ghost var s := Read(lines, n, lifetime);
      var line := lines[n];
      if Malformed(line) {
        malformed := malformed + 1;
      }
      match line {
        case Connect(at, client, service) =>
          if client.Some? {
            active, result := ReadConnect(active, result, at, client.value, service, s, n, lifetime);
          }
        case Pregreet(at, client, verb, user) =>
          if client.Some? {
            active, result := ReadPregreet(active, result, at, client.value, verb, user, s, n, lifetime);
          }
        case Reject(at, client, envelope) =>
          if client.Some? {
            active, result := ReadReject(active, result, at, client.value, envelope, s, n, lifetime);
          }
        case Broken =>
        case Foreign =>
      }
    }
    ReadIsSound(lines, |lines|, lifetime);
    result, rest := FlushAll(active, result, Read(lines, |lines|, lifetime));
  }

  /** The clients with an open session, sorted. */
  method SortedClients(active: map<string, Evidence>) returns (keys: seq<string>)
    ensures multiset(keys) == multiset(active.Keys) && Ordered(keys, Below)
  {
    keys := [];
    var left := active.Keys;
    while left != {}
      invariant multiset(keys) + multiset(left) == multiset(active.Keys)
      decreases |left|
    {
      var key :| key in left;
      keys := keys + [key];
      left := left - {key};
    }
    BelowIsTotal();
    SortOrders(keys, Below);
    keys := SortBy(keys, Below);
  }

  ghost function Sessions(active: map<string, Session>, keys: seq<string>): (r: seq<Session>)
    requires forall c :: c in keys ==> c in active
    ensures |r| == |keys| && forall k :: 0 <= k < |r| ==> r[k] == active[keys[k]]
  {
    seq(|keys|, k requires 0 <= k < |keys| => active[keys[k]])
  }

  /** At the end of the log the open sessions are emitted, too. */
  method FlushAll(active: map<string, Evidence>, result: seq<Evidence>, ghost s: State)
    returns (result': seq<Evidence>, ghost rest: seq<Session>)
    requires Mirrors(active, result, s) && (forall c :: c in s.active ==> s.active[c].evidence.client == c)
    ensures Rest(rest, s.active) && result' == EvidenceOf(s.done + rest)
  {
    var keys := SortedClients(active);
    rest := RestOf(active, result, s, keys);
    result' := Emit(active, result, keys, s, rest);
  }

  lemma RestOf(active: map<string, Evidence>, result: seq<Evidence>, s: State, keys: seq<string>)
    returns (rest: seq<Session>)
    requires Mirrors(active, result, s) && (forall c :: c in s.active ==> s.active[c].evidence.client == c)
    requires multiset(keys) == multiset(active.Keys) && Ordered(keys, Below)
    ensures Rest(rest, s.active) && |rest| == |keys|
    ensures forall k :: 0 <= k < |keys| ==> keys[k] in active && active[keys[k]] == rest[k].evidence
  {
    MembersOnce(keys, active.Keys);
    SameSize(active, s.active);
    rest := Sessions(s.active, keys);
    SessionsAreRest(s.active, keys);
    assert forall k :: 0 <= k < |keys| ==> keys[k] in keys;
  }

  lemma SessionsAreRest(active: map<string, Session>, keys: seq<string>)
    requires forall c :: c in keys ==> c in active && active[c].evidence.client == c
    requires |keys| == |active| && Ordered(keys, Below) && forall k, l :: 0 <= k < l < |keys| ==> keys[k] != keys[l]
    ensures Rest(Sessions(active, keys), active)
  {
    var rest := Sessions(active, keys);
    forall k | 0 <= k < |rest|
      ensures rest[k].evidence.client == keys[k]
    {
      assert keys[k] in keys;
    }
  }

  method Emit(active: map<string, Evidence>, result: seq<Evidence>, keys: seq<string>, ghost s: State,
              ghost rest: seq<Session>)
    returns (result': seq<Evidence>)
    requires Mirrors(active, result, s) && |rest| == |keys|
    requires forall k :: 0 <= k < |keys| ==> keys[k] in active && active[keys[k]] == rest[k].evidence
    ensures result' == EvidenceOf(s.done + rest)
  {
    result' := result;
    PlusNothing(s.done);
    for i := 0 to |keys|
      invariant result' == EvidenceOf(s.done + rest[..i])
    {
      EvidenceNext(s.done, rest, i);
      result' := result' + [active[keys[i]]];
    }
    PrefixAll(rest);
  }

  lemma EvidenceNext(done: seq<Session>, rest: seq<Session>, i: nat)
    requires i < |rest|
    ensures EvidenceOf(done + rest[..i + 1]) == EvidenceOf(done + rest[..i]) + [rest[i].evidence]
  {
    PrefixNext(rest, i);
    Associative(done, rest[..i], [rest[i]]);
    EvidenceSnoc(done + rest[..i], rest[i]);
  }

  lemma EvidenceSnoc(sessions: seq<Session>, session: Session)
    ensures EvidenceOf(sessions + [session]) == EvidenceOf(sessions) + [session.evidence]
  {
  }

  lemma SameSize<T, U>(m: map<string, T>, n: map<string, U>)
    requires forall c :: c in m <==> c in n
    ensures |m| == |n|
  {
    assert m.Keys == n.Keys;
    assert |m.Keys| == |m| && |n.Keys| == |n|;
  }

  method ReadConnect(active: map<string, Evidence>, result: seq<Evidence>, at: int, client: string, service: Service,
                     ghost s: State, ghost i: nat, lifetime: nat)
    returns (active': map<string, Evidence>, result': seq<Evidence>)
    requires Mirrors(active, result, s)
    ensures Mirrors(active', result', Step(s, Connect(at, Some(client), service), i, lifetime))
  {
    if client in active {
      var item := active[client];
      if service == Smtpd && item.sawPostscreen && !item.sawSmtpd && at >= item.lastAt && at - item.lastAt <= lifetime {
        item := item.(sawSmtpd := true, lastAt := at);
        return active[client := item], result;
      }
    }
    active', result' := Flush(active, result, client, s);
    var item := Evidence(client, at, at, None, "", false, None, NOTHING, service == Postscreen, service == Smtpd);
    active' := active'[client := item];
  }

  method ReadPregreet(active: map<string, Evidence>, result: seq<Evidence>, at: int, client: string, verb: string,
                      user: bool, ghost s: State, ghost i: nat, lifetime: nat)
    returns (active': map<string, Evidence>, result': seq<Evidence>)
    requires Mirrors(active, result, s)
    ensures Mirrors(active', result', Step(s, Pregreet(at, Some(client), verb, user), i, lifetime))
  {
    active', result' := active, result;
    var item := Evidence(client, at, at, None, "", false, None, NOTHING, false, false);
    if client in active {
      var found := active[client];
      if found.pregreetAt.Some? || at < found.lastAt || at - found.lastAt > lifetime {
        active', result' := Flush(active, result, client, s);
      } else {
        item := found;
      }
    }
    item := item.(pregreetAt := Some(at), lastAt := at, verb := verb, ehloUser := verb == "EHLO" && user);
    active' := active'[client := item];
  }

  method ReadReject(active: map<string, Evidence>, result: seq<Evidence>, at: int, client: string,
                    envelope: Option<Envelope>, ghost s: State, ghost i: nat, lifetime: nat)
    returns (active': map<string, Evidence>, result': seq<Evidence>)
    requires Mirrors(active, result, s)
    ensures Mirrors(active', result', Step(s, Reject(at, Some(client), envelope), i, lifetime))
  {
    active', result' := active, result;
    var item := Evidence(client, at, at, None, "", false, None, NOTHING, false, false);
    if client in active && at >= active[client].lastAt && at - active[client].lastAt <= lifetime {
      item := active[client];
    } else {
      active', result' := Flush(active, result, client, s);
    }
    if envelope.None? {
      return;
    }
    item := item.(rejectAt := Some(at), lastAt := at, envelope := envelope.value);
    active' := active'[client := item];
    active', result' := Flush(active', result', client, Place(s, Reject(at, Some(client), envelope), i, lifetime));
  }

  // ---------------------------------------------------------------------
  // What the sessions are.

  /** The evidence of some lines, taken together. */
  function Replay(lines: seq<Line>, own: seq<nat>): Evidence
    requires own != [] && forall k :: 0 <= k < |own| ==> own[k] < |lines| && WellFormed(lines[own[k]])
  {
    var last := own[|own| - 1];
    if |own| == 1 then Begin(lines[last]) else Extend(Replay(lines, own[..|own| - 1]), lines[last])
  }

  ghost predicate OwnLines(lines: seq<Line>, own: seq<nat>, client: string, n: nat)
    requires n <= |lines|
  {
    && own != []
    && (forall k :: 0 <= k < |own| ==> own[k] < n && WellFormed(lines[own[k]]) && lines[own[k]].client == Some(client))
    && forall k, l :: 0 <= k < l < |own| ==> own[k] < own[l]
  }

  function At(line: Line): int {
    if HasClient(line) then line.at else 0
  }

  /** Consecutive lines follow each other within the lifetime. */
  ghost predicate Gapless(lines: seq<Line>, own: seq<nat>, lifetime: nat)
    requires forall k :: 0 <= k < |own| ==> own[k] < |lines|
  {
    forall k, l :: 0 <= k < l < |own| && l == k + 1 ==>
      At(lines[own[k]]) <= At(lines[own[l]]) <= At(lines[own[k]]) + lifetime
  }

  /** How many lines can have joined the session after its first. */
  function Joined(e: Evidence): nat {
    (if e.sawPostscreen && e.sawSmtpd then 1 else 0) +
    (if e.pregreetAt.Some? then 1 else 0) +
    if e.rejectAt.Some? then 1 else 0
  }

  ghost predicate Sound(lines: seq<Line>, session: Session, n: nat, lifetime: nat)
    requires n <= |lines|
  {
    var e, own := session.evidence, session.lines;
    && OwnLines(lines, own, e.client, n)
    && e == Replay(lines, own)
    && Gapless(lines, own, lifetime)
    && e.start == lines[own[0]].at && e.lastAt == lines[own[|own| - 1]].at
    && |own| - 1 <= Joined(e)
    && e.start <= e.lastAt <= e.start + (|own| - 1) * lifetime
  }

  /** Sessions of the same client do not overlap. */
  predicate Earlier(a: Session, b: Session) {
    a.evidence.client == b.evidence.client && a.lines != [] && b.lines != [] ==> a.lines[|a.lines| - 1] < b.lines[0]
  }

  predicate Covered(s: State, i: nat) {
    (exists c :: c in s.active && i in s.active[c].lines) || (exists k :: 0 <= k < |s.done| && i in s.done[k].lines)
  }

  ghost predicate OpenSound(lines: seq<Line>, s: State, n: nat, lifetime: nat)
    requires n <= |lines|
  {
    forall c :: c in s.active ==>
      s.active[c].evidence.client == c && s.active[c].evidence.rejectAt.None? && Sound(lines, s.active[c], n, lifetime)
  }

  ghost predicate DoneSound(lines: seq<Line>, s: State, n: nat, lifetime: nat)
    requires n <= |lines|
  {
    && (forall k :: 0 <= k < |s.done| ==> Sound(lines, s.done[k], n, lifetime))
    && (forall k, l :: 0 <= k < l < |s.done| ==> Earlier(s.done[k], s.done[l]))
    && (forall k, c :: 0 <= k < |s.done| && c in s.active ==> Earlier(s.done[k], s.active[c]))
  }

  lemma StillSound(lines: seq<Line>, s: State, n: nat, lifetime: nat)
    requires n < |lines| && OpenSound(lines, s, n, lifetime) && DoneSound(lines, s, n, lifetime)
    ensures OpenSound(lines, s, n + 1, lifetime) && DoneSound(lines, s, n + 1, lifetime)
  {
    forall session | Sound(lines, session, n, lifetime)
      ensures Sound(lines, session, n + 1, lifetime)
    {
      assert OwnLines(lines, session.lines, session.evidence.client, n + 1);
    }
  }

  lemma BeginIsSound(lines: seq<Line>, i: nat, lifetime: nat)
    requires i < |lines| && WellFormed(lines[i])
    ensures Sound(lines, Session(Begin(lines[i]), [i]), i + 1, lifetime)
  {
  }

  lemma GaplessSnoc(lines: seq<Line>, own: seq<nat>, i: nat, lifetime: nat)
    requires own != [] && i < |lines| && (forall k :: 0 <= k < |own| ==> own[k] < |lines|)
    requires Gapless(lines, own, lifetime)
    requires At(lines[own[|own| - 1]]) <= At(lines[i]) <= At(lines[own[|own| - 1]]) + lifetime
    ensures Gapless(lines, own + [i], lifetime)
  {
  }

  lemma OneMoreJoins(e: Evidence, line: Line, lifetime: nat)
    requires WellFormed(line) && Joins(e, line, lifetime) && e.rejectAt.None?
    ensures var r := Extend(e, line);
            Joined(r) == Joined(e) + 1 && r.lastAt == line.at && r.start == e.start && r.client == e.client
  {
  }

  lemma ExtendIsSound(lines: seq<Line>, session: Session, i: nat, lifetime: nat)
    requires i < |lines| && WellFormed(lines[i]) && lines[i].client.value == session.evidence.client
    requires Sound(lines, session, i, lifetime) && session.evidence.rejectAt.None?
    requires Joins(session.evidence, lines[i], lifetime)
    ensures Sound(lines, Session(Extend(session.evidence, lines[i]), session.lines + [i]), i + 1, lifetime)
  {
    var own := session.lines + [i];
    assert own[..|own| - 1] == session.lines;
    assert OwnLines(lines, own, session.evidence.client, i + 1);
    GaplessSnoc(lines, session.lines, i, lifetime);
    OneMoreJoins(session.evidence, lines[i], lifetime);
    assert (|own| - 1) * lifetime == (|session.lines| - 1) * lifetime + lifetime;
  }

  lemma CloseCovers(s: State, client: string, i: nat)
    requires Covered(s, i)
    ensures Covered(Close(s, client), i)
  {
    var r := Close(s, client);
    if c :| c in s.active && i in s.active[c].lines {
      if c == client {
        assert i in r.done[|s.done|].lines;
      } else {
        assert c in r.active && i in r.active[c].lines;
      }
    } else {
      var k :| 0 <= k < |s.done| && i in s.done[k].lines;
      assert i in r.done[k].lines;
    }
  }

  /** A line stays in its session, or joins one. */
  lemma PlaceCovers(s: State, line: Line, i: nat, lifetime: nat, j: nat)
    requires WellFormed(line) && (Covered(s, j) || j == i)
    ensures Covered(Place(s, line, i, lifetime), j)
  {
    var client, p := line.client.value, Place(s, line, i, lifetime);
    if j == i {
      assert i in p.active[client].lines;
    } else if Continues(s, line, lifetime) {
      if c :| c in s.active && j in s.active[c].lines {
        assert c in p.active && j in p.active[c].lines;
      }
    } else {
      CloseCovers(s, client, j);
      var closed := Close(s, client);
      if c :| c in closed.active && j in closed.active[c].lines {
        assert c in p.active && j in p.active[c].lines;
      }
    }
  }

  /** Every well-formed line is in a session. */
  lemma {:induction false} ReadCovers(lines: seq<Line>, n: nat, lifetime: nat, j: nat)
    requires j < n <= |lines| && WellFormed(lines[j])
    ensures Covered(Read(lines, n, lifetime), j)
    decreases n
  {
    var i := n - 1;
    var s := Read(lines, i, lifetime);
    if j < i {
      ReadCovers(lines, i, lifetime, j);
    }
    if WellFormed(lines[i]) {
      PlaceCovers(s, lines[i], i, lifetime, j);
      CloseCovers(Place(s, lines[i], i, lifetime), lines[i].client.value, j);
    } else if HasClient(lines[i]) {
      CloseCovers(s, lines[i].client.value, j);
    }
  }

  lemma CloseIsSound(lines: seq<Line>, s: State, n: nat, lifetime: nat, client: string)
    requires n <= |lines| && OpenSound(lines, s, n, lifetime) && DoneSound(lines, s, n, lifetime)
    ensures OpenSound(lines, Close(s, client), n, lifetime) && DoneSound(lines, Close(s, client), n, lifetime)
  {
    if client in s.active {
      var r := Close(s, client);
      assert forall k :: 0 <= k < |s.done| ==> r.done[k] == s.done[k];
      assert r.done[|s.done|] == s.active[client];
    }
  }

  lemma ContinuedSession(lines: seq<Line>, s: State, i: nat, lifetime: nat)
    requires i < |lines| && OpenSound(lines, s, i, lifetime)
    requires WellFormed(lines[i]) && Continues(s, lines[i], lifetime)
    ensures var p, client := Place(s, lines[i], i, lifetime), lines[i].client.value;
            && (forall c :: c in p.active <==> c in s.active)
            && p.active[client].evidence.client == client && Sound(lines, p.active[client], i + 1, lifetime)
            && (forall c :: c in p.active && c != client ==> p.active[c] == s.active[c])
            && p.active[client].lines == s.active[client].lines + [i]
  {
    ExtendIsSound(lines, s.active[lines[i].client.value], i, lifetime);
  }

  lemma EarlierStays(a: Session, b: Session, c: Session, i: nat)
    requires Earlier(a, b) && c.evidence.client == b.evidence.client && c.lines == b.lines + [i] && b.lines != []
    ensures Earlier(a, c)
  {
  }

  lemma ContinueIsSound(lines: seq<Line>, s: State, i: nat, lifetime: nat)
    requires i < |lines| && OpenSound(lines, s, i, lifetime) && DoneSound(lines, s, i, lifetime)
    requires WellFormed(lines[i]) && Continues(s, lines[i], lifetime)
    ensures var p := Place(s, lines[i], i, lifetime); DoneSound(lines, p, i + 1, lifetime)
    ensures var p, client := Place(s, lines[i], i, lifetime), lines[i].client.value;
            && (forall c :: c in p.active <==> c in s.active)
            && p.active[client].evidence.client == client && Sound(lines, p.active[client], i + 1, lifetime)
            && (forall c :: c in p.active && c != client ==> p.active[c] == s.active[c])
            && p.active[client].lines == s.active[client].lines + [i]
  {
    var p, client := Place(s, lines[i], i, lifetime), lines[i].client.value;
    StillSound(lines, s, i, lifetime);
    ContinuedSession(lines, s, i, lifetime);
    forall k | 0 <= k < |s.done|
      ensures Earlier(s.done[k], p.active[client])
    {
      EarlierStays(s.done[k], s.active[client], p.active[client], i);
    }
  }

  /** A placed line is in a session, and all sessions are sound. */
  lemma PlaceIsSound(lines: seq<Line>, s: State, i: nat, lifetime: nat)
    requires i < |lines| && OpenSound(lines, s, i, lifetime) && DoneSound(lines, s, i, lifetime) && WellFormed(lines[i])
    ensures var p, client := Place(s, lines[i], i, lifetime), lines[i].client.value;
            && DoneSound(lines, p, i + 1, lifetime)
            && client in p.active && p.active[client].evidence.client == client &&
               Sound(lines, p.active[client], i + 1, lifetime)
            && (lines[i].Reject? <==> p.active[client].evidence.rejectAt.Some?)
            && (forall c :: c in p.active && c != client ==>
                 p.active[c].evidence.client == c && p.active[c].evidence.rejectAt.None? &&
                 Sound(lines, p.active[c], i + 1, lifetime))
  {
    var client := lines[i].client.value;
    var p := Place(s, lines[i], i, lifetime);
    StillSound(lines, s, i, lifetime);
    if Continues(s, lines[i], lifetime) {
      ContinueIsSound(lines, s, i, lifetime);
    } else {
      CloseIsSound(lines, s, i, lifetime, client);
      var closed := Close(s, client);
      StillSound(lines, closed, i, lifetime);
      BeginIsSound(lines, i, lifetime);
      forall k | 0 <= k < |p.done|
        ensures Earlier(p.done[k], p.active[client])
      {
        assert Sound(lines, closed.done[k], i, lifetime);
      }
    }
  }

  lemma ClosePlaced(lines: seq<Line>, p: State, n: nat, lifetime: nat, client: string)
    requires n <= |lines| && DoneSound(lines, p, n, lifetime)
    requires client in p.active && Sound(lines, p.active[client], n, lifetime)
    requires p.active[client].evidence.client == client
    requires forall c :: c in p.active && c != client ==>
               p.active[c].evidence.client == c && p.active[c].evidence.rejectAt.None? &&
               Sound(lines, p.active[c], n, lifetime)
    ensures OpenSound(lines, Close(p, client), n, lifetime) && DoneSound(lines, Close(p, client), n, lifetime)
  {
    var r := Close(p, client);
    assert forall k :: 0 <= k < |p.done| ==> r.done[k] == p.done[k];
    assert r.done[|p.done|] == p.active[client];
  }

  /** Sessions stay sound over the whole log. */
  lemma {:induction false} ReadIsSound(lines: seq<Line>, n: nat, lifetime: nat)
    requires n <= |lines|
    ensures OpenSound(lines, Read(lines, n, lifetime), n, lifetime) &&
            DoneSound(lines, Read(lines, n, lifetime), n, lifetime)
    decreases n
  {
    if n > 0 {
      var i := n - 1;
      var s := Read(lines, i, lifetime);
      ReadIsSound(lines, i, lifetime);
      StillSound(lines, s, i, lifetime);
      if WellFormed(lines[i]) {
        PlaceIsSound(lines, s, i, lifetime);
        if lines[i].Reject? {
          ClosePlaced(lines, Place(s, lines[i], i, lifetime), n, lifetime, lines[i].client.value);
        }
      } else if HasClient(lines[i]) {
        CloseIsSound(lines, s, n, lifetime, lines[i].client.value);
      }
    }
  }

  /** The sessions partition the well-formed lines: each of them is in exactly one session, of its own
      client; a session is the evidence of its lines, follows the log without long gaps, and spans at
      most three times the maximum lifetime. */
  lemma SessionsPartitionTheLog(lines: seq<Line>, lifetime: nat, rest: seq<Session>)
    requires Rest(rest, Read(lines, |lines|, lifetime).active)
    ensures var all := Read(lines, |lines|, lifetime).done + rest;
            && (forall k :: 0 <= k < |all| ==> Sound(lines, all[k], |lines|, lifetime))
            && (forall k :: 0 <= k < |all| ==> all[k].evidence.lastAt - all[k].evidence.start <= 3 * lifetime)
            && (forall i: nat :: i < |lines| && WellFormed(lines[i]) ==>
                exists k :: 0 <= k < |all| && i in all[k].lines)
            && (forall k, l :: 0 <= k < l < |all| ==> Earlier(all[k], all[l]))
            && (forall i, k, l :: 0 <= k < |all| && 0 <= l < |all| && i in all[k].lines && i in all[l].lines ==> k == l)
  {
    var all := Read(lines, |lines|, lifetime).done + rest;
    AllSound(lines, lifetime, rest);
    forall i: nat | i < |lines| && WellFormed(lines[i])
      ensures exists k :: 0 <= k < |all| && i in all[k].lines
    {
      var k := SessionOf(lines, lifetime, rest, i);
      assert i in all[k].lines;
    }
    forall k, l | 0 <= k < l < |all|
      ensures forall i :: i in all[k].lines ==> i !in all[l].lines
    {
      EarlierIsDisjoint(lines, all[k], all[l], lifetime);
    }
  }

  lemma AllSound(lines: seq<Line>, lifetime: nat, rest: seq<Session>)
    requires Rest(rest, Read(lines, |lines|, lifetime).active)
    ensures var all := Read(lines, |lines|, lifetime).done + rest;
            && (forall k :: 0 <= k < |all| ==> Sound(lines, all[k], |lines|, lifetime))
            && (forall k :: 0 <= k < |all| ==> all[k].evidence.lastAt - all[k].evidence.start <= 3 * lifetime)
            && (forall k, l :: 0 <= k < l < |all| ==> Earlier(all[k], all[l]))
  {
    var s := Read(lines, |lines|, lifetime);
    var all := s.done + rest;
    ReadIsSound(lines, |lines|, lifetime);
    forall k | 0 <= k < |all|
      ensures Sound(lines, all[k], |lines|, lifetime) && all[k].evidence.lastAt - all[k].evidence.start <= 3 * lifetime
    {
      AtMostFour(lines, all[k], lifetime);
    }
    forall k, l | 0 <= k < l < |all|
      ensures Earlier(all[k], all[l])
    {
      AllOrdered(lines, lifetime, s, rest, k, l);
    }
  }

  lemma AllOrdered(lines: seq<Line>, lifetime: nat, s: State, rest: seq<Session>, k: nat, l: nat)
    requires DoneSound(lines, s, |lines|, lifetime) && Rest(rest, s.active) && k < l < |s.done| + |rest|
    ensures Earlier((s.done + rest)[k], (s.done + rest)[l])
  {
    if l >= |s.done| {
      var b := rest[l - |s.done|];
      assert b == s.active[b.evidence.client];
      if k >= |s.done| {
        assert rest[k - |s.done|].evidence.client != b.evidence.client;
      }
    }
  }

  lemma InOpen(s: State, rest: seq<Session>, client: string, i: nat) returns (k: nat)
    requires Rest(rest, s.active) && client in s.active && i in s.active[client].lines
    ensures k < |s.done + rest| && i in (s.done + rest)[k].lines
  {
    var j := RestHas(rest, s.active, client);
    k := |s.done| + j;
    assert (s.done + rest)[k] == rest[j];
  }

  lemma InDone(done: seq<Session>, rest: seq<Session>, k: nat, i: nat)
    requires k < |done| && i in done[k].lines
    ensures i in (done + rest)[k].lines
  {
  }

  lemma SessionOf(lines: seq<Line>, lifetime: nat, rest: seq<Session>, i: nat) returns (k: nat)
    requires Rest(rest, Read(lines, |lines|, lifetime).active) && i < |lines| && WellFormed(lines[i])
    ensures var all := Read(lines, |lines|, lifetime).done + rest;
            k < |all| && i in all[k].lines
  {
    var s := Read(lines, |lines|, lifetime);
    ReadCovers(lines, |lines|, lifetime, i);
    if c :| c in s.active && i in s.active[c].lines {
      k := InOpen(s, rest, c, i);
    } else {
      k :| 0 <= k < |s.done| && i in s.done[k].lines;
      InDone(s.done, rest, k, i);
    }
  }

  lemma AtMostFour(lines: seq<Line>, session: Session, lifetime: nat)
    requires Sound(lines, session, |lines|, lifetime)
    ensures session.evidence.lastAt - session.evidence.start <= 3 * lifetime
  {
    assert (|session.lines| - 1) * lifetime <= 3 * lifetime;
  }

  lemma EarlierIsDisjoint(lines: seq<Line>, a: Session, b: Session, lifetime: nat)
    requires Sound(lines, a, |lines|, lifetime) && Sound(lines, b, |lines|, lifetime) && Earlier(a, b)
    ensures forall i :: i in a.lines ==> i !in b.lines
  {
  }

  /** Every open session is in the rest. */
  lemma RestHas(rest: seq<Session>, active: map<string, Session>, client: string) returns (k: nat)
    requires Rest(rest, active) && client in active
    ensures k < |rest| && rest[k] == active[client]
  {
    var clients := set k | 0 <= k < |rest| :: rest[k].evidence.client;
    ClientsCount(rest);
    assert clients <= active.Keys && |clients| == |active.Keys|;
    SubsetIsAll(clients, active.Keys);
    k :| 0 <= k < |rest| && rest[k].evidence.client == client;
  }

  lemma SubsetIsAll<T>(s: set<T>, t: set<T>)
    requires s <= t && |s| == |t|
    ensures s == t
  {
    assert t == s + (t - s) && |t| == |s| + |t - s|;
  }

  lemma {:induction false} ClientsCount(rest: seq<Session>)
    requires forall k, l :: 0 <= k < l < |rest| ==> rest[k].evidence.client != rest[l].evidence.client
    ensures |set k | 0 <= k < |rest| :: rest[k].evidence.client| == |rest|
    decreases |rest|
  {
    if rest != [] {
      var before := rest[..|rest| - 1];
      ClientsCount(before);
      var some := set k | 0 <= k < |before| :: before[k].evidence.client;
      var all := set k | 0 <= k < |rest| :: rest[k].evidence.client;
      assert all == some + {rest[|rest| - 1].evidence.client};
    }
  }
}
