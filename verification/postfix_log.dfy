/** The Postfix log reader (readPostfixMessages in smtp_correlate.go): where each queued message stands
    to the TLS handshake of its smtpd session. */
module PostfixLog {
  import opened Bytes

  /** A log line, already classified; a client without a port is absent. */
  datatype Line =
    | Connect(pid: string, at: int, client: Option<string>)
    | Handshake(pid: string, at: int, client: Option<string>)
    | Disconnect(pid: string, at: int)
    | Queued(pid: string, at: int, queueId: string, client: Option<string>)
    | Other

  /** Where a message stands to the handshake: unknown, handshake first, message first, or more than
      one handshake. */
  datatype Order = Unknown | HandshakeFirst | MessageFirst | Conflict

  /** A message that Postfix queued; without a session it has no start. */
  datatype Message = Message(
    instance: string,
    queueId: string,
    client: string,
    pid: string,
    at: int,
    sessionStart: Option<int>,
    order: Order)

  // ---------------------------------------------------------------------
  // What the log says.

  predicate Ends(line: Line, pid: string) {
    (line.Connect? || line.Disconnect?) && line.pid == pid
  }

  /** Line `k` opened the session in which process `pid` still is before line `n`. */
  ghost predicate Open(lines: seq<Line>, pid: string, k: nat, n: nat)
    requires n <= |lines|
  {
    && k < n && lines[k].Connect? && lines[k].pid == pid && lines[k].client.Some?
    && forall j :: k < j < n ==> !Ends(lines[j], pid)
  }

  /** The handshake or message of line `i` belongs to the session that line `k` opened. */
  ghost predicate InSession(lines: seq<Line>, i: nat, k: nat)
    requires i < |lines|
  {
    && (lines[i].Handshake? || lines[i].Queued?) && lines[i].client.Some?
    && Open(lines, lines[i].pid, k, i)
    && lines[i].client == lines[k].client && lines[k].at <= lines[i].at
  }

  ghost predicate HandshakeOf(lines: seq<Line>, j: nat, k: nat)
    requires j < |lines|
  {
    lines[j].Handshake? && InSession(lines, j, k)
  }

  /** The handshakes of a session among the first `n` lines. */
  ghost function Handshakes(lines: seq<Line>, k: nat, n: nat): set<nat>
    requires n <= |lines|
  {
    set j: nat | j < n && HandshakeOf(lines, j, k)
  }

  /** How the message of line `i` stands to the handshakes of its session. */
  ghost function OrderOf(lines: seq<Line>, i: nat, k: nat, n: nat): Order
    requires n <= |lines|
  {
    var all := Handshakes(lines, k, n);
    if |all| == 0 then Unknown
    else if |all| > 1 then Conflict
    else if exists j: nat :: j in all && j < i then HandshakeFirst
    else MessageFirst
  }

  /** The session of line `k` has exactly one handshake among the first `n` lines. */
  ghost predicate OnlyHandshake(lines: seq<Line>, h: nat, k: nat, n: nat)
    requires n <= |lines|
  {
    h < n && HandshakeOf(lines, h, k) && forall j: nat :: j < n && HandshakeOf(lines, j, k) ==> j == h
  }

  lemma OneHandshake(lines: seq<Line>, h: nat, k: nat, n: nat)
    requires n <= |lines|
    ensures OnlyHandshake(lines, h, k, n) <==> Handshakes(lines, k, n) == {h}
  {
    if Handshakes(lines, k, n) == {h} {
      assert h in Handshakes(lines, k, n);
      assert forall j: nat :: j < n && HandshakeOf(lines, j, k) ==> j in Handshakes(lines, k, n);
    }
  }

  lemma Singleton(s: set<nat>)
    requires |s| == 1
    ensures exists h :: s == {h}
  {
    var h :| h in s;
    assert s == {h} + (s - {h});
  }

  /** What the order of a message means: no handshake in its session, a single one before or after it, or several. */
  lemma OrderMeans(lines: seq<Line>, i: nat, k: nat, n: nat)
    requires n <= |lines| && i < |lines| && lines[i].Queued?
    ensures OrderOf(lines, i, k, n) == Unknown <==> forall j: nat :: j < n ==> !HandshakeOf(lines, j, k)
    ensures OrderOf(lines, i, k, n) == HandshakeFirst <==> exists h: nat :: OnlyHandshake(lines, h, k, n) && h < i
    ensures OrderOf(lines, i, k, n) == MessageFirst <==> exists h: nat :: OnlyHandshake(lines, h, k, n) && i < h
  {
    var all := Handshakes(lines, k, n);
    assert forall j: nat :: j in all <==> j < n && HandshakeOf(lines, j, k);
    if |all| == 1 {
      Singleton(all);
      var h :| all == {h};
      OneHandshake(lines, h, k, n);
      assert h != i;
    }
    forall h: nat | OnlyHandshake(lines, h, k, n)
      ensures all == {h}
    {
      OneHandshake(lines, h, k, n);
    }
  }

  /** The message that the reader makes of line `i`, when it has read `n` lines. */
  ghost predicate Tells(lines: seq<Line>, instance: string, i: nat, n: nat, m: Message)
    requires i < n <= |lines|
  {
    && lines[i].Queued?
    && m.instance == instance && m.queueId == lines[i].queueId && m.pid == lines[i].pid && m.at == lines[i].at
    && m.client == (if lines[i].client.Some? then lines[i].client.value else "")
    && (forall k: nat :: InSession(lines, i, k) ==>
        m.sessionStart == Some(lines[k].at) && m.order == OrderOf(lines, i, k, n))
    && ((forall k: nat :: !InSession(lines, i, k)) ==> m.sessionStart == None && m.order == Unknown)
  }

  /** The lines that queue a message, in the order of the log. */
  function QueueLines(lines: seq<Line>, n: nat): (r: seq<nat>)
    requires n <= |lines|
    ensures forall x: nat :: x in r <==> x < n && lines[x].Queued?
    ensures forall m: nat :: m < |r| ==> r[m] < n && lines[r[m]].Queued?
  {
    if n == 0 then [] else QueueLines(lines, n - 1) + if lines[n - 1].Queued? then [n - 1] else []
  }

  // ---------------------------------------------------------------------
  // The reader.

  datatype Session = Session(client: string, epoch: int, order: Order, messages: seq<nat>)

  /** The order that the next message of a session gets. */
  ghost function SessionOrder(lines: seq<Line>, k: nat, n: nat): Order
    requires n <= |lines|
  {
    var all := Handshakes(lines, k, n);
    if |all| == 0 then Unknown else if |all| == 1 then HandshakeFirst else Conflict
  }

  ghost predicate Tracks(lines: seq<Line>, n: nat, s: Session, k: nat)
    requires n <= |lines|
  {
    && k < n && lines[k].Connect? && lines[k].client == Some(s.client) && lines[k].at == s.epoch
    && s.order == SessionOrder(lines, k, n)
    && forall m: nat :: m in s.messages <==> m < |QueueLines(lines, n)| && InSession(lines, QueueLines(lines, n)[m], k)
  }

  /** The open sessions before line `n`, with the lines that opened them. */
  ghost predicate AllOpen(lines: seq<Line>, n: nat, openers: map<string, nat>)
    requires n <= |lines|
  {
    forall pid, k: nat :: Open(lines, pid, k, n) <==> pid in openers && openers[pid] == k
  }

  ghost predicate Sessions(lines: seq<Line>, n: nat, sessions: map<string, Session>, openers: map<string, nat>)
    requires n <= |lines|
  {
    && sessions.Keys == openers.Keys
    && AllOpen(lines, n, openers)
    && (forall pid :: pid in sessions ==> Tracks(lines, n, sessions[pid], openers[pid]))
  }

  ghost predicate AllTell(lines: seq<Line>, instance: string, n: nat, out: seq<Message>)
    requires n <= |lines|
  {
    && |out| == |QueueLines(lines, n)|
    && forall m: nat :: m < |out| ==> Tells(lines, instance, QueueLines(lines, n)[m], n, out[m])
  }

  /** The messages of the log, each with the order that the whole log gives it. */
  method ReadPostfixMessages(lines: seq<Line>, instance: string) returns (out: seq<Message>)
    ensures AllTell(lines, instance, |lines|, out)
  {
    out := [];
    var sessions: map<string, Session> := map[];
    ghost var openers: map<string, nat> := map[];
    for n := 0 to |lines|
      invariant Sessions(lines, n, sessions, openers)
      invariant AllTell(lines, instance, n, out)
    {
      var line := lines[n];
      match line {
        case Connect(pid, at, client) =>
          QuietLine(lines, instance, n, out);
          if client.None? {
            Closed(lines, n, sessions, openers);
            sessions, openers := sessions - {pid}, openers - {pid};
          } else {
            Renewed(lines, n, sessions, openers);
            sessions := sessions[pid := Session(client.value, at, Unknown, [])];
            openers := openers[pid := n];
          }
        case Handshake(_, _, _) =>
          sessions, out := ReadHandshake(lines, instance, n, sessions, openers, out);
        case Disconnect(pid, _) =>
          QuietLine(lines, instance, n, out);
          Closed(lines, n, sessions, openers);
          sessions, openers := sessions - {pid}, openers - {pid};
        case Queued(_, _, _, _) =>
          sessions, out := ReadQueued(lines, instance, n, sessions, openers, out);
        case Other =>
          QuietLine(lines, instance, n, out);
          StillTracked(lines, n, sessions, openers);
      }
    }
  }

  /** A handshake of the session turns up before its next message and after its earlier ones. */
  method ReadHandshake(lines: seq<Line>, instance: string, n: nat, sessions: map<string, Session>,
                       ghost openers: map<string, nat>, out: seq<Message>)
    returns (sessions': map<string, Session>, out': seq<Message>)
    requires n < |lines| && lines[n].Handshake?
    requires Sessions(lines, n, sessions, openers) && AllTell(lines, instance, n, out)
    ensures Sessions(lines, n + 1, sessions', openers) && AllTell(lines, instance, n + 1, out')
  {
    var pid, at, client := lines[n].pid, lines[n].at, lines[n].client;
    if pid !in sessions || client.None? || sessions[pid].client != client.value || at < sessions[pid].epoch {
      Stranger(lines, n, sessions, openers);
      QuietLine(lines, instance, n, out);
      return sessions, out;
    }
    var s := sessions[pid];
    var order := MessageFirst;
    Joined(lines, n, sessions, openers);
    HandshakeTurns(lines, n, sessions, openers);
    assert forall m: nat :: m in s.messages ==> m < |out|;
    if s.order != Unknown {
      s, order := s.(order := Conflict), Conflict;
    } else {
      s := s.(order := HandshakeFirst);
    }
    sessions' := sessions[pid := s];
    out' := BackPatch(out, s.messages, order);
    HandshakeTells(lines, instance, n, sessions[pid], openers[pid], out, out');
  }

  method ReadQueued(lines: seq<Line>, instance: string, n: nat, sessions: map<string, Session>,
                    ghost openers: map<string, nat>, out: seq<Message>)
    returns (sessions': map<string, Session>, out': seq<Message>)
    requires n < |lines| && lines[n].Queued?
    requires Sessions(lines, n, sessions, openers) && AllTell(lines, instance, n, out)
    ensures Sessions(lines, n + 1, sessions', openers) && AllTell(lines, instance, n + 1, out')
  {
    var pid, at, client := lines[n].pid, lines[n].at, lines[n].client;
    var m := Message(instance, lines[n].queueId, "", pid, at, None, Unknown);
    sessions' := sessions;
    if client.None? || pid !in sessions || sessions[pid].client != client.value || at < sessions[pid].epoch {
      Stranger(lines, n, sessions, openers);
      if client.Some? {
        m := m.(client := client.value);
      }
    } else {
      var s := sessions[pid];
      Joined(lines, n, sessions, openers);
      MessageJoins(lines, n, sessions, openers);
      sessions' := sessions[pid := s.(messages := s.messages + [|out|])];
      m := m.(client := client.value, sessionStart := Some(s.epoch), order := s.order);
      MessageOrder(lines, instance, n, s, openers[pid], m);
    }
    Appended(lines, instance, n, out, m);
    out' := out + [m];
  }

  /** Gives the messages with the listed indices their order. */
  method BackPatch(out: seq<Message>, indices: seq<nat>, order: Order) returns (r: seq<Message>)
    requires forall m: nat :: m in indices ==> m < |out|
    ensures |r| == |out|
    ensures forall m: nat :: m < |out| ==> r[m] == if m in indices then out[m].(order := order) else out[m]
  {
    r := out;
    for i := 0 to |indices|
      invariant |r| == |out|
      invariant forall m: nat :: m < |out| ==> r[m] == if m in indices[..i] then out[m].(order := order) else out[m]
    {
      PrefixNext(indices, i);
      assert indices[i] in indices;
      r := r[indices[i] := r[indices[i]].(order := order)];
    }
    PrefixAll(indices);
  }

  // ---------------------------------------------------------------------
  // One line.

  lemma HandshakesAfter(lines: seq<Line>, k: nat, n: nat)
    requires n < |lines|
    ensures Handshakes(lines, k, n + 1) == Handshakes(lines, k, n) + if HandshakeOf(lines, n, k) then {n} else {}
    ensures n !in Handshakes(lines, k, n)
  {
  }

  lemma OneSession(lines: seq<Line>, i: nat, k: nat, h: nat)
    requires i < |lines| && InSession(lines, i, k) && InSession(lines, i, h)
    ensures k == h
  {
    if k < h {
      assert Ends(lines[h], lines[i].pid);
    } else if h < k {
      assert Ends(lines[k], lines[i].pid);
    }
  }

  /** Messages keep what they tell over a line that is no handshake of a session. */
  lemma StillTells(lines: seq<Line>, instance: string, n: nat, i: nat, m: Message)
    requires n < |lines| && i < n && Tells(lines, instance, i, n, m)
    requires forall k: nat :: InSession(lines, i, k) ==> !HandshakeOf(lines, n, k)
    ensures Tells(lines, instance, i, n + 1, m)
  {
    forall k | InSession(lines, i, k)
      ensures OrderOf(lines, i, k, n + 1) == OrderOf(lines, i, k, n)
    {
      HandshakesAfter(lines, k, n);
    }
  }

  lemma QuietBefore(lines: seq<Line>, instance: string, n: nat, out: seq<Message>)
    requires n < |lines| && AllTell(lines, instance, n, out) && (forall k: nat :: !HandshakeOf(lines, n, k))
    ensures |out| == |QueueLines(lines, n)|
    ensures forall m: nat :: m < |out| ==> Tells(lines, instance, QueueLines(lines, n)[m], n + 1, out[m])
  {
    forall m: nat | m < |out|
      ensures Tells(lines, instance, QueueLines(lines, n)[m], n + 1, out[m])
    {
      StillTells(lines, instance, n, QueueLines(lines, n)[m], out[m]);
    }
  }

  lemma QuietLine(lines: seq<Line>, instance: string, n: nat, out: seq<Message>)
    requires n < |lines| && AllTell(lines, instance, n, out) && !lines[n].Queued?
    requires forall k: nat :: !HandshakeOf(lines, n, k)
    ensures AllTell(lines, instance, n + 1, out)
  {
    QuietBefore(lines, instance, n, out);
    assert QueueLines(lines, n + 1) == QueueLines(lines, n);
  }

  lemma OpenAfter(lines: seq<Line>, pid: string, k: nat, n: nat)
    requires n < |lines|
    ensures Open(lines, pid, k, n + 1) <==>
      if k == n then lines[n].Connect? && lines[n].pid == pid && lines[n].client.Some?
      else Open(lines, pid, k, n) && !Ends(lines[n], pid)
  {
    if k < n && Open(lines, pid, k, n + 1) {
      assert !Ends(lines[n], pid);
      assert forall j :: k < j < n ==> !Ends(lines[j], pid);
    }
  }

  /** A session that the line does not concern is tracked on. */
  lemma TracksOn(lines: seq<Line>, n: nat, s: Session, k: nat)
    requires n < |lines| && Tracks(lines, n, s, k) && !InSession(lines, n, k)
    ensures Tracks(lines, n + 1, s, k)
  {
    HandshakesAfter(lines, k, n);
    assert lines[n].Queued? ==> QueueLines(lines, n + 1) == QueueLines(lines, n) + [n];
  }

  lemma OpenSame(lines: seq<Line>, n: nat, openers: map<string, nat>)
    requires n < |lines| && AllOpen(lines, n, openers) && !lines[n].Connect? && !lines[n].Disconnect?
    ensures AllOpen(lines, n + 1, openers)
  {
    var after := n + 1;
    forall pid, k: nat
      ensures Open(lines, pid, k, after) <==> pid in openers && openers[pid] == k
    {
      OpenAfter(lines, pid, k, n);
      assert Open(lines, pid, k, n) <==> pid in openers && openers[pid] == k;
    }
  }

  lemma StillTracked(lines: seq<Line>, n: nat, sessions: map<string, Session>, openers: map<string, nat>)
    requires n < |lines| && Sessions(lines, n, sessions, openers) && !lines[n].Connect? && !lines[n].Disconnect?
    requires forall k: nat :: !InSession(lines, n, k)
    ensures Sessions(lines, n + 1, sessions, openers)
  {
    OpenSame(lines, n, openers);
    forall pid | pid in sessions
      ensures Tracks(lines, n + 1, sessions[pid], openers[pid])
    {
      TracksOn(lines, n, sessions[pid], openers[pid]);
    }
  }

  /** A line that the reader finds no session for has none. */
  lemma Stranger(lines: seq<Line>, n: nat, sessions: map<string, Session>, openers: map<string, nat>)
    requires n < |lines| && Sessions(lines, n, sessions, openers) && (lines[n].Handshake? || lines[n].Queued?)
    requires var pid := lines[n].pid;
             pid !in sessions || lines[n].client != Some(sessions[pid].client) || lines[n].at < sessions[pid].epoch
    ensures forall k: nat :: !InSession(lines, n, k)
    ensures Sessions(lines, n + 1, sessions, openers)
  {
    forall k: nat
      ensures !InSession(lines, n, k)
    {
      var pid := lines[n].pid;
      assert Open(lines, pid, k, n) <==> pid in openers && openers[pid] == k;
      assert pid in sessions ==> Tracks(lines, n, sessions[pid], openers[pid]);
    }
    StillTracked(lines, n, sessions, openers);
  }

  lemma Joined(lines: seq<Line>, n: nat, sessions: map<string, Session>, openers: map<string, nat>)
    requires n < |lines| && Sessions(lines, n, sessions, openers) && (lines[n].Handshake? || lines[n].Queued?)
    requires var pid := lines[n].pid;
             pid in sessions && lines[n].client == Some(sessions[pid].client) && lines[n].at >= sessions[pid].epoch
    ensures forall k: nat :: InSession(lines, n, k) <==> k == openers[lines[n].pid]
  {
    var pid := lines[n].pid;
    assert Open(lines, pid, openers[pid], n);
    assert Tracks(lines, n, sessions[pid], openers[pid]);
  }

  /** A connect or disconnect line ends the session of its own process only. */
  lemma Closed(lines: seq<Line>, n: nat, sessions: map<string, Session>, openers: map<string, nat>)
    requires n < |lines| && Sessions(lines, n, sessions, openers)
    requires lines[n].Disconnect? || (lines[n].Connect? && lines[n].client.None?)
    ensures Sessions(lines, n + 1, sessions - {lines[n].pid}, openers - {lines[n].pid})
  {
    var after, rest := n + 1, openers - {lines[n].pid};
    forall pid, k: nat
      ensures Open(lines, pid, k, after) <==> pid in rest && rest[pid] == k
    {
      OpenAfter(lines, pid, k, n);
      assert Open(lines, pid, k, n) <==> pid in openers && openers[pid] == k;
    }
    OthersTracked(lines, n, sessions, openers);
  }

  lemma Renewed(lines: seq<Line>, n: nat, sessions: map<string, Session>, openers: map<string, nat>)
    requires n < |lines| && Sessions(lines, n, sessions, openers)
    requires lines[n].Connect? && lines[n].client.Some?
    ensures Sessions(lines, n + 1, sessions[lines[n].pid := Session(lines[n].client.value, lines[n].at, Unknown, [])],
                     openers[lines[n].pid := n])
  {
    var after, more := n + 1, openers[lines[n].pid := n];
    forall pid, k: nat
      ensures Open(lines, pid, k, after) <==> pid in more && more[pid] == k
    {
      OpenAfter(lines, pid, k, n);
      assert Open(lines, pid, k, n) <==> pid in openers && openers[pid] == k;
    }
    OthersTracked(lines, n, sessions, openers);
    NewSession(lines, n);
  }

  lemma NewSession(lines: seq<Line>, n: nat)
    requires n < |lines| && lines[n].Connect? && lines[n].client.Some?
    ensures Tracks(lines, n + 1, Session(lines[n].client.value, lines[n].at, Unknown, []), n)
  {
    assert forall j: nat :: j <= n ==> !InSession(lines, j, n);
    assert Handshakes(lines, n, n + 1) == {};
    var q := QueueLines(lines, n + 1);
    assert forall m: nat :: m < |q| ==> q[m] in q;
  }

  /** The sessions of other processes are tracked on. */
  lemma OthersTracked(lines: seq<Line>, n: nat, sessions: map<string, Session>, openers: map<string, nat>)
    requires n < |lines| && Sessions(lines, n, sessions, openers) && !lines[n].Other?
    ensures forall pid :: pid in sessions && pid != lines[n].pid ==> Tracks(lines, n + 1, sessions[pid], openers[pid])
  {
    forall pid | pid in sessions && pid != lines[n].pid
      ensures Tracks(lines, n + 1, sessions[pid], openers[pid])
    {
      assert Open(lines, pid, openers[pid], n);
      TracksOn(lines, n, sessions[pid], openers[pid]);
    }
  }

  lemma Appended(lines: seq<Line>, instance: string, n: nat, out: seq<Message>, m: Message)
    requires n < |lines| && AllTell(lines, instance, n, out) && lines[n].Queued? && Tells(lines, instance, n, n + 1, m)
    ensures AllTell(lines, instance, n + 1, out + [m])
  {
    QuietBefore(lines, instance, n, out);
    assert QueueLines(lines, n + 1) == QueueLines(lines, n) + [n];
  }

  /** The order of a session after one more handshake. */
  function Turned(order: Order): Order {
    if order != Unknown then Conflict else HandshakeFirst
  }

  /** A handshake changes the order of its session. */
  lemma HandshakeTurns(lines: seq<Line>, n: nat, sessions: map<string, Session>, openers: map<string, nat>)
    requires n < |lines| && Sessions(lines, n, sessions, openers)
    requires lines[n].Handshake? && lines[n].pid in sessions && InSession(lines, n, openers[lines[n].pid])
    ensures var pid := lines[n].pid;
            Sessions(lines, n + 1, sessions[pid := sessions[pid].(order := Turned(sessions[pid].order))], openers)
  {
    var pid := lines[n].pid;
    OpenSame(lines, n, openers);
    OthersTracked(lines, n, sessions, openers);
    HandshakeTracked(lines, n, sessions[pid], openers[pid]);
  }

  lemma HandshakeTracked(lines: seq<Line>, n: nat, s: Session, k: nat)
    requires n < |lines| && HandshakeOf(lines, n, k) && Tracks(lines, n, s, k)
    ensures Tracks(lines, n + 1, s.(order := Turned(s.order)), k)
  {
    HandshakesAfter(lines, k, n);
    assert QueueLines(lines, n + 1) == QueueLines(lines, n);
  }

  /** It also changes the order of the messages of the session. */
  lemma HandshakePatches(lines: seq<Line>, instance: string, n: nat, s: Session, k: nat, out: seq<Message>)
    requires n < |lines| && AllTell(lines, instance, n, out) && Tracks(lines, n, s, k) && HandshakeOf(lines, n, k)
    requires forall h: nat :: InSession(lines, n, h) ==> h == k
    ensures QueueLines(lines, n + 1) == QueueLines(lines, n)
    ensures forall m: nat :: m in s.messages ==> m < |out|
    ensures forall m: nat :: m < |out| ==>
      Tells(lines, instance, QueueLines(lines, n)[m], n + 1,
            if m in s.messages then out[m].(order := if s.order != Unknown then Conflict else MessageFirst) else out[m])
  {
    forall m: nat | m < |out|
      ensures Tells(lines, instance, QueueLines(lines, n)[m], n + 1,
                    if m in s.messages
                    then out[m].(order := if s.order != Unknown then Conflict else MessageFirst) else out[m])
    {
      if m in s.messages {
        Patched(lines, instance, n, QueueLines(lines, n)[m], k, s.order, out[m]);
      } else {
        StillTells(lines, instance, n, QueueLines(lines, n)[m], out[m]);
      }
    }
  }

  lemma HandshakeTells(lines: seq<Line>, instance: string, n: nat, s: Session, k: nat, out: seq<Message>,
                       patched: seq<Message>)
    requires n < |lines| && AllTell(lines, instance, n, out) && Tracks(lines, n, s, k) && HandshakeOf(lines, n, k)
    requires forall h: nat :: InSession(lines, n, h) ==> h == k
    requires |patched| == |out|
    requires forall m: nat :: m < |out| ==>
      patched[m] == if m in s.messages then out[m].(order := if s.order != Unknown then Conflict else MessageFirst)
                    else out[m]
    ensures AllTell(lines, instance, n + 1, patched)
  {
    HandshakePatches(lines, instance, n, s, k, out);
  }

  lemma Patched(lines: seq<Line>, instance: string, n: nat, i: nat, k: nat, order: Order, m: Message)
    requires n < |lines| && i < n && Tells(lines, instance, i, n, m) && InSession(lines, i, k)
    requires HandshakeOf(lines, n, k)
    requires order == SessionOrder(lines, k, n)
    ensures Tells(lines, instance, i, n + 1, m.(order := if order != Unknown then Conflict else MessageFirst))
  {
    HandshakesAfter(lines, k, n);
    forall h | InSession(lines, i, h)
      ensures h == k
    {
      OneSession(lines, i, h, k);
    }
  }

  lemma MessageJoins(lines: seq<Line>, n: nat, sessions: map<string, Session>, openers: map<string, nat>)
    requires n < |lines| && Sessions(lines, n, sessions, openers)
    requires lines[n].Queued? && lines[n].pid in sessions && InSession(lines, n, openers[lines[n].pid])
    ensures var pid := lines[n].pid;
            Sessions(lines, n + 1,
                     sessions[pid := sessions[pid].(messages := sessions[pid].messages +
                                                    [|QueueLines(lines, n)|])], openers)
  {
    var pid := lines[n].pid;
    OpenSame(lines, n, openers);
    OthersTracked(lines, n, sessions, openers);
    MessageTracked(lines, n, sessions[pid], openers[pid]);
  }

  lemma MessageTracked(lines: seq<Line>, n: nat, s: Session, k: nat)
    requires n < |lines| && lines[n].Queued? && InSession(lines, n, k) && Tracks(lines, n, s, k)
    ensures Tracks(lines, n + 1, s.(messages := s.messages + [|QueueLines(lines, n)|]), k)
  {
    HandshakesAfter(lines, k, n);
    var q, all, more := QueueLines(lines, n), QueueLines(lines, n + 1), s.messages + [|QueueLines(lines, n)|];
    assert all == q + [n];
    forall m: nat
      ensures m in more <==> m < |all| && InSession(lines, all[m], k)
    {
      assert m in s.messages <==> m < |q| && InSession(lines, q[m], k);
      assert m in more <==> m in s.messages || m == |q|;
    }
  }

  /** A message gets the order of its session. */
  lemma MessageOrder(lines: seq<Line>, instance: string, n: nat, s: Session, k: nat, m: Message)
    requires n < |lines| && lines[n].Queued? && InSession(lines, n, k) && Tracks(lines, n, s, k)
    requires m == Message(instance, lines[n].queueId, s.client, lines[n].pid, lines[n].at, Some(s.epoch), s.order)
    ensures Tells(lines, instance, n, n + 1, m)
  {
    HandshakesAfter(lines, k, n);
    var all := Handshakes(lines, k, n);
    if |all| == 1 {
      var j :| j in all;
    }
    forall h: nat | InSession(lines, n, h)
      ensures h == k
    {
      OneSession(lines, n, h, k);
    }
  }
}
