/** Which connection a message came over, and whether it was encrypted (matchSMTPConn,
    messageSMTPTransport and boundedVerdict in smtp_correlate.go). */
module Attribution {
  import opened Bytes
  import opened SmtpFold
  import opened SmtpLoss
  import opened PostfixLog

  // ---------------------------------------------------------------------
  // The decisions.

  /** The session of the message can be that of the record, if the clocks differ by the tolerance. */
  predicate Candidate(c: Record, m: Message, tolerance: nat) {
    && m.sessionStart.Some?
    && c.instance == m.instance && c.client == m.client && c.start.Some? && !c.invalid && c.end.Some?
    && m.sessionStart.value <= m.at
    && c.start.value - tolerance <= m.sessionStart.value <= c.end.value + tolerance
    && m.at <= c.end.value + tolerance
  }

  function Candidates(cs: seq<Record>, m: Message, tolerance: nat): (r: seq<Record>)
    ensures forall c :: c in r <==> c in cs && Candidate(c, m, tolerance)
  {
    if cs == [] then []
    else Candidates(cs[..|cs| - 1], m, tolerance) + if Candidate(cs[|cs| - 1], m, tolerance) then [cs[|cs| - 1]] else []
  }

  lemma {:induction false} NoSessionNoCandidates(cs: seq<Record>, m: Message, tolerance: nat)
    requires m.sessionStart.None?
    ensures Candidates(cs, m, tolerance) == []
    decreases |cs|
  {
    if cs != [] {
      NoSessionNoCandidates(cs[..|cs| - 1], m, tolerance);
    }
  }

  method MatchSMTPConn(cs: seq<Record>, m: Message, tolerance: nat) returns (out: seq<Record>)
    ensures out == Candidates(cs, m, tolerance)
  {
    out := [];
    if m.sessionStart.None? {
      NoSessionNoCandidates(cs, m, tolerance);
      return;
    }
    var started := m.sessionStart.value;
    for i := 0 to |cs|
      invariant out == Candidates(cs[..i], m, tolerance)
    {
      PrefixNext(cs, i);
      var c := cs[i];
      if c.instance != m.instance || c.client != m.client || c.start.None? || c.invalid || m.at < started {
        continue;
      }
      if c.end.None? {
        continue;
      }
      if started >= c.start.value - tolerance && started <= c.end.value + tolerance && m.at <= c.end.value + tolerance {
        out := out + [c];
      }
    }
    PrefixAll(cs);
  }

  datatype Transport = Starttls | Plaintext | Uncertain

  function MessageTransport(c: Record, m: Message, tolerance: nat): Transport {
    if !CompleteObservation(c) then Uncertain
    else match m.order
      case Conflict => Uncertain
      case HandshakeFirst =>
        if EndingOf(c.state) == UpgradeSeen && m.at >= c.accepted.value - tolerance then Starttls else Uncertain
      case MessageFirst =>
        if EndingOf(c.state) == UpgradeSeen || EndingOf(c.state) == UpgradeUnread then Plaintext else Uncertain
      case Unknown =>
        if c.state == "no_observed_upgrade" || c.state == "starttls_refused" then Plaintext
        else if c.accepted.Some? && m.at < c.accepted.value - tolerance then Plaintext
        else if EndingOf(c.state) == UpgradeSeen && m.at >= c.tls.value + tolerance then Starttls
        else Uncertain
  }

  // ---------------------------------------------------------------------
  // What really happened.

  /** The true times of one connection and one message of its session: when the gate accepted it and
      saw it end, when Postfix began the session and queued the message, when the gate saw the accepted
      STARTTLS reply and the ClientHello, and when Postfix finished the handshake. */
  datatype Truth = Truth(
    start: int,
    end: int,
    session: int,
    queued: int,
    accepted: Option<int>,
    hello: Option<int>,
    handshake: Option<int>)

  /** The gate is in the middle: it connects to Postfix after it has accepted the client, it sees the
      ClientHello before Postfix does, and Postfix queues nothing between the reply to STARTTLS and the
      handshake. */
  predicate Happens(w: Truth) {
    && w.start <= w.session <= w.queued <= w.end
    && (w.hello.Some? && w.handshake.Some? ==> w.hello.value <= w.handshake.value)
    && (w.accepted.Some? && w.handshake.Some? && w.queued < w.handshake.value ==> w.queued <= w.accepted.value)
  }

  ghost predicate Monotone(clock: int -> int) {
    forall s, t :: s <= t ==> clock(s) <= clock(t)
  }

  ghost predicate NeverStops(clock: int -> int) {
    forall s, t :: s < t ==> clock(s) < clock(t)
  }

  ghost predicate WithinTolerance(gate: int -> int, postfix: int -> int, tolerance: nat) {
    forall t :: gate(t) - tolerance <= postfix(t) <= gate(t) + tolerance
  }

  function Reads(clock: int -> int, t: Option<int>): Option<int> {
    if t.None? then None else Some(clock(t.value))
  }

  /** The record of the connection, in the gate's time. */
  predicate Records(c: Record, w: Truth, gate: int -> int) {
    && c.start == Some(gate(w.start)) && c.end == Some(gate(w.end))
    && c.accepted == Reads(gate, w.accepted) && c.tls == Reads(gate, w.hello)
  }

  /** The message in Postfix's time, with its place in the log. */
  predicate Logs(m: Message, w: Truth, postfix: int -> int) {
    && m.sessionStart == Some(postfix(w.session)) && m.at == postfix(w.queued)
    && (m.order == HandshakeFirst ==> w.handshake.Some? && w.handshake.value <= w.queued)
    && (m.order == MessageFirst ==> w.handshake.Some? && w.queued < w.handshake.value)
  }

  /** With clocks that differ by at most the tolerance the true connection is always a candidate, so
      that a single candidate is the true connection. */
  lemma SingleCandidateIsTrue(cs: seq<Record>, c: Record, m: Message, tolerance: nat, w: Truth, gate: int -> int,
                              postfix: int -> int)
    requires Monotone(gate) && Monotone(postfix) && WithinTolerance(gate, postfix, tolerance) && Happens(w)
    requires Records(c, w, gate) && Logs(m, w, postfix)
    requires c in cs && !c.invalid && c.instance == m.instance && c.client == m.client
    ensures c in Candidates(cs, m, tolerance)
    ensures |Candidates(cs, m, tolerance)| == 1 ==> Candidates(cs, m, tolerance) == [c]
  {
    assert gate(w.start) <= gate(w.session) <= gate(w.queued) <= gate(w.end);
    assert postfix(w.session) <= postfix(w.queued);
  }

  /** A message that is called encrypted was not queued before the ClientHello. */
  lemma StarttlsIsSound(c: Record, m: Message, tolerance: nat, w: Truth, gate: int -> int, postfix: int -> int)
    requires Monotone(gate) && WithinTolerance(gate, postfix, tolerance) && Happens(w)
    requires Records(c, w, gate) && Logs(m, w, postfix)
    requires MessageTransport(c, m, tolerance) == Starttls
    ensures w.accepted.Some? && w.hello.Some? && gate(w.hello.value) <= gate(w.queued)
    ensures NeverStops(gate) ==> w.hello.value <= w.queued
  {
    assert w.hello.Some?;
    assert gate(w.queued) + tolerance >= postfix(w.queued);
    if NeverStops(gate) {
      ClockTells(gate, w.hello.value, w.queued);
    }
  }

  lemma ClockOrders(clock: int -> int, s: int, t: int)
    requires Monotone(clock)
    ensures clock(s) < clock(t) ==> s < t
  {
    assert t <= s ==> clock(t) <= clock(s);
  }

  lemma ClockTells(clock: int -> int, s: int, t: int)
    requires NeverStops(clock) && clock(s) <= clock(t)
    ensures s <= t
  {
    assert t < s ==> clock(t) < clock(s);
  }

  /** A message that is called plaintext was not queued after an accepted upgrade. */
  lemma PlaintextIsSound(c: Record, m: Message, tolerance: nat, w: Truth, gate: int -> int, postfix: int -> int)
    requires Monotone(gate) && WithinTolerance(gate, postfix, tolerance) && Happens(w)
    requires Records(c, w, gate) && Logs(m, w, postfix)
    requires MessageTransport(c, m, tolerance) == Plaintext
    ensures w.accepted.None? || w.queued <= w.accepted.value
  {
    if w.accepted.Some? && m.order == Unknown {
      assert gate(w.queued) - tolerance <= postfix(w.queued);
      ClockOrders(gate, w.queued, w.accepted.value);
    }
  }

  /** Postfix's word that the handshake came first is taken whenever the upgrade and its ClientHello were observed. */
  lemma HandshakeFirstIsStarttls(c: Record, m: Message, tolerance: nat, w: Truth, gate: int -> int, postfix: int -> int)
    requires Monotone(gate) && WithinTolerance(gate, postfix, tolerance) && Happens(w)
    requires Records(c, w, gate) && Logs(m, w, postfix)
    requires CompleteObservation(c) && c.state == "fingerprinted" && m.order == HandshakeFirst
    ensures MessageTransport(c, m, tolerance) == Starttls
  {
    assert gate(w.accepted.value) <= gate(w.hello.value) <= gate(w.queued);
    assert gate(w.queued) - tolerance <= postfix(w.queued);
  }

  /** So is its word that the message came first, whenever the upgrade was observed. */
  lemma MessageFirstIsPlaintext(c: Record, m: Message, tolerance: nat)
    requires CompleteObservation(c) && m.order == MessageFirst
    requires c.state == "fingerprinted" || c.state == "starttls_accepted_no_fingerprint"
    ensures MessageTransport(c, m, tolerance) == Plaintext
  {
  }

  /** Without Postfix's word, a message queued more than twice the tolerance before the upgrade is plaintext. */
  lemma EarlyIsPlaintext(c: Record, m: Message, tolerance: nat, w: Truth, gate: int -> int, postfix: int -> int)
    requires WithinTolerance(gate, postfix, tolerance) && Records(c, w, gate) && Logs(m, w, postfix)
    requires CompleteObservation(c) && m.order == Unknown
    requires w.accepted.Some? && gate(w.queued) + 2 * tolerance < gate(w.accepted.value)
    ensures MessageTransport(c, m, tolerance) == Plaintext
  {
    assert postfix(w.queued) <= gate(w.queued) + tolerance;
  }

  /** One queued at least twice the tolerance after the ClientHello was encrypted. */
  lemma LateIsStarttls(c: Record, m: Message, tolerance: nat, w: Truth, gate: int -> int, postfix: int -> int)
    requires WithinTolerance(gate, postfix, tolerance) && Records(c, w, gate) && Logs(m, w, postfix)
    requires CompleteObservation(c) && c.state == "fingerprinted" && m.order == Unknown
    requires w.hello.Some? && gate(w.hello.value) + 2 * tolerance <= gate(w.queued)
    ensures MessageTransport(c, m, tolerance) == Starttls
  {
    assert gate(w.queued) - tolerance <= postfix(w.queued);
  }

  /** Over a connection that never upgraded every message is plaintext. */
  lemma NoUpgradeIsPlaintext(c: Record, m: Message, tolerance: nat)
    requires CompleteObservation(c) && m.order == Unknown
    requires c.state == "no_observed_upgrade" || c.state == "starttls_refused"
    ensures MessageTransport(c, m, tolerance) == Plaintext
  {
  }

  /** The time of queueing is too close to the upgrade, by the gate's clock, to tell from Postfix's. */
  predicate TooClose(c: Record, w: Truth, gate: int -> int, tolerance: nat) {
    && w.accepted.Some? && gate(w.accepted.value) - 2 * tolerance <= gate(w.queued)
    && (c.state == "fingerprinted" && w.hello.Some? ==> gate(w.queued) < gate(w.hello.value) + 2 * tolerance)
  }

  /** When there is no answer: the connection was not followed, Postfix contradicts itself or the gate, TLS began
      without an upgrade, or without Postfix's word the message was too close to the upgrade. */
  lemma UncertainMeans(c: Record, m: Message, tolerance: nat, w: Truth, gate: int -> int, postfix: int -> int)
    requires Monotone(gate) && WithinTolerance(gate, postfix, tolerance) && Happens(w)
    requires Records(c, w, gate) && Logs(m, w, postfix)
    requires MessageTransport(c, m, tolerance) == Uncertain
    ensures || !CompleteObservation(c)
            || m.order == Conflict
            || (m.order == HandshakeFirst && c.state != "fingerprinted")
            || (m.order == MessageFirst && c.state != "fingerprinted" && c.state != "starttls_accepted_no_fingerprint")
            || (m.order == Unknown && c.state == "premature_tls")
            || (m.order == Unknown && TooClose(c, w, gate, tolerance))
  {
    if CompleteObservation(c) && m.order == HandshakeFirst && c.state == "fingerprinted" {
      HandshakeFirstIsStarttls(c, m, tolerance, w, gate, postfix);
    } else if CompleteObservation(c) && m.order == Unknown && c.state != "premature_tls" {
      UpgradedOrNot(c);
      if w.accepted.Some? && gate(w.queued) + 2 * tolerance < gate(w.accepted.value) {
        EarlyIsPlaintext(c, m, tolerance, w, gate, postfix);
      }
      if c.state == "fingerprinted" && w.hello.Some? && gate(w.hello.value) + 2 * tolerance <= gate(w.queued) {
        LateIsStarttls(c, m, tolerance, w, gate, postfix);
      }
    }
  }

  lemma UpgradedOrNot(c: Record)
    requires CompleteObservation(c) && c.state != "premature_tls"
    ensures c.accepted.Some? || c.state == "no_observed_upgrade" || c.state == "starttls_refused"
  {
  }

  // ---------------------------------------------------------------------
  // Which connections are candidates.

  /** The times that a clock shows at the true times 0 to 3, and between them and beyond. */
  function Clock(a: int, b: int, c: int, d: int): int -> int {
    (t: int) => if t <= 0 then a else if t == 1 then b else if t == 2 then c else d
  }

  /** Some course of events, seen by two clocks that differ by at most the tolerance, accounts for the record and the
      message. */
  ghost predicate Possible(c: Record, m: Message, tolerance: nat) {
    exists w: Truth, gate: int -> int, postfix: int -> int :: Accounts(c, m, tolerance, w, gate, postfix)
  }

  ghost predicate Accounts(c: Record, m: Message, tolerance: nat, w: Truth, gate: int -> int, postfix: int -> int) {
    && Monotone(gate) && Monotone(postfix) && WithinTolerance(gate, postfix, tolerance)
    && w.start <= w.session <= w.queued <= w.end
    && c.start == Some(gate(w.start)) && c.end == Some(gate(w.end))
    && m.sessionStart == Some(postfix(w.session)) && m.at == postfix(w.queued)
  }

  function Clamp(x: int, low: int, high: int): int {
    if x < low then low else if x > high then high else x
  }

  lemma CandidateIsPossible(c: Record, m: Message, tolerance: nat)
    requires Candidate(c, m, tolerance) && c.start.value <= c.end.value
    ensures Possible(c, m, tolerance)
  {
    var s, e, p, q := c.start.value, c.end.value, m.sessionStart.value, m.at;
    var gate := Clock(s, Clamp(p, s, e), Clamp(q, s, e), e);
    var postfix := Clock(Min(s, p), p, q, Max(e, q));
    var w := Truth(0, 3, 1, 2, None, None, None);
    assert Accounts(c, m, tolerance, w, gate, postfix);
  }

  lemma PossibleIsCandidate(c: Record, m: Message, tolerance: nat)
    requires Possible(c, m, tolerance) && c.instance == m.instance && c.client == m.client && !c.invalid
    ensures Candidate(c, m, tolerance) && c.start.value <= c.end.value
  {
    var w, gate, postfix :| Accounts(c, m, tolerance, w, gate, postfix);
    assert gate(w.start) <= gate(w.session) <= gate(w.queued) <= gate(w.end);
    assert postfix(w.session) <= postfix(w.queued);
  }

  /** A valid record that ends after it starts is a candidate for a message exactly when it has the same client and
      instance, and some course of events and clocks within the tolerance accounts for both. */
  lemma CandidateExactlyWhen(c: Record, m: Message, tolerance: nat)
    requires c.start.Some? && c.end.Some? && c.start.value <= c.end.value
    ensures Candidate(c, m, tolerance) <==>
            && !c.invalid && c.instance == m.instance && c.client == m.client && Possible(c, m, tolerance)
  {
    if Candidate(c, m, tolerance) {
      CandidateIsPossible(c, m, tolerance);
    } else if !c.invalid && c.instance == m.instance && c.client == m.client && Possible(c, m, tolerance) {
      PossibleIsCandidate(c, m, tolerance);
    }
  }

  // ---------------------------------------------------------------------
  // Verdicts.

  datatype Class = Spam | Ham | Undecided

  datatype Verdict = Verdict(
    timestamp: int,
    instance: string,
    queueId: string,
    classification: Class,
    score: real,
    action: string,
    symbols: seq<string>)

  predicate InWindow(v: Verdict, at: int, window: int) {
    at <= v.timestamp <= at + window
  }

  /** A verdict decides a message when it is the only one in the time window, however often repeated. */
  ghost predicate Decides(v: Verdict, vs: seq<Verdict>, at: int, window: int) {
    v in vs && InWindow(v, at, window) && forall u :: u in vs && InWindow(u, at, window) ==> u == v
  }

  ghost function DecidingVerdict(vs: seq<Verdict>, at: int, window: int): (r: Option<Verdict>)
    ensures forall v :: Decides(v, vs, at, window) <==> r == Some(v)
  {
    if exists v :: Decides(v, vs, at, window) then
      var v :| Decides(v, vs, at, window);
      Some(v)
    else None
  }

  method BoundedVerdict(vs: seq<Verdict>, at: int, window: int) returns (r: Option<Verdict>)
    ensures r == DecidingVerdict(vs, at, window)
  {
    var eligible: seq<Verdict> := [];
    var seen: set<Verdict> := {};
    for i := 0 to |vs|
      invariant forall v :: v in seen <==> v in vs[..i] && InWindow(v, at, window)
      invariant forall v :: v in seen <==> v in eligible
      invariant |eligible| > 1 ==> eligible[0] != eligible[1]
    {
      var v := vs[i];
      PrefixNext(vs, i);
      if v.timestamp < at || v.timestamp > at + window {
        continue;
      }
      if v !in seen {
        seen := seen + {v};
        eligible := eligible + [v];
      }
    }
    PrefixAll(vs);
    if |eligible| != 1 {
      assert |eligible| > 1 ==> eligible[0] in seen && eligible[1] in seen;
      assert forall v :: Decides(v, vs, at, window) ==> v in seen;
      return None;
    }
    assert eligible[0] in seen && Decides(eligible[0], vs, at, window);
    return Some(eligible[0]);
  }
}
