/** The accounting of the correlation report (runSMTPCorrelationExcluding in smtp_correlate.go). */
module CorrelationReport {
  import opened Bytes
  import opened Counting
  import opened SmtpFold
  import opened SmtpLoss
  import opened PostfixLog
  import opened Attribution
  import Fingerprint

  const HOUR := 3600 * 1000 * 1000 * 1000

  datatype Reason =
    | Matched
    | NoVerdict
    | ReusedQueueId
    | NoConnection
    | AmbiguousConnection
    | BeforeStarttls
    | UncertainObservation
    | AmbiguousOrDistantVerdict

  datatype Correlation = Correlation(
    queueId: string,
    classification: Class,
    ja3: string,
    ja4: Option<Fingerprint.JA4>,
    reason: Reason,
    connectionId: string,
    client: string,
    listener: string,
    action: string,
    verdictAt: Option<int>,
    messageAt: int,
    sessionStart: Option<int>,
    symbols: seq<string>,
    score: real,
    transport: Transport)

  /** What tells two messages apart; the place in the log relative to a handshake does not. */
  datatype Identity = Identity(instance: string, queueId: string, client: string, pid: string,
                               sessionStart: Option<int>, at: int)

  function IdentityOf(m: Message): Identity {
    Identity(m.instance, m.queueId, m.client, m.pid, m.sessionStart, m.at)
  }

  // ---------------------------------------------------------------------
  // One message.

  /** The verdicts for a queue identifier, in the order of the input. */
  function OfQueue(vs: seq<Verdict>, instance: string, queueId: string): (r: seq<Verdict>)
    ensures forall v :: v in r <==> v in vs && v.instance == instance && v.queueId == queueId
  {
    if vs == [] then []
    else
      var last := vs[|vs| - 1];
      OfQueue(vs[..|vs| - 1], instance, queueId) +
      if last.instance == instance && last.queueId == queueId then [last] else []
  }

  /** Two different messages of the batch have the same queue identifier. */
  predicate Reused(messages: seq<Message>, m: Message) {
    exists x, y :: x in messages && y in messages && IdentityOf(x) != IdentityOf(y)
                && x.instance == m.instance && x.queueId == m.queueId && y.instance == m.instance &&
                   y.queueId == m.queueId
  }

  function Blank(m: Message): Correlation {
    Correlation(m.queueId, Undecided, "", None, NoVerdict, "", m.client, "", "", None, m.at, m.sessionStart, [], 0.0,
                Uncertain)
  }

  /** The report's record of a message that has a single candidate. */
  ghost function OverConnection(c: Record, m: Message, vs: seq<Verdict>, tolerance: nat): Correlation {
    var transport := MessageTransport(c, m, tolerance);
    var r := Blank(m).(connectionId := c.id, listener := c.listener, transport := transport);
    if transport == Uncertain then r.(reason := UncertainObservation)
    else if transport == Plaintext then r.(reason := BeforeStarttls)
    else
      var e := r.(ja3 := c.ja3, ja4 := c.ja4);
      if vs == [] then e
      else
        var v := DecidingVerdict(vs, m.at, HOUR);
        if v.None? then e.(reason := AmbiguousOrDistantVerdict)
        else
          e.(classification := v.value.classification, score := v.value.score, action := v.value.action,
             symbols := v.value.symbols,
             verdictAt := Some(v.value.timestamp), reason := Matched)
  }

  ghost function Correlate(m: Message, conns: seq<Record>, vs: seq<Verdict>, reused: bool,
                           tolerance: nat): Correlation {
    var candidates := Candidates(conns, m, tolerance);
    if reused then Blank(m).(reason := ReusedQueueId)
    else if |candidates| == 0 then Blank(m).(reason := NoConnection)
    else if |candidates| > 1 then Blank(m).(reason := AmbiguousConnection)
    else OverConnection(candidates[0], m, OfQueue(vs, m.instance, m.queueId), tolerance)
  }

  method CorrelateMessage(m: Message, conns: seq<Record>, vs: seq<Verdict>, reused: bool, tolerance: nat)
    returns (r: Correlation)
    ensures r == Correlate(m, conns, vs, reused, tolerance)
  {
    r := Blank(m);
    var candidates := MatchSMTPConn(conns, m, tolerance);
    if reused {
      return r.(reason := ReusedQueueId);
    }
    if |candidates| == 0 {
      return r.(reason := NoConnection);
    }
    if |candidates| > 1 {
      return r.(reason := AmbiguousConnection);
    }
    var c := candidates[0];
    r := r.(connectionId := c.id, listener := c.listener, transport := MessageTransport(c, m, tolerance));
    if r.transport != Starttls {
      r := r.(reason := BeforeStarttls);
      if r.transport == Uncertain {
        r := r.(reason := UncertainObservation);
      }
    } else {
      var own := OfQueue(vs, m.instance, m.queueId);
      if |own| != 0 {
        var v := BoundedVerdict(own, m.at, HOUR);
        if v.None? {
          r := r.(reason := AmbiguousOrDistantVerdict);
        } else {
          r := r.(classification := v.value.classification, score := v.value.score, action := v.value.action,
                  symbols := v.value.symbols,
                  verdictAt := Some(v.value.timestamp), reason := Matched);
        }
      }
    }
    if r.transport == Starttls {
      r := r.(ja3 := c.ja3, ja4 := c.ja4);
    }
  }

  ghost predicate Decided(vs: seq<Verdict>, at: int) {
    exists v :: Decides(v, vs, at, HOUR)
  }

  lemma OneConnectionMatches(c: Record, m: Message, vs: seq<Verdict>, tolerance: nat)
    ensures var r := OverConnection(c, m, vs, tolerance);
            r.reason == Matched <==> MessageTransport(c, m, tolerance) == Starttls && Decided(vs, m.at)
    ensures var r := OverConnection(c, m, vs, tolerance);
            forall v :: r.reason == Matched && Decides(v, vs, m.at, HOUR) ==>
            r.classification == v.classification && r.ja4 == c.ja4
  {
    var d := DecidingVerdict(vs, m.at, HOUR);
    assert forall v :: Decides(v, vs, m.at, HOUR) <==> d == Some(v);
    assert d.Some? ==> Decides(d.value, vs, m.at, HOUR);
  }

  /** A message is matched exactly when its queue identifier is not reused, one connection is a candidate,
      that connection encrypted the message, and one verdict within an hour decides it. */
  lemma MatchedIsJustified(m: Message, conns: seq<Record>, vs: seq<Verdict>, reused: bool, tolerance: nat)
    ensures var cs, own := Candidates(conns, m, tolerance), OfQueue(vs, m.instance, m.queueId);
            Correlate(m, conns, vs, reused, tolerance).reason == Matched <==>
            && !reused && |cs| == 1 && MessageTransport(cs[0], m, tolerance) == Starttls
            && Decided(own, m.at)
    ensures var r, own := Correlate(m, conns, vs, reused, tolerance), OfQueue(vs, m.instance, m.queueId);
            forall v :: r.reason == Matched && Decides(v, own, m.at, HOUR) ==>
              r.classification == v.classification && r.ja4 == Candidates(conns, m, tolerance)[0].ja4
  {
    var candidates := Candidates(conns, m, tolerance);
    var r, own := Correlate(m, conns, vs, reused, tolerance), OfQueue(vs, m.instance, m.queueId);
    if |candidates| == 1 && !reused {
      OneConnectionMatches(candidates[0], m, own, tolerance);
      assert r == OverConnection(candidates[0], m, own, tolerance);
    } else {
      assert r.reason != Matched;
    }
  }

  /** The verdict is for the queue identifier of the message. */
  predicate ForQueue(v: Verdict, m: Message) {
    v.instance == m.instance && v.queueId == m.queueId
  }

  /** The verdict came after the message was queued, and within an hour. */
  predicate WithinAnHour(v: Verdict, m: Message) {
    0 <= v.timestamp - m.at <= 3_600_000_000_000
  }

  /** All verdicts for the message within an hour are this one, repeated. */
  ghost predicate OnlyVerdict(v: Verdict, vs: seq<Verdict>, m: Message) {
    && v in vs && ForQueue(v, m) && WithinAnHour(v, m)
    && forall u :: u in vs && ForQueue(u, m) && WithinAnHour(u, m) ==> u == v
  }

  ghost predicate HasOnlyVerdict(vs: seq<Verdict>, m: Message) {
    exists v :: OnlyVerdict(v, vs, m)
  }

  lemma OnlyVerdictDecides(v: Verdict, vs: seq<Verdict>, m: Message)
    ensures OnlyVerdict(v, vs, m) <==> Decides(v, OfQueue(vs, m.instance, m.queueId), m.at, HOUR)
  {
    assert forall u :: u in OfQueue(vs, m.instance, m.queueId) <==> u in vs && ForQueue(u, m);
    assert forall u :: WithinAnHour(u, m) <==> InWindow(u, m.at, HOUR);
  }

  lemma OnlyVerdictIsDecided(vs: seq<Verdict>, m: Message)
    ensures HasOnlyVerdict(vs, m) <==> Decided(OfQueue(vs, m.instance, m.queueId), m.at)
  {
    var own := OfQueue(vs, m.instance, m.queueId);
    if HasOnlyVerdict(vs, m) {
      var v :| OnlyVerdict(v, vs, m);
      OnlyVerdictDecides(v, vs, m);
    }
    if Decided(own, m.at) {
      var v :| Decides(v, own, m.at, HOUR);
      OnlyVerdictDecides(v, vs, m);
    }
  }

  lemma ReasonsOver(c: Record, m: Message, vs: seq<Verdict>, tolerance: nat)
    ensures var r := OverConnection(c, m, OfQueue(vs, m.instance, m.queueId), tolerance);
            var t := MessageTransport(c, m, tolerance);
            && (r.reason == BeforeStarttls <==> t == Plaintext)
            && (r.reason == UncertainObservation <==> t == Uncertain)
            && (r.reason == NoVerdict <==> t == Starttls && forall v :: v in vs ==> !ForQueue(v, m))
            && (r.reason == Matched <==> t == Starttls && HasOnlyVerdict(vs, m))
            && (r.reason == AmbiguousOrDistantVerdict <==>
                 t == Starttls && (exists v :: v in vs && ForQueue(v, m)) && !HasOnlyVerdict(vs, m))
            && r.reason !in {ReusedQueueId, NoConnection, AmbiguousConnection}
  {
    var own := OfQueue(vs, m.instance, m.queueId);
    assert forall v :: v in own <==> v in vs && ForQueue(v, m);
    assert own == [] || own[0] in own;
    OnlyVerdictIsDecided(vs, m);
    OneConnectionMatches(c, m, own, tolerance);
    assert forall v :: Decides(v, own, m.at, HOUR) ==> v in own;
  }

  /** What a record carries, from the message, its connection and its verdict. */
  lemma RecordCarries(m: Message, conns: seq<Record>, vs: seq<Verdict>, reused: bool, tolerance: nat)
    ensures var r, cs := Correlate(m, conns, vs, reused, tolerance), Candidates(conns, m, tolerance);
            && r.queueId == m.queueId && r.client == m.client && r.messageAt == m.at && r.sessionStart == m.sessionStart
            && (if !reused && |cs| == 1 then
                  && r.connectionId == cs[0].id && r.listener == cs[0].listener
                  && r.transport == MessageTransport(cs[0], m, tolerance)
                else r.connectionId == "" && r.listener == "" && r.transport == Uncertain)
            && (if r.transport == Starttls then r.ja3 == cs[0].ja3 && r.ja4 == cs[0].ja4
                else r.ja3 == "" && r.ja4 == None)
    ensures var r := Correlate(m, conns, vs, reused, tolerance);
            && (r.reason != Matched ==> r.classification == Undecided && r.verdictAt == None && r.action == "")
            && forall v :: r.reason == Matched && OnlyVerdict(v, vs, m) ==>
                 && r.classification == v.classification && r.score == v.score && r.action == v.action
                 && r.symbols == v.symbols && r.verdictAt == Some(v.timestamp)
  {
    var cs, own := Candidates(conns, m, tolerance), OfQueue(vs, m.instance, m.queueId);
    forall v | OnlyVerdict(v, vs, m)
      ensures DecidingVerdict(own, m.at, HOUR) == Some(v)
    {
      OnlyVerdictDecides(v, vs, m);
    }
  }

  /** Why a message is matched or not, for every reason. */
  lemma ReasonsMean(m: Message, conns: seq<Record>, vs: seq<Verdict>, reused: bool, tolerance: nat)
    ensures var r, cs := Correlate(m, conns, vs, reused, tolerance), Candidates(conns, m, tolerance);
            && (r.reason == ReusedQueueId <==> reused)
            && (r.reason == NoConnection <==> !reused && forall c :: c in conns ==> !Candidate(c, m, tolerance))
            && (r.reason == AmbiguousConnection <==> !reused && |cs| > 1)
            && (!reused && |cs| == 1 ==>
                 var t := MessageTransport(cs[0], m, tolerance);
                 && (r.reason == BeforeStarttls <==> t == Plaintext)
                 && (r.reason == UncertainObservation <==> t == Uncertain)
                 && (r.reason == NoVerdict <==> t == Starttls && forall v :: v in vs ==> !ForQueue(v, m))
                 && (r.reason == Matched <==> t == Starttls && HasOnlyVerdict(vs, m))
                 && (r.reason == AmbiguousOrDistantVerdict <==>
                      t == Starttls && (exists v :: v in vs && ForQueue(v, m)) && !HasOnlyVerdict(vs, m)))
  {
    var cs := Candidates(conns, m, tolerance);
    assert forall c :: c in cs <==> c in conns && Candidate(c, m, tolerance);
    assert cs == [] || cs[0] in cs;
    if |cs| == 1 {
      ReasonsOver(cs[0], m, vs, tolerance);
    }
  }

  /** What the report says about the encryption of a message is true, when the true connection is in the batch. */
  lemma ReportedTransportIsSound(conns: seq<Record>, c: Record, m: Message, vs: seq<Verdict>, reused: bool,
                                 tolerance: nat, w: Truth, gate: int -> int, postfix: int -> int)
    requires Monotone(gate) && Monotone(postfix) && WithinTolerance(gate, postfix, tolerance) && Happens(w)
    requires Attribution.Records(c, w, gate) && Logs(m, w, postfix)
    requires c in conns && !c.invalid && c.instance == m.instance && c.client == m.client
    ensures var r := Correlate(m, conns, vs, reused, tolerance);
            && (r.transport != Uncertain ==> r.connectionId == c.id && r.listener == c.listener)
            && (r.transport == Starttls ==>
                 w.accepted.Some? && w.hello.Some? && gate(w.hello.value) <= gate(w.queued) && r.ja3 == c.ja3 &&
                 r.ja4 == c.ja4)
            && (r.transport == Plaintext ==> w.accepted.None? || w.queued <= w.accepted.value)
  {
    var r, candidates := Correlate(m, conns, vs, reused, tolerance), Candidates(conns, m, tolerance);
    SingleCandidateIsTrue(conns, c, m, tolerance, w, gate, postfix);
    if !reused && |candidates| == 1 {
      OverConnectionCarries(c, m, OfQueue(vs, m.instance, m.queueId), tolerance);
      if r.transport == Starttls {
        StarttlsIsSound(c, m, tolerance, w, gate, postfix);
      } else if r.transport == Plaintext {
        PlaintextIsSound(c, m, tolerance, w, gate, postfix);
      }
    }
  }

  lemma OverConnectionCarries(c: Record, m: Message, vs: seq<Verdict>, tolerance: nat)
    ensures var r := OverConnection(c, m, vs, tolerance);
            && r.transport == MessageTransport(c, m, tolerance) && r.connectionId == c.id && r.listener == c.listener
            && (r.transport == Starttls ==> r.ja3 == c.ja3 && r.ja4 == c.ja4)
  {
  }

  // ---------------------------------------------------------------------
  // The batch.

  predicate Occurs(messages: seq<Message>, id: Identity) {
    exists m :: m in messages && IdentityOf(m) == id
  }

  /** The first message of each identity. */
  function Distinct(messages: seq<Message>): seq<Message> {
    if messages == [] then []
    else
      var before, last := messages[..|messages| - 1], messages[|messages| - 1];
      Distinct(before) + if Occurs(before, IdentityOf(last)) then [] else [last]
  }

  ghost function Records(ms: seq<Message>, messages: seq<Message>, conns: seq<Record>, vs: seq<Verdict>,
                         tolerance: nat): seq<Correlation> {
    seq(|ms|, i requires 0 <= i < |ms| => Correlate(ms[i], conns, vs, Reused(messages, ms[i]), tolerance))
  }

  /** Every identity is reported once. */
  lemma {:induction false} DistinctIsOnce(messages: seq<Message>)
    ensures forall m :: m in Distinct(messages) ==> m in messages
    ensures forall m :: m in messages ==> Occurs(Distinct(messages), IdentityOf(m))
    ensures forall i, j :: 0 <= i < j < |Distinct(messages)| ==>
            IdentityOf(Distinct(messages)[i]) != IdentityOf(Distinct(messages)[j])
    decreases |messages|
  {
    if messages != [] {
      var before, last := messages[..|messages| - 1], messages[|messages| - 1];
      DistinctIsOnce(before);
      assert messages == before + [last];
      forall m | m in messages
        ensures Occurs(Distinct(messages), IdentityOf(m))
      {
        if m in before {
          assert Occurs(Distinct(before), IdentityOf(m));
          var x :| x in Distinct(before) && IdentityOf(x) == IdentityOf(m);
          assert x in Distinct(messages);
        } else if Occurs(before, IdentityOf(last)) {
          var y :| y in before && IdentityOf(y) == IdentityOf(last);
          var x :| x in Distinct(before) && IdentityOf(x) == IdentityOf(y);
          assert x in Distinct(messages);
        } else {
          assert last in Distinct(messages);
        }
      }
    }
  }

  // ---------------------------------------------------------------------
  // The counters.

  function Transports(rs: seq<Correlation>): seq<Transport> {
    if rs == [] then [] else Transports(rs[..|rs| - 1]) + [rs[|rs| - 1].transport]
  }

  function Reasons(rs: seq<Correlation>): seq<Reason> {
    if rs == [] then []
    else Reasons(rs[..|rs| - 1]) + if rs[|rs| - 1].reason == Matched then [] else [rs[|rs| - 1].reason]
  }

  /** The fingerprint and the verdict of each matched message. */
  function Verdicts(rs: seq<Correlation>): seq<(Option<Fingerprint.JA4>, Class)> {
    if rs == [] then []
    else
      Verdicts(rs[..|rs| - 1]) +
      if rs[|rs| - 1].reason == Matched then [(rs[|rs| - 1].ja4, rs[|rs| - 1].classification)] else []
  }

  datatype Tally = Tally(spam: nat, ham: nat, undecided: nat)

  const NONE := Tally(0, 0, 0)

  function Add(t: Tally, c: Class): Tally {
    match c
    case Spam => t.(spam := t.spam + 1)
    case Ham => t.(ham := t.ham + 1)
    case Undecided => t.(undecided := t.undecided + 1)
  }

  function Of(t: Tally, c: Class): nat {
    match c
    case Spam => t.spam
    case Ham => t.ham
    case Undecided => t.undecided
  }

  function Classes<K>(vs: seq<(K, Class)>): Tally {
    if vs == [] then NONE else Add(Classes(vs[..|vs| - 1]), vs[|vs| - 1].1)
  }

  function AddTo<K>(m: map<K, Tally>, k: K, c: Class): map<K, Tally> {
    m[k := Add(if k in m then m[k] else NONE, c)]
  }

  function Aggregates<K>(vs: seq<(K, Class)>): map<K, Tally> {
    if vs == [] then map[] else AddTo(Aggregates(vs[..|vs| - 1]), vs[|vs| - 1].0, vs[|vs| - 1].1)
  }

  datatype ConnectionCounts = ConnectionCounts(starttls: nat, noObservedTLS: nat, incomplete: nat)

  datatype Summary = Summary(
    messages: nat,
    matched: nat,
    unmatched: nat,
    verdicts: Tally,
    connections: nat,
    observed: ConnectionCounts,
    transports: map<Transport, nat>,
    reasons: map<Reason, nat>,
    fingerprints: map<Option<Fingerprint.JA4>, Tally>,
    records: seq<Correlation>)

  /** Every counter counts the records that it is named after. */
  predicate Accounts(s: Summary) {
    && s.messages == |s.records|
    && s.matched == |Verdicts(s.records)|
    && s.unmatched == |Reasons(s.records)|
    && s.verdicts == Classes(Verdicts(s.records))
    && s.transports == Histogram(Transports(s.records))
    && s.reasons == Histogram(Reasons(s.records))
    && s.fingerprints == Aggregates(Verdicts(s.records))
  }

  lemma ProjectionsSnoc(rs: seq<Correlation>, r: Correlation)
    ensures Transports(rs + [r]) == Transports(rs) + [r.transport]
    ensures Reasons(rs + [r]) == Reasons(rs) + if r.reason == Matched then [] else [r.reason]
    ensures Verdicts(rs + [r]) == Verdicts(rs) + if r.reason == Matched then [(r.ja4, r.classification)] else []
  {
    PrefixOfSnoc(rs, r);
  }

  lemma HistogramSnoc<K>(s: seq<K>, k: K)
    ensures Histogram(s + [k]) == Bump(Histogram(s), k)
  {
    PrefixOfSnoc(s, k);
  }

  lemma VerdictsSnoc<K>(vs: seq<(K, Class)>, k: K, c: Class)
    ensures Classes(vs + [(k, c)]) == Add(Classes(vs), c)
    ensures Aggregates(vs + [(k, c)]) == AddTo(Aggregates(vs), k, c)
  {
    PrefixOfSnoc(vs, (k, c));
  }

  lemma MatchedAccounts(s: Summary, r: Correlation)
    requires Accounts(s) && r.reason == Matched
    ensures Accounts(Count(s, r))
  {
    ProjectionsSnoc(s.records, r);
    HistogramSnoc(Transports(s.records), r.transport);
    VerdictsSnoc(Verdicts(s.records), r.ja4, r.classification);
    assert Reasons(s.records) + [] == Reasons(s.records);
  }

  lemma UnmatchedAccounts(s: Summary, r: Correlation)
    requires Accounts(s) && r.reason != Matched
    ensures Accounts(Count(s, r))
  {
    ProjectionsSnoc(s.records, r);
    HistogramSnoc(Transports(s.records), r.transport);
    HistogramSnoc(Reasons(s.records), r.reason);
    assert Verdicts(s.records) + [] == Verdicts(s.records);
  }

  lemma AccountsSnoc(s: Summary, r: Correlation)
    requires Accounts(s)
    ensures Accounts(Count(s, r))
  {
    if r.reason == Matched {
      MatchedAccounts(s, r);
    } else {
      UnmatchedAccounts(s, r);
    }
  }

  /** One more record. */
  function Count(s: Summary, r: Correlation): Summary {
    var n := s.(messages := s.messages + 1, records := s.records + [r], transports := Bump(s.transports, r.transport));
    if r.reason == Matched then
      n.(matched := s.matched + 1, verdicts := Add(s.verdicts, r.classification),
         fingerprints := AddTo(s.fingerprints, r.ja4, r.classification))
    else n.(unmatched := s.unmatched + 1, reasons := Bump(s.reasons, r.reason))
  }

  method CountConnections(conns: seq<Record>) returns (n: ConnectionCounts)
    ensures n.starttls + n.noObservedTLS + n.incomplete == |conns|
    ensures n.incomplete == |Where(conns, c => !CompleteObservation(c))|
    ensures n.noObservedTLS == |Where(conns, c => CompleteObservation(c) && EndingOf(c.state) == NoUpgrade)|
  {
    n := ConnectionCounts(0, 0, 0);
    for i := 0 to |conns|
      invariant n.starttls + n.noObservedTLS + n.incomplete == i
      invariant n.incomplete == |Where(conns[..i], c => !CompleteObservation(c))|
      invariant n.noObservedTLS == |Where(conns[..i], c => CompleteObservation(c) && EndingOf(c.state) == NoUpgrade)|
    {
      PrefixNext(conns, i);
      if !CompleteObservation(conns[i]) {
        n := n.(incomplete := n.incomplete + 1);
      } else if EndingOf(conns[i].state) == NoUpgrade {
        n := n.(noObservedTLS := n.noObservedTLS + 1);
      } else {
        n := n.(starttls := n.starttls + 1);
      }
    }
    PrefixAll(conns);
  }

  function Where(conns: seq<Record>, p: Record -> bool): seq<Record> {
    if conns == [] then []
    else Where(conns[..|conns| - 1], p) + if p(conns[|conns| - 1]) then [conns[|conns| - 1]] else []
  }

  /** The whole accounting: each distinct message is correlated once, and everything is counted. */
  method RunSMTPCorrelation(conns: seq<Record>, messages: seq<Message>, vs: seq<Verdict>, tolerance: nat)
    returns (s: Summary)
    ensures s.records == Records(Distinct(messages), messages, conns, vs, tolerance)
    ensures Accounts(s)
    ensures s.connections == |conns| == s.observed.starttls + s.observed.noObservedTLS + s.observed.incomplete
  {
    var occurrences := Occurrences(messages);
    var observed := CountConnections(conns);
    s := Summary(0, 0, 0, NONE, |conns|, observed, map[], map[], map[], []);
    var seen: set<Identity> := {};
    for i := 0 to |messages|
      invariant forall id :: id in seen <==> Occurs(messages[..i], id)
      invariant s.records == Records(Distinct(messages[..i]), messages, conns, vs, tolerance)
      invariant Accounts(s) && s.connections == |conns| && s.observed == observed
    {
      var m := messages[i];
      DistinctSnoc(messages, i, conns, vs, tolerance);
      if IdentityOf(m) in seen {
        continue;
      }
      seen := seen + {IdentityOf(m)};
      s := CountMessage(s, m, conns, messages, vs, tolerance, occurrences[(m.instance, m.queueId)]);
    }
    PrefixAll(messages);
  }

  /** The turn of the loop for a message that is not seen before. */
  method CountMessage(s: Summary, m: Message, conns: seq<Record>, ghost messages: seq<Message>, vs: seq<Verdict>,
                      tolerance: nat, ids: set<Identity>)
    returns (s': Summary)
    requires Accounts(s) && m in messages && AreOf(ids, messages, m.instance, m.queueId)
    ensures Accounts(s') && s'.connections == s.connections && s'.observed == s.observed
    ensures s'.records == s.records + [Correlate(m, conns, vs, Reused(messages, m), tolerance)]
  {
    ReusedMeans(messages, m, ids);
    var r := CorrelateMessage(m, conns, vs, |ids| > 1, tolerance);
    AccountsSnoc(s, r);
    s' := Count(s, r);
  }

  lemma DistinctSnoc(messages: seq<Message>, i: nat, conns: seq<Record>, vs: seq<Verdict>, tolerance: nat)
    requires i < |messages|
    ensures forall id :: Occurs(messages[..i + 1], id) <==> Occurs(messages[..i], id) || id == IdentityOf(messages[i])
    ensures Records(Distinct(messages[..i + 1]), messages, conns, vs, tolerance) ==
            Records(Distinct(messages[..i]), messages, conns, vs, tolerance) +
            if Occurs(messages[..i], IdentityOf(messages[i])) then []
            else [Correlate(messages[i], conns, vs, Reused(messages, messages[i]), tolerance)]
  {
    PrefixNext(messages, i);
    assert Distinct(messages[..i]) + [] == Distinct(messages[..i]);
    assert messages[i] in messages[..i + 1];
  }

  /** The identities of the messages with a queue identifier. */
  ghost predicate AreOf(ids: set<Identity>, messages: seq<Message>, instance: string, queueId: string) {
    forall id :: id in ids <==> Occurs(messages, id) && id.instance == instance && id.queueId == queueId
  }

  method Occurrences(messages: seq<Message>) returns (occurrences: map<(string, string), set<Identity>>)
    ensures forall m :: m in messages ==> (m.instance, m.queueId) in occurrences
    ensures forall k :: k in occurrences ==> AreOf(occurrences[k], messages, k.0, k.1)
  {
    occurrences := map[];
    for i := 0 to |messages|
      invariant forall m :: m in messages[..i] ==> (m.instance, m.queueId) in occurrences
      invariant forall k :: k in occurrences ==> AreOf(occurrences[k], messages[..i], k.0, k.1)
    {
      var m := messages[i];
      var k := (m.instance, m.queueId);
      PrefixNext(messages, i);
      assert forall id :: Occurs(messages[..i + 1], id) <==> Occurs(messages[..i], id) || id == IdentityOf(m) by {
        DistinctSnoc(messages, i, [], [], 0);
      }
      var ids := if k in occurrences then occurrences[k] else {};
      if k !in occurrences {
        assert forall id :: Occurs(messages[..i], id) && id.instance == k.0 ==> id.queueId != k.1;
      }
      occurrences := occurrences[k := ids + {IdentityOf(m)}];
    }
    PrefixAll(messages);
  }

  lemma ReusedMeans(messages: seq<Message>, m: Message, ids: set<Identity>)
    requires m in messages && AreOf(ids, messages, m.instance, m.queueId)
    ensures |ids| > 1 <==> Reused(messages, m)
  {
    var id := IdentityOf(m);
    assert Occurs(messages, id);
    if |ids| > 1 {
      assert |ids - {id}| >= 1;
      var other :| other in ids - {id};
      var x :| x in messages && IdentityOf(x) == other;
    }
    if Reused(messages, m) {
      var x, y :| x in messages && y in messages && IdentityOf(x) != IdentityOf(y)
                  && x.instance == m.instance && x.queueId == m.queueId && y.instance == m.instance &&
                     y.queueId == m.queueId;
      assert Occurs(messages, IdentityOf(x)) && Occurs(messages, IdentityOf(y));
      assert {IdentityOf(x), IdentityOf(y)} <= ids;
      AtLeastTwo(ids, IdentityOf(x), IdentityOf(y));
    }
  }

  lemma AtLeastTwo<T>(s: set<T>, x: T, y: T)
    requires x in s && y in s && x != y
    ensures |s| > 1
  {
    assert |s - {x}| == |s| - 1 && y in s - {x};
  }

  // ---------------------------------------------------------------------
  // Conservation.

  ghost function PerFingerprint<K>(m: map<K, Tally>, c: Class): map<K, nat> {
    map k | k in m :: Of(m[k], c)
  }

  lemma AddedTo<K>(m: map<K, Tally>, k: K, d: Class, c: Class)
    ensures Total(PerFingerprint(AddTo(m, k, d), c)) == Total(PerFingerprint(m, c)) + if c == d then 1 else 0
  {
    var t := AddTo(m, k, d)[k];
    assert PerFingerprint(AddTo(m, k, d), c) == PerFingerprint(m, c)[k := Of(t, c)];
    TotalAfter(PerFingerprint(m, c), k, Of(t, c));
  }

  lemma {:induction false} AggregatesAddUp<K>(vs: seq<(K, Class)>, c: Class)
    ensures Total(PerFingerprint(Aggregates(vs), c)) == Of(Classes(vs), c)
    decreases |vs|
  {
    if vs == [] {
      assert PerFingerprint(Aggregates(vs), c) == map[];
    } else {
      AggregatesAddUp(vs[..|vs| - 1], c);
      AddedTo(Aggregates(vs[..|vs| - 1]), vs[|vs| - 1].0, vs[|vs| - 1].1, c);
    }
  }

  /** Each fingerprint's counters count its own verdicts. */
  lemma {:induction false} AggregatesCount<K>(vs: seq<(K, Class)>)
    ensures forall k :: k in Aggregates(vs) <==> exists c :: (k, c) in vs
    ensures forall k, c :: k in Aggregates(vs) ==> Of(Aggregates(vs)[k], c) == multiset(vs)[(k, c)]
    decreases |vs|
  {
    if vs != [] {
      var before, last := vs[..|vs| - 1], vs[|vs| - 1];
      AggregatesCount(before);
      assert vs == before + [last];
      assert last == (last.0, last.1);
    }
  }

  lemma {:induction false} Lengths(rs: seq<Correlation>)
    ensures |Verdicts(rs)| + |Reasons(rs)| == |rs| == |Transports(rs)|
    ensures var t := Classes(Verdicts(rs)); t.spam + t.ham + t.undecided == |Verdicts(rs)|
    decreases |rs|
  {
    if rs != [] {
      Lengths(rs[..|rs| - 1]);
      var v := Verdicts(rs[..|rs| - 1]);
      assert (v + [(rs[|rs| - 1].ja4, rs[|rs| - 1].classification)])[..|v|] == v && v + [] == v;
    }
  }

  /** Nothing is lost or counted twice in a report. */
  lemma ReportIsConserved(s: Summary)
    requires Accounts(s)
    ensures s.messages == |s.records| == s.matched + s.unmatched == Total(s.transports)
    ensures s.matched == s.verdicts.spam + s.verdicts.ham + s.verdicts.undecided
    ensures s.unmatched == Total(s.reasons) && Matched !in s.reasons
    ensures s.verdicts.spam == Total(PerFingerprint(s.fingerprints, Spam))
    ensures s.verdicts.ham == Total(PerFingerprint(s.fingerprints, Ham))
    ensures s.verdicts.undecided == Total(PerFingerprint(s.fingerprints, Undecided))
  {
    Lengths(s.records);
    HistogramCounts(Transports(s.records));
    HistogramCounts(Reasons(s.records));
    MatchedIsNoReason(s.records);
    AggregatesAddUp(Verdicts(s.records), Spam);
    AggregatesAddUp(Verdicts(s.records), Ham);
    AggregatesAddUp(Verdicts(s.records), Undecided);
  }

  lemma {:induction false} MatchedIsNoReason(rs: seq<Correlation>)
    ensures Matched !in Reasons(rs)
    decreases |rs|
  {
    if rs != [] {
      MatchedIsNoReason(rs[..|rs| - 1]);
    }
  }
}
