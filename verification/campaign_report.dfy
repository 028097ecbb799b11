/** The campaign report (runSMTPCampaignClassificationExcluding in smtp_campaign.go) and the
    check of its validator (validateSMTPCampaignReport in smtp_report.go). */
module CampaignReport {
  import opened Bytes
  import opened Text
  import opened SmtpBehavior
  import opened SmtpFold
  import opened CampaignEvidence
  import opened Sorting

  const SCHEMA := "smtp-campaign-report/v1"
  const SUPPORT := "smtp/pregreet-helo-support-selfdomain/v1"
  const EHLO_USER := "smtp/pregreet-ehlo-user/v1"

  // ---------------------------------------------------------------------
  // Mailboxes and domains.

  predicate Blank(c: char) {
    c == ' ' || 9 <= c as int <= 13
  }

  function TrimLeft(s: string): string {
    if s != "" && Blank(s[0]) then TrimLeft(s[1..]) else s
  }

  function TrimRight(s: string): string {
    if s != "" && Blank(s[|s| - 1]) then TrimRight(s[..|s| - 1]) else s
  }

  function TrimSpace(s: string): string {
    TrimRight(TrimLeft(s))
  }

  function LowerChar(c: char): char {
    if 'A' <= c <= 'Z' then (c as int + 32) as char else c
  }

  function Lower(s: string): (r: string)
    ensures |r| == |s| && forall i :: 0 <= i < |s| ==> r[i] == LowerChar(s[i])
  {
    seq(|s|, i requires 0 <= i < |s| => LowerChar(s[i]))
  }

  predicate LabelChar(l: string, i: nat)
    requires i < |l|
  {
    'a' <= l[i] <= 'z' || '0' <= l[i] <= '9' || (l[i] == '-' && 0 < i < |l| - 1)
  }

  predicate Label(l: string) {
    l != "" && |l| <= 63 && forall i :: 0 <= i < |l| ==> LabelChar(l, i)
  }

  predicate Labels(ls: seq<string>) {
    forall i :: 0 <= i < |ls| ==> Label(ls[i])
  }

  function TrimDot(s: string): string {
    if s != "" && s[|s| - 1] == '.' then s[..|s| - 1] else s
  }

  function CanonicalDomain(text: string): string {
    var value := TrimDot(Lower(TrimSpace(text)));
    if value == "" || |value| > 253 || !Labels(Split(value, '.')) then "" else value
  }

  lemma LastOfSum<T>(a: seq<T>, b: seq<T>)
    requires b != []
    ensures (a + b)[|a + b| - 1] == b[|b| - 1]
  {
  }

  predicate EndsEmpty(s: string, sep: char) {
    var parts := Split(s, sep);
    parts[|parts| - 1] == ""
  }

  lemma EndsEmptyToo(part: string, rest: string, sep: char)
    requires sep !in part && EndsEmpty(rest, sep)
    ensures EndsEmpty(part + [sep] + rest, sep)
  {
    SplitFirst(part, rest, sep);
    LastOfSum([part], Split(rest, sep));
  }

  /** What follows a last separator is an empty part. */
  lemma {:induction false} SplitEndsEmpty(s: string, sep: char)
    requires s != "" && s[|s| - 1] == sep
    ensures EndsEmpty(s, sep)
    decreases |s|
  {
    var i := First(s, sep);
    var part, rest := s[..i], s[i + 1..];
    PartAndRest(s, i);
    if rest == "" {
      assert Split("", sep) == [""];
    } else {
      SplitEndsEmpty(rest, sep);
    }
    EndsEmptyToo(part, rest, sep);
  }

  lemma PartAndRest(s: string, i: nat)
    requires i < |s|
    ensures s == s[..i] + [s[i]] + s[i + 1..]
    ensures s[i + 1..] != "" ==> s[i + 1..][|s[i + 1..]| - 1] == s[|s| - 1]
  {
  }

  lemma LabelsAvoid(d: string, c: char)
    requires Labels(Split(d, '.')) && (Blank(c) || 'A' <= c <= 'Z')
    ensures c !in d
  {
    var ls := Split(d, '.');
    forall i, k | 0 <= i < |ls| && 0 <= k < |ls[i]|
      ensures ls[i][k] != c
    {
      assert Label(ls[i]) && LabelChar(ls[i], k);
    }
    SplitCovers(d, '.', c);
  }

  /** A canonical domain is its own canonical form, so that two ways of writing it are equal exactly when
      their canonical forms are. */
  lemma CanonicalDomainIsStable(text: string)
    ensures CanonicalDomain(CanonicalDomain(text)) == CanonicalDomain(text)
  {
    var d := CanonicalDomain(text);
    if d != "" {
      forall i | 0 <= i < |d|
        ensures !Blank(d[i]) && LowerChar(d[i]) == d[i]
      {
        if Blank(d[i]) || 'A' <= d[i] <= 'Z' {
          LabelsAvoid(d, d[i]);
        }
      }
      assert Label(Split(d, '.')[|Split(d, '.')| - 1]) && !EndsEmpty(d, '.');
      if d[|d| - 1] == '.' {
        SplitEndsEmpty(d, '.');
      }
      assert TrimSpace(d) == d;
      assert Lower(d) == d;
    } else {
      assert TrimSpace("") == "" && Lower("") == "";
    }
  }

  /** The mailbox at its last at sign; a bad one is two empty parts. */
  function SplitMailbox(text: string): (string, string) {
    var value := TrimSpace(text);
    var at := Last(value, '@');
    if at <= 0 || at == |value| - 1 then ("", "")
    else
      var domain := CanonicalDomain(value[at + 1..]);
      if at > 64 || domain == "" then ("", "") else (value[..at], domain)
  }

  function Last(s: string, c: char): (i: int)
    ensures -1 <= i < |s| && (i >= 0 ==> s[i] == c)
    ensures forall k :: i < k < |s| ==> s[k] != c
  {
    if s == "" then -1 else if s[|s| - 1] == c then |s| - 1 else Last(s[..|s| - 1], c)
  }

  function NormalizeMailbox(text: string): string {
    var (local, domain) := SplitMailbox(text);
    if local == "" || domain == "" then "" else Lower(local) + "@" + domain
  }

  // ---------------------------------------------------------------------
  // One session of evidence.

  predicate Inside(c: Record, at: Option<int>, tolerance: nat)
    requires c.start.Some? && c.end.Some?
  {
    at.Some? ==> c.start.value - tolerance <= at.value <= c.end.value + tolerance
  }

  /** The evidence can be that of the connection. */
  predicate Matches(c: Record, e: Evidence, lifetime: nat, tolerance: nat) {
    && c.client == e.client && !c.invalid && c.start.Some? && c.end.Some?
    && c.start.value <= c.end.value <= c.start.value + lifetime
    && Inside(c, Some(e.start), tolerance) && Inside(c, e.pregreetAt, tolerance)
    && Inside(c, e.rejectAt, tolerance) && Inside(c, Some(e.lastAt), tolerance)
  }

  function Matching(cs: seq<Record>, e: Evidence, lifetime: nat, tolerance: nat): (r: seq<Record>)
    ensures forall c :: c in r <==> c in cs && Matches(c, e, lifetime, tolerance)
  {
    if cs == [] then []
    else
      var last := cs[|cs| - 1];
      Matching(cs[..|cs| - 1], e, lifetime, tolerance) + if Matches(last, e, lifetime, tolerance) then [last] else []
  }

  method MatchingSMTPConnections(cs: seq<Record>, e: Evidence, lifetime: nat, tolerance: nat)
    returns (matches: seq<Record>)
    ensures matches == Matching(cs, e, lifetime, tolerance)
  {
    matches := [];
    for i := 0 to |cs|
      invariant matches == Matching(cs[..i], e, lifetime, tolerance)
    {
      PrefixNext(cs, i);
      var c := cs[i];
      if c.client != e.client {
        continue;
      }
      if c.invalid || c.start.None? || c.end.None? || c.end.value < c.start.value ||
         c.end.value - c.start.value > lifetime {
        continue;
      }
      if Inside(c, Some(e.start), tolerance) && Inside(c, e.pregreetAt, tolerance) &&
         Inside(c, e.rejectAt, tolerance) && Inside(c, Some(e.lastAt), tolerance) {
        matches := matches + [c];
      }
    }
    PrefixAll(cs);
  }

  /** The signature that the evidence and the behaviour show, with the reason. */
  function Classify(behavior: Option<Behavior>, e: Evidence): (r: (string, string))
    ensures r.0 in ["", SUPPORT, EHLO_USER] && (r.0 != "" <==> r.1 == "matched")
    ensures |r.1| <= 128
  {
    if !ValidBehavior(behavior) then ("", "missing_or_invalid_behavior")
    else if behavior.value.preGreeting != "none" && behavior.value.firstVerb == "EHLO"
         && e.pregreetAt.Some? && e.verb == "EHLO" && e.ehloUser then (EHLO_USER, "matched")
    else if behavior.value.preGreeting == "none" || behavior.value.firstVerb != "HELO" then
      ("", "behavior_not_pregreet_helo")
    else if e.pregreetAt.None? || e.verb != "HELO" then ("", "postscreen_not_pregreet_helo")
    else if e.rejectAt.None? then ("", "no_rejection_evidence")
    else
      var (local, domain) := SplitMailbox(e.envelope.sender);
      if Lower(local) != "support" || domain == "" then ("", "sender_not_support_domain")
      else if CanonicalDomain(e.envelope.helo) != domain then ("", "helo_sender_domain_mismatch")
      else (SUPPORT, "matched")
  }

  /** The session shows a greeting before the server's, in the log and in the behaviour, with this verb first. */
  predicate Pregreets(b: Behavior, e: Evidence, verb: string) {
    b.preGreeting != "none" && b.firstVerb == verb && e.pregreetAt.Some? && e.verb == verb
  }

  /** The rejected sender is a support mailbox of the domain that the client greets with. */
  predicate SupportOfOwnDomain(e: Evidence) {
    var (local, domain) := SplitMailbox(e.envelope.sender);
    e.rejectAt.Some? && domain != "" && Lower(local) == "support" && CanonicalDomain(e.envelope.helo) == domain
  }

  lemma SignaturesDiffer()
    ensures SUPPORT != "" && EHLO_USER != "" && SUPPORT != EHLO_USER && "HELO" != "EHLO"
  {
    assert |SUPPORT| != |EHLO_USER|;
  }

  lemma UserSignatureMeans(behavior: Option<Behavior>, e: Evidence)
    ensures Classify(behavior, e).0 == EHLO_USER <==>
            ValidBehavior(behavior) && Pregreets(behavior.value, e, "EHLO") && e.ehloUser
  {
    SignaturesDiffer();
  }

  lemma SupportSignatureMeans(behavior: Option<Behavior>, e: Evidence)
    ensures Classify(behavior, e).0 == SUPPORT <==>
            ValidBehavior(behavior) && Pregreets(behavior.value, e, "HELO") && SupportOfOwnDomain(e)
  {
    SignaturesDiffer();
  }

  /** Which evidence each signature stands for; the two exclude each other. */
  lemma SignatureMeans(behavior: Option<Behavior>, e: Evidence)
    ensures Classify(behavior, e).0 == EHLO_USER <==>
            ValidBehavior(behavior) && Pregreets(behavior.value, e, "EHLO") && e.ehloUser
    ensures Classify(behavior, e).0 == SUPPORT <==>
            ValidBehavior(behavior) && Pregreets(behavior.value, e, "HELO") && SupportOfOwnDomain(e)
  {
    UserSignatureMeans(behavior, e);
    SupportSignatureMeans(behavior, e);
  }

  // ---------------------------------------------------------------------
  // The report.

  datatype Entry = Entry(
    timestamp: Option<int>,
    client: string,
    connectionId: string,
    fingerprint: string,
    signature: string,
    reason: string,
    provider: string,
    networkPrefix: string,
    recipientCluster: string)

  datatype Counts = Counts(
    connections: int,
    evidenceSessions: int,
    matched: int,
    unmatched: int,
    withoutEvidence: int,
    malformedEvents: int,
    malformedLines: int)

  datatype Report = Report(
    schema: string,
    instance: string,
    listener: string,
    signature: string,
    signatures: seq<string>,
    counts: Counts,
    records: seq<Entry>)

  /** What the report takes from outside: the digest of a behaviour, the hash of a mailbox, and the network
      prefix and provider of a client. */
  datatype Lookups = Lookups(digest: string -> string, hash: string -> string, prefix: string -> (string, string))

  /** Digests have their fixed lengths; prefix labels are bounded when they are read. */
  ghost predicate Bounded(lookups: Lookups) {
    && (forall s :: |lookups.digest(s)| == 81)
    && (forall s :: |lookups.hash(s)| == 71)
    && (forall s :: |lookups.prefix(s).0| <= 49 && |lookups.prefix(s).1| <= 64)
  }

  /** The most telling time of the evidence. */
  function EvidenceTime(e: Evidence): int {
    if e.rejectAt.Some? then e.rejectAt.value else if e.pregreetAt.Some? then e.pregreetAt.value else e.start
  }

  /** The entry without a connection. */
  function Unattributed(e: Evidence, lookups: Lookups, reason: string): Entry {
    var recipient := NormalizeMailbox(e.envelope.recipient);
    var (networkPrefix, provider) := lookups.prefix(e.client);
    Entry(Some(EvidenceTime(e)), e.client, "", "", "", reason, provider, networkPrefix,
          if recipient == "" then "" else lookups.hash(recipient))
  }

  function Attributed(e: Evidence, c: Record, lookups: Lookups): Entry {
    var (signature, reason) := Classify(c.behavior, e);
    Unattributed(e, lookups, reason).(
      connectionId := c.id,
      fingerprint := if c.behavior.Some? then lookups.digest(c.behavior.value.fingerprint) else "",
      signature := signature)
  }

  function EntryOf(e: Evidence, matches: seq<Record>, lookups: Lookups): Entry {
    if |matches| == 1 then Attributed(e, matches[0], lookups)
    else if |matches| > 1 then Unattributed(e, lookups, "ambiguous_exact_connection")
    else Unattributed(e, lookups, "no_exact_connection")
  }

  function Entries(es: seq<Evidence>, cs: seq<Record>, lookups: Lookups, lifetime: nat, tolerance: nat): (r: seq<Entry>)
    ensures |r| == |es|
  {
    if es == [] then []
    else
      var last := es[|es| - 1];
      Entries(es[..|es| - 1], cs, lookups, lifetime, tolerance) +
      [EntryOf(last, Matching(cs, last, lifetime, tolerance), lookups)]
  }

  lemma {:induction false} EntryAt(es: seq<Evidence>, cs: seq<Record>, lookups: Lookups, lifetime: nat, tolerance: nat,
                                   i: nat)
    requires i < |es|
    ensures Entries(es, cs, lookups, lifetime, tolerance)[i] ==
            EntryOf(es[i], Matching(cs, es[i], lifetime, tolerance), lookups)
    decreases |es|
  {
    if i < |es| - 1 {
      EntryAt(es[..|es| - 1], cs, lookups, lifetime, tolerance, i);
    }
  }

  /** The identifiers of the connections that some evidence is attributed to. */
  ghost predicate Attributes(es: seq<Evidence>, cs: seq<Record>, lifetime: nat, tolerance: nat, id: string) {
    exists e :: e in es && |Matching(cs, e, lifetime, tolerance)| == 1 &&
                Matching(cs, e, lifetime, tolerance)[0].id == id
  }

  function Attributions(es: seq<Evidence>, cs: seq<Record>, lifetime: nat, tolerance: nat): set<string> {
    if es == [] then {}
    else Attributions(es[..|es| - 1], cs, lifetime, tolerance) + Single(Matching(cs, es[|es| - 1], lifetime, tolerance))
  }

  function Single(matches: seq<Record>): set<string> {
    if |matches| == 1 then {matches[0].id} else {}
  }

  lemma {:induction false} AttributionsMean(es: seq<Evidence>, cs: seq<Record>, lifetime: nat, tolerance: nat)
    ensures forall id :: id in Attributions(es, cs, lifetime, tolerance) <==>
            Attributes(es, cs, lifetime, tolerance, id)
    decreases |es|
  {
    if es != [] {
      var before, last := es[..|es| - 1], es[|es| - 1];
      AttributionsMean(before, cs, lifetime, tolerance);
      assert es == before + [last];
    }
  }

  function Matched(entries: seq<Entry>): nat {
    if entries == [] then 0
    else Matched(entries[..|entries| - 1]) + if entries[|entries| - 1].signature != "" then 1 else 0
  }

  function Unseen(cs: seq<Record>, seen: set<string>): seq<Record> {
    if cs == [] then []
    else Unseen(cs[..|cs| - 1], seen) + if cs[|cs| - 1].id in seen then [] else [cs[|cs| - 1]]
  }

  /** A zero time is before every other time. */
  predicate TimeBelow(a: Option<int>, b: Option<int>) {
    a.None? || (b.Some? && a.value <= b.value)
  }

  /** The order of the entries: by time, then by client. */
  predicate EntryBelow(a: Entry, b: Entry) {
    if a.timestamp == b.timestamp then Below(a.client, b.client) else TimeBelow(a.timestamp, b.timestamp)
  }

  lemma EntryOrderIsTotal()
    ensures TotalOrder(EntryBelow)
  {
    BelowIsTotal();
    assert forall a: Entry, b: Entry :: Below(a.client, b.client) || Below(b.client, a.client);
    forall a, b
      ensures EntryBelow(a, b) || EntryBelow(b, a)
    {
      BelowOneWay(a.client, b.client);
    }
    forall a, b, c | EntryBelow(a, b) && EntryBelow(b, c)
      ensures EntryBelow(a, c)
    {
      if a.timestamp == b.timestamp == c.timestamp {
        BelowCarries(a.client, b.client, c.client);
      }
    }
  }

  /** The report of the evidence and the connections. */
  ghost predicate Produced(r: Report, instance: string, listener: string, cs: seq<Record>, es: seq<Evidence>,
                           lookups: Lookups, lifetime: nat, tolerance: nat, seen: set<string>) {
    && r.schema == SCHEMA && r.instance == instance && r.listener == listener
    && r.signature == SUPPORT && r.signatures == [SUPPORT, EHLO_USER]
    && multiset(r.records) == multiset(Entries(es, cs, lookups, lifetime, tolerance)) && Ordered(r.records, EntryBelow)
    && seen == Attributions(es, cs, lifetime, tolerance)
    && r.counts.connections == |cs| && r.counts.evidenceSessions == |es|
    && r.counts.matched == Matched(Entries(es, cs, lookups, lifetime, tolerance))
    && r.counts.unmatched == |es| - r.counts.matched
    && r.counts.withoutEvidence == |Unseen(cs, seen)|
    && r.counts.malformedEvents >= 0 && r.counts.malformedLines >= 0
  }

  /** An invalid behaviour is dropped, but not the connection. */
  function Cleaned(c: Record): Record {
    if BadBehavior(c) then c.(behavior := None) else c
  }

  predicate BadBehavior(c: Record) {
    c.behavior.Some? && !ValidBehavior(c.behavior)
  }

  function CleanAll(cs: seq<Record>): (r: seq<Record>)
    ensures |r| == |cs|
    ensures forall i :: 0 <= i < |cs| ==> r[i].id == cs[i].id && r[i].behavior in {None, cs[i].behavior}
    ensures forall i :: 0 <= i < |cs| ==> (r[i].behavior.Some? <==> ValidBehavior(cs[i].behavior))
  {
    if cs == [] then [] else CleanAll(cs[..|cs| - 1]) + [Cleaned(cs[|cs| - 1])]
  }

  function BadBehaviors(cs: seq<Record>): nat {
    if cs == [] then 0 else BadBehaviors(cs[..|cs| - 1]) + if BadBehavior(cs[|cs| - 1]) then 1 else 0
  }

  method CleanBehaviors(cs: seq<Record>) returns (kept: seq<Record>, bad: nat)
    ensures kept == CleanAll(cs) && bad == BadBehaviors(cs)
  {
    kept, bad := [], 0;
    for i := 0 to |cs|
      invariant kept == CleanAll(cs[..i]) && bad == BadBehaviors(cs[..i])
    {
      PrefixNext(cs, i);
      CleanSnoc(cs[..i], cs[i]);
      if BadBehavior(cs[i]) {
        bad := bad + 1;
      }
      kept := kept + [Cleaned(cs[i])];
    }
    PrefixAll(cs);
  }

  lemma CleanSnoc(cs: seq<Record>, c: Record)
    ensures CleanAll(cs + [c]) == CleanAll(cs) + [Cleaned(c)]
    ensures BadBehaviors(cs + [c]) == BadBehaviors(cs) + if BadBehavior(c) then 1 else 0
  {
    PrefixOfSnoc(cs, c);
  }

  method RunSMTPCampaignClassification(instance: string, listener: string, conns: seq<Record>, es: seq<Evidence>,
                                       lookups: Lookups, lifetime: nat, tolerance: nat, malformedEvents: nat,
                                       malformedLines: nat)
    returns (r: Report, seen: set<string>)
    ensures Produced(r, instance, listener, CleanAll(conns), es, lookups, lifetime, tolerance, seen)
    ensures r.counts.malformedEvents == malformedEvents + BadBehaviors(conns) &&
            r.counts.malformedLines == malformedLines
  {
    var cs, bad := CleanBehaviors(conns);
    var records, matched, unmatched;
    records, matched, unmatched, seen := ClassifyAll(cs, es, lookups, lifetime, tolerance);
    var without := CountUnseen(cs, seen);
    EntryOrderIsTotal();
    SortOrders(records, EntryBelow);
    records := SortBy(records, EntryBelow);
    r := Report(SCHEMA, instance, listener, SUPPORT, [SUPPORT, EHLO_USER],
                Counts(|cs|, |es|, matched, unmatched, without, malformedEvents + bad, malformedLines), records);
  }

  /** The loop over the evidence. */
  method ClassifyAll(cs: seq<Record>, es: seq<Evidence>, lookups: Lookups, lifetime: nat, tolerance: nat)
    returns (records: seq<Entry>, matched: nat, unmatched: nat, seen: set<string>)
    ensures records == Entries(es, cs, lookups, lifetime, tolerance)
    ensures matched == Matched(records) && unmatched == |es| - matched
    ensures seen == Attributions(es, cs, lifetime, tolerance)
  {
    records, matched, unmatched, seen := [], 0, 0, {};
    for i := 0 to |es|
      invariant records == Entries(es[..i], cs, lookups, lifetime, tolerance)
      invariant matched == Matched(records) && unmatched == i - matched
      invariant seen == Attributions(es[..i], cs, lifetime, tolerance)
    {
      PrefixNext(es, i);
      records, matched, unmatched, seen := ClassifyTurn(es[..i], es[i], cs, lookups, lifetime, tolerance, records,
                                                        matched, unmatched, seen);
    }
    PrefixAll(es);
  }

  /** One turn of the loop. */
  method ClassifyTurn(ghost before: seq<Evidence>, e: Evidence, cs: seq<Record>, lookups: Lookups, lifetime: nat,
                      tolerance: nat, records: seq<Entry>, matched: nat, unmatched: nat, seen: set<string>)
    returns (records': seq<Entry>, matched': nat, unmatched': nat, seen': set<string>)
    requires records == Entries(before, cs, lookups, lifetime, tolerance)
    requires matched == Matched(records) && seen == Attributions(before, cs, lifetime, tolerance)
    ensures records' == Entries(before + [e], cs, lookups, lifetime, tolerance)
    ensures matched' == Matched(records') && matched' + unmatched' == matched + unmatched + 1
    ensures seen' == Attributions(before + [e], cs, lifetime, tolerance)
  {
    matched', unmatched' := matched, unmatched;
    var matches := MatchingSMTPConnections(cs, e, lifetime, tolerance);
    var entry, hit := ClassifyOne(e, matches, lookups, before, cs, lifetime, tolerance);
    seen' := seen + Single(matches);
    if hit {
      matched' := matched + 1;
    } else {
      unmatched' := unmatched + 1;
    }
    records' := records + [entry];
  }

  /** The entry for one session of evidence. */
  method ClassifyOne(e: Evidence, matches: seq<Record>, lookups: Lookups, ghost before: seq<Evidence>,
                     ghost cs: seq<Record>, ghost lifetime: nat, ghost tolerance: nat)
    returns (entry: Entry, hit: bool)
    requires matches == Matching(cs, e, lifetime, tolerance)
    ensures Entries(before + [e], cs, lookups, lifetime, tolerance) ==
            Entries(before, cs, lookups, lifetime, tolerance) + [entry]
    ensures Matched(Entries(before + [e], cs, lookups, lifetime, tolerance)) ==
            Matched(Entries(before, cs, lookups, lifetime, tolerance)) + if hit then 1 else 0
    ensures Attributions(before + [e], cs, lifetime, tolerance) ==
            Attributions(before, cs, lifetime, tolerance) + Single(matches)
  {
    OneMore(before, e, cs, lookups, lifetime, tolerance, matches);
    OneMoreAttribution(before, e, cs, lifetime, tolerance);
    if |matches| == 1 {
      entry := Attributed(e, matches[0], lookups);
      hit := entry.reason == "matched";
    } else if |matches| > 1 {
      entry := Unattributed(e, lookups, "ambiguous_exact_connection");
      hit := false;
    } else {
      entry := Unattributed(e, lookups, "no_exact_connection");
      hit := false;
    }
  }

  lemma OneMore(es: seq<Evidence>, e: Evidence, cs: seq<Record>, lookups: Lookups, lifetime: nat, tolerance: nat,
                matches: seq<Record>)
    requires matches == Matching(cs, e, lifetime, tolerance)
    ensures Entries(es + [e], cs, lookups, lifetime, tolerance) ==
            Entries(es, cs, lookups, lifetime, tolerance) + [EntryOf(e, matches, lookups)]
    ensures Matched(Entries(es + [e], cs, lookups, lifetime, tolerance)) ==
            Matched(Entries(es, cs, lookups, lifetime, tolerance)) +
            if EntryOf(e, matches, lookups).signature != "" then 1 else 0
  {
    var entry, entries := EntryOf(e, matches, lookups), Entries(es, cs, lookups, lifetime, tolerance);
    PrefixOfSnoc(es, e);
    PrefixOfSnoc(entries, entry);
  }

  lemma OneMoreAttribution(es: seq<Evidence>, e: Evidence, cs: seq<Record>, lifetime: nat, tolerance: nat)
    ensures Attributions(es + [e], cs, lifetime, tolerance) ==
            Attributions(es, cs, lifetime, tolerance) + Single(Matching(cs, e, lifetime, tolerance))
  {
    PrefixOfSnoc(es, e);
  }

  method CountUnseen(cs: seq<Record>, seen: set<string>) returns (n: nat)
    ensures n == |Unseen(cs, seen)|
  {
    n := 0;
    for i := 0 to |cs|
      invariant n == |Unseen(cs[..i], seen)|
    {
      PrefixNext(cs, i);
      if cs[i].id !in seen {
        n := n + 1;
      }
    }
    PrefixAll(cs);
  }

  // ---------------------------------------------------------------------
  // The validator.

  predicate SoundCounts(c: Counts) {
    && c.connections >= 0 && c.evidenceSessions >= 0 && c.matched >= 0 && c.unmatched >= 0
    && c.withoutEvidence >= 0 && c.malformedEvents >= 0 && c.malformedLines >= 0
    && c.matched + c.unmatched == c.evidenceSessions && c.withoutEvidence <= c.connections
  }

  ghost predicate SoundSignatures(signatures: seq<string>) {
    && 0 < |signatures| <= 32
    && (forall i :: 0 <= i < |signatures| ==> signatures[i] != "" && |signatures[i]| <= 128)
    && (forall i, j :: 0 <= i < j < |signatures| ==> signatures[i] != signatures[j])
  }

  predicate ShortEntry(e: Entry) {
    && e.timestamp.Some? && |e.client| <= 256 && |e.connectionId| <= 128 && |e.fingerprint| <= 128 &&
       |e.signature| <= 128
    && |e.reason| <= 128 && |e.provider| <= 128 && |e.networkPrefix| <= 128 && |e.recipientCluster| <= 128
  }

  ghost predicate SoundEntry(e: Entry, signatures: seq<string>, endpoint: string -> bool) {
    ShortEntry(e) && endpoint(e.client) && (e.signature == "" || e.signature in signatures)
  }

  /** What the validator accepts; `endpoint` tells whether a text is a host and a port. */
  ghost predicate ValidReport(r: Report, instance: string, listener: string, endpoint: string -> bool) {
    && r.schema == SCHEMA && r.instance == instance && r.listener == listener
    && SoundCounts(r.counts) && |r.records| == r.counts.evidenceSessions && SoundSignatures(r.signatures)
    && (r.signature == "" || r.signature in r.signatures)
    && AllSound(r.records, r.signatures, endpoint)
  }

  ghost predicate AllSound(entries: seq<Entry>, signatures: seq<string>, endpoint: string -> bool) {
    forall i :: 0 <= i < |entries| ==> SoundEntry(entries[i], signatures, endpoint)
  }

  datatype Defect = WrongSchema | WrongIdentity | WrongCounts | WrongEvidence | WrongSignature | Undeclared | WrongEntry

  method ValidateSMTPCampaignReport(r: Report, instance: string, listener: string, endpoint: string -> bool)
    returns (defect: Option<Defect>)
    ensures defect.None? <==> ValidReport(r, instance, listener, endpoint)
  {
    if r.schema != SCHEMA {
      return Some(WrongSchema);
    }
    if r.instance != instance || r.listener != listener {
      return Some(WrongIdentity);
    }
    if !SoundCounts(r.counts) {
      return Some(WrongCounts);
    }
    if |r.records| != r.counts.evidenceSessions || |r.signatures| == 0 || |r.signatures| > 32 {
      return Some(WrongEvidence);
    }
    var known := KnownSignatures(r.signatures);
    if known.None? {
      return Some(WrongSignature);
    }
    if r.signature != "" && r.signature !in known.value {
      return Some(Undeclared);
    }
    for i := 0 to |r.records|
      invariant forall k :: 0 <= k < i ==> SoundEntry(r.records[k], r.signatures, endpoint)
    {
      var e := r.records[i];
      if !ShortEntry(e) || !endpoint(e.client) {
        return Some(WrongEntry);
      }
      if e.signature != "" && e.signature !in known.value {
        return Some(Undeclared);
      }
    }
    return None;
  }

  /** The set of the signatures, if they are sound. */
  method KnownSignatures(signatures: seq<string>) returns (known: Option<set<string>>)
    requires 0 < |signatures| <= 32
    ensures known.Some? <==> SoundSignatures(signatures)
    ensures known.Some? ==> forall s :: s in known.value <==> s in signatures
  {
    var all: set<string> := {};
    for i := 0 to |signatures|
      invariant forall s :: s in all <==> s in signatures[..i]
      invariant forall k :: 0 <= k < i ==> signatures[k] != "" && |signatures[k]| <= 128
      invariant forall k, l :: 0 <= k < l < i ==> signatures[k] != signatures[l]
    {
      var s := signatures[i];
      PrefixNext(signatures, i);
      if s == "" || |s| > 128 || s in all {
        assert s in all ==> exists k :: 0 <= k < i && signatures[k] == s;
        return None;
      }
      all := all + {s};
    }
    PrefixAll(signatures);
    return Some(all);
  }

  // ---------------------------------------------------------------------
  // The producer against the validator.

  lemma {:induction false} AtMostAll(cs: seq<Record>, seen: set<string>)
    ensures |Unseen(cs, seen)| <= |cs|
    decreases |cs|
  {
    if cs != [] {
      AtMostAll(cs[..|cs| - 1], seen);
    }
  }

  lemma {:induction false} MatchedAtMostAll(entries: seq<Entry>)
    ensures Matched(entries) <= |entries|
    decreases |entries|
  {
    if entries != [] {
      MatchedAtMostAll(entries[..|entries| - 1]);
    }
  }

  lemma TwoSignatures()
    ensures SoundSignatures([SUPPORT, EHLO_USER])
  {
    assert |SUPPORT| != |EHLO_USER|;
  }

  /** The lengths that the producer does not bound. */
  predicate Fits(e: Evidence, cs: seq<Record>, lifetime: nat, tolerance: nat) {
    var matches := Matching(cs, e, lifetime, tolerance);
    |e.client| <= 256 && (|matches| == 1 ==> |matches[0].id| <= 128)
  }

  lemma UnattributedIsShort(e: Evidence, lookups: Lookups, reason: string)
    requires Bounded(lookups) && |reason| <= 128
    ensures ShortEntry(Unattributed(e, lookups, reason)) <==> |e.client| <= 256
  {
  }

  lemma AttributedIsShort(e: Evidence, c: Record, lookups: Lookups)
    requires Bounded(lookups)
    ensures ShortEntry(Attributed(e, c, lookups)) <==> |e.client| <= 256 && |c.id| <= 128
  {
    UnattributedIsShort(e, lookups, Classify(c.behavior, e).1);
  }

  /** The signature is a declared one, and what the producer does not bound decides the rest. */
  lemma EntryIsSound(e: Evidence, cs: seq<Record>, lookups: Lookups, lifetime: nat, tolerance: nat,
                     endpoint: string -> bool)
    requires Bounded(lookups)
    ensures SoundEntry(EntryOf(e, Matching(cs, e, lifetime, tolerance), lookups), [SUPPORT, EHLO_USER], endpoint) <==>
            Fits(e, cs, lifetime, tolerance) && endpoint(e.client)
  {
    var matches := Matching(cs, e, lifetime, tolerance);
    if |matches| == 1 {
      AttributedIsShort(e, matches[0], lookups);
    } else {
      UnattributedIsShort(e, lookups, "ambiguous_exact_connection");
      UnattributedIsShort(e, lookups, "no_exact_connection");
    }
  }

  /** Every session of evidence fits the bounds, and its client is a host and a port to the validator. */
  predicate AllFit(es: seq<Evidence>, cs: seq<Record>, lifetime: nat, tolerance: nat, endpoint: string -> bool) {
    forall e :: e in es ==> Fits(e, cs, lifetime, tolerance) && endpoint(e.client)
  }

  lemma EntriesAreSound(es: seq<Evidence>, cs: seq<Record>, lookups: Lookups, lifetime: nat, tolerance: nat,
                        endpoint: string -> bool)
    requires Bounded(lookups)
    ensures AllSound(Entries(es, cs, lookups, lifetime, tolerance), [SUPPORT, EHLO_USER], endpoint) <==>
            AllFit(es, cs, lifetime, tolerance, endpoint)
  {
    var entries, signatures := Entries(es, cs, lookups, lifetime, tolerance), [SUPPORT, EHLO_USER];
    forall i | 0 <= i < |es|
      ensures SoundEntry(entries[i], signatures, endpoint) <==>
              Fits(es[i], cs, lifetime, tolerance) && endpoint(es[i].client)
    {
      EntryAt(es, cs, lookups, lifetime, tolerance, i);
      EntryIsSound(es[i], cs, lookups, lifetime, tolerance, endpoint);
    }
  }

  lemma CountsAreSound(r: Report, instance: string, listener: string, cs: seq<Record>, es: seq<Evidence>,
                       lookups: Lookups, lifetime: nat, tolerance: nat, seen: set<string>)
    requires Produced(r, instance, listener, cs, es, lookups, lifetime, tolerance, seen)
    ensures SoundCounts(r.counts) && |r.records| == r.counts.evidenceSessions
    ensures r.counts.matched + r.counts.unmatched == |r.records|
  {
    AtMostAll(cs, seen);
    MatchedAtMostAll(Entries(es, cs, lookups, lifetime, tolerance));
    SameMembers(r.records, Entries(es, cs, lookups, lifetime, tolerance));
  }

  lemma SameSoundness(a: seq<Entry>, b: seq<Entry>, signatures: seq<string>, endpoint: string -> bool)
    requires multiset(a) == multiset(b)
    ensures AllSound(a, signatures, endpoint) <==> AllSound(b, signatures, endpoint)
  {
    SameMembers(a, b);
    assert AllSound(a, signatures, endpoint) ==> forall e :: e in a ==> SoundEntry(e, signatures, endpoint);
    assert AllSound(b, signatures, endpoint) ==> forall e :: e in b ==> SoundEntry(e, signatures, endpoint);
    assert forall i :: 0 <= i < |a| ==> a[i] in a;
    assert forall i :: 0 <= i < |b| ==> b[i] in b;
  }

  /** The validator accepts a produced report exactly when no client is overlong, every client is a host and a port
      to it, and no evidence is attributed to a connection with an overlong identifier; everything else the producer
      sees to. */
  lemma ProducedIsAccepted(r: Report, instance: string, listener: string, cs: seq<Record>, es: seq<Evidence>,
                           lookups: Lookups, lifetime: nat, tolerance: nat, seen: set<string>, endpoint: string -> bool)
    requires Produced(r, instance, listener, cs, es, lookups, lifetime, tolerance, seen)
    requires Bounded(lookups)
    ensures ValidReport(r, instance, listener, endpoint) <==> AllFit(es, cs, lifetime, tolerance, endpoint)
  {
    CountsAreSound(r, instance, listener, cs, es, lookups, lifetime, tolerance, seen);
    TwoSignatures();
    EntriesAreSound(es, cs, lookups, lifetime, tolerance, endpoint);
    SameSoundness(r.records, Entries(es, cs, lookups, lifetime, tolerance), r.signatures, endpoint);
    assert r.signature in r.signatures;
  }

  /** The report of one session of evidence and no connection. */
  function LoneReport(instance: string, listener: string, e: Evidence, lookups: Lookups): Report {
    Report(SCHEMA, instance, listener, SUPPORT, [SUPPORT, EHLO_USER], Counts(0, 1, 0, 1, 0, 0, 0),
           [Unattributed(e, lookups, "no_exact_connection")])
  }

  /** A session of a client with 257 characters, as an IPv6 zone can make it, gives a report that is produced and not
      accepted. */
  lemma OverlongClientIsRefused(instance: string, listener: string, e: Evidence, lookups: Lookups, lifetime: nat,
                                tolerance: nat, endpoint: string -> bool)
    requires Bounded(lookups) && endpoint(e.client) && |e.client| == 257
    ensures Produced(LoneReport(instance, listener, e, lookups), instance, listener, [], [e], lookups, lifetime,
                     tolerance, {})
    ensures !ValidReport(LoneReport(instance, listener, e, lookups), instance, listener, endpoint)
  {
    var r := LoneReport(instance, listener, e, lookups);
    LoneIsProduced(instance, listener, e, lookups, lifetime, tolerance);
    ProducedIsAccepted(r, instance, listener, [], [e], lookups, lifetime, tolerance, {}, endpoint);
    assert !Fits([e][0], [], lifetime, tolerance);
  }

  // ---------------------------------------------------------------------
  // Which clients are a host and a port.

  /** How Go joins a host and a port. */
  function JoinHostPort(host: string, port: string): string {
    if ':' in host then ['['] + host + [']', ':'] + port else host + [':'] + port
  }

  /** Which texts Go splits into a host and a port again, at the last colon: a first bracket must close just before it,
      and no other bracket may occur; without brackets there is no other colon. */
  predicate IsEndpoint(s: string) {
    var i := Last(s, ':');
    if i < 0 then false
    else if s[0] == '[' then
      ']' in s && First(s, ']') + 1 == i && '[' !in s[1..] && ']' !in s[i..]
    else ':' !in s[..i] && '[' !in s && ']' !in s
  }

  predicate NoBrackets(s: string) {
    '[' !in s && ']' !in s
  }

  /** The client of a log line, joined from an address and a port, is a host and a port exactly when the address has no
      bracket. The zone of an IPv6 address can have one; an IPv4 address has neither colons nor brackets. */
  lemma JoinedIsEndpoint(host: string, port: string)
    requires ':' !in port && NoBrackets(port) && (':' in host || NoBrackets(host))
    ensures IsEndpoint(JoinHostPort(host, port)) <==> NoBrackets(host)
  {
    if ':' in host {
      BracketedIsEndpoint(host, port);
    } else {
      PlainIsEndpoint(host, port);
    }
  }

  lemma PlainIsEndpoint(host: string, port: string)
    requires ':' !in port && NoBrackets(port) && ':' !in host && NoBrackets(host)
    ensures IsEndpoint(host + [':'] + port)
  {
    var s := host + [':'] + port;
    assert s[|host|] == ':';
    assert Last(s, ':') == |host|;
  }

  lemma BracketedIsEndpoint(host: string, port: string)
    requires ':' !in port && NoBrackets(port)
    ensures IsEndpoint(['['] + host + [']', ':'] + port) <==> NoBrackets(host)
  {
    var s, n := ['['] + host + [']', ':'] + port, |host|;
    assert s[0] == '[' && s[n + 1] == ']' && s[n + 2] == ':';
    assert Last(s, ':') == n + 2;
    assert s[1..] == host + [']', ':'] + port && s[n + 2..] == [':'] + port;
    assert forall k :: 0 <= k < n ==> s[k + 1] == host[k];
    var f := First(s, ']');
    assert ']' in host ==> f <= n;
    assert f <= n ==> ']' in host;
  }

  /** So does a session of a client whose zone has a bracket, however short everything is. */
  lemma BracketInZoneIsRefused(instance: string, listener: string, e: Evidence, lookups: Lookups, lifetime: nat,
                               tolerance: nat)
    requires Bounded(lookups) && e.client == JoinHostPort("fe80::1%a[b", "25")
    ensures Produced(LoneReport(instance, listener, e, lookups), instance, listener, [], [e], lookups, lifetime,
                     tolerance, {})
    ensures Fits(e, [], lifetime, tolerance)
    ensures !ValidReport(LoneReport(instance, listener, e, lookups), instance, listener, IsEndpoint)
  {
    var r := LoneReport(instance, listener, e, lookups);
    LoneIsProduced(instance, listener, e, lookups, lifetime, tolerance);
    ProducedIsAccepted(r, instance, listener, [], [e], lookups, lifetime, tolerance, {}, IsEndpoint);
    BracketRefused();
    assert !IsEndpoint([e][0].client);
  }

  lemma BracketRefused()
    ensures !IsEndpoint(JoinHostPort("fe80::1%a[b", "25")) && |JoinHostPort("fe80::1%a[b", "25")| == 16
  {
    var host := "fe80::1%a[b";
    assert host[4] == ':' && host[9] == '[';
    JoinedIsEndpoint(host, "25");
  }

  lemma OneSession(e: Evidence, lookups: Lookups, lifetime: nat, tolerance: nat)
    ensures Entries([e], [], lookups, lifetime, tolerance) == [Unattributed(e, lookups, "no_exact_connection")]
    ensures Matched(Entries([e], [], lookups, lifetime, tolerance)) == 0
    ensures Attributions([e], [], lifetime, tolerance) == {}
  {
    assert [] + [e] == [e];
    OneMore([], e, [], lookups, lifetime, tolerance, []);
    OneMoreAttribution([], e, [], lifetime, tolerance);
  }

  lemma LoneIsProduced(instance: string, listener: string, e: Evidence, lookups: Lookups, lifetime: nat, tolerance: nat)
    ensures Produced(LoneReport(instance, listener, e, lookups), instance, listener, [], [e], lookups, lifetime,
                     tolerance, {})
  {
    OneSession(e, lookups, lifetime, tolerance);
  }
}
