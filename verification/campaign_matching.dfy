/** What the campaign report's decisions mean: matching in true time, mailboxes and domains, entries and counts. */
module CampaignMatching {
  import opened Bytes
  import opened Text
  import opened SmtpBehavior
  import opened SmtpFold
  import opened CampaignEvidence
  import opened CampaignReport

  // ---------------------------------------------------------------------
  // Matching.

  /** The evidence shows this time. */
  predicate ShowsTime(e: Evidence, t: int) {
    t == e.start || t == e.lastAt || e.pregreetAt == Some(t) || e.rejectAt == Some(t)
  }

  /** Evidence matches a connection of its client exactly when the connection is valid and short enough, and contains
      every time that the evidence shows, up to the tolerance at both ends. */
  lemma MatchesExactlyWhen(c: Record, e: Evidence, lifetime: nat, tolerance: nat)
    ensures Matches(c, e, lifetime, tolerance) <==>
            && c.client == e.client && !c.invalid && c.start.Some? && c.end.Some?
            && 0 <= c.end.value - c.start.value <= lifetime
            && forall t :: ShowsTime(e, t) ==> c.start.value - tolerance <= t && t - tolerance <= c.end.value
  {
    assert ShowsTime(e, e.start) && ShowsTime(e, e.lastAt);
    assert e.pregreetAt.Some? ==> ShowsTime(e, e.pregreetAt.value);
    assert e.rejectAt.Some? ==> ShowsTime(e, e.rejectAt.value);
  }

  ghost predicate Monotone(clock: int -> int) {
    forall s, t :: s <= t ==> clock(s) <= clock(t)
  }

  ghost predicate WithinTolerance(gate: int -> int, log: int -> int, tolerance: nat) {
    forall t :: gate(t) - tolerance <= log(t) <= gate(t) + tolerance
  }

  /** With clocks that differ by at most the tolerance, evidence logged while a connection lasted matches it. */
  lemma TrueConnectionMatches(c: Record, e: Evidence, lifetime: nat, tolerance: nat, gate: int -> int, log: int -> int,
                              from: int, to: int, instant: int -> int)
    requires Monotone(gate) && WithinTolerance(gate, log, tolerance) && from <= to
    requires c.client == e.client && !c.invalid && c.start == Some(gate(from)) && c.end == Some(gate(to))
    requires gate(to) - gate(from) <= lifetime
    requires forall t :: ShowsTime(e, t) ==> from <= instant(t) <= to && log(instant(t)) == t
    ensures Matches(c, e, lifetime, tolerance)
  {
    forall t | ShowsTime(e, t)
      ensures c.start.value - tolerance <= t && t - tolerance <= c.end.value
    {
      assert gate(from) <= gate(instant(t)) <= gate(to);
      assert gate(instant(t)) - tolerance <= log(instant(t)) <= gate(instant(t)) + tolerance;
    }
    assert gate(from) <= gate(to);
    MatchesExactlyWhen(c, e, lifetime, tolerance);
  }

  // ---------------------------------------------------------------------
  // Domains and mailboxes.

  /** A domain in its canonical form: labels of up to 63 small letters, digits and inner dashes. */
  predicate IsDomain(d: string) {
    d != "" && |d| <= 253 && IsLabels(Split(d, '.'))
  }

  predicate IsLabels(ls: seq<string>) {
    forall i :: 0 <= i < |ls| ==> IsLabel(ls[i])
  }

  predicate IsLabel(l: string) {
    && 0 < |l| <= 63 && l[0] != '-' && l[|l| - 1] != '-'
    && forall i :: 0 <= i < |l| ==> 'a' <= l[i] <= 'z' || '0' <= l[i] <= '9' || l[i] == '-'
  }

  predicate WhiteSpace(c: char) {
    c == ' ' || c == '\t' || c == '\n' || c == '\r' || c as int == 11 || c as int == 12
  }

  /** The text without white space at its ends. */
  ghost predicate Trims(trimmed: string, text: string) {
    && (exists a, b :: text == a + trimmed + b && AllWhite(a) && AllWhite(b))
    && (trimmed != "" ==> !WhiteSpace(trimmed[0]) && !WhiteSpace(trimmed[|trimmed| - 1]))
  }

  predicate AllWhite(s: string) {
    forall i :: 0 <= i < |s| ==> WhiteSpace(s[i])
  }

  lemma BlankIsWhite(c: char)
    ensures Blank(c) <==> WhiteSpace(c)
  {
  }

  lemma WhiteSum(a: string, b: string)
    requires AllWhite(a) && AllWhite(b)
    ensures AllWhite(a + b)
  {
  }

  lemma {:induction false} TrimLeftTrims(s: string) returns (a: string)
    ensures s == a + TrimLeft(s) && AllWhite(a) && (TrimLeft(s) != "" ==> !WhiteSpace(TrimLeft(s)[0]))
    decreases |s|
  {
    if s == "" || !Blank(s[0]) {
      a := "";
      assert TrimLeft(s) == s && a + s == s;
      assert s != "" ==> !WhiteSpace(s[0]);
    } else {
      var rest := TrimLeftTrims(s[1..]);
      BlankIsWhite(s[0]);
      WhiteSum([s[0]], rest);
      a := [s[0]] + rest;
      Associative([s[0]], rest, TrimLeft(s));
      HeadAndRest([s[0]], s[1..]);
      assert s == [s[0]] + s[1..];
    }
  }

  lemma {:induction false} TrimRightTrims(s: string) returns (b: string)
    ensures s == TrimRight(s) + b && AllWhite(b)
    ensures TrimRight(s) != "" ==> !WhiteSpace(TrimRight(s)[|TrimRight(s)| - 1])
    decreases |s|
  {
    if s == "" || !Blank(s[|s| - 1]) {
      b := "";
      assert TrimRight(s) == s && s + b == s;
      assert s != "" ==> !WhiteSpace(s[|s| - 1]);
    } else {
      var n := |s| - 1;
      var rest := TrimRightTrims(s[..n]);
      BlankIsWhite(s[n]);
      WhiteSum(rest, [s[n]]);
      b := rest + [s[n]];
      Associative(TrimRight(s), rest, [s[n]]);
      PrefixNext(s, n);
      PrefixAll(s);
    }
  }

  lemma TrimSpaceTrims(text: string)
    ensures Trims(TrimSpace(text), text)
  {
    var a := TrimLeftTrims(text);
    var middle := TrimLeft(text);
    var b := TrimRightTrims(middle);
    var trimmed := TrimRight(middle);
    assert text == a + trimmed + b;
    assert trimmed != "" ==> trimmed[0] == middle[0];
  }

  lemma LabelIsLabel(l: string)
    ensures Label(l) <==> IsLabel(l)
  {
    if IsLabel(l) {
      assert forall i :: 0 <= i < |l| ==> LabelChar(l, i);
    }
    if Label(l) {
      assert LabelChar(l, 0) && LabelChar(l, |l| - 1);
      forall i | 0 <= i < |l|
        ensures 'a' <= l[i] <= 'z' || '0' <= l[i] <= '9' || l[i] == '-'
      {
        assert LabelChar(l, i);
      }
    }
  }

  lemma LabelsAreLabels(ls: seq<string>)
    ensures Labels(ls) <==> IsLabels(ls)
  {
    forall i | 0 <= i < |ls|
      ensures Label(ls[i]) <==> IsLabel(ls[i])
    {
      LabelIsLabel(ls[i]);
    }
  }

  lemma DomainEndsInLabel(d: string)
    requires IsDomain(d)
    ensures d[|d| - 1] != '.'
  {
    var ls := Split(d, '.');
    assert IsLabel(ls[|ls| - 1]);
    if d[|d| - 1] == '.' {
      SplitEndsEmpty(d, '.');
    }
  }

  predicate InSmall(name: string, text: string) {
    && |name| == |text|
    && forall i :: 0 <= i < |text| ==>
         name[i] == if 'A' <= text[i] <= 'Z' then (text[i] as int + 32) as char else text[i]
  }

  lemma DotDropped(small: string, d: string)
    requires IsDomain(d)
    ensures TrimDot(small) == d <==> small == d || small == d + "."
  {
    DomainEndsInLabel(d);
    assert small != "" && small[|small| - 1] == '.' ==> small == small[..|small| - 1] + ".";
    assert small == d + "." ==> small[..|small| - 1] == d;
  }

  lemma CanonicalIsDomain(text: string, d: string)
    requires d != ""
    ensures CanonicalDomain(text) == d <==> IsDomain(d) && TrimDot(Lower(TrimSpace(text))) == d
  {
    LabelsAreLabels(Split(d, '.'));
  }

  /** The canonical form of a text is the domain that the trimmed text spells in small letters, with or without a final
      dot; a text that spells none has none. */
  lemma CanonicalDomainExactlyWhen(text: string, d: string)
    requires d != ""
    ensures CanonicalDomain(text) == d <==>
            IsDomain(d) && (InSmall(d, TrimSpace(text)) || InSmall(d + ".", TrimSpace(text)))
  {
    CanonicalIsDomain(text, d);
    SmallIsLower(d, TrimSpace(text));
    SmallIsLower(d + ".", TrimSpace(text));
    if IsDomain(d) {
      DotDropped(Lower(TrimSpace(text)), d);
    }
  }

  lemma SmallIsLower(name: string, text: string)
    ensures InSmall(name, text) <==> name == Lower(text)
  {
  }

  /** The text is the two parts around an at sign, and the second part has none. */
  predicate AtLastSign(value: string, local: string, after: string) {
    value == local + ['@'] + after && '@' !in after
  }

  lemma LastSignIs(value: string, local: string, after: string)
    requires AtLastSign(value, local, after)
    ensures Last(value, '@') == |local| && value[..|local|] == local && value[|local| + 1..] == after
  {
    assert value[|local|] == '@';
    assert forall k :: |local| < k < |value| ==> value[k] == after[k - |local| - 1];
  }

  lemma LastSignCuts(value: string)
    requires Last(value, '@') >= 0
    ensures AtLastSign(value, value[..Last(value, '@')], value[Last(value, '@') + 1..])
  {
    var at := Last(value, '@');
    var after := value[at + 1..];
    forall i | 0 <= i < |after|
      ensures after[i] != '@'
    {
      assert after[i] == value[at + 1 + i];
    }
  }

  lemma SplitAt(text: string, local: string, after: string)
    requires AtLastSign(TrimSpace(text), local, after)
    ensures SplitMailbox(text) ==
            if 0 < |local| <= 64 && after != "" && CanonicalDomain(after) != "" then (local, CanonicalDomain(after))
            else ("", "")
  {
    LastSignIs(TrimSpace(text), local, after);
  }

  /** The two parts of a mailbox: what stands before and after the last at sign of the trimmed text, if the first is not
      empty or longer than 64 and the second spells a domain. */
  lemma SplitMailboxExactlyWhen(text: string, local: string, domain: string)
    requires domain != ""
    ensures SplitMailbox(text) == (local, domain) <==>
            && 0 < |local| <= 64
            && exists after :: AtLastSign(TrimSpace(text), local, after) && CanonicalDomain(after) == domain
  {
    var value := TrimSpace(text);
    assert TrimSpace("") == "" && CanonicalDomain("") == "";
    if SplitMailbox(text) == (local, domain) {
      LastSignCuts(value);
      SplitAt(text, value[..Last(value, '@')], value[Last(value, '@') + 1..]);
    }
    forall after | AtLastSign(value, local, after) && CanonicalDomain(after) == domain && 0 < |local| <= 64
      ensures SplitMailbox(text) == (local, domain)
    {
      SplitAt(text, local, after);
    }
  }

  // ---------------------------------------------------------------------
  // Entries and counts.

  /** The time of an entry is that of the rejection, or else of the early greeting, or else of the first line; client
      and network are those of the evidence, and a recipient is shown by its hash only. */
  lemma EntrySays(e: Evidence, matches: seq<Record>, lookups: Lookups)
    ensures var r := EntryOf(e, matches, lookups);
            && (e.rejectAt.Some? ==> r.timestamp == e.rejectAt)
            && (e.rejectAt.None? && e.pregreetAt.Some? ==> r.timestamp == e.pregreetAt)
            && (e.rejectAt.None? && e.pregreetAt.None? ==> r.timestamp == Some(e.start))
            && r.client == e.client && (r.networkPrefix, r.provider) == lookups.prefix(e.client)
            && r.recipientCluster == (var to := NormalizeMailbox(e.envelope.recipient);
                                      if to == "" then "" else lookups.hash(to))
    ensures var r := EntryOf(e, matches, lookups);
            if |matches| == 1 then
              && r.connectionId == matches[0].id && (r.signature, r.reason) == Classify(matches[0].behavior, e)
              && r.fingerprint == (if matches[0].behavior.None? then ""
                                   else lookups.digest(matches[0].behavior.value.fingerprint))
            else
              && r.connectionId == "" && r.signature == "" && r.fingerprint == ""
              && r.reason == if matches == [] then "no_exact_connection" else "ambiguous_exact_connection"
  {
  }

  /** The texts of an entry other than the client. */
  function Texts(e: Entry): seq<string> {
    [e.connectionId, e.fingerprint, e.signature, e.reason, e.provider, e.networkPrefix, e.recipientCluster]
  }

  /** Which entries the validator accepts. */
  lemma SoundEntryExactlyWhen(e: Entry, signatures: seq<string>, endpoint: string -> bool)
    ensures SoundEntry(e, signatures, endpoint) <==>
            && e.timestamp != None && |e.client| <= 256 && endpoint(e.client)
            && (forall i :: 0 <= i < 7 ==> |Texts(e)[i]| <= 128)
            && (e.signature == "" || e.signature in signatures)
  {
    var t := Texts(e);
    assert t[0] == e.connectionId && t[1] == e.fingerprint && t[2] == e.signature && t[3] == e.reason;
    assert t[4] == e.provider && t[5] == e.networkPrefix && t[6] == e.recipientCluster;
  }

  /** Counts are sound exactly when they are those of some numbers: of matched and unmatched sessions, of connections
      with and without evidence, and of malformed events and lines. */
  lemma SoundCountsExactlyWhen(c: Counts)
    ensures SoundCounts(c) <==> exists n: (nat, nat, nat, nat, nat, nat) :: CountsOf(c, n)
  {
    if SoundCounts(c) {
      var n: (nat, nat, nat, nat, nat, nat) := (c.matched, c.unmatched, c.connections - c.withoutEvidence,
                                                c.withoutEvidence, c.malformedEvents, c.malformedLines);
      assert CountsOf(c, n);
    }
  }

  predicate CountsOf(c: Counts, n: (nat, nat, nat, nat, nat, nat)) {
    c == Counts(n.2 + n.3, n.0 + n.1, n.0, n.1, n.3, n.4, n.5)
  }
}
