/** The content-free behaviour summary of an SMTP client (smtp_behavior.go): the tracker that builds
    it and the validator that checks it at the other end of the report. */
module SmtpBehavior {
  import opened Bytes
  import opened Text

  const VERSION := 1
  const MAX_VERBS := 12
  const SECOND := 1_000_000_000

  datatype Behavior = Behavior(
    version: int,
    fingerprint: string,
    preGreeting: string,
    firstVerb: string,
    lineEndings: string,
    firstCommandTiming: string,
    starttlsTiming: string,
    verbShape: string,
    verbOverflow: bool,
    starttlsOutcome: string)

  // ---------------------------------------------------------------------
  // Verbs.

  function UpperChar(c: char): char {
    if 'a' <= c <= 'z' then (c as int - 32) as char else c
  }

  function ToUpper(s: string): (u: string)
    ensures |u| == |s|
  {
    seq(|s|, i requires 0 <= i < |s| => UpperChar(s[i]))
  }

  predicate Transaction(verb: string) {
    || verb == "HELO" || verb == "EHLO" || verb == "MAIL" || verb == "RCPT" || verb == "DATA"
    || verb == "RSET" || verb == "NOOP" || verb == "QUIT" || verb == "BDAT" || verb == "STARTTLS"
  }

  predicate Known(verb: string) {
    || Transaction(verb)
    || verb == "VRFY" || verb == "EXPN" || verb == "HELP" || verb == "AUTH" || verb == "BURL"
    || verb == "ATRN" || verb == "ETRN" || verb == "XCLIENT" || verb == "XFORWARD"
  }

  function CanonicalVerb(verb: string): string {
    if Known(ToUpper(verb)) then ToUpper(verb) else "OTHER"
  }

  /** A verb of the closed vocabulary, as it is tracked and reported. */
  predicate Vocabulary(verb: string) {
    Known(verb) || verb == "OTHER"
  }

  predicate Capitals(s: string) {
    s != "" && forall i :: 0 <= i < |s| ==> 'A' <= s[i] <= 'Z'
  }

  lemma TransactionIsCapitals(verb: string)
    requires Transaction(verb)
    ensures Capitals(verb) && verb != "NONE"
  {
    assert Capitals("HELO") && Capitals("EHLO") && Capitals("MAIL") && Capitals("RCPT") && Capitals("DATA");
    assert Capitals("RSET") && Capitals("NOOP") && Capitals("QUIT") && Capitals("BDAT") && Capitals("STARTTLS");
  }

  lemma VocabularyIsCapitals(verb: string)
    requires Vocabulary(verb)
    ensures Capitals(verb) && verb != "NONE"
  {
    if Transaction(verb) {
      TransactionIsCapitals(verb);
    } else {
      assert Capitals("VRFY") && Capitals("EXPN") && Capitals("HELP") && Capitals("AUTH") && Capitals("BURL");
      assert Capitals("ATRN") && Capitals("ETRN") && Capitals("XCLIENT") && Capitals("XFORWARD") && Capitals("OTHER");
    }
  }

  lemma CapitalsStay(s: string)
    requires Capitals(s)
    ensures ToUpper(s) == s
  {
    assert forall i :: 0 <= i < |s| ==> UpperChar(s[i]) == s[i];
  }

  /** Canonical verbs are exactly the fixed points of the canonical form. */
  lemma CanonicalIsVocabulary(verb: string)
    ensures Vocabulary(CanonicalVerb(verb))
    ensures Vocabulary(verb) <==> CanonicalVerb(verb) == verb
  {
    if Vocabulary(verb) {
      VocabularyIsCapitals(verb);
      CapitalsStay(verb);
    }
  }

  // ---------------------------------------------------------------------
  // The tracker.

  /** What the tracker has seen. An absent time is a zero time. */
  datatype Tracked = Tracked(
    preGreeting: nat,
    firstVerb: string,
    verbs: seq<string>,
    verbOverflow: bool,
    sawCRLF: bool,
    sawLF: bool,
    firstCommandAt: Option<int>,
    starttlsCommandAt: Option<int>,
    starttlsOutcome: string)

  const FRESH := Tracked(0, "", [], false, false, false, None, None, "")

  predicate EndsInCRLF(raw: seq<byte>) {
    |raw| >= 2 && raw[|raw| - 2] == CR && raw[|raw| - 1] == LF
  }

  /** One more command line. */
  function Track(t: Tracked, raw: seq<byte>, verb: string, greeted: bool, at: int): Tracked {
    var v := CanonicalVerb(verb);
    var full := |t.verbs| >= MAX_VERBS;
    Tracked(
      if greeted then t.preGreeting else t.preGreeting + 1,
      if t.firstVerb == "" then v else t.firstVerb,
      if full then t.verbs else t.verbs + [v],
      t.verbOverflow || full,
      t.sawCRLF || EndsInCRLF(raw),
      t.sawLF || !EndsInCRLF(raw),
      if t.firstVerb == "" then Some(at) else t.firstCommandAt,
      if v == "STARTTLS" && t.starttlsCommandAt.None? then Some(at) else t.starttlsCommandAt,
      t.starttlsOutcome)
  }

  class BehaviorTracker {
    var preGreeting: nat
    var firstVerb: string
    var verbs: seq<string>
    var verbOverflow: bool
    var sawCRLF: bool
    var sawLF: bool
    var firstCommandAt: Option<int>
    var starttlsCommandAt: Option<int>
    var starttlsOutcome: string

    function Value(): Tracked
      reads this
    {
      Tracked(preGreeting, firstVerb, verbs, verbOverflow, sawCRLF, sawLF,
              firstCommandAt, starttlsCommandAt, starttlsOutcome)
    }

    constructor ()
      ensures Value() == FRESH
    {
      preGreeting, firstVerb, verbs, verbOverflow := 0, "", [], false;
      sawCRLF, sawLF := false, false;
      firstCommandAt, starttlsCommandAt, starttlsOutcome := None, None, "";
    }

    method Command(raw: seq<byte>, verb: string, greeted: bool, at: int)
      modifies this
      ensures Value() == Track(old(Value()), raw, verb, greeted, at)
    {
      if EndsInCRLF(raw) {
        sawCRLF := true;
      } else {
        sawLF := true;
      }
      var v := CanonicalVerb(verb);
      if firstVerb == "" {
        firstVerb := v;
        firstCommandAt := Some(at);
      }
      if !greeted {
        preGreeting := preGreeting + 1;
      }
      if |verbs| < MAX_VERBS {
        verbs := verbs + [v];
      } else {
        verbOverflow := true;
      }
      if v == "STARTTLS" && starttlsCommandAt.None? {
        starttlsCommandAt := Some(at);
      }
    }

    method Outcome(outcome: string)
      modifies this
      ensures Value() == old(Value()).(starttlsOutcome := outcome)
    {
      starttlsOutcome := outcome;
    }
  }

  // ---------------------------------------------------------------------
  // The summary.

  function CountBucket(n: nat): string {
    if n == 0 then "none" else if n == 1 then "one" else "many"
  }

  function LineEndings(t: Tracked): string {
    if t.sawCRLF && t.sawLF then "mixed"
    else if t.sawCRLF then "crlf"
    else if t.sawLF then "lf"
    else "none"
  }

  function TimingBucket(start: Option<int>, observed: Option<int>): string {
    if start.None? || observed.None? || observed.value < start.value then "unknown"
    else
      var elapsed := observed.value - start.value;
      if elapsed < SECOND then "under_1s"
      else if elapsed < 5 * SECOND then "1s_to_5s"
      else if elapsed < 30 * SECOND then "5s_to_30s"
      else "30s_or_more"
  }

  function IntText(n: int): string {
    if n < 0 then "-" + Decimal(-n) else Decimal(n)
  }

  function Fields(b: Behavior): seq<string> {
    ["v=" + IntText(b.version),
     "pre=" + b.preGreeting,
     "first=" + b.firstVerb,
     "eol=" + b.lineEndings,
     "first_timing=" + b.firstCommandTiming,
     "starttls_timing=" + b.starttlsTiming,
     "verbs=" + b.verbShape,
     "overflow=" + (if b.verbOverflow then "true" else "false"),
     "starttls=" + b.starttlsOutcome]
  }

  /** The text whose SHA-256 digest is the behaviour fingerprint. */
  function FingerprintText(b: Behavior): string {
    Join(Fields(b), '|')
  }

  function Snapshot(t: Tracked, start: Option<int>, incomplete: bool): Behavior {
    var shape := Join(t.verbs, '>');
    var b := Behavior(
      VERSION,
      "",
      CountBucket(t.preGreeting),
      if t.firstVerb == "" then "NONE" else t.firstVerb,
      LineEndings(t),
      TimingBucket(start, t.firstCommandAt),
      TimingBucket(start, t.starttlsCommandAt),
      if shape == "" then "NONE" else shape,
      t.verbOverflow,
      if t.starttlsOutcome == "" then if incomplete then "unknown" else "not_seen" else t.starttlsOutcome);
    b.(fingerprint := FingerprintText(b))
  }

  const PRE_GREETINGS := ["none", "one", "many"]
  const LINE_ENDINGS := ["none", "crlf", "lf", "mixed"]
  const TIMINGS := ["unknown", "under_1s", "1s_to_5s", "5s_to_30s", "30s_or_more"]
  const OUTCOMES := ["unknown", "not_seen", "refused", "accepted"]

  /** The validator of the consumer. */
  predicate ValidBehavior(behavior: Option<Behavior>) {
    && behavior.Some?
    && var b := behavior.value;
       && b.version == VERSION
       && b.preGreeting in PRE_GREETINGS
       && b.lineEndings in LINE_ENDINGS
       && b.firstCommandTiming in TIMINGS
       && b.starttlsTiming in TIMINGS
       && b.starttlsOutcome in OUTCOMES
       && (b.firstVerb == "NONE" || b.firstVerb == CanonicalVerb(b.firstVerb))
       && (if b.verbShape == "NONE" then b.firstVerb == "NONE" && !b.verbOverflow
           else ValidShape(b.verbShape, b.firstVerb))
       && b.fingerprint == FingerprintText(b)
  }

  predicate ValidShape(shape: string, first: string) {
    var verbs := Split(shape, '>');
    && |verbs| <= MAX_VERBS
    && verbs[0] == first
    && forall i :: 0 <= i < |verbs| ==> verbs[i] != "NONE" && verbs[i] == CanonicalVerb(verbs[i])
  }

  // ---------------------------------------------------------------------
  // The producer satisfies the validator.

  /** What every tracker keeps, whatever commands and outcomes it is given. */
  ghost predicate Consistent(t: Tracked) {
    && |t.verbs| <= MAX_VERBS
    && (forall i :: 0 <= i < |t.verbs| ==> Vocabulary(t.verbs[i]))
    && (t.verbs == [] <==> t.firstVerb == "")
    && (t.verbs != [] ==> t.firstVerb == t.verbs[0])
    && (t.verbOverflow ==> |t.verbs| == MAX_VERBS)
    && t.starttlsOutcome in ["", "accepted", "refused"]
  }

  lemma TrackKeepsConsistent(t: Tracked, raw: seq<byte>, verb: string, greeted: bool, at: int)
    requires Consistent(t)
    ensures Consistent(Track(t, raw, verb, greeted, at))
  {
    CanonicalIsVocabulary(verb);
    VocabularyIsCapitals(CanonicalVerb(verb));
  }

  lemma VocabularyIsFree(verbs: seq<string>, sep: char)
    requires forall i :: 0 <= i < |verbs| ==> Vocabulary(verbs[i])
    requires !('A' <= sep <= 'Z')
    ensures Free(verbs, sep) && NonEmpty(verbs)
  {
    forall i | 0 <= i < |verbs|
      ensures sep !in verbs[i] && verbs[i] != ""
    {
      VocabularyIsCapitals(verbs[i]);
    }
  }

  /** Split after join gives the verbs back, and each is canonical. */
  lemma ShapeIsValid(t: Tracked)
    requires Consistent(t) && t.verbs != []
    ensures Join(t.verbs, '>') != "NONE" && Join(t.verbs, '>') != ""
    ensures ValidShape(Join(t.verbs, '>'), t.firstVerb)
  {
    VocabularyIsFree(t.verbs, '>');
    SplitJoin(t.verbs, '>');
    JoinIsEmpty(t.verbs, '>');
    forall i | 0 <= i < |t.verbs|
      ensures t.verbs[i] != "NONE" && t.verbs[i] == CanonicalVerb(t.verbs[i])
    {
      VocabularyIsCapitals(t.verbs[i]);
      CanonicalIsVocabulary(t.verbs[i]);
    }
    assert Split("NONE", '>') == ["NONE"];
    assert t.verbs[0] != "NONE";
  }

  /** Whatever a tracker has seen, its summary passes the validator. */
  lemma SnapshotIsValid(t: Tracked, start: Option<int>, incomplete: bool)
    requires Consistent(t)
    ensures ValidBehavior(Some(Snapshot(t, start, incomplete)))
  {
    var b := Snapshot(t, start, incomplete);
    BucketsAreListed(t, start);
    assert Fields(b) == Fields(b.(fingerprint := ""));
    if t.verbs != [] {
      ShapeIsValid(t);
      VocabularyIsCapitals(t.firstVerb);
      CanonicalIsVocabulary(t.firstVerb);
    }
  }

  lemma BucketsAreListed(t: Tracked, start: Option<int>)
    ensures CountBucket(t.preGreeting) in PRE_GREETINGS
    ensures LineEndings(t) in LINE_ENDINGS
    ensures TimingBucket(start, t.firstCommandAt) in TIMINGS
    ensures TimingBucket(start, t.starttlsCommandAt) in TIMINGS
  {
  }

  // ---------------------------------------------------------------------
  // The fingerprint text loses nothing.

  lemma ShapeIsFree(shape: string, first: string)
    requires ValidShape(shape, first)
    ensures '|' !in shape
  {
    var verbs := Split(shape, '>');
    forall i | 0 <= i < |verbs|
      ensures '|' !in verbs[i]
    {
      CanonicalIsVocabulary(verbs[i]);
      VocabularyIsCapitals(verbs[i]);
    }
    SplitCovers(shape, '>', '|');
  }

  /** A character of a text is the separator or lies in one of its parts. */
  lemma {:induction false} SplitCovers(s: string, sep: char, c: char)
    requires c != sep && Free(Split(s, sep), c)
    ensures c !in s
    decreases |s|
  {
    if sep in s {
      var i := First(s, sep);
      var parts := Split(s, sep);
      assert parts[0] == s[..i] && parts[1..] == Split(s[i + 1..], sep);
      assert forall k :: 0 <= k < |parts[1..]| ==> parts[1..][k] == parts[k + 1];
      SplitCovers(s[i + 1..], sep, c);
      assert s == s[..i] + [sep] + s[i + 1..];
    } else {
      assert Split(s, sep)[0] == s;
    }
  }

  lemma FreeWords(words: seq<string>, word: string, tag: string)
    requires word in words && Free(words, '|') && '|' !in tag
    ensures '|' !in tag + word
  {
  }

  lemma WordsAreFree()
    ensures Free(PRE_GREETINGS, '|') && Free(LINE_ENDINGS, '|') && Free(TIMINGS, '|') && Free(OUTCOMES, '|')
  {
  }

  lemma BucketsAreFree(b: Behavior)
    requires ValidBehavior(Some(b))
    ensures '|' !in "pre=" + b.preGreeting && '|' !in "eol=" + b.lineEndings
    ensures '|' !in "first_timing=" + b.firstCommandTiming && '|' !in "starttls_timing=" + b.starttlsTiming
    ensures '|' !in "starttls=" + b.starttlsOutcome
  {
    WordsAreFree();
    FreeWords(PRE_GREETINGS, b.preGreeting, "pre=");
    FreeWords(LINE_ENDINGS, b.lineEndings, "eol=");
    FreeWords(TIMINGS, b.firstCommandTiming, "first_timing=");
    FreeWords(TIMINGS, b.starttlsTiming, "starttls_timing=");
    FreeWords(OUTCOMES, b.starttlsOutcome, "starttls=");
  }

  lemma FieldsAreFree(b: Behavior)
    requires ValidBehavior(Some(b))
    ensures Free(Fields(b), '|')
  {
    BucketsAreFree(b);
    VerbsAreFree(b);
  }

  lemma VerbsAreFree(b: Behavior)
    requires ValidBehavior(Some(b))
    ensures '|' !in b.firstVerb && '|' !in b.verbShape && '|' !in IntText(b.version)
  {
    if b.verbShape != "NONE" {
      ShapeIsFree(b.verbShape, b.firstVerb);
    }
    if b.firstVerb != "NONE" {
      CanonicalIsVocabulary(b.firstVerb);
      VocabularyIsCapitals(b.firstVerb);
    }
  }

  lemma SamePrefix(p: string, a: string, b: string)
    requires p + a == p + b
    ensures a == b
  {
    assert (p + a)[|p|..] == a && (p + b)[|p|..] == b;
  }

  /** Behaviours with the same fingerprint text are the same behaviour. */
  lemma FingerprintDeterminesBehavior(a: Behavior, b: Behavior)
    requires ValidBehavior(Some(a)) && ValidBehavior(Some(b))
    ensures a.fingerprint == b.fingerprint <==> a == b
  {
    if a.fingerprint == b.fingerprint {
      var p, q := Fields(a), Fields(b);
      FieldsAreFree(a);
      FieldsAreFree(b);
      SplitJoin(p, '|');
      SplitJoin(q, '|');
      assert p == q;
      assert p[1] == q[1] && p[2] == q[2] && p[3] == q[3] && p[4] == q[4];
      assert p[5] == q[5] && p[6] == q[6] && p[7] == q[7] && p[8] == q[8];
      SamePrefix("pre=", a.preGreeting, b.preGreeting);
      SamePrefix("first=", a.firstVerb, b.firstVerb);
      SamePrefix("eol=", a.lineEndings, b.lineEndings);
      SamePrefix("first_timing=", a.firstCommandTiming, b.firstCommandTiming);
      SamePrefix("starttls_timing=", a.starttlsTiming, b.starttlsTiming);
      SamePrefix("verbs=", a.verbShape, b.verbShape);
      SamePrefix("overflow=", if a.verbOverflow then "true" else "false", if b.verbOverflow then "true" else "false");
      SamePrefix("starttls=", a.starttlsOutcome, b.starttlsOutcome);
    }
  }
}
