/** What a behaviour summary says about the commands that a client sent. */
module BehaviorSummary {
  import opened Bytes
  import opened SmtpBehavior
  import opened Text

  /** A command line: its bytes, its first word, whether the server had greeted, and the time. */
  datatype Said = Said(raw: seq<byte>, verb: string, greeted: bool, at: int)

  /** A tracker after some commands. */
  function Tracks(t: Tracked, said: seq<Said>): Tracked {
    if said == [] then t
    else
      var last := said[|said| - 1];
      Track(Tracks(t, said[..|said| - 1]), last.raw, last.verb, last.greeted, last.at)
  }

  // ---------------------------------------------------------------------
  // What the summary should say.

  const VERBS := ["HELO", "EHLO", "MAIL", "RCPT", "DATA", "RSET", "VRFY", "EXPN", "HELP", "NOOP", "QUIT", "STARTTLS",
                  "AUTH", "BDAT", "BURL", "ATRN", "ETRN", "XCLIENT", "XFORWARD"]

  predicate InCapitals(name: string, verb: string) {
    && |name| == |verb|
    && forall i :: 0 <= i < |verb| ==>
         name[i] == if 'a' <= verb[i] <= 'z' then (verb[i] as int - 32) as char else verb[i]
  }

  /** The name of a verb in the summary: the verb in capitals if it is one of the nineteen, and OTHER if not. */
  ghost predicate Names(name: string, verb: string) {
    (name in VERBS && InCapitals(name, verb)) || (name == "OTHER" && forall v :: v in VERBS ==> !InCapitals(v, verb))
  }

  /** Which commands came before the greeting. */
  ghost function Early(said: seq<Said>): set<int> {
    set i | 0 <= i < |said| && !said[i].greeted
  }

  /** None, one or many as no, one or more commands came before the greeting. */
  ghost predicate CountsEarly(word: string, said: seq<Said>) {
    && (word == "none" <==> |Early(said)| == 0)
    && (word == "one" <==> |Early(said)| == 1)
    && (word == "many" <==> |Early(said)| > 1)
  }

  predicate WithCRLF(said: seq<Said>, i: int) {
    && 0 <= i < |said| && |said[i].raw| >= 2
    && said[i].raw[|said[i].raw| - 2] == 13 && said[i].raw[|said[i].raw| - 1] == 10
  }

  predicate WithoutCRLF(said: seq<Said>, i: int) {
    0 <= i < |said| && !WithCRLF(said, i)
  }

  ghost predicate SomeCRLF(said: seq<Said>) {
    exists i :: WithCRLF(said, i)
  }

  ghost predicate SomeLF(said: seq<Said>) {
    exists i :: WithoutCRLF(said, i)
  }

  ghost predicate ShowsEndings(word: string, said: seq<Said>) {
    && (word == "mixed" <==> SomeCRLF(said) && SomeLF(said))
    && (word == "crlf" <==> SomeCRLF(said) && !SomeLF(said))
    && (word == "lf" <==> !SomeCRLF(said) && SomeLF(said))
    && (word == "none" <==> !SomeCRLF(said) && !SomeLF(said))
  }

  /** How long after the start something happened. */
  predicate Times(word: string, start: Option<int>, at: Option<int>) {
    if start.None? || at.None? || at.value < start.value then word == "unknown"
    else
      var seconds := (at.value - start.value) / 1_000_000_000;
      && (word == "under_1s" <==> seconds == 0)
      && (word == "1s_to_5s" <==> 1 <= seconds < 5)
      && (word == "5s_to_30s" <==> 5 <= seconds < 30)
      && (word == "30s_or_more" <==> 30 <= seconds)
  }

  predicate IsStarttls(said: seq<Said>, i: int) {
    0 <= i < |said| && InCapitals("STARTTLS", said[i].verb)
  }

  /** The time of the first STARTTLS command. */
  ghost predicate FirstStarttls(at: Option<int>, said: seq<Said>) {
    if at.None? then forall i :: !IsStarttls(said, i)
    else exists i :: IsStarttls(said, i) && said[i].at == at.value && forall j :: IsStarttls(said, j) ==> i <= j
  }

  /** The verbs of the first twelve commands, in order. */
  ghost predicate ShowsVerbs(shape: string, said: seq<Said>) {
    if said == [] then shape == "NONE"
    else
      var parts := Split(shape, '>');
      |parts| == Min(|said|, 12) && forall i :: 0 <= i < |parts| ==> Names(parts[i], said[i].verb)
  }

  /** The summary of the commands, but for the outcome of STARTTLS. */
  ghost predicate Summarizes(b: Behavior, said: seq<Said>, start: Option<int>) {
    && b.version == 1
    && CountsEarly(b.preGreeting, said)
    && (if said == [] then b.firstVerb == "NONE" else Names(b.firstVerb, said[0].verb))
    && ShowsEndings(b.lineEndings, said)
    && Times(b.firstCommandTiming, start, if said == [] then None else Some(said[0].at))
    && (exists at :: FirstStarttls(at, said) && Times(b.starttlsTiming, start, at))
    && ShowsVerbs(b.verbShape, said)
    && (b.verbOverflow <==> |said| > 12)
  }

  // ---------------------------------------------------------------------
  // Verbs.

  lemma ToUpperIsCapitals(verb: string)
    ensures InCapitals(ToUpper(verb), verb)
  {
  }

  lemma OneCapitals(a: string, b: string, verb: string)
    requires InCapitals(a, verb) && InCapitals(b, verb)
    ensures a == b
  {
  }

  lemma KnownIsListed(verb: string)
    ensures Known(verb) <==> verb in VERBS
  {
  }

  lemma OtherIsUnlisted()
    ensures "OTHER" !in VERBS
  {
    assert !Known("OTHER") by {
      assert "OTHER"[0] == 'O';
    }
    KnownIsListed("OTHER");
  }

  lemma CanonicalNames(verb: string)
    ensures Names(CanonicalVerb(verb), verb)
    ensures CanonicalVerb(verb) == "STARTTLS" <==> InCapitals("STARTTLS", verb)
  {
    ToUpperIsCapitals(verb);
    KnownIsListed(ToUpper(verb));
    forall v | v in VERBS && InCapitals(v, verb)
      ensures v == ToUpper(verb)
    {
      OneCapitals(v, ToUpper(verb), verb);
    }
    if InCapitals("STARTTLS", verb) {
      OneCapitals("STARTTLS", ToUpper(verb), verb);
    }
  }

  // ---------------------------------------------------------------------
  // The tracker.

  lemma EarlySnoc(said: seq<Said>, s: Said)
    ensures Early(said + [s]) == Early(said) + (if s.greeted then {} else {|said|})
    ensures |Early(said + [s])| == |Early(said)| + (if s.greeted then 0 else 1)
  {
    assert |said| !in Early(said);
  }

  /** The last command, and the tracker before it. */
  lemma LastSaid(said: seq<Said>) returns (before: seq<Said>, last: Said)
    requires said != []
    ensures said == before + [last] && |before| == |said| - 1
    ensures Tracks(FRESH, said) == Track(Tracks(FRESH, before), last.raw, last.verb, last.greeted, last.at)
  {
    before, last := said[..|said| - 1], said[|said| - 1];
    PrefixNext(said, |said| - 1);
    PrefixAll(said);
  }

  lemma {:induction false} TracksEarly(said: seq<Said>)
    ensures Tracks(FRESH, said).preGreeting == |Early(said)| && Tracks(FRESH, said).starttlsOutcome == ""
    decreases |said|
  {
    if said != [] {
      var before, last := LastSaid(said);
      TracksEarly(before);
      EarlySnoc(before, last);
    }
  }

  /** The first command. */
  lemma {:induction false} TracksFirst(said: seq<Said>)
    ensures var t := Tracks(FRESH, said);
            if said == [] then t.firstVerb == "" && t.firstCommandAt == None
            else t.firstVerb == CanonicalVerb(said[0].verb) && t.firstCommandAt == Some(said[0].at)
    decreases |said|
  {
    if |said| > 1 {
      TracksFirst(said[..|said| - 1]);
      CanonicalIsVocabulary(said[0].verb);
      VocabularyIsCapitals(CanonicalVerb(said[0].verb));
    } else if said != [] {
      assert Tracks(FRESH, said[..0]) == FRESH;
    }
  }

  /** The verb list grows by one, up to twelve. */
  lemma OneMoreVerb(t: Tracked, s: Said)
    ensures var r := Track(t, s.raw, s.verb, s.greeted, s.at);
            if |t.verbs| >= 12 then r.verbs == t.verbs && r.verbOverflow
            else r.verbs == t.verbs + [CanonicalVerb(s.verb)] && r.verbOverflow == t.verbOverflow
  {
  }

  function VerbNames(said: seq<Said>): (names: seq<string>)
    ensures |names| == |said| && forall i :: 0 <= i < |said| ==> names[i] == CanonicalVerb(said[i].verb)
  {
    seq(|said|, i requires 0 <= i < |said| => CanonicalVerb(said[i].verb))
  }

  lemma VerbNamesSnoc(before: seq<Said>, last: Said)
    ensures VerbNames(before + [last]) == VerbNames(before) + [CanonicalVerb(last.verb)]
    ensures |before| < 12 ==> VerbNames(before + [last])[..Min(|before| + 1, 12)] ==
                              VerbNames(before)[..Min(|before|, 12)] + [CanonicalVerb(last.verb)]
    ensures |before| >= 12 ==> VerbNames(before + [last])[..12] == VerbNames(before)[..12]
  {
  }

  /** The verbs. */
  lemma {:induction false} TracksVerbs(said: seq<Said>)
    ensures Tracks(FRESH, said).verbs == VerbNames(said)[..Min(|said|, 12)]
    ensures Tracks(FRESH, said).verbOverflow <==> |said| > 12
    decreases |said|
  {
    if said != [] {
      var before, last := LastSaid(said);
      TracksVerbs(before);
      OneMoreVerb(Tracks(FRESH, before), last);
      VerbNamesSnoc(before, last);
    }
  }

  lemma CRLFSnoc(said: seq<Said>, s: Said)
    ensures SomeCRLF(said + [s]) <==> SomeCRLF(said) || EndsInCRLF(s.raw)
    ensures SomeLF(said + [s]) <==> SomeLF(said) || !EndsInCRLF(s.raw)
  {
    assert forall i :: WithCRLF(said + [s], i) <==> WithCRLF(said, i) || (i == |said| && EndsInCRLF(s.raw));
    assert forall i :: WithoutCRLF(said + [s], i) <==> WithoutCRLF(said, i) || (i == |said| && !EndsInCRLF(s.raw));
    assert WithCRLF(said + [s], |said|) <==> EndsInCRLF(s.raw);
    assert SomeCRLF(said) ==> SomeCRLF(said + [s]);
    assert SomeLF(said) ==> SomeLF(said + [s]);
    assert WithoutCRLF(said + [s], |said|) <==> !EndsInCRLF(s.raw);
  }

  /** The line endings. */
  lemma {:induction false} TracksEndings(said: seq<Said>)
    ensures Tracks(FRESH, said).sawCRLF <==> SomeCRLF(said)
    ensures Tracks(FRESH, said).sawLF <==> SomeLF(said)
    decreases |said|
  {
    if said != [] {
      var before, last := LastSaid(said);
      TracksEndings(before);
      CRLFSnoc(before, last);
    }
  }

  lemma StarttlsSnoc(said: seq<Said>, s: Said)
    ensures forall i :: IsStarttls(said + [s], i) <==>
                        IsStarttls(said, i) || (i == |said| && InCapitals("STARTTLS", s.verb))
  {
  }

  /** The first STARTTLS. */
  lemma {:induction false} TracksStarttls(said: seq<Said>)
    ensures FirstStarttls(Tracks(FRESH, said).starttlsCommandAt, said)
    decreases |said|
  {
    if said != [] {
      var before, last := LastSaid(said);
      TracksStarttls(before);
      StarttlsSnoc(before, last);
      CanonicalNames(last.verb);
    }
  }

  // ---------------------------------------------------------------------
  // The summary.

  lemma CountBucketMeans(n: nat)
    ensures CountBucket(n) == "none" <==> n == 0
    ensures CountBucket(n) == "one" <==> n == 1
    ensures CountBucket(n) == "many" <==> n >= 2
  {
  }

  lemma EndingsShow(t: Tracked, said: seq<Said>)
    requires (t.sawCRLF <==> SomeCRLF(said)) && (t.sawLF <==> SomeLF(said))
    ensures ShowsEndings(LineEndings(t), said)
  {
  }

  lemma BucketTimes(start: Option<int>, at: Option<int>)
    ensures Times(TimingBucket(start, at), start, at)
  {
  }

  lemma ShapeShows(verbs: seq<string>, said: seq<Said>)
    requires said != [] && |verbs| == Min(|said|, 12)
    requires forall i :: 0 <= i < |verbs| ==> verbs[i] == CanonicalVerb(said[i].verb)
    ensures Join(verbs, '>') != "" && ShowsVerbs(Join(verbs, '>'), said)
  {
    forall i | 0 <= i < |verbs|
      ensures Vocabulary(verbs[i]) && Names(verbs[i], said[i].verb)
    {
      CanonicalIsVocabulary(said[i].verb);
      CanonicalNames(said[i].verb);
    }
    VocabularyIsFree(verbs, '>');
    SplitJoin(verbs, '>');
    JoinIsEmpty(verbs, '>');
  }

  /** The early commands and the line endings. */
  lemma CountsAreShown(said: seq<Said>)
    ensures CountsEarly(CountBucket(Tracks(FRESH, said).preGreeting), said)
    ensures ShowsEndings(LineEndings(Tracks(FRESH, said)), said)
  {
    TracksEarly(said);
    CountBucketMeans(|Early(said)|);
    TracksEndings(said);
    EndingsShow(Tracks(FRESH, said), said);
  }

  lemma FirstVerbIsShown(said: seq<Said>)
    ensures var t := Tracks(FRESH, said);
            if said == [] then t.firstVerb == "" else t.firstVerb != "" && Names(t.firstVerb, said[0].verb)
  {
    TracksFirst(said);
    if said != [] {
      CanonicalNames(said[0].verb);
      CanonicalIsVocabulary(said[0].verb);
      VocabularyIsCapitals(CanonicalVerb(said[0].verb));
    }
  }

  /** The verbs and the overflow. */
  lemma VerbsAreShown(said: seq<Said>)
    ensures var t := Tracks(FRESH, said);
            && (if said == [] then t.verbs == [] else Join(t.verbs, '>') != "" && ShowsVerbs(Join(t.verbs, '>'), said))
            && (t.verbOverflow <==> |said| > 12)
  {
    TracksVerbs(said);
    if said != [] {
      NamesShow(said);
    }
  }

  lemma NamesShow(said: seq<Said>)
    requires said != []
    ensures var verbs := VerbNames(said)[..Min(|said|, 12)];
            Join(verbs, '>') != "" && ShowsVerbs(Join(verbs, '>'), said)
  {
    ShapeShows(VerbNames(said)[..Min(|said|, 12)], said);
  }

  /** The summary of a tracker says what the commands were, whatever the outcome of STARTTLS is set to. */
  lemma SummaryMeans(said: seq<Said>, outcome: string, start: Option<int>, incomplete: bool)
    ensures var b := Snapshot(Tracks(FRESH, said).(starttlsOutcome := outcome), start, incomplete);
            && Summarizes(b, said, start)
            && b.starttlsOutcome == (if outcome != "" then outcome else if incomplete then "unknown" else "not_seen")
  {
    var t := Tracks(FRESH, said);
    CountsAreShown(said);
    FirstVerbIsShown(said);
    VerbsAreShown(said);
    TracksFirst(said);
    TracksStarttls(said);
    BucketTimes(start, t.firstCommandAt);
    BucketTimes(start, t.starttlsCommandAt);
    assert Join([], '>') == "";
    assert LineEndings(t.(starttlsOutcome := outcome)) == LineEndings(t);
  }
}
