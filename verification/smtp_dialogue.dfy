/** The observer against the dialogue that the two parties mean: whatever a compliant client and
    server say, however their bytes interleave and are cut, the observer's queue holds exactly the
    unanswered commands, and only an accepted STARTTLS arms it. */
module SmtpDialogue {
  import opened Bytes
  import opened SmtpLines
  import opened SmtpObserver
  import opened SmtpChunks
  import SmtpBehavior
  import SmtpEvent

  /** The lines that are kept short of half the buffer, as the pump's chunks are; section 4.5.3.1
      of RFC 5321 asks for far less. */
  const MAX_LINE := 32 * 1024

  const DOT: byte := 46
  const DASH: byte := 45
  const SP: byte := 32

  // ---------------------------------------------------------------------
  // What is said.

  /** What a client sends as one piece: a command line, with the verb that is meant, a BDAT command with its payload
      (section 2 of RFC 3030), or the lines of a message after DATA. */
  datatype Unit =
    | Command(verb: string, text: seq<byte>)
    | Chunk(text: seq<byte>, payload: seq<byte>)
    | Body(lines: seq<seq<byte>>)

  /** A reply: its code, the texts of its continuation lines, and what follows the code on its final
      line (section 4.2.1 of RFC 5321). */
  datatype Answer = Answer(code: seq<byte>, more: seq<seq<byte>>, text: seq<byte>)

  predicate Plain(line: seq<byte>) {
    LF !in line && CR !in line
  }

  predicate Visible(b: byte) {
    33 <= b <= 126
  }

  function VerbOf(text: seq<byte>): string {
    var words := Words(Chars(text));
    if words == [] then "" else SmtpBehavior.CanonicalVerb(words[0])
  }

  /** A command line starts with a verb; the line that answers a challenge, after AUTH and a 334 reply, with a letter, a
      digit or a sign. The observer takes it for a command too, and its reply for the reply to it. */
  predicate CommandText(text: seq<byte>) {
    Plain(text) && 0 < |text| < MAX_LINE - 2 && Visible(text[0])
  }

  predicate GoodUnit(u: Unit) {
    match u
    case Command(verb, text) => CommandText(text) && VerbOf(text) == verb && verb != "BDAT"
    case Chunk(text, payload) =>
      && CommandText(text) && VerbOf(text) == "BDAT"
      && PayloadSize(Words(Chars(text))) == Some(|payload|)
    case Body(lines) => forall i :: 0 <= i < |lines| ==> LF !in lines[i] && |lines[i]| < MAX_LINE - 3
  }

  predicate GoodAnswer(a: Answer) {
    && |a.code| == 3 && (forall i :: 0 <= i < 3 ==> 48 <= a.code[i] <= 57)
    && (forall i :: 0 <= i < |a.more| ==> Plain(a.more[i]) && |a.more[i]| < MAX_LINE - 6)
    && Plain(a.text) && |a.text| < MAX_LINE - 5 && (a.text == [] || a.text[0] == SP)
  }

  /** Section 4.5.2 of RFC 5321: a line that starts with a dot gets another one. */
  function Stuff(line: seq<byte>): seq<byte> {
    if line != [] && line[0] == DOT then [DOT] + line else line
  }

  function StuffAll(lines: seq<seq<byte>>): (r: seq<seq<byte>>)
    ensures |r| == |lines|
  {
    seq(|lines|, i requires 0 <= i < |lines| => Stuff(lines[i]))
  }

  function Lines(u: Unit): seq<seq<byte>> {
    match u
    case Command(_, text) => [text]
    case Chunk(text, _) => [text]
    case Body(lines) => StuffAll(lines) + [[DOT]]
  }

  function ReplyLines(a: Answer): seq<seq<byte>> {
    seq(|a.more|, i requires 0 <= i < |a.more| => a.code + [DASH] + a.more[i]) + [a.code + a.text]
  }

  /** Lines on the wire, each with its line end. */
  function WireLines(lines: seq<seq<byte>>): seq<byte> {
    if lines == [] then [] else lines[0] + [CR, LF] + WireLines(lines[1..])
  }

  function Head(u: Unit): seq<byte> {
    WireLines(Lines(u))
  }

  function Wire(u: Unit): seq<byte> {
    Head(u) + if u.Chunk? then u.payload else []
  }

  function WireReply(a: Answer): seq<byte> {
    WireLines(ReplyLines(a))
  }

  /** What waits for a reply: the verb of a command, or the end of a message. */
  function Verb(u: Unit): string {
    match u
    case Command(verb, _) => verb
    case Chunk(_, _) => "BDAT"
    case Body(_) => "."
  }

  // ---------------------------------------------------------------------
  // Who may say what, and when.

  /** A dialogue so far: what is said completely, and what is under way on each side. */
  datatype Talk = Talk(
    sent: seq<Unit>,
    saying: Option<Unit>,
    said: nat,
    replies: seq<Answer>,
    replying: Option<Answer>,
    replied: nat)

  const SILENCE := Talk([], None, 0, [], None, 0)

  /** How many units are answered; the first reply is the greeting. */
  function Answered(t: Talk): nat {
    if t.replies == [] then 0 else |t.replies| - 1
  }

  predicate IsData(u: Unit) {
    u.Command? && Verb(u) == "DATA"
  }

  /** The server waits for the message of the last DATA command. */
  predicate DataOpen(t: Talk) {
    && t.sent != [] && IsData(t.sent[|t.sent| - 1])
    && Answered(t) == |t.sent| && Chars(t.replies[|t.sent|].code) == "354"
  }

  /** Some STARTTLS command has its own final reply, and that reply accepts. */
  ghost predicate Accepted(t: Talk) {
    exists i :: 0 <= i < Answered(t) && i < |t.sent| && Verb(t.sent[i]) == "STARTTLS" &&
                Chars(t.replies[i + 1].code) == "220"
  }

  /** Some STARTTLS command has its own final reply, and that reply does not accept. */
  ghost predicate Refused(t: Talk) {
    exists i :: 0 <= i < Answered(t) && i < |t.sent| && Verb(t.sent[i]) == "STARTTLS" &&
                Chars(t.replies[i + 1].code) != "220"
  }

  /** One of the first `n` units is a STARTTLS command whose own final reply accepts. */
  predicate Upgraded(t: Talk, n: nat) {
    && 0 < n <= |t.sent| && n < |t.replies|
    && (Upgraded(t, n - 1) || (Verb(t.sent[n - 1]) == "STARTTLS" && Chars(t.replies[n].code) == "220"))
  }

  /** One of the first `n` units is a STARTTLS command whose own final reply does not accept. */
  predicate Declined(t: Talk, n: nat) {
    && 0 < n <= |t.sent| && n < |t.replies|
    && (Declined(t, n - 1) || (Verb(t.sent[n - 1]) == "STARTTLS" && Chars(t.replies[n].code) != "220"))
  }

  lemma {:induction false} OutcomesExist(t: Talk, n: nat)
    requires n <= |t.sent| && (n == 0 || n < |t.replies|)
    ensures Upgraded(t, n) <==>
            exists i :: 0 <= i < n && Verb(t.sent[i]) == "STARTTLS" && Chars(t.replies[i + 1].code) == "220"
    ensures Declined(t, n) <==>
            exists i :: 0 <= i < n && Verb(t.sent[i]) == "STARTTLS" && Chars(t.replies[i + 1].code) != "220"
    decreases n
  {
    if n > 0 {
      OutcomesExist(t, n - 1);
    }
  }

  /** The step by step outcomes are the declared ones. */
  lemma OutcomesAgree(t: Talk)
    requires Answered(t) <= |t.sent|
    ensures Upgraded(t, Answered(t)) <==> Accepted(t)
    ensures Declined(t, Answered(t)) <==> Refused(t)
  {
    OutcomesExist(t, Answered(t));
  }

  datatype Act =
    | BeginUnit(u: Unit)
    | ClientSends(at: int)
    | BeginReply(a: Answer)
    | ServerSends(at: int)

  /** The rules: a message only after the 354 of its DATA command, and then nothing else; nothing
      after DATA before its reply (section 3.1 of RFC 2920); a reply only to a unit that was sent
      completely; a bounded number of unanswered commands; and TLS after an accepted STARTTLS. */
  ghost predicate Allowed(t: Talk, act: Act) {
    && !Accepted(t)
    && match act
       case BeginUnit(u) =>
         && t.saying.None? && GoodUnit(u)
         && |t.sent| - Answered(t) < MAX_COMMANDS
         && (u.Body? <==> DataOpen(t))
         && (t.sent != [] && IsData(t.sent[|t.sent| - 1]) ==> Answered(t) == |t.sent|)
       case ClientSends(_) => t.saying.Some?
       case BeginReply(a) => t.replying.None? && GoodAnswer(a) && (t.replies == [] || Answered(t) < |t.sent|)
       case ServerSends(_) => t.replying.Some?
  }

  function Next(t: Talk, act: Act): Talk {
    match act
    case BeginUnit(u) => t.(saying := Some(u), said := 0)
    case BeginReply(a) => t.(replying := Some(a), replied := 0)
    case ClientSends(_) =>
      if t.saying.None? then t
      else if t.said + 1 < |Wire(t.saying.value)| then t.(said := t.said + 1)
      else t.(sent := t.sent + [t.saying.value], saying := None, said := 0)
    case ServerSends(_) =>
      if t.replying.None? then t
      else if t.replied + 1 < |WireReply(t.replying.value)| then t.(replied := t.replied + 1)
      else t.(replies := t.replies + [t.replying.value], replying := None, replied := 0)
  }

  /** The byte that an act puts on the wire. */
  function Sound(t: Talk, act: Act): seq<Arrival> {
    match act
    case ClientSends(at) =>
      if t.saying.Some? && t.said < |Wire(t.saying.value)|
      then [Arrival(true, Wire(t.saying.value)[t.said], at)] else []
    case ServerSends(at) =>
      if t.replying.Some? && t.replied < |WireReply(t.replying.value)|
      then [Arrival(false, WireReply(t.replying.value)[t.replied], at)] else []
    case _ => []
  }

  ghost predicate AllowedRun(t: Talk, acts: seq<Act>)
    decreases |acts|
  {
    acts == [] || (Allowed(t, acts[0]) && AllowedRun(Next(t, acts[0]), acts[1..]))
  }

  function After(t: Talk, acts: seq<Act>): Talk
    decreases |acts|
  {
    if acts == [] then t else After(Next(t, acts[0]), acts[1..])
  }

  function Heard(t: Talk, acts: seq<Act>): seq<Arrival>
    decreases |acts|
  {
    if acts == [] then [] else Sound(t, acts[0]) + Heard(Next(t, acts[0]), acts[1..])
  }

  // ---------------------------------------------------------------------
  // What the observer should know.

  function Verbs(units: seq<Unit>): (r: seq<string>)
    ensures |r| == |units|
  {
    seq(|units|, i requires 0 <= i < |units| => Verb(units[i]))
  }

  /** The BDAT command whose payload is under way. */
  predicate InPayload(t: Talk) {
    t.saying.Some? && t.saying.value.Chunk? && t.said >= |Head(t.saying.value)|
  }

  /** The commands that wait for a reply, oldest first. */
  function Unanswered(t: Talk): seq<string>
    requires Answered(t) <= |t.sent|
  {
    Verbs(t.sent)[Answered(t)..] + if InPayload(t) then ["BDAT"] else []
  }

  /** The bytes after the last line feed. */
  function Tail(s: seq<byte>): (r: seq<byte>)
    ensures |r| <= |s| && LF !in r
  {
    if s == [] || s[|s| - 1] == LF then [] else Tail(s[..|s| - 1]) + [s[|s| - 1]]
  }

  function ClientPart(t: Talk): seq<byte> {
    if t.saying.Some? && t.said < |Head(t.saying.value)| then Tail(Head(t.saying.value)[..t.said]) else []
  }

  function ServerPart(t: Talk): seq<byte> {
    if t.replying.Some? && t.replied <= |WireReply(t.replying.value)|
    then Tail(WireReply(t.replying.value)[..t.replied]) else []
  }

  /** Everything that is said is well-formed. */
  ghost predicate GoodTalk(t: Talk) {
    && (forall i :: 0 <= i < |t.sent| ==> GoodUnit(t.sent[i]))
    && (t.saying.Some? ==> GoodUnit(t.saying.value))
    && (t.replying.Some? ==> GoodAnswer(t.replying.value))
  }

  /** The positions, the counts and the rules for DATA. */
  ghost predicate Ok(t: Talk) {
    && Answered(t) <= |t.sent|
    && (t.saying.Some? ==>
      && t.said < |Wire(t.saying.value)|
      && |t.sent| - Answered(t) < MAX_COMMANDS
      && (t.saying.value.Body? <==> DataOpen(t)))
    && (t.replying.Some? ==>
      && t.replied < |WireReply(t.replying.value)|
      && (t.replies == [] || Answered(t) < |t.sent|))
    && (forall i :: Answered(t) <= i < |t.sent| && IsData(t.sent[i]) ==> i == |t.sent| - 1 && t.saying.None?)
  }

  /** The observer knows the dialogue. */
  ghost predicate Faithful(o: State, t: Talk)
    requires Answered(t) <= |t.sent|
  {
    && Reading(o)
    && o.flags.greeted == (t.replies != [])
    && o.commands == Unanswered(t)
    && o.flags.inData == DataOpen(t)
    && o.bdatRemaining == (if InPayload(t) then |Wire(t.saying.value)| - t.said else 0)
    && o.clientLines == ClientPart(t)
    && o.serverLines == ServerPart(t)
    && o.tlsBytes == []
    && o.flags.refused == Declined(t, Answered(t))
  }

  /** What the observer knows at any moment of a dialogue. */
  ghost predicate Knows(o: State, t: Talk) {
    Ok(t) && GoodTalk(t) && if Upgraded(t, Answered(t)) then Armed(o) else Faithful(o, t)
  }

  /** The observer has seen the upgrade accepted and waits for the first TLS byte. */
  predicate Armed(o: State) {
    && o.flags.tlsArmed && !o.flags.disabled && !o.flags.fingerprinted
    && o.clientLines == [] && o.serverLines == [] && o.tlsBytes == []
  }

  /** What the observer should report if the connection ended here. */
  ghost function Report(t: Talk): string {
    if Accepted(t) then "starttls_accepted_no_fingerprint"
    else if Refused(t) then "starttls_refused"
    else if t.replies == [] || ClientPart(t) != [] || ServerPart(t) != [] then "observer_incomplete"
    else "no_observed_upgrade"
  }

  // ---------------------------------------------------------------------
  // Lines on the wire.

  lemma TailSnoc(s: seq<byte>, b: byte)
    ensures Tail(s + [b]) == if b == LF then [] else Tail(s) + [b]
  {
    PrefixOfSnoc(s, b);
  }

  lemma {:induction false} TailAfterLine(p: seq<byte>, s: seq<byte>)
    requires p != [] && p[|p| - 1] == LF
    ensures Tail(p + s) == Tail(s)
    decreases |s|
  {
    if s == [] {
      assert p + s == p;
    } else {
      var last := |s| - 1;
      assert (p + s)[..|p + s| - 1] == p + s[..last];
      TailAfterLine(p, s[..last]);
    }
  }

  lemma {:induction false} TailOfPart(s: seq<byte>)
    requires LF !in s
    ensures Tail(s) == s
  {
    if s != [] {
      TailOfPart(s[..|s| - 1]);
    }
  }

  ghost predicate NoFeeds(lines: seq<seq<byte>>) {
    forall k :: 0 <= k < |lines| ==> LF !in lines[k]
  }

  /** Where a byte of the wire form lies: in which line, and whether it ends the last one. */
  lemma {:induction false} LineAt(lines: seq<seq<byte>>, i: nat) returns (k: nat)
    requires NoFeeds(lines) && i < |WireLines(lines)|
    ensures k < |lines|
    ensures Tail(WireLines(lines)[..i]) <= lines[k] + [CR]
    ensures WireLines(lines)[i] == LF ==> Tail(WireLines(lines)[..i]) == lines[k] + [CR]
    ensures WireLines(lines)[i] == LF ==> (i + 1 == |WireLines(lines)| <==> k == |lines| - 1)
    ensures i + 1 == |WireLines(lines)| ==> WireLines(lines)[i] == LF
    decreases |lines|
  {
    var first := lines[0] + [CR, LF];
    var rest := WireLines(lines[1..]);
    var wire := WireLines(lines);
    assert wire == first + rest;
    if i < |first| {
      k := 0;
      assert wire[..i] == first[..i] == (lines[0] + [CR])[..i];
      TailOfPart(wire[..i]);
      assert wire[i] == first[i];
      if |lines| > 1 {
        assert |rest| >= 2;
      }
    } else {
      var j := i - |first|;
      var m := LineAt(lines[1..], j);
      k := m + 1;
      assert wire[..i] == first + rest[..j];
      TailAfterLine(first, rest[..j]);
      assert wire[i] == rest[j];
    }
  }

  /** What the trimmer leaves of a line on the wire. */
  lemma TrimLine(line: seq<byte>)
    requires Plain(line)
    ensures TrimEnd(line + [CR, LF]) == line
  {
    var s := line + [CR, LF];
    assert s[..|s| - 1] == line + [CR];
    PrefixOfSnoc(line, CR);
    assert TrimEnd(line + [CR]) == TrimEnd(line);
  }

  /** No stuffed line looks like the end of the message. */
  lemma StuffedIsNoEnd(line: seq<byte>)
    ensures Chars(TrimEnd(Stuff(line) + [CR, LF])) != "."
  {
    var s := Stuff(line) + [CR, LF];
    var t := TrimEnd(s);
    assert line != [] && line[0] == DOT ==> s[1] == DOT;
    assert line != [] && line[0] != DOT ==> s[0] == line[0];
    if |t| == 1 {
      assert t[0] == s[0] && Chars(t)[0] == t[0] as char;
      assert DOT as char == '.';
    }
  }

  // ---------------------------------------------------------------------
  // One byte of the client.

  /** The lines of a unit have no line feeds and fit the buffer. */
  lemma UnitLines(u: Unit)
    requires GoodUnit(u)
    ensures NoFeeds(Lines(u))
    ensures forall k :: 0 <= k < |Lines(u)| ==> |Lines(u)[k]| + 1 < MAX_LINE
    ensures Head(u) != []
  {
    if u.Body? {
      assert Lines(u)[|u.lines|] == [DOT];
      assert forall k :: 0 <= k < |u.lines| ==> Lines(u)[k] == Stuff(u.lines[k]);
    }
  }

  /** A command never starts with the byte of a TLS record. */
  lemma CommandIsNoHandshake(u: Unit, i: nat)
    requires GoodUnit(u) && !u.Body? && i < |Head(u)|
    ensures Tail(Head(u)[..i]) == Head(u)[..i]
    ensures Head(u)[0] != HANDSHAKE
  {
    var head := u.text + [CR, LF];
    assert Lines(u) == [u.text] && [u.text][1..] == [];
    assert WireLines([]) == [];
    assert Head(u) == head + [];
    assert Head(u) == head && head[..i] == Head(u)[..i];
    assert LF !in head[..i];
    TailOfPart(head[..i]);
  }

  /** The part of a line on the wire that was sent, before and after one more byte. */
  lemma WirePart(lines: seq<seq<byte>>, i: nat) returns (k: nat)
    requires NoFeeds(lines) && i < |WireLines(lines)|
    requires forall k :: 0 <= k < |lines| ==> |lines[k]| + 1 < MAX_LINE
    ensures var wire, part := WireLines(lines), Tail(WireLines(lines)[..i]);
            && k < |lines| && |part| < MAX_LINE
            && Tail(wire[..i + 1]) == (if wire[i] == LF then [] else part + [wire[i]])
            && (wire[i] == LF ==> part + [LF] == lines[k] + [CR, LF])
            && (wire[i] == LF ==> (i + 1 == |wire| <==> k == |lines| - 1))
            && (wire[i] != LF ==> i + 1 < |wire|)
  {
    var wire := WireLines(lines);
    k := LineAt(lines, i);
    PrefixNext(wire, i);
    TailSnoc(wire[..i], wire[i]);
    if wire[i] == LF {
      assert lines[k] + [CR] + [LF] == lines[k] + [CR, LF];
    }
  }

  /** A byte inside a line joins the buffer. */
  lemma InsideByte(o: State, b: byte, at: int)
    requires Reading(o) && o.bdatRemaining <= 0 && |o.clientLines| < MAX_LINES && b != LF
    requires !(b == HANDSHAKE && Boundary(o))
    ensures ClientByte(o, b, at) == o.(clientLines := o.clientLines + [b])
  {
  }

  lemma FeedByte(o: State, at: int)
    requires Reading(o) && o.bdatRemaining <= 0 && |o.clientLines| < MAX_LINES
    ensures ClientByte(o, LF, at) == ClientLine(o.(clientLines := []), o.clientLines + [LF], at)
  {
  }

  /** What one more byte inside the lines of a unit changes in the dialogue. */
  lemma TalkInside(t: Talk, at: int)
    requires Ok(t) && t.saying.Some? && t.said + 1 < |Head(t.saying.value)|
    ensures var n := Next(t, ClientSends(at));
            && n == t.(said := t.said + 1) && Ok(n) && !InPayload(n) && !InPayload(t)
            && Unanswered(n) == Unanswered(t) && DataOpen(n) == DataOpen(t) && ServerPart(n) == ServerPart(t)
            && ClientPart(n) == Tail(Head(t.saying.value)[..t.said + 1])
            && Declined(n, Answered(n)) == Declined(t, Answered(t))
            && Upgraded(n, Answered(n)) == Upgraded(t, Answered(t))
  {
    AnswersStay(t, Next(t, ClientSends(at)), Answered(t));
  }

  /** What a byte inside, or before, a payload changes in the dialogue. */
  lemma TalkPayload(t: Talk, at: int)
    requires Ok(t) && t.saying.Some? && t.saying.value.Chunk?
    requires |Head(t.saying.value)| <= t.said + 1 < |Wire(t.saying.value)|
    ensures var n := Next(t, ClientSends(at));
            && n == t.(said := t.said + 1) && Ok(n) && InPayload(n)
            && Unanswered(n) == (if InPayload(t) then Unanswered(t) else Unanswered(t) + ["BDAT"])
            && DataOpen(n) == DataOpen(t) && ServerPart(n) == ServerPart(t) && ClientPart(n) == []
            && Declined(n, Answered(n)) == Declined(t, Answered(t))
            && Upgraded(n, Answered(n)) == Upgraded(t, Answered(t))
  {
    AnswersStay(t, Next(t, ClientSends(at)), Answered(t));
  }

  /** What the last byte of a unit changes in the dialogue. */
  lemma TalkDone(t: Talk, at: int)
    requires Ok(t) && t.saying.Some? && t.said + 1 == |Wire(t.saying.value)|
    ensures var n := Next(t, ClientSends(at));
            && n == t.(sent := t.sent + [t.saying.value], saying := None, said := 0) && Ok(n) && !InPayload(n)
            && Unanswered(n) == (if InPayload(t) then Unanswered(t) else Unanswered(t) + [Verb(t.saying.value)])
            && !DataOpen(n) && ServerPart(n) == ServerPart(t) && ClientPart(n) == []
            && Declined(n, Answered(n)) == Declined(t, Answered(t))
            && Upgraded(n, Answered(n)) == Upgraded(t, Answered(t))
  {
    VerbsSnoc(t.sent, t.saying.value, Answered(t));
    AnswersStay(t, Next(t, ClientSends(at)), Answered(t));
  }

  lemma InsideLine(o: State, t: Talk, at: int)
    requires Ok(t) && GoodTalk(t) && Faithful(o, t) && t.saying.Some? && t.said < |Head(t.saying.value)|
    requires Head(t.saying.value)[t.said] != LF
    ensures !(Head(t.saying.value)[t.said] == HANDSHAKE && Boundary(o))
    ensures Ok(Next(t, ClientSends(at)))
    ensures Faithful(ClientByte(o, Head(t.saying.value)[t.said], at), Next(t, ClientSends(at)))
  {
    var u := t.saying.value;
    UnitLines(u);
    var k := WirePart(Lines(u), t.said);
    assert !(Head(u)[t.said] == HANDSHAKE && Boundary(o)) by {
      if Boundary(o) {
        CommandIsNoHandshake(u, t.said);
      }
    }
    InsideByte(o, Head(u)[t.said], at);
    TalkInside(t, at);
  }

  /** The line feed of a line hands the line over. */
  lemma EndOfLine(o: State, t: Talk, at: int) returns (k: nat)
    requires Ok(t) && GoodTalk(t) && Faithful(o, t) && t.saying.Some? && t.said < |Head(t.saying.value)|
    requires Head(t.saying.value)[t.said] == LF
    ensures k < |Lines(t.saying.value)|
    ensures t.said + 1 == |Head(t.saying.value)| <==> k == |Lines(t.saying.value)| - 1
    ensures ClientByte(o, LF, at) == ClientLine(o.(clientLines := []), Lines(t.saying.value)[k] + [CR, LF], at)
    ensures Tail(Head(t.saying.value)[..t.said + 1]) == []
  {
    UnitLines(t.saying.value);
    k := WirePart(Lines(t.saying.value), t.said);
    FeedByte(o, at);
  }

  /** A command line that is complete joins the queue. */
  lemma CommandJoins(o: State, text: seq<byte>, at: int)
    requires Reading(o) && !o.flags.inData && |o.commands| < MAX_COMMANDS && CommandText(text)
    ensures var r := ClientLine(o, text + [CR, LF], at);
            && r.commands == o.commands + [VerbOf(text)]
            && r.bdatRemaining == (if VerbOf(text) == "BDAT" && PayloadSize(Words(Chars(text))).Some?
                                   then PayloadSize(Words(Chars(text))).value else o.bdatRemaining)
            && r == o.(commands := r.commands, behavior := r.behavior, bdatRemaining := r.bdatRemaining,
                       flags := o.flags.(disabled := VerbOf(text) == "BDAT" && PayloadSize(Words(Chars(text))).None?))
            && r.behavior == SmtpBehavior.Track(o.behavior, text + [CR, LF], VerbOf(text), o.flags.greeted, at)
  {
    TrimLine(text);
    FirstWord(Chars(text));
    var words := Words(Chars(text));
    CanonicalTwice(words[0]);
  }

  lemma FirstWord(s: string)
    requires s != "" && !Space(s[0])
    ensures Words(s) != []
  {
  }

  lemma CanonicalTwice(word: string)
    ensures SmtpBehavior.CanonicalVerb(word) != ""
  {
    SmtpBehavior.CanonicalIsVocabulary(word);
    SmtpBehavior.VocabularyIsCapitals(SmtpBehavior.CanonicalVerb(word));
  }

  lemma VerbsSnoc(units: seq<Unit>, u: Unit, from: nat)
    requires from <= |units|
    ensures Verbs(units + [u])[from..] == Verbs(units)[from..] + [Verb(u)]
  {
    assert Verbs(units + [u]) == Verbs(units) + [Verb(u)];
  }

  /** The line feed of a command line hands the command over, and announces its payload. */
  lemma CommandTaken(o: State, t: Talk, at: int)
    requires Ok(t) && GoodTalk(t) && Faithful(o, t) && t.saying.Some? && !t.saying.value.Body?
    requires t.said < |Head(t.saying.value)| && Head(t.saying.value)[t.said] == LF
    ensures t.said + 1 == |Head(t.saying.value)|
    ensures var u, r := t.saying.value, ClientByte(o, LF, at);
            r == o.(clientLines := [], commands := o.commands + [Verb(u)], behavior := r.behavior,
                    bdatRemaining := if u.Chunk? then |u.payload| else 0)
            && r.behavior == SmtpBehavior.Track(o.behavior, u.text + [CR, LF], VerbOf(u.text), o.flags.greeted, at)
  {
    var u := t.saying.value;
    var k := EndOfLine(o, t, at);
    assert Lines(u) == [u.text];
    CommandJoins(o.(clientLines := []), u.text, at);
  }

  /** The byte that completes a command line. */
  lemma CommandStep(o: State, t: Talk, at: int)
    requires Ok(t) && GoodTalk(t) && Faithful(o, t) && t.saying.Some? && !t.saying.value.Body?
    requires t.said < |Head(t.saying.value)| && Head(t.saying.value)[t.said] == LF
    ensures Ok(Next(t, ClientSends(at)))
    ensures Faithful(ClientByte(o, LF, at), Next(t, ClientSends(at)))
  {
    CommandTaken(o, t, at);
    if t.said + 1 < |Wire(t.saying.value)| {
      TalkPayload(t, at);
    } else {
      TalkDone(t, at);
    }
  }

  /** A byte that completes a line of a message. */
  lemma BodyStep(o: State, t: Talk, at: int)
    requires Ok(t) && GoodTalk(t) && Faithful(o, t) && t.saying.Some? && t.saying.value.Body?
    requires t.said < |Head(t.saying.value)| && Head(t.saying.value)[t.said] == LF
    ensures Ok(Next(t, ClientSends(at)))
    ensures Faithful(ClientByte(o, LF, at), Next(t, ClientSends(at)))
  {
    var u := t.saying.value;
    var k := EndOfLine(o, t, at);
    BodyLineMeans(o.(clientLines := []), u, k);
    if k == |Lines(u)| - 1 {
      TalkDone(t, at);
    } else {
      TalkInside(t, at);
    }
  }

  /** Only the last line of a message ends it. */
  lemma BodyLineMeans(o: State, u: Unit, k: nat)
    requires u.Body? && k < |Lines(u)|
    ensures BodyLine(o, Lines(u)[k] + [CR, LF])
         == if k == |Lines(u)| - 1 then o.(commands := o.commands + ["."], flags := o.flags.(inData := false)) else o
  {
    if k == |Lines(u)| - 1 {
      TrimLine([DOT]);
      assert Chars([DOT]) == ".";
    } else {
      assert Lines(u)[k] == Stuff(u.lines[k]);
      StuffedIsNoEnd(u.lines[k]);
    }
  }

  /** A payload byte of a BDAT chunk is only counted. */
  lemma PayloadStep(o: State, t: Talk, at: int)
    requires Ok(t) && Faithful(o, t) && InPayload(t)
    ensures Ok(Next(t, ClientSends(at)))
    ensures Faithful(ClientByte(o, Wire(t.saying.value)[t.said], at), Next(t, ClientSends(at)))
  {
    if t.said + 1 < |Wire(t.saying.value)| {
      TalkPayload(t, at);
    } else {
      TalkDone(t, at);
    }
  }

  /** What the client says changes nothing about the answers so far. */
  lemma {:induction false} AnswersStay(t: Talk, m: Talk, n: nat)
    requires m.replies == t.replies && t.sent <= m.sent && n <= |t.sent|
    ensures Upgraded(m, n) == Upgraded(t, n) && Declined(m, n) == Declined(t, n)
    decreases n
  {
    if n > 0 {
      AnswersStay(t, m, n - 1);
    }
  }

  /** A new answer changes nothing about the older ones. */
  lemma {:induction false} OlderAnswersStay(t: Talk, m: Talk, n: nat)
    requires t.replies <= m.replies && t.sent == m.sent && n < |t.replies|
    ensures Upgraded(m, n) == Upgraded(t, n) && Declined(m, n) == Declined(t, n)
    decreases n
  {
    if n > 0 {
      OlderAnswersStay(t, m, n - 1);
      assert m.replies[n] == t.replies[n];
    }
  }

  /** Whatever byte the client sends, the observer still knows the dialogue. */
  lemma ClientStep(o: State, t: Talk, at: int)
    requires Ok(t) && GoodTalk(t) && Faithful(o, t) && t.saying.Some?
    ensures Ok(Next(t, ClientSends(at)))
    ensures Faithful(ClientByte(o, Wire(t.saying.value)[t.said], at), Next(t, ClientSends(at)))
    ensures !(Wire(t.saying.value)[t.said] == HANDSHAKE && Boundary(o))
  {
    var u := t.saying.value;
    if t.said >= |Head(u)| {
      PayloadStep(o, t, at);
    } else if Head(u)[t.said] != LF {
      InsideLine(o, t, at);
    } else if u.Body? {
      BodyStep(o, t, at);
    } else {
      CommandStep(o, t, at);
    }
  }

  // ---------------------------------------------------------------------
  // One byte of the server.

  lemma AnswerLines(a: Answer)
    requires GoodAnswer(a)
    ensures NoFeeds(ReplyLines(a)) && WireReply(a) != []
    ensures forall k :: 0 <= k < |ReplyLines(a)| ==> Plain(ReplyLines(a)[k]) && |ReplyLines(a)[k]| + 1 < MAX_LINE
    ensures forall k :: 0 <= k < |a.more| ==> ReplyLines(a)[k] == a.code + [DASH] + a.more[k]
    ensures |ReplyLines(a)| == |a.more| + 1 && ReplyLines(a)[|a.more|] == a.code + a.text
  {
    assert Plain(a.code);
  }

  lemma InsideReplyByte(o: State, b: byte, at: int)
    requires Reading(o) && |o.serverLines| < MAX_LINES && b != LF
    ensures ServerByte(o, b, at) == o.(serverLines := o.serverLines + [b])
  {
  }

  /** What one more byte inside a reply changes in the dialogue. */
  lemma TalkHeard(t: Talk, at: int)
    requires Ok(t) && t.replying.Some? && t.replied + 1 < |WireReply(t.replying.value)|
    ensures var n := Next(t, ServerSends(at));
            && n == t.(replied := t.replied + 1) && Ok(n) && InPayload(n) == InPayload(t)
            && Unanswered(n) == Unanswered(t) && DataOpen(n) == DataOpen(t) && ClientPart(n) == ClientPart(t)
            && ServerPart(n) == Tail(WireReply(t.replying.value)[..t.replied + 1])
            && Declined(n, Answered(n)) == Declined(t, Answered(t))
            && Upgraded(n, Answered(n)) == Upgraded(t, Answered(t))
  {
    AnswersStay(t, Next(t, ServerSends(at)), Answered(t));
  }

  lemma InsideReply(o: State, t: Talk, at: int)
    requires Ok(t) && GoodTalk(t) && Faithful(o, t) && t.replying.Some?
    requires WireReply(t.replying.value)[t.replied] != LF
    ensures Ok(Next(t, ServerSends(at)))
    ensures Faithful(ServerByte(o, WireReply(t.replying.value)[t.replied], at), Next(t, ServerSends(at)))
    ensures Next(t, ServerSends(at)).replies == t.replies
  {
    ReplyPart(t);
    InsideReplyByte(o, WireReply(t.replying.value)[t.replied], at);
    TalkHeard(t, at);
  }

  lemma ReplyPart(t: Talk)
    requires Ok(t) && GoodTalk(t) && t.replying.Some? && WireReply(t.replying.value)[t.replied] != LF
    ensures t.replied + 1 < |WireReply(t.replying.value)| && |ServerPart(t)| < MAX_LINES
    ensures Tail(WireReply(t.replying.value)[..t.replied + 1]) ==
            ServerPart(t) + [WireReply(t.replying.value)[t.replied]]
  {
    AnswerLines(t.replying.value);
    var k := WirePart(ReplyLines(t.replying.value), t.replied);
  }

  lemma ReplyFeedByte(o: State, line: seq<byte>, at: int)
    requires Reading(o) && |o.serverLines| < MAX_LINES && o.serverLines + [LF] == line + [CR, LF] && Plain(line)
    ensures ServerByte(o, LF, at) == ServerLine(o.(serverLines := []), line, at)
  {
    TrimLine(line);
  }

  /** The line feed of a reply line hands the line over. */
  lemma EndOfReplyLine(o: State, t: Talk, at: int) returns (k: nat)
    requires Ok(t) && GoodTalk(t) && Faithful(o, t) && t.replying.Some?
    requires WireReply(t.replying.value)[t.replied] == LF
    ensures k < |ReplyLines(t.replying.value)|
    ensures t.replied + 1 == |WireReply(t.replying.value)| <==> k == |t.replying.value.more|
    ensures ServerByte(o, LF, at) == ServerLine(o.(serverLines := []), ReplyLines(t.replying.value)[k], at)
    ensures Tail(WireReply(t.replying.value)[..t.replied + 1]) == []
  {
    var a := t.replying.value;
    AnswerLines(a);
    k := WirePart(ReplyLines(a), t.replied);
    ReplyFeedByte(o, ReplyLines(a)[k], at);
  }

  /** Before the last line of a reply nothing happens. */
  lemma ContinuationStep(o: State, t: Talk, at: int)
    requires Ok(t) && GoodTalk(t) && Faithful(o, t) && t.replying.Some?
    requires WireReply(t.replying.value)[t.replied] == LF && t.replied + 1 < |WireReply(t.replying.value)|
    ensures Ok(Next(t, ServerSends(at)))
    ensures Faithful(ServerByte(o, LF, at), Next(t, ServerSends(at)))
    ensures Next(t, ServerSends(at)).replies == t.replies
  {
    var k := EndOfReplyLine(o, t, at);
    AnswerLines(t.replying.value);
    assert ReplyLines(t.replying.value)[k][3] == DASH;
    TalkHeard(t, at);
  }

  /** What the observer makes of the final line of a reply. */
  lemma FinalLine(o: State, a: Answer, at: int)
    requires GoodAnswer(a) && o.flags.greeted && o.commands != []
    ensures ServerLine(o, a.code + a.text, at) == Reply(o, a.code + a.text, at)
    ensures HasCode(a.code + a.text, "354") <==> Chars(a.code) == "354"
    ensures HasCode(a.code + a.text, "220") <==> Chars(a.code) == "220"
  {
    var line := a.code + a.text;
    assert line[..3] == a.code;
    if a.text != [] {
      assert line[3] == a.text[0];
    }
  }

  lemma GreetingStep(o: State, t: Talk, at: int)
    requires Ok(t) && GoodTalk(t) && Faithful(o, t) && t.replying.Some? && t.replies == []
    requires WireReply(t.replying.value)[t.replied] == LF && t.replied + 1 == |WireReply(t.replying.value)|
    ensures Ok(Next(t, ServerSends(at))) && !Upgraded(Next(t, ServerSends(at)), Answered(Next(t, ServerSends(at))))
    ensures Faithful(ServerByte(o, LF, at), Next(t, ServerSends(at)))
  {
    var k := EndOfReplyLine(o, t, at);
    AnswerLines(t.replying.value);
    var line := t.replying.value.code + t.replying.value.text;
    if t.replying.value.text != [] {
      assert line[3] == t.replying.value.text[0];
    }
  }

  /** The verb at the head of the queue. */
  lemma OldestVerb(t: Talk)
    requires Ok(t) && Answered(t) < |t.sent|
    ensures Unanswered(t) != [] && Unanswered(t)[0] == Verb(t.sent[Answered(t)])
    ensures Unanswered(t)[1..] == Verbs(t.sent)[Answered(t) + 1..] + if InPayload(t) then ["BDAT"] else []
  {
  }

  lemma DataVerb(u: Unit)
    requires GoodUnit(u)
    ensures Verb(u) == "DATA" <==> IsData(u)
  {
  }

  /** The talk after a final reply keeps the rules. */
  lemma ReplyKeepsOk(t: Talk, at: int)
    requires Ok(t) && t.replying.Some? && t.replies != [] && t.replied + 1 == |WireReply(t.replying.value)|
    ensures var n := Next(t, ServerSends(at));
            && Ok(n) && Answered(n) == Answered(t) + 1 && n.sent == t.sent && n.saying == t.saying
            && (DataOpen(n) <==> IsData(t.sent[Answered(t)]) && Chars(t.replying.value.code) == "354")
  {
    var n := Next(t, ServerSends(at));
    assert n.replies[Answered(t) + 1] == t.replying.value;
    assert !DataOpen(t);
  }

  /** A final reply to STARTTLS decides. */
  lemma ReplyDecides(t: Talk, at: int)
    requires Ok(t) && t.replying.Some? && t.replies != [] && t.replied + 1 == |WireReply(t.replying.value)|
    ensures var n := Next(t, ServerSends(at));
            var tls, ok := Verb(t.sent[Answered(t)]) == "STARTTLS", Chars(t.replying.value.code) == "220";
            && Upgraded(n, Answered(n)) == (Upgraded(t, Answered(t)) || (tls && ok))
            && Declined(n, Answered(n)) == (Declined(t, Answered(t)) || (tls && !ok))
  {
    OlderAnswersStay(t, Next(t, ServerSends(at)), Answered(t));
  }

  /** The last byte of a final reply takes the oldest command off the queue. */
  lemma FinalByte(o: State, t: Talk, at: int)
    requires Ok(t) && Faithful(o, t) && !Upgraded(t, Answered(t)) && t.replying.Some? && t.replies != []
    requires GoodTalk(t)
    requires WireReply(t.replying.value)[t.replied] == LF && t.replied + 1 == |WireReply(t.replying.value)|
    ensures o.commands != [] && ServerPart(Next(t, ServerSends(at))) == []
    ensures ServerByte(o, LF, at) == Reply(o.(serverLines := []), t.replying.value.code + t.replying.value.text, at)
  {
    var a := t.replying.value;
    var k := EndOfReplyLine(o, t, at);
    AnswerLines(a);
    OldestVerb(t);
    FinalLine(o.(serverLines := []), a, at);
    ReplyKeepsOk(t, at);
  }

  /** The talk after a final reply has one unanswered command less. */
  lemma TalkAnswered(t: Talk, at: int)
    requires Ok(t) && t.replying.Some? && t.replies != [] && t.replied + 1 == |WireReply(t.replying.value)|
    ensures var n := Next(t, ServerSends(at));
            && n.replies != [] && Answered(n) <= |n.sent|
            && Unanswered(n) == Unanswered(t)[1..] && InPayload(n) == InPayload(t)
            && n.saying == t.saying && n.said == t.said && n.replying.None?
  {
    OldestVerb(t);
    ReplyKeepsOk(t, at);
  }

  /** What the observer takes a final reply for. */
  lemma ReplyMeans(o: State, line: seq<byte>, at: int)
    requires o.commands != [] && Reading(o)
    ensures var r, verb := Reply(o, line, at), o.commands[0];
            if verb == "STARTTLS" && HasCode(line, "220") then
              r.flags.tlsArmed && !r.flags.disabled && !r.flags.fingerprinted && r.clientLines == [] &&
              r.serverLines == []
              && r.tlsBytes == o.tlsBytes
            else
              Reading(r) && r.flags.greeted == o.flags.greeted && r.commands == o.commands[1..]
              && r.flags.inData == (o.flags.inData || (verb == "DATA" && HasCode(line, "354")))
              && r.bdatRemaining == o.bdatRemaining && r.clientLines == o.clientLines && r.serverLines == o.serverLines
              && r.tlsBytes == o.tlsBytes && r.flags.refused == (o.flags.refused || verb == "STARTTLS")
  {
  }

  /** The observer after a final reply. */
  lemma FinalStep(o: State, t: Talk, at: int)
    requires Ok(t) && Faithful(o, t) && !Upgraded(t, Answered(t)) && t.replying.Some? && t.replies != []
    requires GoodTalk(t)
    requires WireReply(t.replying.value)[t.replied] == LF && t.replied + 1 == |WireReply(t.replying.value)|
    ensures Ok(Next(t, ServerSends(at)))
    ensures if Upgraded(Next(t, ServerSends(at)), Answered(Next(t, ServerSends(at)))) then Armed(ServerByte(o, LF, at))
            else Faithful(ServerByte(o, LF, at), Next(t, ServerSends(at)))
  {
    FinalByte(o, t, at);
    TalkAnswered(t, at);
    ReplyMeans(o.(serverLines := []), t.replying.value.code + t.replying.value.text, at);
    OldestVerb(t);
    FinalLine(o.(serverLines := []), t.replying.value, at);
    DataVerb(t.sent[Answered(t)]);
    ReplyKeepsOk(t, at);
    ReplyDecides(t, at);
  }

  lemma ServerTalk(t: Talk, at: int)
    requires GoodTalk(t) && t.replying.Some?
    ensures var n := Next(t, ServerSends(at));
            GoodTalk(n) && n.sent == t.sent &&
            (t.replied + 1 < |WireReply(t.replying.value)| ==> n.replies == t.replies)
  {
  }

  /** Whatever byte the server sends, the observer still knows the dialogue, or has seen it accept. */
  lemma ServerStep(o: State, t: Talk, at: int)
    requires Ok(t) && Faithful(o, t) && !Upgraded(t, Answered(t)) && t.replying.Some? && GoodTalk(t)
    ensures Knows(ServerByte(o, WireReply(t.replying.value)[t.replied], at), Next(t, ServerSends(at)))
  {
    ServerTalk(t, at);
    if WireReply(t.replying.value)[t.replied] != LF {
      InsideReply(o, t, at);
      AnswersStay(t, Next(t, ServerSends(at)), Answered(t));
    } else if t.replied + 1 < |WireReply(t.replying.value)| {
      ContinuationStep(o, t, at);
      AnswersStay(t, Next(t, ServerSends(at)), Answered(t));
    } else if t.replies == [] {
      GreetingStep(o, t, at);
    } else {
      FinalStep(o, t, at);
    }
  }

  // ---------------------------------------------------------------------
  // Whole dialogues.

  lemma SilenceIsKnown(instance: string, base: SmtpEvent.Event)
    ensures Knows(Fresh(instance, base), SILENCE)
  {
  }

  lemma TalkBegins(t: Talk, act: Act)
    requires Ok(t) && Allowed(t, act) && (act.BeginUnit? || act.BeginReply?)
    ensures var n := Next(t, act);
            && Ok(n) && n.sent == t.sent && n.replies == t.replies && InPayload(n) == InPayload(t)
            && ClientPart(n) == ClientPart(t) && ServerPart(n) == ServerPart(t)
  {
    if act.BeginUnit? {
      UnitLines(act.u);
    } else {
      AnswerLines(act.a);
    }
  }

  /** What begins now was not said before. */
  lemma BeginKeeps(t: Talk, act: Act)
    requires Ok(t) && GoodTalk(t) && Allowed(t, act) && (act.BeginUnit? || act.BeginReply?)
    ensures var n := Next(t, act);
            && Ok(n) && GoodTalk(n) && Answered(n) == Answered(t)
            && Unanswered(n) == Unanswered(t) && DataOpen(n) == DataOpen(t)
            && (InPayload(t) ==> n.saying == t.saying && n.said == t.said)
  {
    TalkBegins(t, act);
  }

  lemma BeginStep(o: State, t: Talk, act: Act)
    requires Knows(o, t) && Allowed(t, act) && (act.BeginUnit? || act.BeginReply?)
    ensures Knows(o, Next(t, act))
  {
    TalkBegins(t, act);
    BeginKeeps(t, act);
    AnswersStay(t, Next(t, act), Answered(t));
  }

  lemma OneByte(o: State, a: Arrival)
    ensures RunBytes(o, [a]) == Arrive(o, a)
  {
    assert [a][1..] == [];
  }

  lemma ClientTalk(t: Talk, at: int)
    requires GoodTalk(t) && Answered(t) <= |t.sent| && t.saying.Some?
    ensures var n := Next(t, ClientSends(at));
            && GoodTalk(n) && n.replies == t.replies && t.sent <= n.sent && Answered(n) == Answered(t)
  {
  }

  lemma ClientAct(o: State, t: Talk, at: int)
    requires Knows(o, t) && !Upgraded(t, Answered(t)) && t.saying.Some?
    ensures var a := Arrival(true, Wire(t.saying.value)[t.said], at);
            && Sound(t, ClientSends(at)) == [a]
            && Knows(Arrive(o, a), Next(t, ClientSends(at)))
            && !(a.b == HANDSHAKE && Boundary(o))
  {
    ClientStep(o, t, at);
    ClientTalk(t, at);
    AnswersStay(t, Next(t, ClientSends(at)), Answered(t));
  }

  lemma ServerAct(o: State, t: Talk, at: int)
    requires Knows(o, t) && !Upgraded(t, Answered(t)) && t.replying.Some?
    ensures var a := Arrival(false, WireReply(t.replying.value)[t.replied], at);
            && Sound(t, ServerSends(at)) == [a]
            && Knows(Arrive(o, a), Next(t, ServerSends(at)))
  {
    var b := WireReply(t.replying.value)[t.replied];
    SoundOfServer(t, at);
    ServerStep(o, t, at);
    assert Arrive(o, Arrival(false, b, at)) == ServerByte(o, b, at);
  }

  lemma SoundOfServer(t: Talk, at: int)
    requires t.replying.Some? && t.replied < |WireReply(t.replying.value)|
    ensures Sound(t, ServerSends(at)) == [Arrival(false, WireReply(t.replying.value)[t.replied], at)]
  {
  }

  /** One act of the parties, as far as the observer is concerned. */
  lemma ActStep(o: State, t: Talk, act: Act)
    requires Knows(o, t) && Allowed(t, act)
    ensures Knows(RunBytes(o, Sound(t, act)), Next(t, act))
    ensures |Sound(t, act)| <= 1
    ensures Sound(t, act) != [] ==> var a := Sound(t, act)[0];
              RunBytes(o, Sound(t, act)) == Arrive(o, a) && !(a.fromClient && a.b == HANDSHAKE && Boundary(o))
  {
    OutcomesAgree(t);
    match act {
      case ClientSends(at) =>
        ClientAct(o, t, at);
        OneByte(o, Sound(t, act)[0]);
      case ServerSends(at) =>
        ServerAct(o, t, at);
        OneByte(o, Sound(t, act)[0]);
      case _ =>
        BeginStep(o, t, act);
    }
  }

  /** The lines under way are short. */
  lemma KnownIsShort(o: State, t: Talk)
    requires Knows(o, t)
    ensures Short(o)
  {
    if !Upgraded(t, Answered(t)) {
      if t.saying.Some? && t.said < |Head(t.saying.value)| {
        UnitLines(t.saying.value);
        var k := WirePart(Lines(t.saying.value), t.said);
      }
      if t.replying.Some? {
        AnswerLines(t.replying.value);
        var k := WirePart(ReplyLines(t.replying.value), t.replied);
      }
    }
  }

  /** Byte by byte, the observer follows the dialogue. */
  lemma {:induction false} BytesFollow(o: State, t: Talk, acts: seq<Act>)
    requires Knows(o, t) && AllowedRun(t, acts)
    ensures Knows(RunBytes(o, Heard(t, acts)), After(t, acts))
    ensures Calm(o, Heard(t, acts))
    decreases |acts|
  {
    KnownIsShort(o, t);
    if acts != [] {
      ActStep(o, t, acts[0]);
      var sound, rest := Sound(t, acts[0]), Heard(Next(t, acts[0]), acts[1..]);
      RunBytesSplits(o, sound, rest);
      BytesFollow(RunBytes(o, sound), Next(t, acts[0]), acts[1..]);
      if sound == [] {
        assert sound + rest == rest;
      } else {
        assert (sound + rest)[0] == sound[0] && (sound + rest)[1..] == rest;
      }
    }
  }

  /** For every compliant dialogue, every interleaving of its two directions and every way of cutting
      them into chunks of the pump's size: the observer is armed exactly when some STARTTLS command got
      its own accepting reply; until then its queue is exactly the unanswered commands, so no byte of a
      message or a payload is ever taken for a command; and its report is the right one. */
  lemma ObserverIsFaithful(instance: string, base: SmtpEvent.Event, acts: seq<Act>, inputs: seq<Input>)
    requires AllowedRun(SILENCE, acts) && Flatten(inputs) == Heard(SILENCE, acts)
    requires forall i :: 0 <= i < |inputs| ==> |inputs[i].bytes| <= MAX_CHUNK
    ensures var o, t := Run(Fresh(instance, base), inputs), After(SILENCE, acts);
            && Answered(t) <= |t.sent|
            && (o.flags.tlsArmed <==> Accepted(t))
            && (Accepted(t) ==> Armed(o))
            && (!Accepted(t) ==> o.commands == Unanswered(t) && !o.flags.disabled)
            && EndState(o) == Report(t)
  {
    var start := Fresh(instance, base);
    SilenceIsKnown(instance, base);
    FreshIsValid(instance, base);
    BytesFollow(start, SILENCE, acts);
    CalmRunIsClean(start, inputs);
    RunIsBytes(start, inputs);
    assert Run(start, inputs) == RunBytes(start, Heard(SILENCE, acts));
    KnownReport(Run(start, inputs), After(SILENCE, acts));
  }

  lemma KnownReport(o: State, t: Talk)
    requires Knows(o, t)
    ensures o.flags.tlsArmed <==> Accepted(t)
    ensures Accepted(t) ==> Armed(o)
    ensures !Accepted(t) ==> o.commands == Unanswered(t) && !o.flags.disabled
    ensures EndState(o) == Report(t)
  {
    OutcomesAgree(t);
  }
}
