/** The sessions of the Postscreen log, told from its lines alone: which line joins which, and what a session's
    evidence says of its lines. */
module CampaignSessions {
  import opened Bytes
  import opened CampaignEvidence

  // ---------------------------------------------------------------------
  // What the evidence says.

  predicate IsConnect(line: Line, service: Service) {
    line.Connect? && line.service == service
  }

  /** Some line of the session is a connect of the service. */
  ghost predicate Connects(lines: seq<Line>, own: seq<nat>, service: Service)
    requires forall x :: x in own ==> x < |lines|
  {
    exists x :: x in own && IsConnect(lines[x], service)
  }

  ghost predicate Pregreets(lines: seq<Line>, own: seq<nat>)
    requires forall x :: x in own ==> x < |lines|
  {
    exists x :: x in own && lines[x].Pregreet?
  }

  ghost predicate Rejects(lines: seq<Line>, own: seq<nat>)
    requires forall x :: x in own ==> x < |lines|
  {
    exists x :: x in own && lines[x].Reject?
  }

  /** The early greeting is that of the pregreet line, and there is none without such a line. */
  ghost predicate SaysGreeting(e: Evidence, lines: seq<Line>, own: seq<nat>)
    requires forall x :: x in own ==> x < |lines|
  {
    && (forall x :: x in own && lines[x].Pregreet? ==>
         && e.pregreetAt == Some(lines[x].at) && e.verb == lines[x].verb
         && (e.ehloUser <==> lines[x].verb == "EHLO" && lines[x].user))
    && (!Pregreets(lines, own) ==> e.pregreetAt == None && e.verb == "" && !e.ehloUser)
  }

  ghost predicate SaysRejection(e: Evidence, lines: seq<Line>, own: seq<nat>)
    requires forall x :: x in own ==> x < |lines|
  {
    && (forall x :: x in own && lines[x].Reject? ==>
         e.rejectAt == Some(lines[x].at) && lines[x].envelope == Some(e.envelope))
    && (!Rejects(lines, own) ==> e.rejectAt == None && e.envelope == Envelope("", "", ""))
  }

  ghost predicate SaysConnects(e: Evidence, lines: seq<Line>, own: seq<nat>)
    requires forall x :: x in own ==> x < |lines|
  {
    && (e.sawPostscreen <==> Connects(lines, own, Postscreen))
    && (e.sawSmtpd <==> Connects(lines, own, Smtpd))
  }

  /** Every part of the evidence is that of a line of the session, and a session has at most one line of each kind. */
  ghost predicate Says(e: Evidence, lines: seq<Line>, own: seq<nat>) {
    && own != [] && (forall x :: x in own ==> x < |lines| && HasClient(lines[x]))
    && own[0] in own && e.start == lines[own[0]].at
    && own[|own| - 1] in own && e.lastAt == lines[own[|own| - 1]].at
    && (forall x :: x in own ==> lines[x].client == Some(e.client))
    && SaysGreeting(e, lines, own) && SaysRejection(e, lines, own) && SaysConnects(e, lines, own)
    && Once(lines, own)
  }

  ghost predicate Once(lines: seq<Line>, own: seq<nat>)
    requires forall x :: x in own ==> x < |lines|
  {
    forall x, y :: x in own && y in own && SameKind(lines[x], lines[y]) ==> x == y
  }

  predicate SameKind(a: Line, b: Line) {
    (a.Pregreet? && b.Pregreet?) || (a.Reject? && b.Reject?) || (a.Connect? && b.Connect? && a.service == b.service)
  }

  lemma BeginSays(lines: seq<Line>, i: nat)
    requires i < |lines| && WellFormed(lines[i])
    ensures Says(Begin(lines[i]), lines, [i])
  {
    assert i in [i];
    assert forall x :: x in [i] ==> x == i;
  }

  lemma InMore(own: seq<nat>, i: nat)
    ensures forall x :: x in own + [i] <==> x in own || x == i
  {
    assert i in own + [i];
  }

  lemma ExtendSays(lines: seq<Line>, e: Evidence, own: seq<nat>, i: nat, lifetime: nat)
    requires i < |lines| && WellFormed(lines[i]) && lines[i].client == Some(e.client)
    requires Says(e, lines, own) && e.rejectAt.None? && Joins(e, lines[i], lifetime)
    ensures Says(Extend(e, lines[i]), lines, own + [i])
  {
    InMore(own, i);
    match lines[i] {
      case Connect(_, _, _) => ExtendConnect(lines, e, own, i, lifetime);
      case Pregreet(_, _, _, _) => ExtendPregreet(lines, e, own, i, lifetime);
      case Reject(_, _, _) => ExtendReject(lines, e, own, i);
    }
  }

  lemma ExtendConnect(lines: seq<Line>, e: Evidence, own: seq<nat>, i: nat, lifetime: nat)
    requires i < |lines| && WellFormed(lines[i]) && lines[i].Connect? && lines[i].client == Some(e.client)
    requires Says(e, lines, own) && Joins(e, lines[i], lifetime)
    ensures Says(Extend(e, lines[i]), lines, own + [i])
  {
    InMore(own, i);
    assert Pregreets(lines, own + [i]) <==> Pregreets(lines, own);
    assert Rejects(lines, own + [i]) <==> Rejects(lines, own);
    assert Connects(lines, own + [i], Postscreen) <==> Connects(lines, own, Postscreen);
    assert i in own + [i] && IsConnect(lines[i], Smtpd);
    assert !Connects(lines, own, Smtpd);
  }

  lemma ExtendPregreet(lines: seq<Line>, e: Evidence, own: seq<nat>, i: nat, lifetime: nat)
    requires i < |lines| && WellFormed(lines[i]) && lines[i].Pregreet? && lines[i].client == Some(e.client)
    requires Says(e, lines, own) && Joins(e, lines[i], lifetime)
    ensures Says(Extend(e, lines[i]), lines, own + [i])
  {
    InMore(own, i);
    assert !Pregreets(lines, own);
    assert i in own + [i] && lines[i].Pregreet?;
    assert Rejects(lines, own + [i]) <==> Rejects(lines, own);
    assert Connects(lines, own + [i], Postscreen) <==> Connects(lines, own, Postscreen);
    assert Connects(lines, own + [i], Smtpd) <==> Connects(lines, own, Smtpd);
  }

  lemma ExtendReject(lines: seq<Line>, e: Evidence, own: seq<nat>, i: nat)
    requires i < |lines| && WellFormed(lines[i]) && lines[i].Reject? && lines[i].client == Some(e.client)
    requires Says(e, lines, own) && e.rejectAt.None?
    ensures Says(Extend(e, lines[i]), lines, own + [i])
  {
    InMore(own, i);
    assert !Rejects(lines, own);
    assert i in own + [i] && lines[i].Reject?;
    assert Pregreets(lines, own + [i]) <==> Pregreets(lines, own);
    assert Connects(lines, own + [i], Postscreen) <==> Connects(lines, own, Postscreen);
    assert Connects(lines, own + [i], Smtpd) <==> Connects(lines, own, Smtpd);
  }

  ghost predicate AllSay(lines: seq<Line>, s: State) {
    && (forall c :: c in s.active ==> Says(s.active[c].evidence, lines, s.active[c].lines))
    && (forall k :: 0 <= k < |s.done| ==> Says(s.done[k].evidence, lines, s.done[k].lines))
  }

  lemma CloseSays(lines: seq<Line>, s: State, client: string)
    requires AllSay(lines, s)
    ensures AllSay(lines, Close(s, client))
  {
  }

  lemma PlaceSays(lines: seq<Line>, s: State, i: nat, lifetime: nat)
    requires i < |lines| && WellFormed(lines[i]) && AllSay(lines, s) && OpenSound(lines, s, i, lifetime)
    ensures AllSay(lines, Place(s, lines[i], i, lifetime))
  {
    var client := lines[i].client.value;
    if Continues(s, lines[i], lifetime) {
      var session := s.active[client];
      ExtendSays(lines, session.evidence, session.lines, i, lifetime);
      PutSays(lines, s, client, Session(Extend(session.evidence, lines[i]), session.lines + [i]));
    } else {
      CloseSays(lines, s, client);
      BeginSays(lines, i);
      PutSays(lines, Close(s, client), client, Session(Begin(lines[i]), [i]));
    }
  }

  lemma PutSays(lines: seq<Line>, s: State, client: string, session: Session)
    requires AllSay(lines, s) && Says(session.evidence, lines, session.lines)
    ensures AllSay(lines, s.(active := s.active[client := session]))
  {
  }

  /** In every state of the reader the sessions say what their lines say. */
  lemma {:induction false} ReadSays(lines: seq<Line>, n: nat, lifetime: nat)
    requires n <= |lines|
    ensures AllSay(lines, Read(lines, n, lifetime))
    decreases n
  {
    if n > 0 {
      var i := n - 1;
      var s := Read(lines, i, lifetime);
      ReadSays(lines, i, lifetime);
      ReadIsSound(lines, i, lifetime);
      if WellFormed(lines[i]) {
        PlaceSays(lines, s, i, lifetime);
        CloseSays(lines, Place(s, lines[i], i, lifetime), lines[i].client.value);
      } else if HasClient(lines[i]) {
        CloseSays(lines, s, lines[i].client.value);
      }
    }
  }

  /** The evidence of every session, at the end of the log, is what its own lines say. */
  lemma EvidenceSays(lines: seq<Line>, lifetime: nat, rest: seq<Session>)
    requires Rest(rest, Read(lines, |lines|, lifetime).active)
    ensures var all := Read(lines, |lines|, lifetime).done + rest;
            forall k :: 0 <= k < |all| ==> Says(all[k].evidence, lines, all[k].lines)
  {
    var s := Read(lines, |lines|, lifetime);
    ReadSays(lines, |lines|, lifetime);
    forall k | 0 <= k < |rest|
      ensures Says(rest[k].evidence, lines, rest[k].lines)
    {
      assert rest[k] == s.active[rest[k].evidence.client];
    }
  }

  // ---------------------------------------------------------------------
  // Which lines are in one session.

  ghost predicate TogetherOpen(s: State, i: nat, j: nat) {
    exists c :: c in s.active && i in s.active[c].lines && j in s.active[c].lines
  }

  ghost predicate TogetherDone(s: State, i: nat, j: nat) {
    exists k :: 0 <= k < |s.done| && i in s.done[k].lines && j in s.done[k].lines
  }

  ghost predicate Together(s: State, i: nat, j: nat) {
    TogetherOpen(s, i, j) || TogetherDone(s, i, j)
  }

  lemma CloseTogether(s: State, client: string, i: nat, j: nat)
    ensures Together(Close(s, client), i, j) <==> Together(s, i, j)
  {
    if client in s.active {
      var r := Close(s, client);
      assert r.done[|s.done|] == s.active[client];
      assert forall k :: 0 <= k < |s.done| ==> r.done[k] == s.done[k];
      assert forall c :: c in r.active <==> c in s.active && c != client;
      assert TogetherDone(s, i, j) ==> TogetherDone(r, i, j);
      if TogetherOpen(s, i, j) {
        var c :| c in s.active && i in s.active[c].lines && j in s.active[c].lines;
        assert c != client ==> c in r.active;
      }
      if TogetherDone(r, i, j) {
        var k :| 0 <= k < |r.done| && i in r.done[k].lines && j in r.done[k].lines;
        assert k < |s.done| ==> TogetherDone(s, i, j);
      }
    }
  }

  /** A session that replaces that of a client, with the same lines or more. */
  lemma ReplaceTogether(s: State, client: string, session: Session, n: nat, i: nat, j: nat)
    requires client in s.active && session.lines == s.active[client].lines + [n] && i != n && j != n
    ensures Together(s.(active := s.active[client := session]), i, j) <==> Together(s, i, j)
  {
    var r := s.(active := s.active[client := session]);
    InMore(s.active[client].lines, n);
    if TogetherOpen(s, i, j) {
      var c :| c in s.active && i in s.active[c].lines && j in s.active[c].lines;
      assert c in r.active && i in r.active[c].lines && j in r.active[c].lines;
    }
    if TogetherOpen(r, i, j) {
      var c :| c in r.active && i in r.active[c].lines && j in r.active[c].lines;
      assert c in s.active && i in s.active[c].lines && j in s.active[c].lines;
    }
  }

  lemma NewTogether(s: State, client: string, session: Session, n: nat, i: nat, j: nat)
    requires client !in s.active && session.lines == [n] && (i != n || j != n)
    ensures Together(s.(active := s.active[client := session]), i, j) <==> Together(s, i, j)
  {
    var r := s.(active := s.active[client := session]);
    if TogetherOpen(s, i, j) {
      var c :| c in s.active && i in s.active[c].lines && j in s.active[c].lines;
      assert c in r.active && i in r.active[c].lines && j in r.active[c].lines;
    }
    if TogetherOpen(r, i, j) {
      var c :| c in r.active && i in r.active[c].lines && j in r.active[c].lines;
      assert c in s.active && i in s.active[c].lines && j in s.active[c].lines;
    }
  }

  lemma PlaceTogether(s: State, line: Line, n: nat, lifetime: nat, i: nat, j: nat)
    requires WellFormed(line) && i < n && j < n
    ensures Together(Place(s, line, n, lifetime), i, j) <==> Together(s, i, j)
  {
    var client := line.client.value;
    if Continues(s, line, lifetime) {
      var session := s.active[client];
      ReplaceTogether(s, client, Session(Extend(session.evidence, line), session.lines + [n]), n, i, j);
    } else {
      CloseTogether(s, client, i, j);
      NewTogether(Close(s, client), client, Session(Begin(line), [n]), n, i, j);
    }
  }

  lemma StepTogether(s: State, line: Line, n: nat, lifetime: nat, i: nat, j: nat)
    requires i < n && j < n
    ensures Together(Step(s, line, n, lifetime), i, j) <==> Together(s, i, j)
  {
    if WellFormed(line) {
      PlaceTogether(s, line, n, lifetime, i, j);
      CloseTogether(Place(s, line, n, lifetime), line.client.value, i, j);
    } else if HasClient(line) {
      CloseTogether(s, line.client.value, i, j);
    }
  }

  lemma {:induction false} Steady(f: nat -> bool, m: nat, n: nat)
    requires m <= n && forall k: nat :: m <= k < n ==> f(k + 1) == f(k)
    ensures f(n) == f(m)
    decreases n
  {
    if m < n {
      Steady(f, m, n - 1);
      assert f(n - 1 + 1) == f(n - 1);
    }
  }

  lemma NextTogether(lines: seq<Line>, n: nat, lifetime: nat, i: nat, j: nat)
    requires i < n && j < n && n < |lines|
    ensures Together(Read(lines, n + 1, lifetime), i, j) <==> Together(Read(lines, n, lifetime), i, j)
  {
    StepTogether(Read(lines, n, lifetime), lines[n], n, lifetime, i, j);
  }

  /** When `n` lines are read, the two lines are in one session. */
  ghost predicate TogetherAfter(lines: seq<Line>, lifetime: nat, i: nat, j: nat, n: nat) {
    n <= |lines| && Together(Read(lines, n, lifetime), i, j)
  }

  lemma TogetherNext(lines: seq<Line>, lifetime: nat, i: nat, j: nat, n: nat)
    requires i < n && j < n && n < |lines|
    ensures TogetherAfter(lines, lifetime, i, j, n + 1) == TogetherAfter(lines, lifetime, i, j, n)
  {
    NextTogether(lines, n, lifetime, i, j);
  }

  /** Lines that are in one session, or are not, stay so. */
  lemma StayTogether(lines: seq<Line>, m: nat, n: nat, lifetime: nat, i: nat, j: nat)
    requires i < m && j < m <= n <= |lines|
    ensures TogetherAfter(lines, lifetime, i, j, n) == TogetherAfter(lines, lifetime, i, j, m)
  {
    var f := (k: nat) => TogetherAfter(lines, lifetime, i, j, k);
    forall k: nat | m <= k < n
      ensures f(k + 1) == f(k)
    {
      TogetherNext(lines, lifetime, i, j, k);
    }
    Steady(f, m, n);
  }

  // ---------------------------------------------------------------------
  // The session that a line leaves open.

  /** The client's session is open and its last line is `i`. */
  predicate OpenWith(s: State, client: string, i: nat) {
    client in s.active && s.active[client].lines != [] &&
    s.active[client].lines[|s.active[client].lines| - 1] == i
  }

  /** The second line comes at the time of the first or later, within the lifetime. */
  predicate Follows(a: Line, b: Line, lifetime: nat)
    requires HasClient(a) && HasClient(b)
  {
    0 <= b.at - a.at <= lifetime
  }

  predicate OfClient(line: Line, client: string) {
    HasClient(line) && line.client.value == client
  }

  /** Between the two lines the client has no line that counts. */
  ghost predicate NoneBetween(lines: seq<Line>, i: nat, j: nat, client: string)
    requires j <= |lines|
  {
    forall b :: i < b < j && OfClient(lines[b], client) ==> !WellFormed(lines[b])
  }

  /** And its malformed lines, which are rejections, all follow the first line in time. */
  ghost predicate NoneTooLate(lines: seq<Line>, i: nat, j: nat, client: string, lifetime: nat)
    requires i < j <= |lines| && HasClient(lines[i])
  {
    forall b :: i < b < j && OfClient(lines[b], client) ==> Follows(lines[i], lines[b], lifetime)
  }

  lemma PlaceOpens(s: State, line: Line, i: nat, lifetime: nat)
    requires WellFormed(line)
    ensures OpenWith(Place(s, line, i, lifetime), line.client.value, i)
  {
  }

  /** A line of another client, or none, leaves the client's session alone. */
  lemma OthersLeaveIt(s: State, line: Line, n: nat, lifetime: nat, client: string)
    requires !OfClient(line, client)
    ensures var r := Step(s, line, n, lifetime);
            && (client in r.active <==> client in s.active)
            && (client in s.active ==> r.active[client] == s.active[client])
  {
  }

  lemma MalformedStep(s: State, line: Line, n: nat, lifetime: nat, client: string)
    requires OfClient(line, client) && !WellFormed(line)
    ensures Step(s, line, n, lifetime) == if Continues(s, line, lifetime) then s else Close(s, client)
    ensures client in s.active ==>
            (Continues(s, line, lifetime) <==> Timely(s.active[client].evidence, line.at, lifetime))
    ensures client !in s.active ==> !Continues(s, line, lifetime)
  {
  }

  /** A malformed rejection closes the session exactly when it does not follow its last line. */
  lemma MalformedLine(lines: seq<Line>, s: State, n: nat, lifetime: nat, client: string, i: nat)
    requires i < n < |lines| && AllSay(lines, s) && HasClient(lines[i])
    requires OfClient(lines[n], client) && !WellFormed(lines[n])
    requires OpenWith(s, client, i) || client !in s.active
    ensures var r := Step(s, lines[n], n, lifetime);
            && (OpenWith(r, client, i) <==> OpenWith(s, client, i) && Follows(lines[i], lines[n], lifetime))
            && (OpenWith(r, client, i) || client !in r.active)
  {
    MalformedStep(s, lines[n], n, lifetime, client);
    if OpenWith(s, client, i) {
      LastTime(lines, s, client, i);
    }
  }

  lemma LastTime(lines: seq<Line>, s: State, client: string, i: nat)
    requires i < |lines| && AllSay(lines, s) && HasClient(lines[i]) && OpenWith(s, client, i)
    ensures s.active[client].evidence.lastAt == lines[i].at
  {
    assert Says(s.active[client].evidence, lines, s.active[client].lines);
  }

  /** The next line of the log, if it is none that counts for the client. */
  lemma NextLine(lines: seq<Line>, lifetime: nat, i: nat, n: nat, client: string)
    requires i < n < |lines| && HasClient(lines[i]) && (OfClient(lines[n], client) ==> !WellFormed(lines[n]))
    requires OpenWith(Read(lines, n, lifetime), client, i) || client !in Read(lines, n, lifetime).active
    ensures OpenWith(Read(lines, n + 1, lifetime), client, i) <==>
            && OpenWith(Read(lines, n, lifetime), client, i)
            && (OfClient(lines[n], client) ==> Follows(lines[i], lines[n], lifetime))
    ensures OpenWith(Read(lines, n + 1, lifetime), client, i) || client !in Read(lines, n + 1, lifetime).active
  {
    var s := Read(lines, n, lifetime);
    if OfClient(lines[n], client) {
      ReadSays(lines, n, lifetime);
      MalformedLine(lines, s, n, lifetime, client, i);
    } else {
      OthersLeaveIt(s, lines[n], n, lifetime, client);
    }
  }

  lemma NoneTooLateNext(lines: seq<Line>, i: nat, n: nat, client: string, lifetime: nat)
    requires i < n < |lines| && HasClient(lines[i])
    ensures NoneTooLate(lines, i, n + 1, client, lifetime) <==>
            && NoneTooLate(lines, i, n, client, lifetime)
            && (OfClient(lines[n], client) ==> Follows(lines[i], lines[n], lifetime))
  {
  }

  lemma FirstOpens(lines: seq<Line>, lifetime: nat, i: nat, client: string)
    requires i < |lines| && WellFormed(lines[i]) && lines[i].client == Some(client)
    ensures OpenWith(Read(lines, i + 1, lifetime), client, i) <==> !lines[i].Reject?
    ensures OpenWith(Read(lines, i + 1, lifetime), client, i) || client !in Read(lines, i + 1, lifetime).active
  {
    PlaceOpens(Read(lines, i, lifetime), lines[i], i, lifetime);
  }

  /** The session of line `i` is open until the client's next line that counts, unless a rejection closed it at once or
      a malformed one that came too late did. */
  lemma {:induction false} StaysOpen(lines: seq<Line>, lifetime: nat, i: nat, n: nat, client: string)
    requires i < n <= |lines| && WellFormed(lines[i]) && lines[i].client == Some(client)
    requires NoneBetween(lines, i, n, client)
    ensures OpenWith(Read(lines, n, lifetime), client, i) <==>
            !lines[i].Reject? && NoneTooLate(lines, i, n, client, lifetime)
    ensures OpenWith(Read(lines, n, lifetime), client, i) || client !in Read(lines, n, lifetime).active
    decreases n
  {
    if n == i + 1 {
      FirstOpens(lines, lifetime, i, client);
    } else {
      StaysOpen(lines, lifetime, i, n - 1, client);
      NextLine(lines, lifetime, i, n - 1, client);
      NoneTooLateNext(lines, i, n - 1, client, lifetime);
    }
  }

  // ---------------------------------------------------------------------
  // The next line.

  lemma OnlyThere(lines: seq<Line>, s: State, n: nat, lifetime: nat, client: string, i: nat, m: nat)
    requires n <= |lines| && OpenSound(lines, s, n, lifetime) && DoneSound(lines, s, n, lifetime)
    requires OpenWith(s, client, i)
    ensures Together(s, m, i) <==> m in s.active[client].lines
  {
    var own := s.active[client];
    assert own.lines[|own.lines| - 1] == i && i in own.lines;
    if TogetherOpen(s, m, i) {
      OnlyOpen(lines, s, n, lifetime, client, i, m);
    }
    if TogetherDone(s, m, i) {
      NotDone(lines, s, n, lifetime, client, i, m);
    }
  }

  lemma OnlyOpen(lines: seq<Line>, s: State, n: nat, lifetime: nat, client: string, i: nat, m: nat)
    requires n <= |lines| && OpenSound(lines, s, n, lifetime)
    requires client in s.active && i in s.active[client].lines && TogetherOpen(s, m, i)
    ensures m in s.active[client].lines
  {
    var c :| c in s.active && m in s.active[c].lines && i in s.active[c].lines;
    LineTellsClient(lines, s.active[c], n, lifetime, i);
    LineTellsClient(lines, s.active[client], n, lifetime, i);
  }

  lemma LineTellsClient(lines: seq<Line>, session: Session, n: nat, lifetime: nat, i: nat)
    requires n <= |lines| && Sound(lines, session, n, lifetime) && i in session.lines
    ensures i < n && lines[i].client == Some(session.evidence.client)
  {
  }

  lemma NotDone(lines: seq<Line>, s: State, n: nat, lifetime: nat, client: string, i: nat, m: nat)
    requires n <= |lines| && OpenSound(lines, s, n, lifetime) && DoneSound(lines, s, n, lifetime)
    requires client in s.active && i in s.active[client].lines
    ensures !TogetherDone(s, m, i)
  {
    if TogetherDone(s, m, i) {
      var k :| 0 <= k < |s.done| && m in s.done[k].lines && i in s.done[k].lines;
      var own := s.active[client];
      LineTellsClient(lines, s.done[k], n, lifetime, i);
      LineTellsClient(lines, own, n, lifetime, i);
      NotInBoth(lines, s.done[k], own, n, lifetime, i);
    }
  }

  lemma NotInBoth(lines: seq<Line>, a: Session, b: Session, n: nat, lifetime: nat, i: nat)
    requires n <= |lines| && Sound(lines, a, n, lifetime) && Sound(lines, b, n, lifetime)
    requires Earlier(a, b) && a.evidence.client == b.evidence.client && i in a.lines
    ensures i !in b.lines
  {
  }

  /** What the session that is open with line `i` needs of the next line. */
  ghost predicate Welcomes(lines: seq<Line>, own: seq<nat>, next: Line)
    requires forall x :: x in own ==> x < |lines|
  {
    match next
    case Connect(_, _, service) => service == Smtpd && Connects(lines, own, Postscreen) && !Connects(lines, own, Smtpd)
    case Pregreet(_, _, _, _) => !Pregreets(lines, own)
    case Reject(_, _, _) => true
    case _ => false
  }

  lemma ContinuesMeans(lines: seq<Line>, s: State, client: string, i: nat, next: Line, lifetime: nat)
    requires AllSay(lines, s) && OpenWith(s, client, i) && WellFormed(next) && next.client == Some(client)
    ensures i < |lines| && HasClient(lines[i]) && forall x :: x in s.active[client].lines ==> x < |lines|
    ensures Continues(s, next, lifetime) <==>
            Follows(lines[i], next, lifetime) && Welcomes(lines, s.active[client].lines, next)
  {
    var session := s.active[client];
    SessionSays(lines, s, client);
    JoinsMeans(lines, session.evidence, session.lines, next, lifetime);
  }

  lemma SessionSays(lines: seq<Line>, s: State, client: string)
    requires AllSay(lines, s) && client in s.active
    ensures Says(s.active[client].evidence, lines, s.active[client].lines)
  {
  }

  lemma JoinsMeans(lines: seq<Line>, e: Evidence, own: seq<nat>, next: Line, lifetime: nat)
    requires Says(e, lines, own) && WellFormed(next)
    ensures Joins(e, next, lifetime) <==> Follows(lines[own[|own| - 1]], next, lifetime) && Welcomes(lines, own, next)
  {
    assert e.pregreetAt.None? <==> !Pregreets(lines, own);
  }

  /** A line that is not yet read is in no session. */
  lemma NotYet(lines: seq<Line>, s: State, n: nat, lifetime: nat, i: nat, j: nat)
    requires n <= j && n <= |lines| && OpenSound(lines, s, n, lifetime) && DoneSound(lines, s, n, lifetime)
    ensures !Together(s, i, j)
  {
  }

  lemma PlacedTogether(lines: seq<Line>, s: State, i: nat, j: nat, lifetime: nat, client: string)
    requires i < j < |lines| && WellFormed(lines[j]) && lines[j].client == Some(client)
    requires OpenSound(lines, s, j, lifetime) && DoneSound(lines, s, j, lifetime)
    requires OpenWith(s, client, i) || client !in s.active
    ensures Together(Place(s, lines[j], j, lifetime), i, j) <==> Continues(s, lines[j], lifetime)
  {
    var p := Place(s, lines[j], j, lifetime);
    if Continues(s, lines[j], lifetime) {
      InMore(s.active[client].lines, j);
      assert i in s.active[client].lines;
      assert client in p.active && i in p.active[client].lines && j in p.active[client].lines;
    } else {
      CloseTogether(s, client, i, j);
      NewTogether(Close(s, client), client, Session(Begin(lines[j]), [j]), j, i, j);
      NotYet(lines, s, j, lifetime, i, j);
    }
  }

  /** When line `j` is read, it joins line `i` exactly when it continues the session. */
  lemma JoinedAt(lines: seq<Line>, lifetime: nat, i: nat, j: nat, client: string)
    requires i < j < |lines| && WellFormed(lines[j]) && lines[j].client == Some(client)
    requires OpenWith(Read(lines, j, lifetime), client, i) || client !in Read(lines, j, lifetime).active
    ensures TogetherAfter(lines, lifetime, i, j, j + 1) <==> Continues(Read(lines, j, lifetime), lines[j], lifetime)
  {
    var s := Read(lines, j, lifetime);
    ReadIsSound(lines, j, lifetime);
    PlacedTogether(lines, s, i, j, lifetime, client);
    CloseTogether(Place(s, lines[j], j, lifetime), client, i, j);
  }

  // ---------------------------------------------------------------------
  // The final sessions.

  /** The two lines are in one session. */
  ghost predicate SameSession(all: seq<Session>, i: nat, j: nat) {
    exists k :: 0 <= k < |all| && i in all[k].lines && j in all[k].lines
  }

  lemma RestTogether(s: State, rest: seq<Session>, i: nat, j: nat)
    requires Rest(rest, s.active)
    ensures Together(s, i, j) <==> SameSession(s.done + rest, i, j)
  {
    var all := s.done + rest;
    if TogetherOpen(s, i, j) {
      var c :| c in s.active && i in s.active[c].lines && j in s.active[c].lines;
      var k := RestHas(rest, s.active, c);
      assert all[|s.done| + k] == rest[k];
    }
    if TogetherDone(s, i, j) {
      var k :| 0 <= k < |s.done| && i in s.done[k].lines && j in s.done[k].lines;
      assert all[k] == s.done[k];
    }
    if SameSession(all, i, j) {
      var k :| 0 <= k < |all| && i in all[k].lines && j in all[k].lines;
      if k < |s.done| {
        assert all[k] == s.done[k];
      } else {
        var session := rest[k - |s.done|];
        assert all[k] == session && session == s.active[session.evidence.client];
      }
    }
  }

  /** Up to line `i`, its session has a connect of the service. */
  ghost predicate ConnectedBy(lines: seq<Line>, all: seq<Session>, i: nat, service: Service) {
    exists m: nat :: m <= i && m < |lines| && SameSession(all, m, i) && IsConnect(lines[m], service)
  }

  ghost predicate GreetedBy(lines: seq<Line>, all: seq<Session>, i: nat) {
    exists m: nat :: m <= i && m < |lines| && SameSession(all, m, i) && lines[m].Pregreet?
  }

  /** The next line of a client joins the session of its last one: every rejection does, a pregreet if the session has
      none, and a connect of smtpd if the session has one of Postscreen and none of smtpd. */
  ghost predicate Fits(lines: seq<Line>, all: seq<Session>, i: nat, next: Line) {
    || next.Reject?
    || (next.Pregreet? && !GreetedBy(lines, all, i))
    || (next.Connect? && next.service == Smtpd && ConnectedBy(lines, all, i, Postscreen) &&
        !ConnectedBy(lines, all, i, Smtpd))
  }

  /** The lines of an open session are, at the end of the log, those in one session with its last line. */
  lemma OpenLines(lines: seq<Line>, lifetime: nat, rest: seq<Session>, i: nat, j: nat, client: string, m: nat)
    requires i < j <= |lines| && m <= i && Rest(rest, Read(lines, |lines|, lifetime).active)
    requires OpenWith(Read(lines, j, lifetime), client, i)
    ensures m in Read(lines, j, lifetime).active[client].lines <==>
            SameSession(Read(lines, |lines|, lifetime).done + rest, m, i)
  {
    ReadIsSound(lines, j, lifetime);
    OnlyThere(lines, Read(lines, j, lifetime), j, lifetime, client, i, m);
    assert TogetherAfter(lines, lifetime, m, i, j) <==> Together(Read(lines, j, lifetime), m, i);
    StayTogether(lines, j, |lines|, lifetime, m, i);
    RestTogether(Read(lines, |lines|, lifetime), rest, m, i);
  }

  lemma WelcomesMeans(lines: seq<Line>, lifetime: nat, rest: seq<Session>, i: nat, j: nat, client: string)
    requires i < j < |lines| && Rest(rest, Read(lines, |lines|, lifetime).active) && WellFormed(lines[j])
    requires OpenWith(Read(lines, j, lifetime), client, i)
    requires forall x :: x in Read(lines, j, lifetime).active[client].lines ==> x <= i
    ensures var own, all := Read(lines, j, lifetime).active[client].lines, Read(lines, |lines|, lifetime).done + rest;
            Welcomes(lines, own, lines[j]) <==> Fits(lines, all, i, lines[j])
  {
    var own, all := Read(lines, j, lifetime).active[client].lines, Read(lines, |lines|, lifetime).done + rest;
    forall m: nat | m <= i
      ensures m in own <==> SameSession(all, m, i)
    {
      OpenLines(lines, lifetime, rest, i, j, client, m);
    }
    SameLinesFit(lines, own, all, i, lines[j]);
  }

  lemma SameLinesFit(lines: seq<Line>, own: seq<nat>, all: seq<Session>, i: nat, next: Line)
    requires i < |lines| && WellFormed(next)
    requires forall x :: x in own ==> x <= i
    requires forall m: nat :: m <= i ==> (m in own <==> SameSession(all, m, i))
    ensures Welcomes(lines, own, next) <==> Fits(lines, all, i, next)
  {
    assert forall service :: Connects(lines, own, service) <==> ConnectedBy(lines, all, i, service);
    assert Pregreets(lines, own) <==> GreetedBy(lines, all, i);
  }

  lemma FinallyTogether(lines: seq<Line>, lifetime: nat, rest: seq<Session>, i: nat, j: nat)
    requires Rest(rest, Read(lines, |lines|, lifetime).active) && i < j < |lines|
    ensures SameSession(Read(lines, |lines|, lifetime).done + rest, i, j) <==>
            TogetherAfter(lines, lifetime, i, j, j + 1)
  {
    StayTogether(lines, j + 1, |lines|, lifetime, i, j);
    RestTogether(Read(lines, |lines|, lifetime), rest, i, j);
  }

  lemma OpenContinues(lines: seq<Line>, lifetime: nat, rest: seq<Session>, i: nat, j: nat, client: string)
    requires Rest(rest, Read(lines, |lines|, lifetime).active) && i < j < |lines|
    requires HasClient(lines[i]) && WellFormed(lines[j]) && lines[j].client == Some(client)
    requires OpenWith(Read(lines, j, lifetime), client, i)
    ensures Continues(Read(lines, j, lifetime), lines[j], lifetime) <==>
            && Follows(lines[i], lines[j], lifetime)
            && Fits(lines, Read(lines, |lines|, lifetime).done + rest, i, lines[j])
  {
    var s := Read(lines, j, lifetime);
    ReadSays(lines, j, lifetime);
    ReadIsSound(lines, j, lifetime);
    ContinuesMeans(lines, s, client, i, lines[j], lifetime);
    LastIsLast(lines, s.active[client], j, lifetime, i);
    WelcomesMeans(lines, lifetime, rest, i, j, client);
  }

  /** When a line is in the same session as the client's line before it, told from the log alone: the earlier line is no
      rejection, neither the line nor a malformed rejection in between comes before it or later than the lifetime, and
      the session has a place for it. */
  lemma NextJoinsExactlyWhen(lines: seq<Line>, lifetime: nat, rest: seq<Session>, i: nat, j: nat, client: string)
    requires Rest(rest, Read(lines, |lines|, lifetime).active) && i < j < |lines|
    requires WellFormed(lines[i]) && WellFormed(lines[j])
    requires lines[i].client == Some(client) && lines[j].client == Some(client)
    requires NoneBetween(lines, i, j, client)
    ensures SameSession(Read(lines, |lines|, lifetime).done + rest, i, j) <==>
            && !lines[i].Reject? && Follows(lines[i], lines[j], lifetime)
            && NoneTooLate(lines, i, j, client, lifetime)
            && Fits(lines, Read(lines, |lines|, lifetime).done + rest, i, lines[j])
  {
    FinallyTogether(lines, lifetime, rest, i, j);
    StaysOpen(lines, lifetime, i, j, client);
    JoinedAt(lines, lifetime, i, j, client);
    if OpenWith(Read(lines, j, lifetime), client, i) {
      OpenContinues(lines, lifetime, rest, i, j, client);
    }
  }

  lemma LastIsLast(lines: seq<Line>, session: Session, n: nat, lifetime: nat, i: nat)
    requires n <= |lines| && Sound(lines, session, n, lifetime) && session.lines[|session.lines| - 1] == i
    ensures forall x :: x in session.lines ==> x <= i
  {
  }
}
