/** From the observers through the writer's file to the reader: loss on the way never makes a false record. */
module SmtpPipeline {
  import opened Bytes
  import opened SmtpEvent
  import opened SmtpFold
  import opened SmtpJournal
  import opened SmtpLoss
  import opened SmtpChunks
  import opened SmtpObserver
  import opened SmtpUpgrade
  import EventWriter
  import Fingerprint
  import HelloCodec
  import Records
  import SmtpDialogue

  /** The lines of a file; the rest of a failed write cannot be decoded. */
  function Lines(file: seq<EventWriter.Piece<Event>>): (lines: seq<Line>)
    ensures |lines| == |file|
  {
    seq(|file|, i requires 0 <= i < |file| => if file[i].Whole? then Decoded(file[i].event) else Undecodable)
  }

  lemma {:induction false} SubsequenceMembers(a: seq<Event>, b: seq<Event>)
    requires EventWriter.Subsequence(a, b)
    ensures Within(a, b)
    decreases |b|
  {
    if a != [] {
      var c := b[..|b| - 1];
      PrefixNext(b, |b| - 1);
      PrefixAll(b);
      MemberSnoc(c, b[|b| - 1]);
      if EventWriter.Subsequence(a, c) {
        SubsequenceMembers(a, c);
      } else {
        PrefixNext(a, |a| - 1);
        PrefixAll(a);
        MemberSnoc(a[..|a| - 1], a[|a| - 1]);
        SubsequenceMembers(a[..|a| - 1], c);
      }
    }
  }

  /** The reader sees only events of the file. */
  lemma {:induction false} SeenIsWritten(file: seq<EventWriter.Piece<Event>>, k: string)
    ensures forall e :: e in Of(Lines(file), k) ==> e in EventWriter.Events(file) && Key(e) == k
    decreases |file|
  {
    if file != [] {
      var before, last := file[..|file| - 1], file[|file| - 1];
      PrefixNext(file, |file| - 1);
      PrefixAll(file);
      assert Lines(file) == Lines(before) + [if last.Whole? then Decoded(last.event) else Undecodable];
      OfSnoc(Lines(before), if last.Whole? then Decoded(last.event) else Undecodable, k);
      EventWriter.EventsSnoc(before, last);
      SeenIsWritten(before, k);
    }
  }

  /** The offered events with a key are events of one observed connection. */
  ghost predicate OffersJournal(offered: seq<Event>, k: string, journal: seq<Event>) {
    forall e :: e in offered && Key(e) == k ==> e in journal
  }

  /** In every run of emitters, closers and the writing thread, with a full channel, a failing file, a clock that goes
      back or any number of other connections: a record that the reader makes of the file for a connection, and that
      passes the consumer's test, is the record of the connection's whole journal. `records` is what the reader
      returns. */
  lemma RecordsOfTheFileAreTrue(actions: seq<EventWriter.Action<Event>>, records: map<string, Record>, k: string,
                                instance: string, base: Event, inputs: seq<Input>, at: int)
    requires EventWriter.CanRun(EventWriter.Start<Event>(), actions)
    requires var r := EventWriter.Run(EventWriter.Start<Event>(), actions);
             && OffersJournal(r.offered, k, Journal(instance, base, inputs, at))
             && (k in records ==> Of(Lines(r.file), k) != [] && records[k] == FoldOne(Of(Lines(r.file), k)).record)
    requires Named(base)
    ensures k in records && CompleteObservation(records[k]) ==>
            records[k] == FoldOne(Journal(instance, base, inputs, at)).record
  {
    var r := EventWriter.Run(EventWriter.Start<Event>(), actions);
    var es := Of(Lines(r.file), k);
    FileIsOffered(actions);
    SeenIsWritten(r.file, k);
    if k in records {
      assert Within(es, Journal(instance, base, inputs, at));
      LossIsHarmless(instance, base, inputs, at, es);
    }
  }

  lemma FileIsOffered(actions: seq<EventWriter.Action<Event>>)
    requires EventWriter.CanRun(EventWriter.Start<Event>(), actions)
    ensures var r := EventWriter.Run(EventWriter.Start<Event>(), actions);
            Within(EventWriter.Events(r.file), r.offered)
  {
    EventWriter.EveryRunAccounts(EventWriter.Start<Event>(), actions);
    var r := EventWriter.Run(EventWriter.Start<Event>(), actions);
    SubsequenceMembers(EventWriter.Events(r.file) + r.hand + r.channel, r.offered);
    assert forall e :: e in EventWriter.Events(r.file) ==> e in EventWriter.Events(r.file) + r.hand + r.channel;
  }

  // ---------------------------------------------------------------------
  // From the ClientHello to the record.

  /** The fingerprint event of a connection is in its journal, and so in its record. */
  lemma PrintIsRecorded(instance: string, base: Event, inputs: seq<Input>, at: int, e: Event)
    requires Named(base) && e in Run(Fresh(instance, base), inputs).emitted && e.kind == FingerprintEvent
    ensures var r := FoldOne(Journal(instance, base, inputs, at)).record;
            r.tls == e.timestamp && r.ja3 == e.ja3 && r.ja4 == e.ja4
  {
    var js := Journal(instance, base, inputs, at);
    var end := JournalIsWhole(instance, base, inputs, at);
    WholeIsConsistent(js, instance, base, Run(Fresh(instance, base), inputs), end);
    FoldMeans(js);
    assert e in js;
    assert Agrees(FoldOne(js).record, e);
  }

  /** Whatever is lost, repeated or reordered on the way: a complete record of a connection that upgrades after a
      compliant dialogue carries the JA3 and JA4 of what its ClientHello means, and the time at which it was whole. */
  lemma RecordedPrintIsTrue(instance: string, base: Event, acts: seq<SmtpDialogue.Act>, dialogue: seq<Input>,
                            m: HelloCodec.Message, fragments: seq<((byte, byte), seq<byte>)>, more: seq<byte>,
                            later: seq<Input>, at: int, es: seq<Event>)
    returns (n: nat)
    requires Named(base) && EndsInUpgrade(acts, dialogue) && SendsHello(m, fragments, more, later)
    requires es != [] && Within(es, Journal(instance, base, dialogue + later, at))
    requires CompleteObservation(FoldOne(es).record)
    ensures Brings(later, n, |Records.Stream(fragments)|)
    ensures var r, h := FoldOne(es).record, HelloCodec.Meaning(m);
            r.tls == Some(later[n].at) && r.ja3 == Fingerprint.JA3Text(h) && r.ja4 == Some(Fingerprint.JA4Of(h))
  {
    n := DialogueIsFingerprinted(instance, base, acts, dialogue, m, fragments, more, later);
    var e := Stamp(HelloEvent(base, HelloCodec.Meaning(m), later[n].at), instance);
    MemberSnoc(Run(Fresh(instance, base), dialogue).emitted, e);
    PrintIsRecorded(instance, base, dialogue + later, at, e);
    LossIsHarmless(instance, base, dialogue + later, at, es);
  }
}
