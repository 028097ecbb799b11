# Verified models of tlsgate's protocol core

tlsgate sits between clients and a mail or web server. It reassembles and fingerprints TLS ClientHellos,
watches SMTP dialogues for STARTTLS upgrades, writes telemetry events, and later folds these events and the
Postfix logs into reports. This project models that core in Dafny and proves what it promises. Run
`dafny verify dfyconfig.toml` in this directory.

## Layout

- `bytes.dfy`, `text.dfy`, `counting.dfy`, `sorting.dfy`: bytes and sequences, joined and split texts, counters in maps,
  sorting.
- `records.dfy`, `record_verdicts.dfy`: the two reassemblers, and what they accept and refuse.
- `client_hello.dfy`, `hello_framing.dfy`, `hello_codec.dfy`: the parser, what it accepts, and a serializer written from
  section 4.1.2 of RFC 8446.
- `fingerprint.dfy`, `fingerprint_text.dfy`: JA3 and JA4, and how their texts read back.
- `smtp_lines.dfy`, `smtp_words.dfy`, `smtp_behavior.dfy`, `behavior_summary.dfy`: command lines, and the summary of a
  client's behaviour.
- `smtp_event.dfy`, `smtp_observer.dfy`, `smtp_proxy.dfy`: the observer; its specification is a state with a function
  for each chunk, and the class in `smtp_proxy.dfy` is proved against it.
- `smtp_chunks.dfy`, `smtp_ending.dfy`, `smtp_dialogue.dfy`, `smtp_conduct.dfy`, `smtp_upgrade.dfy`: the observer over
  whole runs: cutting into chunks, what makes it stop, compliant dialogues and their summaries, the upgrade.
- `smtp_fold.dfy`, `smtp_journal.dfy`, `smtp_loss.dfy`, `smtp_pipeline.dfy`: the reader of the events, the journal of a
  connection from the producer to the consumer, and both around the writer's file.
- `postfix_log.dfy`, `attribution.dfy`, `correlation_report.dfy`: the correlation with Postfix.
- `campaign_evidence.dfy`, `campaign_sessions.dfy`: the Postscreen sessions, and which lines join them.
- `campaign_report.dfy`, `campaign_matching.dfy`: the campaign report with its validator, and what its decisions mean.
- `alerts.dfy`, `event_writer.dfy`, `whitelist_sync.dfy`: the concurrent and crash-prone protocols, as atomic steps of
  any number of threads, with the program's own methods proved to perform these steps.

## Where the code does less than it says

- `ja4.go:66-69` says that an empty extension list hashes to zeros. The hashed text of section c always contains an
  underscore, so its zeros never appear (`Fingerprint.SentinelMarksNoCiphers`).
- `isJA4Fingerprint` is said to accept the shape that `computeJA4` produces. It refuses exactly the fingerprints whose
  ALPN code shows a capital letter (`Fingerprint.RenderedShape`, `Fingerprint.CapitalsAreRefused`).
- A TLS handshake byte is looked for at the start of a client chunk only (`smtp_proxy.go:188`), and the sizes of the
  buffers are tested with a whole chunk in them (`smtp_proxy.go:206`, `:257`, `:311`). So the cutting of the bytes into
  chunks can make a difference, and `SmtpChunks.ClientChunkIsBytes` says exactly when. For a chunk that fits the 64 KiB
  buffers: when such a byte hides later in it, where a command could start, for instance after an empty line
  (`SmtpChunks.HiddenHandshake`). For a chunk that does not fit: when something happens in it before the buffer
  overflows, as in a run of three chunks within the pump's 32 KiB (`SmtpChunks.LongChunkIsLost`), or when its TLS bytes
  hold a whole ClientHello before the cap.
- Where the buffered reassembler waits for more bytes, the streaming one reads short, too, except that it refuses a
  record whose header declares more than 64 KiB leaves room for. It refuses exactly then (`Records.ReassemblersAgree`),
  for instance at the fourth full record of a 64 KiB message (`Records.FourthRecordOverflows`).
- The fold of the events can depend on their order: a start event without a client erases a name that later events
  would contradict (`SmtpJournal.UnnamedStartHidesConflict`). The outcome is free of the order if and only if the events
  are wrong in any order, or each of client and listener is named by every start event or by no event at all
  (`SmtpJournal.OrderFreeExactlyWhen`). Events of the observer always name both ends.
- `AlertBlocked` asks the store and marks the pair in two steps. Between them the pair can be sent, recorded and
  cleared, and is then sent again; a failed recording and an eviction have the same effect. Each alone is enough, in a
  run from the start (`Alerts.StaleMarkSendsTwice`, `Alerts.FailedRecordSendsTwice`, `Alerts.EvictionSendsTwice`).
  Without the three every pair is sent at most once, in particular if checking and marking were one step
  (`Alerts.AtomicIsOnce`). A pair that is not pending can be sent, again or for the first time, exactly when it is
  unrecorded or some caller still holds an earlier check of it (`Alerts.SentAgainExactlyWhen`).
- A campaign report of tlsgate is refused by its own validator exactly when a client is longer than 256 characters (an
  IPv6 zone can be), or a client cannot be split into host and port again, or evidence is attributed to a connection
  identifier longer than 128 (`CampaignReport.ProducedIsAccepted`, `CampaignReport.OverlongClientIsRefused`). A client
  that the log reader has joined cannot be split exactly when its address has a bracket, which an IPv6 zone can have
  (`CampaignReport.JoinedIsEndpoint`, `CampaignReport.BracketInZoneIsRefused`).
- The whitelist script says that manual entries are never touched. It knows names only: an entry that it has added,
  that was removed by hand and put back by hand, it removes (`WhitelistSync.EntryPutBackByHandIsRemoved`). An entry
  added just before a crash is removed by no later sync, and stays until it is taken out by hand
  (`WhitelistSync.CrashLeavesAnOrphan`).

## Model

| member | source | states |
|---|---|---|
| Records.ClientHelloFromBytes | smtp_proxy.go:367-401 | the loop over the buffer answers what the record walk specifies: incomplete, refused with the reason, or the first header with all handshake bytes |
| Records.ReadClientHello | proxy.go:566-611 | the streaming loop answers what its specification says, and except after a short read `raw` and what is left are together exactly what arrived |
| Records.AnswerIsStable | smtp_proxy.go:367-401 | an answer other than incomplete never changes when bytes are appended |
| Records.StreamedIsBuffered | proxy.go:566-611 | whatever the streaming reader accepts, the buffered one accepts from the same `raw` with the same buffer |
| Records.ReassemblersAgree | smtp_proxy.go:309-319 | for at most 64 KiB the two reassemblers accept the same inputs with the same buffer and refuse for the same reasons; where the buffered one waits, the streaming one refuses if and only if a pending header overflows the cap, and otherwise reads short |
| Records.FourthRecordOverflows | proxy.go:578-580 | an input of at most 64 KiB for which the buffered one waits and the streaming one refuses |
| Records.FragmentationIndependence | proxy.go:588-608 | any cut of a handshake message into records of 1 to 18 KiB is reassembled by both to the same message, and the streaming one forwards exactly the records |
| RecordVerdicts.FromBytesMeans | smtp_proxy.go:367-401 | every buffer is cut into the records up to the one that decides and the bytes after them: too long a message is refused, a whole one accepted, and otherwise the next header is refused or waited for, by its type and a length of 1 to 18 KiB |
| ClientHello.ParseClientHello | ja3.go:81-190 | the parser, with an advancing position, gives the hello or the error that the recursive grammar gives, for every input |
| ClientHello.ParseSNI | ja3.go:192-212 | the first host name entry of the list, in bounds on every input |
| ClientHello.ParseALPN | ja3.go:214-232 | the protocol names up to the first that does not fit |
| ClientHello.ParseSupportedVersions | ja3.go:234-247 | the offered versions, of the client's list or the single value |
| ClientHello.ParseU16List | ja3.go:249-259 | the pairs of the declared list, as far as they are there |
| ClientHello.ParseReadsOnlyTheMessage | ja3.go:81-190 | the result depends on byte 0 and the bytes of the declared message only |
| HelloFraming.ParsesExactlyWhen | ja3.go:81-190 | a message is accepted if and only if it is a ClientHello in a handshake record, is all there, and its body has the framing of the standard, whatever the extensions hold |
| HelloCodec.RoundTrip | ja3.go:81-259 | parsing a serialized ClientHello gives back version, ciphers, extension order, groups, formats, name, protocols, versions and algorithms |
| HelloCodec.FragmentedHelloParses | ja3.go:305-322 | however its records are cut, both reassemblers lead to the same hello, and so to the same JA3 and JA4 |
| Fingerprint.U16Str | ja3.go:261-270 | the decimal texts of the list, without GREASE when asked, with dashes |
| Fingerprint.JA3FromHello | ja3.go:281-291 | the method computes the JA3 text of the specification |
| Fingerprint.JA3IsCanonical | ja3.go:261-291 | equal JA3 texts if and only if the version, the lists without GREASE and the point formats are equal |
| FingerprintText.JA3Reads | ja3.go:281-291 | the JA3 text splits into five parts that spell, in this order, the version, the ciphers, extensions and curves without GREASE, and the point formats, in decimal |
| FingerprintText.OnlyGreaseIsDropped | ja3.go:71-73 | the filter drops the sixteen reserved values, wherever they stand, and nothing else |
| Fingerprint.SortU16 | ja4.go:160-164 | an ascending permutation of its argument |
| Fingerprint.JA4Version | ja4.go:110-136 | the code of the highest offered version that is not GREASE |
| Fingerprint.FilterExtensions | ja4.go:34-47 | counts the extensions without GREASE, and keeps them without SNI and ALPN |
| Fingerprint.ComputeJA4 | ja4.go:23-75 | the loops compute the three sections of the specification |
| FingerprintText.SectionAReads | ja4.go:54-64 | section a shows in order TCP, the version code of the highest version, whether there is a server name, the two counts up to 99, and the ends of the first protocol |
| FingerprintText.SectionBReads | ja4.go:69 | section b spells the ciphers without GREASE in ascending order, in four hexadecimal digits each |
| FingerprintText.SectionCReads | ja4.go:71-72 | section c spells the remaining extensions in ascending order and, after an underscore, the signature algorithms in the client's order |
| Fingerprint.SectionBIsCanonical | ja4.go:29-70 | equal cipher texts if and only if the ciphers without GREASE are the same bag |
| Fingerprint.SectionCIsCanonical | ja4.go:71-72 | equal section c texts if and only if the hashed extensions are the same bag and the algorithms without GREASE the same list |
| Fingerprint.ShufflingKeepsJA4 | ja4.go:16-22 | shuffling ciphers and extensions or adding GREASE keeps the JA4 |
| Fingerprint.RenderedShape | ja4.go:77-98 | for every hash of twelve digits, the validator accepts the printed JA4 if and only if the ALPN code shows no capital |
| Fingerprint.CapitalsAreRefused | ja4.go:147-158 | a hello with the protocol H2 has a fingerprint that the validator refuses |
| Fingerprint.SentinelMarksNoCiphers | ja4.go:66-72 | section b is the sentinel exactly without ciphers, section c never is |
| SmtpBehavior.BehaviorTracker.Command | smtp_behavior.go:42-64 | one more command updates every field of the tracker as specified |
| SmtpBehavior.CanonicalIsVocabulary | smtp_behavior.go:66-75 | canonical verbs are exactly the fixed points of the canonical form |
| SmtpBehavior.TrackKeepsConsistent | smtp_behavior.go:42-64 | every command keeps the invariant of the tracker: at most 12 canonical verbs, overflow only when full |
| SmtpBehavior.SnapshotIsValid | smtp_behavior.go:117-147 | whatever a tracker has seen, its summary passes the consumer's validator |
| SmtpBehavior.FingerprintDeterminesBehavior | smtp_behavior.go:106-115 | two valid summaries have the same fingerprint text if and only if they are equal |
| BehaviorSummary.SummaryMeans | smtp_behavior.go:42-104 | for every list of commands the summary tells none, one or many before the greeting, the first verb, the first twelve verbs, the line endings, and the times of the first command and the first STARTTLS |
| SmtpConduct.SummaryIsTrue | smtp_proxy.go:192-341 | for every compliant dialogue and cut the summary is that of the commands that the client completed, with those before the last byte of the greeting as early ones, and the outcome is that of the replies to STARTTLS |
| SmtpWords.WordsMean | smtp_proxy.go:224-227 | words are what stands between white space |
| SmtpWords.ParseInt32Reads | smtp_proxy.go:240-244 | a decimal number, with or without a sign, is read as that number if it fits 32 bits and is refused otherwise |
| SmtpWords.BdatIsChunk | smtp_proxy.go:235-245 | the line that BDAT and a decimal size make announces exactly that payload |
| SmtpProxy.SmtpObserver.Client | smtp_proxy.go:178-248 | a client chunk changes the fields exactly as specified and keeps the invariant |
| SmtpProxy.SmtpObserver.Server | smtp_proxy.go:250-307 | a server chunk changes the fields exactly as specified and keeps the invariant |
| SmtpProxy.SmtpObserver.ObserveTLS | smtp_proxy.go:309-335 | TLS bytes are collected up to 64 KiB, reassembled, parsed and reported as specified |
| SmtpProxy.SmtpObserver.EndState | smtp_proxy.go:343-365 | the reported end state is the specified one |
| SmtpLoss.ReportMeans | smtp_proxy.go:343-365 | over every run each of the six reports stands for what was emitted and what stopped the observer: premature_tls if and only if a client chunk began with 0x16 where a command could begin, observer_incomplete if and only if there was no upgrade and no such chunk, and it lost track or something was unfinished |
| SmtpEnding.ByteStopsExactlyWhen | smtp_proxy.go:188-246 | byte by byte the client stops the observer if and only if it begins TLS at a boundary, overfills the line buffer, or ends a line with the queue full or BDAT without a size |
| SmtpProxy.SmtpObserver.BehaviorSnapshot | smtp_proxy.go:337-341 | the summary of a valid observer passes the consumer's validator |
| SmtpObserver.ClientKeepsValid | smtp_proxy.go:178-248 | every client chunk keeps the invariant: queue and open DATA body within 256, buffers bounded, a payload leaves no line open |
| SmtpObserver.ServerKeepsValid | smtp_proxy.go:250-307 | every server chunk keeps the invariant |
| SmtpChunks.ClientChunkIsBytes | smtp_proxy.go:178-248 | every client chunk works like its bytes one by one if and only if it fits and no handshake byte hides in it, or it does not fit and nothing happens in it before the buffer overflows |
| SmtpChunks.HiddenHandshake | smtp_proxy.go:188-191 | an empty line followed by a handshake byte in one chunk is missed |
| SmtpChunks.LongLineStopsBoth | smtp_proxy.go:206-213 | without a line feed before the buffer overflows, chunk and bytes stop the observer alike |
| SmtpChunks.LongChunkIsLost | smtp_proxy.go:206-209 | a run from the start of three chunks within 32 KiB and without a handshake byte that stops the observer, while byte by byte it reads on |
| SmtpChunks.ServerChunkIsBytes | smtp_proxy.go:250-307 | every server chunk works like its bytes one by one if and only if it fits, or nothing happens in it before the buffer overflows |
| SmtpChunks.ChunkIndependence | smtp_proxy.go:178-335 | two ways of cutting the same bytes into chunks that work like their bytes end in the same state, up to dead buffers, with the same events and end state |
| SmtpChunks.CalmRunIsClean | smtp_proxy.go:458-480 | chunks of the pump's 32 KiB are clean when the bytes keep short lines and hide no handshake |
| SmtpDialogue.ObserverIsFaithful | smtp_proxy.go:192-306 | for every compliant dialogue, interleaving and cut: armed, and waiting for the first TLS byte, if and only if some STARTTLS got its own 220, the queue is exactly the unanswered commands, and the end state is right |
| SmtpDialogue.FinalStep | smtp_proxy.go:271-306 | a final reply takes the oldest command, opens DATA after 354, and arms exactly after 220 to STARTTLS |
| SmtpDialogue.BodyStep | smtp_proxy.go:217-223 | a line of a dot-stuffed message never becomes a command, and only its last line ends the message |
| SmtpDialogue.PayloadStep | smtp_proxy.go:194-205 | the bytes of a BDAT payload are counted and never become a command |
| SmtpUpgrade.HelloIsReported | smtp_proxy.go:309-335 | the ClientHello that a chunk completes within 64 KiB is reported once, at the time of that chunk, whatever follows |
| SmtpUpgrade.UpgradeIsFingerprinted | smtp_proxy.go:291-335 | after an accepted STARTTLS every serialized hello is reported as what it means, at the time of the chunk that completes it, whatever the cuts and however long the session, if the bytes up to that chunk fit 64 KiB |
| SmtpUpgrade.DialogueIsFingerprinted | smtp_proxy.go:178-335 | a compliant dialogue that ends in an accepted STARTTLS and then a serialized hello, both in any cut, end fingerprinted with the event of what the hello means |
| SmtpFold.ReadConnections | smtp_correlate.go:435-507 | the one-pass reader with its two maps gives for each connection the fold of its own events, and the count of malformed lines |
| SmtpJournal.FoldMeans | smtp_correlate.go:443-498 | a record is invalid if and only if its events conflict; otherwise every part says what the event that carries it says |
| SmtpJournal.DescriptionIsUnique | smtp_correlate.go:443-498 | only one record says what a set of events says |
| SmtpJournal.OrderDoesNotMatter | smtp_correlate.go:443-498 | permuting or repeating events keeps the invalid flag and a valid record, when each field is named by every start event or by no event |
| SmtpJournal.OrderFreeExactlyWhen | smtp_correlate.go:443-498 | every order and repetition has the same outcome if and only if the events are wrong in any order, or each field is named by every start event or by no event |
| SmtpJournal.UnnamedStartHidesConflict | smtp_correlate.go:476-479 | a start event without a client lets a contradiction pass in one order that is noticed in another |
| SmtpLoss.HandleSMTPConn | smtp_proxy.go:418-455 | the events of a connection: start, what the observer emits, end with state and summary, or start and an incomplete end after a failure |
| SmtpLoss.RunStory | smtp_proxy.go:178-335 | over any run and with any clock: own events only, at most one upgrade and one fingerprint, in this order |
| SmtpLoss.RunRises | smtp_proxy.go:178-335 | over any run with a clock that does not go back: the events are in the order of their times, all within the run |
| SmtpLoss.CompleteExactlyWhen | smtp_correlate.go:379-392 | what a record must show to pass the test, for each reported state |
| SmtpLoss.LosslessIsComplete | smtp_correlate.go:379-392 | a whole journal, in any order, gives a valid record; it is complete if and only if an upgrade was accepted, or TLS began without one, or the observer neither lost track nor left something unfinished, and the clock was not seen to go back |
| SmtpLoss.LostIsIncomplete | smtp_correlate.go:379-392 | an observer that lost track never gives a complete record, whatever happens to its events |
| SmtpLoss.LossIsHarmless | smtp_correlate.go:379-392 | with any clock, and whatever is lost, repeated or reordered, a record that passes the test equals the lossless record |
| SmtpPipeline.RecordsOfTheFileAreTrue | smtp_correlate.go:435-507 | for every run of the writer, a record that the reader makes of its file and that passes the test is the record of the connection's whole journal |
| SmtpPipeline.RecordedPrintIsTrue | smtp_correlate.go:379-392 | whatever is lost, repeated or reordered, a complete record of a connection that upgrades after a compliant dialogue carries the JA3 and JA4 of what its hello means, and the time of the chunk that completed it |
| SmtpLoss.FailureIsIncomplete | smtp_proxy.go:421-449 | a connection that never reached its backend is never complete |
| PostfixLog.ReadPostfixMessages | smtp_correlate.go:515-583 | each queued message, with the back-patched order that the handshakes of its session give it: none, one before or after it, or several |
| PostfixLog.OrderMeans | smtp_correlate.go:545-561 | the order of a message: no handshake in its session, exactly one before it, exactly one after it, or several |
| PostfixLog.BackPatch | smtp_correlate.go:557-559 | changes the order of the listed messages and nothing else |
| PostfixLog.ReadHandshake | smtp_correlate.go:545-561 | a handshake of an open session turns its order and its messages, any other changes nothing |
| PostfixLog.ReadQueued | smtp_correlate.go:566-580 | a message joins the open session of its process and client, or stands alone |
| PostfixLog.Closed | smtp_correlate.go:538-541 | a disconnect, or a connect without a port, ends the session of its own process only |
| PostfixLog.Renewed | smtp_correlate.go:542-543 | a connect starts a new session even when the process identifier is reused |
| Attribution.MatchSMTPConn | smtp_correlate.go:602-620 | the loop returns exactly the candidates, in order |
| Attribution.SingleCandidateIsTrue | smtp_correlate.go:602-620 | with clocks within the tolerance the true connection is a candidate, so a single candidate is the true one |
| Attribution.CandidateExactlyWhen | smtp_correlate.go:602-620 | a record is a candidate if and only if some course of events, seen by two clocks within the tolerance, accounts for it and the message |
| Attribution.StarttlsIsSound | smtp_correlate.go:398-429 | a message called encrypted was not queued before the ClientHello |
| Attribution.PlaintextIsSound | smtp_correlate.go:398-429 | a message called plaintext was not queued after an accepted upgrade |
| Attribution.HandshakeFirstIsStarttls | smtp_correlate.go:406-412 | with the upgrade and its ClientHello observed, a message after Postfix's handshake is called encrypted |
| Attribution.MessageFirstIsPlaintext | smtp_correlate.go:413-417 | with the upgrade observed, a message before Postfix's handshake is called plaintext |
| Attribution.EarlyIsPlaintext | smtp_correlate.go:422-424 | without Postfix's word, a message queued more than twice the tolerance before the accepted upgrade is called plaintext |
| Attribution.LateIsStarttls | smtp_correlate.go:425-427 | one queued at least twice the tolerance after the ClientHello is called encrypted |
| Attribution.NoUpgradeIsPlaintext | smtp_correlate.go:419-421 | over a connection without an upgrade every message without Postfix's word is called plaintext |
| Attribution.UncertainMeans | smtp_correlate.go:398-429 | no answer is given only for an incomplete record, a contradiction, premature TLS, or a message within twice the tolerance of the upgrade |
| Attribution.BoundedVerdict | smtp_correlate.go:621-640 | the verdict that is the only one in the window, however often repeated, or none |
| CorrelationReport.CorrelateMessage | smtp_correlate.go:280-316 | the record of one message, as the candidates, the transport and the verdicts decide |
| CorrelationReport.MatchedIsJustified | smtp_correlate.go:285-312 | matched if and only if the queue identifier is not reused, one candidate, encrypted, and one deciding verdict; the record carries that verdict and fingerprint |
| CorrelationReport.ReasonsMean | smtp_correlate.go:280-312 | every reason holds if and only if its own condition on candidates, transport and verdicts does; matched needs a single different verdict from the time of queueing up to an hour later |
| CorrelationReport.RecordCarries | smtp_correlate.go:270-316 | which fields of a record come from the message, its connection and its verdict |
| CorrelationReport.ReportedTransportIsSound | smtp_correlate.go:280-316 | with the true connection in the batch, the reported record is its own, encrypted only after the ClientHello and plaintext only up to the accepted upgrade |
| CorrelationReport.Occurrences | smtp_correlate.go:247-254 | for each queue identifier the set of different messages that have it |
| CorrelationReport.DistinctIsOnce | smtp_correlate.go:269-275 | every message identity is reported exactly once |
| CorrelationReport.CountConnections | smtp_correlate.go:258-266 | the three classes of connections, adding up to all |
| CorrelationReport.RunSMTPCorrelation | smtp_correlate.go:256-356 | one record for each distinct message, and every counter counts the records that it names |
| CorrelationReport.AggregatesCount | smtp_correlate.go:341-355 | each fingerprint's counters count its own verdicts |
| CorrelationReport.ReportIsConserved | smtp_correlate.go:316-356 | messages are matched plus unmatched and the sum of the transports; matched is the sum of the verdicts and of the fingerprints; unmatched the sum of the reasons |
| CampaignEvidence.ReadSMTPCampaignEvidence | smtp_campaign.go:325-432 | the evidence is that of the specified sessions, closed ones first and then every open one once, sorted by client, with the count of malformed lines |
| CampaignEvidence.ReadConnect | smtp_campaign.go:350-371 | a connect line continues a Postscreen session once, or starts a new one |
| CampaignEvidence.ReadPregreet | smtp_campaign.go:372-391 | a pregreet line joins the open session if it is timely and the first, or starts a new one |
| CampaignEvidence.ReadReject | smtp_campaign.go:392-414 | a rejection closes its session; one with bad fields closes a session that it is too late for, and is not evidence |
| CampaignEvidence.SessionsPartitionTheLog | smtp_campaign.go:325-432 | every well-formed line is in exactly one session, of its own client; sessions of a client do not overlap, replay to their evidence, have ordered lines within the lifetime, and span at most three lifetimes |
| CampaignSessions.NextJoinsExactlyWhen | smtp_campaign.go:350-414 | a line is in the session of its client's line before it if and only if that one is no rejection, nothing came too early or too late, and it is a rejection, the first pregreet, or the smtpd connect after the Postscreen one |
| CampaignSessions.EvidenceSays | smtp_campaign.go:350-414 | the evidence of every session is what its own lines say: early greeting with verb and user, rejection with its fields, connects and times, and at most one line of each kind |
| CampaignReport.MatchingSMTPConnections | smtp_campaign.go:258-272 | the connections of the client that are short enough and contain all times of the evidence within the tolerance |
| CampaignMatching.MatchesExactlyWhen | smtp_campaign.go:258-272 | evidence matches a valid and short enough connection of its client if and only if every time that it shows is within the connection, up to the tolerance |
| CampaignMatching.TrueConnectionMatches | smtp_campaign.go:258-272 | with clocks within the tolerance, evidence logged while a connection lasted matches it |
| CampaignReport.SignatureMeans | smtp_campaign.go:279-304 | each signature if and only if log and behaviour show an early greeting with its verb, and the user or the rejected support mailbox of its own domain |
| CampaignReport.CanonicalDomainIsStable | smtp_campaign.go:476-492 | the canonical form of a domain is its own canonical form |
| CampaignMatching.CanonicalDomainExactlyWhen | smtp_campaign.go:476-492 | the canonical form of a text is the domain that it spells, without white space around it, in small letters and with or without a final dot |
| CampaignMatching.SplitMailboxExactlyWhen | smtp_campaign.go:462-474 | a mailbox is cut at its last at sign, if what stands before is 1 to 64 long and what stands after spells a domain |
| CampaignReport.CleanBehaviors | smtp_campaign.go:176-181 | invalid behaviours, and only they, are dropped and counted; no connection is |
| CampaignReport.RunSMTPCampaignClassification | smtp_campaign.go:201-244 | one entry for each session of evidence, sorted by time and client, and counters that count the entries and the connections without evidence |
| CampaignMatching.EntrySays | smtp_campaign.go:212-242 | what an entry shows of its evidence and its connection, and whose time it has |
| CampaignReport.AttributionsMean | smtp_campaign.go:216-223 | the seen identifiers are those of single matches |
| CampaignReport.ValidateSMTPCampaignReport | smtp_report.go:211-252 | reports no defect if and only if identity, counts, signatures and every entry are sound |
| CampaignMatching.SoundEntryExactlyWhen | smtp_report.go:240-250 | an entry is sound if and only if it has a time, a client of up to 256 that is an endpoint, other texts of up to 128, and no undeclared signature |
| CampaignMatching.SoundCountsExactlyWhen | smtp_report.go:218-227 | counts are sound if and only if they are those of some numbers of sessions, connections and malformed lines |
| CampaignReport.ProducedIsAccepted | smtp_report.go:218-250 | a produced report is accepted if and only if no client and no attributed connection identifier is overlong, and every client can be split into host and port |
| CampaignReport.JoinedIsEndpoint | smtp_campaign.go:442-452 | a client joined from an address and a port can be split again if and only if the address has no bracket |
| CampaignReport.BracketInZoneIsRefused | smtp_report.go:246-248 | a client with a bracket in its IPv6 zone gives a produced report of short fields that is refused |
| CampaignReport.OverlongClientIsRefused | smtp_report.go:243-245 | a client of 257 characters gives a produced report that is refused |
| Alerts.BlockedRangeAlerter.AlertBlocked | alerts.go:338-372 | an undisturbed call performs steps of the protocol; with room, every unrecorded pair is queued unless it was pending, and nothing else becomes pending |
| Alerts.BlockedRangeAlerter.MarkPending | alerts.go:394-403 | marks a pair unless it is marked |
| Alerts.BlockedRangeAlerter.WorkOne | alerts.go:374-392 | a worker's turn is take, send, record after a successful send, and clear last |
| Alerts.PendingIsExact | alerts.go:338-410 | in every state of every run the pending pairs are exactly those being enqueued, queued or in a worker, none twice, within the queue |
| Alerts.AtMostOnce | alerts.go:349-392 | a pair is sent at most once in every run without a stale mark, a failed recording or an eviction of it, whatever happens to others |
| Alerts.AtomicIsOnce | alerts.go:350-357 | if every mark directly follows its own check, recording does not fail and nothing is evicted, a pair is sent at most once over any run |
| Alerts.StaleMarkSendsTwice | alerts.go:350-357 | a run from the start in which a check that is out of date alone leads to a second send |
| Alerts.EvictionSendsTwice | alerts.go:350-357 | a run from the start in which an eviction alone does |
| Alerts.FailedRecordSendsTwice | alerts.go:383-387 | a run from the start in which a failed recording alone does |
| Alerts.SentAgainExactlyWhen | alerts.go:338-410 | in every reachable state a pair that is not pending can be sent, without failed recordings and evictions, if and only if it is unrecorded or some caller holds a check of it |
| EventWriter.SmtpEventWriter.Emit | smtp_proxy.go:109-128 | an undisturbed emit stamps the event and performs the steps of the protocol, dropping it when the channel is full |
| EventWriter.SmtpEventWriter.Close | smtp_proxy.go:129-138 | closes the channel once; closing again changes nothing |
| EventWriter.SmtpEventWriter.WriteNext | smtp_proxy.go:62-83 | the writing thread writes, or counts a dropped event and fails for good |
| EventWriter.EveryRunAccounts | smtp_proxy.go:54-138 | in every interleaving nothing is sent on or closes a closed channel, offered equals written plus dropped plus queued plus in hand, and the file is an in-order subsequence |
| EventWriter.FailureIsFinal | smtp_proxy.go:64-81 | after the first failed write the file never changes, and after closing nothing more is accepted |
| EventWriter.FinishedFile | smtp_proxy.go:54-84 | when the writer is done, nothing dropped if and only if the file is exactly what was offered |
| WhitelistSync.Mailcow.Sync | scripts/mailcow-f2b-trusted-sync.py:147-169 | the three loops and the state file end as the plan says; a dry run changes nothing |
| WhitelistSync.OnlyAddedIsRemoved | scripts/mailcow-f2b-trusted-sync.py:106-112 | over any number of syncs, edits and crashes, a name is removed only after some sync has added it |
| WhitelistSync.CompletedSync | scripts/mailcow-f2b-trusted-sync.py:147-169 | a completed sync leaves the ranges and what it does not manage, and remembers what it has added |
| WhitelistSync.RepeatIsIdle | scripts/mailcow-f2b-trusted-sync.py:106-112 | repeating a sync adds and removes nothing and keeps the state |
| WhitelistSync.CrashIsHarmless | scripts/mailcow-f2b-trusted-sync.py:147-169 | wherever a sync crashes, the next one brings the whitelist to the same place |
| WhitelistSync.EntryPutBackByHandIsRemoved | scripts/mailcow-f2b-trusted-sync.py:8-11 | an entry that was added, removed by hand and put back by hand is removed |
| WhitelistSync.CrashLeavesAnOrphan | scripts/mailcow-f2b-trusted-sync.py:166-167 | an entry added just before a crash stays over every later run whose edits by hand keep it |

## Left out

- Sockets, deadlines, dialing, half-closing, the pump's loop, drain and process shutdown; a run is a list of chunks
  with their times.
- The one-second limit on waiting in `Close` of the event writer.
- Fingerprint.ComputeJA4: gives the texts before hashing; MD5 and SHA-256 are not modelled, and
  Fingerprint.RenderedShape holds for any hash of the right shape. The hash of a behaviour and of a mailbox are
  parameters, too.
- Fingerprint.SortU16: the library sort is a function here, not a loop in place.
- SmtpFold.ReadConnections: lines are already decoded; two times that differ in their zone only are equal here but
  differ as text. The order in which Go iterates the map of records is not modelled.
- PostfixLog.ReadPostfixMessages: lines are already classified by the regular expressions.
- CampaignEvidence.ReadSMTPCampaignEvidence: lines are already classified, with canonical clients and verbs. A line
  stamped 0001-01-01T00:00:00Z, whose time Go takes for absent, is not modelled.
- CampaignReport.ProducedIsAccepted: the times of the evidence are not Go's zero time, which the validator refuses; the
  8 MiB limit on the file of the report is not modelled. Joining and splitting host and port follow Go's net package.
- CampaignReport.RunSMTPCampaignClassification: the choice of the listener, canonical clients and excluded sources are
  taken as done; the prefix table is a parameter.
- CorrelationReport.RunSMTPCorrelation: the connections and messages are already filtered by listener and exclusion; the
  SQLite rows are not modelled, and the summary holds counters in maps where the program sorts them into lists.
- SmtpBehavior.BehaviorTracker.Command: texts are ASCII; Unicode white space in `strings.Fields` and Unicode case
  mapping are not modelled, here and in SmtpLines and CampaignReport.
- SmtpProxy.SmtpObserver.Client: one clock reading serves a whole chunk.
- SmtpDialogue.ObserverIsFaithful: a line that answers an AUTH challenge is a command of the dialogue, as it is for the
  observer; such a line that is empty, or that reads BDAT, is left out.
- SmtpPipeline.RecordsOfTheFileAreTrue: the rest of a failed write is a line that cannot be decoded; the reader of the
  program refuses a file whose last line is incomplete altogether.
- SmtpLoss.HandleSMTPConn: the rate limiter's refusal before the start event writes nothing to the journal and is not
  modelled; the backend failure count is not, either.
- Alerts.BlockedRangeAlerter.AlertBlocked: the ranges that contain the address are given; the alert's text is not
  modelled, and the store is a set.
- Attribution.SingleCandidateIsTrue: times are whole numbers on one true time line with two clocks, gate and Postfix.
- WhitelistSync.Mailcow.Sync: the order of the names in a loop is arbitrary, not sorted; comparing networks is
  a parameter.
- gatekit (store, control plane, rate limits, routes), PROXY protocol headers, configuration, metrics, HTTP upload and
  retries, notification senders and URL checks: plumbing, or dependent on code that is not part of this model.
- IP allowlists, the correlation of syslog by address, and the gate's decision switch: they would add easy members only.
