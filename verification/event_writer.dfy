/** The event writer (smtp_proxy.go): emitters and closers on any number of threads, a bounded channel
    and one writing thread, in single atomic steps. */
module EventWriter {
  import opened Bytes
  import opened SmtpEvent

  const CHANNEL_SIZE := 1024

  /** What the file holds; a failed write may leave part of a line. */
  datatype Piece<E> = Whole(event: E) | Torn

  /** A closer holds the lock: before it tests the flag, after it has set the flag and before it closes the
      channel, or before it unlocks. */
  datatype Closer = Locked | Flagged | Unlocking

  datatype Lock = Free | Held(owner: nat, at: Closer)

  /** An emitter in `readers` holds the lock for reading. `offered` are the events of the emitters that found
      the writer open, and `panicked` is what sending on a closed channel or closing it twice does. */
  datatype State<E> = State(
    channel: seq<E>,
    channelClosed: bool,
    closed: bool,
    readers: map<nat, E>,
    lock: Lock,
    hand: seq<E>,
    failed: bool,
    done: bool,
    dropped: nat,
    file: seq<Piece<E>>,
    offered: seq<E>,
    panicked: bool)

  function Start<E>(): State<E> {
    State([], false, false, map[], Free, [], false, false, 0, [], [], false)
  }

  datatype Outcome = Written | Unwritable | Short

  datatype Action<E> =
    | Enter(t: nat, event: E)
    | Offer(t: nat)
    | Lock(c: nat)
    | Flag(c: nat)
    | CloseChannel(c: nat)
    | Unlock(c: nat)
    | Receive
    | Write(outcome: Outcome)
    | Finish

  predicate Enabled<E>(s: State<E>, a: Action<E>) {
    match a
    case Enter(t, _) => t !in s.readers && s.lock.Free?
    case Offer(t) => t in s.readers
    case Lock(_) => s.lock.Free? && s.readers == map[]
    case Flag(c) => s.lock == Held(c, Locked)
    case CloseChannel(c) => s.lock == Held(c, Flagged)
    case Unlock(c) => s.lock == Held(c, Unlocking)
    case Receive => !s.done && s.hand == [] && s.channel != []
    case Write(_) => s.hand != []
    case Finish => !s.done && s.hand == [] && s.channel == [] && s.channelClosed
  }

  /** A send that does not block: a full channel drops the event. */
  function Deliver<E>(s: State<E>, e: E): State<E> {
    var r := s.(offered := s.offered + [e]);
    if s.channelClosed then r.(panicked := true)
    else if |s.channel| < CHANNEL_SIZE then r.(channel := s.channel + [e])
    else r.(dropped := s.dropped + 1)
  }

  function WriteOut<E>(s: State<E>, outcome: Outcome): State<E>
    requires s.hand != []
  {
    var r := s.(hand := []);
    if s.failed then r.(dropped := s.dropped + 1)
    else
      match outcome
      case Written => r.(file := s.file + [Whole(s.hand[0])])
      case Unwritable => r.(failed := true, dropped := s.dropped + 1)
      case Short => r.(failed := true, dropped := s.dropped + 1, file := s.file + [Torn])
  }

  function Apply<E>(s: State<E>, a: Action<E>): State<E>
    requires Enabled(s, a)
  {
    match a
    case Enter(t, e) => s.(readers := s.readers[t := e])
    case Offer(t) =>
      var r := s.(readers := s.readers - {t});
      if s.closed then r else Deliver(r, s.readers[t])
    case Lock(c) => s.(lock := Held(c, Locked))
    case Flag(c) => if s.closed then s.(lock := Held(c, Unlocking)) else s.(closed := true, lock := Held(c, Flagged))
    case CloseChannel(c) =>
      s.(channelClosed := true, lock := Held(c, Unlocking), panicked := s.panicked || s.channelClosed)
    case Unlock(c) => s.(lock := Free)
    case Receive => s.(hand := [s.channel[0]], channel := s.channel[1..])
    case Write(outcome) => WriteOut(s, outcome)
    case Finish => s.(done := true)
  }

  predicate CanRun<E>(s: State<E>, actions: seq<Action<E>>)
    decreases |actions|
  {
    actions == [] || (Enabled(s, actions[0]) && CanRun(Apply(s, actions[0]), actions[1..]))
  }

  function Run<E>(s: State<E>, actions: seq<Action<E>>): State<E>
    requires CanRun(s, actions)
    decreases |actions|
  {
    if actions == [] then s else Run(Apply(s, actions[0]), actions[1..])
  }

  // ---------------------------------------------------------------------
  // Subsequences.

  /** The elements of `a` are some of those of `b`, in their order. */
  predicate Subsequence<E(==)>(a: seq<E>, b: seq<E>)
    decreases |b|
  {
    a == [] || (b != [] &&
                (Subsequence(a, b[..|b| - 1]) || (a[|a| - 1] == b[|b| - 1] && Subsequence(a[..|a| - 1], b[..|b| - 1]))))
  }

  lemma SubsequenceGrows<E>(a: seq<E>, b: seq<E>, e: E)
    requires Subsequence(a, b)
    ensures Subsequence(a, b + [e]) && Subsequence(a + [e], b + [e])
  {
    PrefixOfSnoc(b, e);
    PrefixOfSnoc(a, e);
  }

  lemma {:induction false} SubsequenceIsShorter<E>(a: seq<E>, b: seq<E>)
    requires Subsequence(a, b)
    ensures |a| <= |b| && (|a| == |b| ==> a == b)
    decreases |b|
  {
    if a != [] {
      var c := b[..|b| - 1];
      if Subsequence(a, c) {
        SubsequenceIsShorter(a, c);
      } else {
        SubsequenceIsShorter(a[..|a| - 1], c);
        assert a == a[..|a| - 1] + [a[|a| - 1]] && b == c + [b[|b| - 1]];
      }
    }
  }

  /** Leaving one element out. */
  lemma {:induction false} SubsequenceWithout<E>(a: seq<E>, e: E, c: seq<E>, b: seq<E>)
    requires Subsequence(a + [e] + c, b)
    ensures Subsequence(a + c, b)
    decreases |b|
  {
    var whole := a + [e] + c;
    var d := b[..|b| - 1];
    if Subsequence(whole, d) {
      SubsequenceWithout(a, e, c, d);
    } else if c == [] {
      assert whole[..|whole| - 1] == a && a + c == a;
    } else {
      var c' := c[..|c| - 1];
      assert whole[..|whole| - 1] == a + [e] + c';
      SubsequenceWithout(a, e, c', d);
      assert (a + c)[..|a + c| - 1] == a + c';
    }
  }

  // ---------------------------------------------------------------------
  // What every run keeps.

  function Events<E>(file: seq<Piece<E>>): seq<E> {
    if file == [] then []
    else Events(file[..|file| - 1]) + if file[|file| - 1].Whole? then [file[|file| - 1].event] else []
  }

  lemma EventsSnoc<E>(file: seq<Piece<E>>, p: Piece<E>)
    ensures Events(file + [p]) == Events(file) + if p.Whole? then [p.event] else []
  {
    PrefixOfSnoc(file, p);
  }

  /** The lock keeps emitters and closers apart, and the flag runs ahead of the channel only under it. */
  predicate Locking<E>(s: State<E>) {
    && !s.panicked
    && (s.lock.Held? ==> s.readers == map[])
    && (s.channelClosed ==> s.closed)
    && (s.closed && !s.channelClosed <==> s.lock.Held? && s.lock.at == Flagged)
  }

  /** Every event that was offered is accounted for, and the file is in order. */
  predicate Accounts<E(==)>(s: State<E>) {
    && |s.hand| <= 1 && |s.channel| <= CHANNEL_SIZE
    && |s.offered| == |Events(s.file)| + s.dropped + |s.channel| + |s.hand|
    && Subsequence(Events(s.file) + s.hand + s.channel, s.offered)
    && (s.done ==> s.channel == [] && s.hand == [] && s.channelClosed)
    && (!s.failed ==> forall i :: 0 <= i < |s.file| ==> s.file[i].Whole?)
  }

  lemma StepKeepsLocking<E>(s: State<E>, a: Action<E>)
    requires Locking(s) && Enabled(s, a)
    ensures Locking(Apply(s, a))
  {
    if a.Offer? {
      assert s.readers != map[];
    }
  }

  lemma DeliverAccounts<E>(s: State<E>, e: E)
    requires Accounts(s) && !s.channelClosed
    ensures Accounts(Deliver(s, e))
  {
    var out := Events(s.file) + s.hand;
    SubsequenceGrows(out + s.channel, s.offered, e);
    assert out + (s.channel + [e]) == out + s.channel + [e];
  }

  lemma WriteAccounts<E>(s: State<E>, outcome: Outcome)
    requires Accounts(s) && s.hand != []
    ensures Accounts(WriteOut(s, outcome))
  {
    if !s.failed && outcome == Written {
      WrittenAccounts(s);
    } else {
      DroppedAccounts(s, outcome);
    }
  }

  lemma WrittenAccounts<E>(s: State<E>)
    requires Accounts(s) && s.hand != [] && !s.failed
    ensures Accounts(WriteOut(s, Written))
  {
    var e := s.hand[0];
    assert s.hand == [e];
    EventsSnoc(s.file, Whole(e));
    PlusNothing(Events(s.file) + [e]);
  }

  lemma DroppedAccounts<E>(s: State<E>, outcome: Outcome)
    requires Accounts(s) && s.hand != [] && (s.failed || outcome != Written)
    ensures Accounts(WriteOut(s, outcome))
  {
    var e := s.hand[0];
    assert s.hand == [e];
    EventsSnoc(s.file, Torn);
    SubsequenceWithout(Events(s.file), e, s.channel, s.offered);
    PlusNothing(Events(s.file));
  }

  lemma StepKeepsAccounts<E>(s: State<E>, a: Action<E>)
    requires Locking(s) && Accounts(s) && Enabled(s, a)
    ensures Accounts(Apply(s, a))
  {
    match a {
      case Offer(t) =>
        assert s.readers != map[];
        if !s.closed {
          DeliverAccounts(s.(readers := s.readers - {t}), s.readers[t]);
        }
      case Receive =>
        assert Events(s.file) + [] + s.channel == Events(s.file) + [s.channel[0]] + s.channel[1..];
      case Write(outcome) =>
        WriteAccounts(s, outcome);
      case _ =>
    }
  }

  /** In every state of every run: nothing panics, every event offered to the open writer is written, dropped,
      queued or in hand, and the file is a subsequence of the offered events. */
  lemma {:induction false} EveryRunAccounts<E>(s: State<E>, actions: seq<Action<E>>)
    requires Locking(s) && Accounts(s) && CanRun(s, actions)
    ensures Locking(Run(s, actions)) && Accounts(Run(s, actions))
    decreases |actions|
  {
    if actions != [] {
      StepKeepsLocking(s, actions[0]);
      StepKeepsAccounts(s, actions[0]);
      EveryRunAccounts(Apply(s, actions[0]), actions[1..]);
    }
  }

  /** After the first failed write the file never changes, and after closing nothing is offered any more. */
  lemma {:induction false} FailureIsFinal<E>(s: State<E>, actions: seq<Action<E>>)
    requires Locking(s) && CanRun(s, actions)
    ensures s.failed ==> Run(s, actions).failed && Run(s, actions).file == s.file
    ensures s.closed ==> Run(s, actions).closed && Run(s, actions).offered == s.offered
    decreases |actions|
  {
    if actions != [] {
      StepKeepsLocking(s, actions[0]);
      FailureIsFinal(Apply(s, actions[0]), actions[1..]);
    }
  }

  /** When the writer has finished, what is missing from the file is counted, and a file that misses nothing
      is exactly what was offered. */
  lemma FinishedFile<E>(actions: seq<Action<E>>)
    requires CanRun(Start<E>(), actions) && Run(Start<E>(), actions).done
    ensures var r := Run(Start<E>(), actions);
            && |r.offered| == |Events(r.file)| + r.dropped && Subsequence(Events(r.file), r.offered)
            && (r.dropped == 0 <==> Events(r.file) == r.offered)
  {
    EveryRunAccounts(Start<E>(), actions);
    var r := Run(Start<E>(), actions);
    assert Events(r.file) + r.hand + r.channel == Events(r.file);
    SubsequenceIsShorter(Events(r.file), r.offered);
  }

  lemma OneStep<E>(s: State<E>, a: Action<E>)
    requires Enabled(s, a)
    ensures CanRun(s, [a]) && Run(s, [a]) == Apply(s, a)
  {
    assert [a][1..] == [];
  }

  lemma StepAndMore<E>(s: State<E>, a: Action<E>, more: seq<Action<E>>)
    requires Enabled(s, a) && CanRun(Apply(s, a), more)
    ensures CanRun(s, [a] + more) && Run(s, [a] + more) == Run(Apply(s, a), more)
  {
    assert ([a] + more)[1..] == more;
  }

  lemma TwoSteps<E>(s: State<E>, a: Action<E>, b: Action<E>)
    requires Enabled(s, a) && Enabled(Apply(s, a), b)
    ensures CanRun(s, [a, b]) && Run(s, [a, b]) == Apply(Apply(s, a), b)
  {
    OneStep(Apply(s, a), b);
    StepAndMore(s, a, [b]);
    assert [a] + [b] == [a, b];
  }

  /** The steps of the first call of close. */
  lemma CloseSteps<E>(s: State<E>, c: nat)
    requires s.lock.Free? && s.readers == map[] && !s.closed && !s.channelClosed
    ensures var actions := [Lock(c), Flag(c), CloseChannel(c), Unlock(c)];
            CanRun(s, actions) && Run(s, actions) == s.(closed := true, channelClosed := true)
  {
    var flagged := Apply(Apply(s, Lock(c)), Flag(c));
    TwoSteps(flagged, CloseChannel(c), Unlock(c));
    StepAndMore(Apply(s, Lock(c)), Flag(c), [CloseChannel(c), Unlock(c)]);
    StepAndMore(s, Lock(c), [Flag(c)] + [CloseChannel(c), Unlock(c)]);
  }

  // ---------------------------------------------------------------------
  // The program.

  /** The writer; the locks, the offered events and the lines of the file are ghosts. */
  class SmtpEventWriter {
    const instance: string
    var channel: seq<Event>
    var channelClosed: bool
    var closed: bool
    var dropped: nat
    var hand: seq<Event>
    var failed: bool
    var done: bool
    ghost var readers: map<nat, Event>
    ghost var lock: Lock
    ghost var file: seq<Piece<Event>>
    ghost var offered: seq<Event>

    ghost function Abs(): State<Event>
      reads this
    {
      State(channel, channelClosed, closed, readers, lock, hand, failed, done, dropped, file, offered, false)
    }

    constructor (instance: string)
      ensures Abs() == Start<Event>() && this.instance == instance
      ensures Locking(Abs()) && Accounts(Abs())
    {
      this.instance := instance;
      channel, channelClosed, closed, dropped, hand, failed, done := [], false, false, 0, [], false, false;
      readers, lock, file, offered := map[], Free, [], [];
    }

    /** An emitter that is not interrupted: the event is stamped, and dropped when the channel is full. */
    method Emit(e: Event, ghost t: nat)
      requires Locking(Abs()) && Accounts(Abs()) && lock.Free? && t !in readers
      modifies this
      ensures CanRun(old(Abs()), [Enter(t, Stamp(e, instance)), Offer(t)])
      ensures Abs() == Run(old(Abs()), [Enter(t, Stamp(e, instance)), Offer(t)])
      ensures Locking(Abs()) && Accounts(Abs())
    {
      var stamped := Stamp(e, instance);
      TwoSteps(Abs(), Enter(t, stamped), Offer(t));
      EveryRunAccounts(Abs(), [Enter(t, stamped), Offer(t)]);
      assert readers[t := stamped] - {t} == readers;
      if closed {
        return;
      }
      offered := offered + [stamped];
      if |channel| < CHANNEL_SIZE {
        channel := channel + [stamped];
      } else {
        dropped := dropped + 1;
      }
    }

    /** A closer that is not interrupted; closing again changes nothing. */
    method Close(ghost c: nat) returns (ghost actions: seq<Action<Event>>)
      requires Locking(Abs()) && Accounts(Abs()) && lock.Free? && readers == map[]
      modifies this
      ensures CanRun(old(Abs()), actions) && Abs() == Run(old(Abs()), actions)
      ensures closed && channelClosed && lock.Free?
      ensures old(closed) ==> Abs() == old(Abs())
      ensures Locking(Abs()) && Accounts(Abs())
    {
      ghost var start := Abs();
      if closed {
        actions := [Lock(c), Flag(c), Unlock(c)];
        TwoSteps(Apply(start, Lock(c)), Flag(c), Unlock(c));
      } else {
        actions := [Lock(c), Flag(c), CloseChannel(c), Unlock(c)];
        CloseSteps(start, c);
        closed := true;
        channelClosed := true;
      }
      EveryRunAccounts(start, actions);
    }

    /** One turn of the writing thread. */
    method WriteNext(outcome: Outcome)
      requires Locking(Abs()) && Accounts(Abs()) && !done && hand == [] && channel != []
      modifies this
      ensures CanRun(old(Abs()), [Receive, Write(outcome)])
      ensures Abs() == Run(old(Abs()), [Receive, Write(outcome)])
      ensures Locking(Abs()) && Accounts(Abs())
    {
      TwoSteps(Abs(), Receive, Write(outcome));
      EveryRunAccounts(Abs(), [Receive, Write(outcome)]);
      var e := channel[0];
      channel := channel[1..];
      if failed {
        dropped := dropped + 1;
        return;
      }
      match outcome {
        case Written =>
          file := file + [Whole(e)];
        case Unwritable =>
          failed, dropped := true, dropped + 1;
        case Short =>
          file := file + [Torn];
          failed, dropped := true, dropped + 1;
      }
    }
  }
}
