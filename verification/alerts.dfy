/** The blocked-range alerts (alerts.go): any number of callers, a bounded queue and a few workers,
    in single atomic steps. */
module Alerts {
  const QUEUE_SIZE := 256
  const WORKERS := 4

  /** A range and an address. */
  type Pair = (string, string)

  /** Where a caller is in AlertBlocked: between the store check and the mark, between the mark and the
      enqueue, or about to clear the mark of a dropped alert. */
  datatype Caller = Checked(pair: Pair) | Marked(pair: Pair) | Dropping(pair: Pair)

  /** Where a worker is in its loop: it is sending, has sent and is about to record, or is about to clear. */
  datatype Worker = Sending(pair: Pair) | Recording(pair: Pair) | Clearing(pair: Pair)

  /** A thread that is not in a map is idle. */
  datatype State = State(
    pending: set<Pair>,
    queue: seq<Pair>,
    callers: map<nat, Caller>,
    workers: map<nat, Worker>,
    recorded: set<Pair>,
    sent: seq<Pair>)

  const START := State({}, [], map[], map[], {}, [])

  datatype Action =
    | Check(t: nat, pair: Pair)
    | Mark(t: nat)
    | Enqueue(t: nat)
    | Drop(t: nat)
    | Take(w: nat)
    | Send(w: nat, ok: bool)
    | Record(w: nat, ok: bool)
    | Clear(w: nat)
    | Evict(pair: Pair)

  predicate Enabled(s: State, a: Action) {
    match a
    case Check(t, _) => t !in s.callers
    case Mark(t) => t in s.callers && s.callers[t].Checked?
    case Enqueue(t) => t in s.callers && s.callers[t].Marked?
    case Drop(t) => t in s.callers && s.callers[t].Dropping?
    case Take(w) => w < WORKERS && w !in s.workers && s.queue != []
    case Send(w, _) => w in s.workers && s.workers[w].Sending?
    case Record(w, _) => w in s.workers && s.workers[w].Recording?
    case Clear(w) => w in s.workers && s.workers[w].Clearing?
    case Evict(_) => true
  }

  function Apply(s: State, a: Action): State
    requires Enabled(s, a)
  {
    match a
    case Check(t, p) => if p in s.recorded then s else s.(callers := s.callers[t := Checked(p)])
    case Mark(t) =>
      var p := s.callers[t].pair;
      if p in s.pending then s.(callers := s.callers - {t})
      else s.(callers := s.callers[t := Marked(p)], pending := s.pending + {p})
    case Enqueue(t) =>
      var p := s.callers[t].pair;
      if |s.queue| < QUEUE_SIZE then s.(callers := s.callers - {t}, queue := s.queue + [p])
      else s.(callers := s.callers[t := Dropping(p)])
    case Drop(t) => s.(callers := s.callers - {t}, pending := s.pending - {s.callers[t].pair})
    case Take(w) => s.(queue := s.queue[1..], workers := s.workers[w := Sending(s.queue[0])])
    case Send(w, ok) =>
      var p := s.workers[w].pair;
      if ok then s.(workers := s.workers[w := Recording(p)], sent := s.sent + [p])
      else s.(workers := s.workers[w := Clearing(p)])
    case Record(w, ok) =>
      var p := s.workers[w].pair;
      s.(workers := s.workers[w := Clearing(p)], recorded := if ok then s.recorded + {p} else s.recorded)
    case Clear(w) => s.(workers := s.workers - {w}, pending := s.pending - {s.workers[w].pair})
    case Evict(p) => s.(recorded := s.recorded - {p})
  }

  /** A run of the program. */
  predicate CanRun(s: State, actions: seq<Action>)
    decreases |actions|
  {
    actions == [] || (Enabled(s, actions[0]) && CanRun(Apply(s, actions[0]), actions[1..]))
  }

  function Run(s: State, actions: seq<Action>): State
    requires CanRun(s, actions)
    decreases |actions|
  {
    if actions == [] then s else Run(Apply(s, actions[0]), actions[1..])
  }

  // ---------------------------------------------------------------------
  // Pending is exactly what is on its way.

  predicate WithCaller(s: State, t: nat, p: Pair) {
    t in s.callers && !s.callers[t].Checked? && s.callers[t].pair == p
  }

  predicate WithWorker(s: State, w: nat, p: Pair) {
    w in s.workers && s.workers[w].pair == p
  }

  ghost predicate OnItsWay(s: State, p: Pair) {
    p in s.queue || (exists t :: WithCaller(s, t, p)) || exists w :: WithWorker(s, w, p)
  }

  /** No pair is in two places. */
  ghost predicate OnePlace(s: State) {
    && (forall i, j :: 0 <= i < j < |s.queue| ==> s.queue[i] != s.queue[j])
    && (forall t, p :: WithCaller(s, t, p) ==> p !in s.queue)
    && (forall w, p :: WithWorker(s, w, p) ==> p !in s.queue)
    && (forall t, w, p :: WithCaller(s, t, p) ==> !WithWorker(s, w, p))
    && (forall t, u, p :: WithCaller(s, t, p) && WithCaller(s, u, p) ==> t == u)
    && (forall v, w, p :: WithWorker(s, v, p) && WithWorker(s, w, p) ==> v == w)
  }

  ghost predicate Exact(s: State) {
    && (forall p :: p in s.pending <==> OnItsWay(s, p))
    && OnePlace(s)
    && |s.queue| <= QUEUE_SIZE
    && forall w :: w in s.workers ==> w < WORKERS
  }

  lemma CallerStep(s: State, a: Action)
    requires Exact(s) && Enabled(s, a) && (a.Check? || a.Mark? || a.Enqueue? || a.Drop?)
    ensures Exact(Apply(s, a))
  {
    var r := Apply(s, a);
    assert forall w, p :: WithWorker(r, w, p) <==> WithWorker(s, w, p);
    assert forall u, p :: u != a.t ==> (WithCaller(r, u, p) <==> WithCaller(s, u, p));
    assert a.t in s.callers && !s.callers[a.t].Checked? ==> WithCaller(s, a.t, s.callers[a.t].pair);
    assert a.t in r.callers && !r.callers[a.t].Checked? ==> WithCaller(r, a.t, r.callers[a.t].pair);
    forall p
      ensures p in r.pending <==> OnItsWay(r, p)
    {
      assert p in s.pending <==> OnItsWay(s, p);
    }
  }

  lemma WorkerStep(s: State, a: Action)
    requires Exact(s) && Enabled(s, a) && (a.Take? || a.Send? || a.Record? || a.Clear?)
    ensures Exact(Apply(s, a))
  {
    var r := Apply(s, a);
    assert forall t, p :: WithCaller(r, t, p) <==> WithCaller(s, t, p);
    assert forall v, p :: v != a.w ==> (WithWorker(r, v, p) <==> WithWorker(s, v, p));
    assert a.w in s.workers ==> WithWorker(s, a.w, s.workers[a.w].pair);
    assert a.w in r.workers ==> WithWorker(r, a.w, r.workers[a.w].pair);
    if a.Take? {
      assert s.queue == [s.queue[0]] + r.queue;
    }
    forall p
      ensures p in r.pending <==> OnItsWay(r, p)
    {
      assert p in s.pending <==> OnItsWay(s, p);
    }
  }

  lemma StepIsExact(s: State, a: Action)
    requires Exact(s) && Enabled(s, a)
    ensures Exact(Apply(s, a))
  {
    if a.Evict? {
      var r := Apply(s, a);
      assert forall w, p :: WithWorker(r, w, p) <==> WithWorker(s, w, p);
      assert forall u, p :: WithCaller(r, u, p) <==> WithCaller(s, u, p);
      forall p
        ensures p in r.pending <==> OnItsWay(r, p)
      {
        assert p in s.pending <==> OnItsWay(s, p);
      }
    } else if a.Check? || a.Mark? || a.Enqueue? || a.Drop? {
      CallerStep(s, a);
    } else {
      WorkerStep(s, a);
    }
  }

  /** In every state of every run, the pending pairs are exactly those that are being enqueued, queued or in a
      worker, and none of them is there twice. */
  lemma {:induction false} PendingIsExact(s: State, actions: seq<Action>)
    requires Exact(s) && CanRun(s, actions)
    ensures Exact(Run(s, actions))
    decreases |actions|
  {
    if actions != [] {
      StepIsExact(s, actions[0]);
      PendingIsExact(Apply(s, actions[0]), actions[1..]);
    }
  }

  // ---------------------------------------------------------------------
  // At most one successful send.

  /** A mark that succeeds after the pair was recorded and cleared, because the check before it is out of date. While
      the worker still holds the recorded pair the mark fails: this is what recording before clearing is for. */
  predicate Stale(s: State, a: Action)
    requires Enabled(s, a)
  {
    a.Mark? && s.callers[a.t].pair in s.recorded && s.callers[a.t].pair !in s.pending
  }

  /** The step does none of the three things that can make a pair be sent again: a stale mark of it, a failed
      recording of it, or its eviction. */
  predicate Tame(s: State, a: Action, p: Pair)
    requires Enabled(s, a)
  {
    match a
    case Mark(t) => s.callers[t].pair == p ==> !Stale(s, a)
    case Record(w, ok) => s.workers[w].pair == p ==> ok
    case Evict(pair) => pair != p
    case _ => true
  }

  predicate TameRun(s: State, actions: seq<Action>, p: Pair)
    requires CanRun(s, actions)
    decreases |actions|
  {
    actions == [] || (Tame(s, actions[0], p) && TameRun(Apply(s, actions[0]), actions[1..], p))
  }

  ghost predicate BeingRecorded(s: State, p: Pair) {
    exists w :: WithWorker(s, w, p) && s.workers[w].Recording?
  }

  ghost predicate BeingSent(s: State, p: Pair) {
    exists w :: WithWorker(s, w, p) && s.workers[w].Sending?
  }

  /** A pair that was sent is recorded or still with the worker that records it, and is not about to be sent. */
  ghost predicate SentOnce(s: State, p: Pair) {
    && multiset(s.sent)[p] <= 1
    && (p in s.sent ==>
      && (p in s.recorded || BeingRecorded(s, p))
      && p !in s.queue && !BeingSent(s, p)
      && forall t :: !WithCaller(s, t, p))
  }

  lemma CallerSendsNothing(s: State, a: Action, p: Pair)
    requires Exact(s) && SentOnce(s, p) && Enabled(s, a) && Tame(s, a, p)
    requires a.Check? || a.Mark? || a.Enqueue? || a.Drop?
    ensures SentOnce(Apply(s, a), p)
  {
    var r := Apply(s, a);
    assert forall w, q :: WithWorker(r, w, q) <==> WithWorker(s, w, q);
    assert forall u, q :: u != a.t ==> (WithCaller(r, u, q) <==> WithCaller(s, u, q));
    if a.Mark? && s.callers[a.t].pair == p && p !in s.pending {
      assert !OnItsWay(s, p);
      assert p !in s.sent;
    } else if a.Enqueue? {
      assert WithCaller(s, a.t, s.callers[a.t].pair);
    }
  }

  lemma WorkerSendsOnce(s: State, a: Action, p: Pair)
    requires Exact(s) && SentOnce(s, p) && Enabled(s, a) && Tame(s, a, p)
    requires a.Take? || a.Send? || a.Record? || a.Clear?
    ensures SentOnce(Apply(s, a), p)
  {
    var r := Apply(s, a);
    assert forall t, q :: WithCaller(r, t, q) <==> WithCaller(s, t, q);
    assert forall v, q :: v != a.w ==> (WithWorker(r, v, q) <==> WithWorker(s, v, q));
    if a.Take? {
      assert s.queue == [s.queue[0]] + r.queue;
      assert WithWorker(r, a.w, s.queue[0]);
    } else {
      assert WithWorker(s, a.w, s.workers[a.w].pair);
      if a.Send? || a.Record? {
        assert WithWorker(r, a.w, s.workers[a.w].pair);
      }
    }
    if p in s.sent && p !in r.recorded {
      var w :| WithWorker(s, w, p) && s.workers[w].Recording?;
      assert WithWorker(r, w, p) && r.workers[w].Recording?;
    }
  }

  lemma EvictionSendsNothing(s: State, other: Pair, p: Pair)
    requires SentOnce(s, p) && other != p
    ensures SentOnce(Apply(s, Evict(other)), p)
  {
    var r := Apply(s, Evict(other));
    assert forall t, q :: WithCaller(r, t, q) <==> WithCaller(s, t, q);
    assert forall w, q :: WithWorker(r, w, q) <==> WithWorker(s, w, q);
    if BeingRecorded(s, p) {
      var w :| WithWorker(s, w, p) && s.workers[w].Recording?;
      assert WithWorker(r, w, p);
    }
  }

  lemma {:induction false} TameRunSendsOnce(s: State, actions: seq<Action>, p: Pair)
    requires Exact(s) && SentOnce(s, p) && CanRun(s, actions) && TameRun(s, actions, p)
    ensures SentOnce(Run(s, actions), p)
    decreases |actions|
  {
    if actions != [] {
      var a := actions[0];
      StepIsExact(s, a);
      if a.Check? || a.Mark? || a.Enqueue? || a.Drop? {
        CallerSendsNothing(s, a, p);
      } else if a.Evict? {
        EvictionSendsNothing(s, a.pair, p);
      } else {
        WorkerSendsOnce(s, a, p);
      }
      TameRunSendsOnce(Apply(s, a), actions[1..], p);
    }
  }

  /** In every run without a stale mark, a failed recording or an eviction of a pair, the pair is sent at most
      once, whatever happens to other pairs. */
  lemma AtMostOnce(actions: seq<Action>, p: Pair)
    requires CanRun(START, actions) && TameRun(START, actions, p)
    ensures multiset(Run(START, actions).sent)[p] <= 1
  {
    TameRunSendsOnce(START, actions, p);
  }

  /** Checking and marking is one step: every mark directly follows the check of its own caller. */
  predicate Atomic(actions: seq<Action>) {
    forall i :: 0 <= i < |actions| && actions[i].Mark? ==> i > 0 && IsCheckOf(actions[i - 1], actions[i])
  }

  predicate IsCheckOf(check: Action, mark: Action)
    requires mark.Mark?
  {
    check.Check? && check.t == mark.t
  }

  /** The step is no failed recording and no eviction of the pair. */
  predicate Keeps(a: Action, p: Pair) {
    !(a.Record? && !a.ok) && a != Evict(p)
  }

  predicate KeepsAll(actions: seq<Action>, p: Pair) {
    forall i :: 0 <= i < |actions| ==> Keeps(actions[i], p)
  }

  /** In a run with atomic checks and marks a mark is never stale; only the first action may rest on an earlier
      check. */
  lemma {:induction false} AtomicIsTame(s: State, actions: seq<Action>, p: Pair)
    requires CanRun(s, actions) && KeepsAll(actions, p)
    requires forall i :: 0 < i < |actions| && actions[i].Mark? ==> IsCheckOf(actions[i - 1], actions[i])
    requires actions != [] ==> Tame(s, actions[0], p)
    ensures TameRun(s, actions, p)
    decreases |actions|
  {
    if actions != [] {
      var a, rest := actions[0], actions[1..];
      var r := Apply(s, a);
      assert forall i :: 0 <= i < |rest| ==> rest[i] == actions[i + 1];
      if rest != [] {
        assert Keeps(rest[0], p);
        assert rest[0].Mark? ==> IsCheckOf(a, rest[0]) && Enabled(r, rest[0]);
      }
      AtomicIsTame(r, rest, p);
    }
  }

  /** If checking and marking is one step, recording a pair does not fail and the store does not evict it, every pair
      is sent at most once over any run. */
  lemma AtomicIsOnce(actions: seq<Action>, p: Pair)
    requires CanRun(START, actions) && Atomic(actions) && KeepsAll(actions, p)
    ensures multiset(Run(START, actions).sent)[p] <= 1
  {
    if actions != [] {
      assert !actions[0].Mark? && Keeps(actions[0], p);
    }
    AtomicIsTame(START, actions, p);
    AtMostOnce(actions, p);
  }

  // ---------------------------------------------------------------------
  // Each of the three conditions is needed.

  lemma {:induction false} RunAfter(s: State, a: seq<Action>, b: seq<Action>)
    requires CanRun(s, a) && CanRun(Run(s, a), b)
    ensures CanRun(s, a + b) && Run(s, a + b) == Run(Run(s, a), b)
    decreases |a|
  {
    if a == [] {
      assert a + b == b;
    } else {
      assert (a + b)[0] == a[0] && (a + b)[1..] == a[1..] + b;
      RunAfter(Apply(s, a[0]), a[1..], b);
    }
  }

  lemma OneStep(s: State, a: Action)
    requires Enabled(s, a)
    ensures CanRun(s, [a]) && Run(s, [a]) == Apply(s, a)
  {
    assert [a][1..] == [];
  }

  lemma OneMore(s: State, actions: seq<Action>, a: Action)
    requires CanRun(s, actions) && Enabled(Run(s, actions), a)
    ensures CanRun(s, actions + [a]) && Run(s, actions + [a]) == Apply(Run(s, actions), a)
  {
    OneStep(Run(s, actions), a);
    RunAfter(s, actions, [a]);
  }

  /** What a caller that has checked the store can bring about when nothing else is on its way. */
  function Delivery(t: nat): seq<Action> {
    [Mark(t)] + [Enqueue(t)] + [Take(0)] + [Send(0, true)]
  }

  lemma CheckedSends(s: State, t: nat, p: Pair)
    requires t in s.callers && s.callers[t] == Checked(p) && p !in s.pending && s.queue == [] && 0 !in s.workers
    ensures CanRun(s, Delivery(t))
    ensures Run(s, Delivery(t)) ==
            s.(callers := s.callers - {t}, pending := s.pending + {p}, workers := s.workers[0 := Recording(p)],
               sent := s.sent + [p])
  {
    OneStep(s, Mark(t));
    OneMore(s, [Mark(t)], Enqueue(t));
    OneMore(s, [Mark(t)] + [Enqueue(t)], Take(0));
    OneMore(s, [Mark(t)] + [Enqueue(t)] + [Take(0)], Send(0, true));
    assert ([] + [p])[1..] == [];
    assert s.callers[t := Marked(p)] - {t} == s.callers - {t};
  }

  /** A caller that checks first. */
  lemma CheckSends(s: State, t: nat, p: Pair)
    requires t !in s.callers && p !in s.recorded && p !in s.pending && s.queue == [] && 0 !in s.workers
    ensures CanRun(s, [Check(t, p)] + Delivery(t))
    ensures Run(s, [Check(t, p)] + Delivery(t)) ==
            s.(pending := s.pending + {p}, workers := s.workers[0 := Recording(p)], sent := s.sent + [p])
  {
    var c := Apply(s, Check(t, p));
    OneStep(s, Check(t, p));
    CheckedSends(c, t, p);
    RunAfter(s, [Check(t, p)], Delivery(t));
    assert c.callers - {t} == s.callers;
  }

  /** What the worker does after the send. */
  function Finish(ok: bool): seq<Action> {
    [Record(0, ok)] + [Clear(0)]
  }

  lemma Finishes(s: State, p: Pair, ok: bool)
    requires 0 in s.workers && s.workers[0] == Recording(p)
    ensures CanRun(s, Finish(ok))
    ensures Run(s, Finish(ok)) ==
            s.(workers := s.workers - {0}, pending := s.pending - {p},
               recorded := if ok then s.recorded + {p} else s.recorded)
  {
    OneStep(s, Record(0, ok));
    OneMore(s, [Record(0, ok)], Clear(0));
    assert s.workers[0 := Clearing(p)] - {0} == s.workers - {0};
  }

  /** The run of the first caller, up to the clear. */
  function FirstAlert(p: Pair, ok: bool): seq<Action> {
    [Check(0, p)] + Delivery(0) + Finish(ok)
  }

  lemma FirstAlertRuns(s: State, p: Pair, ok: bool)
    requires s.queue == [] && s.workers == map[] && s.pending == {} && 0 !in s.callers && p !in s.recorded
    ensures CanRun(s, FirstAlert(p, ok))
    ensures Run(s, FirstAlert(p, ok)) ==
            s.(recorded := if ok then s.recorded + {p} else s.recorded, sent := s.sent + [p])
  {
    CheckSends(s, 0, p);
    var sent := [Check(0, p)] + Delivery(0);
    Finishes(Run(s, sent), p, ok);
    RunAfter(s, sent, Finish(ok));
    assert s.workers[0 := Recording(p)] - {0} == map[];
    assert s.pending + {p} - {p} == {};
  }

  /** A caller checks early and another one alerts meanwhile. */
  function EarlyCheck(p: Pair): seq<Action> {
    [Check(1, p)] + FirstAlert(p, true)
  }

  lemma EarlyCheckRuns(p: Pair)
    ensures CanRun(START, EarlyCheck(p))
    ensures Run(START, EarlyCheck(p)) == START.(callers := map[1 := Checked(p)], recorded := {p}, sent := [p])
  {
    OneStep(START, Check(1, p));
    FirstAlertRuns(Apply(START, Check(1, p)), p, true);
    RunAfter(START, [Check(1, p)], FirstAlert(p, true));
  }

  lemma EarlyCheckIsNotAtomic(p: Pair)
    ensures Reliable(EarlyCheck(p) + Delivery(1)) && !Atomic(EarlyCheck(p) + Delivery(1))
  {
    var before := EarlyCheck(p);
    var run := before + Delivery(1);
    assert Delivery(1)[0] == Mark(1) && run[|before|] == Mark(1) && run[|before| - 1] == Clear(0);
  }

  /** From the start, a caller that checked before the pair was recorded sends it a second time, though no recording
      fails and nothing is evicted. */
  lemma StaleMarkSendsTwice(p: Pair)
    ensures var run := EarlyCheck(p) + Delivery(1);
            && CanRun(START, run) && Reliable(run) && !Atomic(run)
            && multiset(Run(START, run).sent)[p] == 2
  {
    EarlyCheckRuns(p);
    EarlyCheckIsNotAtomic(p);
    CheckedSends(Run(START, EarlyCheck(p)), 1, p);
    RunAfter(START, EarlyCheck(p), Delivery(1));
  }

  /** So does a pair that the store evicts, though every check and mark is one step and no recording fails. */
  lemma EvictionSendsTwice(p: Pair)
    ensures var run := FirstAlert(p, true) + [Evict(p)] + ([Check(0, p)] + Delivery(0));
            && CanRun(START, run) && Atomic(run) && (forall i :: 0 <= i < |run| && run[i].Record? ==> run[i].ok)
            && multiset(Run(START, run).sent)[p] == 2
  {
    var before := FirstAlert(p, true) + [Evict(p)];
    FirstAlertRuns(START, p, true);
    OneMore(START, FirstAlert(p, true), Evict(p));
    SecondAlert(before, p);
  }

  /** So does a pair that could not be recorded, though every check and mark is one step and nothing is evicted. */
  lemma FailedRecordSendsTwice(p: Pair)
    ensures var run := FirstAlert(p, false) + ([Check(0, p)] + Delivery(0));
            && CanRun(START, run) && Atomic(run) && (forall i :: 0 <= i < |run| ==> !run[i].Evict?)
            && multiset(Run(START, run).sent)[p] == 2
  {
    FirstAlertRuns(START, p, false);
    SecondAlert(FirstAlert(p, false), p);
  }

  /** After a first alert that left no trace, the next one sends. */
  lemma SecondAlert(before: seq<Action>, p: Pair)
    requires CanRun(START, before) && Run(START, before) == START.(sent := [p])
    ensures var run := before + ([Check(0, p)] + Delivery(0));
            CanRun(START, run) && multiset(Run(START, run).sent)[p] == 2
  {
    CheckSends(START.(sent := [p]), 0, p);
    RunAfter(START, before, [Check(0, p)] + Delivery(0));
  }

  // ---------------------------------------------------------------------
  // When exactly a pair can be sent again.

  ghost predicate CheckedBySome(s: State, p: Pair) {
    exists t :: t in s.callers && s.callers[t] == Checked(p)
  }

  /** No recording fails and nothing is evicted. */
  predicate Reliable(actions: seq<Action>) {
    forall i :: 0 <= i < |actions| ==> !actions[i].Evict? && !(actions[i].Record? && !actions[i].ok)
  }

  /** Some further run without failed recordings and evictions sends the pair. */
  ghost predicate CanSend(s: State, p: Pair) {
    exists actions :: CanRun(s, actions) && Sends(s, actions, p)
  }

  predicate Sends(s: State, actions: seq<Action>, p: Pair)
    requires CanRun(s, actions)
  {
    Reliable(actions) && multiset(Run(s, actions).sent)[p] > multiset(s.sent)[p]
  }

  /** A recorded pair that is not on its way and that no caller has checked stays so, and is not sent. */
  lemma {:induction false} SettledStays(s: State, actions: seq<Action>, p: Pair)
    requires Exact(s) && CanRun(s, actions) && KeepsAll(actions, p)
    requires p !in s.pending && p in s.recorded && !CheckedBySome(s, p)
    ensures multiset(Run(s, actions).sent)[p] == multiset(s.sent)[p]
    decreases |actions|
  {
    if actions != [] {
      var a := actions[0];
      assert Keeps(a, p);
      StepIsExact(s, a);
      SettledStep(s, a, p);
      assert forall i :: 0 <= i < |actions[1..]| ==> actions[1..][i] == actions[i + 1];
      SettledStays(Apply(s, a), actions[1..], p);
    }
  }

  lemma SettledStep(s: State, a: Action, p: Pair)
    requires Exact(s) && Enabled(s, a) && Keeps(a, p)
    requires p !in s.pending && p in s.recorded && !CheckedBySome(s, p)
    ensures var r := Apply(s, a);
            && p !in r.pending && p in r.recorded && !CheckedBySome(r, p)
            && multiset(r.sent)[p] == multiset(s.sent)[p]
  {
    assert !OnItsWay(s, p);
    if a.Send? {
      assert WithWorker(s, a.w, s.workers[a.w].pair);
    } else if a.Mark? {
      assert s.callers[a.t].pair != p;
    }
  }

  /** The run keeps whatever matters for sending the pair. */
  predicate Spares(s: State, actions: seq<Action>, p: Pair)
    requires CanRun(s, actions)
  {
    var r := Run(s, actions);
    && Reliable(actions) && r.callers == s.callers && p !in r.pending && (p in r.recorded <==> p in s.recorded)
    && multiset(r.sent)[p] == multiset(s.sent)[p]
  }

  lemma SparesMore(s: State, actions: seq<Action>, a: Action, p: Pair)
    requires CanRun(s, actions) && Spares(s, actions, p) && Enabled(Run(s, actions), a)
    requires !a.Evict? && !(a.Record? && !a.ok)
    requires Spares(Run(s, actions), [a], p)
    ensures CanRun(s, actions + [a]) && Spares(s, actions + [a], p)
    ensures Run(s, actions + [a]) == Apply(Run(s, actions), a)
  {
    OneStep(Run(s, actions), a);
    OneMore(s, actions, a);
  }

  /** A step of the first worker on another pair. */
  lemma WorkerSpares(s: State, a: Action, p: Pair)
    requires Exact(s) && p !in s.pending && Enabled(s, a)
    requires a == Take(0) || a == Send(0, false) || a == Record(0, true) || a == Clear(0)
    ensures CanRun(s, [a]) && Spares(s, [a], p) && Exact(Apply(s, a)) && Run(s, [a]) == Apply(s, a)
  {
    OneStep(s, a);
    StepIsExact(s, a);
    assert !OnItsWay(s, p);
    if !a.Take? {
      assert WithWorker(s, 0, s.workers[0].pair);
    }
  }

  /** The first worker finishes what it holds. */
  lemma WorkerFrees(s: State, p: Pair) returns (actions: seq<Action>)
    requires Exact(s) && p !in s.pending
    ensures CanRun(s, actions) && Spares(s, actions, p) && 0 !in Run(s, actions).workers && Exact(Run(s, actions))
    ensures |Run(s, actions).queue| == |s.queue|
  {
    actions := [];
    if 0 in s.workers {
      if !s.workers[0].Clearing? {
        var a := if s.workers[0].Sending? then Send(0, false) else Record(0, true);
        WorkerSpares(s, a, p);
        SparesMore(s, actions, a, p);
        actions := actions + [a];
      }
      WorkerSpares(Run(s, actions), Clear(0), p);
      SparesMore(s, actions, Clear(0), p);
      actions := actions + [Clear(0)];
    }
  }

  lemma SparesBoth(s: State, a: seq<Action>, b: seq<Action>, p: Pair)
    requires CanRun(s, a) && Spares(s, a, p) && CanRun(Run(s, a), b) && Spares(Run(s, a), b, p)
    ensures CanRun(s, a + b) && Spares(s, a + b, p) && Run(s, a + b) == Run(Run(s, a), b)
  {
    RunAfter(s, a, b);
  }

  /** The first worker empties the queue. */
  lemma {:induction false} QueueDrains(s: State, p: Pair) returns (actions: seq<Action>)
    requires Exact(s) && p !in s.pending
    ensures CanRun(s, actions) && Spares(s, actions, p)
    ensures Run(s, actions).queue == [] && 0 !in Run(s, actions).workers
    decreases |s.queue|
  {
    actions := WorkerFrees(s, p);
    var r := Run(s, actions);
    if r.queue != [] {
      WorkerSpares(r, Take(0), p);
      SparesMore(s, actions, Take(0), p);
      actions := actions + [Take(0)];
      var rest := QueueDrains(Run(s, actions), p);
      SparesBoth(s, actions, rest, p);
      actions := actions + rest;
    }
  }

  lemma {:induction false} FreshNumber(numbers: set<nat>) returns (t: nat)
    ensures forall n :: n in numbers ==> n < t
    decreases |numbers|
  {
    if numbers == {} {
      t := 0;
    } else {
      var n :| n in numbers;
      var rest := FreshNumber(numbers - {n});
      t := if n < rest then rest else n + 1;
      assert forall m :: m in numbers ==> m == n || m in numbers - {n};
    }
  }

  lemma SendsAfter(s: State, before: seq<Action>, more: seq<Action>, p: Pair)
    requires CanRun(s, before) && Spares(s, before, p)
    requires CanRun(Run(s, before), more) && Sends(Run(s, before), more, p)
    ensures CanSend(s, p)
  {
    RunAfter(s, before, more);
    assert Sends(s, before + more, p);
  }

  lemma DeliverySends(s: State, t: nat, p: Pair)
    requires t in s.callers && s.callers[t] == Checked(p) && p !in s.pending && s.queue == [] && 0 !in s.workers
    ensures CanRun(s, Delivery(t)) && Sends(s, Delivery(t), p)
  {
    CheckedSends(s, t, p);
  }

  lemma NewCallerSends(s: State, t: nat, p: Pair)
    requires t !in s.callers && p !in s.recorded && p !in s.pending && s.queue == [] && 0 !in s.workers
    ensures CanRun(s, [Check(t, p)] + Delivery(t)) && Sends(s, [Check(t, p)] + Delivery(t), p)
  {
    CheckSends(s, t, p);
  }

  /** A pair that is unrecorded, or that some caller holds checked, can be sent. */
  lemma OpenCanSend(s: State, p: Pair)
    requires Exact(s) && p !in s.pending && (p !in s.recorded || CheckedBySome(s, p))
    ensures CanSend(s, p)
  {
    var before := QueueDrains(s, p);
    var r := Run(s, before);
    if CheckedBySome(s, p) {
      var t :| t in s.callers && s.callers[t] == Checked(p);
      DeliverySends(r, t, p);
      SendsAfter(s, before, Delivery(t), p);
    } else {
      var t := FreshNumber(r.callers.Keys);
      NewCallerSends(r, t, p);
      SendsAfter(s, before, [Check(t, p)] + Delivery(t), p);
    }
  }

  /** In every state that a run reaches, a pair that is not pending can be sent, without failed recordings and
      evictions, exactly when it is not recorded or some caller holds an earlier check of it. For a pair that was
      sent before this says when it is sent twice. */
  lemma SentAgainExactlyWhen(actions: seq<Action>, p: Pair)
    requires CanRun(START, actions) && p !in Run(START, actions).pending
    ensures var s := Run(START, actions);
            CanSend(s, p) <==> p !in s.recorded || CheckedBySome(s, p)
  {
    var s := Run(START, actions);
    PendingIsExact(START, actions);
    if p !in s.recorded || CheckedBySome(s, p) {
      OpenCanSend(s, p);
    } else {
      forall more: seq<Action> | CanRun(s, more) && Reliable(more)
        ensures !Sends(s, more, p)
      {
        SettledStays(s, more, p);
      }
    }
  }

  // ---------------------------------------------------------------------
  // The program.

  /** One alerter; the program counters of its threads and the sent messages are ghosts. */
  class BlockedRangeAlerter {
    var pending: set<Pair>
    var queue: seq<Pair>
    var recorded: set<Pair>
    ghost var callers: map<nat, Caller>
    ghost var workers: map<nat, Worker>
    ghost var sent: seq<Pair>

    ghost function Abs(): State
      reads this
    {
      State(pending, queue, callers, workers, recorded, sent)
    }

    constructor ()
      ensures Abs() == START && Exact(Abs())
    {
      pending, queue, recorded, callers, workers, sent := {}, [], {}, map[], map[], [];
    }

    method MarkPending(pair: Pair, ghost t: nat) returns (ok: bool)
      requires t in callers && callers[t] == Checked(pair)
      modifies this
      ensures Abs() == Apply(old(Abs()), Mark(t))
      ensures ok <==> pair !in old(pending)
    {
      if pair in pending {
        callers := callers - {t};
        return false;
      }
      pending := pending + {pair};
      callers := callers[t := Marked(pair)];
      return true;
    }

    /** A caller that is not interrupted; `failed` are the pairs whose store check fails. */
    method AlertBlocked(pairs: seq<Pair>, failed: set<Pair>, ghost t: nat) returns (ghost actions: seq<Action>)
      requires t !in callers
      modifies this
      ensures CanRun(old(Abs()), actions) && Abs() == Run(old(Abs()), actions)
      ensures t !in callers && workers == old(workers) && sent == old(sent) && recorded == old(recorded)
      ensures forall p :: p in pending && p !in old(pending) ==>
                p in pairs && p !in failed && p !in recorded && p in queue
      ensures old(queue) <= queue && |queue| <= |old(queue)| + |pairs|
      ensures |old(queue)| + |pairs| <= QUEUE_SIZE ==>
        forall p :: p in pairs && p !in failed && p !in recorded ==> p in pending && (p in old(pending) || p in queue)
    {
      actions := [];
      ghost var start := Abs();
      for i := 0 to |pairs|
        invariant CanRun(start, actions) && Abs() == Run(start, actions)
        invariant t !in callers && workers == start.workers && sent == start.sent && recorded == start.recorded
        invariant start.queue <= queue && |queue| <= |start.queue| + i && start.pending <= pending
        invariant |start.queue| + |pairs| <= QUEUE_SIZE ==>
          forall p :: p in pairs[..i] && p !in failed && p !in recorded ==>
                      p in pending && (p in start.pending || p in queue)
        invariant forall p :: p in pending && p !in start.pending ==>
                  p in pairs && p !in failed && p !in recorded && p in queue
      {
        if pairs[i] !in failed {
          ghost var before := Abs();
          ghost var more := AlertOne(pairs[i], t);
          RunAfter(start, actions, more);
          actions := actions + more;
        }
      }
    }

    method AlertOne(p: Pair, ghost t: nat) returns (ghost actions: seq<Action>)
      requires t !in callers
      modifies this
      ensures CanRun(old(Abs()), actions) && Abs() == Run(old(Abs()), actions)
      ensures t !in callers && workers == old(workers) && sent == old(sent) && recorded == old(recorded)
      ensures var accepted := p !in recorded && p !in old(pending) && |old(queue)| < QUEUE_SIZE;
              && queue == (if accepted then old(queue) + [p] else old(queue))
              && pending == (if accepted then old(pending) + {p} else old(pending))
    {
      ghost var start := Abs();
      OneStep(start, Check(t, p));
      actions := [Check(t, p)];
      var alreadySent := p in recorded;
      if alreadySent {
        return;
      }
      callers := callers[t := Checked(p)];
      OneStep(Abs(), Mark(t));
      RunAfter(start, actions, [Mark(t)]);
      actions := actions + [Mark(t)];
      var marked := MarkPending(p, t);
      if !marked {
        assert callers == start.callers;
        return;
      }
      OneStep(Abs(), Enqueue(t));
      RunAfter(start, actions, [Enqueue(t)]);
      actions := actions + [Enqueue(t)];
      if |queue| < QUEUE_SIZE {
        queue, callers := queue + [p], callers - {t};
      } else {
        callers := callers[t := Dropping(p)];
        OneStep(Abs(), Drop(t));
        RunAfter(start, actions, [Drop(t)]);
        actions := actions + [Drop(t)];
        pending, callers := pending - {p}, callers - {t};
      }
    }

    /** One turn of a worker that is not interrupted; a failed send is not recorded. */
    method WorkOne(sendOk: bool, recordOk: bool, ghost w: nat) returns (ghost actions: seq<Action>)
      requires queue != [] && w !in workers && w < WORKERS
      modifies this
      ensures actions == [Take(w), Send(w, sendOk)] + (if sendOk then [Record(w, recordOk)] else []) + [Clear(w)]
      ensures CanRun(old(Abs()), actions) && Abs() == Run(old(Abs()), actions)
    {
      ghost var start := Abs();
      OneStep(start, Take(w));
      var p := queue[0];
      queue, workers := queue[1..], workers[w := Sending(p)];
      OneStep(Abs(), Send(w, sendOk));
      RunAfter(start, [Take(w)], [Send(w, sendOk)]);
      actions := [Take(w)] + [Send(w, sendOk)];
      if sendOk {
        sent, workers := sent + [p], workers[w := Recording(p)];
        OneStep(Abs(), Record(w, recordOk));
        RunAfter(start, actions, [Record(w, recordOk)]);
        actions := actions + [Record(w, recordOk)];
        if recordOk {
          recorded := recorded + {p};
        }
      }
      workers := workers[w := Clearing(p)];
      OneStep(Abs(), Clear(w));
      RunAfter(start, actions, [Clear(w)]);
      actions := actions + [Clear(w)];
      pending, workers := pending - {p}, workers - {w};
    }
  }
}
