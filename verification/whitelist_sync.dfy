/** The fail2ban whitelist sync (scripts/mailcow-f2b-trusted-sync.py): a process that edits a shared
    set entry by entry, and that may crash between any two of its steps. */
module WhitelistSync {
  // ---------------------------------------------------------------------
  // The plan.

  datatype Plan = Plan(add: set<string>, remove: set<string>, managed: set<string>, unban: set<string>)

  /** Computed from what is read at the start of a sync; `overlaps` compares two networks. */
  function MakePlan(ranges: set<string>, whitelist: set<string>, managed: set<string>, bans: set<string>,
                    overlaps: (string, string) -> bool): Plan {
    var add := ranges - whitelist;
    Plan(add, (managed - ranges) * whitelist, (managed + add) * ranges,
         set b | b in bans && exists r :: r in ranges && overlaps(b, r))
  }

  /** Where a finished sync leaves the whitelist. */
  function Synced(ranges: set<string>, whitelist: set<string>, managed: set<string>): set<string> {
    ranges + (whitelist - managed)
  }

  // ---------------------------------------------------------------------
  // The steps.

  /** What is still to do in a sync; `saved` is what the state file gets at the end. */
  datatype Process = Idle | Busy(add: set<string>, remove: set<string>, unban: set<string>, saved: set<string>)

  /** The whitelist and the queue are in Redis, the managed names in the state file. */
  datatype State = State(whitelist: set<string>, managed: set<string>, unbanQueue: set<string>, process: Process)

  datatype Action =
    | Edit(whitelist: set<string>)
    | Begin(ranges: set<string>, bans: set<string>, overlaps: (string, string) -> bool)
    | AddOne(name: string)
    | RemoveOne(name: string)
    | UnbanOne(name: string)
    | Save
    | Crash

  /** The process adds, then removes, then queues unbans, then saves; the mail server's own interface may
      replace the whitelist, and the process may die, at any time. */
  predicate Enabled(s: State, a: Action) {
    match a
    case Edit(_) => true
    case Begin(_, _, _) => s.process.Idle?
    case AddOne(name) => s.process.Busy? && name in s.process.add
    case RemoveOne(name) => s.process.Busy? && s.process.add == {} && name in s.process.remove
    case UnbanOne(name) => s.process.Busy? && s.process.add == {} && s.process.remove == {} && name in s.process.unban
    case Save => s.process.Busy? && s.process.add == {} && s.process.remove == {} && s.process.unban == {}
    case Crash => s.process.Busy?
  }

  function Apply(s: State, a: Action): State
    requires Enabled(s, a)
  {
    match a
    case Edit(whitelist) => s.(whitelist := whitelist)
    case Begin(ranges, bans, overlaps) =>
      var p := MakePlan(ranges, s.whitelist, s.managed, bans, overlaps);
      s.(process := Busy(p.add, p.remove, p.unban, p.managed))
    case AddOne(name) => s.(whitelist := s.whitelist + {name}, process := s.process.(add := s.process.add - {name}))
    case RemoveOne(name) =>
      s.(whitelist := s.whitelist - {name}, process := s.process.(remove := s.process.remove - {name}))
    case UnbanOne(name) =>
      s.(unbanQueue := s.unbanQueue + {name}, process := s.process.(unban := s.process.unban - {name}))
    case Save => s.(managed := s.process.saved, process := Idle)
    case Crash => s.(process := Idle)
  }

  predicate CanRun(s: State, actions: seq<Action>)
    decreases |actions|, 0
  {
    actions == [] ||
    (CanRun(s, actions[..|actions| - 1]) && Enabled(Run(s, actions[..|actions| - 1]), actions[|actions| - 1]))
  }

  function Run(s: State, actions: seq<Action>): State
    requires CanRun(s, actions)
    decreases |actions|, 1
  {
    if actions == [] then s else Apply(Run(s, actions[..|actions| - 1]), actions[|actions| - 1])
  }

  // ---------------------------------------------------------------------
  // Only added names are removed.

  predicate Added(actions: seq<Action>, name: string) {
    exists i :: 0 <= i < |actions| && actions[i].AddOne? && actions[i].name == name
  }

  /** What the state file and the running process will ever treat as their own has been added, or is still to be
      added before it is saved. */
  ghost predicate Owned(s: State, actions: seq<Action>) {
    && (forall n :: n in s.managed ==> Added(actions, n))
    && (s.process.Busy? ==>
      && (forall n :: n in s.process.remove ==> Added(actions, n))
      && (forall n :: n in s.process.saved ==> n in s.process.add || Added(actions, n)))
  }

  lemma AddedSnoc(actions: seq<Action>, a: Action, name: string)
    ensures Added(actions + [a], name) <==> Added(actions, name) || (a.AddOne? && a.name == name)
  {
    var more := actions + [a];
    assert more[|actions|] == a;
    assert forall i :: 0 <= i < |actions| ==> more[i] == actions[i];
  }

  lemma {:induction false} RunsOwn(s: State, actions: seq<Action>)
    requires s.managed == {} && s.process.Idle? && CanRun(s, actions)
    ensures Owned(Run(s, actions), actions)
    decreases |actions|
  {
    if actions != [] {
      var before, a := actions[..|actions| - 1], actions[|actions| - 1];
      RunsOwn(s, before);
      assert actions == before + [a];
      forall n
        ensures Added(actions, n) <==> Added(before, n) || (a.AddOne? && a.name == n)
      {
        AddedSnoc(before, a, n);
      }
    }
  }

  /** Over any number of syncs, edits and crashes, a name is removed only after some sync has added it. */
  lemma OnlyAddedIsRemoved(s: State, actions: seq<Action>, i: nat)
    requires s.managed == {} && s.process.Idle? && CanRun(s, actions)
    requires i < |actions| && actions[i].RemoveOne?
    ensures Added(actions[..i], actions[i].name)
  {
    PrefixRuns(s, actions, i + 1);
    assert actions[..i + 1][..i] == actions[..i];
    RunsOwn(s, actions[..i]);
  }

  lemma {:induction false} PrefixRuns(s: State, actions: seq<Action>, n: nat)
    requires CanRun(s, actions) && n <= |actions|
    ensures CanRun(s, actions[..n])
    decreases |actions|
  {
    if n == |actions| {
      assert actions[..n] == actions;
    } else {
      PrefixRuns(s, actions[..|actions| - 1], n);
      assert actions[..|actions| - 1][..n] == actions[..n];
    }
  }

  // ---------------------------------------------------------------------
  // What a sync without concurrent edits achieves, finished or not.

  /** The process works on its own plan and nobody else edits the whitelist. */
  ghost predicate Underway(s: State, ranges: set<string>, whitelist: set<string>, managed: set<string>) {
    && s.managed == managed && s.process.Busy?
    && s.process.add <= ranges && s.process.remove <= managed - ranges
    && Synced(ranges, s.whitelist, managed) == Synced(ranges, whitelist, managed)
    && s.whitelist + s.process.add - s.process.remove == Synced(ranges, whitelist, managed)
    && s.process.saved == (managed + (ranges - whitelist)) * ranges
  }

  predicate Undisturbed(actions: seq<Action>) {
    forall i :: 0 <= i < |actions| ==> actions[i].AddOne? || actions[i].RemoveOne? || actions[i].UnbanOne?
  }

  lemma {:induction false} SyncIsUnderway(s: State, ranges: set<string>, bans: set<string>,
                                          overlaps: (string, string) -> bool, actions: seq<Action>)
    requires s.process.Idle? && Undisturbed(actions)
    requires CanRun(Apply(s, Begin(ranges, bans, overlaps)), actions)
    ensures Underway(Run(Apply(s, Begin(ranges, bans, overlaps)), actions), ranges, s.whitelist, s.managed)
    decreases |actions|
  {
    if actions != [] {
      SyncIsUnderway(s, ranges, bans, overlaps, actions[..|actions| - 1]);
    }
  }

  /** A sync that is completed leaves the trusted ranges and whatever it does not manage, and remembers as its
      own what it has added itself. */
  lemma CompletedSync(s: State, ranges: set<string>, bans: set<string>, overlaps: (string, string) -> bool,
                      actions: seq<Action>)
    requires s.process.Idle? && Undisturbed(actions)
    requires CanRun(Apply(s, Begin(ranges, bans, overlaps)), actions)
    requires Enabled(Run(Apply(s, Begin(ranges, bans, overlaps)), actions), Save)
    ensures var r := Apply(Run(Apply(s, Begin(ranges, bans, overlaps)), actions), Save);
            && r.whitelist == Synced(ranges, s.whitelist, s.managed)
            && r.managed == (s.managed + (ranges - s.whitelist)) * ranges
  {
    SyncIsUnderway(s, ranges, bans, overlaps, actions);
  }

  /** A second sync has nothing to add or remove, and keeps the state file. */
  lemma RepeatIsIdle(ranges: set<string>, whitelist: set<string>, managed: set<string>, bans: set<string>,
                     overlaps: (string, string) -> bool)
    ensures var p := MakePlan(ranges, Synced(ranges, whitelist, managed), (managed + (ranges - whitelist)) * ranges,
                              bans, overlaps);
            p.add == {} && p.remove == {} && p.managed == (managed + (ranges - whitelist)) * ranges
  {
  }

  /** Wherever a sync crashes, the next one brings the whitelist to the same place. */
  lemma CrashIsHarmless(s: State, ranges: set<string>, bans: set<string>, overlaps: (string, string) -> bool,
                        actions: seq<Action>, again: seq<Action>)
    requires s.process.Idle? && Undisturbed(actions) && Undisturbed(again)
    requires CanRun(Apply(s, Begin(ranges, bans, overlaps)), actions)
    requires var c := Apply(Run(Apply(s, Begin(ranges, bans, overlaps)), actions), Crash);
             && CanRun(Apply(c, Begin(ranges, bans, overlaps)), again)
             && Enabled(Run(Apply(c, Begin(ranges, bans, overlaps)), again), Save)
    ensures var c := Apply(Run(Apply(s, Begin(ranges, bans, overlaps)), actions), Crash);
            Apply(Run(Apply(c, Begin(ranges, bans, overlaps)), again), Save).whitelist ==
            Synced(ranges, s.whitelist, s.managed)
  {
    SyncIsUnderway(s, ranges, bans, overlaps, actions);
    var c := Apply(Run(Apply(s, Begin(ranges, bans, overlaps)), actions), Crash);
    CompletedSync(c, ranges, bans, overlaps, again);
  }

  // ---------------------------------------------------------------------
  // What names cannot tell.

  /** The tool knows its entries by name only: one that it has added, that was taken out by hand and put back
      by hand, it removes like its own. */
  lemma EntryPutBackByHandIsRemoved(s: State, name: string, whitelist: set<string>, ranges: set<string>,
                                    bans: set<string>, overlaps: (string, string) -> bool, actions: seq<Action>)
    requires s.process.Idle? && name in s.managed && name !in s.whitelist && name in whitelist && name !in ranges
    requires var e := Apply(s, Edit(whitelist));
             && Undisturbed(actions) && CanRun(Apply(e, Begin(ranges, bans, overlaps)), actions)
             && Enabled(Run(Apply(e, Begin(ranges, bans, overlaps)), actions), Save)
    ensures var e := Apply(s, Edit(whitelist));
            name !in Apply(Run(Apply(e, Begin(ranges, bans, overlaps)), actions), Save).whitelist
  {
    CompletedSync(Apply(s, Edit(whitelist)), ranges, bans, overlaps, actions);
  }

  /** An entry of the whitelist that neither the state file nor the running process takes for its own. */
  predicate Orphaned(s: State, name: string) {
    && name in s.whitelist && name !in s.managed
    && (s.process.Busy? ==> name !in s.process.add && name !in s.process.remove && name !in s.process.saved)
  }

  /** Nobody takes the entry out by hand. */
  predicate EditsKeep(actions: seq<Action>, name: string) {
    forall i :: 0 <= i < |actions| && actions[i].Edit? ==> name in actions[i].whitelist
  }

  lemma {:induction false} OrphanStays(s: State, actions: seq<Action>, name: string)
    requires Orphaned(s, name) && CanRun(s, actions) && EditsKeep(actions, name)
    ensures Orphaned(Run(s, actions), name)
    decreases |actions|
  {
    if actions != [] {
      var before, a := actions[..|actions| - 1], actions[|actions| - 1];
      OrphanStays(s, before, name);
      assert a.Edit? ==> name in a.whitelist;
    }
  }

  /** A crash between adding an entry and saving the state leaves an entry that no later sync removes, whatever the
      ranges, the bans and the crashes, as long as no edit by hand does. */
  lemma CrashLeavesAnOrphan(s: State, name: string, ranges: set<string>, bans: set<string>,
                            overlaps: (string, string) -> bool, later: seq<Action>)
    requires s.process.Idle? && name in ranges && name !in s.whitelist && name !in s.managed
    requires var c := Apply(Apply(Apply(s, Begin(ranges, bans, overlaps)), AddOne(name)), Crash);
             CanRun(c, later) && EditsKeep(later, name)
    ensures var c := Apply(Apply(Apply(s, Begin(ranges, bans, overlaps)), AddOne(name)), Crash);
            name in Run(c, later).whitelist && name !in Run(c, later).managed
  {
    OrphanStays(Apply(Apply(Apply(s, Begin(ranges, bans, overlaps)), AddOne(name)), Crash), later, name);
  }

  // ---------------------------------------------------------------------
  // The program.

  class Mailcow {
    var whitelist: set<string>
    var unbanQueue: set<string>
    var managed: set<string>

    method AddAll(nets: set<string>)
      modifies this`whitelist
      ensures whitelist == old(whitelist) + nets
    {
      var left := nets;
      while left != {}
        invariant left <= nets && whitelist == old(whitelist) + (nets - left)
        decreases |left|
      {
        var net :| net in left;
        whitelist, left := whitelist + {net}, left - {net};
      }
    }

    method RemoveAll(nets: set<string>)
      modifies this`whitelist
      ensures whitelist == old(whitelist) - nets
    {
      var left := nets;
      while left != {}
        invariant left <= nets && whitelist == old(whitelist) - (nets - left)
        decreases |left|
      {
        var net :| net in left;
        whitelist, left := whitelist - {net}, left - {net};
      }
    }

    method UnbanAll(nets: set<string>)
      modifies this`unbanQueue
      ensures unbanQueue == old(unbanQueue) + nets
    {
      var left := nets;
      while left != {}
        invariant left <= nets && unbanQueue == old(unbanQueue) + (nets - left)
        decreases |left|
      {
        var net :| net in left;
        unbanQueue, left := unbanQueue + {net}, left - {net};
      }
    }

    /** A sync that nobody disturbs. */
    method Sync(ranges: set<string>, bans: set<string>, overlaps: (string, string) -> bool, dryRun: bool)
      returns (add: set<string>, remove: set<string>, unban: set<string>)
      modifies this
      ensures add == ranges - old(whitelist) && remove == (old(managed) - ranges) * old(whitelist)
      ensures forall b :: b in unban <==> b in bans && exists r :: r in ranges && overlaps(b, r)
      ensures dryRun ==> whitelist == old(whitelist) && unbanQueue == old(unbanQueue) && managed == old(managed)
      ensures !dryRun ==> whitelist == Synced(ranges, old(whitelist), old(managed))
      ensures !dryRun ==> unbanQueue == old(unbanQueue) + unban
      ensures !dryRun ==> managed == (old(managed) + (ranges - old(whitelist))) * ranges
    {
      var p := MakePlan(ranges, whitelist, managed, bans, overlaps);
      add, remove, unban := p.add, p.remove, p.unban;
      if dryRun {
        return;
      }
      AddAll(add);
      RemoveAll(remove);
      UnbanAll(unban);
      if p.managed != managed {
        managed := p.managed;
      }
    }
  }
}
