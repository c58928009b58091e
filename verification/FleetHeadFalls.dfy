/** What a head that falls back costs: from every reachable state, a prune that
    moves it below a watcher's cursor can be followed by an outcome that watcher
    never looks at. */
module FleetHeadFalls {
  import opened Basics
  import opened Fleetlog
  import opened FleetWatcher
  import opened FleetDelivery
  import opened FleetCatchUp

  // ----- What holds in every run, whatever is pruned -----

  ghost predicate Sane(s: State) {
    && Valid(s.log)
    && forall ref :: ref in s.watchers && s.watchers[ref].work.Projected? ==>
         s.watchers[ref].work.pending != []
         && s.watchers[ref].work.pending[0].seqNo == s.watchers[ref].monitor.applied + 1
  }

  lemma StepSane(s: State, a: Action)
    requires Sane(s)
    ensures Sane(Step(s, a))
  {
    if Enabled(s, a) && a.Append? {
      AppendKeepsOrder(s.log, a.kind, a.at, a.payload);
      CompactKeepsOrder(Appended(s.log, a.kind, a.at, a.payload), a.policy);
    } else if Enabled(s, a) && a.Prune? {
      PruneKeepsOrder(s.log, a.policy);
    }
  }

  lemma {:induction false} RunSane(s: State, actions: seq<Action>)
    requires Sane(s)
    ensures Sane(Run(s, actions))
    decreases |actions|
  {
    if actions != [] {
      StepSane(s, actions[0]);
      RunSane(Step(s, actions[0]), actions[1..]);
    }
  }

  /** The cursor is at or past the event, and the projection never took it. */
  ghost predicate Overtaken(s: State, ref: Ref, e: Event) {
    && ref in s.watchers && e.seqNo <= s.watchers[ref].monitor.applied
    && (ref, e) !in s.settled && e in s.history
  }

  lemma StaysOvertaken(s: State, a: Action, ref: Ref, e: Event)
    requires Sane(s) && Overtaken(s, ref, e)
    ensures Overtaken(Step(s, a), ref, e)
  {
  }

  /** An event overtaken is never looked at again. */
  lemma {:induction false} OvertakenForEver(s: State, actions: seq<Action>, ref: Ref, e: Event)
    requires Sane(s) && Overtaken(s, ref, e)
    ensures Overtaken(Run(s, actions), ref, e)
    decreases |actions|
  {
    if actions != [] {
      StepSane(s, actions[0]);
      StaysOvertaken(s, actions[0], ref, e);
      OvertakenForEver(Step(s, actions[0]), actions[1..], ref, e);
    }
  }

  /** A lost outcome: a registered monitor was there for it, its watcher never
      took it, and never will. */
  ghost predicate Lost(s: State, ref: Ref, e: Event) {
    && Terminal(e.kind) && Actionable(e)
    && ref in s.held && (ref, e) !in s.missed
    && Overtaken(s, ref, e) && forall later :: Overtaken(Run(s, later), ref, e)
  }

  // ----- The outcome that is lost -----

  lemma {:induction false} LaterThan(events: set<(Ref, Event)>) returns (at: int)
    ensures forall p :: p in events ==> p.1.at < at
    decreases |events|
  {
    if events == {} {
      at := 0;
    } else {
      var p :| p in events;
      at := LaterThan(events - {p});
      at := if at <= p.1.at then p.1.at + 1 else at;
    }
  }

  /** With no exit in its way and the head below the cursor, the home's next
      exit is lost. */
  lemma NextExitIsLost(s: State, ref: Ref, through: Option<nat>) returns (a: Action, e: Event)
    requires Sane(s) && ref in s.held && ref in s.watchers && IsMinAcked(s.held, through) && !HasExit(s.log)
    requires Head(s.log) < s.watchers[ref].monitor.applied
    ensures Enabled(s, a) && a.Append? && Lost(Step(s, a), ref, e)
  {
    var at := LaterThan(s.settled + s.missed);
    var payload := ProcessExit(false, "end");
    a := Append(Exit, at, payload, Retention(1, at, through));
    e := Event(Head(s.log) + 1, Exit, at, payload);
    var t := Step(s, a);
    StepSane(s, a);
    forall later ensures Overtaken(Run(t, later), ref, e) {
      OvertakenForEver(t, later, ref, e);
    }
  }

  /** Every monitor is dropped. */
  lemma {:induction false} DropAll(s: State) returns (actions: seq<Action>)
    ensures Run(s, actions) == s.(held := map[])
    decreases |s.held|
  {
    if s.held == map[] {
      actions := [];
    } else {
      var r :| r in s.held;
      assert (s.held - {r}).Keys == s.held.Keys - {r};
      var rest := DropAll(Step(s, Demonitor(r)));
      actions := [Demonitor(r)] + rest;
    }
  }

  lemma RemovedByAge(log: Log)
    requires Valid(log)
    ensures Pruned(log, Retention(0, 0, None)) == NEW_LOG
  {
    KeptNothing(log.events, Retention(0, 0, None));
  }

  /** An exit still in the way goes once nobody monitors the entity: the log ages
      out, its file is removed, and the monitor is registered again. */
  lemma ExitOutOfTheWay(s: State, ref: Ref) returns (actions: seq<Action>)
    requires Sane(s) && ref in s.held
    ensures var t := Run(s, actions);
            t.log == NEW_LOG && t.held == map[ref := 0] && t.watchers == s.watchers && Sane(t)
  {
    var drop := DropAll(s);
    var dropped := s.(held := map[]);
    var aged := Step(dropped, Prune(Retention(0, 0, None)));
    RemovedByAge(s.log);
    RunOne(dropped, Prune(Retention(0, 0, None)));
    RunJoin(s, drop, [Prune(Retention(0, 0, None))]);
    RunOne(aged, Register(ref));
    RunJoin(s, drop + [Prune(Retention(0, 0, None))], [Register(ref)]);
    actions := drop + [Prune(Retention(0, 0, None))] + [Register(ref)];
    RunSane(s, actions);
  }

  lemma HeadBelowCursor(s: State, ref: Ref, through: Option<nat>) returns (actions: seq<Action>, e: Event)
    requires Sane(s) && ref in s.held && ref in s.watchers && IsMinAcked(s.held, through)
    requires Head(s.log) < s.watchers[ref].monitor.applied
    ensures Lost(Run(s, actions), ref, e)
    ensures !HasExit(s.log) ==> |actions| == 1 && actions[0].Append?
  {
    if HasExit(s.log) {
      var clear := ExitOutOfTheWay(s, ref);
      var t := Run(s, clear);
      assert t.held[ref] == 0;
      assert !HasExit(t.log);
      var a;
      a, e := NextExitIsLost(t, ref, Some(0));
      RunOne(t, a);
      RunJoin(s, clear, [a]);
      actions := clear + [a];
    } else {
      var a;
      a, e := NextExitIsLost(s, ref, through);
      RunOne(s, a);
      actions := [a];
    }
  }

  /** From any reachable state: a prune that moves the head below a recorded
      watcher's cursor can be followed by an outcome that watcher never sees.
      While no exit is in the first slice kept, the home's next exit is one. */
  lemma FallenHeadLosesAnOutcome(run: seq<Action>, policy: Retention, ref: Ref)
    returns (after: seq<Action>, e: Event)
    requires Enabled(Run(START, run), Prune(policy))
    requires ref in Run(START, run).held && ref in Run(START, run).watchers
    requires Head(Pruned(Run(START, run).log, policy)) < Run(START, run).watchers[ref].monitor.applied
    ensures Lost(Run(START, run + [Prune(policy)] + after), ref, e)
    ensures !HasExit(Pruned(Run(START, run).log, policy)) ==> |after| == 1 && after[0].Append?
  {
    RunSane(START, run);
    var s := Run(START, run);
    var t := Step(s, Prune(policy));
    StepSane(s, Prune(policy));
    after, e := HeadBelowCursor(t, ref, policy.through);
    RunOne(s, Prune(policy));
    RunJoin(START, run, [Prune(policy)]);
    RunJoin(START, run + [Prune(policy)], after);
  }

  /** From any reachable state: a prune that removes the log of a watcher that has
      applied anything can be followed by an outcome that watcher never sees: its
      monitor is registered again, and the home's next exit is numbered 1. */
  lemma RemovedLogLosesAnOutcome(run: seq<Action>, policy: Retention, ref: Ref)
    returns (after: seq<Action>, e: Event)
    requires Enabled(Run(START, run), Prune(policy)) && Spent(Run(START, run).log, policy)
    requires ref in Run(START, run).watchers && Run(START, run).watchers[ref].monitor.applied > 0
    ensures after != [] && after[0] == Register(ref)
    ensures Lost(Run(START, run + [Prune(policy)] + after), ref, e)
  {
    var s := Run(START, run);
    var t := Step(Step(s, Prune(policy)), Register(ref));
    RunSane(START, run);
    StepSane(s, Prune(policy));
    StepSane(Step(s, Prune(policy)), Register(ref));
    assert t.held == map[ref := 0] && t.held[ref] == 0;
    var next;
    next, e := HeadBelowCursor(t, ref, Some(0));
    after := [Register(ref)] + next;
    RunOne(s, Prune(policy));
    RunJoin(START, run, [Prune(policy)]);
    RunJoin(START, run + [Prune(policy)], after);
  }

  // ----- Any prune that moves the head -----

  /** A watcher with no hole above its cursor syncs to the head. */
  lemma {:induction false} SyncsToHead(s: State, ref: Ref) returns (actions: seq<Action>)
    requires Sane(s) && ref in s.held && ref in s.watchers && s.watchers[ref].work.Idle?
    requires s.log.events != [] && NoHole(s.log, s.watchers[ref].monitor.applied)
    requires s.watchers[ref].monitor.applied <= Head(s.log)
    ensures var t := Run(s, actions);
            t.log == s.log && t.held == s.held && ref in t.watchers && t.watchers[ref].monitor.applied == Head(s.log)
    decreases Head(s.log) - s.watchers[ref].monitor.applied
  {
    var cursor := s.watchers[ref].monitor.applied;
    if cursor == Head(s.log) {
      actions := [];
    } else {
      var serve := Serve(ref, cursor);
      var t := Step(s, serve);
      var slice := UninterruptedSlice(t, ref, Answer(ref.machine, Since(s.log, cursor)), _ => Admits);
      RoundIsASlice(s.watchers[ref].monitor, s.watchers[ref].chat, s.log, _ => Admits);
      RoundProgresses(s.log, cursor);
      var u := Run(t, slice);
      RunSane(t, slice);
      var rest := SyncsToHead(u, ref);
      RunOne(s, serve);
      RunJoin(s, [serve], slice);
      RunJoin(s, [serve] + slice, rest);
      actions := [serve] + slice + rest;
    }
  }

  lemma HeadNeverRises(log: Log, policy: Retention)
    requires Valid(log)
    ensures Head(Pruned(log, policy)) <= Head(log)
    ensures Head(Pruned(log, policy)) <= Head(Compact(log, policy))
  {
    KeptSound(log.events, policy);
    var kept := Kept(log.events, policy);
    if kept != [] {
      assert kept[|kept| - 1] in log.events;
    }
  }

  /** From any reachable state: every prune that moves the head can lose an
      outcome of a watcher that can catch up with the log, once it has. */
  lemma MovedHeadLosesAnOutcome(run: seq<Action>, policy: Retention, ref: Ref)
    returns (before: seq<Action>, after: seq<Action>, e: Event)
    requires Enabled(Run(START, run), Prune(policy)) && !HeadStays(Run(START, run).log, policy)
    requires ref in Run(START, run).held && ref in Run(START, run).watchers
    requires NoHole(Run(START, run).log, Run(START, run).watchers[ref].monitor.applied)
    ensures Run(START, run + before).log == Run(START, run).log
    ensures Lost(Run(START, run + before + [Prune(policy)] + after), ref, e)
  {
    var s := Run(START, run);
    RunSane(START, run);
    HeadSurvivesIff(s.log, policy);
    HeadNeverRises(s.log, policy);
    before := [];
    if s.watchers[ref].monitor.applied <= Head(s.log) {
      RunOne(s, Crash(ref));
      var sync := SyncsToHead(Step(s, Crash(ref)), ref);
      RunJoin(s, [Crash(ref)], sync);
      before := [Crash(ref)] + sync;
    }
    RunJoin(START, run, before);
    after, e := FallenHeadLosesAnOutcome(run + before, policy, ref);
  }
}
