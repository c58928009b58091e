/** What the delivery protocol guarantees over every run, wherever crashes fall
    and whatever is pruned. */
module FleetGuarantees {
  import opened Basics
  import opened Fleetlog
  import opened FleetWatcher
  import opened FleetDelivery

  // ----- What the account of a run records -----

  /** What a home has heard of a monitor only rises while it stays registered:
      to each acknowledgement of its machine that is above it, and no other way. */
  lemma HeardOnlyRises(s: State, a: Action, ref: Ref)
    requires ref in s.held && a != Demonitor(ref)
    ensures ref in Step(s, a).held
    ensures Step(s, a).held[ref] == if a.TakeAck? && Enabled(s, a) && a.message.from == ref.machine
                                       && a.message.through > s.held[ref] then a.message.through else s.held[ref]
  {
  }

  /** The sets the guarantees speak of grow only by what they name: an event is
      taken when a chat that does not refuse is offered it as the next one, and
      declined only when that chat has no part in it; an outcome is missed only by
      a monitor registered after it left the log; and the account of the events is
      of those the home appended, each numbered after its log's head. */
  lemma AccountIsTrue(s: State, a: Action, ref: Ref, e: Event)
    ensures var t := Step(s, a);
            && ((ref, e) in t.settled && (ref, e) !in s.settled ==>
                  && a.Offer? && a.ref == ref && ref in s.watchers
                  && s.watchers[ref].work.Applying? && s.watchers[ref].work.pending != []
                  && s.watchers[ref].work.pending[0] == e && e.seqNo == s.watchers[ref].monitor.applied + 1
                  && (Actionable(e) ==> !a.verdict.Refuses?))
            && ((ref, e) in t.declined && (ref, e) !in s.declined ==> a == Offer(ref, Ineligible))
            && ((ref, e) in t.missed && (ref, e) !in s.missed ==>
                  a == Register(ref) && e in s.history && e.kind == Exit && e !in s.log.events)
            && (t.history == s.history
                || (a.Append? && t.history == s.history + [Event(Head(s.log) + 1, a.kind, a.at, a.payload)]))
  {
    NoticeIs(e);
  }

  /** And it leaves none of them out. */
  lemma AccountIsWhole(s: State, a: Action, ref: Ref)
    requires Enabled(s, a)
    ensures var t := Step(s, a);
            && s.settled <= t.settled && s.declined <= t.declined && s.missed <= t.missed
            && (a.Append? ==> t.history == s.history + [Event(Head(s.log) + 1, a.kind, a.at, a.payload)])
            && (a == Register(ref) ==>
                  forall e :: e in s.history && e.kind == Exit && e !in s.log.events ==> (ref, e) in t.missed)
            && (a.Offer? && a.ref == ref && s.watchers[ref].work.pending[0].seqNo == s.watchers[ref].monitor.applied + 1
                && (a.verdict.Refuses? ==> !Actionable(s.watchers[ref].work.pending[0])) ==>
                  (ref, s.watchers[ref].work.pending[0]) in t.settled)
  {
    if a.Offer? && a.ref == ref {
      NoticeIs(s.watchers[ref].work.pending[0]);
    }
  }

  // ----- What every run keeps -----

  lemma OrderlyInv(actions: seq<Action>)
    requires OrderlyRun(START, actions) && KeptRun(START, actions)
    ensures Inv(Run(START, actions))
  {
    OrderlyIsRegular(START, actions);
    StartInv();
    RunInv(START, actions);
  }

  /** Nothing is forgotten before it is consumed: an outcome a registered monitor
      could have heard was taken by its projection or is still in the log. */
  lemma NothingForgotten(actions: seq<Action>, ref: Ref, e: Event)
    requires OrderlyRun(START, actions) && KeptRun(START, actions)
    requires ref in Run(START, actions).held && e in Run(START, actions).history && Terminal(e.kind)
    ensures var s := Run(START, actions); (ref, e) in s.settled || e in s.log.events || (ref, e) in s.missed
  {
    OrderlyInv(actions);
  }

  /** Acknowledged, applied and appended, in that order; and whatever the cursor
      passed was projected without an error or had left the log. */
  ghost predicate InLine(s: State, ref: Ref) {
    && (ref in s.held && s.held[ref] > 0 ==> ref in s.watchers && s.held[ref] <= s.watchers[ref].monitor.applied)
    && (ref in s.watchers ==>
          && s.watchers[ref].monitor.applied <= Head(s.log) == |s.history|
          && forall e :: e in s.history && e.seqNo <= s.watchers[ref].monitor.applied ==> Passed(s, ref, e))
  }

  lemma CursorsNeverOvertake(actions: seq<Action>, ref: Ref)
    requires OrderlyRun(START, actions) && KeptRun(START, actions)
    ensures InLine(Run(START, actions), ref)
  {
    OrderlyInv(actions);
    assert WatcherInv(Run(START, actions), ref);
  }

  /** Exactly once, in order: however often a slice is redelivered and wherever a
      crash fell, a chat's rows carry distinct keys and ascending numbers, each
      the notice of the event with that number. */
  lemma RowsExactlyOnceInOrder(actions: seq<Action>, ref: Ref)
    requires OrderlyRun(START, actions) && KeptRun(START, actions) && ref in Run(START, actions).watchers
    ensures var s := Run(START, actions);
            var rows := s.watchers[ref].chat.rows;
            && Ordered(rows)
            && forall row :: row in rows ==>
                 && 1 <= row.seqNo <= |s.history|
                 && Keyed(s.history[row.seqNo - 1], row.operation)
                 && row.seqNo <= s.watchers[ref].monitor.applied + 1
  {
    OrderlyInv(actions);
    assert WatcherInv(Run(START, actions), ref);
  }

  /** An event still to be heard: its projection has not taken it, and it is in
      the log, or is an outcome the monitor was there for. */
  ghost predicate Untaken(s: State, ref: Ref, e: Event) {
    && e in s.history && (ref, e) !in s.settled
    && (e in s.log.events || (Terminal(e.kind) && (ref, e) !in s.missed))
  }

  /** While the chat refuses an event, nothing past it is shown, applied or
      acknowledged, on the way or at the home. */
  lemma NothingPastAnUntakenEvent(actions: seq<Action>, ref: Ref, e: Event)
    requires OrderlyRun(START, actions) && KeptRun(START, actions)
    requires ref in Run(START, actions).watchers && Untaken(Run(START, actions), ref, e)
    ensures var s := Run(START, actions);
            && s.watchers[ref].monitor.applied < e.seqNo
            && (forall row :: row in s.watchers[ref].chat.rows ==> row.seqNo < e.seqNo)
            && (ref in s.held ==> s.held[ref] < e.seqNo)
            && forall m :: m in s.net && m.Acked? && m.from == ref.machine ==> m.through < e.seqNo
  {
    OrderlyInv(actions);
    var s := Run(START, actions);
    assert WatcherInv(s, ref) && HeldInv(s);
    assert !Passed(s, ref, e);
    assert e == s.history[e.seqNo - 1];
    forall m | m in s.net && m.Acked? && m.from == ref.machine ensures m.through < e.seqNo {
      assert MessageInv(s, m);
    }
  }

  /** A monitor registered before the entity's first event and never dropped
      misses nothing. */
  lemma {:induction false} NothingMissed(s: State, actions: seq<Action>, ref: Ref)
    requires ref in s.held && forall e :: (ref, e) !in s.missed
    requires Demonitor(ref) !in actions
    ensures var t := Run(s, actions); ref in t.held && forall e :: (ref, e) !in t.missed
    decreases |actions|
  {
    if actions != [] {
      assert actions[0] in actions;
      NothingMissed(Step(s, actions[0]), actions[1..], ref);
    }
  }

  /** Taken or still in the log; taken if the cursor passed it, and then the chat
      shows its row unless it is not actionable or the chat declined it. */
  ghost predicate NotLost(s: State, ref: Ref, e: Event) {
    && ((ref, e) in s.settled || e in s.log.events)
    && (ref in s.watchers && e.seqNo <= s.watchers[ref].monitor.applied ==>
          && (ref, e) in s.settled
          && ((ref, e) in s.declined || !Actionable(e)
              || exists row :: row in s.watchers[ref].chat.rows && Keyed(e, row.operation)))
  }

  lemma HeldAndShown(s: State, ref: Ref, e: Event)
    requires Inv(s) && ref in s.held && e in s.history && Terminal(e.kind) && (ref, e) !in s.missed
    ensures NotLost(s, ref, e)
  {
    assert WatcherInv(s, ref);
    assert OutcomeInv(s) && (Heard(s, ref, e) || e in s.log.events);
  }

  /** No lost outcome: for a monitor registered before the entity's first event
      and never dropped, whatever is pruned. */
  lemma NoLostOutcome(rest: seq<Action>, ref: Ref, e: Event)
    requires OrderlyRun(START, [Register(ref)] + rest) && Demonitor(ref) !in rest
    requires e in Run(START, [Register(ref)] + rest).history && Terminal(e.kind)
    ensures NotLost(Run(START, [Register(ref)] + rest), ref, e)
  {
    var actions := [Register(ref)] + rest;
    assert actions[1..] == rest;
    NothingMissed(Step(START, Register(ref)), rest, ref);
    MonitoredIsKept(Step(START, Register(ref)), rest, ref);
    OrderlyInv(actions);
    HeldAndShown(Run(START, actions), ref, e);
  }

  /** The same of any run in which no prune moves the head, whatever the order of
      its stamps and kinds. */
  lemma NoLostOutcomeWhileTheHeadStays(rest: seq<Action>, ref: Ref, e: Event)
    requires RegularRun(START, [Register(ref)] + rest) && Demonitor(ref) !in rest
    requires e in Run(START, [Register(ref)] + rest).history && Terminal(e.kind)
    ensures NotLost(Run(START, [Register(ref)] + rest), ref, e)
    ensures InLine(Run(START, [Register(ref)] + rest), ref)
  {
    var actions := [Register(ref)] + rest;
    assert actions[1..] == rest;
    NothingMissed(Step(START, Register(ref)), rest, ref);
    StartInv();
    RunInv(START, actions);
    assert WatcherInv(Run(START, actions), ref);
    HeldAndShown(Run(START, actions), ref, e);
  }
}
