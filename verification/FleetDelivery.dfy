/** The delivery protocol for one entity: its home, any number of watchers, and
    links that drop, duplicate, delay and reorder. Every durable write is a step
    of its own, so a crash may fall between any two. */
module FleetDelivery {
  import opened Basics
  import opened Fleetlog
  import opened FleetWatcher

  /** A monitor's reference: the machine that watches and the chat that asked. */
  datatype Ref = Ref(machine: nat, chat: nat)

  /** What a watcher is in the middle of. `start` is the cursor the slice began
      at; a `Projected` event has reached its chat and not yet the cursor. */
  datatype Work =
    | Idle
    | Applying(pending: seq<Event>, start: nat)
    | Projected(pending: seq<Event>, start: nat)

  datatype WatcherState = WatcherState(monitor: Monitor, chat: Chat, work: Work)

  /** Messages are never taken out of the network: one never received was lost,
      one received twice was duplicated. */
  datatype Message =
    | Push(to: nat, event: Event)
    | Answer(to: nat, slice: Slice)
    | Acked(from: nat, through: nat)

  /** `log` and `held` are the home's, `watchers` the watchers'. The rest is
      history: every event appended, every event a watcher's projection took
      without an error, those a chat took and added nothing for, the outcomes
      already gone when a monitor was registered, and every monitor seen. */
  datatype State = State(
    log: Log, held: map<Ref, nat>, watchers: map<Ref, WatcherState>, net: set<Message>,
    history: seq<Event>, settled: set<(Ref, Event)>, declined: set<(Ref, Event)>,
    missed: set<(Ref, Event)>, seen: set<Ref>)

  const START := State(NEW_LOG, map[], map[], {}, [], {}, {}, {}, {})

  datatype Action =
    | Append(kind: Kind, at: int, payload: Payload, policy: Retention)
    | Prune(policy: Retention)
    | Register(ref: Ref)
    | Demonitor(ref: Ref)
    | Record(ref: Ref)
    | Serve(ref: Ref, after: nat)
    | Receive(ref: Ref, message: Message)
    | Offer(ref: Ref, verdict: Verdict)
    | WriteCursor(ref: Ref)
    | Finish(ref: Ref)
    | TakeAck(message: Message)
    | Crash(ref: Ref)

  /** What retention is told: the lowest acknowledgement, if anyone monitors. */
  ghost predicate IsMinAcked(held: map<Ref, nat>, through: Option<nat>) {
    match through
    case None => held == map[]
    case Some(n) => (exists ref :: ref in held && held[ref] == n) && forall ref :: ref in held ==> n <= held[ref]
  }

  function Delivered(message: Message): Slice
    requires message.Push? || message.Answer?
  {
    match message
    case Push(_, e) => Slice([e], 0, 0, false, 0)
    case Answer(_, slice) => slice
  }

  ghost function Outcomes(history: seq<Event>): set<Event> {
    set e | e in history && Terminal(e.kind)
  }

  /** Before it writes an end, the home looks for one in the first slice. */
  predicate HasExit(log: Log) {
    exists e :: e in Since(log, 0).events && Terminal(e.kind)
  }

  ghost predicate Enabled(s: State, a: Action) {
    match a
    case Append(kind, at, _, policy) =>
      && IsMinAcked(s.held, policy.through) && policy.maxEvents > 0 && policy.cutoff <= at
      && (Terminal(kind) ==> !HasExit(s.log))
    case Prune(policy) => IsMinAcked(s.held, policy.through)
    case Register(ref) => ref !in s.held
    case Demonitor(ref) => ref in s.held
    case Record(ref) => ref !in s.watchers
    case Serve(ref, _) => ref in s.held
    case Receive(ref, message) =>
      && ref in s.watchers && s.watchers[ref].work.Idle?
      && message in s.net && !message.Acked? && message.to == ref.machine
    case Offer(ref, _) =>
      ref in s.watchers && s.watchers[ref].work.Applying? && s.watchers[ref].work.pending != []
    case WriteCursor(ref) =>
      ref in s.watchers && s.watchers[ref].work.Projected? && s.watchers[ref].work.pending != []
    case Finish(ref) =>
      ref in s.watchers && s.watchers[ref].work.Applying? && s.watchers[ref].work.pending == []
    case TakeAck(message) => message in s.net && message.Acked?
    case Crash(ref) => ref in s.watchers
  }

  /** The slice being applied, one event further. */
  function Offered(w: WatcherState, verdict: Verdict): WatcherState
    requires w.work.Applying? && w.work.pending != []
  {
    var e, rest := w.work.pending[0], w.work.pending[1..];
    if e.seqNo <= w.monitor.applied then w.(work := Applying(rest, w.work.start))
    else if e.seqNo > w.monitor.applied + 1 then w.(work := Applying([], w.work.start))
    else
      var projection := Project(w.chat, e, verdict);
      if projection.ok then w.(chat := projection.chat, work := Projected(w.work.pending, w.work.start))
      else w.(work := Applying([], w.work.start))
  }

  ghost function Step(s: State, a: Action): State {
    if !Enabled(s, a) then s else
    match a
    case Append(kind, at, payload, policy) =>
      var e := Event(Head(s.log) + 1, kind, at, payload);
      s.(log := Compact(Appended(s.log, kind, at, payload), policy),
         history := s.history + [e],
         net := if kind.Progress? then s.net else s.net + set ref | ref in s.held :: Push(ref.machine, e))
    case Prune(policy) =>
      s.(log := Pruned(s.log, policy))
    case Register(ref) =>
      s.(held := s.held[ref := 0], seen := s.seen + {ref},
         missed := s.missed + set e | e in Outcomes(s.history) && e !in s.log.events :: (ref, e))
    case Demonitor(ref) =>
      s.(held := s.held - {ref})
    case Record(ref) =>
      s.(watchers := s.watchers[ref := WatcherState(Monitor(0, false), Chat({}, []), Idle)], seen := s.seen + {ref})
    case Serve(ref, after) =>
      s.(net := s.net + {Answer(ref.machine, Since(s.log, after))})
    case Receive(ref, message) =>
      var w, slice := s.watchers[ref], Delivered(message);
      var monitor := Resynced(w.monitor, slice);
      s.(watchers := s.watchers[ref := w.(monitor := monitor, work := Applying(Sorted(slice.events), monitor.applied))])
    case Offer(ref, verdict) =>
      var w := s.watchers[ref];
      var w', e := Offered(w, verdict), w.work.pending[0];
      var taken := if w'.work.Projected? then {(ref, e)} else {};
      s.(watchers := s.watchers[ref := w'], settled := s.settled + taken,
         declined := if verdict.Ineligible? then s.declined + taken else s.declined)
    case WriteCursor(ref) =>
      var w := s.watchers[ref];
      s.(watchers := s.watchers[ref :=
        w.(monitor := Moved(w.monitor, w.work.pending[0]), work := Applying(w.work.pending[1..], w.work.start))])
    case Finish(ref) =>
      var w := s.watchers[ref];
      s.(watchers := s.watchers[ref := w.(work := Idle)],
         net := if w.monitor.applied > w.work.start then s.net + {Acked(ref.machine, w.monitor.applied)} else s.net)
    case TakeAck(message) =>
      s.(held := map ref | ref in s.held ::
           if ref.machine == message.from && message.through > s.held[ref] then message.through else s.held[ref])
    case Crash(ref) =>
      s.(watchers := s.watchers[ref := s.watchers[ref].(work := Idle)])
  }

  ghost function Run(s: State, actions: seq<Action>): State
    decreases |actions|
  {
    if actions == [] then s else Run(Step(s, actions[0]), actions[1..])
  }

  /** A machine has at most one monitor on the entity, and no prune moves the
      head or removes the log. */
  ghost predicate Regular(s: State, a: Action) {
    match a
    case Prune(policy) => HeadStays(s.log, policy) && (Enabled(s, a) ==> !Spent(s.log, policy))
    case Register(ref) => forall r :: r in s.seen && r.machine == ref.machine ==> r == ref
    case Record(ref) => forall r :: r in s.seen && r.machine == ref.machine ==> r == ref
    case _ => true
  }

  ghost predicate RegularRun(s: State, actions: seq<Action>)
    decreases |actions|
  {
    actions == [] || (Regular(s, actions[0]) && RegularRun(Step(s, actions[0]), actions[1..]))
  }

  /** The same asked of the appends alone: none is stamped earlier than the
      newest event in the log, and none follows an outcome there. Sweeps are
      free. */
  ghost predicate Orderly(s: State, a: Action) {
    match a
    case Append(_, at, _, _) =>
      s.log.events != [] ==>
        s.log.events[|s.log.events| - 1].at <= at && !Terminal(s.log.events[|s.log.events| - 1].kind)
    case Prune(_) => true
    case _ => Regular(s, a)
  }

  ghost predicate OrderlyRun(s: State, actions: seq<Action>)
    decreases |actions|
  {
    actions == [] || (Orderly(s, actions[0]) && OrderlyRun(Step(s, actions[0]), actions[1..]))
  }

  /** No prune finds the log empty and unmonitored. */
  ghost predicate KeptRun(s: State, actions: seq<Action>)
    decreases |actions|
  {
    actions == [] || ((actions[0].Prune? && Enabled(s, actions[0]) ==> !Spent(s.log, actions[0].policy))
                      && KeptRun(Step(s, actions[0]), actions[1..]))
  }

  /** A log somebody monitors throughout is never removed. */
  lemma {:induction false} MonitoredIsKept(s: State, actions: seq<Action>, ref: Ref)
    requires ref in s.held && Demonitor(ref) !in actions
    ensures KeptRun(s, actions)
    decreases |actions|
  {
    if actions != [] {
      assert actions[0] in actions;
      MonitoredIsKept(Step(s, actions[0]), actions[1..], ref);
    }
  }

  lemma TimelyLog(s: State, a: Action)
    requires Timely(s.log.events) && Orderly(s, a)
    ensures Timely(Step(s, a).log.events)
  {
    if Enabled(s, a) && a.Append? {
      KeptTimely(Appended(s.log, a.kind, a.at, a.payload).events, a.policy);
    } else if Enabled(s, a) && a.Prune? {
      KeptTimely(s.log.events, a.policy);
    }
  }

  /** Orderly appends leave no sweep a way to move the head. */
  lemma {:induction false} OrderlyIsRegular(s: State, actions: seq<Action>)
    requires Timely(s.log.events) && OrderlyRun(s, actions) && KeptRun(s, actions)
    ensures RegularRun(s, actions)
    decreases |actions|
  {
    if actions != [] {
      var a := actions[0];
      TimelyLog(s, a);
      if a.Prune? {
        TimelyHeadStays(s.log, a.policy);
      }
      OrderlyIsRegular(Step(s, a), actions[1..]);
    }
  }

  // ----- The invariant -----

  ghost predicate InHistory(s: State, e: Event) {
    1 <= e.seqNo <= |s.history| && s.history[e.seqNo - 1] == e
  }

  ghost predicate Heard(s: State, ref: Ref, e: Event) {
    (ref, e) in s.settled || (ref, e) in s.missed
  }

  /** A cursor may pass an event once its projection took it, or once it has left
      the log; an outcome only in the first way, or when it was gone before the
      monitor existed. */
  ghost predicate Passed(s: State, ref: Ref, e: Event) {
    || (ref, e) in s.settled
    || (e !in s.log.events && (Terminal(e.kind) ==> (ref, e) in s.missed))
  }

  ghost predicate HeardThrough(s: State, ref: Ref, n: nat) {
    forall e :: e in s.history && e.seqNo <= n ==> Passed(s, ref, e)
  }

  ghost predicate LogInv(s: State) {
    && Valid(s.log) && Head(s.log) == |s.history|
    && (forall i :: 0 <= i < |s.history| ==> s.history[i].seqNo == i + 1)
    && (forall e :: e in s.log.events ==> InHistory(s, e))
  }

  /** An outcome leaves the log only once every monitor has heard it. */
  ghost predicate OutcomeInv(s: State) {
    forall ref, e :: ref in s.held && e in s.history && Terminal(e.kind) ==> Heard(s, ref, e) || e in s.log.events
  }

  ghost predicate HeldInv(s: State) {
    forall ref :: ref in s.held ==>
      && ref in s.seen
      && (s.held[ref] > 0 ==> ref in s.watchers && s.held[ref] <= s.watchers[ref].monitor.applied)
  }

  ghost predicate WorkInv(s: State, ref: Ref, w: WatcherState) {
    w.work.Idle? || (
      && Ascending(w.work.pending)
      && (forall e :: e in w.work.pending ==> InHistory(s, e))
      && w.work.start <= w.monitor.applied
      && (w.work.Projected? ==>
            && w.work.pending != []
            && w.work.pending[0].seqNo == w.monitor.applied + 1
            && (ref, w.work.pending[0]) in s.settled))
  }

  ghost predicate Ordered(rows: seq<ChatRow>) {
    forall i, j :: 0 <= i < j < |rows| ==> rows[i].seqNo < rows[j].seqNo && rows[i].operation != rows[j].operation
  }

  /** One row a notice, in sequence order, at most one past the cursor. */
  ghost predicate ChatInv(history: seq<Event>, applied: nat, chat: Chat) {
    && Ordered(chat.rows)
    && (forall row :: row in chat.rows ==>
          && 1 <= row.seqNo <= |history| && row.seqNo <= applied + 1
          && Notice(history[row.seqNo - 1]) == Some(row.operation))
    && chat.operations == set row | row in chat.rows :: row.operation
  }

  /** What the projection took, the chat shows, unless it had nothing to show or
      the chat could not take it. */
  ghost predicate ShownInv(s: State, ref: Ref, w: WatcherState) {
    forall e :: (ref, e) in s.settled && (ref, e) !in s.declined && Notice(e).Some? ==>
        Notice(e).value in w.chat.operations
  }

  /** What the chat shows, the projection took. */
  ghost predicate TakenInv(s: State, ref: Ref, w: WatcherState) {
    forall row :: row in w.chat.rows ==>
      1 <= row.seqNo <= |s.history| && (ref, s.history[row.seqNo - 1]) in s.settled
  }

  ghost predicate WatcherInv(s: State, ref: Ref) {
    ref in s.watchers ==>
      var w := s.watchers[ref];
      && ref in s.seen
      && w.monitor.applied <= |s.history|
      && HeardThrough(s, ref, w.monitor.applied)
      && WorkInv(s, ref, w) && ChatInv(s.history, w.monitor.applied, w.chat)
      && ShownInv(s, ref, w) && TakenInv(s, ref, w)
  }

  ghost predicate MessageInv(s: State, message: Message) {
    match message
    case Push(_, e) => InHistory(s, e)
    case Answer(to, slice) =>
      && Ascending(slice.events)
      && (forall e :: e in slice.events ==> InHistory(s, e))
      && (exists ref :: ref in s.seen && ref.machine == to)
      && (slice.truncated ==>
            && slice.truncatedTo <= |s.history|
            && forall ref :: ref in s.seen && ref.machine == to ==> HeardThrough(s, ref, slice.truncatedTo))
    case Acked(from, through) =>
      && (exists ref :: ref in s.seen && ref.machine == from)
      && forall ref :: ref in s.seen && ref.machine == from ==>
           ref in s.watchers && through <= s.watchers[ref].monitor.applied
  }

  ghost predicate SeenInv(s: State) {
    && (forall r, r' :: r in s.seen && r' in s.seen && r.machine == r'.machine ==> r == r')
    && (forall ref, e :: (ref, e) in s.settled ==> ref in s.watchers)
  }

  ghost predicate Inv(s: State) {
    && LogInv(s) && OutcomeInv(s) && HeldInv(s) && SeenInv(s)
    && (forall ref :: WatcherInv(s, ref))
    && (forall message :: message in s.net ==> MessageInv(s, message))
  }

  lemma StartInv()
    ensures Inv(START)
  {
  }

  /** History only grows and nothing returns to the log, so what was passed or
      shown stays so. */
  ghost predicate Grows(s: State, t: State) {
    && s.history <= t.history && s.settled <= t.settled && s.missed <= t.missed && s.declined <= t.declined
    && forall e :: e in s.history && e in t.log.events ==> e in s.log.events
  }

  lemma LogSteps(s: State, a: Action)
    requires Inv(s) && Enabled(s, a) && Regular(s, a) && (a.Append? || a.Prune?)
    ensures LogInv(Step(s, a))
  {
    var t := Step(s, a);
    var before := if a.Append? then Appended(s.log, a.kind, a.at, a.payload) else s.log;
    if a.Append? {
      AppendKeepsOrder(s.log, a.kind, a.at, a.payload);
      AppendKeepsHead(s.log, a.kind, a.at, a.payload, a.policy);
    }
    CompactKeepsOrder(before, a.policy);
    HeadSurvivesIff(before, a.policy);
    KeptSound(before.events, a.policy);
    forall e | e in t.log.events ensures InHistory(t, e) {
      assert e in before.events;
      assert e in s.log.events ==> InHistory(s, e);
    }
  }

  /** The heart of "nothing is forgotten before it is consumed": a sweep that
      drops an outcome was told that every monitor acknowledged past it. */
  lemma SweepDropsOnlyHeard(s: State, a: Action, ref: Ref, e: Event)
    requires Inv(s) && Enabled(s, a) && Regular(s, a) && (a.Append? || a.Prune?)
    requires ref in s.held && e in Step(s, a).history && Terminal(e.kind) && e !in Step(s, a).log.events
    ensures Heard(s, ref, e)
  {
    var before := if a.Append? then Appended(s.log, a.kind, a.at, a.payload) else s.log;
    if a.Append? {
      AppendKeepsHead(s.log, a.kind, a.at, a.payload, a.policy);
      KeptLast(before.events, a.policy);
    }
    assert e in s.history;
    if e in s.log.events {
      SweepDropsNothingOwed(before, a.policy, e);
      assert InHistory(s, e) && e.seqNo <= s.held[ref];
      assert HeldInv(s) && WatcherInv(s, ref);
    }
  }

  lemma WatcherStays(s: State, t: State, ref: Ref)
    requires Inv(s) && LogInv(t) && Grows(s, t) && s.seen <= t.seen
    requires ref in t.watchers ==> ref in s.watchers && t.watchers[ref] == s.watchers[ref]
    requires forall e :: (ref, e) in t.settled ==> (ref, e) in s.settled
    ensures WatcherInv(t, ref)
  {
    if ref in t.watchers {
      assert WatcherInv(s, ref);
      var w := s.watchers[ref];
      assert WorkInv(t, ref, w) by {
        forall e | !w.work.Idle? && e in w.work.pending ensures InHistory(t, e) {
          assert InHistory(s, e);
        }
      }
    }
  }

  lemma MessageStays(s: State, t: State, message: Message)
    requires Inv(s) && LogInv(t) && Grows(s, t) && s.seen <= t.seen
    requires forall r, r' :: r in s.seen && r' in t.seen && r.machine == r'.machine ==> r == r'
    requires forall ref :: ref in s.watchers ==>
               ref in t.watchers && s.watchers[ref].monitor.applied <= t.watchers[ref].monitor.applied
    requires MessageInv(s, message)
    ensures MessageInv(t, message)
  {
    match message
    case Push(_, e) =>
    case Acked(from, through) =>
    case Answer(to, slice) =>
      forall e | e in slice.events ensures InHistory(t, e) {
        assert InHistory(s, e);
      }
      forall ref | slice.truncated && ref in t.seen && ref.machine == to
        ensures HeardThrough(t, ref, slice.truncatedTo)
      {
        assert ref in s.seen;
      }
  }

  lemma SweepSteps(s: State, a: Action)
    requires Inv(s) && Enabled(s, a) && Regular(s, a) && (a.Append? || a.Prune?)
    ensures Inv(Step(s, a))
  {
    var t := Step(s, a);
    LogSteps(s, a);
    OnlyNewEventsEnter(s, a);
    forall ref, e | ref in t.held && e in t.history && Terminal(e.kind) && e !in t.log.events
      ensures Heard(t, ref, e)
    {
      SweepDropsOnlyHeard(s, a, ref, e);
    }
    forall ref ensures WatcherInv(t, ref) {
      WatcherStays(s, t, ref);
    }
    forall message | message in t.net ensures MessageInv(t, message) {
      if message in s.net {
        MessageStays(s, t, message);
      }
    }
  }

  lemma OnlyNewEventsEnter(s: State, a: Action)
    requires Inv(s) && Enabled(s, a) && Regular(s, a) && (a.Append? || a.Prune?)
    ensures Grows(s, Step(s, a))
  {
    var before := if a.Append? then Appended(s.log, a.kind, a.at, a.payload) else s.log;
    KeptSound(before.events, a.policy);
  }

  predicate AtRegistry(a: Action) {
    a.Register? || a.Demonitor? || a.TakeAck? || a.Record?
  }

  lemma RegistryHolds(s: State, a: Action)
    requires Inv(s) && Enabled(s, a) && Regular(s, a) && AtRegistry(a)
    ensures LogInv(Step(s, a)) && OutcomeInv(Step(s, a)) && HeldInv(Step(s, a)) && SeenInv(Step(s, a))
  {
    var t := Step(s, a);
    forall e | e in t.log.events ensures InHistory(t, e) {
      assert InHistory(s, e);
    }
    forall ref, e | ref in t.held && e in t.history && Terminal(e.kind) && e !in t.log.events
      ensures Heard(t, ref, e)
    {
      if a.Register? && ref == a.ref {
        assert (ref, e) in t.missed;
      } else {
        assert Heard(s, ref, e);
      }
    }
    if a.TakeAck? {
      assert MessageInv(s, a.message);
    }
  }

  lemma RegistrySteps(s: State, a: Action)
    requires Inv(s) && Enabled(s, a) && Regular(s, a) && AtRegistry(a)
    ensures Inv(Step(s, a))
  {
    var t := Step(s, a);
    RegistryHolds(s, a);
    forall ref ensures WatcherInv(t, ref) {
      if a.Record? && ref == a.ref {
        assert forall e :: e in t.history ==> e.seqNo > 0;
      } else {
        WatcherStays(s, t, ref);
      }
    }
    forall message | message in t.net ensures MessageInv(t, message) {
      MessageStays(s, t, message);
    }
  }

  lemma AnswerIsTrue(s: State, ref: Ref, after: nat)
    requires Inv(s) && ref in s.held
    ensures MessageInv(s, Answer(ref.machine, Since(s.log, after)))
  {
    var slice := Since(s.log, after);
    SinceSound(s.log, after);
    assert ref in s.seen;
    forall e | e in slice.events ensures InHistory(s, e) {
    }
    if slice.truncated {
      assert Head(s.log) >= slice.truncatedTo;
      assert HeardThrough(s, ref, slice.truncatedTo);
    }
  }

  lemma ServeSteps(s: State, ref: Ref, after: nat)
    requires Inv(s) && ref in s.held
    ensures Inv(Step(s, Serve(ref, after)))
  {
    var t := Step(s, Serve(ref, after));
    AnswerIsTrue(s, ref, after);
    assert LogInv(t) by {
      forall e | e in t.log.events ensures InHistory(t, e) {
        assert InHistory(s, e);
      }
    }
    forall r ensures WatcherInv(t, r) {
      WatcherStays(s, t, r);
    }
    forall message | message in t.net ensures MessageInv(t, message) {
      MessageStays(s, t, message);
    }
  }

  lemma ReceiveSteps(s: State, ref: Ref, message: Message)
    requires Inv(s) && Enabled(s, Receive(ref, message))
    ensures WatcherInv(Step(s, Receive(ref, message)), ref)
  {
    assert WatcherInv(s, ref) && MessageInv(s, message);
    SortedAscending(Delivered(message).events);
    var t := Step(s, Receive(ref, message));
    var w := t.watchers[ref];
    assert HeardThrough(t, ref, w.monitor.applied) by {
      assert forall o :: Passed(s, ref, o) ==> Passed(t, ref, o);
    }
    assert WorkInv(t, ref, w) by {
      forall e | e in w.work.pending ensures InHistory(t, e) {
        assert InHistory(s, e);
      }
    }
  }

  lemma CursorSteps(s: State, ref: Ref)
    requires Inv(s) && Enabled(s, WriteCursor(ref))
    ensures WatcherInv(Step(s, WriteCursor(ref)), ref)
  {
    var t := Step(s, WriteCursor(ref));
    var w := s.watchers[ref];
    assert WatcherInv(s, ref);
    var e := w.work.pending[0];
    assert InHistory(s, e);
    forall o | o in t.history && o.seqNo <= e.seqNo ensures Passed(t, ref, o) {
      if o.seqNo == e.seqNo {
        assert o == e;
      } else {
        assert Passed(s, ref, o);
      }
    }
    assert WorkInv(t, ref, t.watchers[ref]) by {
      forall o | o in t.watchers[ref].work.pending ensures InHistory(t, o) {
        assert InHistory(s, o);
      }
    }
  }

  lemma AppendRow(rows: seq<ChatRow>, row: ChatRow)
    requires Ordered(rows)
    requires forall r :: r in rows ==> r.seqNo < row.seqNo && r.operation != row.operation
    ensures Ordered(rows + [row])
    ensures (set r | r in rows + [row] :: r.operation) == (set r | r in rows :: r.operation) + {row.operation}
  {
    assert forall r :: r in rows + [row] <==> r in rows || r == row;
  }

  /** A notice already shown is not shown again, and one never shown lands below
      every row there is. */
  lemma ProjectKeepsChat(history: seq<Event>, applied: nat, chat: Chat, e: Event, verdict: Verdict)
    requires ChatInv(history, applied, chat)
    requires e.seqNo == applied + 1 <= |history| && history[applied] == e
    ensures ChatInv(history, applied, Project(chat, e, verdict).chat)
  {
    if Project(chat, e, verdict).chat != chat {
      var row := ChatRow(Notice(e).value, e.seqNo);
      AppendRow(chat.rows, row);
    }
  }

  lemma OfferShows(s: State, ref: Ref, verdict: Verdict)
    requires Inv(s) && Enabled(s, Offer(ref, verdict))
    ensures var t := Step(s, Offer(ref, verdict)); var w := t.watchers[ref];
            ChatInv(t.history, w.monitor.applied, w.chat) && ShownInv(t, ref, w)
  {
    var w := s.watchers[ref];
    assert WatcherInv(s, ref);
    var e := w.work.pending[0];
    assert InHistory(s, e);
    if e.seqNo == w.monitor.applied + 1 {
      ProjectKeepsChat(s.history, w.monitor.applied, w.chat, e, verdict);
    }
  }

  lemma OfferTakes(s: State, ref: Ref, verdict: Verdict)
    requires Inv(s) && Enabled(s, Offer(ref, verdict))
    ensures var t := Step(s, Offer(ref, verdict)); TakenInv(t, ref, t.watchers[ref])
  {
    assert WatcherInv(s, ref);
    assert InHistory(s, s.watchers[ref].work.pending[0]);
  }

  lemma OfferSteps(s: State, ref: Ref, verdict: Verdict)
    requires Inv(s) && Enabled(s, Offer(ref, verdict))
    ensures WatcherInv(Step(s, Offer(ref, verdict)), ref)
  {
    var t := Step(s, Offer(ref, verdict));
    var w' := t.watchers[ref];
    OfferShows(s, ref, verdict);
    OfferTakes(s, ref, verdict);
    assert WatcherInv(s, ref);
    assert HeardThrough(t, ref, w'.monitor.applied) by {
      assert forall o :: Passed(s, ref, o) ==> Passed(t, ref, o);
    }
    assert WorkInv(t, ref, w') by {
      forall o | o in w'.work.pending ensures InHistory(t, o) {
        assert InHistory(s, o);
      }
    }
  }

  predicate AtWatcher(a: Action) {
    a.Receive? || a.Offer? || a.WriteCursor? || a.Finish? || a.Crash?
  }

  lemma OwnSteps(s: State, a: Action)
    requires Inv(s) && Enabled(s, a) && AtWatcher(a)
    ensures WatcherInv(Step(s, a), a.ref)
  {
    if a.Receive? {
      ReceiveSteps(s, a.ref, a.message);
    } else if a.Offer? {
      OfferSteps(s, a.ref, a.verdict);
    } else if a.WriteCursor? {
      CursorSteps(s, a.ref);
    } else {
      assert WatcherInv(s, a.ref);
      assert forall o :: Passed(s, a.ref, o) ==> Passed(Step(s, a), a.ref, o);
    }
  }

  lemma CursorOnlyAdvances(s: State, a: Action)
    requires Inv(s) && Enabled(s, a) && AtWatcher(a)
    ensures s.watchers[a.ref].monitor.applied <= Step(s, a).watchers[a.ref].monitor.applied
  {
    assert WatcherInv(s, a.ref);
  }

  lemma HomeUntouched(s: State, a: Action)
    requires Inv(s) && Enabled(s, a) && AtWatcher(a)
    ensures LogInv(Step(s, a)) && OutcomeInv(Step(s, a)) && HeldInv(Step(s, a)) && SeenInv(Step(s, a))
  {
    var t := Step(s, a);
    CursorOnlyAdvances(s, a);
    assert WatcherInv(s, a.ref);
    forall e | e in t.log.events ensures InHistory(t, e) {
      assert InHistory(s, e);
    }
    forall ref, e | ref in t.held && e in t.history && Terminal(e.kind) && e !in t.log.events ensures Heard(t, ref, e) {
      assert Heard(s, ref, e);
    }
  }

  lemma AckIsTrue(s: State, ref: Ref)
    requires Inv(s) && Enabled(s, Finish(ref))
    ensures MessageInv(Step(s, Finish(ref)), Acked(ref.machine, s.watchers[ref].monitor.applied))
  {
    assert WatcherInv(s, ref);
    assert ref in Step(s, Finish(ref)).seen;
  }

  lemma WatcherSteps(s: State, a: Action)
    requires Inv(s) && Enabled(s, a) && AtWatcher(a)
    ensures Inv(Step(s, a))
  {
    var t := Step(s, a);
    HomeUntouched(s, a);
    CursorOnlyAdvances(s, a);
    forall ref ensures WatcherInv(t, ref) {
      if ref == a.ref {
        OwnSteps(s, a);
      } else {
        WatcherStays(s, t, ref);
      }
    }
    forall message | message in t.net ensures MessageInv(t, message) {
      if message in s.net {
        MessageStays(s, t, message);
      } else {
        AckIsTrue(s, a.ref);
      }
    }
  }

  lemma StepInv(s: State, a: Action)
    requires Inv(s) && Regular(s, a)
    ensures Inv(Step(s, a))
  {
    if Enabled(s, a) {
      match a
      case Append(_, _, _, _) => SweepSteps(s, a);
      case Prune(_) => SweepSteps(s, a);
      case Register(_) => RegistrySteps(s, a);
      case Demonitor(_) => RegistrySteps(s, a);
      case Record(_) => RegistrySteps(s, a);
      case TakeAck(_) => RegistrySteps(s, a);
      case Serve(ref, after) => ServeSteps(s, ref, after);
      case _ => WatcherSteps(s, a);
    }
  }

  lemma {:induction false} RunInv(s: State, actions: seq<Action>)
    requires Inv(s) && RegularRun(s, actions)
    ensures Inv(Run(s, actions))
    decreases |actions|
  {
    if actions != [] {
      StepInv(s, actions[0]);
      RunInv(Step(s, actions[0]), actions[1..]);
    }
  }
}
