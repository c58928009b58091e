/** Two runs the delivery guarantees do not cover: what a head that falls back
    costs, and what a second monitor on one machine costs. */
module FleetDeliveryLimits {
  import opened Basics
  import opened Fleetlog
  import opened FleetWatcher
  import opened FleetDelivery
  import opened FleetCatchUp

  const FIRST_ASK := Event(1, Attention, 20, Question("question", "which?"))
  const SECOND_ASK := Event(2, Attention, 0, Question("question", "where?"))
  const LAST_END := Event(2, Exit, 30, ProcessExit(false, "end"))

  const FIRST_END := Event(1, Exit, 0, ProcessExit(false, "end"))
  const LATE_ASK := Event(2, Attention, 0, Question("question", "late?"))

  lemma Extend(s: State, actions: seq<Action>, a: Action) returns (t: State, longer: seq<Action>)
    requires s == Run(START, actions)
    ensures t == Step(s, a) && longer == actions + [a] && t == Run(START, longer)
  {
    RunJoin(START, actions, [a]);
    RunOne(s, a);
    t, longer := Step(s, a), actions + [a];
  }

  lemma SweepPair(toSeq: nat, a: Event, b: Event, policy: Retention)
    requires a.seqNo > 0 && b.seqNo > 0
    ensures Compact(Log(toSeq, [a, b]), policy) ==
            if Keeps(a, 2, policy) then (if Keeps(b, 1, policy) then Log(toSeq, [a, b]) else Log(a.seqNo - 1, [a]))
            else if Keeps(b, 1, policy) then Log(b.seqNo - 1, [b]) else Log(b.seqNo, [])
  {
    assert [a, b][1..] == [b];
    assert Kept([b], policy) == if Keeps(b, 1, policy) then [b] else [];
  }

  lemma SlicePair(a: Event, b: Event)
    requires 0 < a.seqNo < b.seqNo
    ensures Above([a, b], 0) == [a, b] && Sorted([a, b]) == [a, b]
  {
    assert [a, b][1..] == [b];
    assert Above([b], 0) == [b];
    SortedAscending([a, b]);
  }

  /** The next event, taken by the chat and then by the cursor. */
  lemma TakeNext(s: State, actions: seq<Action>, ref: Ref) returns (t: State, longer: seq<Action>)
    requires s == Run(START, actions)
    requires ref in s.watchers && s.watchers[ref].work.Applying? && s.watchers[ref].work.pending != []
    requires s.watchers[ref].work.pending[0].seqNo == s.watchers[ref].monitor.applied + 1
    ensures t == Run(START, longer)
    ensures var w := s.watchers[ref];
            var e, rest := w.work.pending[0], w.work.pending[1..];
            t == s.(watchers := s.watchers[ref := WatcherState(Moved(w.monitor, e), Project(w.chat, e, Admits).chat,
                                                               Applying(rest, w.work.start))],
                    settled := s.settled + {(ref, e)})
  {
    t, longer := Extend(s, actions, Offer(ref, Admits));
    t, longer := Extend(t, longer, WriteCursor(ref));
  }

  /** The home asks twice, its clock stepping back between; its one monitor has
      acknowledged nothing. */
  lemma AskTwice(ref: Ref) returns (s: State, actions: seq<Action>)
    ensures s == Run(START, actions)
    ensures s.held == map[ref := 0] && s.log == Log(0, [FIRST_ASK, SECOND_ASK])
    ensures s.watchers == map[ref := WatcherState(Monitor(0, false), Chat({}, []), Idle)]
    ensures s.settled == {} && s.missed == {}
  {
    var policy := Retention(1000, 0, Some(0));
    s, actions := START, [];
    s, actions := Extend(s, actions, Register(ref));
    assert s.held == map[ref := 0] && s.held[ref] == 0;
    s, actions := Extend(s, actions, Record(ref));
    s, actions := Extend(s, actions, Append(Attention, 20, FIRST_ASK.payload, policy));
    assert s.log == Log(0, [FIRST_ASK]);
    SweepPair(0, FIRST_ASK, SECOND_ASK, policy);
    s, actions := Extend(s, actions, Append(Attention, 0, SECOND_ASK.payload, policy));
  }

  lemma ReceiveBoth(ref: Ref) returns (s: State, actions: seq<Action>)
    ensures s == Run(START, actions)
    ensures s.held == map[ref := 0] && s.log == Log(0, [FIRST_ASK, SECOND_ASK])
    ensures s.watchers
         == map[ref := WatcherState(Monitor(0, false), Chat({}, []), Applying([FIRST_ASK, SECOND_ASK], 0))]
    ensures s.settled == {} && s.missed == {}
  {
    s, actions := AskTwice(ref);
    SlicePair(FIRST_ASK, SECOND_ASK);
    s, actions := Extend(s, actions, Serve(ref, 0));
    s, actions := Extend(s, actions, Receive(ref, Answer(ref.machine, Since(s.log, 0))));
  }

  /** The watcher applies both; its acknowledgement is never received. */
  lemma ApplyBoth(ref: Ref) returns (s: State, actions: seq<Action>)
    ensures s == Run(START, actions)
    ensures s.held == map[ref := 0] && s.log == Log(0, [FIRST_ASK, SECOND_ASK])
    ensures ref in s.watchers && s.watchers[ref].monitor.applied == 2
    ensures s.watchers[ref].chat.operations == {AttentionOf("which?"), AttentionOf("where?")}
    ensures s.settled == {(ref, FIRST_ASK), (ref, SECOND_ASK)} && s.missed == {}
  {
    s, actions := ReceiveBoth(ref);
    s, actions := TakeNext(s, actions, ref);
    assert s.watchers[ref].work.pending == [SECOND_ASK];
    s, actions := TakeNext(s, actions, ref);
    assert s.watchers[ref].work.pending == [];
    s, actions := Extend(s, actions, Finish(ref));
  }

  /** One job, one exit, and a clock that stepped back once: the newest event is
      the oldest by its stamp, a sweep drops it alone, and the exit takes its
      number. A watcher that has applied that number never looks at the exit. */
  lemma ReusedNumberLosesAnOutcome(ref: Ref) returns (actions: seq<Action>)
    ensures var s := Run(START, actions);
            && ref in s.held && ref in s.watchers && LAST_END in s.history && LAST_END in s.log.events
            && LAST_END.seqNo <= s.watchers[ref].monitor.applied
            && (ref, LAST_END) !in s.settled && (ref, LAST_END) !in s.missed
            && ProcessExitOf("end") !in s.watchers[ref].chat.operations
  {
    var s;
    var late := Retention(1000, 10, Some(0));
    s, actions := ApplyBoth(ref);
    assert s.held[ref] == 0;
    SweepPair(0, FIRST_ASK, SECOND_ASK, late);
    s, actions := Extend(s, actions, Prune(late));
    assert s.log == Log(0, [FIRST_ASK]);
    assert Since(s.log, 0).events == [FIRST_ASK];
    SweepPair(0, FIRST_ASK, LAST_END, late);
    s, actions := Extend(s, actions, Append(Exit, 30, LAST_END.payload, late));
  }

  lemma PushToTwoChats(first: Ref, second: Ref) returns (s: State, actions: seq<Action>)
    requires first != second && first.machine == second.machine
    ensures s == Run(START, actions)
    ensures s.held == map[first := 0, second := 0] && s.log == Log(0, [FIRST_END])
    ensures var idle := WatcherState(Monitor(0, false), Chat({}, []), Idle);
            s.watchers == map[first := idle, second := idle]
    ensures s.settled == {} && s.missed == {} && s.history == [FIRST_END]
    ensures Push(first.machine, FIRST_END) in s.net
  {
    s, actions := START, [];
    s, actions := Extend(s, actions, Register(first));
    s, actions := Extend(s, actions, Register(second));
    s, actions := Extend(s, actions, Record(first));
    s, actions := Extend(s, actions, Record(second));
    assert s.held[first] == 0;
    s, actions := Extend(s, actions, Append(Exit, 0, FIRST_END.payload, Retention(1, 0, Some(0))));
  }

  lemma FirstChatTakes(first: Ref, second: Ref) returns (s: State, actions: seq<Action>)
    requires first != second && first.machine == second.machine
    ensures s == Run(START, actions)
    ensures s.held == map[first := 0, second := 0] && s.log == Log(0, [FIRST_END])
    ensures first in s.watchers && s.watchers[first].monitor.applied == 1 && s.watchers[first].work == Applying([], 0)
    ensures second in s.watchers && s.watchers[second].monitor.applied == 0
    ensures s.settled == {(first, FIRST_END)} && s.missed == {} && s.history == [FIRST_END]
  {
    s, actions := PushToTwoChats(first, second);
    SortedAscending([FIRST_END]);
    s, actions := Extend(s, actions, Receive(first, Push(first.machine, FIRST_END)));
    s, actions := TakeNext(s, actions, first);
    assert s.watchers[first].work.pending == [];
  }

  lemma FirstChatAcks(first: Ref, second: Ref) returns (s: State, actions: seq<Action>)
    requires first != second && first.machine == second.machine
    ensures s == Run(START, actions)
    ensures s.held == map[first := 1, second := 1] && s.log == Log(0, [FIRST_END])
    ensures second in s.watchers && s.watchers[second].monitor.applied == 0
    ensures s.settled == {(first, FIRST_END)} && s.missed == {} && s.history == [FIRST_END]
  {
    s, actions := FirstChatTakes(first, second);
    s, actions := Extend(s, actions, Finish(first));
    s, actions := Extend(s, actions, TakeAck(Acked(first.machine, 1)));
  }

  /** Two chats of one machine watch the entity. A push reaches the first monitor
      only, its acknowledgement advances both, and the outcome leaves the log
      before the second has heard it. */
  lemma SecondMonitorLosesAnOutcome(first: Ref, second: Ref) returns (actions: seq<Action>)
    requires first != second && first.machine == second.machine
    ensures var s := Run(START, actions);
            && second in s.held && second in s.watchers && FIRST_END in s.history
            && FIRST_END !in s.log.events
            && (second, FIRST_END) !in s.settled && (second, FIRST_END) !in s.missed
            && s.held[second] > s.watchers[second].monitor.applied
  {
    var s;
    s, actions := FirstChatAcks(first, second);
    assert s.held[second] == 1;
    SweepPair(0, FIRST_END, LATE_ASK, Retention(1, 0, Some(1)));
    s, actions := Extend(s, actions, Append(Attention, 0, LATE_ASK.payload, Retention(1, 0, Some(1))));
  }
}
