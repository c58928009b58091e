/** What a slice does when nothing interrupts it, and which logs a watcher can
    always catch up with. */
module FleetCatchUp {
  import opened Fleetlog
  import opened FleetWatcher
  import opened FleetDelivery

  // ----- The protocol's small steps add up to one slice -----

  lemma {:induction false} RunJoin(s: State, first: seq<Action>, second: seq<Action>)
    ensures Run(s, first + second) == Run(Run(s, first), second)
    decreases |first|
  {
    if first == [] {
      assert first + second == second;
    } else {
      assert (first + second)[1..] == first[1..] + second;
      RunJoin(Step(s, first[0]), first[1..], second);
    }
  }

  lemma RunOne(s: State, a: Action)
    ensures Run(s, [a]) == Step(s, a)
  {
    assert [a][1..] == [];
    assert Run(Step(s, a), []) == Step(s, a);
  }

  ghost predicate Same(s: State, t: State, ref: Ref) {
    && t.log == s.log && t.held == s.held && t.net == s.net && t.history == s.history
    && t.watchers.Keys == s.watchers.Keys
    && forall r :: r in s.watchers && r != ref ==> t.watchers[r] == s.watchers[r]
  }

  lemma {:induction false} DrainSlice(s: State, ref: Ref, verdict: Event -> Verdict) returns (actions: seq<Action>)
    requires ref in s.watchers && s.watchers[ref].work.Applying?
    ensures var w, t := s.watchers[ref], Run(s, actions);
            var end := ApplyEvents(w.monitor, w.chat, w.work.pending, verdict);
            && Same(s, t, ref)
            && t.watchers[ref] == WatcherState(end.monitor, end.chat, Applying([], w.work.start))
    decreases |s.watchers[ref].work.pending|
  {
    var w := s.watchers[ref];
    if w.work.pending == [] {
      return [];
    }
    var e := w.work.pending[0];
    var offer := Offer(ref, verdict(e));
    var t := Step(s, offer);
    RunOne(s, offer);
    if t.watchers[ref].work.Projected? {
      var u := Step(t, WriteCursor(ref));
      RunOne(t, WriteCursor(ref));
      RunJoin(s, [offer], [WriteCursor(ref)]);
      var rest := DrainSlice(u, ref, verdict);
      RunJoin(s, [offer] + [WriteCursor(ref)], rest);
      actions := [offer] + [WriteCursor(ref)] + rest;
    } else {
      var rest := DrainSlice(t, ref, verdict);
      RunJoin(s, [offer], rest);
      actions := [offer] + rest;
    }
  }

  /** Uninterrupted, the small steps do to the cursor, the chat and the network
      exactly what applying the slice in one go does. */
  lemma UninterruptedSlice(s: State, ref: Ref, message: Message, verdict: Event -> Verdict)
    returns (actions: seq<Action>)
    requires Enabled(s, Receive(ref, message))
    ensures var w, t := s.watchers[ref], Run(s, actions);
            var slice := Delivered(message);
            var end := SliceApplied(w.monitor, w.chat, slice, verdict);
            var ack := Ack(Resynced(w.monitor, slice), end.monitor);
            && t.watchers == s.watchers[ref := WatcherState(end.monitor, end.chat, Idle)]
            && t.net == (if ack.Some? then s.net + {Acked(ref.machine, ack.value)} else s.net)
            && t.log == s.log && t.held == s.held
  {
    var t := Step(s, Receive(ref, message));
    RunOne(s, Receive(ref, message));
    var middle := DrainSlice(t, ref, verdict);
    var u := Run(t, middle);
    RunOne(u, Finish(ref));
    RunJoin(s, [Receive(ref, message)], middle);
    RunJoin(s, [Receive(ref, message)] + middle, [Finish(ref)]);
    actions := [Receive(ref, message)] + middle + [Finish(ref)];
  }

  // ----- Catching up -----

  /** How far events carry a cursor when the chat refuses none of them. */
  function Advance(events: seq<Event>, cursor: nat): nat
    decreases |events|
  {
    if events == [] || events[0].seqNo > cursor + 1 then cursor
    else Advance(events[1..], if events[0].seqNo <= cursor then cursor else events[0].seqNo)
  }

  /** One sync from the cursor and its answer applied. */
  function Round(log: Log, cursor: nat): nat {
    var slice := Since(log, cursor);
    Advance(slice.events, if slice.truncated && slice.truncatedTo > cursor then slice.truncatedTo else cursor)
  }

  function Rounds(log: Log, cursor: nat, n: nat): nat
    decreases n
  {
    if n == 0 then cursor else Rounds(log, Round(log, cursor), n - 1)
  }

  lemma {:induction false} AdvanceIsApplying(monitor: Monitor, chat: Chat, events: seq<Event>,
                                             verdict: Event -> Verdict)
    requires forall e :: !verdict(e).Refuses?
    ensures ApplyEvents(monitor, chat, events, verdict).monitor.applied == Advance(events, monitor.applied)
    decreases |events|
  {
    if events != [] {
      var e := events[0];
      if e.seqNo <= monitor.applied {
        AdvanceIsApplying(monitor, chat, events[1..], verdict);
      } else if e.seqNo == monitor.applied + 1 {
        AdvanceIsApplying(Moved(monitor, e), Project(chat, e, verdict(e)).chat, events[1..], verdict);
      }
    }
  }

  lemma RoundIsASlice(monitor: Monitor, chat: Chat, log: Log, verdict: Event -> Verdict)
    requires Valid(log) && forall e :: !verdict(e).Refuses?
    ensures SliceApplied(monitor, chat, Since(log, monitor.applied), verdict).monitor.applied == Round(log,
              monitor.applied)
  {
    SinceSound(log, monitor.applied);
    var slice := Since(log, monitor.applied);
    SortedAscending(slice.events);
    AdvanceIsApplying(Resynced(monitor, slice), chat, slice.events, verdict);
  }

  /** Above the event the cursor asks for next, the retained numbers run on
      without a break. */
  ghost predicate NoHole(log: Log, cursor: nat) {
    forall i :: 0 < i < |log.events| && log.events[i].seqNo > cursor + 1 ==>
      log.events[i].seqNo == log.events[i - 1].seqNo + 1
  }

  lemma {:induction false} AdvanceBounds(events: seq<Event>, cursor: nat)
    ensures cursor <= Advance(events, cursor)
    ensures Advance(events, cursor) == cursor || exists e :: e in events && e.seqNo == Advance(events, cursor)
    decreases |events|
  {
    if events != [] && events[0].seqNo <= cursor + 1 {
      var next := if events[0].seqNo <= cursor then cursor else events[0].seqNo;
      AdvanceBounds(events[1..], next);
      assert events[0] in events;
      assert forall e :: e in events[1..] ==> e in events;
    }
  }

  lemma {:induction false} StopsBelow(events: seq<Event>, cursor: nat, bound: nat)
    requires cursor + 1 < bound && forall e :: e in events ==> e.seqNo + 1 != bound
    ensures Advance(events, cursor) + 1 < bound
    decreases |events|
  {
    if events != [] && events[0].seqNo <= cursor + 1 {
      assert events[0] in events;
      StopsBelow(events[1..], if events[0].seqNo <= cursor then cursor else events[0].seqNo, bound);
    }
  }

  lemma {:induction false} HoleStops(log: Log, cursor: nat, i: nat, n: nat)
    requires Valid(log) && 0 < i < |log.events|
    requires cursor + 1 < log.events[i].seqNo && log.events[i - 1].seqNo + 1 < log.events[i].seqNo
    ensures Rounds(log, cursor, n) + 1 < log.events[i].seqNo
    decreases n
  {
    if n > 0 {
      SinceSound(log, cursor);
      var slice := Since(log, cursor);
      forall e | e in slice.events ensures e.seqNo + 1 != log.events[i].seqNo {
        var j :| 0 <= j < |log.events| && log.events[j] == e;
        assert j < i - 1 || j == i - 1 || j == i || j > i;
      }
      StopsBelow(slice.events, if slice.truncated && slice.truncatedTo > cursor then slice.truncatedTo else cursor,
                 log.events[i].seqNo);
      HoleStops(log, Round(log, cursor), i, n - 1);
    }
  }

  lemma {:induction false} FirstAbove(events: seq<Event>, after: nat) returns (i: nat)
    requires Ascending(events) && events != [] && events[|events| - 1].seqNo > after
    ensures i < |events| && Above(events, after) != [] && Above(events, after)[0] == events[i]
    ensures events[i].seqNo > after && (i > 0 ==> events[i - 1].seqNo <= after)
  {
    if events[0].seqNo > after {
      i := 0;
    } else {
      i := FirstAbove(events[1..], after);
      i := i + 1;
    }
  }

  lemma RoundProgresses(log: Log, cursor: nat)
    requires Valid(log) && cursor < Head(log) && log.events != [] && NoHole(log, cursor)
    ensures cursor < Round(log, cursor) <= Head(log) && NoHole(log, Round(log, cursor))
  {
    SinceSound(log, cursor);
    var slice := Since(log, cursor);
    var start := if slice.truncated && slice.truncatedTo > cursor then slice.truncatedTo else cursor;
    AdvanceBounds(slice.events, start);
    if !slice.truncated {
      var i := FirstAbove(log.events, cursor);
      assert log.events[i].seqNo == cursor + 1;
      assert slice.events[0] == log.events[i];
      AdvanceBounds(slice.events[1..], cursor + 1);
    }
    assert start <= Head(log);
    forall e | e in slice.events ensures e.seqNo <= Head(log) {
      assert e in log.events;
    }
  }

  lemma {:induction false} CatchesUp(log: Log, cursor: nat) returns (n: nat)
    requires Valid(log) && cursor <= Head(log)
    requires cursor == Head(log) || (log.events != [] && NoHole(log, cursor))
    ensures Rounds(log, cursor, n) == Head(log)
    decreases Head(log) - cursor
  {
    if cursor == Head(log) {
      n := 0;
    } else {
      RoundProgresses(log, cursor);
      n := CatchesUp(log, Round(log, cursor));
      n := n + 1;
    }
  }

  lemma {:induction false} EmptyLogStaysPut(log: Log, cursor: nat, n: nat)
    requires log.events == []
    ensures Rounds(log, cursor, n) == cursor
    decreases n
  {
    if n > 0 {
      EmptyLogStaysPut(log, cursor, n - 1);
    }
  }

  /** A partition is a postponement exactly when the log above the cursor has no
      hole: repeated syncs then reach the head. A hole (an owed outcome that
      outlived the events after it) stops every later sync in front of it, and a
      log emptied above the cursor tells the watcher nothing. */
  lemma CatchUpIff(log: Log, cursor: nat)
    requires Valid(log) && cursor <= Head(log)
    ensures (exists n :: Rounds(log, cursor, n) == Head(log))
       <==> (cursor == Head(log) || (log.events != [] && NoHole(log, cursor)))
  {
    if cursor == Head(log) || (log.events != [] && NoHole(log, cursor)) {
      var n := CatchesUp(log, cursor);
    } else {
      forall n ensures Rounds(log, cursor, n) != Head(log) {
        if log.events == [] {
          EmptyLogStaysPut(log, cursor, n);
        } else {
          var i :| 0 < i < |log.events| && log.events[i].seqNo > cursor + 1
                   && log.events[i].seqNo != log.events[i - 1].seqNo + 1;
          HoleStops(log, cursor, i, n);
        }
      }
    }
  }
}
