/** Local runs that end at rest with events nobody will deliver. */
module FleetLocalLimits {
  import opened FleetLocal
  import opened FleetLocalStrands

  lemma Extend(s: State, actions: seq<Action>, a: Action) returns (t: State, longer: seq<Action>)
    requires s == Run(START, actions)
    ensures t == Step(s, a) && longer == actions + [a] && t == Run(START, longer)
  {
    RunJoin(START, actions, [a]);
    assert [a][1..] == [];
    assert Run(Step(s, a), []) == Step(s, a);
    t, longer := Step(s, a), actions + [a];
  }

  /** A monitor on an empty log. */
  lemma Watched() returns (s: State, actions: seq<Action>)
    ensures s == Run(START, actions) && s.rows == map[0 := Row(0, false, true, 0, 0, 0)]
    ensures s.threads == map[] && !s.timer && !s.closed
  {
    s, actions := START, [];
    s, actions := Extend(s, actions, Watch(0, 0));
    s, actions := Extend(s, actions, ReadLog(0));
    s, actions := Extend(s, actions, Deliver(0, true));
  }

  /** Its first event is refused; the fan-out returns and the timer is armed. */
  lemma FirstRefused() returns (s: State, actions: seq<Action>)
    ensures s == Run(START, actions) && s.rows == map[0 := Row(1, false, true, 0, 0, 1)]
    ensures s.threads == map[] && s.timer && !s.closed
  {
    s, actions := Watched();
    s, actions := Extend(s, actions, Append(1, 0, false));
    s, actions := Extend(s, actions, ReadHead(1));
    s, actions := Extend(s, actions, Offer(1, false));
    s, actions := Extend(s, actions, Check(1));
    s, actions := Extend(s, actions, Ask(1, false));
  }

  /** The timer fires and reads the log, which holds one event. */
  lemma RetryReads() returns (s: State, actions: seq<Action>)
    ensures s == Run(START, actions) && s.rows == map[0 := Row(1, false, true, 0, 0, 1)]
    ensures s.threads == map[9 := Reading(map[], 0, 0, 1, false)] && !s.timer && !s.closed
  {
    s, actions := FirstRefused();
    s, actions := Extend(s, actions, Fire(9));
    assert s.rows[0].watched && !Consumed(s.rows[0]);
    s, actions := Extend(s, actions, List(9));
    assert s.threads[9] == Visiting(map[0 := 0]);
    s, actions := Extend(s, actions, Visit(9, 0));
    assert map[0 := 0] - {0} == map[];
  }

  /** A second event is appended; its fan-out finds the monitor refused. */
  lemma FanOutLeaves() returns (s: State, actions: seq<Action>)
    ensures s == Run(START, actions) && s.rows == map[0 := Row(2, false, true, 0, 0, 1)]
    ensures s.threads == map[9 := Reading(map[], 0, 0, 1, false)] && !s.timer && !s.closed
  {
    s, actions := RetryReads();
    s, actions := Extend(s, actions, Append(2, 0, false));
    s, actions := Extend(s, actions, ReadHead(2));
    s, actions := Extend(s, actions, Offer(2, true));
    s, actions := Extend(s, actions, Check(2));
    s, actions := Extend(s, actions, Ask(2, false));
  }

  /** The retry has read the log, a second event is appended, and its fan-out
      leaves it to the retry. The retry then delivers the first event and clears
      the count: the second has no fan-out, no count and no timer, until
      something else happens on this machine. */
  lemma LeftBetweenReadAndAdmission() returns (actions: seq<Action>)
    ensures var s, row := Run(START, actions), RowOf(Run(START, actions), 0);
            && s.threads == map[] && !s.timer && !s.closed
            && row.watched && row.applied == 1 && row.head == 2 && row.refusals == 0
  {
    var s;
    s, actions := FanOutLeaves();
    s, actions := Extend(s, actions, Deliver(9, true));
    s, actions := Extend(s, actions, Deliver(9, true));
    s, actions := Extend(s, actions, Return(9));
  }

  /** A job that ran unwatched. */
  lemma {:induction false} Unwatched(n: nat) returns (s: State, actions: seq<Action>)
    ensures s == Run(START, actions) && RowOf(s, 0) == Row(n, false, false, 0, 0, 0)
    ensures s.threads == map[] && !s.timer && !s.closed
  {
    if n == 0 {
      s, actions := START, [];
    } else {
      s, actions := Unwatched(n - 1);
      s, actions := Extend(s, actions, Append(0, 0, false));
      s, actions := Extend(s, actions, ReadHead(0));
      s, actions := Extend(s, actions, Offer(0, true));
    }
  }

  lemma {:induction false} DrainTo(s: State, actions: seq<Action>, n: nat, upTo: nat)
    returns (t: State, longer: seq<Action>)
    requires s == Run(START, actions) && n <= upTo <= RowOf(s, 0).head
    requires s.threads == map[0 := Draining(0, 0, upTo, n > 0)]
    requires var row := RowOf(s, 0); row.watched && row.applied == n && row.refusals == 0
    ensures t == Run(START, longer) && t.threads == map[] && t.timer == s.timer && t.closed == s.closed
    ensures var row := RowOf(t, 0);
            row.watched && row.applied == upTo && row.refusals == 0 && row.head == RowOf(s, 0).head
    decreases upTo - n
  {
    t, longer := Extend(s, actions, Deliver(0, true));
    if n < upTo {
      t, longer := DrainTo(t, longer, n + 1, upTo);
    }
  }

  /** A monitor registered on a log longer than one slice gets one slice: its
      fan-out reads once, refuses nothing, and arms no timer. */
  lemma OneSliceIsNotTheLog(n: nat) returns (actions: seq<Action>)
    requires n > MAX_SLICE_EVENTS
    ensures var s, row := Run(START, actions), RowOf(Run(START, actions), 0);
            && s.threads == map[] && !s.timer && !s.closed
            && row.watched && row.applied == MAX_SLICE_EVENTS && row.head == n && row.refusals == 0
  {
    var s;
    s, actions := Unwatched(n);
    s, actions := Extend(s, actions, Watch(0, 0));
    s, actions := Extend(s, actions, ReadLog(0));
    s, actions := DrainTo(s, actions, 0, MAX_SLICE_EVENTS);
  }

  /** The first event is refused and the timer armed; every later fan-out finds
      the refusal standing and leaves its event to the retry. */
  lemma {:induction false} RefusedWhileItGrows(n: nat) returns (s: State, actions: seq<Action>)
    requires n > 0
    ensures s == Run(START, actions) && RowOf(s, 0) == Row(n, false, true, 0, 0, 1)
    ensures s.threads == map[] && s.timer && !s.closed
  {
    if n == 1 {
      s, actions := FirstRefused();
    } else {
      s, actions := RefusedWhileItGrows(n - 1);
      s, actions := Extend(s, actions, Append(1, 0, false));
      s, actions := Extend(s, actions, ReadHead(1));
      s, actions := Extend(s, actions, Offer(1, true));
      s, actions := Extend(s, actions, Check(1));
      s, actions := Extend(s, actions, Ask(1, false));
    }
  }

  /** A chat that refuses while more than one slice of events comes: the retry
      delivers one slice, clears the count, and the rest is left with no count
      and no timer. */
  lemma RefusedThenLongLog(n: nat) returns (actions: seq<Action>)
    requires n > MAX_SLICE_EVENTS
    ensures Orphaned(Run(START, actions), 0) && RowOf(Run(START, actions), 0).head == n
  {
    var s;
    s, actions := RefusedWhileItGrows(n);
    var rest := RetryOfALongLogStrands(actions, 0);
    actions := actions + rest;
  }
}
