/** Why every turn-away and every short read must be covered: where one is not,
    the threads that are left can all return, refused by nobody, with the monitor
    behind its log and no timer armed. */
module FleetLocalStrands {
  import opened Basics
  import opened FleetLocal

  /** A monitor is behind, no timer is armed, and no thread brings it further
      than below its head. */
  ghost predicate Stranded(s: State, ref: Ref, head: nat) {
    && Shape(s) && OneUnderWay(s) && !s.timer && !s.closed
    && RowOf(s, ref).watched && RowOf(s, ref).applied < RowOf(s, ref).head == head
    && forall w :: w in s.threads ==> !Brings(s.threads[w], ref, head, false)
  }

  /** No append, no new watch, no refusal, no timer and no stop. */
  predicate Quiet(a: Action) {
    Accepting(a) && !a.Append? && !a.Watch? && !a.Fire? && !a.Close?
  }

  lemma QuietKeepsRow(s: State, a: Action, ref: Ref, head: nat)
    requires Stranded(s, ref, head) && Enabled(s, a) && Quiet(a)
    ensures var row := RowOf(Step(s, a), ref); row.watched && row.applied < row.head == head
    ensures !Step(s, a).timer
  {
    assert ThreadInv(s, s.threads[a.id]) && !Brings(s.threads[a.id], ref, head, false);
  }

  lemma QuietBringsNothing(s: State, a: Action, ref: Ref, head: nat)
    requires Stranded(s, ref, head) && Enabled(s, a) && Quiet(a)
    ensures Act(s, a).thread.Some? ==> !Brings(Act(s, a).thread.value, ref, head, false)
  {
    assert !Brings(s.threads[a.id], ref, head, false);
  }

  lemma StaysStranded(s: State, a: Action, ref: Ref, head: nat)
    requires Stranded(s, ref, head) && Enabled(s, a) && Quiet(a)
    ensures Stranded(Step(s, a), ref, head)
  {
    StepShape(s, a);
    OneUnderWayStays(s, a);
    QuietKeepsRow(s, a, ref, head);
    QuietBringsNothing(s, a, ref, head);
  }

  // ----- Any thread can return -----

  ghost function Next(id: nat, t: Thread): Action {
    match t
    case Appended(_, _) => ReadHead(id)
    case Started(_, _, _) => Offer(id, true)
    case Offered(_, _) => Check(id)
    case Behind(_, _) => Ask(id, false)
    case Asking(_, _) => ReadLog(id)
    case Fired => List(id)
    case Visiting(todo) => if todo == map[] then Return(id) else var r :| r in todo; Visit(id, r)
    case _ => Deliver(id, true)
  }

  function Todo(t: Thread): map<Ref, nat> {
    if t.Visiting? || t.Reading? then t.todo else map[]
  }

  function Phase(t: Thread): nat {
    match t
    case Appended(_, _) => 6
    case Started(_, _, _) => 5
    case Offered(_, _) => 4
    case Behind(_, _) => 3
    case Asking(_, _) => 2
    case Reading(_, _, _, _, _) => 2
    case _ => 1
  }

  function ToGo(s: State, t: Thread): nat {
    if (t.Draining? || t.Reading?) && RowOf(s, t.ref).applied < t.upTo then t.upTo - RowOf(s, t.ref).applied else 0
  }

  ghost predicate GetsOn(s: State, t: Thread, s': State, t': Thread) {
    || |Todo(t')| < |Todo(t)|
    || (|Todo(t')| == |Todo(t)|
        && (Phase(t') < Phase(t) || (Phase(t') == Phase(t) && ToGo(s', t') < ToGo(s, t))))
  }

  lemma NextIsQuiet(s: State, id: nat)
    requires id in s.threads && !Locked(s, id)
    ensures Enabled(s, Next(id, s.threads[id])) && Quiet(Next(id, s.threads[id])) && Next(id, s.threads[id]).id == id
  {
  }

  lemma SliceGetsOn(s: State, id: nat)
    requires Shape(s) && id in s.threads && (s.threads[id].Draining? || s.threads[id].Reading?) && !Locked(s, id)
    ensures var t, e := s.threads[id], Act(s, Deliver(id, true));
            e.thread.Some? ==> GetsOn(s, t, Step(s, Deliver(id, true)), e.thread.value)
  {
    var t, e := s.threads[id], Act(s, Deliver(id, true));
    assert ThreadInv(s, t);
    if e.thread.Some? && e.thread.value.Visiting? {
      assert Todo(e.thread.value) == Todo(t);
    }
  }

  lemma VisitGetsOn(s: State, id: nat)
    requires id in s.threads && s.threads[id].Visiting? && s.threads[id].todo != map[]
    ensures var t, e := s.threads[id], Act(s, Next(id, s.threads[id]));
            e.thread.Some? && |Todo(e.thread.value)| < |Todo(t)|
  {
    var t := s.threads[id];
    var r := Next(id, t).ref;
    assert (t.todo - {r}).Keys == t.todo.Keys - {r};
  }

  lemma NextGetsOn(s: State, id: nat)
    requires Shape(s) && id in s.threads && !s.threads[id].Fired? && !Locked(s, id)
    ensures var e := Act(s, Next(id, s.threads[id]));
            e.thread.Some? ==> GetsOn(s, s.threads[id], Step(s, Next(id, s.threads[id])), e.thread.value)
  {
    var t := s.threads[id];
    if t.Draining? || t.Reading? {
      SliceGetsOn(s, id);
    } else if t.Visiting? && t.todo != map[] {
      VisitGetsOn(s, id);
    }
  }

  /** One step of a thread of its own: the others stay, and it gets on or is gone. */
  lemma ThreadSteps(s: State, id: nat, ref: Ref, head: nat)
    requires Stranded(s, ref, head) && id in s.threads && !Locked(s, id)
    ensures var a := Next(id, s.threads[id]); var t := Step(s, a);
            && Quiet(a) && Stranded(t, ref, head) && t.threads - {id} == s.threads - {id}
            && (id in t.threads ==> GetsOn(s, s.threads[id], t, t.threads[id]))
  {
    var a := Next(id, s.threads[id]);
    assert !Brings(s.threads[id], ref, head, false);
    NextIsQuiet(s, id);
    NextGetsOn(s, id);
    StaysStranded(s, a, ref, head);
  }

  lemma OthersUnlocked(s: State, t: State, id: nat)
    requires !Locked(s, id) && t.threads - {id} == s.threads - {id}
    ensures !Locked(t, id)
  {
    forall w | w in t.threads && w != id ensures !UnderWay(t.threads[w]) {
      assert w in t.threads - {id};
      assert w in s.threads && s.threads[w] == t.threads[w];
    }
  }

  lemma {:induction false} ThreadReturns(s: State, id: nat, ref: Ref, head: nat) returns (actions: seq<Action>)
    requires Stranded(s, ref, head) && id in s.threads && !Locked(s, id)
    ensures forall a :: a in actions ==> Quiet(a)
    ensures Stranded(Run(s, actions), ref, head) && Run(s, actions).threads == s.threads - {id}
    decreases |Todo(s.threads[id])|, Phase(s.threads[id]), ToGo(s, s.threads[id])
  {
    var a := Next(id, s.threads[id]);
    var t := Step(s, a);
    ThreadSteps(s, id, ref, head);
    if id in t.threads {
      OthersUnlocked(s, t, id);
      var rest := ThreadReturns(t, id, ref, head);
      actions := [a] + rest;
      assert actions[1..] == rest;
    } else {
      actions := [a];
      assert [a][1..] == [] && Run(t, []) == t;
      assert t.threads - {id} == t.threads;
    }
  }

  /** A slice under way returns first, then the others in any order. */
  lemma {:induction false} AllReturn(s: State, ref: Ref, head: nat) returns (actions: seq<Action>)
    requires Stranded(s, ref, head)
    ensures forall a :: a in actions ==> Quiet(a)
    ensures Stranded(Run(s, actions), ref, head) && Run(s, actions).threads == map[]
    decreases |s.threads|
  {
    if s.threads == map[] {
      actions := [];
    } else {
      var id :| id in s.threads;
      if w :| w in s.threads && UnderWay(s.threads[w]) {
        id := w;
      }
      var first := ThreadReturns(s, id, ref, head);
      assert (s.threads - {id}).Keys == s.threads.Keys - {id};
      var rest := AllReturn(Run(s, first), ref, head);
      RunJoin(s, first, rest);
      actions := first + rest;
    }
  }

  /** At rest, behind, and nothing will happen of itself. */
  ghost predicate Orphaned(s: State, ref: Ref) {
    && s.threads == map[] && !s.timer && !s.closed
    && RowOf(s, ref).watched && RowOf(s, ref).applied < RowOf(s, ref).head && RowOf(s, ref).refusals == 0
  }

  lemma GivingUpStrands(s: State, a: Action)
    requires Inv(s) && !s.closed && GivesUp(s, a, false) && !Covered(s, a, false)
    ensures Stranded(Step(s, a), Act(s, a).ref, RowOf(s, Act(s, a).ref).head)
  {
    var ref, t := Act(s, a).ref, Step(s, a);
    StepShape(s, a);
    OneUnderWayStays(s, a);
    assert ThreadInv(s, s.threads[a.id]);
    forall w | w in t.threads ensures !Brings(t.threads[w], ref, RowOf(s, ref).head, false) {
      assert w != a.id ==> w in s.threads && t.threads[w] == s.threads[w];
    }
  }

  /** Every turn-away and every short read left uncovered can orphan its monitor:
      with no further append, watch or refusal, all threads return, retries are
      open, and the monitor is behind with no count and no timer. */
  lemma UncoveredStrands(run: seq<Action>, a: Action) returns (rest: seq<Action>)
    requires !Run(START, run).closed && GivesUp(Run(START, run), a, false) && !Covered(Run(START, run), a, false)
    ensures forall x :: x in rest ==> Quiet(x)
    ensures var ref, t := Act(Run(START, run), a).ref, Run(START, run + [a] + rest);
            Orphaned(t, ref) && RowOf(t, ref).head == RowOf(Run(START, run), ref).head
  {
    var s := Run(START, run);
    var ref, t := Act(s, a).ref, Step(s, a);
    RunInv(START, run);
    GivingUpStrands(s, a);
    rest := AllReturn(t, ref, RowOf(s, ref).head);
    assert [a][1..] == [] && Run(t, []) == t;
    RunJoin(START, run, [a]);
    RunJoin(START, run + [a], rest);
    RefusedIsNeverOrphaned(run + [a] + rest, ref);
  }

  /** The timer fires at rest: its redelivery is about to visit the monitor. */
  lemma Redelivers(s: State, ref: Ref) returns (t: State)
    requires Inv(s) && s.threads == map[] && s.timer
    requires RowOf(s, ref).watched && RowOf(s, ref).applied < RowOf(s, ref).head
    ensures t == Run(s, [Fire(0), List(0)]) && !t.timer && !t.closed && t.threads.Keys == {0}
    ensures t.threads[0].Visiting? && ref in t.threads[0].todo && t.threads[0].todo[ref] == RowOf(s, ref).applied
    ensures RowOf(t, ref) == RowOf(s, ref)
  {
    var u := Step(s, Fire(0));
    t := Step(u, List(0));
    assert [Fire(0), List(0)][1..] == [List(0)] && [List(0)][1..] == [];
    assert Run(s, [Fire(0), List(0)]) == Run(u, [List(0)]) == Run(t, []) == t;
    assert u.threads == map[0 := Fired] && ref in u.rows;
  }

  /** A retry gives up on a long log: at rest with the timer armed, more than one
      slice behind, the timer fires, its redelivery reads one slice, and with
      nothing refused the rest is orphaned. */
  lemma RetryOfALongLogStrands(run: seq<Action>, ref: Ref) returns (rest: seq<Action>)
    requires Run(START, run).threads == map[] && Run(START, run).timer
    requires var row := RowOf(Run(START, run), ref); row.watched && row.applied + MAX_SLICE_EVENTS < row.head
    ensures forall x :: x in rest ==> Quiet(x) || x.Fire?
    ensures var t := Run(START, run + rest);
            Orphaned(t, ref) && RowOf(t, ref).head == RowOf(Run(START, run), ref).head
  {
    var first := [Fire(0), List(0)];
    RunInv(START, run);
    var t := Redelivers(Run(START, run), ref);
    RunJoin(START, run, first);
    assert !BroughtBut(t, 0, ref, false);
    var after := UncoveredStrands(run + first, Visit(0, ref));
    rest := first + [Visit(0, ref)] + after;
    assert run + rest == run + first + [Visit(0, ref)] + after;
  }
}
