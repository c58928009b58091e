/** Delivery on one machine: the fan-outs of concurrent appends, and the timer
    that offers a refused notice again. Every read and write between two locks is
    a step of its own, so threads interleave freely. */
module FleetLocal {
  import opened Basics

  type Ref = nat

  /** A target's log on this machine and the monitor a local chat holds on it.
      `ended` says the log's newest event is its exit. */
  datatype Row = Row(head: nat, ended: bool, watched: bool, applied: nat, acked: nat, refusals: nat)

  const UNKNOWN := Row(0, false, false, 0, 0, 0)

  predicate Consumed(row: Row) {
    row.ended && row.applied == row.head
  }

  /** Where a goroutine stands. A fan-out holds its event and later the head it
      read; `from` and `upTo` bound a slice read from the log; `moved` says the
      slice advanced the cursor. A redelivery holds the monitors still to visit,
      with the cursor each had when they were listed. */
  datatype Thread =
    | Appended(ref: Ref, e: nat)
    | Started(ref: Ref, e: nat, h: nat)
    | Offered(ref: Ref, h: nat)
    | Behind(ref: Ref, from: nat)
    | Asking(ref: Ref, from: nat)
    | Draining(ref: Ref, from: nat, upTo: nat, moved: bool)
    | Fired
    | Visiting(todo: map<Ref, nat>)
    | Reading(todo: map<Ref, nat>, ref: Ref, from: nat, upTo: nat, moved: bool)

  datatype State = State(rows: map<Ref, Row>, threads: map<nat, Thread>, timer: bool, closed: bool)

  const START := State(map[], map[], false, false)

  /** `admits` is what the chat does with the event offered; `cleared` says the
      refusal count was read in the middle of a slice, after an admission. */
  datatype Action =
    | Append(id: nat, ref: Ref, last: bool)
    | Watch(id: nat, ref: Ref)
    | ReadHead(id: nat)
    | Offer(id: nat, admits: bool)
    | Check(id: nat)
    | Ask(id: nat, cleared: bool)
    | ReadLog(id: nat)
    | Deliver(id: nat, admits: bool)
    | Fire(id: nat)
    | List(id: nat)
    | Visit(id: nat, ref: Ref)
    | Return(id: nat)
    | Close

  const MAX_SLICE_EVENTS: nat := 256

  function RowOf(s: State, ref: Ref): Row {
    if ref in s.rows then s.rows[ref] else UNKNOWN
  }

  function SliceEnd(row: Row, from: nat): nat {
    if row.head < from + MAX_SLICE_EVENTS then row.head else from + MAX_SLICE_EVENTS
  }

  /** A slice some of whose events are applied holds the lock under which slices
      are applied. */
  predicate UnderWay(t: Thread) {
    (t.Draining? || t.Reading?) && t.moved
  }

  predicate Locked(s: State, id: nat) {
    exists w :: w in s.threads && w != id && UnderWay(s.threads[w])
  }

  predicate Enabled(s: State, a: Action) {
    match a
    case Append(id, ref, _) => id !in s.threads && !RowOf(s, ref).ended
    case Watch(id, _) => id !in s.threads
    case ReadHead(id) => id in s.threads && s.threads[id].Appended?
    case Offer(id, _) => id in s.threads && s.threads[id].Started? && !Locked(s, id)
    case Check(id) => id in s.threads && s.threads[id].Offered?
    case Ask(id, _) => id in s.threads && s.threads[id].Behind?
    case ReadLog(id) => id in s.threads && s.threads[id].Asking?
    case Deliver(id, _) => id in s.threads && (s.threads[id].Draining? || s.threads[id].Reading?) && !Locked(s, id)
    case Fire(id) => id !in s.threads && s.timer
    case List(id) => id in s.threads && s.threads[id].Fired?
    case Visit(id, ref) => id in s.threads && s.threads[id].Visiting? && ref in s.threads[id].todo
    case Return(id) => id in s.threads && s.threads[id].Visiting? && s.threads[id].todo == map[]
    case Close => true
  }

  /** What a step leaves: one row, the thread that took it or None once it
      returned, and the one retry timer. */
  datatype Effect = Effect(ref: Ref, row: Row, thread: Option<Thread>, timer: bool)

  function Admitted(row: Row): Row {
    row.(applied := row.applied + 1, refusals := 0)
  }

  function Acknowledged(row: Row, moved: bool): Row {
    if moved then row.(acked := row.applied) else row
  }

  function Refused(row: Row): Row {
    row.(refusals := row.refusals + 1)
  }

  /** Where a slice returns to. */
  function AfterSlice(t: Thread): Option<Thread>
    requires t.Draining? || t.Reading?
  {
    if t.Draining? then None else Some(Visiting(t.todo))
  }

  /** A slice's next event, or its end: past its last event, at a gap, or at a
      refusal. */
  function Delivered(s: State, t: Thread, row: Row, admits: bool): Effect
    requires t.Draining? || t.Reading?
  {
    if row.applied < t.from || t.upTo <= row.applied then
      Effect(t.ref, Acknowledged(row, t.moved), AfterSlice(t), s.timer)
    else if admits then Effect(t.ref, Admitted(row), Some(t.(moved := true)), s.timer)
    else
      Effect(t.ref, Refused(Acknowledged(row, t.moved)), AfterSlice(t), s.timer || !s.closed)
  }

  /** One pushed event, offered where it is the next. */
  function Pushed(s: State, t: Thread, row: Row, admits: bool): Effect
    requires t.Started?
  {
    var next := Some(Offered(t.ref, t.h));
    if !row.watched then Effect(t.ref, row, None, s.timer)
    else if t.e != row.applied + 1 then Effect(t.ref, row, next, s.timer)
    else if admits then Effect(t.ref, Acknowledged(Admitted(row), true), next, s.timer)
    else Effect(t.ref, Refused(row), next, s.timer || !s.closed)
  }

  /** The monitors a redelivery visits: not yet consumed, each with its cursor. */
  function Listed(s: State): map<Ref, nat> {
    map ref | ref in s.rows && s.rows[ref].watched && !Consumed(s.rows[ref]) :: s.rows[ref].applied
  }

  function Act(s: State, a: Action): Effect
    requires Enabled(s, a) && !a.Close?
  {
    match a
    case Append(_, ref, last) =>
      var row := RowOf(s, ref);
      Effect(ref, row.(head := row.head + 1, ended := last), Some(Appended(ref, row.head + 1)), s.timer)
    case Watch(_, ref) =>
      var row := RowOf(s, ref);
      Effect(ref, row.(watched := true), if Consumed(row) then None else Some(Asking(ref, row.applied)), s.timer)
    case Deliver(id, admits) => Delivered(s, s.threads[id], RowOf(s, s.threads[id].ref), admits)
    case Fire(_) => Effect(0, RowOf(s, 0), if s.closed then None else Some(Fired), false)
    case List(_) => Effect(0, RowOf(s, 0), Some(Visiting(Listed(s))), s.timer)
    case Visit(id, ref) =>
      var todo, row := s.threads[id].todo, RowOf(s, ref);
      Effect(ref, row, Some(Reading(todo - {ref}, ref, todo[ref], SliceEnd(row, todo[ref]), false)), s.timer)
    case Return(_) => Effect(0, RowOf(s, 0), None, s.timer)
    case ReadHead(id) =>
      var t, row := s.threads[id], RowOf(s, s.threads[id].ref);
      Effect(t.ref, row, Some(Started(t.ref, t.e, row.head)), s.timer)
    case Offer(id, admits) => Pushed(s, s.threads[id], RowOf(s, s.threads[id].ref), admits)
    case Check(id) =>
      var t, row := s.threads[id], RowOf(s, s.threads[id].ref);
      Effect(t.ref, row, if row.applied < t.h then Some(Behind(t.ref, row.applied)) else None, s.timer)
    case Ask(id, cleared) =>
      var t, row := s.threads[id], RowOf(s, s.threads[id].ref);
      Effect(t.ref, row, if cleared || row.refusals == 0 then Some(Asking(t.ref, t.from)) else None, s.timer)
    case ReadLog(id) =>
      var t, row := s.threads[id], RowOf(s, s.threads[id].ref);
      Effect(t.ref, row, Some(Draining(t.ref, t.from, SliceEnd(row, t.from), false)), s.timer)
  }

  function After(s: State, id: nat, e: Effect): State {
    State(s.rows[e.ref := e.row], if e.thread.Some? then s.threads[id := e.thread.value] else s.threads - {id},
          e.timer, s.closed)
  }

  function Step(s: State, a: Action): State {
    if !Enabled(s, a) then s
    else if a.Close? then s.(closed := true, timer := false)
    else After(s, a.id, Act(s, a))
  }

  ghost function Run(s: State, actions: seq<Action>): State
    decreases |actions|
  {
    if actions == [] then s else Run(Step(s, actions[0]), actions[1..])
  }

  // ----- What a step does to a row -----

  /** One row before and after a step that appends to it, watches it, offers it
      an event, or does something else. */
  ghost predicate Moves(row: Row, row': Row, appends: bool, last: bool, watches: bool, offers: bool) {
    && row'.head == row.head + (if appends then 1 else 0) && row'.ended == (if appends then last else row.ended)
    && row'.watched == (row.watched || watches)
    && row'.applied in {row.applied, row.applied + 1} && row'.acked in {row.acked, row'.applied}
    && row'.refusals in {row.refusals, row.refusals + 1, 0}
    && (!offers ==> row'.applied == row.applied && row'.acked == row.acked && row'.refusals == row.refusals)
  }

  lemma PushMoves(s: State, t: Thread, row: Row, admits: bool)
    requires t.Started?
    ensures Pushed(s, t, row, admits).ref == t.ref
    ensures Moves(row, Pushed(s, t, row, admits).row, false, false, false, true)
  {
  }

  lemma DeliveryMoves(s: State, t: Thread, row: Row, admits: bool)
    requires t.Draining? || t.Reading?
    ensures Delivered(s, t, row, admits).ref == t.ref
    ensures Moves(row, Delivered(s, t, row, admits).row, false, false, false, true)
  {
  }

  lemma OfferMoves(s: State, a: Action)
    requires Enabled(s, a) && (a.Offer? || a.Deliver?)
    ensures Act(s, a).ref == s.threads[a.id].ref
    ensures Moves(RowOf(s, Act(s, a).ref), Act(s, a).row, false, false, false, true)
  {
    var t := s.threads[a.id];
    if a.Offer? {
      PushMoves(s, t, RowOf(s, t.ref), a.admits);
    } else {
      DeliveryMoves(s, t, RowOf(s, t.ref), a.admits);
    }
  }

  lemma OtherMoves(s: State, a: Action)
    requires Enabled(s, a) && !a.Offer? && !a.Deliver? && !a.Close?
    ensures Moves(RowOf(s, Act(s, a).ref), Act(s, a).row, a.Append?, a.Append? && a.last, a.Watch?, false)
    ensures a.Append? || a.Watch? ==> Act(s, a).ref == a.ref
  {
  }

  /** A log grows by its appends alone, and by none after its exit; a monitor is
      recorded by its watch, and applies one event at a time. */
  lemma RowMoves(s: State, a: Action, ref: Ref)
    ensures var appends := a.Append? && a.ref == ref && a.id !in s.threads && !RowOf(s, ref).ended;
            Moves(RowOf(s, ref), RowOf(Step(s, a), ref), appends, appends && a.last,
                  a.Watch? && a.ref == ref && a.id !in s.threads, a.Offer? || a.Deliver?)
  {
    if Enabled(s, a) && !a.Close? {
      if a.Offer? || a.Deliver? {
        OfferMoves(s, a);
      } else {
        OtherMoves(s, a);
      }
      assert Step(s, a).rows == s.rows[Act(s, a).ref := Act(s, a).row];
    }
  }

  /** A pushed event is applied exactly where it is the next one and the chat
      admits it, and a refusal of it arms the timer. */
  lemma PushIff(s: State, id: nat, admits: bool)
    requires Enabled(s, Offer(id, admits))
    ensures var t, after := s.threads[id], Step(s, Offer(id, admits));
            var row, row' := RowOf(s, t.ref), RowOf(after, t.ref);
            var next := row.watched && t.e == row.applied + 1;
            && row'.applied == (if next && admits then row.applied + 1 else row.applied)
            && row'.acked == (if next && admits then row.applied + 1 else row.acked)
            && row'.refusals == (if !next then row.refusals else if admits then 0 else row.refusals + 1)
            && after.timer == (s.timer || (next && !admits && !s.closed))
            && (id in after.threads <==> row.watched)
  {
  }

  /** A watch, and a fan-out that finds its monitor behind, read on from what is
      applied; a watch of an end already heard, and a fan-out that finds nothing
      left, return. */
  lemma ReadsFromTheCursor(s: State, id: nat, ref: Ref)
    ensures Enabled(s, Watch(id, ref)) ==>
              var row, threads := RowOf(s, ref), Step(s, Watch(id, ref)).threads;
              if row.ended && row.applied == row.head then id !in threads
              else id in threads && threads[id] == Asking(ref, row.applied)
    ensures Enabled(s, Check(id)) ==>
              var applied, threads := RowOf(s, s.threads[id].ref).applied, Step(s, Check(id)).threads;
              if applied < s.threads[id].h then id in threads && threads[id] == Behind(s.threads[id].ref, applied)
              else id !in threads
  {
  }

  /** A redelivery visits every monitor that is behind or whose log may go on, and
      no other, each from its cursor. */
  lemma ListedIff(s: State, id: nat, ref: Ref)
    requires Enabled(s, List(id))
    ensures var after := Step(s, List(id)).threads;
            && id in after && after[id].Visiting?
            && (ref in after[id].todo <==>
                  ref in s.rows && s.rows[ref].watched
                  && (s.rows[ref].ended ==> s.rows[ref].applied != s.rows[ref].head))
            && (ref in after[id].todo ==> after[id].todo[ref] == s.rows[ref].applied)
  {
  }

  /** Once a slice has applied an event, no other thread applies, refuses or
      acknowledges anything until that slice is done. */
  lemma SliceIsAlone(s: State, a: Action, w: nat, ref: Ref)
    requires w in s.threads && (s.threads[w].Draining? || s.threads[w].Reading?) && s.threads[w].moved
    requires a.Close? || a.id != w
    ensures var row, row' := RowOf(s, ref), RowOf(Step(s, a), ref);
            row'.applied == row.applied && row'.acked == row.acked && row'.refusals == row.refusals
  {
    assert a.Close? || Locked(s, a.id);
  }

  /** And nothing else keeps an event from being offered. */
  lemma OfferedIff(s: State, id: nat, admits: bool)
    requires id in s.threads
    ensures var free := forall w :: w in s.threads && w != id && (s.threads[w].Draining? || s.threads[w].Reading?) ==>
                          !s.threads[w].moved;
            && (Enabled(s, Offer(id, admits)) <==> s.threads[id].Started? && free)
            && (Enabled(s, Deliver(id, admits)) <==> (s.threads[id].Draining? || s.threads[id].Reading?) && free)
  {
  }

  lemma {:induction false} RunJoin(s: State, before: seq<Action>, after: seq<Action>)
    ensures Run(s, before + after) == Run(Run(s, before), after)
    decreases |before|
  {
    if before == [] {
      assert before + after == after;
    } else {
      assert (before + after)[1..] == before[1..] + after;
      RunJoin(Step(s, before[0]), before[1..], after);
    }
  }

  // ----- The invariant -----

  /** A redelivery that will offer the event after this cursor. */
  predicate Reoffers(t: Thread, ref: Ref, applied: nat) {
    match t
    case Fired => true
    case Visiting(todo) => ref in todo && todo[ref] == applied
    case Reading(todo, r, from, upTo, _) => (ref in todo && todo[ref] == applied) || (r == ref
        && from <= applied < upTo)
    case _ => false
  }

  predicate Acknowledges(t: Thread, ref: Ref) {
    (t.Draining? || t.Reading?) && t.ref == ref && t.moved
  }

  ghost predicate Reoffered(s: State, ref: Ref) {
    exists id :: id in s.threads && Reoffers(s.threads[id], ref, RowOf(s, ref).applied)
  }

  ghost predicate BeingAcked(s: State, ref: Ref) {
    exists id :: id in s.threads && Acknowledges(s.threads[id], ref)
  }

  predicate RowInv(row: Row) {
    && row.acked <= row.applied <= row.head
    && (row.refusals > 0 ==> row.watched && row.applied < row.head)
    && (!row.watched ==> row.applied == 0)
  }

  ghost predicate TodoInv(s: State, todo: map<Ref, nat>) {
    forall r :: r in todo ==> todo[r] <= RowOf(s, r).applied && RowOf(s, r).watched
  }

  ghost predicate ThreadInv(s: State, t: Thread) {
    match t
    case Appended(r, e) => e <= RowOf(s, r).head
    case Started(r, e, h) => e <= h <= RowOf(s, r).head
    case Offered(r, h) => h <= RowOf(s, r).head && RowOf(s, r).watched
    case Behind(r, from) => from <= RowOf(s, r).applied && RowOf(s, r).watched
    case Asking(r, from) => from <= RowOf(s, r).applied && RowOf(s, r).watched
    case Draining(r, from, upTo, _) => from <= RowOf(s, r).applied && upTo <= RowOf(s, r).head && RowOf(s, r).watched
    case Fired => true
    case Visiting(todo) => TodoInv(s, todo)
    case Reading(todo, r, from, upTo, _) =>
      TodoInv(s, todo) && from <= RowOf(s, r).applied && upTo <= RowOf(s, r).head && RowOf(s, r).watched
  }

  ghost predicate Shape(s: State) {
    && (forall ref :: RowInv(RowOf(s, ref)))
    && (forall id :: id in s.threads ==> ThreadInv(s, s.threads[id]))
  }

  ghost predicate OneUnderWay(s: State) {
    forall v, w :: v in s.threads && w in s.threads && UnderWay(s.threads[v]) && UnderWay(s.threads[w]) ==> v == w
  }

  ghost predicate Owed(s: State, ref: Ref) {
    RowOf(s, ref).refusals > 0 && !s.closed ==> s.timer || Reoffered(s, ref)
  }

  ghost predicate Settling(s: State, ref: Ref) {
    RowOf(s, ref).acked < RowOf(s, ref).applied ==> BeingAcked(s, ref)
  }

  ghost predicate Inv(s: State) {
    && Shape(s)
    && (forall ref :: Owed(s, ref))
    && (forall ref :: Settling(s, ref))
    && OneUnderWay(s)
    && (s.closed ==> !s.timer)
  }

  // ----- Every step keeps it -----

  /** A row only grows: its log, its cursor, and being watched. */
  predicate Grows(before: Row, after: Row) {
    before.head <= after.head && before.applied <= after.applied && (before.watched ==> after.watched)
  }

  lemma ThreadStays(s: State, id: nat, e: Effect, t: Thread)
    requires Grows(RowOf(s, e.ref), e.row) && ThreadInv(s, t)
    ensures ThreadInv(After(s, id, e), t)
  {
  }

  lemma SliceThread(s: State, a: Action)
    requires Shape(s) && Enabled(s, a) && (a.Deliver? || a.Visit?)
    requires Grows(RowOf(s, Act(s, a).ref), Act(s, a).row)
    ensures Act(s, a).thread.Some? ==> ThreadInv(After(s, a.id, Act(s, a)), Act(s, a).thread.value)
  {
    var t := s.threads[a.id];
    assert ThreadInv(s, t);
    ThreadStays(s, a.id, Act(s, a), t);
  }

  lemma ActThread(s: State, a: Action)
    requires Shape(s) && Enabled(s, a) && !a.Close?
    requires Grows(RowOf(s, Act(s, a).ref), Act(s, a).row) && RowInv(Act(s, a).row)
    ensures Act(s, a).thread.Some? ==> ThreadInv(After(s, a.id, Act(s, a)), Act(s, a).thread.value)
  {
    var e := Act(s, a);
    assert RowInv(RowOf(s, e.ref));
    if a.List? {
      assert ThreadInv(s, Visiting(Listed(s)));
      ThreadStays(s, a.id, e, Visiting(Listed(s)));
    } else if a.Deliver? || a.Visit? {
      SliceThread(s, a);
    } else if a.id in s.threads {
      ThreadStays(s, a.id, e, s.threads[a.id]);
    }
  }

  lemma ActGrows(s: State, a: Action)
    requires Shape(s) && Enabled(s, a) && !a.Close?
    ensures Grows(RowOf(s, Act(s, a).ref), Act(s, a).row) && RowInv(Act(s, a).row)
  {
    assert RowInv(RowOf(s, Act(s, a).ref));
    if a.Deliver? || a.Offer? {
      assert ThreadInv(s, s.threads[a.id]);
    }
  }

  lemma StepShape(s: State, a: Action)
    requires Shape(s) && Enabled(s, a)
    ensures Shape(Step(s, a))
  {
    if !a.Close? {
      var e, s' := Act(s, a), Step(s, a);
      ActGrows(s, a);
      ActThread(s, a);
      forall k | k in s'.threads ensures ThreadInv(s', s'.threads[k]) {
        if k != a.id {
          ThreadStays(s, a.id, e, s.threads[k]);
        }
      }
      forall ref ensures RowInv(RowOf(s', ref)) {
        if ref != e.ref {
          assert RowInv(RowOf(s, ref));
        }
      }
    } else {
      forall ref ensures RowOf(Step(s, a), ref) == RowOf(s, ref) {
      }
    }
  }

  /** The redelivery that will reach a monitor still will once it has moved. */
  lemma RedeliveryMoves(s: State, a: Action, ref: Ref)
    requires Shape(s) && Enabled(s, a) && !a.Close? && a.id in s.threads
    requires RowOf(s, ref).refusals > 0 && Reoffers(s.threads[a.id], ref, RowOf(s, ref).applied)
    requires RowOf(Step(s, a), ref).refusals > 0 && !Step(s, a).timer && !s.closed
    ensures Act(s, a).thread.Some? && Reoffers(Act(s, a).thread.value, ref, RowOf(s, ref).applied)
  {
    assert RowInv(RowOf(s, ref));
    var t := s.threads[a.id];
    if t.Visiting? && a.Visit? && ref != a.ref {
      assert ref in t.todo - {a.ref};
    }
  }

  lemma OwedStays(s: State, a: Action, ref: Ref)
    requires Shape(s) && Enabled(s, a) && Owed(s, ref)
    ensures Owed(Step(s, a), ref)
  {
    var s' := Step(s, a);
    if RowOf(s', ref).refusals > 0 && !s'.timer && !s'.closed {
      if s.timer {
        assert Reoffers(s'.threads[a.id], ref, RowOf(s', ref).applied);
      } else {
        var w :| w in s.threads && Reoffers(s.threads[w], ref, RowOf(s, ref).applied);
        if w == a.id {
          RedeliveryMoves(s, a, ref);
        }
        assert w in s'.threads && Reoffers(s'.threads[w], ref, RowOf(s', ref).applied);
      }
    }
  }

  /** A slice under way acknowledges where it got to before it returns, and any
      step that moves the cursor without acknowledging is a slice under way. */
  lemma AckMoves(s: State, a: Action, ref: Ref)
    requires Shape(s) && Enabled(s, a) && !a.Close?
    requires RowOf(Step(s, a), ref).acked < RowOf(Step(s, a), ref).applied
    requires RowOf(s, ref).acked < RowOf(s, ref).applied ==> a.id in s.threads && Acknowledges(s.threads[a.id], ref)
    ensures Act(s, a).thread.Some? && Acknowledges(Act(s, a).thread.value, ref)
  {
    assert RowInv(RowOf(s, ref));
  }

  lemma SettlingStays(s: State, a: Action, ref: Ref)
    requires Shape(s) && Enabled(s, a) && Settling(s, ref)
    ensures Settling(Step(s, a), ref)
  {
    var s' := Step(s, a);
    if !a.Close? && RowOf(s', ref).acked < RowOf(s', ref).applied {
      if w :| w in s.threads && w != a.id && Acknowledges(s.threads[w], ref) {
        assert w in s'.threads && s'.threads[w] == s.threads[w];
      } else {
        AckMoves(s, a, ref);
        assert Acknowledges(s'.threads[a.id], ref);
      }
    }
  }

  /** Only the slice that holds the lock, or the first to take it, goes on. */
  lemma OneUnderWayStays(s: State, a: Action)
    requires OneUnderWay(s) && Enabled(s, a)
    ensures OneUnderWay(Step(s, a))
  {
  }

  lemma StepInv(s: State, a: Action)
    requires Inv(s)
    ensures Inv(Step(s, a))
  {
    if Enabled(s, a) {
      StepShape(s, a);
      OneUnderWayStays(s, a);
      forall ref ensures Owed(Step(s, a), ref) {
        OwedStays(s, a, ref);
      }
      forall ref ensures Settling(Step(s, a), ref) {
        SettlingStays(s, a, ref);
      }
    }
  }

  lemma {:induction false} RunInv(s: State, actions: seq<Action>)
    requires Inv(s)
    ensures Inv(Run(s, actions))
    decreases |actions|
  {
    if actions != [] {
      StepInv(s, actions[0]);
      RunInv(Step(s, actions[0]), actions[1..]);
    }
  }

  // ----- Who brings a monitor to its head -----

  /** A thread that will take a monitor to its head, or arm the timer, unless it
      is turned away: a fan-out that has not read the log yet, a slice that ends
      at the head, or a redelivery that has yet to read this log. The `strict`
      reading counts a fan-out that knows its head only if that is still the
      head: one that knows an older head may return there. */
  predicate Brings(t: Thread, ref: Ref, head: nat, strict: bool) {
    match t
    case Appended(r, _) => r == ref
    case Started(r, _, h) => r == ref && (strict ==> h == head)
    case Offered(r, h) => r == ref && (strict ==> h == head)
    case Behind(r, _) => r == ref
    case Asking(r, _) => r == ref
    case Draining(r, _, upTo, _) => r == ref && upTo == head
    case Fired => true
    case Visiting(todo) => ref in todo
    case Reading(todo, r, _, upTo, _) => ref in todo || (r == ref && upTo == head)
  }

  /** A fan-out returns from a monitor that is behind: it asked and found a
      refusal standing, or it had been overtaken at the head it knew. */
  predicate TurnsAway(s: State, a: Action, strict: bool) {
    && Enabled(s, a) && (a.Ask? || (a.Check? && !strict)) && Act(s, a).thread.None?
    && RowOf(s, Act(s, a).ref).applied < RowOf(s, Act(s, a).ref).head
  }

  /** A log is read for a monitor that is behind, and the slice ends below its
      head: more than one slice is owed. */
  predicate ReadsShort(s: State, a: Action) {
    && Enabled(s, a) && (a.ReadLog? || a.Visit?)
    && RowOf(s, Act(s, a).ref).applied < RowOf(s, Act(s, a).ref).head
    && Act(s, a).thread.value.upTo < RowOf(s, Act(s, a).ref).head
  }

  /** A step after which its thread no longer brings the monitor to its head. */
  predicate GivesUp(s: State, a: Action, strict: bool) {
    TurnsAway(s, a, strict) || ReadsShort(s, a)
  }

  ghost predicate BroughtBut(s: State, id: nat, ref: Ref, strict: bool) {
    exists w :: w in s.threads && w != id && Brings(s.threads[w], ref, RowOf(s, ref).head, strict)
  }

  /** Whoever gives up leaves the timer armed, or another thread that will bring
      the monitor to its head. */
  ghost predicate Covered(s: State, a: Action, strict: bool) {
    GivesUp(s, a, strict) ==> s.timer || BroughtBut(s, a.id, Act(s, a).ref, strict)
  }

  ghost predicate CoveredRun(s: State, actions: seq<Action>, strict: bool)
    decreases |actions|
  {
    actions == [] || (Covered(s, actions[0], strict) && CoveredRun(Step(s, actions[0]), actions[1..], strict))
  }

  ghost predicate Brought(s: State, ref: Ref, head: nat, strict: bool) {
    exists w :: w in s.threads && Brings(s.threads[w], ref, head, strict)
  }

  ghost predicate Converging(s: State, ref: Ref, strict: bool) {
    var row := RowOf(s, ref);
    row.watched && row.applied < row.head ==>
      s.timer || Brought(s, ref, row.head, strict)
  }

  /** A refusal comes while retries are open, and closing them cancels none. */
  predicate Retriable(s: State, a: Action) {
    && ((a.Offer? || a.Deliver?) && !a.admits ==> !s.closed)
    && (a.Close? ==> !s.timer)
  }

  /** A thread that brings a monitor to its head still does once it has moved,
      unless it got there, left the timer armed or gave up. */
  lemma FanOutMoves(s: State, a: Action, ref: Ref, strict: bool)
    requires Shape(s) && Enabled(s, a) && Retriable(s, a) && !a.Close? && a.id in s.threads
    requires Brings(s.threads[a.id], ref, RowOf(s, ref).head, strict)
    requires var row := RowOf(Step(s, a), ref); row.watched && row.applied < row.head
    requires !Step(s, a).timer
    ensures || (GivesUp(s, a, strict) && Act(s, a).ref == ref)
            || (Act(s, a).thread.Some? && Brings(Act(s, a).thread.value, ref, RowOf(s, ref).head, strict))
  {
    assert ThreadInv(s, s.threads[a.id]) && RowInv(RowOf(s, ref));
    if a.Deliver? {
      SliceMoves(s, s.threads[a.id], RowOf(s, s.threads[a.id].ref), a.admits, ref, strict);
    }
  }

  /** A slice that ends at the head gets there or leaves the timer armed. */
  lemma SliceMoves(s: State, t: Thread, row: Row, admits: bool, ref: Ref, strict: bool)
    requires (t.Draining? || t.Reading?) && RowInv(row) && t.from <= row.applied && (admits || !s.closed)
    requires t.ref == ref ==> row == RowOf(s, ref)
    requires Brings(t, ref, RowOf(s, ref).head, strict)
    requires var e := Delivered(s, t, row, admits); !e.timer && (t.ref == ref ==> e.row.applied < e.row.head)
    ensures var e := Delivered(s, t, row, admits);
            e.thread.Some? && Brings(e.thread.value, ref, RowOf(s, ref).head, strict)
  {
  }

  /** A gap is an old one, at the same head, unless an append or a watch opens it. */
  predicate KeepsGap(before: Row, after: Row) {
    after.watched && after.applied < after.head ==>
      before.watched && before.applied < before.head && after.head == before.head
  }

  lemma ActKeepsGaps(s: State, a: Action, ref: Ref)
    requires Enabled(s, a) && !((a.Append? || a.Watch?) && a.ref == ref)
    ensures KeepsGap(RowOf(s, ref), RowOf(Step(s, a), ref))
  {
    if !a.Close? && a.Deliver? {
      DeliveredKeepsGaps(s, s.threads[a.id], RowOf(s, s.threads[a.id].ref), a.admits);
    }
  }

  lemma DeliveredKeepsGaps(s: State, t: Thread, row: Row, admits: bool)
    requires t.Draining? || t.Reading?
    ensures KeepsGap(row, Delivered(s, t, row, admits).row)
  {
  }

  /** The thread that moved still brings the monitor on, or another does. */
  lemma BringerMoves(s: State, a: Action, ref: Ref, strict: bool)
    requires Shape(s) && Enabled(s, a) && Retriable(s, a) && Covered(s, a, strict) && !a.Close? && a.id in s.threads
    requires Brings(s.threads[a.id], ref, RowOf(s, ref).head, strict)
    requires var row := RowOf(Step(s, a), ref); row.watched && row.applied < row.head
    requires !Step(s, a).timer && !s.timer
    ensures || BroughtBut(s, a.id, ref, strict)
            || (Act(s, a).thread.Some? && Brings(Act(s, a).thread.value, ref, RowOf(s, ref).head, strict))
  {
    FanOutMoves(s, a, ref, strict);
  }

  /** Whoever opens a gap brings the monitor on. */
  lemma OpenerBrings(s: State, a: Action, ref: Ref, strict: bool)
    requires Inv(s) && Enabled(s, a) && (a.Fire? || ((a.Append? || a.Watch?) && a.ref == ref))
    requires RowOf(Step(s, a), ref).applied < RowOf(Step(s, a), ref).head
    ensures Act(s, a).thread.Some? && Brings(Act(s, a).thread.value, ref, RowOf(Step(s, a), ref).head, strict)
  {
  }

  lemma OthersStand(s: State, a: Action, w: nat)
    requires Enabled(s, a) && w in s.threads && (a.Close? || w != a.id)
    ensures w in Step(s, a).threads && Step(s, a).threads[w] == s.threads[w]
  {
  }

  lemma StaysBrought(s: State, a: Action, ref: Ref, strict: bool)
    requires Shape(s) && Enabled(s, a) && Retriable(s, a) && Covered(s, a, strict)
    requires Brought(s, ref, RowOf(s, ref).head, strict)
    requires var row := RowOf(Step(s, a), ref); row.watched && row.applied < row.head
    requires !Step(s, a).timer && !s.timer
    ensures Brought(Step(s, a), ref, RowOf(s, ref).head, strict)
  {
    var head := RowOf(s, ref).head;
    var w :| w in s.threads && Brings(s.threads[w], ref, head, strict);
    if !a.Close? && w == a.id {
      BringerMoves(s, a, ref, strict);
      if BroughtBut(s, a.id, ref, strict) {
        w :| w in s.threads && w != a.id && Brings(s.threads[w], ref, head, strict);
        OthersStand(s, a, w);
      }
    } else {
      OthersStand(s, a, w);
    }
    assert w in Step(s, a).threads && Brings(Step(s, a).threads[w], ref, head, strict);
  }

  lemma ConvergingStays(s: State, a: Action, ref: Ref, strict: bool)
    requires Inv(s) && Enabled(s, a) && Retriable(s, a) && Covered(s, a, strict)
    requires Converging(s, ref, strict)
    ensures Converging(Step(s, a), ref, strict)
  {
    var s' := Step(s, a);
    var row' := RowOf(s', ref);
    if row'.watched && row'.applied < row'.head && !s'.timer {
      if a.Fire? || ((a.Append? || a.Watch?) && a.ref == ref) {
        OpenerBrings(s, a, ref, strict);
        assert a.id in s'.threads && Brings(s'.threads[a.id], ref, row'.head, strict);
      } else {
        ActKeepsGaps(s, a, ref);
        StaysBrought(s, a, ref, strict);
      }
    }
  }

  lemma StepConverging(s: State, a: Action, strict: bool)
    requires Inv(s) && Retriable(s, a) && Covered(s, a, strict)
    requires forall ref :: Converging(s, ref, strict)
    ensures forall ref :: Converging(Step(s, a), ref, strict)
  {
    if Enabled(s, a) {
      forall ref ensures Converging(Step(s, a), ref, strict) {
        ConvergingStays(s, a, ref, strict);
      }
    }
  }

  lemma {:induction false} RunConverging(s: State, actions: seq<Action>, strict: bool)
    requires Inv(s) && (forall ref :: Converging(s, ref, strict)) && CoveredRun(s, actions, strict)
    requires !s.closed && Close !in actions
    ensures forall ref :: Converging(Run(s, actions), ref, strict)
    decreases |actions|
  {
    if actions != [] {
      assert actions[0] in actions;
      StepInv(s, actions[0]);
      StepConverging(s, actions[0], strict);
      RunConverging(Step(s, actions[0]), actions[1..], strict);
    }
  }

  lemma {:induction false} OpenWasNeverClosed(s: State, actions: seq<Action>)
    requires !Run(s, actions).closed
    ensures !s.closed && Close !in actions
    decreases |actions|
  {
    if actions != [] {
      OpenWasNeverClosed(Step(s, actions[0]), actions[1..]);
      assert actions == [actions[0]] + actions[1..];
    }
  }

  // ----- The guarantees, over every interleaving -----

  /** While retries are open, a refused monitor has the timer armed, or a
      redelivery under way that will offer exactly its next event. */
  lemma RefusedIsNeverOrphaned(actions: seq<Action>, ref: Ref)
    ensures var s := Run(START, actions);
            RowOf(s, ref).refusals > 0 && !s.closed ==>
              RowOf(s, ref).applied < RowOf(s, ref).head && (s.timer || Reoffered(s, ref))
  {
    RunInv(START, actions);
    assert Owed(Run(START, actions), ref) && RowInv(RowOf(Run(START, actions), ref));
  }

  /** Once every thread has returned: what is applied is acknowledged, and what
      is not applied waits for the timer. */
  ghost predicate Settled(s: State, ref: Ref) {
    var row := RowOf(s, ref);
    row.acked == row.applied && (row.watched ==> row.applied == row.head || s.timer)
  }

  /** With every turn-away and every short read covered, a run at rest with
      retries open has left no monitor behind without a timer. */
  lemma ConvergesWhenCovered(actions: seq<Action>, ref: Ref, strict: bool)
    requires CoveredRun(START, actions, strict)
    requires Run(START, actions).threads == map[] && !Run(START, actions).closed
    ensures Settled(Run(START, actions), ref)
  {
    OpenWasNeverClosed(START, actions);
    RunInv(START, actions);
    RunConverging(START, actions, strict);
    var s := Run(START, actions);
    assert RowInv(RowOf(s, ref)) && Settling(s, ref) && Converging(s, ref, strict);
  }

  /** Who finds a refusal standing, or reads a slice that ends short, meets a
      retry that has yet to read this log: the armed timer, or another thread's
      redelivery on its way there. */
  ghost predicate MeetsARetry(s: State, a: Action) {
    GivesUp(s, a, true) ==>
      s.timer || exists w :: w in s.threads && w != a.id && Unread(s.threads[w], Act(s, a).ref)
  }

  predicate Unread(t: Thread, ref: Ref) {
    t.Fired? || ((t.Visiting? || t.Reading?) && ref in t.todo)
  }

  ghost predicate RetriedRun(s: State, actions: seq<Action>)
    decreases |actions|
  {
    actions == [] || (MeetsARetry(s, actions[0]) && RetriedRun(Step(s, actions[0]), actions[1..]))
  }

  lemma {:induction false} RetriedIsCovered(s: State, actions: seq<Action>)
    requires RetriedRun(s, actions)
    ensures CoveredRun(s, actions, true)
    decreases |actions|
  {
    if actions != [] {
      var a := actions[0];
      if GivesUp(s, a, true) && !s.timer {
        var w :| w in s.threads && w != a.id && Unread(s.threads[w], Act(s, a).ref);
        assert Brings(s.threads[w], Act(s, a).ref, RowOf(s, Act(s, a).ref).head, true);
      }
      RetriedIsCovered(Step(s, a), actions[1..]);
    }
  }

  /** Leaving what is unapplied to the retry is safe wherever a retry has not read
      the log yet, be it at a refusal or after a slice that ends short. */
  lemma ConvergesWhenRetried(actions: seq<Action>, ref: Ref)
    requires RetriedRun(START, actions)
    requires Run(START, actions).threads == map[] && !Run(START, actions).closed
    ensures Settled(Run(START, actions), ref)
  {
    RetriedIsCovered(START, actions);
    ConvergesWhenCovered(actions, ref, true);
  }

  // ----- A chat that refuses nothing -----

  predicate Accepting(a: Action) {
    (a.Offer? || a.Deliver?) ==> a.admits
  }

  ghost predicate NeverRefused(s: State) {
    !s.timer && forall ref :: RowOf(s, ref).refusals == 0
  }

  lemma StepNeverRefused(s: State, a: Action)
    requires NeverRefused(s) && Accepting(a)
    ensures NeverRefused(Step(s, a)) && Retriable(s, a)
  {
    forall ref ensures RowOf(Step(s, a), ref).refusals == 0 {
      assert RowOf(s, ref).refusals == 0;
      if Enabled(s, a) && !a.Close? {
        assert RowOf(s, Act(s, a).ref).refusals == 0;
      }
    }
  }

  lemma {:induction false} RunNeverRefused(s: State, actions: seq<Action>, strict: bool)
    requires Inv(s) && NeverRefused(s) && (forall ref :: Converging(s, ref, strict)) && CoveredRun(s, actions, strict)
    requires forall a :: a in actions ==> Accepting(a)
    ensures NeverRefused(Run(s, actions)) && forall ref :: Converging(Run(s, actions), ref, strict)
    decreases |actions|
  {
    if actions != [] {
      var a := actions[0];
      assert a in actions;
      StepInv(s, a);
      StepNeverRefused(s, a);
      StepConverging(s, a, strict);
      RunNeverRefused(Step(s, a), actions[1..], strict);
    }
  }

  /** A chat that refuses nothing: however appends, watches and redeliveries
      interleave, when they have all returned every monitor has applied and
      acknowledged its whole log, unless a slice ended short with nobody else to
      read on. */
  lemma LocalDeliveryConverges(actions: seq<Action>, ref: Ref, strict: bool)
    requires CoveredRun(START, actions, strict) && Run(START, actions).threads == map[]
    requires forall a :: a in actions ==> Accepting(a)
    ensures var row := RowOf(Run(START, actions), ref); row.watched ==> row.acked == row.applied == row.head
  {
    RunInv(START, actions);
    RunNeverRefused(START, actions, strict);
    var s := Run(START, actions);
    assert RowInv(RowOf(s, ref)) && Settling(s, ref) && Converging(s, ref, strict);
  }

  /** In particular, where every read reaches the head. */
  ghost predicate NeverShort(s: State, actions: seq<Action>)
    decreases |actions|
  {
    actions == [] || (!ReadsShort(s, actions[0]) && NeverShort(Step(s, actions[0]), actions[1..]))
  }

  lemma {:induction false} WholeReadsAreCovered(s: State, actions: seq<Action>)
    requires NeverRefused(s) && NeverShort(s, actions) && forall a :: a in actions ==> Accepting(a)
    ensures CoveredRun(s, actions, true)
    decreases |actions|
  {
    if actions != [] {
      var a := actions[0];
      assert a in actions;
      StepNeverRefused(s, a);
      if a.Ask? && Enabled(s, a) {
        assert RowOf(s, s.threads[a.id].ref).refusals == 0;
      }
      WholeReadsAreCovered(Step(s, a), actions[1..]);
    }
  }
}
