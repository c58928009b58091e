/** One lock per lane, in a map that creates an entry for the first caller of a
    lane and deletes it with the last. */
module LaneLocks {
  import opened Basics

  datatype Lane = Page | Tab(number: int) | NewTab(operation: nat)

  // ----- The critical sections of the map's own mutex -----

  class LaneLock {
    var users: nat

    constructor ()
      ensures users == 0
    {
      users := 0;
    }
  }

  class Locks {
    var lanes: map<Lane, LaneLock>

    ghost predicate Valid()
      reads this, lanes.Values
    {
      && (forall a, b :: a in lanes && b in lanes && a != b ==> lanes[a] != lanes[b])
      && (forall lane :: lane in lanes ==> lanes[lane].users > 0)
    }

    function UsersOn(lane: Lane): nat
      reads this, lanes.Values
    {
      if lane in lanes then lanes[lane].users else 0
    }

    constructor ()
      ensures Valid() && lanes == map[]
    {
      lanes := map[];
    }

    /** A caller arrives: it will wait on the entry the map holds for its lane. */
    method Arrive(lane: Lane) returns (entry: LaneLock)
      requires Valid()
      modifies this, lanes.Values
      ensures Valid() && lane in lanes && lanes[lane] == entry
      ensures if lane in old(lanes) then lanes == old(lanes)
              else fresh(entry) && lanes == old(lanes)[lane := entry]
      ensures forall other :: UsersOn(other) == old(UsersOn(other)) + if other == lane then 1 else 0
    {
      if lane in lanes {
        entry := lanes[lane];
      } else {
        entry := new LaneLock();
        lanes := lanes[lane := entry];
      }
      entry.users := entry.users + 1;
    }

    /** A caller is gone; the last one takes the entry with it. */
    method Depart(lane: Lane, entry: LaneLock)
      requires Valid() && lane in lanes && lanes[lane] == entry
      modifies this, lanes.Values
      ensures Valid()
      ensures forall other :: UsersOn(other) == old(UsersOn(other)) - if other == lane then 1 else 0
      ensures forall other :: other in lanes ==> other in old(lanes) && lanes[other] == old(lanes[other])
    {
      entry.users := entry.users - 1;
      if entry.users == 0 {
        lanes := lanes - {lane};
      }
    }
  }

  // ----- Any number of threads -----

  type Tid = nat

  /** A thread holds the entry it was given, whatever the map does later. */
  datatype Thread =
    | Waiting(lane: Lane, entry: nat)
    | Inside(lane: Lane, entry: nat)
    | Leaving(lane: Lane, entry: nat)

  /** `entries` are all the entries ever created: the callers counted on each,
      and who holds its lock. */
  datatype Entry = Entry(users: nat, holder: Option<Tid>)

  datatype State = State(lanes: map<Lane, nat>, entries: seq<Entry>, threads: map<Tid, Thread>)

  const START := State(map[], [], map[])

  datatype Action = Arrive(t: Tid, lane: Lane) | Acquire(t: Tid) | Release(t: Tid) | Depart(t: Tid)

  predicate Enabled(s: State, a: Action) {
    match a
    case Arrive(t, _) => t !in s.threads
    case Acquire(t) =>
      t in s.threads && s.threads[t].Waiting? && s.threads[t].entry < |s.entries|
      && s.entries[s.threads[t].entry].holder == None
    case Release(t) => t in s.threads && s.threads[t].Inside? && s.threads[t].entry < |s.entries|
    case Depart(t) =>
      t in s.threads && s.threads[t].Leaving? && s.threads[t].entry < |s.entries|
          && s.entries[s.threads[t].entry].users > 0
  }

  function Step(s: State, a: Action): State {
    if !Enabled(s, a) then s else
    match a
    case Arrive(t, lane) =>
      if lane in s.lanes && s.lanes[lane] < |s.entries| then
        var e := s.lanes[lane];
        State(s.lanes, s.entries[e := s.entries[e].(users := s.entries[e].users + 1)], s.threads[t := Waiting(lane, e)])
      else
        State(s.lanes[lane := |s.entries|], s.entries + [Entry(1, None)], s.threads[t := Waiting(lane, |s.entries|)])
    case Acquire(t) =>
      var e := s.threads[t].entry;
      State(s.lanes, s.entries[e := s.entries[e].(holder := Some(t))], s.threads[t := Inside(s.threads[t].lane, e)])
    case Release(t) =>
      var e := s.threads[t].entry;
      State(s.lanes, s.entries[e := s.entries[e].(holder := None)], s.threads[t := Leaving(s.threads[t].lane, e)])
    case Depart(t) =>
      var e, users := s.threads[t].entry, s.entries[s.threads[t].entry].users - 1;
      State(if users == 0 then s.lanes - {s.threads[t].lane} else s.lanes,
            s.entries[e := s.entries[e].(users := users)], s.threads - {t})
  }

  ghost function Run(s: State, actions: seq<Action>): State
    decreases |actions|
  {
    if actions == [] then s else Run(Step(s, actions[0]), actions[1..])
  }

  ghost function On(s: State, lane: Lane): set<Tid> {
    set t | t in s.threads && s.threads[t].lane == lane
  }

  /** Every thread refers to the entry now in the map, and lanes share none. */
  ghost predicate Placed(s: State) {
    && (forall t :: t in s.threads ==>
          s.threads[t].lane in s.lanes && s.lanes[s.threads[t].lane] == s.threads[t].entry)
    && (forall lane :: lane in s.lanes ==> s.lanes[lane] < |s.entries|)
    && (forall a, b :: a in s.lanes && b in s.lanes && s.lanes[a] == s.lanes[b] ==> a == b)
  }

  /** An entry in the map counts its threads, and has some. */
  ghost predicate Counted(s: State)
    requires Placed(s)
  {
    forall lane :: lane in s.lanes ==> s.entries[s.lanes[lane]].users == |On(s, lane)| > 0
  }

  predicate HeldByThread(s: State, lane: Lane)
    requires lane in s.lanes && s.lanes[lane] < |s.entries|
  {
    match s.entries[s.lanes[lane]].holder
    case None => true
    case Some(t) => t in s.threads && s.threads[t] == Inside(lane, s.lanes[lane])
  }

  /** An entry is held by exactly the thread inside. */
  ghost predicate Held(s: State)
    requires Placed(s)
  {
    && (forall lane :: lane in s.lanes ==> HeldByThread(s, lane))
    && (forall t :: t in s.threads && s.threads[t].Inside? ==> s.entries[s.threads[t].entry].holder == Some(t))
  }

  ghost predicate Inv(s: State) {
    Placed(s) && Counted(s) && Held(s)
  }

  lemma OnGrows(s: State, s': State, t: Tid, lane: Lane)
    requires t !in s.threads && t in s'.threads && s'.threads == s.threads[t := s'.threads[t]]
    ensures On(s', lane) == if s'.threads[t].lane == lane then On(s, lane) + {t} else On(s, lane)
  {
  }

  lemma OnShrinks(s: State, s': State, t: Tid, lane: Lane)
    requires t in s.threads && s'.threads == s.threads - {t}
    ensures On(s', lane) == if s.threads[t].lane == lane then On(s, lane) - {t} else On(s, lane)
    ensures s.threads[t].lane == lane ==> t in On(s, lane)
  {
  }

  lemma ArrivePlaced(s: State, t: Tid, lane: Lane)
    requires Placed(s) && t !in s.threads
    ensures Placed(Step(s, Arrive(t, lane)))
  {
  }

  lemma ArriveAt(s: State, t: Tid, lane: Lane, other: Lane)
    requires Placed(s) && t !in s.threads && other in Step(s, Arrive(t, lane)).lanes && other != lane
    ensures var s' := Step(s, Arrive(t, lane));
            other in s.lanes && s.lanes[other] == s'.lanes[other]
            && s.entries[s.lanes[other]] == s'.entries[s.lanes[other]] && On(s', other) == On(s, other)
  {
    OnGrows(s, Step(s, Arrive(t, lane)), t, other);
  }

  lemma ArriveCountedHere(s: State, t: Tid, lane: Lane)
    requires Placed(s) && Counted(s) && t !in s.threads && Placed(Step(s, Arrive(t, lane)))
    ensures var s' := Step(s, Arrive(t, lane)); s'.entries[s'.lanes[lane]].users == |On(s', lane)| > 0
  {
    OnGrows(s, Step(s, Arrive(t, lane)), t, lane);
    if lane !in s.lanes {
      assert On(s, lane) == {};
    }
  }

  lemma ArriveCounted(s: State, t: Tid, lane: Lane)
    requires Placed(s) && Counted(s) && t !in s.threads && Placed(Step(s, Arrive(t, lane)))
    ensures Counted(Step(s, Arrive(t, lane)))
  {
    var s' := Step(s, Arrive(t, lane));
    ArriveCountedHere(s, t, lane);
    forall other | other in s'.lanes && other != lane
      ensures s'.entries[s'.lanes[other]].users == |On(s', other)| > 0
    {
      ArriveAt(s, t, lane, other);
    }
  }

  lemma ArriveHeldHere(s: State, t: Tid, lane: Lane)
    requires Placed(s) && Held(s) && t !in s.threads && Placed(Step(s, Arrive(t, lane)))
    ensures HeldByThread(Step(s, Arrive(t, lane)), lane)
  {
    assert lane in s.lanes ==> HeldByThread(s, lane);
  }

  lemma ArriveHeldOther(s: State, t: Tid, lane: Lane, other: Lane)
    requires Placed(s) && Held(s) && t !in s.threads && Placed(Step(s, Arrive(t, lane)))
    requires other in Step(s, Arrive(t, lane)).lanes && other != lane
    ensures HeldByThread(Step(s, Arrive(t, lane)), other)
  {
    ArriveAt(s, t, lane, other);
    assert HeldByThread(s, other);
  }

  lemma ArriveInside(s: State, t: Tid, lane: Lane, u: Tid)
    requires Placed(s) && Held(s) && t !in s.threads && u in s.threads && s.threads[u].Inside?
    ensures var s' := Step(s, Arrive(t, lane));
            s'.threads[u] == s.threads[u] && s.threads[u].entry < |s'.entries|
            && s'.entries[s.threads[u].entry].holder == Some(u)
  {
    assert s.lanes[s.threads[u].lane] == s.threads[u].entry;
  }

  lemma ArriveHeld(s: State, t: Tid, lane: Lane)
    requires Placed(s) && Held(s) && t !in s.threads && Placed(Step(s, Arrive(t, lane)))
    ensures Held(Step(s, Arrive(t, lane)))
  {
    var s' := Step(s, Arrive(t, lane));
    ArriveHeldHere(s, t, lane);
    forall other | other in s'.lanes && other != lane ensures HeldByThread(s', other) {
      ArriveHeldOther(s, t, lane, other);
    }
    forall u | u in s'.threads && s'.threads[u].Inside? ensures s'.entries[s'.threads[u].entry].holder == Some(u) {
      assert u != t && u in s.threads;
      ArriveInside(s, t, lane, u);
    }
  }

  lemma LockPlaced(s: State, a: Action)
    requires Placed(s) && Counted(s) && Enabled(s, a) && (a.Acquire? || a.Release?)
    ensures Placed(Step(s, a)) && Counted(Step(s, a))
  {
    var s' := Step(s, a);
    forall lane ensures On(s', lane) == On(s, lane) {
    }
  }

  lemma AcquireHeld(s: State, t: Tid)
    requires Placed(s) && Held(s) && Enabled(s, Acquire(t)) && Placed(Step(s, Acquire(t)))
    ensures Held(Step(s, Acquire(t)))
  {
    var s' := Step(s, Acquire(t));
    forall other | other in s'.lanes ensures HeldByThread(s', other) {
      assert HeldByThread(s, other);
    }
    forall u | u in s'.threads && s'.threads[u].Inside? ensures s'.entries[s'.threads[u].entry].holder == Some(u) {
      assert u != t ==> s.threads[u].entry != s.threads[t].entry;
    }
  }

  lemma ReleaseHeld(s: State, t: Tid)
    requires Placed(s) && Held(s) && Enabled(s, Release(t)) && Placed(Step(s, Release(t)))
    ensures Held(Step(s, Release(t)))
  {
    var s' := Step(s, Release(t));
    forall other | other in s'.lanes ensures HeldByThread(s', other) {
      assert HeldByThread(s, other);
    }
    forall u | u in s'.threads && s'.threads[u].Inside? ensures s'.entries[s'.threads[u].entry].holder == Some(u) {
      assert s.entries[s.threads[t].entry].holder == Some(t);
    }
  }

  lemma DepartPlaced(s: State, t: Tid)
    requires Placed(s) && Counted(s) && Enabled(s, Depart(t))
    ensures Placed(Step(s, Depart(t)))
  {
    var s' := Step(s, Depart(t));
    forall u | u in s'.threads
      ensures s'.threads[u].lane in s'.lanes && s'.lanes[s'.threads[u].lane] == s'.threads[u].entry
    {
      var lane := s.threads[t].lane;
      if s.threads[u].lane == lane {
        OnShrinks(s, s', t, lane);
        assert u in On(s', lane);
        assert |On(s, lane)| == |On(s', lane)| + 1 >= 2;
      }
    }
  }

  lemma DepartCounted(s: State, t: Tid)
    requires Placed(s) && Counted(s) && Enabled(s, Depart(t)) && Placed(Step(s, Depart(t)))
    ensures Counted(Step(s, Depart(t)))
  {
    var s' := Step(s, Depart(t));
    forall other | other in s'.lanes ensures s'.entries[s'.lanes[other]].users == |On(s', other)| > 0 {
      OnShrinks(s, s', t, other);
    }
  }

  lemma DepartHeld(s: State, t: Tid)
    requires Placed(s) && Held(s) && Enabled(s, Depart(t)) && Placed(Step(s, Depart(t)))
    ensures Held(Step(s, Depart(t)))
  {
    var s' := Step(s, Depart(t));
    assert forall e :: 0 <= e < |s.entries| ==> s'.entries[e].holder == s.entries[e].holder;
    forall other | other in s'.lanes ensures HeldByThread(s', other) {
      assert HeldByThread(s, other);
    }
    forall u | u in s'.threads && s'.threads[u].Inside? ensures s'.entries[s'.threads[u].entry].holder == Some(u) {
      assert s.entries[s.threads[u].entry].holder == Some(u);
    }
  }

  lemma ArriveInv(s: State, t: Tid, lane: Lane)
    requires Inv(s) && t !in s.threads
    ensures Inv(Step(s, Arrive(t, lane)))
  {
    ArrivePlaced(s, t, lane);
    ArriveCounted(s, t, lane);
    ArriveHeld(s, t, lane);
  }

  lemma LockInv(s: State, a: Action)
    requires Inv(s) && Enabled(s, a) && (a.Acquire? || a.Release?)
    ensures Inv(Step(s, a))
  {
    LockPlaced(s, a);
    if a.Acquire? {
      AcquireHeld(s, a.t);
    } else {
      ReleaseHeld(s, a.t);
    }
  }

  lemma DepartInv(s: State, t: Tid)
    requires Inv(s) && Enabled(s, Depart(t))
    ensures Inv(Step(s, Depart(t)))
  {
    DepartPlaced(s, t);
    DepartCounted(s, t);
    DepartHeld(s, t);
  }

  lemma StepInv(s: State, a: Action)
    requires Inv(s)
    ensures Inv(Step(s, a))
  {
    if Enabled(s, a) {
      if a.Arrive? {
        ArriveInv(s, a.t, a.lane);
      } else if a.Depart? {
        DepartInv(s, a.t);
      } else {
        LockInv(s, a);
      }
    }
  }

  lemma {:induction false} RunInv(s: State, actions: seq<Action>)
    requires Inv(s)
    ensures Inv(Run(s, actions))
    decreases |actions|
  {
    if actions != [] {
      StepInv(s, actions[0]);
      RunInv(Step(s, actions[0]), actions[1..]);
    }
  }

  function UsersOn(s: State, lane: Lane): nat {
    if lane in s.lanes && s.lanes[lane] < |s.entries| then s.entries[s.lanes[lane]].users else 0
  }

  /** The steps of the map's own mutex change the counts as `Locks` does; the
      steps of an entry's mutex leave them alone. */
  lemma StepCounts(s: State, a: Action, lane: Lane)
    requires Inv(s) && Enabled(s, a)
    ensures UsersOn(Step(s, a), lane) == UsersOn(s, lane)
              + (if a.Arrive? && a.lane == lane then 1 else 0)
              - (if a.Depart? && s.threads[a.t].lane == lane then 1 else 0)
  {
    if a.Arrive? && lane != a.lane && lane in s.lanes {
      ArriveAt(s, a.t, a.lane, lane);
    }
    if a.Depart? && lane in s.lanes {
      assert lane != s.threads[a.t].lane ==> s.lanes[lane] != s.lanes[s.threads[a.t].lane];
    }
  }

  /** A step moves no thread but its own. */
  lemma StepThreads(s: State, a: Action)
    requires Enabled(s, a)
    ensures var s' := Step(s, a);
            && (forall t :: t != a.t ==> (t in s.threads <==> t in s'.threads))
            && (forall t :: t != a.t && t in s.threads ==> s'.threads[t] == s.threads[t])
            && (a.t in s'.threads <==> !a.Depart?)
            && (a.Arrive? ==> s'.threads[a.t].lane == a.lane && s'.threads[a.t].Waiting?)
            && (a.Acquire? ==> s'.threads[a.t] == Inside(s.threads[a.t].lane, s.threads[a.t].entry))
            && (a.Release? ==> s'.threads[a.t] == Leaving(s.threads[a.t].lane, s.threads[a.t].entry))
  {
  }

  lemma InsideAlone(s: State, t: Tid, u: Tid)
    requires Inv(s) && t in s.threads && u in s.threads && s.threads[t].Inside? && s.threads[u].Inside?
    requires s.threads[t].lane == s.threads[u].lane
    ensures t == u
  {
    assert s.threads[t].entry == s.threads[u].entry;
  }

  /** A waiter whose lane holds nobody can enter, whoever is inside can leave, and
      whoever left can go: no lane is ever stuck. */
  lemma FreeLaneIsOpen(s: State, t: Tid)
    requires Inv(s) && t in s.threads && s.threads[t].Waiting?
    requires forall u :: u in s.threads && s.threads[u].lane == s.threads[t].lane ==> !s.threads[u].Inside?
    ensures Enabled(s, Acquire(t))
  {
    assert HeldByThread(s, s.threads[t].lane);
  }

  lemma InsideCanLeave(s: State, t: Tid)
    requires Inv(s) && t in s.threads && s.threads[t].Inside?
    ensures Enabled(s, Release(t))
  {
  }

  lemma LeavingCanGo(s: State, t: Tid)
    requires Inv(s) && t in s.threads && s.threads[t].Leaving?
    ensures Enabled(s, Depart(t))
  {
    assert s.entries[s.lanes[s.threads[t].lane]].users > 0;
  }

  // ----- The guarantees, over every interleaving -----

  /** At most one thread is inside a lane, however often its entry has been
      deleted and created again. */
  lemma MutualExclusion(actions: seq<Action>, t: Tid, u: Tid)
    requires var s := Run(START, actions);
             t in s.threads && u in s.threads && s.threads[t].Inside? && s.threads[u].Inside?
             && s.threads[t].lane == s.threads[u].lane
    ensures t == u
  {
    RunInv(START, actions);
    InsideAlone(Run(START, actions), t, u);
  }

  /** Every holder and waiter refers to the map's present entry, which counts
      exactly them; a lane nobody is on has no entry. */
  lemma EntriesCountTheirUsers(actions: seq<Action>, lane: Lane)
    ensures var s := Run(START, actions);
            && (lane in s.lanes <==> On(s, lane) != {})
            && (lane in s.lanes ==> s.lanes[lane] < |s.entries| && s.entries[s.lanes[lane]].users == |On(s, lane)|)
            && (forall t :: t in On(s, lane) ==> lane in s.lanes && s.threads[t].entry == s.lanes[lane])
  {
    RunInv(START, actions);
    var s := Run(START, actions);
    if lane in s.lanes {
      assert |On(s, lane)| > 0;
    } else {
      assert forall t :: t in s.threads ==> s.threads[t].lane != lane;
    }
  }

  /** A waiter is held up by a thread inside its own lane and by nothing else. */
  lemma LanesDoNotBlockEachOther(actions: seq<Action>, t: Tid)
    requires var s := Run(START, actions); t in s.threads && s.threads[t].Waiting?
    ensures var s := Run(START, actions);
            Enabled(s, Acquire(t)) <==> forall u :: u in On(s, s.threads[t].lane) ==> !s.threads[u].Inside?
  {
    RunInv(START, actions);
    var s := Run(START, actions);
    var e := s.entries[s.threads[t].entry];
    assert s.lanes[s.threads[t].lane] == s.threads[t].entry;
    if e.holder != None {
      assert e.holder == Some(e.holder.value) && e.holder.value in On(s, s.threads[t].lane);
    }
  }
}
