/** Where the outcomes of external mutations come from: which step writes which
    status, what a crash leaves, and what a call does when nothing stops it. */
module MutationOutcomes {
  import opened Basics
  import opened Mutation
  import LaneLocks

  function StatusOf(s: State, op: Op): Option<Status> {
    if op in s.journal then Some(s.journal[op].status) else None
  }

  predicate IsOf(s: State, a: Action, op: Op) {
    Enabled(s, a) && !a.Crash? && !a.Begin? && s.calls[a.t].op == op
  }

  /** A call of the operation hears a receipt of this outcome, and it is stored. */
  predicate HearsReceipt(s: State, a: Action, op: Op, failed: bool) {
    IsOf(s, a, op) && a.Hear? && a.reply == Receipt(failed) && a.persisted
  }

  /** A call of the operation gives up on it: cancelled once claimed, or left
      with no reply that can be believed. */
  predicate LosesTrack(s: State, a: Action, op: Op) {
    IsOf(s, a, op) && ((a.Cancel? && a.persisted) || (a.Hear? && a.reply == Lost && a.persisted))
  }

  // ----- One step of an operation's entry -----

  /** The journal takes a receipt that settles an open entry or repeats what a
      settled one holds, and no other; a lost reply leaves an open entry ambiguous
      and is not taken elsewhere. */
  lemma ReceiptIsTakenIff(status: Status, failed: bool, after: Status)
    ensures ReceiptApplied(status, failed) == Some(after) <==>
              after == (if failed then Failed else Completed) && status in {Dispatched, Ambiguous, after}
    ensures AmbiguousApplied(status) == Some(after) <==> after == Ambiguous && status in {Dispatched, Ambiguous}
  {
  }

  lemma AbsentMoves(s: State, a: Action, op: Op)
    requires op !in s.journal
    ensures StatusOf(Step(s, a), op) == if IsOf(s, a, op) && a.Record? && a.fenced && a.accepted then Some(Pending)
                                        else None
  {
  }

  lemma PendingMoves(s: State, a: Action, op: Op)
    requires StatusOf(s, op) == Some(Pending)
    ensures StatusOf(Step(s, a), op) == Some(if IsOf(s, a, op) && a.Claim? && a.persisted then Dispatched else Pending)
  {
  }

  lemma OthersStay(s: State, a: Action, op: Op)
    requires op in s.journal && !a.Crash? && !IsOf(s, a, op)
    ensures StatusOf(Step(s, a), op) == StatusOf(s, op)
  {
  }

  lemma HeardMoves(entry: Entry, reply: Reply, persisted: bool)
    requires entry.status == Dispatched || entry.status == Ambiguous
    ensures Heard(entry, reply, persisted).entry ==
            if !persisted then None
            else Some(entry.(status := if reply == Lost then Ambiguous
                                       else if reply.failed then Failed else Completed))
  {
  }

  lemma OwnEntry(s: State, a: Action, op: Op)
    requires IsOf(s, a, op) && op in s.journal && !Locking(a)
    ensures StatusOf(Step(s, a), op) == if Work(s, a).entry.Some? then Some(Work(s, a).entry.value.status)
                                        else StatusOf(s, op)
  {
  }

  lemma QuietWork(s: State, a: Action, op: Op)
    requires IsOf(s, a, op) && StatusOf(s, op) in {Some(Dispatched), Some(Ambiguous)}
    requires !Locking(a) && !a.Hear? && !a.Cancel?
    ensures Work(s, a).entry == None
  {
    assert s.journal[op].status == Dispatched || s.journal[op].status == Ambiguous;
  }

  lemma OwnUnknownMoves(s: State, a: Action, op: Op)
    requires IsOf(s, a, op) && StatusOf(s, op) in {Some(Dispatched), Some(Ambiguous)}
    ensures StatusOf(Step(s, a), op) == if HearsReceipt(s, a, op, true) then Some(Failed)
                                        else if HearsReceipt(s, a, op, false) then Some(Completed)
                                        else if LosesTrack(s, a, op) then Some(Ambiguous)
                                        else StatusOf(s, op)
  {
    if !Locking(a) {
      OwnEntry(s, a, op);
      if a.Hear? || a.Cancel? {
        HeardMoves(s.journal[op], if a.Hear? then a.reply else Lost, a.persisted);
      } else {
        QuietWork(s, a, op);
      }
    }
  }

  lemma UnknownMoves(s: State, a: Action, op: Op)
    requires StatusOf(s, op) in {Some(Dispatched), Some(Ambiguous)}
    ensures StatusOf(Step(s, a), op) == if HearsReceipt(s, a, op, true) then Some(Failed)
                                        else if HearsReceipt(s, a, op, false) then Some(Completed)
                                        else if a.Crash? || LosesTrack(s, a, op) then Some(Ambiguous)
                                        else StatusOf(s, op)
  {
    if IsOf(s, a, op) {
      OwnUnknownMoves(s, a, op);
    } else if !a.Crash? {
      OthersStay(s, a, op);
    }
  }

  lemma OwnKnownStays(s: State, a: Action, op: Op)
    requires IsOf(s, a, op) && StatusOf(s, op) in {Some(Completed), Some(Failed)}
    ensures StatusOf(Step(s, a), op) == StatusOf(s, op)
  {
  }

  lemma KnownMoves(s: State, a: Action, op: Op)
    requires StatusOf(s, op) in {Some(Completed), Some(Failed)}
    ensures StatusOf(Step(s, a), op) == StatusOf(s, op)
  {
    if IsOf(s, a, op) {
      OwnKnownStays(s, a, op);
    } else if !a.Crash? {
      OthersStay(s, a, op);
    }
  }

  /** Every move of an entry, by the step that makes it: recorded by an admitted
      call, claimed before it is sent, ambiguous after a crash or a lost reply,
      and terminal only by a receipt. Anything else leaves it alone. */
  lemma EntryMoves(s: State, a: Action, op: Op)
    ensures var before, after := StatusOf(s, op), StatusOf(Step(s, a), op);
            && (before == None ==>
                  after == if IsOf(s, a, op) && a.Record? && a.fenced && a.accepted then Some(Pending) else None)
            && (before == Some(Pending) ==>
                  after == Some(if IsOf(s, a, op) && a.Claim? && a.persisted then Dispatched else Pending))
            && (before in {Some(Dispatched), Some(Ambiguous)} ==>
                  after == if HearsReceipt(s, a, op, true) then Some(Failed)
                           else if HearsReceipt(s, a, op, false) then Some(Completed)
                           else if a.Crash? || LosesTrack(s, a, op) then Some(Ambiguous)
                           else before)
            && (before in {Some(Completed), Some(Failed)} ==> after == before)
  {
    var before := StatusOf(s, op);
    if before == None {
      AbsentMoves(s, a, op);
    } else if before == Some(Pending) {
      PendingMoves(s, a, op);
    } else if before in {Some(Dispatched), Some(Ambiguous)} {
      UnknownMoves(s, a, op);
    } else {
      assert before.value != Dispatched && before.value != Ambiguous;
      KnownMoves(s, a, op);
    }
  }

  lemma {:induction false} RunLast(s: State, actions: seq<Action>)
    requires actions != []
    ensures var n := |actions| - 1; Run(s, actions) == Step(Run(s, actions[..n]), actions[n])
    decreases |actions|
  {
    var n := |actions| - 1;
    if n == 0 {
      assert actions[..0] == [] && Run(Step(s, actions[0]), actions[1..]) == Step(s, actions[0]);
    } else {
      RunLast(Step(s, actions[0]), actions[1..]);
      assert actions[1..][..n - 1] == actions[..n][1..] && actions[1..][n - 1] == actions[n];
    }
  }

  /** No outcome is invented: an entry is completed or failed only if a call of
      its operation heard the receipt that says so. */
  lemma {:induction false} OutcomeWasHeard(actions: seq<Action>, op: Op, failed: bool)
    requires StatusOf(Run(START, actions), op) == Some(if failed then Failed else Completed)
    ensures exists i :: 0 <= i < |actions| && HearsReceipt(Run(START, actions[..i]), actions[i], op, failed)
    decreases |actions|
  {
    if actions != [] {
      var n := |actions| - 1;
      var before := actions[..n];
      RunLast(START, actions);
      EntryMoves(Run(START, before), actions[n], op);
      if !HearsReceipt(Run(START, actions[..n]), actions[n], op, failed) {
        OutcomeWasHeard(before, op, failed);
        var i :| 0 <= i < n && HearsReceipt(Run(START, before[..i]), before[i], op, failed);
        assert before[..i] == actions[..i] && before[i] == actions[i];
      }
    }
  }

  lemma HeardIsSettled(s: State, a: Action, op: Op, failed: bool)
    requires HearsReceipt(s, a, op, failed) && CallInv(s, s.calls[a.t])
    ensures StatusOf(Step(s, a), op) == Some(if failed then Failed else Completed)
    ensures (op, failed) in Step(s, a).results
  {
    var entry := s.journal[op];
    assert entry.status in {Dispatched, Ambiguous};
    assert Work(s, a) == Heard(entry, Receipt(failed), true);
  }

  /** And none is dropped: a receipt heard settles the entry, and its caller is
      told it. */
  lemma ReceiptSettles(actions: seq<Action>, a: Action, op: Op, failed: bool)
    requires HearsReceipt(Run(START, actions), a, op, failed)
    ensures var t := Step(Run(START, actions), a);
            StatusOf(t, op) == Some(if failed then Failed else Completed) && (op, failed) in t.results
  {
    RunInv(START, actions);
    HeardIsSettled(Run(START, actions), a, op, failed);
  }

  // ----- A crash -----

  ghost predicate NeverHeard(s: State, actions: seq<Action>, op: Op)
    decreases |actions|
  {
    actions == [] || (!HearsReceipt(s, actions[0], op, true) && !HearsReceipt(s, actions[0], op, false)
                      && NeverHeard(Step(s, actions[0]), actions[1..], op))
  }

  lemma {:induction false} AmbiguousStays(s: State, actions: seq<Action>, op: Op)
    requires StatusOf(s, op) == Some(Ambiguous) && NeverHeard(s, actions, op)
    ensures StatusOf(Run(s, actions), op) == Some(Ambiguous)
    decreases |actions|
  {
    if actions != [] {
      EntryMoves(s, actions[0], op);
      AmbiguousStays(Step(s, actions[0]), actions[1..], op);
    }
  }

  /** What had been dispatched when the daemon stopped is ambiguous from the next
      boot on, until a receipt for it is heard; what had not is as it was. */
  lemma CrashLeavesAmbiguous(s: State, after: seq<Action>, op: Op)
    requires StatusOf(s, op) == Some(Dispatched) && NeverHeard(Step(s, Crash), after, op)
    ensures StatusOf(Run(Step(s, Crash), after), op) == Some(Ambiguous)
  {
    EntryMoves(s, Crash, op);
    AmbiguousStays(Step(s, Crash), after, op);
  }

  lemma CrashEndsEveryCall(s: State)
    ensures Step(s, Crash).calls == map[] && Step(s, Crash).locks == LaneLocks.START
    ensures Step(s, Crash).dispatches == s.dispatches && Step(s, Crash).results == s.results
    ensures Step(s, Crash).journal.Keys == s.journal.Keys
  {
  }

  // ----- What is sent -----

  /** The controller decides only of what has not been sent: a fenced call of its
      own request goes on when it is admitted, or when its operation is past
      pending, whatever the controller says; otherwise it is turned away. */
  lemma AdmissionIff(s: State, a: Action, op: Op)
    requires IsOf(s, a, op) && a.Inspect?
    ensures var goesOn := a.fenced && (op in s.journal ==> s.journal[op].request == s.calls[a.t].request)
                          && (a.admits || (op in s.journal && s.journal[op].status in {Dispatched, Ambiguous, Completed,
                                                                                       Failed}));
            && SameRecord(s, Step(s, a))
            && Step(s, a).calls[a.t].phase == if goesOn then Admitted else Returning
  {
    assert op in s.journal ==> (s.journal[op].status in {Dispatched, Ambiguous, Completed, Failed}
                                <==> s.journal[op].status != Pending);
  }

  ghost predicate NeverAdmitted(s: State, actions: seq<Action>, op: Op)
    decreases |actions|
  {
    actions == [] || ((IsOf(s, actions[0], op) && actions[0].Inspect? ==> !actions[0].fenced || !actions[0].admits)
                      && NeverAdmitted(Step(s, actions[0]), actions[1..], op))
  }

  ghost predicate Untouched(s: State, op: Op) {
    && op !in s.journal && s.dispatches[op] == 0 && s.readbacks[op] == 0
    && forall t :: t in s.calls && s.calls[t].op == op ==>
         s.calls[t].phase.Queued? || s.calls[t].phase.Inspecting? || s.calls[t].phase.Returning?
  }

  /** A call the fence or the controller refuses is not recorded, and nothing is
      sent for it. */
  lemma {:induction false} RefusedIsNeverSent(s: State, actions: seq<Action>, op: Op)
    requires Untouched(s, op) && NeverAdmitted(s, actions, op)
    ensures Untouched(Run(s, actions), op)
    decreases |actions|
  {
    if actions != [] {
      UntouchedStays(s, actions[0], op);
      RefusedIsNeverSent(Step(s, actions[0]), actions[1..], op);
    }
  }

  lemma UntouchedStays(s: State, a: Action, op: Op)
    requires Untouched(s, op)
    requires IsOf(s, a, op) && a.Inspect? ==> !a.fenced || !a.admits
    ensures Untouched(Step(s, a), op)
  {
    if IsOf(s, a, op) {
      OwnUntouched(s, a, op);
    } else if !a.Crash? {
      OtherUntouched(s, a, op);
    }
  }

  lemma OtherUntouched(s: State, a: Action, op: Op)
    requires Untouched(s, op) && !IsOf(s, a, op) && !a.Crash?
    ensures Untouched(Step(s, a), op)
  {
    if Enabled(s, a) {
      if Locking(a) {
        QueueUntouched(s, a, op);
      } else {
        WorkUntouched(s, a.t, Work(s, a), op);
      }
    }
  }

  lemma QueueUntouched(s: State, a: Action, op: Op)
    requires Untouched(s, op) && Enabled(s, a) && Locking(a)
    ensures Untouched(Locked(s, a), op)
  {
  }

  lemma WorkUntouched(s: State, t: Tid, e: Effect, op: Op)
    requires Untouched(s, op) && t in s.calls && s.calls[t].op != op
    ensures Untouched(After(s, t, e), op)
  {
  }

  lemma OwnUntouched(s: State, a: Action, op: Op)
    requires Untouched(s, op) && IsOf(s, a, op) && (a.Inspect? ==> !a.fenced || !a.admits)
    ensures Untouched(Step(s, a), op)
  {
    assert a.Acquire? || a.Inspect? || a.Release? || a.Depart?;
  }

  /** Nothing is sent but by its own step: one dispatch, or one readback, of the
      call's operation. */
  lemma SendsAreCounted(s: State, a: Action)
    ensures var t := Step(s, a);
            && t.dispatches == (if Enabled(s, a) && a.Dispatch? then s.dispatches + multiset{s.calls[a.t].op}
                                else s.dispatches)
            && t.readbacks == (if Enabled(s, a) && a.Readback? && a.available
                               then s.readbacks + multiset{s.calls[a.t].op} else s.readbacks)
  {
  }

  // ----- Lanes -----

  /** A call makes one attempt: whatever comes of it, an answer, a reply, a lost
      one, a cancellation, a claim or a readback that cannot be made, it returns to
      its caller, and a call that returns does nothing but give its lane back. */
  lemma OneAttempt(s: State, a: Action)
    requires Enabled(s, a) && !a.Crash? && !a.Begin?
    ensures a.Answer? || a.Hear? || a.Cancel? || (a.Readback? && !a.available)
            || (a.Claim? && !a.persisted && s.journal[s.calls[a.t].op].status == Pending) ==>
              Step(s, a).calls[a.t].phase == Returning
    ensures s.calls[a.t].phase == Returning ==>
              (a.Release? || a.Depart?)
              && Step(s, a).journal == s.journal && Step(s, a).dispatches == s.dispatches
              && Step(s, a).readbacks == s.readbacks && Step(s, a).results == s.results
  {
  }

  /** Two calls share a lane when both act on the page at hand, both name one
      tab, or both open a tab for one operation. */
  lemma SharedLaneIff(a: Request, x: Op, b: Request, y: Op)
    ensures LaneOf(a, x) == LaneOf(b, y) <==>
              || (a.browser && a.newTab && b.browser && b.newTab && x == y)
              || (a.browser && !a.newTab && a.tab.Some? && b.browser && !b.newTab && b.tab == a.tab)
              || ((!a.browser || (!a.newTab && a.tab.None?)) && (!b.browser || (!b.newTab && b.tab.None?)))
  {
  }

  predicate Busy(phase: Phase) {
    !phase.Queued? && !phase.Returning?
  }

  /** Of two calls on one tab, at most one is past the queue and not on its way
      out, whatever their operations. */
  lemma OneCallPerTab(actions: seq<Action>, t: Tid, u: Tid, tab: int)
    requires var s := Run(START, actions);
             && t in s.calls && u in s.calls && Busy(s.calls[t].phase) && Busy(s.calls[u].phase)
             && s.calls[t].request.browser && !s.calls[t].request.newTab && s.calls[t].request.tab == Some(tab)
             && s.calls[u].request.browser && !s.calls[u].request.newTab && s.calls[u].request.tab == Some(tab)
    ensures t == u
  {
    RunInv(START, actions);
    var s := Run(START, actions);
    assert Laned(s, t) && Laned(s, u);
    LaneLocks.InsideAlone(s.locks, t, u);
  }

  // ----- A call that nothing stops -----

  lemma {:induction false} RunJoin(s: State, before: seq<Action>, after: seq<Action>)
    ensures Run(s, before + after) == Run(Run(s, before), after)
    decreases |before|
  {
    if before == [] {
      assert before + after == after;
    } else {
      assert (before + after)[1..] == before[1..] + after;
      RunJoin(Step(s, before[0]), before[1..], after);
    }
  }

  lemma Extend(s: State, actions: seq<Action>, a: Action) returns (t: State, longer: seq<Action>)
    requires s == Run(START, actions)
    ensures t == Step(s, a) && longer == actions + [a] && t == Run(START, longer)
  {
    RunJoin(START, actions, [a]);
    assert [a][1..] == [];
    assert Run(Step(s, a), []) == Step(s, a);
    t, longer := Step(s, a), actions + [a];
  }

  /** Nobody is inside the lane the call will take. */
  ghost predicate Free(s: State, request: Request, op: Op) {
    forall u :: u in s.locks.threads && s.locks.threads[u].Inside? ==>
      s.locks.threads[u].lane != LaneOf(request, op)
  }

  /** But for the one call, its lane and what it writes, a state as it was. */
  ghost predicate SameRecord(s: State, t: State) {
    t.journal == s.journal && t.dispatches == s.dispatches && t.readbacks == s.readbacks && t.results == s.results
  }

  lemma Queues(s: State, run: seq<Action>, t: Tid, op: Op, request: Request) returns (u: State, actions: seq<Action>)
    requires s == Run(START, run) && t !in s.calls
    ensures u == Run(START, actions) && SameRecord(s, u) && u.calls == s.calls[t := Call(op, request, Queued)]
    ensures t in u.locks.threads && u.locks.threads[t].Waiting? && u.locks.threads[t].lane == LaneOf(request, op)
    ensures forall k :: k != t && k in u.locks.threads ==>
              k in s.locks.threads && u.locks.threads[k] == s.locks.threads[k]
  {
    RunInv(START, run);
    u, actions := Extend(s, run, Begin(t, op, request));
    LaneLocks.StepThreads(s.locks, LaneLocks.Arrive(t, LaneOf(request, op)));
  }

  lemma CanEnter(s: State, run: seq<Action>, t: Tid)
    requires s == Run(START, run) && t in s.calls && s.calls[t].phase.Queued?
    requires t in s.locks.threads
    requires forall k :: k in s.locks.threads && s.locks.threads[k].Inside? ==>
               s.locks.threads[k].lane != s.locks.threads[t].lane
    ensures Enabled(s, Acquire(t))
  {
    RunInv(START, run);
    assert Laned(s, t);
    LaneLocks.FreeLaneIsOpen(s.locks, t);
  }

  /** It takes its lane. */
  lemma Enters(s: State, run: seq<Action>, t: Tid, op: Op, request: Request) returns (u: State, actions: seq<Action>)
    requires s == Run(START, run) && t !in s.calls && Free(s, request, op)
    ensures u == Run(START, actions) && u.calls == s.calls[t := Call(op, request, Inspecting)] && SameRecord(s, u)
    ensures Holds(u, t)
  {
    u, actions := Queues(s, run, t, op, request);
    CanEnter(u, actions, t);
    u, actions := Extend(u, actions, Acquire(t));
  }

  predicate Holds(s: State, t: Tid) {
    t in s.calls && t in s.locks.threads && s.locks.threads[t].Inside?
  }

  /** Admitted, it finds its operation recorded or records it. */
  lemma Recorded(s: State, run: seq<Action>, t: Tid) returns (u: State, actions: seq<Action>)
    requires s == Run(START, run) && Holds(s, t) && s.calls[t].phase.Inspecting?
    requires s.calls[t].op in s.journal ==> s.journal[s.calls[t].op].request == s.calls[t].request
    ensures var call := s.calls[t];
            && u == Run(START, actions) && u.locks == s.locks
            && u.calls == s.calls[t := call.(phase := Phase.Recorded)]
            && u.journal == (if call.op in s.journal then s.journal
                             else s.journal[call.op := Entry(call.request, Pending)])
            && u.dispatches == s.dispatches && u.readbacks == s.readbacks && u.results == s.results
  {
    u, actions := Extend(s, run, Inspect(t, true, true));
    u, actions := Extend(u, actions, Record(t, true, true));
  }

  /** It claims what is pending and sends it. */
  lemma Sent(s: State, run: seq<Action>, t: Tid) returns (u: State, actions: seq<Action>)
    requires s == Run(START, run) && Holds(s, t) && s.calls[t].phase.Recorded?
    requires s.calls[t].op in s.journal && s.journal[s.calls[t].op].status == Pending
    ensures var call := s.calls[t];
            && u == Run(START, actions) && u.locks == s.locks
            && u.calls == s.calls[t := call.(phase := Dispatching)]
            && u.journal == s.journal[call.op := s.journal[call.op].(status := Dispatched)]
            && u.dispatches == s.dispatches + multiset{call.op}
            && u.readbacks == s.readbacks && u.results == s.results
  {
    u, actions := Extend(s, run, Claim(t, true));
    u, actions := Extend(u, actions, Dispatch(t));
  }

  /** Or asks again for the receipt of what had been sent. */
  lemma AskedAgain(s: State, run: seq<Action>, t: Tid) returns (u: State, actions: seq<Action>)
    requires s == Run(START, run) && Holds(s, t) && s.calls[t].phase.Recorded?
    requires s.calls[t].op in s.journal && s.journal[s.calls[t].op].status in {Dispatched, Ambiguous}
    ensures var call := s.calls[t];
            && u == Run(START, actions) && u.locks == s.locks
            && u.calls == s.calls[t := call.(phase := ReadingBack(s.journal[call.op].status))]
            && u.journal == s.journal && u.dispatches == s.dispatches
            && u.readbacks == s.readbacks + multiset{call.op} && u.results == s.results
  {
    u, actions := Extend(s, run, Claim(t, true));
    u, actions := Extend(u, actions, Readback(t, true));
  }

  /** Or answers what it knows. */
  lemma Answered(s: State, run: seq<Action>, t: Tid) returns (u: State, actions: seq<Action>)
    requires s == Run(START, run) && Holds(s, t) && s.calls[t].phase.Recorded?
    requires s.calls[t].op in s.journal && s.journal[s.calls[t].op].status in {Completed, Failed}
    ensures var call := s.calls[t];
            && u == Run(START, actions) && u.locks == s.locks
            && u.calls == s.calls[t := call.(phase := Returning)]
            && u.journal == s.journal && u.dispatches == s.dispatches && u.readbacks == s.readbacks
            && u.results == s.results + {(call.op, s.journal[call.op].status == Failed)}
  {
    u, actions := Extend(s, run, Claim(t, true));
    u, actions := Extend(u, actions, Answer(t));
  }

  /** The receipt comes. */
  lemma Replied(s: State, run: seq<Action>, t: Tid, failed: bool) returns (u: State, actions: seq<Action>)
    requires s == Run(START, run) && Holds(s, t) && (s.calls[t].phase.Dispatching? || s.calls[t].phase.ReadingBack?)
    requires s.calls[t].op in s.journal && s.journal[s.calls[t].op].status in {Dispatched, Ambiguous}
    ensures var call := s.calls[t];
            && u == Run(START, actions) && u.locks == s.locks
            && u.calls == s.calls[t := call.(phase := Returning)]
            && u.journal == s.journal[call.op := Entry(s.journal[call.op].request,
                                                   if failed then Failed else Completed)]
            && u.dispatches == s.dispatches && u.readbacks == s.readbacks
            && u.results == s.results + {(call.op, failed)}
  {
    u, actions := Extend(s, run, Hear(t, Receipt(failed), true));
  }

  lemma LanesStand(s: State, run: seq<Action>)
    requires s == Run(START, run)
    ensures LaneLocks.Inv(s.locks)
  {
    RunInv(START, run);
  }

  lemma LetsGo(s: State, run: seq<Action>, t: Tid) returns (u: State, actions: seq<Action>)
    requires s == Run(START, run) && Holds(s, t) && s.calls[t].phase.Returning?
    ensures u == Run(START, actions) && SameRecord(s, u) && u.calls == s.calls
    ensures t in u.locks.threads && u.locks.threads[t].Leaving?
  {
    LanesStand(s, run);
    LaneLocks.InsideCanLeave(s.locks, t);
    LaneLocks.StepThreads(s.locks, LaneLocks.Release(t));
    u, actions := Extend(s, run, Release(t));
  }

  lemma Goes(s: State, run: seq<Action>, t: Tid) returns (u: State, actions: seq<Action>)
    requires s == Run(START, run) && t in s.calls && s.calls[t].phase.Returning?
    requires t in s.locks.threads && s.locks.threads[t].Leaving?
    ensures u == Run(START, actions) && SameRecord(s, u) && u.calls == s.calls - {t}
  {
    LanesStand(s, run);
    LaneLocks.LeavingCanGo(s.locks, t);
    u, actions := Extend(s, run, Depart(t));
  }

  lemma Leaves(s: State, run: seq<Action>, t: Tid) returns (u: State, actions: seq<Action>)
    requires s == Run(START, run) && Holds(s, t) && s.calls[t].phase.Returning?
    ensures u == Run(START, actions) && SameRecord(s, u) && u.calls == s.calls - {t}
  {
    u, actions := LetsGo(s, run, t);
    u, actions := Goes(u, actions, t);
  }

  /** A first call, admitted and answered: sent once, its outcome journaled and
      told. */
  lemma FirstCallIsSent(s: State, run: seq<Action>, t: Tid, op: Op, request: Request, failed: bool)
    returns (u: State, actions: seq<Action>)
    requires s == Run(START, run) && t !in s.calls && Free(s, request, op)
    requires op in s.journal ==> s.journal[op] == Entry(request, Pending)
    ensures u == Run(START, actions) && u.calls == s.calls
    ensures u.journal == s.journal[op := Entry(request, if failed then Failed else Completed)]
    ensures u.dispatches == s.dispatches + multiset{op} && u.readbacks == s.readbacks
    ensures u.results == s.results + {(op, failed)}
  {
    u, actions := Enters(s, run, t, op, request);
    u, actions := Recorded(u, actions, t);
    u, actions := Sent(u, actions, t);
    u, actions := Replied(u, actions, t, failed);
    u, actions := Leaves(u, actions, t);
  }

  /** A later call of an operation whose outcome is not known reads the receipt
      back and sends nothing. */
  lemma UnknownIsReadBack(s: State, run: seq<Action>, t: Tid, op: Op, request: Request, failed: bool)
    returns (u: State, actions: seq<Action>)
    requires s == Run(START, run) && t !in s.calls && Free(s, request, op)
    requires op in s.journal && s.journal[op] in {Entry(request, Dispatched), Entry(request, Ambiguous)}
    ensures u == Run(START, actions) && u.calls == s.calls
    ensures u.journal == s.journal[op := Entry(request, if failed then Failed else Completed)]
    ensures u.dispatches == s.dispatches && u.readbacks == s.readbacks + multiset{op}
    ensures u.results == s.results + {(op, failed)}
  {
    u, actions := Enters(s, run, t, op, request);
    u, actions := Recorded(u, actions, t);
    u, actions := AskedAgain(u, actions, t);
    u, actions := Replied(u, actions, t, failed);
    u, actions := Leaves(u, actions, t);
  }

  /** And one whose outcome is known answers it from the journal. */
  lemma KnownIsAnswered(s: State, run: seq<Action>, t: Tid, op: Op, request: Request, failed: bool)
    returns (u: State, actions: seq<Action>)
    requires s == Run(START, run) && t !in s.calls && Free(s, request, op)
    requires op in s.journal && s.journal[op] == Entry(request, if failed then Failed else Completed)
    ensures u == Run(START, actions) && u.calls == s.calls && u.journal == s.journal
    ensures u.dispatches == s.dispatches && u.readbacks == s.readbacks
    ensures u.results == s.results + {(op, failed)}
  {
    u, actions := Enters(s, run, t, op, request);
    u, actions := Recorded(u, actions, t);
    u, actions := Answered(u, actions, t);
    u, actions := Leaves(u, actions, t);
  }

  /** A call that reuses an operation for another request is turned away, whatever
      the fence and the controller say. */
  lemma OtherRequestIsTurnedAway(s: State, a: Action, op: Op)
    requires IsOf(s, a, op) && (a.Inspect? || a.Record?)
    requires op in s.journal && s.journal[op].request != s.calls[a.t].request
    ensures SameRecord(s, Step(s, a)) && Step(s, a).calls[a.t].phase == Returning
  {
    assert Work(s, a) == Moves(Returning);
    MovesOnly(s, a.t, Returning);
  }

  lemma MovesOnly(s: State, t: Tid, phase: Phase)
    requires t in s.calls
    ensures SameRecord(s, After(s, t, Moves(phase))) && After(s, t, Moves(phase)).calls[t].phase == phase
  {
  }
}
