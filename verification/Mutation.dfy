/** External mutations: a durable journal and the lane locks, so that an effect
    is dispatched at most once across retries, cancellations and crashes. */
module Mutation {
  import opened Basics
  import LaneLocks

  type Tid = nat
  type Op = nat

  /** What the digest covers. Only browser calls choose a lane. */
  datatype Request = Request(browser: bool, newTab: bool, tab: Option<int>, rest: string)

  /** The lane follows from the request and the operation alone. */
  function LaneOf(request: Request, op: Op): LaneLocks.Lane {
    if !request.browser then LaneLocks.Page
    else if request.newTab then LaneLocks.NewTab(op)
    else if request.tab.Some? then LaneLocks.Tab(request.tab.value)
    else LaneLocks.Page
  }

  // ----- The journal -----

  datatype Status = Pending | Dispatched | Ambiguous | Completed | Failed

  datatype Entry = Entry(request: Request, status: Status)

  predicate Terminal(status: Status) {
    status == Completed || status == Failed
  }

  function Outcome(failed: bool): Status {
    if failed then Failed else Completed
  }

  /** A receipt, or None where the journal rejects it. */
  function ReceiptApplied(status: Status, failed: bool): Option<Status> {
    match status
    case Pending => None
    case Dispatched => Some(Outcome(failed))
    case Ambiguous => Some(Outcome(failed))
    case Completed => if failed then None else Some(Completed)
    case Failed => if failed then Some(Failed) else None
  }

  function AmbiguousApplied(status: Status): Option<Status> {
    if status == Dispatched || status == Ambiguous then Some(Ambiguous) else None
  }

  /** At boot, what had been dispatched may have escaped. */
  function Recovered(journal: map<Op, Entry>): map<Op, Entry> {
    map op | op in journal :: if journal[op].status == Dispatched then journal[op].(status := Ambiguous)
        else journal[op]
  }

  // ----- Calls -----

  datatype Phase =
    | Queued
    | Inspecting
    | Admitted
    | Recorded
    | Claimed
    | Dispatching
    | Answering(seen: Status)
    | ReadingBack(seen: Status)
    | Returning

  datatype Call = Call(op: Op, request: Request, phase: Phase)

  /** `dispatches` and `readbacks` count what was sent to the shell over the
      whole run; `results` are the terminal replies callers were given. */
  datatype State = State(
    locks: LaneLocks.State, journal: map<Op, Entry>, calls: map<Tid, Call>,
    dispatches: multiset<Op>, readbacks: multiset<Op>, results: set<(Op, bool)>)

  const START := State(LaneLocks.START, map[], map[], multiset{}, multiset{}, {})

  /** The shell's answer: a valid receipt, or nothing that can be believed. */
  datatype Reply = Lost | Receipt(failed: bool)

  /** `fenced`, `admits`, `accepted`, `persisted` and `available` are what the
      chat, the controller, the store and the shell do at that moment. */
  datatype Action =
    | Begin(t: Tid, op: Op, request: Request)
    | Acquire(t: Tid)
    | Inspect(t: Tid, fenced: bool, admits: bool)
    | Record(t: Tid, fenced: bool, accepted: bool)
    | Claim(t: Tid, persisted: bool)
    | Cancel(t: Tid, persisted: bool)
    | Dispatch(t: Tid)
    | Answer(t: Tid)
    | Readback(t: Tid, available: bool)
    | Hear(t: Tid, reply: Reply, persisted: bool)
    | Release(t: Tid)
    | Depart(t: Tid)
    | Crash

  predicate In(s: State, t: Tid, phase: Phase) {
    t in s.calls && s.calls[t].phase == phase
  }

  predicate Enabled(s: State, a: Action) {
    match a
    case Begin(t, _, _) => t !in s.calls && t !in s.locks.threads
    case Acquire(t) => In(s, t, Queued) && LaneLocks.Enabled(s.locks, LaneLocks.Acquire(t))
    case Inspect(t, _, _) => In(s, t, Inspecting)
    case Record(t, _, _) => In(s, t, Admitted)
    case Claim(t, _) => In(s, t, Recorded) && s.calls[t].op in s.journal
    case Cancel(t, _) => In(s, t, Claimed) && s.calls[t].op in s.journal
    case Dispatch(t) => In(s, t, Claimed)
    case Answer(t) => t in s.calls && s.calls[t].phase.Answering? && Terminal(s.calls[t].phase.seen)
    case Readback(t, _) => t in s.calls && s.calls[t].phase.Answering? && !Terminal(s.calls[t].phase.seen)
    case Hear(t, _, _) =>
      t in s.calls && (s.calls[t].phase.Dispatching? || s.calls[t].phase.ReadingBack?) && s.calls[t].op in s.journal
    case Release(t) => In(s, t, Returning) && LaneLocks.Enabled(s.locks, LaneLocks.Release(t))
    case Depart(t) => In(s, t, Returning) && LaneLocks.Enabled(s.locks, LaneLocks.Depart(t))
    case Crash => true
  }

  predicate Locking(a: Action) {
    a.Begin? || a.Acquire? || a.Release? || a.Depart?
  }

  /** What a call does between taking and giving back its lane. */
  datatype Effect = Effect(phase: Phase, entry: Option<Entry>, dispatched: bool, readBack: bool, result: Option<bool>)

  function Moves(phase: Phase): Effect {
    Effect(phase, None, false, false, None)
  }

  function Writes(phase: Phase, entry: Entry): Effect {
    Effect(phase, Some(entry), false, false, None)
  }

  function Inspected(s: State, call: Call, fenced: bool, admits: bool): Effect {
    if !fenced then Moves(Returning)
    else if call.op in s.journal && s.journal[call.op].request != call.request then Moves(Returning)
    else if (call.op !in s.journal || s.journal[call.op].status == Pending) && !admits then Moves(Returning)
    else Moves(Admitted)
  }

  function Journaled(s: State, call: Call, fenced: bool, accepted: bool): Effect {
    if !fenced || !accepted then Moves(Returning)
    else if call.op !in s.journal then Writes(Recorded, Entry(call.request, Pending))
    else if s.journal[call.op].request != call.request then Moves(Returning)
    else Moves(Recorded)
  }

  function GaveUp(entry: Entry, persisted: bool): Effect {
    var status := AmbiguousApplied(entry.status);
    if status.Some? && persisted then Writes(Returning, entry.(status := status.value)) else Moves(Returning)
  }

  function Heard(entry: Entry, reply: Reply, persisted: bool): Effect {
    match reply
    case Lost => GaveUp(entry, persisted)
    case Receipt(failed) =>
      var status := ReceiptApplied(entry.status, failed);
      if status.Some? && persisted
      then Effect(Returning, Some(entry.(status := status.value)), false, false, Some(failed))
      else Moves(Returning)
  }

  function Work(s: State, a: Action): Effect
    requires Enabled(s, a) && !Locking(a) && !a.Crash?
  {
    var call := s.calls[a.t];
    if a.Inspect? then Inspected(s, call, a.fenced, a.admits)
    else if a.Record? then Journaled(s, call, a.fenced, a.accepted)
    else if a.Claim? then
      var entry := s.journal[call.op];
      if entry.status != Pending then Moves(Answering(entry.status))
      else if a.persisted then Writes(Claimed, entry.(status := Dispatched))
      else Moves(Returning)
    else if a.Cancel? then GaveUp(s.journal[call.op], a.persisted)
    else if a.Dispatch? then Effect(Dispatching, None, true, false, None)
    else if a.Answer? then Effect(Returning, None, false, false, Some(call.phase.seen == Failed))
    else if a.Readback? then
      if a.available then Effect(ReadingBack(call.phase.seen), None, false, true, None) else Moves(Returning)
    else Heard(s.journal[call.op], a.reply, a.persisted)
  }

  function After(s: State, t: Tid, e: Effect): State
    requires t in s.calls
  {
    var op := s.calls[t].op;
    State(s.locks,
          if e.entry.Some? then s.journal[op := e.entry.value] else s.journal,
          s.calls[t := s.calls[t].(phase := e.phase)],
          if e.dispatched then s.dispatches + multiset{op} else s.dispatches,
          if e.readBack then s.readbacks + multiset{op} else s.readbacks,
          if e.result.Some? then s.results + {(op, e.result.value)} else s.results)
  }

  function LockAction(a: Action): LaneLocks.Action
    requires Locking(a)
  {
    if a.Begin? then LaneLocks.Arrive(a.t, LaneOf(a.request, a.op))
    else if a.Acquire? then LaneLocks.Acquire(a.t)
    else if a.Release? then LaneLocks.Release(a.t)
    else LaneLocks.Depart(a.t)
  }

  /** Taking and giving back the lane moves no call but its own. */
  function Locked(s: State, a: Action): State
    requires Enabled(s, a) && Locking(a)
  {
    s.(locks := LaneLocks.Step(s.locks, LockAction(a)),
       calls := if a.Begin? then s.calls[a.t := Call(a.op, a.request, Queued)]
                else if a.Acquire? then s.calls[a.t := s.calls[a.t].(phase := Inspecting)]
                else if a.Release? then s.calls
                else s.calls - {a.t})
  }

  /** A crash ends every call and frees every lane; the next boot recovers the
      journal before it is used. */
  function Crashed(s: State): State {
    s.(locks := LaneLocks.START, calls := map[], journal := Recovered(s.journal))
  }

  function Step(s: State, a: Action): State {
    if !Enabled(s, a) then s
    else if a.Crash? then Crashed(s)
    else if Locking(a) then Locked(s, a)
    else After(s, a.t, Work(s, a))
  }

  ghost function Run(s: State, actions: seq<Action>): State
    decreases |actions|
  {
    if actions == [] then s else Run(Step(s, actions[0]), actions[1..])
  }

  // ----- The invariant -----

  /** Past the digest check, and not yet on its way out. */
  predicate Working(phase: Phase) {
    phase.Recorded? || phase.Claimed? || phase.Dispatching? || phase.Answering? || phase.ReadingBack?
  }

  /** A call holds its request's lane from Inspecting until it returns. */
  predicate Laned(s: State, t: Tid) {
    && t in s.calls && t in s.locks.threads
    && s.locks.threads[t].lane == LaneOf(s.calls[t].request, s.calls[t].op)
    && (s.calls[t].phase.Queued? <==> s.locks.threads[t].Waiting?)
    && (s.locks.threads[t].Leaving? ==> s.calls[t].phase.Returning?)
  }

  ghost predicate LockInv(s: State) {
    && LaneLocks.Inv(s.locks)
    && s.locks.threads.Keys == s.calls.Keys
    && (forall t :: t in s.calls ==> Laned(s, t))
  }

  /** What a call past the digest check knows of the journal, and keeps knowing. */
  predicate CallInv(s: State, call: Call) {
    Working(call.phase) ==>
      && call.op in s.journal && s.journal[call.op].request == call.request
      && (var status := s.journal[call.op].status;
          match call.phase
          case Claimed => status == Dispatched && s.dispatches[call.op] == 0
          case Dispatching => status == Dispatched && s.dispatches[call.op] == 1
          case Answering(seen) => status == seen != Pending
          case ReadingBack(seen) => status == seen && !Terminal(seen) && seen != Pending
          case _ => true)
  }

  predicate OpInv(s: State, op: Op) {
    && s.dispatches[op] <= 1
    && (op !in s.journal || s.journal[op].status == Pending ==> s.dispatches[op] == 0)
    && (forall failed :: (op, failed) in s.results ==> op in s.journal && s.journal[op].status == Outcome(failed))
  }

  ghost predicate Inv(s: State) {
    && LockInv(s)
    && (forall t :: t in s.calls ==> CallInv(s, s.calls[t]))
    && (forall op :: OpInv(s, op))
  }

  /** Two calls of one operation past its digest check carry one request, so one
      lane, and the lane admits one of them. */
  lemma WorksAlone(s: State, t: Tid, u: Tid)
    requires LockInv(s) && t in s.calls && u in s.calls
    requires CallInv(s, s.calls[t]) && CallInv(s, s.calls[u])
    requires Working(s.calls[t].phase) && Working(s.calls[u].phase) && s.calls[t].op == s.calls[u].op
    ensures t == u
  {
    assert Laned(s, t) && Laned(s, u);
    LaneLocks.InsideAlone(s.locks, t, u);
  }

  lemma LanedStays(s: State, a: Action, t: Tid)
    requires Enabled(s, a) && Locking(a) && LaneLocks.Enabled(s.locks, LockAction(a))
    requires t in Locked(s, a).calls && (t in s.calls ==> Laned(s, t))
    ensures Laned(Locked(s, a), t)
  {
    LaneLocks.StepThreads(s.locks, LockAction(a));
  }

  lemma LockingDomain(s: State, a: Action)
    requires s.locks.threads.Keys == s.calls.Keys && Enabled(s, a) && Locking(a)
    ensures LaneLocks.Enabled(s.locks, LockAction(a))
    ensures Locked(s, a).locks.threads.Keys == Locked(s, a).calls.Keys
  {
    LaneLocks.StepThreads(s.locks, LockAction(a));
  }

  lemma LockingKeepsLocks(s: State, a: Action)
    requires LockInv(s) && Enabled(s, a) && Locking(a)
    ensures LockInv(Locked(s, a))
  {
    LockingDomain(s, a);
    assert LaneLocks.Inv(Locked(s, a).locks) by {
      LaneLocks.StepInv(s.locks, LockAction(a));
    }
    forall t | t in Locked(s, a).calls ensures Laned(Locked(s, a), t) {
      LanedStays(s, a, t);
    }
  }

  /** What every working step leaves in order: its own call and operation; and
      only a call past the digest check writes the journal or reaches the shell,
      but for an operation's first record. */
  ghost predicate Sound(s: State, t: Tid, e: Effect)
    requires t in s.calls
  {
    && !e.phase.Queued?
    && CallInv(After(s, t, e), After(s, t, e).calls[t])
    && OpInv(After(s, t, e), s.calls[t].op)
    && (e.entry.Some? || e.dispatched || e.readBack || e.result.Some? ==>
          Working(s.calls[t].phase) || s.calls[t].op !in s.journal)
    && (s.calls[t].op in s.journal && Terminal(s.journal[s.calls[t].op].status) ==>
          (e.entry.Some? ==> e.entry.value == s.journal[s.calls[t].op]) && !e.dispatched && !e.readBack)
  }

  predicate Ready(s: State, t: Tid) {
    t in s.calls && CallInv(s, s.calls[t]) && OpInv(s, s.calls[t].op)
  }

  lemma MovesSound(s: State, t: Tid, phase: Phase)
    requires Ready(s, t) && !phase.Queued? && CallInv(s, s.calls[t].(phase := phase))
    ensures Sound(s, t, Moves(phase))
  {
  }

  lemma JournaledSound(s: State, t: Tid, fenced: bool, accepted: bool)
    requires Ready(s, t) && s.calls[t].phase.Admitted?
    ensures Sound(s, t, Journaled(s, s.calls[t], fenced, accepted))
  {
    var call := s.calls[t];
    if call.op in s.journal && s.journal[call.op].request == call.request {
      MovesSound(s, t, Recorded);
    }
    MovesSound(s, t, Returning);
  }

  lemma ClaimedSound(s: State, t: Tid)
    requires Ready(s, t) && s.calls[t].phase.Recorded? && s.journal[s.calls[t].op].status == Pending
    ensures Sound(s, t, Writes(Claimed, s.journal[s.calls[t].op].(status := Dispatched)))
  {
  }

  lemma GaveUpSound(s: State, t: Tid, persisted: bool)
    requires Ready(s, t) && s.calls[t].op in s.journal
    requires s.calls[t].phase.Claimed? || s.calls[t].phase.Dispatching? || s.calls[t].phase.ReadingBack?
    ensures Sound(s, t, GaveUp(s.journal[s.calls[t].op], persisted))
  {
    MovesSound(s, t, Returning);
  }

  lemma DispatchSound(s: State, t: Tid)
    requires Ready(s, t) && s.calls[t].phase.Claimed?
    ensures Sound(s, t, Effect(Dispatching, None, true, false, None))
  {
  }

  lemma AnswerSound(s: State, t: Tid)
    requires Ready(s, t) && s.calls[t].phase.Answering? && Terminal(s.calls[t].phase.seen)
    ensures Sound(s, t, Effect(Returning, None, false, false, Some(s.calls[t].phase.seen == Failed)))
  {
  }

  lemma ReadbackSound(s: State, t: Tid)
    requires Ready(s, t) && s.calls[t].phase.Answering? && !Terminal(s.calls[t].phase.seen)
    ensures Sound(s, t, Effect(ReadingBack(s.calls[t].phase.seen), None, false, true, None))
  {
  }

  lemma HeardSound(s: State, t: Tid, reply: Reply, persisted: bool)
    requires Ready(s, t) && s.calls[t].op in s.journal
    requires s.calls[t].phase.Dispatching? || s.calls[t].phase.ReadingBack?
    ensures Sound(s, t, Heard(s.journal[s.calls[t].op], reply, persisted))
  {
    GaveUpSound(s, t, persisted);
    MovesSound(s, t, Returning);
  }

  lemma ClaimSound(s: State, t: Tid, persisted: bool)
    requires Ready(s, t) && Enabled(s, Claim(t, persisted))
    ensures Sound(s, t, Work(s, Claim(t, persisted)))
  {
    var entry := s.journal[s.calls[t].op];
    MovesSound(s, t, Returning);
    if entry.status == Pending {
      ClaimedSound(s, t);
    } else {
      MovesSound(s, t, Answering(entry.status));
    }
  }

  lemma InspectSound(s: State, t: Tid, fenced: bool, admits: bool)
    requires Ready(s, t)
    ensures Sound(s, t, Inspected(s, s.calls[t], fenced, admits))
  {
    MovesSound(s, t, Returning);
    MovesSound(s, t, Admitted);
  }

  lemma WorkSound(s: State, a: Action)
    requires Inv(s) && Enabled(s, a) && !Locking(a) && !a.Crash?
    ensures Sound(s, a.t, Work(s, a))
  {
    var t := a.t;
    assert Ready(s, t);
    if a.Inspect? {
      InspectSound(s, t, a.fenced, a.admits);
    } else if a.Record? {
      JournaledSound(s, t, a.fenced, a.accepted);
    } else if a.Claim? {
      ClaimSound(s, t, a.persisted);
    } else if a.Cancel? {
      GaveUpSound(s, t, a.persisted);
    } else if a.Dispatch? {
      DispatchSound(s, t);
    } else if a.Answer? {
      AnswerSound(s, t);
    } else if a.Readback? {
      ReadbackSound(s, t);
      MovesSound(s, t, Returning);
    } else {
      HeardSound(s, t, a.reply, a.persisted);
    }
  }

  lemma WorkKeepsLocks(s: State, t: Tid, e: Effect)
    requires LockInv(s) && t in s.calls && s.locks.threads[t].Inside? && !e.phase.Queued?
    ensures LockInv(After(s, t, e))
  {
    var s' := After(s, t, e);
    forall u | u in s'.calls ensures Laned(s', u) {
      assert Laned(s, u);
    }
  }

  lemma WorkOthers(s: State, t: Tid, e: Effect, u: Tid)
    requires Inv(s) && t in s.calls && Sound(s, t, e) && u in s.calls && u != t
    ensures CallInv(After(s, t, e), s.calls[u])
  {
    assert CallInv(s, s.calls[u]) && CallInv(s, s.calls[t]);
    if Working(s.calls[u].phase) && s.calls[u].op == s.calls[t].op && Working(s.calls[t].phase) {
      WorksAlone(s, u, t);
    }
  }

  lemma WorkOps(s: State, t: Tid, e: Effect, op: Op)
    requires t in s.calls && Sound(s, t, e) && OpInv(s, op)
    ensures OpInv(After(s, t, e), op)
  {
  }

  lemma WorkCalls(s: State, t: Tid, e: Effect, u: Tid)
    requires Inv(s) && t in s.calls && Sound(s, t, e) && u in After(s, t, e).calls
    ensures CallInv(After(s, t, e), After(s, t, e).calls[u])
  {
    if u != t {
      WorkOthers(s, t, e, u);
    }
  }

  lemma WorkInv(s: State, t: Tid, e: Effect)
    requires Inv(s) && t in s.calls && s.locks.threads[t].Inside? && Sound(s, t, e)
    ensures Inv(After(s, t, e))
  {
    var s' := After(s, t, e);
    WorkKeepsLocks(s, t, e);
    forall u | u in s'.calls ensures CallInv(s', s'.calls[u]) {
      WorkCalls(s, t, e, u);
    }
    forall op ensures OpInv(s', op) {
      WorkOps(s, t, e, op);
    }
  }

  lemma LockingCall(s: State, a: Action, t: Tid)
    requires Enabled(s, a) && Locking(a) && t in Locked(s, a).calls && (t in s.calls ==> CallInv(s, s.calls[t]))
    ensures CallInv(Locked(s, a), Locked(s, a).calls[t])
  {
  }

  lemma LockingOp(s: State, a: Action, op: Op)
    requires Enabled(s, a) && Locking(a) && OpInv(s, op)
    ensures OpInv(Locked(s, a), op)
  {
  }

  lemma LockingInv(s: State, a: Action)
    requires Inv(s) && Enabled(s, a) && Locking(a)
    ensures Inv(Locked(s, a))
  {
    LockingKeepsLocks(s, a);
    forall t | t in Locked(s, a).calls ensures CallInv(Locked(s, a), Locked(s, a).calls[t]) {
      LockingCall(s, a, t);
    }
    forall op ensures OpInv(Locked(s, a), op) {
      LockingOp(s, a, op);
    }
  }

  lemma CrashInv(s: State)
    requires Inv(s)
    ensures Inv(Crashed(s))
  {
    forall op ensures OpInv(Crashed(s), op) {
      assert OpInv(s, op);
    }
  }

  lemma WorkIsInside(s: State, a: Action)
    requires LockInv(s) && Enabled(s, a) && !Locking(a) && !a.Crash?
    ensures s.locks.threads[a.t].Inside?
  {
    assert Laned(s, a.t);
  }

  lemma StepInv(s: State, a: Action)
    requires Inv(s)
    ensures Inv(Step(s, a))
  {
    if Enabled(s, a) {
      if a.Crash? {
        CrashInv(s);
      } else if Locking(a) {
        LockingInv(s, a);
      } else {
        WorkSound(s, a);
        WorkIsInside(s, a);
        WorkInv(s, a.t, Work(s, a));
      }
    }
  }

  lemma {:induction false} RunInv(s: State, actions: seq<Action>)
    requires Inv(s)
    ensures Inv(Run(s, actions))
    decreases |actions|
  {
    if actions != [] {
      StepInv(s, actions[0]);
      RunInv(Step(s, actions[0]), actions[1..]);
    }
  }

  // ----- The guarantees, over every run -----

  /** However calls, retries, cancellations and crashes interleave, an operation
      reaches the shell at most once, and only once its claim is durable. */
  lemma DispatchedAtMostOnce(actions: seq<Action>, op: Op)
    ensures var s := Run(START, actions);
            s.dispatches[op] <= 1 && (s.dispatches[op] > 0 ==> op in s.journal && s.journal[op].status != Pending)
  {
    RunInv(START, actions);
    assert OpInv(Run(START, actions), op);
  }

  /** While a call is between its claim and its receipt, no other call of the
      operation is reading the receipt back, or about to. */
  lemma NoReadbackBeforeTheReceipt(actions: seq<Action>, t: Tid, u: Tid)
    requires var s := Run(START, actions);
             t in s.calls && u in s.calls && s.calls[t].op == s.calls[u].op
             && (s.calls[t].phase.Claimed? || s.calls[t].phase.Dispatching?)
    ensures var s := Run(START, actions); !s.calls[u].phase.ReadingBack? && !s.calls[u].phase.Answering?
  {
    RunInv(START, actions);
    var s := Run(START, actions);
    if s.calls[u].phase.ReadingBack? || s.calls[u].phase.Answering? {
      WorksAlone(s, t, u);
    }
  }

  /** Nothing more was sent for the operation, and its entry is as it was. */
  predicate Settled(s: State, s': State, op: Op)
    requires op in s.journal
  {
    && op in s'.journal && s'.journal[op] == s.journal[op]
    && s'.dispatches[op] == s.dispatches[op] && s'.readbacks[op] == s.readbacks[op]
  }

  lemma TerminalWork(s: State, t: Tid, e: Effect, op: Op)
    requires t in s.calls && Sound(s, t, e) && op in s.journal && Terminal(s.journal[op].status)
    ensures Settled(s, After(s, t, e), op)
  {
  }

  lemma TerminalStep(s: State, a: Action, op: Op)
    requires Inv(s) && op in s.journal && Terminal(s.journal[op].status)
    ensures Settled(s, Step(s, a), op)
  {
    if Enabled(s, a) && !a.Crash? && !Locking(a) {
      WorkSound(s, a);
      TerminalWork(s, a.t, Work(s, a), op);
    }
  }

  lemma {:induction false} TerminalRun(s: State, actions: seq<Action>, op: Op)
    requires Inv(s) && op in s.journal && Terminal(s.journal[op].status)
    ensures Settled(s, Run(s, actions), op)
    decreases |actions|
  {
    if actions != [] {
      TerminalStep(s, actions[0], op);
      StepInv(s, actions[0]);
      TerminalRun(Step(s, actions[0]), actions[1..], op);
    }
  }

  /** A completed or failed entry answers every later call with neither a
      dispatch nor a readback, and never changes again. */
  lemma TerminalIsFinal(before: seq<Action>, after: seq<Action>, op: Op)
    requires var s := Run(START, before); op in s.journal && Terminal(s.journal[op].status)
    ensures Settled(Run(START, before), Run(Run(START, before), after), op)
  {
    RunInv(START, before);
    TerminalRun(Run(START, before), after, op);
  }

  /** No two callers of an operation are told different outcomes, and none is
      told one the journal does not hold. */
  lemma CallersAgree(actions: seq<Action>, op: Op, failed: bool, other: bool)
    requires (op, failed) in Run(START, actions).results && (op, other) in Run(START, actions).results
    ensures failed == other
    ensures var s := Run(START, actions); op in s.journal && s.journal[op].status == Outcome(failed)
  {
    RunInv(START, actions);
    assert OpInv(Run(START, actions), op);
  }
}
