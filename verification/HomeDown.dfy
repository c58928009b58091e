/** What a chat is told of a machine that cannot be seen: once per outage, after
    a threshold of silence, and never as an outcome. Beats run at once. */
module HomeDown {
  import opened Basics

  type ChatId = nat

  /** A beat between its locks: it has read the latch, or is telling the chats. */
  datatype Beat = Deciding(since: int, announced: bool) | Telling(since: int, at: int, chats: seq<ChatId>)

  /** A home_down row of a chat, keyed by the outage's start. */
  datatype Row = Row(chat: ChatId, since: int, at: int)

  /** A monitor on that machine: its chat, its cursor, and whether its outcome
      has been heard. */
  datatype Monitor = Monitor(chat: ChatId, applied: nat, consumed: bool)

  datatype State = State(
    darkSince: Option<int>, announced: bool, beats: map<nat, Beat>, rows: seq<Row>, reported: set<int>, clock: int,
    monitors: map<nat, Monitor>)

  function Start(clock: int): State {
    State(None, false, map[], [], {}, clock, map[])
  }

  /** Ten minutes, in seconds. */
  const THRESHOLD: int := 600

  /** What a chat does with the notice: admits it, refuses it, or has no part in
      it (deleted, re-homed, stopped, or held as a duplicate). */
  datatype Verdict = Admits | Refuses | Ignores

  /** `since` is the link's own account of when it went dark, None when it gives
      none; `chats` are those with an unfinished monitor, in any order. `Change`
      is the rest of the daemon: a monitor recorded, moved, consumed or dropped. */
  datatype Action =
    | Tick(seconds: nat)
    | Up
    | Down(t: nat, since: Option<int>)
    | Decide(t: nat, chats: seq<ChatId>)
    | Tell(t: nat, verdict: Verdict)
    | Return(t: nat)
    | Change(monitors: map<nat, Monitor>)

  /** Every chat with an unfinished monitor, each once. */
  predicate Lists(monitors: map<nat, Monitor>, chats: seq<ChatId>) {
    && (forall i, j :: 0 <= i < j < |chats| ==> chats[i] != chats[j])
    && (forall chat :: chat in chats ==> exists m :: m in monitors && !monitors[m].consumed && monitors[m].chat == chat)
    && (forall m :: m in monitors && !monitors[m].consumed ==> monitors[m].chat in chats)
  }

  predicate Enabled(s: State, a: Action) {
    match a
    case Tick(_) => true
    case Up => true
    case Down(t, _) => t !in s.beats
    case Decide(t, chats) => t in s.beats && s.beats[t].Deciding? && Lists(s.monitors, chats)
    case Tell(t, _) => t in s.beats && s.beats[t].Telling? && s.beats[t].chats != []
    case Return(t) => t in s.beats && s.beats[t].Telling? && s.beats[t].chats == []
    case Change(_) => true
  }

  predicate Told(rows: seq<Row>, chat: ChatId, since: int) {
    exists r :: r in rows && r.chat == chat && r.since == since
  }

  /** The earlier of the account given and the one kept. */
  function Earlier(kept: Option<int>, since: int): int {
    if kept.Some? && kept.value < since then kept.value else since
  }

  function Step(s: State, a: Action): State {
    if !Enabled(s, a) then s else
    match a
    case Tick(n) => s.(clock := s.clock + n)
    case Up => s.(darkSince := None, announced := false)
    case Down(t, since) =>
      var reported := if since.Some? then since.value else s.clock;
      var dark := Earlier(s.darkSince, reported);
      s.(darkSince := Some(dark), beats := s.beats[t := Deciding(dark, s.announced)],
          reported := s.reported + {reported})
    case Decide(t, chats) =>
      var beat := s.beats[t];
      if beat.announced || s.clock - beat.since < THRESHOLD || s.monitors == map[] then s.(beats := s.beats - {t})
      else s.(announced := true, beats := s.beats[t := Telling(beat.since, s.clock, chats)])
    case Tell(t, verdict) =>
      var beat := s.beats[t];
      var chat := beat.chats[0];
      var next := s.(beats := s.beats[t := Telling(beat.since, beat.at, beat.chats[1..])]);
      (match verdict
       case Admits =>
         if Told(s.rows, chat, beat.since) then next else next.(rows := s.rows + [Row(chat, beat.since, s.clock)])
       case Refuses => next.(announced := false)
       case Ignores => next)
    case Return(t) => s.(beats := s.beats - {t})
    case Change(monitors) => s.(monitors := monitors)
  }

  function Run(s: State, actions: seq<Action>): State
    decreases |actions|
  {
    if actions == [] then s else Run(Step(s, actions[0]), actions[1..])
  }

  ghost predicate Inv(s: State) {
    && (s.darkSince.Some? ==> s.darkSince.value in s.reported)
    && (forall t :: t in s.beats ==> s.beats[t].since in s.reported)
    && (forall t :: t in s.beats && s.beats[t].Telling? ==>
          THRESHOLD <= s.beats[t].at - s.beats[t].since && s.beats[t].at <= s.clock)
    && (forall i :: 0 <= i < |s.rows| ==> s.rows[i].since in s.reported && THRESHOLD <= s.rows[i].at - s.rows[i].since)
    && (forall i, j :: 0 <= i < j < |s.rows| ==> s.rows[i].chat != s.rows[j].chat || s.rows[i].since != s.rows[j].since)
  }

  lemma StepInv(s: State, a: Action)
    requires Inv(s)
    ensures Inv(Step(s, a))
  {
    if a.Tell? && Enabled(s, a) {
      TellInv(s, a.t, a.verdict);
    }
  }

  lemma TellInv(s: State, t: nat, verdict: Verdict)
    requires Inv(s) && Enabled(s, Tell(t, verdict))
    ensures Inv(Step(s, Tell(t, verdict)))
  {
    var s' := Step(s, Tell(t, verdict));
    if s'.rows != s.rows {
      forall i | 0 <= i < |s.rows| ensures s.rows[i].chat != s.beats[t].chats[0]
          || s.rows[i].since != s.beats[t].since {
        assert s.rows[i] in s.rows;
      }
    }
  }

  lemma {:induction false} RunInv(s: State, actions: seq<Action>)
    requires Inv(s)
    ensures Inv(Run(s, actions))
    decreases |actions|
  {
    if actions != [] {
      StepInv(s, actions[0]);
      RunInv(Step(s, actions[0]), actions[1..]);
    }
  }

  /** However beats interleave, and however many deliveries fail and unlatch: two
      rows of one chat are of two outages, and each row came after the threshold
      of silence, dated from a start the link reported. */
  lemma OneRowPerOutage(clock: int, actions: seq<Action>, i: nat, j: nat)
    requires i < |Run(Start(clock), actions).rows| && j < |Run(Start(clock), actions).rows|
    ensures var rows := Run(Start(clock), actions).rows;
            && rows[i].at - rows[i].since >= THRESHOLD
            && rows[i].since in Run(Start(clock), actions).reported
            && (rows[i].chat == rows[j].chat && rows[i].since == rows[j].since ==> i == j)
  {
    RunInv(Start(clock), actions);
  }

  // ----- One start, one row -----

  /** No beat of an outage under way gives it an earlier start than it has. */
  ghost predicate Steady(s: State, a: Action) {
    a.Down? && Enabled(s, a) && s.darkSince.Some? && a.since.Some? ==> s.darkSince.value <= a.since.value
  }

  /** One outage: the link stays down, and no beat moves its start back. */
  ghost predicate OneOutage(s: State, actions: seq<Action>)
    decreases |actions|
  {
    actions == [] || (!actions[0].Up? && Steady(s, actions[0]) && OneOutage(Step(s, actions[0]), actions[1..]))
  }

  /** The outage has its start, and every beat is of it or of one in `begun`. */
  ghost predicate Dated(s: State, start: int, begun: set<int>) {
    && s.darkSince == Some(start) && start <= s.clock
    && (forall t :: t in s.beats ==> s.beats[t].since == start || s.beats[t].since in begun)
  }

  /** The starts of the beats begun already. */
  function Begun(s: State): set<int> {
    set t | t in s.beats :: s.beats[t].since
  }

  /** While one outage lasts, each chat is told at most once under its start,
      however often it is said; any other row told meanwhile is of a beat that
      had begun before. */
  lemma OutageIsToldOnce(s: State, actions: seq<Action>, start: int, a: Row, b: Row)
    requires Inv(s) && s.darkSince == Some(start) && start <= s.clock && OneOutage(s, actions)
    requires a in Run(s, actions).rows && b in Run(s, actions).rows && a !in s.rows && b !in s.rows && a.chat == b.chat
    ensures a.since == start || a.since in Begun(s)
    ensures a.since == b.since ==> a == b
  {
    RunInv(s, actions);
    NewRowsAreDated(s, actions, start, Begun(s));
  }

  lemma DatedStays(s: State, a: Action, start: int, begun: set<int>)
    requires Dated(s, start, begun) && !a.Up? && Steady(s, a)
    ensures Dated(Step(s, a), start, begun)
    ensures forall r :: r in Step(s, a).rows && r !in s.rows ==> r.since == start || r.since in begun
  {
  }

  lemma {:induction false} NewRowsAreDated(s: State, actions: seq<Action>, start: int, begun: set<int>)
    requires Dated(s, start, begun) && OneOutage(s, actions)
    ensures forall r :: r in Run(s, actions).rows && r !in s.rows ==> r.since == start || r.since in begun
    decreases |actions|
  {
    if actions != [] {
      DatedStays(s, actions[0], start, begun);
      NewRowsAreDated(Step(s, actions[0]), actions[1..], start, begun);
    }
  }

  lemma {:induction false} RunJoin(s: State, before: seq<Action>, after: seq<Action>)
    ensures Run(s, before + after) == Run(Run(s, before), after)
    decreases |before|
  {
    if before == [] {
      assert before + after == after;
    } else {
      assert (before + after)[1..] == before[1..] + after;
      RunJoin(Step(s, before[0]), before[1..], after);
    }
  }

  lemma Extend(s: State, start: State, actions: seq<Action>, a: Action) returns (t: State, longer: seq<Action>)
    requires s == Run(start, actions) && Up !in actions && a != Up
    ensures t == Step(s, a) && longer == actions + [a] && t == Run(start, longer) && Up !in longer
  {
    RunJoin(start, actions, [a]);
    assert [a][1..] == [];
    assert Run(Step(s, a), []) == Step(s, a);
    t, longer := Step(s, a), actions + [a];
  }

  function TwoWatching(first: ChatId, second: ChatId): map<nat, Monitor> {
    map[0 := Monitor(first, 0, false), 1 := Monitor(second, 0, false)]
  }

  lemma ListsBoth(first: ChatId, second: ChatId)
    requires first != second
    ensures Lists(TwoWatching(first, second), [first, second])
  {
    var monitors := TwoWatching(first, second);
    assert monitors[0].chat == first && !monitors[0].consumed && monitors[1].chat == second && !monitors[1].consumed;
  }

  /** A beat past the threshold, which one chat admits and the other refuses. */
  lemma HalfTold(clock: int, start: int, first: ChatId, second: ChatId) returns (s: State, actions: seq<Action>)
    requires first != second && clock - start >= THRESHOLD
    ensures s == Run(Start(clock), actions) && Up !in actions
    ensures s == State(Some(start), false, map[], [Row(first, start, clock)], {start}, clock,
                       TwoWatching(first, second))
  {
    s, actions := Start(clock), [];
    s, actions := Extend(s, Start(clock), actions, Change(TwoWatching(first, second)));
    s, actions := Extend(s, Start(clock), actions, Down(0, Some(start)));
    ListsBoth(first, second);
    s, actions := Extend(s, Start(clock), actions, Decide(0, [first, second]));
    s, actions := Extend(s, Start(clock), actions, Tell(0, Admits));
    s, actions := Extend(s, Start(clock), actions, Tell(0, Refuses));
    s, actions := Extend(s, Start(clock), actions, Return(0));
  }

  /** An account that moves the start back, after one chat refused and unlatched,
      dates the outage again: the chat that took the first notice takes a second
      while the link stays down. */
  lemma EarlierStartTellsAgain(clock: int, start: int, earlier: int, first: ChatId, second: ChatId)
    returns (actions: seq<Action>)
    requires first != second && earlier < start && clock - start >= THRESHOLD
    ensures Up !in actions
    ensures Run(Start(clock), actions).rows == [Row(first, start, clock), Row(first, earlier, clock)]
  {
    var s;
    s, actions := HalfTold(clock, start, first, second);
    s, actions := Extend(s, Start(clock), actions, Down(0, Some(earlier)));
    ListsBoth(first, second);
    s, actions := Extend(s, Start(clock), actions, Decide(0, [first, second]));
    assert !Told(s.rows, first, earlier);
    s, actions := Extend(s, Start(clock), actions, Tell(0, Admits));
  }

  // ----- An earlier account, in any state -----

  /** Latched, with nobody left to tell: every beat in flight has read the latch
      or told all its chats. */
  ghost predicate Latched(s: State) {
    && s.announced
    && forall t :: t in s.beats ==> if s.beats[t].Deciding? then s.beats[t].announced else s.beats[t].chats == []
  }

  /** Latched, no chat is told anything until the link returns, whatever start
      later accounts give. */
  lemma {:induction false} LatchedTellsNobody(s: State, actions: seq<Action>)
    requires Latched(s) && Up !in actions
    ensures Latched(Run(s, actions)) && Run(s, actions).rows == s.rows
    decreases |actions|
  {
    if actions != [] {
      assert actions[0] in actions;
      LatchedTellsNobody(Step(s, actions[0]), actions[1..]);
    }
  }

  lemma {:induction false} InSomeOrder(ids: set<ChatId>) returns (order: seq<ChatId>)
    ensures (forall id :: id in order <==> id in ids) && forall i, j :: 0 <= i < j < |order| ==> order[i] != order[j]
    decreases |ids|
  {
    if ids == {} {
      order := [];
    } else {
      var id :| id in ids;
      var rest := InSomeOrder(ids - {id});
      order := [id] + rest;
    }
  }

  /** The chats a beat tells, with one of them first. */
  lemma Listing(monitors: map<nat, Monitor>, m: nat) returns (chats: seq<ChatId>)
    requires m in monitors && !monitors[m].consumed
    ensures Lists(monitors, chats) && chats != [] && chats[0] == monitors[m].chat
  {
    var first := monitors[m].chat;
    var others := set k | k in monitors && !monitors[k].consumed && monitors[k].chat != first :: monitors[k].chat;
    var rest := InSomeOrder(others);
    chats := [first] + rest;
    assert first !in others && first !in rest;
    forall i, j | 0 <= i < j < |chats| ensures chats[i] != chats[j] {
      assert chats[j] == rest[j - 1];
      assert i > 0 ==> chats[i] == rest[i - 1];
    }
    forall chat | chat in chats ensures exists k :: k in monitors && !monitors[k].consumed && monitors[k].chat == chat {
      assert chat == first || chat in others;
    }
    forall k | k in monitors && !monitors[k].consumed ensures monitors[k].chat in chats {
      assert monitors[k].chat == first || monitors[k].chat in others;
    }
  }

  /** The same state but for the latch, the beats and the time. */
  ghost predicate SameOutage(s: State, t: State) {
    t.darkSince == s.darkSince && t.rows == s.rows && t.monitors == s.monitors && s.clock <= t.clock
  }

  lemma Wait(s: State, start: State, actions: seq<Action>, since: int) returns (t: State, longer: seq<Action>)
    requires s == Run(start, actions) && Up !in actions
    ensures t == Run(start, longer) && Up !in longer && t == s.(clock := t.clock) && s.clock <= t.clock
    ensures t.clock - since >= THRESHOLD
  {
    var seconds: nat := if s.clock - since >= THRESHOLD then 0 else THRESHOLD - (s.clock - since);
    t, longer := Extend(s, start, actions, Tick(seconds));
  }

  /** A state that is not latched can be unlatched by a refusal. */
  lemma Unlatch(s: State, m: nat) returns (t: State, actions: seq<Action>)
    requires !Latched(s) && m in s.monitors && !s.monitors[m].consumed
    ensures t == Run(s, actions) && Up !in actions && !t.announced && SameOutage(s, t)
  {
    t, actions := s, [];
    if s.announced {
      var w :| w in s.beats && if s.beats[w].Deciding? then !s.beats[w].announced else s.beats[w].chats != [];
      if s.beats[w].Deciding? {
        t, actions := Wait(t, s, actions, s.beats[w].since);
        var chats := Listing(s.monitors, m);
        t, actions := Extend(t, s, actions, Decide(w, chats));
      }
      t, actions := Extend(t, s, actions, Tell(w, Refuses));
    }
  }

  /** And unlatched, an earlier account tells a chat again: from every state that
      is not latched, a chat with an unfinished monitor that has a row of this
      outage takes a second one under the earlier start. */
  lemma UnlatchedTellsAgain(s: State, m: nat, start: int, earlier: int) returns (actions: seq<Action>)
    requires !Latched(s) && s.darkSince == Some(start) && earlier < start
    requires m in s.monitors && !s.monitors[m].consumed && Told(s.rows, s.monitors[m].chat, start)
    ensures Up !in actions
    ensures var t, chat := Run(s, actions), s.monitors[m].chat;
            s.rows <= t.rows && Told(t.rows, chat, start) && Told(t.rows, chat, earlier)
  {
    var t;
    t, actions := Unlatch(s, m);
    t, actions := Wait(t, s, actions, earlier);
    var beat := Unused(t.beats.Keys);
    t, actions := Extend(t, s, actions, Down(beat, Some(earlier)));
    var chats := Listing(s.monitors, m);
    t, actions := Extend(t, s, actions, Decide(beat, chats));
    var rows := t.rows;
    t, actions := Extend(t, s, actions, Tell(beat, Admits));
    assert t.rows == rows || t.rows[|rows|] == Row(s.monitors[m].chat, earlier, t.clock);
    var r :| r in s.rows && r.chat == s.monitors[m].chat && r.since == start;
    assert r in t.rows;
  }

  // ----- An outage is no outcome -----

  /** What the rest of the daemon does during a run. */
  function Changes(actions: seq<Action>): seq<Action> {
    if actions == [] then []
    else (if actions[0].Change? then [actions[0]] else []) + Changes(actions[1..])
  }

  /** No beat, notice or return of the link moves a cursor, consumes a monitor or
      drops one: the monitors after a run are those its changes alone leave,
      whatever else the two states hold. */
  lemma {:induction false} OutagesMoveNoMonitor(s: State, t: State, actions: seq<Action>)
    requires s.monitors == t.monitors
    ensures Run(s, actions).monitors == Run(t, Changes(actions)).monitors
    decreases |actions|
  {
    if actions != [] {
      var a, rest := actions[0], Changes(actions[1..]);
      if a.Change? {
        assert Changes(actions)[1..] == rest;
        OutagesMoveNoMonitor(Step(s, a), Step(t, a), actions[1..]);
      } else {
        assert Changes(actions) == rest;
        OutagesMoveNoMonitor(Step(s, a), t, actions[1..]);
      }
    }
  }

  // ----- A beat on its own -----

  /** Whether a chat refuses what it is told. */
  predicate AnyRefuses(chats: seq<ChatId>, verdicts: ChatId -> Verdict) {
    exists chat :: chat in chats && verdicts(chat).Refuses?
  }

  /** The latches of every home the watcher sees. */
  class LinkWatch {
    var darkSince: map<string, int>
    var announced: set<string>

    constructor ()
      ensures darkSince == map[] && announced == {}
    {
      darkSince, announced := map[], {};
    }

    method LinkUp(home: string) returns (wasDark: bool)
      modifies this
      ensures darkSince == old(darkSince) - {home} && announced == old(announced) - {home}
      ensures wasDark <==> home in old(announced)
    {
      wasDark := home in announced;
      darkSince := darkSince - {home};
      announced := announced - {home};
    }

    /** Past the threshold every chat is told, once: the latch holds until the
        link returns, unless a chat refused. */
    method LinkDown(home: string, since: Option<int>, now: int, watched: bool, chats: seq<ChatId>,
                    verdicts: ChatId -> Verdict)
      returns (told: seq<ChatId>)
      modifies this
      ensures var kept := if home in old(darkSince) then Some(old(darkSince)[home]) else None;
              var start := Earlier(kept, if since.Some? then since.value else now);
              var quiet := home in old(announced) || now - start < THRESHOLD || !watched;
              && darkSince == old(darkSince)[home := start]
              && told == (if quiet then [] else chats)
              && announced == if quiet then old(announced)
                              else if AnyRefuses(chats, verdicts) then old(announced) - {home}
                              else old(announced) + {home}
    {
      var start := if since.Some? then since.value else now;
      if home in darkSince && darkSince[home] < start {
        start := darkSince[home];
      }
      darkSince := darkSince[home := start];
      told := [];
      if home in announced || now - start < THRESHOLD || !watched {
        return;
      }
      announced := announced + {home};
      for i := 0 to |chats|
        invariant told == chats[..i] && darkSince == old(darkSince)[home := start]
        invariant announced == if AnyRefuses(chats[..i], verdicts) then old(announced) - {home}
                               else old(announced) + {home}
      {
        told := told + [chats[i]];
        if verdicts(chats[i]).Refuses? {
          announced := announced - {home};
        }
      }
      assert chats[..|chats|] == chats;
    }
  }

  /** The rows a beat adds when it tells these chats: one for each that admits
      and has none of this outage. */
  ghost predicate Adds(before: seq<Row>, after: seq<Row>, chats: seq<ChatId>, verdicts: ChatId -> Verdict,
                       since: int, at: int) {
    && before <= after
    && (forall chat :: chat in chats && verdicts(chat).Admits? ==> Told(after, chat, since))
    && (forall r :: r in after && r !in before ==>
          r.chat in chats && verdicts(r.chat).Admits? && !Told(before, r.chat, since) && r == Row(r.chat, since, at))
  }

  lemma AddsFirst(before: seq<Row>, next: seq<Row>, after: seq<Row>, chats: seq<ChatId>, verdicts: ChatId -> Verdict,
                  since: int, at: int)
    requires chats != [] && Adds(next, after, chats[1..], verdicts, since, at)
    requires next == (if verdicts(chats[0]).Admits? && !Told(before, chats[0], since)
                      then before + [Row(chats[0], since, at)] else before)
    ensures Adds(before, after, chats, verdicts, since, at)
  {
    assert chats == [chats[0]] + chats[1..];
    assert verdicts(chats[0]).Admits? ==> Told(next, chats[0], since) by {
      assert next != before ==> next[|before|] == Row(chats[0], since, at);
    }
    forall r | r in after && r !in before
      ensures r.chat in chats && verdicts(r.chat).Admits? && !Told(before, r.chat, since)
      ensures r == Row(r.chat, since, at)
    {
      if r !in next {
        assert !Told(next, r.chat, since);
        assert forall q :: q in before ==> q in next;
      }
    }
  }

  lemma {:induction false} TellsAll(s: State, t: nat, verdicts: ChatId -> Verdict) returns (actions: seq<Action>)
    requires t in s.beats && s.beats[t].Telling?
    ensures var after, chats := Run(s, actions), s.beats[t].chats;
            && after.darkSince == s.darkSince && after.beats == s.beats - {t}
            && after.announced == (s.announced && !AnyRefuses(chats, verdicts))
            && Adds(s.rows, after.rows, chats, verdicts, s.beats[t].since, s.clock) && Up !in actions
    decreases |s.beats[t].chats|
  {
    var chats := s.beats[t].chats;
    if chats == [] {
      actions := [Return(t)];
      assert [Return(t)][1..] == [];
      assert Run(Step(s, Return(t)), []) == Step(s, Return(t));
    } else {
      var tell := Tell(t, verdicts(chats[0]));
      var next := Step(s, tell);
      var rest := TellsAll(next, t, verdicts);
      actions := [tell] + rest;
      assert actions[1..] == rest;
      assert chats == [chats[0]] + chats[1..];
      AddsFirst(s.rows, next.rows, Run(next, rest).rows, chats, verdicts, s.beats[t].since, s.clock);
    }
  }

  /** A beat this outage keeps to itself. */
  predicate Quiet(s: State, start: int) {
    s.announced || s.clock - start < THRESHOLD || s.monitors == map[]
  }

  /** With no other beat between its steps, a beat leaves the latch as `LinkWatch`
      leaves it, and tells each chat with an unfinished monitor and no other. */
  lemma UninterruptedBeat(s: State, t: nat, since: Option<int>, chats: seq<ChatId>, verdicts: ChatId -> Verdict)
    returns (actions: seq<Action>)
    requires t !in s.beats && Lists(s.monitors, chats)
    ensures var start := Earlier(s.darkSince, if since.Some? then since.value else s.clock);
            var after := Run(s, actions);
            && after.darkSince == Some(start) && after.beats == s.beats
            && after.announced == (if Quiet(s, start) then s.announced else !AnyRefuses(chats, verdicts))
            && (Quiet(s, start) ==> after.rows == s.rows)
            && (!Quiet(s, start) ==> Adds(s.rows, after.rows, chats, verdicts, start, s.clock))
    ensures forall chat :: chat in chats <==>
              exists m :: m in s.monitors && !s.monitors[m].consumed && s.monitors[m].chat == chat
    ensures Up !in actions
    ensures forall i, j :: 0 <= i < j < |chats| ==> chats[i] != chats[j]
  {
    var down, decide := Down(t, since), Decide(t, chats);
    var decided := Step(Step(s, down), decide);
    assert [down, decide][1..] == [decide] && [decide][1..] == [];
    assert Run(Step(s, down), [decide]) == Run(decided, []);
    assert Run(s, [down, decide]) == decided;
    assert s.beats[t := Step(s, down).beats[t]] - {t} == s.beats;
    if t in decided.beats {
      var rest := TellsAll(decided, t, verdicts);
      RunJoin(s, [down, decide], rest);
      actions := [down, decide] + rest;
      assert decided.beats - {t} == s.beats;
    } else {
      actions := [down, decide];
    }
  }

  /** The link's return ends the outage: whatever was told or latched before, the
      next one is told to every chat with an unfinished monitor that admits it,
      dated from its own start, however late. */
  lemma NextOutageIsTold(s: State, start: int, chats: seq<ChatId>, verdicts: ChatId -> Verdict)
    returns (actions: seq<Action>)
    requires Lists(s.monitors, chats) && s.monitors != map[]
    requires s.clock - start >= THRESHOLD
    ensures var after := Run(s, [Up] + actions);
            && after.darkSince == Some(start) && after.announced == !AnyRefuses(chats, verdicts)
            && Adds(s.rows, after.rows, chats, verdicts, start, s.clock) && Up !in actions
  {
    var up := Step(s, Up);
    var beat := Unused(s.beats.Keys);
    actions := UninterruptedBeat(up, beat, Some(start), chats, verdicts);
    assert ([Up] + actions)[1..] == actions;
  }
}
