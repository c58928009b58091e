/** The permission ceiling: what an agent may run, reach or forward is never
    above the level it holds itself. */
module Permissions {
  import opened Basics

  /** The vocabulary every provider's modes map to. Unknown is a mode no
      vocabulary knows, and a limit nobody stated. */
  datatype Level = Unknown | Read | Edit | Full

  function Rank(level: Level): (rank: nat)
    ensures rank <= 3
  {
    match level case Unknown => 0 case Read => 1 case Edit => 2 case Full => 3
  }

  /** A provider and one of its modes, both in normal form. */
  datatype Mode = Mode(provider: string, name: string)

  const ASKING_MODES: set<string> := {"ask", "always-ask", "default", "guardian"}

  /** How a provider's vocabulary reads a mode. */
  type Vocabulary = Mode -> Level

  function LevelOf(v: Vocabulary, m: Mode): Level {
    if m.name == "" then Unknown
    else if m.name in ASKING_MODES then Edit
    else v(m)
  }

  function RankOf(v: Vocabulary, m: Mode): nat {
    Rank(LevelOf(v, m))
  }

  // ----- One change -----

  /** Who is asking: a chat or subagent at its mode, or a command from another
      machine under a limit. */
  datatype Caller = Local(mode: Mode) | Forwarded(level: Level)

  function StatedLevel(v: Vocabulary, caller: Caller): (level: Level)
    ensures level != Unknown
  {
    var level := match caller case Local(mode) => LevelOf(v, mode) case Forwarded(level) => level;
    if level == Unknown then Read else level
  }

  function Ceiling(v: Vocabulary, caller: Caller): nat {
    Rank(StatedLevel(v, caller))
  }

  predicate HasFull(v: Vocabulary, caller: Caller) {
    Ceiling(v, caller) == 3
  }

  /** `current` is what a reconfigured chat runs at now. */
  predicate Raises(v: Vocabulary, caller: Caller, target: Mode, current: Option<Mode>) {
    if HasFull(v, caller) || target.name == "" then false
    else if current.Some? && (target == current.value
                              || (RankOf(v, current.value) > 0 && RankOf(v, target) > 0
                                  && RankOf(v, target) <= RankOf(v, current.value)))
    then false
    else if caller.Local? && target == caller.mode then false
    else RankOf(v, target) == 0 || RankOf(v, target) > Ceiling(v, caller)
  }

  /** The modes a caller reaches without anybody's answer. */
  predicate Reaches(v: Vocabulary, caller: Caller, target: Mode) {
    !Raises(v, caller, target, None)
  }

  /** Reaching is a preorder on modes: a mode reaches itself, and what it reaches
      reaches nothing more. */
  lemma ReachesIsAPreorder(v: Vocabulary, a: Mode, b: Mode, c: Mode)
    ensures Reaches(v, Local(a), a)
    ensures Reaches(v, Local(a), b) && Reaches(v, Local(b), c) ==> Reaches(v, Local(a), c)
  {
  }

  /** Exactly what a caller reaches: everything from full access; otherwise a
      provider without modes, its own mode, and any known mode at or below it. */
  lemma ReachesIff(v: Vocabulary, a: Mode, b: Mode)
    ensures Reaches(v, Local(a), b) <==>
              || LevelOf(v, a) == Full || b.name == "" || a == b
              || (RankOf(v, b) == 1 && RankOf(v, a) <= 1)
              || (0 < RankOf(v, b) <= RankOf(v, a))
  {
  }

  // ----- In the providers' own words -----

  /** A mode that asks before it acts, or acts within bounds of its own. */
  predicate Asks(m: Mode) {
    m.name == "ask" || m.name == "always-ask" || m.name == "default" || m.name == "guardian"
  }

  /** What is under a chat that asks, and under one that edits: a provider without
      modes, another asking mode, and what its vocabulary reads as reading or
      editing. */
  predicate AtMostEdit(v: Vocabulary, b: Mode) {
    b.name == "" || Asks(b) || v(b) == Read || v(b) == Edit
  }

  /** What is under a chat that only reads, or that no vocabulary knows. */
  predicate AtMostRead(v: Vocabulary, b: Mode) {
    b.name == "" || (!Asks(b) && v(b) == Read)
  }

  /** Which modes a chat reaches with nobody asked, by its mode's name and by what
      its provider's vocabulary says. A mode nobody knows is reached from itself
      and from full access only. */
  lemma ReachesByName(v: Vocabulary, a: Mode, b: Mode)
    ensures Asks(a) ==> (Reaches(v, Local(a), b) <==> a == b || AtMostEdit(v, b))
    ensures a.name == "" ==> (Reaches(v, Local(a), b) <==> a == b || AtMostRead(v, b))
    ensures a.name != "" && !Asks(a) ==>
              (Reaches(v, Local(a), b) <==>
                 a == b || match v(a)
                           case Full => true
                           case Edit => AtMostEdit(v, b)
                           case Read => AtMostRead(v, b)
                           case Unknown => AtMostRead(v, b))
  {
  }

  /** And what a command from another machine reaches under its limit: silence is
      the lowest. */
  lemma ReachesUnderLimit(v: Vocabulary, level: Level, b: Mode)
    ensures Reaches(v, Forwarded(level), b) <==> match level
                                                 case Full => true
                                                 case Edit => AtMostEdit(v, b)
                                                 case Read => AtMostRead(v, b)
                                                 case Unknown => AtMostRead(v, b)
  {
  }

  predicate ReadsAs(v: Vocabulary, m: Mode, level: Level) {
    m.name != "" && (if Asks(m) then level == Edit else v(m) == level)
  }

  /** A reconfiguration is let through when the new mode is within the caller's
      reach, is the mode the chat has, or is no higher than it. */
  lemma ConfiguresIff(v: Vocabulary, caller: Caller, current: Mode, target: Mode)
    ensures !Raises(v, caller, target, Some(current)) <==>
              || Reaches(v, caller, target) || target == current
              || (ReadsAs(v, target, Read)
                  && (ReadsAs(v, current, Read) || ReadsAs(v, current, Edit) || ReadsAs(v, current, Full)))
              || (ReadsAs(v, target, Edit) && (ReadsAs(v, current, Edit) || ReadsAs(v, current, Full)))
              || (ReadsAs(v, target, Full) && ReadsAs(v, current, Full))
  {
  }

  /** Lowering a chat a caller reaches leaves it within reach, whatever the
      caller's own level. */
  lemma ConfigureStaysWithin(v: Vocabulary, held: Mode, caller: Caller, current: Mode, target: Mode)
    requires Reaches(v, Local(held), current)
    requires forall m :: Reaches(v, caller, m) ==> Reaches(v, Local(held), m)
    requires !Raises(v, caller, target, Some(current))
    ensures Reaches(v, Local(held), target)
  {
    if Reaches(v, caller, target) {
    } else if target == current {
    } else {
      assert RankOf(v, target) <= RankOf(v, current);
    }
  }

  // ----- Starting at the ceiling -----

  /** What to ask of a provider's catalog instead: the caller's own mode by name,
      or its level in that provider's words. */
  datatype Attempt = Named(name: string) | Intent(level: Level)

  function Attempts(v: Vocabulary, caller: Caller, provider: string): seq<Attempt> {
    (if caller.Local? && caller.mode.name != "" && caller.mode.provider == provider then [Named(caller.mode.name)]
        else [])
    + [Intent(StatedLevel(v, caller))]
  }

  ghost predicate SomeAttemptFits(v: Vocabulary, caller: Caller, attempts: seq<Attempt>,
                                  resolve: Attempt -> Option<Mode>) {
    exists attempt :: attempt in attempts && Fits(v, caller, resolve(attempt))
  }

  predicate Fits(v: Vocabulary, caller: Caller, mode: Option<Mode>) {
    mode.Some? && Reaches(v, caller, mode.value)
  }

  /** A selection nobody named starts at the ceiling when its default is above it:
      it is changed only to something within reach, and a card is left to ask
      about only when the provider has nothing within reach. */
  method ResolveWithinCeiling(v: Vocabulary, caller: Caller, named: bool, selected: Option<Mode>,
                              resolve: Attempt -> Option<Mode>)
    returns (mode: Option<Mode>)
    ensures selected.None? || named ==> mode == selected
    ensures mode != selected ==> Fits(v, caller, mode) && !Fits(v, caller, selected)
    ensures selected.Some? && !named ==>
              (Fits(v, caller, mode) <==>
                 Fits(v, caller, selected)
                     || SomeAttemptFits(v, caller, Attempts(v, caller, selected.value.provider), resolve))
    ensures selected.Some? && !named && Reaches(v, caller, selected.value) ==> mode == selected
    ensures selected.Some? && !named && !Reaches(v, caller, selected.value) ==>
              var own := if caller.Local? && caller.mode.name != "" && caller.mode.provider == selected.value.provider
                         then resolve(Named(caller.mode.name)) else None;
              var level := resolve(Intent(StatedLevel(v, caller)));
              mode == if own.Some? && Reaches(v, caller, own.value) then own
                      else if level.Some? && Reaches(v, caller, level.value) then level
                      else selected
  {
    if selected.None? || HasFull(v, caller) || named {
      return selected;
    }
    if !Raises(v, caller, selected.value, None) {
      return selected;
    }
    var attempts := Attempts(v, caller, selected.value.provider);
    assert attempts[|attempts| - 1] == Intent(StatedLevel(v, caller));
    assert |attempts| > 1 ==> |attempts| == 2 && attempts[0] == Named(caller.mode.name);
    for i := 0 to |attempts|
      invariant forall j :: 0 <= j < i ==> !Fits(v, caller, resolve(attempts[j]))
    {
      var within := resolve(attempts[i]);
      if within.Some? && !Raises(v, caller, within.value, None) {
        assert attempts[i] in attempts;
        return within;
      }
    }
    mode := selected;
  }

  // ----- Links -----

  /** The lesser of a link's grant and a caller's limit; silence on both sides is
      full access. */
  function Effective(grant: Level, limit: Level): Level {
    if grant == Unknown && limit == Unknown then Full
    else if grant == Unknown then limit
    else if limit == Unknown then grant
    else if Rank(grant) <= Rank(limit) then grant
    else limit
  }

  lemma EffectiveIsTheMeet(grant: Level, limit: Level)
    ensures Effective(grant, limit) != Unknown
    ensures grant != Unknown ==> Rank(Effective(grant, limit)) <= Rank(grant)
    ensures limit != Unknown ==> Rank(Effective(grant, limit)) <= Rank(limit)
    ensures Effective(grant, limit) in {grant, limit, Full}
  {
  }

  /** The limit a command has after crossing these links, or None where a link is
      refused: work below full access goes no further than the first machine. */
  function Crossed(v: Vocabulary, caller: Caller, grants: seq<Level>): Option<Caller>
    decreases |grants|
  {
    if grants == [] then Some(caller)
    else if caller.Forwarded? && caller.level != Full then None
    else Crossed(v, Forwarded(Effective(grants[0], StatedLevel(v, caller))), grants[1..])
  }

  /** Along a forwarding chain the limit is at or below the caller's own level
      and every grant, and equal to one of them; and every machine passed on the
      way gave full access. */
  lemma {:induction false} ForwardingNarrows(v: Vocabulary, caller: Caller, grants: seq<Level>)
    requires caller.Forwarded? ==> caller.level != Unknown
    requires Crossed(v, caller, grants).Some? && grants != []
    ensures var arrived := Crossed(v, caller, grants).value;
            && arrived.Forwarded? && arrived.level != Unknown
            && Ceiling(v, arrived) <= Ceiling(v, caller)
            && (forall g :: g in grants && g != Unknown ==> Ceiling(v, arrived) <= Rank(g))
            && (arrived.level == StatedLevel(v, caller) || arrived.level in grants)
            && (forall i :: 0 <= i < |grants| - 1 ==> Rank(grants[i]) in {0, 3})
            && (|grants| > 1 ==> HasFull(v, caller))
    decreases |grants|
  {
    var next := Forwarded(Effective(grants[0], StatedLevel(v, caller)));
    EffectiveIsTheMeet(grants[0], StatedLevel(v, caller));
    if |grants| > 1 {
      ForwardingNarrows(v, next, grants[1..]);
      assert grants == [grants[0]] + grants[1..];
    }
  }

  /** A command crosses one link under the lesser of its level and the grant, and
      goes further only where it arrived with full access. */
  lemma {:induction false} CrossesIff(v: Vocabulary, caller: Caller, grants: seq<Level>)
    requires caller.Forwarded? ==> caller.level == Full
    ensures Crossed(v, caller, []) == Some(caller)
    ensures |grants| == 1 ==>
              Crossed(v, caller, grants) == Some(Forwarded(Effective(grants[0], StatedLevel(v, caller))))
    ensures |grants| > 1 ==>
              (Crossed(v, caller, grants).Some? <==>
                 StatedLevel(v, caller) == Full && forall i :: 0 <= i < |grants| - 1 ==> grants[i] in {Unknown, Full})
    ensures |grants| > 1 && Crossed(v, caller, grants).Some? ==>
              Crossed(v, caller, grants).value ==
              Forwarded(if grants[|grants| - 1] == Unknown then Full else grants[|grants| - 1])
    decreases |grants|
  {
    if grants != [] {
      var next := Forwarded(Effective(grants[0], StatedLevel(v, caller)));
      assert grants == [grants[0]] + grants[1..];
      if |grants| > 1 && next.level == Full {
        CrossesIff(v, next, grants[1..]);
      }
    }
  }

  /** What a caller reaches through links, it reaches without them. */
  lemma CrossedReachesNoMore(v: Vocabulary, m: Mode, grants: seq<Level>, target: Mode)
    requires Crossed(v, Local(m), grants).Some? && Reaches(v, Crossed(v, Local(m), grants).value, target)
    ensures Reaches(v, Local(m), target)
  {
    if grants != [] {
      ForwardingNarrows(v, Local(m), grants);
    }
  }

  // ----- Any chain of calls -----

  type Id = nat

  /** Chats and subagents on every machine, and those whose work descends from
      one caller. */
  datatype World = World(modes: map<Id, Mode>, held: set<Id>)

  /** Every call is made by an entity, over any number of links. Create stands for
      chat.create, chat.subsession and agent.spawn, Send for chat.send and more
      work for a subagent. Owner is the human's own change. */
  datatype Call =
    | Create(asker: Id, grants: seq<Level>, made: Id, mode: Mode)
    | Send(asker: Id, grants: seq<Level>, to: Id)
    | Configure(asker: Id, grants: seq<Level>, to: Id, mode: Mode)
    | Owner(of: Id, mode: Mode)

  /** Whether the gate lets a call through with nobody asked. */
  predicate Admitted(v: Vocabulary, w: World, call: Call) {
    if call.Owner? then call.of in w.modes
    else
      && call.asker in w.modes
      && var caller := Crossed(v, Local(w.modes[call.asker]), call.grants);
         caller.Some? &&
         match call
         case Create(_, _, made, mode) => made !in w.modes && Reaches(v, caller.value, mode)
         case Send(_, _, to) => to in w.modes && Reaches(v, caller.value, w.modes[to])
         case Configure(_, _, to, mode) => to in w.modes && !Raises(v, caller.value, mode, Some(w.modes[to]))
         case Owner(_, _) => true
  }

  function Step(v: Vocabulary, w: World, call: Call): World {
    if !Admitted(v, w, call) then w
    else
      match call
      case Create(asker, _, made, mode) => World(w.modes[made := mode], if asker in w.held then w.held + {made}
          else w.held)
      case Send(asker, _, to) => World(w.modes, if asker in w.held then w.held + {to} else w.held)
      case Configure(_, _, to, mode) => World(w.modes[to := mode], w.held)
      case Owner(of, mode) => World(w.modes[of := mode], w.held)
  }

  ghost function Run(v: Vocabulary, w: World, calls: seq<Call>): World
    decreases |calls|
  {
    if calls == [] then w else Run(v, Step(v, w, calls[0]), calls[1..])
  }

  ghost predicate Within(v: Vocabulary, w: World, root: Mode) {
    forall id :: id in w.held ==> id in w.modes && Reaches(v, Local(root), w.modes[id])
  }

  /** Nobody outside the chain, the human or an agent of wider access, raises
      what the chain already drives. */
  ghost predicate Unraised(v: Vocabulary, w: World, call: Call, root: Mode) {
    && (call.Owner? && call.of in w.held ==> Reaches(v, Local(root), call.mode))
    && (call.Configure? && call.to in w.held && call.asker !in w.held ==> Reaches(v, Local(root), call.mode))
  }

  ghost predicate UnraisedRun(v: Vocabulary, w: World, calls: seq<Call>, root: Mode)
    decreases |calls|
  {
    calls == [] || (Unraised(v, w, calls[0], root) && UnraisedRun(v, Step(v, w, calls[0]), calls[1..], root))
  }

  lemma CallerReachesNoMore(v: Vocabulary, root: Mode, asker: Mode, grants: seq<Level>, target: Mode)
    requires Reaches(v, Local(root), asker) && Crossed(v, Local(asker), grants).Some?
    requires Reaches(v, Crossed(v, Local(asker), grants).value, target)
    ensures Reaches(v, Local(root), target)
  {
    CrossedReachesNoMore(v, asker, grants, target);
    ReachesIsAPreorder(v, root, asker, target);
  }

  lemma StepWithin(v: Vocabulary, w: World, call: Call, root: Mode)
    requires Within(v, w, root) && Unraised(v, w, call, root)
    ensures Within(v, Step(v, w, call), root)
  {
    if Admitted(v, w, call) {
      match call
      case Create(asker, grants, made, mode) =>
        if asker in w.held {
          CallerReachesNoMore(v, root, w.modes[asker], grants, mode);
        }
      case Send(asker, grants, to) =>
        if asker in w.held {
          CallerReachesNoMore(v, root, w.modes[asker], grants, w.modes[to]);
        }
      case Configure(asker, grants, to, mode) =>
        if to in w.held && asker in w.held {
          ConfigureHeld(v, w, call, root);
        }
      case Owner(_, _) =>
    }
  }

  lemma ConfigureHeld(v: Vocabulary, w: World, call: Call, root: Mode)
    requires Within(v, w, root) && call.Configure? && Admitted(v, w, call) && call.to in w.held && call.asker in w.held
    ensures Reaches(v, Local(root), call.mode)
  {
    var caller := Crossed(v, Local(w.modes[call.asker]), call.grants).value;
    forall m | Reaches(v, caller, m) ensures Reaches(v, Local(root), m) {
      CallerReachesNoMore(v, root, w.modes[call.asker], call.grants, m);
    }
    ConfigureStaysWithin(v, root, caller, w.modes[call.to], call.mode);
  }

  lemma {:induction false} RunWithin(v: Vocabulary, w: World, calls: seq<Call>, root: Mode)
    requires Within(v, w, root) && UnraisedRun(v, w, calls, root)
    ensures Within(v, Run(v, w, calls), root)
    decreases |calls|
  {
    if calls != [] {
      StepWithin(v, w, calls[0], root);
      RunWithin(v, Step(v, w, calls[0]), calls[1..], root);
    }
  }

  /** No laundering: whatever one caller's creates, sends, configures and
      messages reach, over any links and through any number of chats, with nobody
      asked, runs at a mode the caller reached to begin with. */
  lemma NoLaundering(v: Vocabulary, w: World, root: Id, calls: seq<Call>, id: Id)
    requires root in w.modes && w.held == {root} && UnraisedRun(v, w, calls, w.modes[root])
    requires id in Run(v, w, calls).held
    ensures var modes := Run(v, w, calls).modes; id in modes && Reaches(v, Local(w.modes[root]), modes[id])
  {
    ReachesIsAPreorder(v, w.modes[root], w.modes[root], w.modes[root]);
    RunWithin(v, w, calls, w.modes[root]);
  }

  /** In the providers' words: what descends from a chat that asks, with nobody
      asked, never runs at a mode its vocabulary reads as full access, nor at one
      no vocabulary knows, unless that mode asks itself. */
  lemma NothingFullUnderAnAskingChat(v: Vocabulary, w: World, root: Id, calls: seq<Call>, id: Id)
    requires root in w.modes && w.held == {root} && UnraisedRun(v, w, calls, w.modes[root])
    requires Asks(w.modes[root]) && id in Run(v, w, calls).held
    ensures var modes := Run(v, w, calls).modes; id in modes && AtMostEdit(v, modes[id])
  {
    NoLaundering(v, w, root, calls, id);
    ReachesByName(v, w.modes[root], Run(v, w, calls).modes[id]);
  }

  /** The account of what descends from a caller leaves nothing out: every call
      that is let through has its effect, and what a member of the chain makes or
      drives joins it. */
  lemma AdmittedTakesEffect(v: Vocabulary, w: World, call: Call)
    ensures !Admitted(v, w, call) ==> Step(v, w, call) == w
    ensures Admitted(v, w, call) && call.Create? ==>
              && Step(v, w, call).modes == w.modes[call.made := call.mode]
              && (call.asker in w.held ==> call.made in Step(v, w, call).held)
    ensures Admitted(v, w, call) && call.Send? ==>
              Step(v, w, call).modes == w.modes && (call.asker in w.held ==> call.to in Step(v, w, call).held)
    ensures Admitted(v, w, call) && call.Configure? ==> Step(v, w, call).modes == w.modes[call.to := call.mode]
    ensures Admitted(v, w, call) && call.Owner? ==> Step(v, w, call).modes == w.modes[call.of := call.mode]
    ensures w.held <= Step(v, w, call).held
  {
  }

  /** On one machine a call is let through exactly when its target is there and
      its mode within reach. */
  lemma AdmittedHere(v: Vocabulary, w: World, asker: Id, other: Id, mode: Mode)
    requires asker in w.modes
    ensures Admitted(v, w, Create(asker, [], other, mode)) <==>
              other !in w.modes && Reaches(v, Local(w.modes[asker]), mode)
    ensures Admitted(v, w, Send(asker, [], other)) <==>
              other in w.modes && Reaches(v, Local(w.modes[asker]), w.modes[other])
    ensures Admitted(v, w, Configure(asker, [], other, mode)) <==>
              other in w.modes && !Raises(v, Local(w.modes[asker]), mode, Some(w.modes[other]))
    ensures Admitted(v, w, Owner(other, mode)) <==> other in w.modes
  {
  }
}
