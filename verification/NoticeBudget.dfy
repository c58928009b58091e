/** Duplicate suppression inside a window, and the one notice per outage of a
    machine that cannot be seen. */
module NoticeBudget {
  import opened Basics

  type ChatId = nat

  /** What a notice is about. */
  datatype Notice =
    | ProcessExit(target: string, receipt: string)
    | SubagentExit(target: string, receipt: string)
    | Attention(target: string, kind: string, text: string)
    | HomeDown(home: string, since: int)

  /** What makes two arrivals the same notice inside the window. */
  datatype Identity = OfHome(home: string) | OfAttention(target: string, text: string) | OfExit(target: string,
      receipt: string)

  function IdentityOf(n: Notice): Identity {
    match n
    case ProcessExit(target, _) => OfExit(target, "")
    case SubagentExit(target, receipt) => OfExit(target, receipt)
    case Attention(target, _, text) => OfAttention(target, text)
    case HomeDown(home, _) => OfHome(home)
  }

  /** What makes two arrivals the same row in the chat. */
  datatype OperationId =
    | ProcessExitOf(receipt: string)
    | SubagentExitOf(target: string, receipt: string)
    | StallOf(kind: string, target: string)
    | AttentionOf(target: string, text: string)
    | HomeDownOf(home: string, since: int)

  function OperationOf(n: Notice): OperationId {
    match n
    case ProcessExit(_, receipt) => ProcessExitOf(receipt)
    case SubagentExit(target, receipt) => SubagentExitOf(target, receipt)
    case Attention(target, kind, text) =>
      if kind == "stalled" || kind == "max_hold" then StallOf(kind, target) else AttentionOf(target, text)
    case HomeDown(home, since) => HomeDownOf(home, since)
  }

  /** The window takes two different rows for one notice exactly when they are
      two exits of one process under different receipts, an exit of a process
      and of a subagent without a receipt, two outages of one machine, or two
      questions of one text of which one at least is a stall of another kind. */
  lemma WindowMergesIff(a: Notice, b: Notice)
    ensures IdentityOf(a) == IdentityOf(b) && OperationOf(a) != OperationOf(b) <==>
              || (a.ProcessExit? && b.ProcessExit? && a.target == b.target && a.receipt != b.receipt)
              || (a.ProcessExit? && b.SubagentExit? && a.target == b.target && b.receipt == "")
              || (a.SubagentExit? && b.ProcessExit? && a.target == b.target && a.receipt == "")
              || (a.HomeDown? && b.HomeDown? && a.home == b.home && a.since != b.since)
              || (a.Attention? && b.Attention? && a.target == b.target && a.text == b.text && a.kind != b.kind
                  && (a.kind in {"stalled", "max_hold"} || b.kind in {"stalled", "max_hold"}))
  {
  }

  // ----- The window -----

  datatype Record = Record(key: Identity, at: int)

  const WINDOW: int := 60

  /** The records still inside the window. */
  function Current(records: seq<Record>, now: int): seq<Record> {
    if records == [] then []
    else (if now - records[0].at > WINDOW then [] else [records[0]]) + Current(records[1..], now)
  }

  function Without(records: seq<Record>, key: Identity): seq<Record> {
    if records == [] then []
    else (if records[0].key == key then [] else [records[0]]) + Without(records[1..], key)
  }

  predicate Holds(records: seq<Record>, key: Identity) {
    exists r :: r in records && r.key == key
  }

  lemma {:induction false} CurrentIs(records: seq<Record>, now: int)
    ensures forall r :: r in Current(records, now) <==> r in records && now - r.at <= WINDOW
  {
    if records != [] {
      CurrentIs(records[1..], now);
      assert records == [records[0]] + records[1..];
    }
  }

  lemma {:induction false} WithoutIs(records: seq<Record>, key: Identity)
    ensures forall r :: r in Without(records, key) <==> r in records && r.key != key
  {
    if records != [] {
      WithoutIs(records[1..], key);
      assert records == [records[0]] + records[1..];
    }
  }

  function Of(recent: map<ChatId, seq<Record>>, chat: ChatId): seq<Record> {
    if chat in recent then recent[chat] else []
  }

  class Budget {
    var recent: map<ChatId, seq<Record>>

    constructor ()
      ensures recent == map[]
    {
      recent := map[];
    }

    method Admit(chat: ChatId, key: Identity, now: int) returns (admitted: bool)
      modifies this
      ensures var kept := Current(Of(old(recent), chat), now);
              && admitted == !Holds(kept, key)
              && recent == old(recent)[chat := if admitted then kept + [Record(key, now)] else kept]
    {
      var records := Of(recent, chat);
      var kept, duplicate := [], false;
      for i := 0 to |records|
        invariant Current(records, now) == kept + Current(records[i..], now)
        invariant duplicate <==> Holds(kept, key)
      {
        assert records[i..][1..] == records[i + 1..];
        if now - records[i].at <= WINDOW {
          duplicate := duplicate || records[i].key == key;
          kept := kept + [records[i]];
        }
      }
      assert Current(records, now) == kept;
      recent := recent[chat := if duplicate then kept else kept + [Record(key, now)]];
      admitted := !duplicate;
    }

    method Forget(chat: ChatId, key: Identity)
      modifies this
      ensures recent == old(recent)[chat := Without(Of(old(recent), chat), key)]
    {
      var records := Of(recent, chat);
      var kept := [];
      for i := 0 to |records|
        invariant Without(records, key) == kept + Without(records[i..], key)
      {
        assert records[i..][1..] == records[i + 1..];
        if records[i].key != key {
          kept := kept + [records[i]];
        }
      }
      assert Without(records, key) == kept;
      recent := recent[chat := kept];
    }
  }

  // ----- Emitting -----

  /** One chat's window and what has been delivered to it. Admission and delivery
      are two steps: `open` are the admitted notices still being delivered. */
  datatype State = State(records: seq<Record>, delivered: set<Record>, open: map<nat, Record>)

  const START := State([], {}, map[])

  datatype Action =
    | Admit(t: nat, key: Identity, now: int)
    | Deliver(t: nat, ok: bool)

  function Step(s: State, a: Action): State {
    match a
    case Admit(t, key, now) =>
      var kept := Current(s.records, now);
      if t in s.open then s
      else if Holds(kept, key) then s.(records := kept)
      else State(kept + [Record(key, now)], s.delivered, s.open[t := Record(key, now)])
    case Deliver(t, ok) =>
      if t !in s.open then s
      else if ok then State(s.records, s.delivered + {s.open[t]}, s.open - {t})
      else State(Without(s.records, s.open[t].key), s.delivered, s.open - {t})
  }

  function Run(s: State, actions: seq<Action>): State
    decreases |actions|
  {
    if actions == [] then s else Run(Step(s, actions[0]), actions[1..])
  }

  /** Whether a notice offered now would be held: reported as handled, and not
      delivered. */
  predicate Held(s: State, key: Identity, now: int) {
    Holds(Current(s.records, now), key)
  }

  ghost predicate Inv(s: State) {
    && (forall r :: r in s.records ==> r in s.delivered || exists t :: t in s.open && s.open[t] == r)
  }

  lemma StepInv(s: State, a: Action)
    requires Inv(s)
    ensures Inv(Step(s, a))
  {
    var s' := Step(s, a);
    if a.Admit? {
      CurrentIs(s.records, a.now);
      if s'.open != s.open {
        assert s'.open[a.t] == Record(a.key, a.now);
        forall r | r in s'.records ensures r in s'.delivered || exists t :: t in s'.open && s'.open[t] == r {
          if r in s.records && r !in s.delivered {
            var t :| t in s.open && s.open[t] == r;
            assert t in s'.open && s'.open[t] == r;
          }
        }
      }
    } else if a.t in s.open {
      WithoutIs(s.records, s.open[a.t].key);
      forall r | r in s'.records ensures r in s'.delivered || exists t :: t in s'.open && s'.open[t] == r {
        if r !in s.delivered {
          var t :| t in s.open && s.open[t] == r;
          assert t != a.t ==> t in s'.open && s'.open[t] == r;
        }
      }
    }
  }

  /** A delivery ends with its notice in the chat, or with no trace of it in the
      window, so that the next of its identity is offered; other notices stay as
      they are. */
  lemma DeliveryEnds(s: State, t: nat, ok: bool)
    requires t in s.open
    ensures var after, record := Step(s, Deliver(t, ok)), s.open[t];
            && after.open == s.open - {t} && after.delivered == s.delivered + (if ok then {record} else {})
            && (forall r: Record :: r.key != record.key ==> (r in after.records <==> r in s.records))
            && if ok then after.records == s.records else forall now :: !Held(after, record.key, now)
  {
    WithoutIs(s.records, s.open[t].key);
    var after := Step(s, Deliver(t, ok));
    forall now ensures Held(after, s.open[t].key, now) ==> ok {
      CurrentIs(after.records, now);
    }
  }

  lemma {:induction false} RunInv(s: State, actions: seq<Action>)
    requires Inv(s)
    ensures Inv(Run(s, actions))
    decreases |actions|
  {
    if actions != [] {
      StepInv(s, actions[0]);
      RunInv(Step(s, actions[0]), actions[1..]);
    }
  }

  /** A notice is held only for one of its identity delivered inside the window,
      or still being delivered by another thread. */
  lemma HeldIsDeliveredOrOpen(actions: seq<Action>, key: Identity, now: int)
    requires Held(Run(START, actions), key, now)
    ensures var s := Run(START, actions);
            exists r: Record :: r.key == key && now - r.at <= WINDOW
                             && (r in s.delivered || exists t :: t in s.open && s.open[t] == r)
  {
    var s := Run(START, actions);
    RunInv(START, actions);
    CurrentIs(s.records, now);
    var r :| r in Current(s.records, now) && r.key == key;
    assert r in s.records;
  }

  /** One emission at a time, a held notice has reached the chat. */
  lemma HeldIsDelivered(actions: seq<Action>, key: Identity, now: int)
    requires Held(Run(START, actions), key, now) && Run(START, actions).open == map[]
    ensures exists r: Record :: r in Run(START, actions).delivered && r.key == key && now - r.at <= WINDOW
  {
    HeldIsDeliveredOrOpen(actions, key, now);
  }

  lemma {:induction false} RunJoin(s: State, before: seq<Action>, after: seq<Action>)
    ensures Run(s, before + after) == Run(Run(s, before), after)
    decreases |before|
  {
    if before == [] {
      assert before + after == after;
    } else {
      assert (before + after)[1..] == before[1..] + after;
      RunJoin(Step(s, before[0]), before[1..], after);
    }
  }

  /** Every delivery under way fails. */
  lemma {:induction false} AllFail(s: State) returns (actions: seq<Action>)
    ensures var t := Run(s, actions);
            t.open == map[] && t.delivered == s.delivered && forall r :: r in t.records ==> r in s.records
    decreases |s.open|
  {
    if s.open == map[] {
      actions := [];
    } else {
      var t :| t in s.open;
      assert (s.open - {t}).Keys == s.open.Keys - {t};
      WithoutIs(s.records, s.open[t].key);
      var rest := AllFail(Step(s, Deliver(t, false)));
      actions := [Deliver(t, false)] + rest;
    }
  }

  /** Whenever a notice would be held and none of its identity was delivered
      inside the window, it may never be: it is offered, held and so reported as
      handled, and every delivery under way then fails. */
  lemma HeldMayNeverBeDelivered(run: seq<Action>, key: Identity, now: int) returns (t: nat, rest: seq<Action>)
    requires Held(Run(START, run), key, now)
    requires forall r :: r in Run(START, run).delivered && r.key == key ==> now - r.at > WINDOW
    ensures t !in Run(START, run).open && Step(Run(START, run), Admit(t, key, now)).open == Run(START, run).open
    ensures var after := Run(START, run + [Admit(t, key, now)] + rest);
            && after.open == map[] && after.delivered == Run(START, run).delivered
            && forall r :: r in after.records ==> r.key != key
  {
    var s := Run(START, run);
    t := Unused(s.open.Keys);
    var held := Step(s, Admit(t, key, now));
    CurrentIs(s.records, now);
    rest := AllFail(held);
    assert [Admit(t, key, now)][1..] == [] && Run(held, []) == held;
    RunJoin(START, run, [Admit(t, key, now)]);
    RunJoin(START, run + [Admit(t, key, now)], rest);
    RunInv(START, run + [Admit(t, key, now)] + rest);
    forall r | r in Run(held, rest).records ensures r.key != key {
      assert r in held.records && r in s.delivered;
    }
  }

  /** Two at a time, it may never: the second is held while the first is being
      delivered, and the first then fails. */
  lemma HeldAndNeverDelivered(key: Identity, now: int)
    ensures var s := Run(START, [Admit(0, key, now)]);
            && Held(s, key, now)
            && var after := Run(s, [Admit(1, key, now), Deliver(0, false)]);
               after.delivered == {} && after.open == map[] && after.records == []
  {
    var r := Record(key, now);
    var s := Step(START, Admit(0, key, now));
    assert s == State([r], {}, map[0 := r]);
    assert Run(START, [Admit(0, key, now)]) == s by {
      assert [Admit(0, key, now)][1..] == [];
    }
    assert Current([r], now) == [r] && r in [r];
    var held := Step(s, Admit(1, key, now));
    assert held == s;
    var after := Step(held, Deliver(0, false));
    assert Without([r], key) == [];
    assert [Admit(1, key, now), Deliver(0, false)][1..] == [Deliver(0, false)] && [Deliver(0, false)][1..] == [];
  }
}
