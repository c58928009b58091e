/** The watcher's half: one slice of a log applied to one monitor and the chat
    that asked. */
module FleetWatcher {
  import opened Basics
  import opened Fleetlog

  // ----- What an event becomes in the chat -----

  /** The admission key of a notice: its kind and the durable fact it is about,
      for one target and one chat. */
  datatype OperationId =
    | ProcessExitOf(receipt: string)
    | SubagentExitOf(receipt: string)
    | StallOf(attentionKind: string)
    | AttentionOf(text: string)

  /** The actionable filter: which events notify, and under which key. */
  function Notice(e: Event): Option<OperationId> {
    match e.kind
    case Exit =>
      (match e.payload
       case ProcessExit(suppressed, receipt) => if suppressed then None else Some(ProcessExitOf(receipt))
       case SubagentExit(suppressed, settled, receipt) =>
         if suppressed || !settled then None else Some(SubagentExitOf(receipt))
       case _ => None)
    case Attention =>
      (match e.payload
       case Question(kind, text) =>
         if kind == "stalled" || kind == "max_hold" then Some(StallOf(kind)) else Some(AttentionOf(text))
       case _ => Some(AttentionOf("")))
    case _ => None
  }

  datatype ChatRow = ChatRow(operation: OperationId, seqNo: nat)

  datatype Chat = Chat(operations: set<OperationId>, rows: seq<ChatRow>)

  /** What becomes of a notice at this moment: a deleted, re-homed or stopped
      chat takes it and adds nothing, and so does the window that holds it for a
      duplicate; an actor that cannot admit refuses it. */
  datatype Verdict = Admits | Ineligible | Refuses

  datatype Projection = Projection(ok: bool, chat: Chat)

  function Project(chat: Chat, e: Event, verdict: Verdict): Projection {
    match Notice(e)
    case None => Projection(true, chat)
    case Some(operation) =>
      if verdict.Refuses? then Projection(false, chat)
      else if verdict.Ineligible? || operation in chat.operations then Projection(true, chat)
      else Projection(true, Chat(chat.operations + {operation}, chat.rows + [ChatRow(operation, e.seqNo)]))
  }

  // ----- What is owed a row -----

  /** An event the chat is to be told of: an end nobody suppressed, a subagent's
      only once it settled, or a call for attention. */
  predicate Actionable(e: Event) {
    || (e.kind == Exit && e.payload.ProcessExit? && !e.payload.suppressed)
    || (e.kind == Exit && e.payload.SubagentExit? && !e.payload.suppressed && e.payload.settled)
    || e.kind == Attention
  }

  /** The key an event is told under: its receipt, the kind of a stall, or the
      text of any other question. */
  predicate Keyed(e: Event, key: OperationId) {
    match key
    case ProcessExitOf(receipt) => e.kind == Exit && e.payload == ProcessExit(false, receipt)
    case SubagentExitOf(receipt) => e.kind == Exit && e.payload == SubagentExit(false, true, receipt)
    case StallOf(kind) =>
      e.kind == Attention && e.payload.Question? && e.payload.attentionKind == kind && kind in {"stalled", "max_hold"}
    case AttentionOf(text) =>
      e.kind == Attention && (if e.payload.Question?
                              then e.payload.text == text && e.payload.attentionKind !in {"stalled", "max_hold"}
                              else text == "")
  }

  lemma NoticeIs(e: Event)
    ensures Notice(e).Some? <==> Actionable(e)
    ensures forall key :: Keyed(e, key) <==> Notice(e) == Some(key)
  {
  }

  /** The next event of a slice, with a chat that admits it: the cursor takes it,
      an end consumes the monitor, and one row is added if and only if the event
      is actionable and its key not yet held. */
  lemma NextEventIsShownIff(monitor: Monitor, chat: Chat, e: Event, verdict: Event -> Verdict)
    requires e.seqNo == monitor.applied + 1 && verdict(e).Admits?
    ensures var end := ApplyEvents(monitor, chat, [e], verdict);
            && end.monitor == Monitor(e.seqNo, monitor.consumed || e.kind == Exit) && !end.refused
            && (!Actionable(e) ==> end.chat == chat && forall key :: !Keyed(e, key))
            && (Actionable(e) ==>
                  exists key :: Keyed(e, key)
                    && end.chat == if key in chat.operations then chat
                                   else Chat(chat.operations + {key}, chat.rows + [ChatRow(key, e.seqNo)]))
  {
    NoticeIs(e);
    assert [e][1..] == [];
    if Actionable(e) {
      assert Keyed(e, Notice(e).value);
    }
  }

  /** A chat that refuses takes nothing, and one that is gone or holds the notice
      for a duplicate takes it and adds nothing. */
  lemma NextEventNotAdmitted(monitor: Monitor, chat: Chat, e: Event, verdict: Event -> Verdict)
    requires e.seqNo == monitor.applied + 1 && !verdict(e).Admits? && Actionable(e)
    ensures var end := ApplyEvents(monitor, chat, [e], verdict);
            && end.chat == chat && (end.refused <==> verdict(e).Refuses?)
            && end.monitor == if verdict(e).Refuses? then monitor
                              else Monitor(e.seqNo, monitor.consumed || e.kind == Exit)
  {
    NoticeIs(e);
    assert [e][1..] == [];
  }

  // ----- One slice -----

  datatype Monitor = Monitor(applied: nat, consumed: bool)

  function Moved(monitor: Monitor, e: Event): Monitor {
    Monitor(e.seqNo, monitor.consumed || Terminal(e.kind))
  }

  datatype Applied = Applied(monitor: Monitor, chat: Chat, refused: bool)

  /** Events in order: an applied one is skipped, one past a gap or refused by
      the chat ends the slice. */
  function ApplyEvents(monitor: Monitor, chat: Chat, events: seq<Event>, verdict: Event -> Verdict): Applied
    decreases |events|
  {
    if events == [] then Applied(monitor, chat, false)
    else
      var e := events[0];
      if e.seqNo <= monitor.applied then ApplyEvents(monitor, chat, events[1..], verdict)
      else if e.seqNo > monitor.applied + 1 then Applied(monitor, chat, false)
      else
        var projection := Project(chat, e, verdict(e));
        if !projection.ok then Applied(monitor, chat, true)
        else ApplyEvents(Moved(monitor, e), projection.chat, events[1..], verdict)
  }

  ghost predicate RowsWithin(rows: seq<ChatRow>, after: nat, through: nat) {
    forall row :: row in rows ==> after < row.seqNo <= through
  }

  /** The cursor has only advanced, and every row added is of an event it passed. */
  ghost predicate Extends(monitor: Monitor, chat: Chat, end: Applied) {
    && monitor.applied <= end.monitor.applied
    && chat.rows <= end.chat.rows
    && RowsWithin(end.chat.rows[|chat.rows|..], monitor.applied, end.monitor.applied)
  }

  /** The events have nothing for the number above the cursor, unless the chat
      refused the one that stands there. */
  ghost predicate StopsAt(end: Applied, events: seq<Event>, verdict: Event -> Verdict) {
    if end.refused then
      exists e :: e in events && e.seqNo == end.monitor.applied + 1 && Actionable(e) && verdict(e).Refuses?
    else
      forall e :: e in events ==> e.seqNo != end.monitor.applied + 1
  }

  lemma {:induction false} ApplyEventsGrows(monitor: Monitor, chat: Chat, events: seq<Event>,
                                            verdict: Event -> Verdict)
    ensures Extends(monitor, chat, ApplyEvents(monitor, chat, events, verdict))
    decreases |events|
  {
    if events != [] {
      var e := events[0];
      if e.seqNo <= monitor.applied {
        ApplyEventsGrows(monitor, chat, events[1..], verdict);
      } else if e.seqNo == monitor.applied + 1 && Project(chat, e, verdict(e)).ok {
        var chat' := Project(chat, e, verdict(e)).chat;
        ApplyEventsGrows(Moved(monitor, e), chat', events[1..], verdict);
      }
    }
  }

  lemma {:induction false} ApplyEventsStops(monitor: Monitor, chat: Chat, events: seq<Event>,
                                            verdict: Event -> Verdict)
    requires InOrder(events)
    ensures StopsAt(ApplyEvents(monitor, chat, events, verdict), events, verdict)
    decreases |events|
  {
    if events != [] {
      var e, end := events[0], ApplyEvents(monitor, chat, events, verdict);
      if e.seqNo <= monitor.applied {
        ApplyEventsStops(monitor, chat, events[1..], verdict);
        ApplyEventsGrows(monitor, chat, events[1..], verdict);
      } else if e.seqNo == monitor.applied + 1 {
        var projection := Project(chat, e, verdict(e));
        if projection.ok {
          ApplyEventsStops(Moved(monitor, e), projection.chat, events[1..], verdict);
          ApplyEventsGrows(Moved(monitor, e), projection.chat, events[1..], verdict);
        } else {
          assert e in events;
        }
      }
    }
  }

  /** A slice from below the log's first event moves the cursor up to it. */
  function Resynced(monitor: Monitor, slice: Slice): Monitor {
    if slice.truncated && slice.truncatedTo > monitor.applied then monitor.(applied := slice.truncatedTo) else monitor
  }

  function Insert(e: Event, events: seq<Event>): (r: seq<Event>)
    ensures multiset(r) == multiset(events) + multiset{e}
  {
    if events == [] || e.seqNo <= events[0].seqNo then [e] + events
    else
      assert events == [events[0]] + events[1..];
      [events[0]] + Insert(e, events[1..])
  }

  /** The stable sort by sequence number. */
  function Sorted(events: seq<Event>): (r: seq<Event>)
    ensures multiset(r) == multiset(events)
  {
    if events == [] then []
    else
      assert events == [events[0]] + events[1..];
      Insert(events[0], Sorted(events[1..]))
  }

  /** Sorted by number: a slice that arrived out of order is applied in order. */
  ghost predicate InOrder(events: seq<Event>) {
    forall i, j :: 0 <= i < j < |events| ==> events[i].seqNo <= events[j].seqNo
  }

  lemma {:induction false} InsertInOrder(e: Event, events: seq<Event>)
    requires InOrder(events)
    ensures InOrder(Insert(e, events))
  {
    if events != [] && events[0].seqNo < e.seqNo {
      InsertInOrder(e, events[1..]);
      forall x | x in Insert(e, events[1..]) ensures events[0].seqNo <= x.seqNo {
        assert x in multiset(events[1..]) + multiset{e};
      }
    }
  }

  lemma {:induction false} SortedInOrder(events: seq<Event>)
    ensures InOrder(Sorted(events)) && multiset(Sorted(events)) == multiset(events)
  {
    if events != [] {
      SortedInOrder(events[1..]);
      InsertInOrder(events[0], Sorted(events[1..]));
    }
  }

  lemma SortedHolds(events: seq<Event>)
    ensures forall e :: e in Sorted(events) <==> e in events
  {
    forall e ensures e in Sorted(events) <==> e in events {
      assert e in multiset(Sorted(events)) <==> e in multiset(events);
    }
  }

  lemma {:induction false} SortedAscending(events: seq<Event>)
    requires Ascending(events)
    ensures Sorted(events) == events
  {
    if events != [] {
      SortedAscending(events[1..]);
    }
  }

  function SliceApplied(monitor: Monitor, chat: Chat, slice: Slice, verdict: Event -> Verdict): Applied {
    ApplyEvents(Resynced(monitor, slice), chat, Sorted(slice.events), verdict)
  }

  lemma SortedStops(events: seq<Event>, end: Applied, verdict: Event -> Verdict)
    requires StopsAt(end, Sorted(events), verdict)
    ensures StopsAt(end, events, verdict)
  {
    SortedHolds(events);
  }

  /** Where a slice leaves off, in whatever order it arrived: nothing past an
      event the chat refused is shown or applied, and nothing else that was next
      is left behind. */
  lemma SliceStops(monitor: Monitor, chat: Chat, slice: Slice, verdict: Event -> Verdict)
    ensures Extends(Resynced(monitor, slice), chat, SliceApplied(monitor, chat, slice, verdict))
    ensures StopsAt(SliceApplied(monitor, chat, slice, verdict), slice.events, verdict)
  {
    var start, events := Resynced(monitor, slice), Sorted(slice.events);
    SortedInOrder(slice.events);
    ApplyEventsGrows(start, chat, events, verdict);
    ApplyEventsStops(start, chat, events, verdict);
    SortedStops(slice.events, ApplyEvents(start, chat, events, verdict), verdict);
  }

  /** What is acknowledged: the cursor, when applying events moved it. */
  function Ack(before: Monitor, after: Monitor): Option<nat> {
    if after.applied > before.applied then Some(after.applied) else None
  }

  /** The refusals counted against a monitor once a slice is done. */
  function RefusalsAfter(refused: map<string, nat>, ref: string, advanced: bool, refusal: bool): map<string, nat> {
    var cleared := if advanced then refused - {ref} else refused;
    if refusal then cleared[ref := (if ref in cleared then cleared[ref] else 0) + 1] else cleared
  }

  /** A refusal is one more in a row; an event taken ends the row, and other
      monitors' counts stay. */
  lemma RefusalsInARow(refused: map<string, nat>, ref: string, advanced: bool, refusal: bool)
    ensures var after := RefusalsAfter(refused, ref, advanced, refusal);
            && after - {ref} == refused - {ref}
            && (ref in after <==> refusal || (ref in refused && !advanced))
            && (ref in after && (advanced || ref !in refused) ==> after[ref] == 1)
            && (ref in refused && !advanced ==> after[ref] == refused[ref] + if refusal then 1 else 0)
  {
  }

  lemma ClearedTwice(refused: map<string, nat>, ref: string)
    ensures refused - {ref} - {ref} == refused - {ref}
  {
  }

  /** The durable monitors, the chats they report to, and the refusals still
      owed another attempt. */
  class Watcher {
    var monitors: map<string, Monitor>
    var chats: map<string, Chat>
    var refused: map<string, nat>

    ghost predicate Valid()
      reads this
    {
      monitors.Keys <= chats.Keys
    }

    method DeliveryRefused(ref: string)
      modifies `refused
      ensures refused == RefusalsAfter(old(refused), ref, false, true)
    {
      refused := refused[ref := (if ref in refused then refused[ref] else 0) + 1];
    }

    method DeliveryAdmitted(ref: string)
      modifies `refused
      ensures refused == old(refused) - {ref}
    {
      refused := refused - {ref};
    }

    method ApplySlice(ref: string, slice: Slice, verdict: Event -> Verdict) returns (ack: Option<nat>)
      requires Valid()
      modifies this
      ensures Valid()
      ensures ref !in old(monitors) ==> ack == None && unchanged(this)
      ensures ref in old(monitors) ==>
                var start := Resynced(old(monitors[ref]), slice);
                var end := SliceApplied(old(monitors[ref]), old(chats[ref]), slice, verdict);
                && monitors == old(monitors)[ref := end.monitor]
                && chats == old(chats)[ref := end.chat]
                && refused == RefusalsAfter(old(refused), ref, end.monitor.applied > start.applied, end.refused)
                && ack == Ack(start, end.monitor)
    {
      if ref !in monitors {
        return None;
      }
      if slice.truncated && slice.truncatedTo > monitors[ref].applied {
        monitors := monitors[ref := monitors[ref].(applied := slice.truncatedTo)];
      }
      var row, chat := monitors[ref], chats[ref];
      var start := row.applied;
      var applied := start;
      var ordered := Sorted(slice.events);
      ghost var end := ApplyEvents(row, chat, ordered, verdict);
      var i := 0;
      while i < |ordered|
        invariant 0 <= i <= |ordered|
        invariant monitors == old(monitors)[ref := row]
        invariant chats == old(chats)[ref := chat]
        invariant applied == row.applied >= start
        invariant refused == RefusalsAfter(old(refused), ref, applied > start, false)
        invariant end == ApplyEvents(row, chat, ordered[i..], verdict)
      {
        var e := ordered[i];
        i := i + 1;
        if e.seqNo <= applied {
          continue;
        }
        if e.seqNo > applied + 1 {
          break;
        }
        var projection := Project(chat, e, verdict(e));
        if !projection.ok {
          DeliveryRefused(ref);
          break;
        }
        chat := projection.chat;
        chats := chats[ref := chat];
        ClearedTwice(old(refused), ref);
        DeliveryAdmitted(ref);
        applied := e.seqNo;
        row := Moved(row, e);
        monitors := monitors[ref := row];
      }
      assert monitors[ref] == row == end.monitor && chats[ref] == chat == end.chat;
      ack := if applied > start then Some(applied) else None;
    }
  }
}
