/** One entity's log at its home: consecutive sequence numbers, reads from a
    cursor, and retention that keeps an outcome somebody is still owed. */
module Fleetlog {
  import opened Basics

  datatype Kind = Exit | Attention | Waiting | Resumed | Progress | Spawned

  /** The events retention may not drop before they are acknowledged. */
  predicate Terminal(kind: Kind) {
    kind == Exit
  }

  /** What the projection reads out of an event's payload. */
  datatype Payload =
    | ProcessExit(suppressed: bool, receipt: string)
    | SubagentExit(suppressed: bool, settled: bool, receipt: string)
    | Question(attentionKind: string, text: string)
    | Bare

  datatype Event = Event(seqNo: nat, kind: Kind, at: int, payload: Payload)

  /** The file: the `to_seq` of its truncation marker (0 without one) and the
      events it still holds. */
  datatype Log = Log(toSeq: nat, events: seq<Event>)

  const NEW_LOG := Log(0, [])

  ghost predicate Ascending(events: seq<Event>) {
    forall i, j :: 0 <= i < j < |events| ==> events[i].seqNo < events[j].seqNo
  }

  ghost predicate Valid(log: Log) {
    && Ascending(log.events)
    && (log.events != [] ==> log.events[0].seqNo == log.toSeq + 1)
  }

  function Head(log: Log): nat {
    if log.events == [] then log.toSeq else log.events[|log.events| - 1].seqNo
  }

  function FirstSeq(log: Log): nat {
    if log.events == [] then 0 else log.events[0].seqNo
  }

  // ----- Reading from a cursor -----

  datatype Slice = Slice(events: seq<Event>, head: nat, firstSeq: nat, truncated: bool, truncatedTo: nat)

  const MAX_SLICE_EVENTS: nat := 256

  /** The events above a cursor, in log order. */
  function Above(events: seq<Event>, after: nat): (above: seq<Event>)
    ensures |above| <= |events|
  {
    if events == [] then []
    else if events[0].seqNo <= after then Above(events[1..], after)
    else [events[0]] + Above(events[1..], after)
  }

  function Take<T>(s: seq<T>, n: nat): seq<T> {
    if |s| <= n then s else s[..n]
  }

  predicate Behind(log: Log, after: nat) {
    FirstSeq(log) > 0 && after + 1 < FirstSeq(log)
  }

  function Since(log: Log, after: nat): Slice {
    var truncated := Behind(log, after);
    Slice(Take(Above(log.events, if truncated then 0 else after), MAX_SLICE_EVENTS),
          Head(log), FirstSeq(log), truncated, if truncated then FirstSeq(log) - 1 else 0)
  }

  lemma {:induction false} AboveSound(events: seq<Event>, after: nat)
    ensures forall e :: e in Above(events, after) <==> e in events && e.seqNo > after
  {
    if events != [] {
      AboveSound(events[1..], after);
      assert events == [events[0]] + events[1..];
    }
  }

  lemma {:induction false} AboveAscending(events: seq<Event>, after: nat)
    requires Ascending(events)
    ensures Ascending(Above(events, after))
  {
    if events != [] {
      AboveAscending(events[1..], after);
      AboveSound(events[1..], after);
      forall e | e in Above(events[1..], after) ensures events[0].seqNo < e.seqNo {
        assert e in events[1..];
      }
    }
  }

  /** A slice holds retained events in order, and one that starts past its
      cursor jumps no further than to just below the first event retained. */
  lemma SinceSound(log: Log, after: nat)
    requires Valid(log)
    ensures var slice := Since(log, after);
            && Ascending(slice.events)
            && (forall e :: e in slice.events ==> e in log.events)
            && (slice.truncated ==> forall e :: e in log.events ==> slice.truncatedTo < e.seqNo)
            && (slice.truncated ==> slice.truncatedTo == log.toSeq)
            && (!slice.truncated ==> forall e :: e in slice.events ==> after < e.seqNo)
  {
    var cursor := if Behind(log, after) then 0 else after;
    AboveAscending(log.events, cursor);
    AboveSound(log.events, cursor);
  }

  // ----- Retention -----

  /** `through` is the lowest acknowledgement over every monitor on the entity,
      or None while nobody monitors it. */
  datatype Retention = Retention(maxEvents: nat, cutoff: int, through: Option<nat>)

  predicate StillOwed(e: Event, policy: Retention) {
    Terminal(e.kind) && policy.through.Some? && e.seqNo > policy.through.value
  }

  /** `left` counts the events from this one to the end of the log. */
  predicate Keeps(e: Event, left: nat, policy: Retention) {
    || (left <= policy.maxEvents && e.at >= policy.cutoff)
    || StillOwed(e, policy)
  }

  function Kept(events: seq<Event>, policy: Retention): (kept: seq<Event>)
    ensures |kept| <= |events|
  {
    if events == [] then []
    else
      var rest := Kept(events[1..], policy);
      if Keeps(events[0], |events|, policy) then [events[0]] + rest else rest
  }

  function Compact(log: Log, policy: Retention): Log {
    var kept := Kept(log.events, policy);
    if |kept| == |log.events| then log
    else if kept == [] then Log(Head(log), [])
    else if kept[0].seqNo == 0 then Log(0, kept)
    else Log(kept[0].seqNo - 1, kept)
  }

  /** A prune also removes the file of a log with no event left and no monitor,
      and with it the numbers already used. */
  predicate Spent(log: Log, policy: Retention) {
    policy.through.None? && Head(log) > 0 && Kept(log.events, policy) == []
  }

  function Pruned(log: Log, policy: Retention): Log {
    if Spent(log, policy) then NEW_LOG else Compact(log, policy)
  }

  function Appended(log: Log, kind: Kind, at: int, payload: Payload): Log {
    log.(events := log.events + [Event(Head(log) + 1, kind, at, payload)])
  }

  /** A sweep invents nothing, and drops no outcome still owed. */
  lemma {:induction false} KeptSound(events: seq<Event>, policy: Retention)
    ensures forall e :: e in Kept(events, policy) ==> e in events
    ensures forall e :: e in events && StillOwed(e, policy) ==> e in Kept(events, policy)
  {
    if events != [] {
      KeptSound(events[1..], policy);
      assert events == [events[0]] + events[1..];
    }
  }

  lemma SweepDropsNothingOwed(log: Log, policy: Retention, e: Event)
    requires e in log.events && e !in Compact(log, policy).events
    ensures !StillOwed(e, policy)
  {
    KeptSound(log.events, policy);
  }

  /** What a sweep and an append keep: an ordered file whose marker ends just
      below its first event. */
  lemma {:induction false} KeptAscending(events: seq<Event>, policy: Retention)
    requires Ascending(events)
    ensures Ascending(Kept(events, policy))
  {
    if events != [] {
      KeptAscending(events[1..], policy);
      KeptSound(events[1..], policy);
      forall e | e in Kept(events[1..], policy) ensures events[0].seqNo < e.seqNo {
        assert e in events[1..];
      }
    }
  }

  lemma {:induction false} KeptLast(events: seq<Event>, policy: Retention)
    requires events != [] && Ascending(events)
    ensures var last, kept := events[|events| - 1], Kept(events, policy);
            if Keeps(last, 1, policy) then kept != [] && kept[|kept| - 1] == last
            else forall e :: e in kept ==> e.seqNo < last.seqNo
  {
    if |events| > 1 {
      KeptLast(events[1..], policy);
      KeptSound(events[1..], policy);
      assert events[1..][|events| - 2] == events[|events| - 1];
    }
  }

  lemma CompactKeepsOrder(log: Log, policy: Retention)
    requires Valid(log)
    ensures Valid(Compact(log, policy))
  {
    KeptAscending(log.events, policy);
    KeptSound(log.events, policy);
    var kept := Kept(log.events, policy);
    assert kept != [] ==> kept[0] in log.events;
  }

  lemma PruneKeepsOrder(log: Log, policy: Retention)
    requires Valid(log)
    ensures Valid(Pruned(log, policy))
  {
    CompactKeepsOrder(log, policy);
  }

  lemma AppendKeepsOrder(log: Log, kind: Kind, at: int, payload: Payload)
    requires Valid(log)
    ensures Valid(Appended(log, kind, at, payload))
    ensures Head(Appended(log, kind, at, payload)) == Head(log) + 1
  {
  }

  /** A prune starts the log's numbers again only where nobody monitors it and
      its sweep leaves no event; otherwise it is the sweep. */
  lemma StartsAgainIff(log: Log, policy: Retention)
    requires Valid(log) && log != NEW_LOG
    ensures Pruned(log, policy) == NEW_LOG <==> policy.through.None? && Compact(log, policy).events == []
    ensures Pruned(log, policy) != NEW_LOG ==> Pruned(log, policy) == Compact(log, policy)
  {
  }

  /** The newest event outlives the sweep, or nothing does. */
  ghost predicate HeadStays(log: Log, policy: Retention) {
    var n := |log.events|;
    || n == 0
    || Keeps(log.events[n - 1], 1, policy)
    || forall i :: 0 <= i < n ==> !Keeps(log.events[i], n - i, policy)
  }

  lemma {:induction false} KeptNothing(events: seq<Event>, policy: Retention)
    ensures Kept(events, policy) == [] <==> forall i :: 0 <= i < |events| ==> !Keeps(events[i], |events| - i, policy)
  {
    if events != [] {
      KeptNothing(events[1..], policy);
      assert forall i :: 0 < i < |events| ==> events[1..][i - 1] == events[i];
      assert forall i :: 0 <= i < |events| - 1 ==>
               events[1..][i] == events[i + 1] && |events[1..]| - i == |events| - (i + 1);
    }
  }

  /** A sweep leaves the next sequence number alone exactly when the newest
      event outlives it or nothing does. When an owed outcome outlives newer
      events that were not owed, the head falls back to the outcome. */
  lemma HeadSurvivesIff(log: Log, policy: Retention)
    requires Valid(log)
    ensures Head(Compact(log, policy)) == Head(log) <==> HeadStays(log, policy)
  {
    if log.events != [] {
      KeptLast(log.events, policy);
      KeptNothing(log.events, policy);
      var kept := Kept(log.events, policy);
      if |kept| == |log.events| {
        AllKept(log.events, policy);
      }
    }
  }

  lemma {:induction false} AllKept(events: seq<Event>, policy: Retention)
    requires |Kept(events, policy)| == |events|
    ensures Kept(events, policy) == events
  {
    if events != [] {
      AllKept(events[1..], policy);
    }
  }

  /** Stamps never go back, and nothing follows an outcome. */
  ghost predicate Timely(events: seq<Event>) {
    forall i, j :: 0 <= i < j < |events| ==> events[i].at <= events[j].at && !Terminal(events[i].kind)
  }

  /** Such a log keeps its head under every sweep: when its newest event is too
      old or over the count, so is everything before it, and none of that is an
      outcome. */
  lemma TimelyHeadStays(log: Log, policy: Retention)
    requires Timely(log.events)
    ensures HeadStays(log, policy)
  {
  }

  lemma {:induction false} KeptTimely(events: seq<Event>, policy: Retention)
    requires Timely(events)
    ensures Timely(Kept(events, policy))
  {
    if events != [] {
      KeptTimely(events[1..], policy);
      KeptSound(events[1..], policy);
      forall e | e in Kept(events[1..], policy) ensures events[0].at <= e.at && !Terminal(events[0].kind) {
        assert e in events[1..];
      }
    }
  }

  /** The sweep that follows an append never moves the head back: the event just
      written is neither old nor over the count. */
  lemma AppendKeepsHead(log: Log, kind: Kind, at: int, payload: Payload, policy: Retention)
    requires Valid(log) && policy.maxEvents > 0 && policy.cutoff <= at
    ensures HeadStays(Appended(log, kind, at, payload), policy)
    ensures Head(Compact(Appended(log, kind, at, payload), policy)) == Head(log) + 1
  {
    HeadSurvivesIff(Appended(log, kind, at, payload), policy);
  }

  /** The read loop: at most one slice's worth above the cursor. */
  method CollectAbove(events: seq<Event>, cursor: nat) returns (out: seq<Event>)
    ensures out == Take(Above(events, cursor), MAX_SLICE_EVENTS)
  {
    out := [];
    var i := 0;
    while i < |events|
      invariant 0 <= i <= |events|
      invariant |out| < MAX_SLICE_EVENTS
      invariant Above(events, cursor) == out + Above(events[i..], cursor)
    {
      var e := events[i];
      i := i + 1;
      if e.seqNo <= cursor {
        continue;
      }
      out := out + [e];
      if |out| >= MAX_SLICE_EVENTS {
        break;
      }
    }
  }

  /** The retention loop. */
  method CollectKept(events: seq<Event>, policy: Retention) returns (keep: seq<Event>, dropped: nat)
    ensures keep == Kept(events, policy)
    ensures dropped + |keep| == |events|
  {
    keep, dropped := [], 0;
    var i := 0;
    while i < |events|
      invariant 0 <= i <= |events| && dropped + |keep| == i
      invariant Kept(events, policy) == keep + Kept(events[i..], policy)
    {
      var e := events[i];
      ghost var rest := Kept(events[i + 1..], policy);
      assert keep + ([e] + rest) == (keep + [e]) + rest;
      var overCount := |events| - i > policy.maxEvents;
      var tooOld := e.at < policy.cutoff;
      i := i + 1;
      if !overCount && !tooOld {
        keep := keep + [e];
        continue;
      }
      if Terminal(e.kind) && policy.through.Some? && e.seqNo > policy.through.value {
        keep := keep + [e];
        continue;
      }
      dropped := dropped + 1;
    }
  }

  /** The durable file of one entity. */
  class EntityLog {
    var toSeq: nat
    var events: seq<Event>

    function Contents(): Log
      reads this
    {
      Log(toSeq, events)
    }

    constructor ()
      ensures Contents() == NEW_LOG
    {
      toSeq, events := 0, [];
    }

    /** Re-reads the watermarks from the file, as every operation does first. */
    method Load() returns (head: nat, firstSeq: nat)
      requires Valid(Contents())
      ensures head == Head(Contents()) && firstSeq == FirstSeq(Contents())
    {
      head, firstSeq := toSeq, 0;
      for i := 0 to |events|
        invariant i == 0 ==> head == toSeq && firstSeq == 0
        invariant i > 0 ==> head == events[i - 1].seqNo && firstSeq == events[0].seqNo
      {
        if events[i].seqNo > head {
          head := events[i].seqNo;
        }
        if events[i].seqNo > 0 && (firstSeq == 0 || events[i].seqNo < firstSeq) {
          firstSeq := events[i].seqNo;
        }
      }
    }

    method ReadSince(after: nat) returns (slice: Slice)
      requires Valid(Contents())
      ensures slice == Since(Contents(), after)
    {
      var head, firstSeq := Load();
      var cursor, truncated, truncatedTo := after, false, 0;
      if firstSeq > 0 && after + 1 < firstSeq {
        truncated, truncatedTo, cursor := true, firstSeq - 1, 0;
        if toSeq > truncatedTo {
          truncatedTo := toSeq;
        }
      }
      var out := CollectAbove(events, cursor);
      slice := Slice(out, head, firstSeq, truncated, truncatedTo);
    }

    /** Retention, with the marker rewritten below the lowest event kept. */
    method Sweep(policy: Retention)
      requires Valid(Contents())
      modifies this
      ensures Contents() == Compact(old(Contents()), policy)
      ensures Valid(Contents())
    {
      CompactKeepsOrder(Contents(), policy);
      var head, _ := Load();
      var keep, dropped := CollectKept(events, policy);
      if dropped == 0 {
        return;
      }
      var lowestKept := if keep == [] then head + 1 else keep[0].seqNo;
      if lowestKept == 0 {
        lowestKept := 1;
      }
      toSeq, events := lowestKept - 1, keep;
    }

    /** Retention, and the removal of a file with nothing left and nothing owed. */
    method Prune(policy: Retention)
      requires Valid(Contents())
      modifies this
      ensures Contents() == Pruned(old(Contents()), policy)
      ensures Valid(Contents())
    {
      PruneKeepsOrder(Contents(), policy);
      Sweep(policy);
      if policy.through.None? && events == [] {
        toSeq := 0;
      }
    }

    /** The event is durable before anything is swept. */
    method Append(kind: Kind, at: int, payload: Payload, policy: Retention) returns (e: Event)
      requires Valid(Contents())
      modifies this
      ensures e == Event(Head(old(Contents())) + 1, kind, at, payload)
      ensures Contents() == Compact(Appended(old(Contents()), kind, at, payload), policy)
      ensures Valid(Contents())
    {
      var head, _ := Load();
      e := Event(head + 1, kind, at, payload);
      AppendKeepsOrder(Contents(), kind, at, payload);
      events := events + [e];
      assert Contents() == Appended(old(Contents()), kind, at, payload);
      Sweep(policy);
    }
  }
}
