/** The home's half: the log it owns and the monitors it holds, each operation
    tied to the protocol step it is. */
module FleetHome {
  import opened Basics
  import opened Fleetlog
  import opened FleetDelivery

  class Home {
    const log: EntityLog
    var held: map<Ref, nat>

    ghost predicate Valid()
      reads this, log
    {
      Fleetlog.Valid(log.Contents())
    }

    constructor ()
      ensures Valid() && fresh(log)
      ensures log.Contents() == START.log && held == START.held
    {
      log := new EntityLog();
      held := map[];
    }

    /** The lowest acknowledgement over every monitor, if there is one. */
    method MinAcked() returns (through: Option<nat>)
      ensures IsMinAcked(held, through)
    {
      through := None;
      var todo := held.Keys;
      while todo != {}
        invariant todo <= held.Keys
        invariant through.None? ==> todo == held.Keys
        invariant through.Some? ==> exists ref :: ref in held.Keys - todo && held[ref] == through.value
        invariant through.Some? ==> forall ref :: ref in held.Keys - todo ==> through.value <= held[ref]
      {
        var ref :| ref in todo;
        if through.None? || held[ref] < through.value {
          through := Some(held[ref]);
        }
        todo := todo - {ref};
        assert ref in held.Keys - todo;
      }
    }

    /** Durable first, then one push per watching machine. */
    method Append(kind: Kind, at: int, payload: Payload, maxEvents: nat, cutoff: int)
      returns (e: Event, policy: Retention, pushes: set<Message>)
      requires Valid()
      modifies log
      ensures Valid()
      ensures policy == Retention(maxEvents, cutoff, policy.through) && IsMinAcked(held, policy.through)
      ensures e == Event(Head(old(log.Contents())) + 1, kind, at, payload)
      ensures log.Contents() == Compact(Appended(old(log.Contents()), kind, at, payload), policy)
      ensures pushes == if kind.Progress? then {} else set ref | ref in held :: Push(ref.machine, e)
    {
      var through := MinAcked();
      policy := Retention(maxEvents, cutoff, through);
      e := log.Append(kind, at, payload, policy);
      pushes := {};
      if kind.Progress? {
        return;
      }
      var todo := held.Keys;
      var seen: set<nat> := {};
      while todo != {}
        invariant todo <= held.Keys
        invariant seen == set ref | ref in held.Keys - todo :: ref.machine
        invariant pushes == set ref | ref in held.Keys - todo :: Push(ref.machine, e)
      {
        var ref :| ref in todo;
        ghost var done := held.Keys - todo;
        todo := todo - {ref};
        assert held.Keys - todo == done + {ref};
        if ref.machine in seen {
          continue;
        }
        seen := seen + {ref.machine};
        pushes := pushes + {Push(ref.machine, e)};
      }
      assert held.Keys - todo == held.Keys;
    }

    /** Whether the first slice of the log already holds its end. */
    method HasExit() returns (found: bool)
      requires Valid()
      ensures found <==> FleetDelivery.HasExit(log.Contents())
    {
      var slice := log.ReadSince(0);
      for i := 0 to |slice.events|
        invariant forall j :: 0 <= j < i ==> !Terminal(slice.events[j].kind)
      {
        if slice.events[i].kind == Exit {
          return true;
        }
      }
      found := false;
    }

    /** One job, one exit: a second one is not written while the first is seen. */
    method ObserveExit(at: int, payload: Payload, maxEvents: nat, cutoff: int)
      returns (written: bool, pushes: set<Message>)
      requires Valid()
      modifies log
      ensures Valid()
      ensures written <==> !FleetDelivery.HasExit(old(log.Contents()))
      ensures !written ==> log.Contents() == old(log.Contents()) && pushes == {}
      ensures written ==>
                var e := Event(Head(old(log.Contents())) + 1, Exit, at, payload);
                && pushes == (set ref | ref in held :: Push(ref.machine, e))
                && exists through :: IsMinAcked(held, through) && log.Contents() ==
                     Compact(Appended(old(log.Contents()), Exit, at, payload), Retention(maxEvents, cutoff, through))
    {
      var ended := HasExit();
      if ended {
        return false, {};
      }
      var _, policy, sent := Append(Exit, at, payload, maxEvents, cutoff);
      assert IsMinAcked(held, policy.through);
      written, pushes := true, sent;
    }

    method Prune(maxEvents: nat, cutoff: int) returns (policy: Retention)
      requires Valid()
      modifies log
      ensures Valid()
      ensures policy == Retention(maxEvents, cutoff, policy.through) && IsMinAcked(held, policy.through)
      ensures log.Contents() == Pruned(old(log.Contents()), policy)
    {
      var through := MinAcked();
      policy := Retention(maxEvents, cutoff, through);
      log.Prune(policy);
    }

    /** Registering twice is one monitor, and keeps what it acknowledged. */
    method Register(ref: Ref)
      modifies `held
      ensures held == if ref in old(held) then old(held) else old(held)[ref := 0]
    {
      if ref !in held {
        held := held[ref := 0];
      }
    }

    method Demonitor(ref: Ref)
      modifies `held
      ensures held == old(held) - {ref}
    {
      held := held - {ref};
    }

    /** Every monitor of the acknowledging machine advances, and none goes back. */
    method HandleAck(machine: nat, through: nat)
      modifies `held
      ensures held == map ref | ref in old(held) ::
                if ref.machine == machine && through > old(held)[ref] then through else old(held)[ref]
    {
      var before := held;
      var todo := before.Keys;
      while todo != {}
        invariant todo <= before.Keys == held.Keys
        invariant forall ref :: ref in before ==>
                    held[ref] == if ref !in todo && ref.machine == machine && through > before[ref] then through
                        else before[ref]
      {
        var ref :| ref in todo;
        todo := todo - {ref};
        if ref.machine == machine && through > held[ref] {
          held := held[ref := through];
        }
      }
    }

    /** The backlog from the cursor a watcher stated, or from what it last
        acknowledged. */
    method Serve(ref: Ref, stated: Option<nat>) returns (slice: Slice)
      requires Valid() && ref in held
      ensures slice == Since(log.Contents(), if stated.Some? then stated.value else held[ref])
    {
      var after := if stated.Some? then stated.value else held[ref];
      slice := log.ReadSince(after);
    }
  }
}
