/** Closing a provider session by an id that may be reused: one detach journal,
    for one generation of one lane. */
module CloseJournal {
  import opened Basics

  type LaneId = string
  type Session = string

  /** What a lane is attached through. */
  datatype Attachment = Attachment(session: Session, provider: string, cwd: string)

  datatype Lane = Lane(generation: nat, chat: string, provider: string, ownerTab: string,
      attachment: Option<Attachment>)

  datatype Status = Pending | Dispatched | Ambiguous | Completed | Failed

  datatype Journal = Journal(lane: LaneId, session: Session, generation: nat, status: Status)

  /** A chat's actor: its lanes, and its detach journals, whose operation ids are
      their lane, session and generation. */
  datatype Actor = Actor(chat: string, tab: string, deleted: bool, lanes: map<LaneId, Lane>, journals: seq<Journal>)

  /** The executor's own row for the session. */
  datatype Live = Live(session: Session, chat: string, tab: string, provider: string, cwd: string)

  predicate CarriesSession(lane: Lane, session: Session) {
    lane.attachment.Some? && lane.attachment.value.session == session
  }

  predicate LiveFits(s: Actor, live: Live, session: Session) {
    && live.session == session && live.chat == s.chat
    && !s.deleted && s.tab != "" && live.tab == s.tab && live.provider != ""
  }

  /** The fences of a lane that carries the session. */
  predicate Fits(s: Actor, lane: Lane, live: Live)
    requires lane.attachment.Some?
  {
    && lane.chat == s.chat && lane.provider == live.provider && lane.ownerTab == live.tab && lane.generation != 0
    && (lane.attachment.value.provider != "" ==> lane.attachment.value.provider == live.provider)
    && (live.cwd != "" && lane.attachment.value.cwd != "" ==> live.cwd == lane.attachment.value.cwd)
  }

  predicate OtherGeneration(j: Journal, id: LaneId, session: Session, generation: nat) {
    j.lane == id && j.session == session && j.generation != generation
  }

  /** The one lane a close may act on: it alone carries the session, it passes
      every fence, and no journal of another generation stands for it. */
  ghost predicate IsTarget(s: Actor, live: Live, session: Session, id: LaneId) {
    && LiveFits(s, live, session)
    && id in s.lanes && CarriesSession(s.lanes[id], session) && Fits(s, s.lanes[id], live)
    && (forall other :: other in s.lanes && CarriesSession(s.lanes[other], session) ==> other == id)
    && (forall j :: j in s.journals ==> !OtherGeneration(j, id, session, s.lanes[id].generation))
  }

  /** What is known of a session on each side: chat, tab and provider. */
  datatype Owner = Owner(chat: string, tab: string, provider: string)

  /** Which lane a close acts on: the chat's own record of it, the executor's row
      and the chat itself name one owner, in full; what the attachment also says
      of provider and directory is not contradicted; no other lane carries the
      session; and its journals, if any, are of the present generation. */
  lemma TargetIff(s: Actor, live: Live, session: Session, id: LaneId)
    ensures IsTarget(s, live, session, id) <==>
              && !s.deleted && live.session == session
              && live.tab != "" && live.provider != "" && Owner(live.chat, live.tab, "") == Owner(s.chat, s.tab, "")
              && id in s.lanes && s.lanes[id].generation > 0
              && Owner(s.lanes[id].chat, s.lanes[id].ownerTab, s.lanes[id].provider)
                 == Owner(live.chat, live.tab, live.provider)
              && (exists provider, cwd :: s.lanes[id].attachment == Some(Attachment(session, provider, cwd))
                    && provider in {"", live.provider} && (live.cwd == "" || cwd in {"", live.cwd}))
              && (forall k :: k in s.lanes && s.lanes[k].attachment.Some? ==>
                    s.lanes[k].attachment.value.session == session ==> k == id)
              && forall j :: j in s.journals && j.lane == id && j.session == session ==>
                   j.generation == s.lanes[id].generation
  {
    if id in s.lanes && s.lanes[id].attachment.Some? {
      var at := s.lanes[id].attachment.value;
      assert s.lanes[id].attachment == Some(Attachment(at.session, at.provider, at.cwd));
      assert forall j :: OtherGeneration(j, id, session, s.lanes[id].generation) <==>
                         j.lane == id && j.session == session && j.generation != s.lanes[id].generation;
      assert forall k :: k in s.lanes ==>
                 (CarriesSession(s.lanes[k], session) <==>
                    s.lanes[k].attachment.Some? && s.lanes[k].attachment.value.session == session);
    }
  }

  method StaleJournal(journals: seq<Journal>, id: LaneId, session: Session, generation: nat) returns (stale: bool)
    ensures stale <==> exists j :: j in journals && OtherGeneration(j, id, session, generation)
  {
    for i := 0 to |journals|
      invariant forall k :: 0 <= k < i ==> !OtherGeneration(journals[k], id, session, generation)
    {
      if OtherGeneration(journals[i], id, session, generation) {
        return true;
      }
    }
    stale := false;
  }

  /** The scan visits the lanes in any order; what it finds does not depend on
      it. */
  method CurrentAttachment(s: Actor, live: Live, session: Session) returns (found: Option<LaneId>)
    requires "" !in s.lanes
    ensures found.Some? ==> IsTarget(s, live, session, found.value)
    ensures found.None? ==> forall id :: !IsTarget(s, live, session, id)
  {
    if !LiveFits(s, live, session) {
      return None;
    }
    found := None;
    var left := s.lanes.Keys;
    while left != {}
      invariant left <= s.lanes.Keys
      invariant found.Some? ==> found.value in s.lanes && found.value !in left
                                && CarriesSession(s.lanes[found.value], session) && Fits(s, s.lanes[found.value], live)
      invariant forall id :: id in s.lanes && id !in left && CarriesSession(s.lanes[id], session) ==> found == Some(id)
      decreases |left|
    {
      var id :| id in left;
      left := left - {id};
      var lane := s.lanes[id];
      if !CarriesSession(lane, session) {
        continue;
      }
      if !Fits(s, lane, live) || found.Some? {
        return None;
      }
      found := Some(id);
    }
    if found.None? {
      return None;
    }
    var stale := StaleJournal(s.journals, found.value, session, s.lanes[found.value].generation);
    if stale {
      return None;
    }
  }

  /** A completed journal of the session is its receipt. */
  predicate Receipt(s: Actor, session: Session) {
    exists j :: j in s.journals && j.session == session && j.status == Completed
  }

  predicate Candidate(s: Actor, session: Session) {
    (exists id :: id in s.lanes && CarriesSession(s.lanes[id], session)) || Receipt(s, session)
  }

  /** Which actor a session id is about: the only one naming it, if there is only
      one, whatever order the actors are read in. */
  method FindCloseJournal(actors: map<string, Actor>, session: Session) returns (found: Option<string>)
    ensures found.Some? ==> found.value in actors && Candidate(actors[found.value], session)
                            && forall other :: other in actors && Candidate(actors[other], session) ==>
                                other == found.value
    ensures found.None? ==> (forall id :: id in actors ==> !Candidate(actors[id], session))
                            || exists a, b :: a in actors && b in actors && a != b
                                           && Candidate(actors[a], session) && Candidate(actors[b], session)
  {
    found := None;
    var left := actors.Keys;
    while left != {}
      invariant left <= actors.Keys
      invariant found.Some? ==> found.value in actors && found.value !in left && Candidate(actors[found.value], session)
      invariant forall id :: id in actors && id !in left && Candidate(actors[id], session) ==> found == Some(id)
      decreases |left|
    {
      var id :| id in left;
      left := left - {id};
      if !Candidate(actors[id], session) {
        continue;
      }
      if found.Some? {
        return None;
      }
      found := Some(id);
    }
  }

  // ----- Runs -----

  /** `detached` counts the provider calls, by lane and session. */
  datatype State = State(actor: Actor, detached: multiset<(LaneId, Session)>)

  datatype Action =
    | Attach(lane: LaneId, attachment: Attachment, generation: nat)
    | Resume(lane: LaneId)
    | HostLost(lane: LaneId)
    | ProtocolFailed(lane: LaneId)
    | Close(session: Session, live: Live, lane: LaneId)
    | Claim(i: nat)
    | Fail(i: nat, ambiguous: bool)
    | Recover

  ghost predicate Enabled(s: State, a: Action) {
    var actor := s.actor;
    match a
    case Attach(lane, _, generation) =>
      lane in actor.lanes && actor.lanes[lane].attachment.None? && generation >= actor.lanes[lane].generation
    case Resume(lane) => lane in actor.lanes && actor.lanes[lane].attachment.None?
    case HostLost(lane) => lane in actor.lanes
    case ProtocolFailed(lane) => lane in actor.lanes
    case Close(session, live, lane) => !Receipt(actor, session) && IsTarget(actor, live, session, lane)
    case Claim(i) => i < |actor.journals| && Claimable(actor, actor.journals[i])
    case Fail(i, _) => i < |actor.journals| && actor.journals[i].status == Dispatched
    case Recover => true
  }

  predicate Claimable(s: Actor, j: Journal) {
    j.status == Pending && j.lane in s.lanes && s.lanes[j.lane].generation == j.generation
    && CarriesSession(s.lanes[j.lane], j.session)
  }

  predicate SameOperation(j: Journal, id: LaneId, session: Session, generation: nat) {
    j.lane == id && j.session == session && j.generation == generation
  }

  /** A close journals its exact target once; again, it changes nothing. */
  function Closed(s: Actor, session: Session, id: LaneId): Actor
    requires id in s.lanes
  {
    var generation := s.lanes[id].generation;
    if exists j :: j in s.journals && SameOperation(j, id, session, generation) then s
    else s.(journals := s.journals + [Journal(id, session, generation, Pending)])
  }

  function Lost(journals: seq<Journal>, id: LaneId, generation: nat): (lost: seq<Journal>)
    ensures |lost| == |journals|
    ensures forall i :: 0 <= i < |journals| ==>
              lost[i] == if journals[i].lane == id && journals[i].generation == generation
                  then journals[i].(status := Completed) else journals[i]
  {
    seq(|journals|, i requires 0 <= i < |journals| =>
      if journals[i].lane == id && journals[i].generation == generation then journals[i].(status := Completed)
          else journals[i])
  }

  /** The loss of that generation's host is on record. */
  predicate Received(journals: seq<Journal>, j: Journal) {
    exists other :: other in journals && other.lane == j.lane && other.generation == j.generation
                    && other.status == Completed
  }

  /** At boot a dispatched detach whose receipt did not arrive is never sent again. */
  function Recovered(journals: seq<Journal>): (after: seq<Journal>)
    ensures |after| == |journals|
    ensures forall i :: 0 <= i < |journals| ==>
              after[i] == if journals[i].status == Dispatched
                  then journals[i].(status := if Received(journals, journals[i]) then Completed else Ambiguous)
                  else journals[i]
  {
    seq(|journals|, i requires 0 <= i < |journals| =>
      if journals[i].status == Dispatched
      then journals[i].(status := if Received(journals, journals[i]) then Completed else Ambiguous) else journals[i])
  }

  function WithLane(s: State, id: LaneId, lane: Lane): State {
    s.(actor := s.actor.(lanes := s.actor.lanes[id := lane]))
  }

  ghost function Step(s: State, a: Action): State {
    var actor := s.actor;
    if !Enabled(s, a) then s else
    match a
    case Attach(id, attachment, generation) =>
      WithLane(s, id, actor.lanes[id].(attachment := Some(attachment), generation := generation))
    case Resume(id) => WithLane(s, id, actor.lanes[id].(generation := actor.lanes[id].generation + 1))
    case HostLost(id) =>
      var lane := actor.lanes[id];
      var lost := WithLane(s, id, lane.(attachment := None, generation := lane.generation + 1));
      lost.(actor := lost.actor.(journals := Lost(actor.journals, id, lane.generation)))
    case ProtocolFailed(id) => WithLane(s, id, actor.lanes[id].(attachment := None))
    case Close(session, _, id) => s.(actor := Closed(actor, session, id))
    case Claim(i) =>
      var j := actor.journals[i];
      State(actor.(journals := actor.journals[i := j.(status := Dispatched)]), s.detached + multiset{(j.lane,
          j.session)})
    case Fail(i, ambiguous) =>
      s.(actor := actor.(journals := actor.journals[i := actor.journals[i].(status := if ambiguous then Ambiguous
          else Failed)]))
    case Recover => s.(actor := actor.(journals := Recovered(actor.journals)))
  }

  ghost function Run(s: State, actions: seq<Action>): State
    decreases |actions|
  {
    if actions == [] then s else Run(Step(s, actions[0]), actions[1..])
  }

  /** One journal for a lane and a session, and no detach without one past
      Pending. */
  ghost predicate Inv(s: State) {
    && (forall i, k :: 0 <= i < k < |s.actor.journals| ==>
          (s.actor.journals[i].lane, s.actor.journals[i].session) != (s.actor.journals[k].lane,
              s.actor.journals[k].session))
    && (forall lane, session :: s.detached[(lane, session)] <= 1)
    && (forall lane, session :: s.detached[(lane, session)] > 0 ==> Sent(s.actor.journals, lane, session))
  }

  predicate Sent(journals: seq<Journal>, lane: LaneId, session: Session) {
    exists i :: 0 <= i < |journals| && journals[i].lane == lane && journals[i].session == session
        && journals[i].status != Pending
  }

  lemma StepInv(s: State, a: Action)
    requires Inv(s)
    ensures Inv(Step(s, a))
  {
    if Enabled(s, a) {
      match a
      case Close(session, live, id) => CloseInv(s, session, live, id);
      case Claim(i) => ClaimInv(s, i);
      case HostLost(id) => KeepsSent(s, Step(s, a));
      case Fail(i, _) => KeepsSent(s, Step(s, a));
      case Recover => KeepsSent(s, Step(s, a));
      case Attach(_, _, _) =>
      case Resume(_) =>
      case ProtocolFailed(_) =>
    }
  }

  /** Changing statuses but never back to Pending. */
  lemma KeepsSent(s: State, s': State)
    requires Inv(s) && s'.detached == s.detached && |s'.actor.journals| == |s.actor.journals|
    requires forall i :: 0 <= i < |s.actor.journals| ==>
               && s'.actor.journals[i].lane == s.actor.journals[i].lane
               && s'.actor.journals[i].session == s.actor.journals[i].session
               && (s.actor.journals[i].status != Pending ==> s'.actor.journals[i].status != Pending)
    ensures Inv(s')
  {
    forall lane, session | s'.detached[(lane, session)] > 0 ensures Sent(s'.actor.journals, lane, session) {
      assert Sent(s.actor.journals, lane, session);
      var i :| 0 <= i < |s.actor.journals| && s.actor.journals[i].lane == lane && s.actor.journals[i].session == session
               && s.actor.journals[i].status != Pending;
      assert s'.actor.journals[i].status != Pending;
    }
  }

  lemma CloseInv(s: State, session: Session, live: Live, id: LaneId)
    requires Inv(s) && Enabled(s, Close(session, live, id))
    ensures Inv(Step(s, Close(session, live, id)))
  {
    var s' := Step(s, Close(session, live, id));
    forall lane, other | s'.detached[(lane, other)] > 0 ensures Sent(s'.actor.journals, lane, other) {
      assert Sent(s.actor.journals, lane, other);
      var i :| 0 <= i < |s.actor.journals| && s.actor.journals[i].lane == lane && s.actor.journals[i].session == other
               && s.actor.journals[i].status != Pending;
      assert s'.actor.journals[i] == s.actor.journals[i];
    }
    if s' != s {
      forall j | j in s.actor.journals ensures (j.lane, j.session) != (id, session) {
        assert !OtherGeneration(j, id, session, s.actor.lanes[id].generation);
        assert !SameOperation(j, id, session, s.actor.lanes[id].generation);
      }
    }
  }

  lemma ClaimInv(s: State, i: nat)
    requires Inv(s) && Enabled(s, Claim(i))
    ensures Inv(Step(s, Claim(i)))
  {
    var s', j := Step(s, Claim(i)), s.actor.journals[i];
    assert forall k :: 0 <= k < |s.actor.journals| && k != i ==>
             (s.actor.journals[k].lane, s.actor.journals[k].session) != (j.lane, j.session);
    assert !Sent(s.actor.journals, j.lane, j.session);
    forall lane, session | s'.detached[(lane, session)] > 0 ensures Sent(s'.actor.journals, lane, session) {
      if (lane, session) == (j.lane, j.session) {
        assert s'.actor.journals[i].status != Pending;
      } else {
        assert Sent(s.actor.journals, lane, session);
        var k :| 0 <= k < |s.actor.journals| && s.actor.journals[k].lane == lane
            && s.actor.journals[k].session == session
                 && s.actor.journals[k].status != Pending;
        assert s'.actor.journals[k] == s.actor.journals[k];
      }
    }
  }

  lemma {:induction false} RunInv(s: State, actions: seq<Action>)
    requires Inv(s)
    ensures Inv(Run(s, actions))
    decreases |actions|
  {
    if actions != [] {
      StepInv(s, actions[0]);
      RunInv(Step(s, actions[0]), actions[1..]);
    }
  }

  // ----- What each step does to the journals -----

  /** A close writes one pending journal, of its lane's present generation, unless
      the lane and session have one already; and nothing else. */
  lemma CloseWritesItsJournal(s: State, session: Session, live: Live, id: LaneId)
    requires Enabled(s, Close(session, live, id))
    ensures var t := Step(s, Close(session, live, id));
            && t.detached == s.detached && t.actor == s.actor.(journals := t.actor.journals)
            && t.actor.journals == s.actor.journals + (
                 if exists j :: j in s.actor.journals && j.lane == id && j.session == session then []
                 else [Journal(id, session, s.actor.lanes[id].generation, Pending)])
  {
    forall j | j in s.actor.journals && j.lane == id && j.session == session
      ensures SameOperation(j, id, session, s.actor.lanes[id].generation)
    {
      assert !OtherGeneration(j, id, session, s.actor.lanes[id].generation);
    }
  }

  /** A journal keeps its lane, session and generation, and moves only so: claimed,
      it is dispatched; dispatched, it fails, or is ambiguous after a failure that
      may have gone through or after a boot with no receipt; and the host's loss of
      its generation completes it. */
  lemma JournalMoves(s: State, a: Action, k: nat)
    requires k < |s.actor.journals| && Enabled(s, a)
    ensures k < |Step(s, a).actor.journals|
    ensures var j, j' := s.actor.journals[k], Step(s, a).actor.journals[k];
            && j' == j.(status := j'.status)
            && j'.status == match a
                            case Claim(i) => if i == k then Dispatched else j.status
                            case Fail(i, ambiguous) =>
                              if i != k then j.status else if ambiguous then Ambiguous else Failed
                            case Recover =>
                              if j.status != Dispatched then j.status
                              else if exists k :: k in s.actor.journals && k.lane == j.lane
                                                  && k.generation == j.generation && k.status == Completed
                              then Completed else Ambiguous
                            case HostLost(lane) =>
                              if j.lane == lane && j.generation == s.actor.lanes[lane].generation then Completed
                              else j.status
                            case _ => j.status
    ensures a == Claim(k) ==> s.actor.journals[k].status == Pending
    ensures a.Fail? && a.i == k ==> s.actor.journals[k].status == Dispatched
  {
  }

  /** Whatever is dispatched can still fail, and a boot leaves none dispatched. */
  lemma DispatchedEnds(s: State, k: nat, ambiguous: bool)
    requires k < |s.actor.journals| && s.actor.journals[k].status == Dispatched
    ensures Step(s, Fail(k, ambiguous)).actor.journals[k].status == if ambiguous then Ambiguous else Failed
    ensures forall j :: j in Step(s, Recover).actor.journals ==> j.status != Dispatched
  {
  }

  /** A lane keeps what it is of and never goes back a generation: attached, it is
      in the generation given; a resume and the loss of its host each begin the
      next; and it is let go by that loss or by a failure of the protocol, by no
      close. */
  lemma LaneMoves(s: State, a: Action, id: LaneId)
    requires id in s.actor.lanes && Enabled(s, a)
    ensures Step(s, a).actor.lanes.Keys == s.actor.lanes.Keys
    ensures Step(s, a).actor == s.actor.(lanes := Step(s, a).actor.lanes, journals := Step(s, a).actor.journals)
    ensures var lane, lane' := s.actor.lanes[id], Step(s, a).actor.lanes[id];
            && lane' == Lane(lane'.generation, lane.chat, lane.provider, lane.ownerTab, lane'.attachment)
            && lane.generation <= lane'.generation
            && (a in {Resume(id), HostLost(id)} ==> lane'.generation == lane.generation + 1)
            && (a == Resume(id) || (a.Attach? && a.lane == id) ==> lane.attachment == None)
            && (a.Attach? && a.lane == id ==> lane'.generation == a.generation
                                                 && lane'.attachment == Some(a.attachment))
            && (a in {HostLost(id), ProtocolFailed(id)} ==> lane'.attachment == None)
            && (!(a.Attach? && a.lane == id) && a !in {Resume(id), HostLost(id)} ==>
                  lane'.generation == lane.generation)
            && (!(a.Attach? && a.lane == id) && a !in {HostLost(id), ProtocolFailed(id)} ==>
                  lane'.attachment == lane.attachment)
  {
  }

  /** An actor is named by a session while a lane is attached to it, and for ever
      once a close of it has completed. */
  lemma NamedIff(s: State, session: Session, actions: seq<Action>)
    ensures Candidate(s.actor, session) <==>
              || (exists id :: id in s.actor.lanes && s.actor.lanes[id].attachment.Some?
                               && s.actor.lanes[id].attachment.value.session == session)
              || (exists j :: j in s.actor.journals && j.session == session && j.status == Completed)
    ensures (exists j :: j in s.actor.journals && j.session == session && j.status == Completed) ==>
              Candidate(Run(s, actions).actor, session)
  {
    if Receipt(s.actor, session) {
      CompletedIsReadback(s, actions, session);
    }
    assert forall id :: id in s.actor.lanes ==>
             (CarriesSession(s.actor.lanes[id], session) <==>
                s.actor.lanes[id].attachment.Some? && s.actor.lanes[id].attachment.value.session == session);
  }

  /** The provider is asked to detach only by a claim, of a pending journal whose
      lane is still attached to that session in that generation. */
  lemma DetachIsOfThePresent(s: State, a: Action, lane: LaneId, session: Session)
    ensures Step(s, a).detached[(lane, session)] == s.detached[(lane, session)] + (if
              a.Claim? && Enabled(s, a) && s.actor.journals[a.i].lane == lane
              && s.actor.journals[a.i].session == session
              then 1 else 0)
    ensures Step(s, a).detached[(lane, session)] > s.detached[(lane, session)] ==>
              && lane in s.actor.lanes && s.actor.lanes[lane].attachment.Some?
              && s.actor.lanes[lane].attachment.value.session == session
              && Journal(lane, session, s.actor.lanes[lane].generation, Pending) in s.actor.journals
  {
    if a.Claim? && Enabled(s, a) {
      assert s.actor.journals[a.i] in s.actor.journals;
    }
  }

  /** A close that nothing stops: its target is asked to detach once, and the loss
      of the host completes it. */
  lemma CloseCompletes(s: State, session: Session, live: Live, id: LaneId)
    requires Enabled(s, Close(session, live, id)) && forall j :: j in s.actor.journals ==> j.lane != id
    ensures var n := |s.actor.journals|;
            var t := Step(Step(Step(s, Close(session, live, id)), Claim(n)), HostLost(id));
            && t.detached == s.detached + multiset{(id, session)} && Receipt(t.actor, session)
            && t.actor.lanes[id].attachment == None
            && t.actor.lanes[id].generation == s.actor.lanes[id].generation + 1
  {
    var n := |s.actor.journals|;
    CloseWritesItsJournal(s, session, live, id);
    var closed := Step(s, Close(session, live, id));
    var claimed := Step(closed, Claim(n));
    JournalMoves(closed, Claim(n), n);
    JournalMoves(claimed, HostLost(id), n);
    var t := Step(claimed, HostLost(id));
    assert t.actor.journals[n] in t.actor.journals;
  }

  function Fresh(actor: Actor): State {
    State(actor.(journals := []), multiset{})
  }

  /** Over any run of closes, retries, resumes, losses and crashes that reuse one
      session id: every journal of a lane and session is of one generation, and
      the provider is asked to detach it at most once. */
  lemma ClosesOneGeneration(actor: Actor, actions: seq<Action>, a: Journal, b: Journal)
    requires a in Run(Fresh(actor), actions).actor.journals && b in Run(Fresh(actor), actions).actor.journals
    requires a.lane == b.lane && a.session == b.session
    ensures a == b && Run(Fresh(actor), actions).detached[(a.lane, a.session)] <= 1
  {
    RunInv(Fresh(actor), actions);
  }

  /** Once a journal of the session is completed, a close of it is pure readback,
      for ever, whatever is attached under the same id by then. */
  lemma {:induction false} CompletedIsReadback(s: State, actions: seq<Action>, session: Session)
    requires Receipt(s.actor, session)
    ensures Receipt(Run(s, actions).actor, session)
    ensures forall live, lane :: Step(Run(s, actions), Close(session, live, lane)) == Run(s, actions)
    decreases |actions|
  {
    if actions != [] {
      ReceiptStays(s, actions[0], session);
      CompletedIsReadback(Step(s, actions[0]), actions[1..], session);
    }
  }

  lemma ReceiptStays(s: State, a: Action, session: Session)
    requires Receipt(s.actor, session)
    ensures Receipt(Step(s, a).actor, session)
  {
    var j :| j in s.actor.journals && j.session == session && j.status == Completed;
    var i :| 0 <= i < |s.actor.journals| && s.actor.journals[i] == j;
    assert Step(s, a).actor.journals[i] == j;
  }
}
