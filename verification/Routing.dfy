/** Which machine a tool call goes to, and the ids it carries there: the
    sender's choice and the receiver's refusal agree. */
module Routing {
  import opened Basics
  import opened FleetId

  /** A call's params: the ids that address an entity, the ones that say who is
      asking and where, and all the rest. */
  datatype Param =
    | TabId | ChatId | ForkPointId | RunId | ChildId | WorkId | EntityId | SubagentId
    | MachineId | OwnerKey | ParentChatId | ParentTabId
    | Other(name: string)

  type Params = map<Param, string>

  datatype Kind = LocalOnly | ChatScoped | MachineScoped | ForkScoped

  /** What the method table says of a method: its class; whether a tagged id may
      name its machine; whether a bare machine id names a host for it. */
  datatype Method = Method(kind: Kind, taggedEntity: bool, hostTargetable: bool)

  const ADDRESS_FIELDS: seq<Param> := [TabId, ChatId, ForkPointId, RunId, ChildId, WorkId, EntityId, SubagentId]
  const SECONDARY_FIELDS: seq<Param> := [EntityId, SubagentId, WorkId]

  /** The ids of ADDRESS_FIELDS. */
  predicate Addresses(param: Param) {
    param.TabId? || param.ChatId? || param.ForkPointId? || param.RunId? || param.ChildId? || param.WorkId?
    || param.EntityId? || param.SubagentId?
  }

  function Field(p: Params, field: Param): string {
    if field in p then Trim(p[field]) else ""
  }

  function AddressFields(kind: Kind): seq<Param> {
    match kind
    case ChatScoped => [TabId, ChatId]
    case ForkScoped => [ForkPointId, RunId, ChildId]
    case _ => ADDRESS_FIELDS
  }

  // ----- Rewriting address ids -----

  function Rewritten(p: Params, one: string -> string): Params {
    map k | k in p :: if Addresses(k) then one(p[k]) else p[k]
  }

  predicate AnyBad(p: Params, bad: string -> bool) {
    exists f :: f in p && Addresses(f) && bad(p[f])
  }

  /** The loop both ends rewrite a call's ids with, field by field. */
  method RewriteFields(p: Params, bad: string -> bool, one: string -> string) returns (q: Option<Params>)
    ensures q == if AnyBad(p, bad) then None else Some(Rewritten(p, one))
  {
    var out := p;
    for i := 0 to |ADDRESS_FIELDS|
      invariant out.Keys == p.Keys
      invariant forall f :: f in ADDRESS_FIELDS[..i] && f in p ==> !bad(p[f])
      invariant forall k :: k in p ==> out[k] == if k in ADDRESS_FIELDS[..i] then one(p[k]) else p[k]
    {
      var field := ADDRESS_FIELDS[i];
      assert field !in ADDRESS_FIELDS[..i] && Addresses(field);
      assert ADDRESS_FIELDS[..i + 1] == ADDRESS_FIELDS[..i] + [field];
      if field in p {
        if bad(p[field]) {
          return None;
        }
        out := out[field := one(p[field])];
      }
    }
    EveryAddress();
    assert ADDRESS_FIELDS[..|ADDRESS_FIELDS|] == ADDRESS_FIELDS;
    assert out == Rewritten(p, one);
    q := Some(out);
  }

  lemma EveryAddress()
    ensures forall f :: Addresses(f) <==> f in ADDRESS_FIELDS
  {
    assert ADDRESS_FIELDS[0] == TabId && ADDRESS_FIELDS[1] == ChatId && ADDRESS_FIELDS[2] == ForkPointId;
    assert ADDRESS_FIELDS[3] == RunId && ADDRESS_FIELDS[4] == ChildId && ADDRESS_FIELDS[5] == WorkId;
    assert ADDRESS_FIELDS[6] == EntityId && ADDRESS_FIELDS[7] == SubagentId;
  }

  // ----- The sender's edge -----

  /** An id of this machine becomes its local part, another machine's keeps its
      home in the legacy tag, and anything else is left alone. */
  function ResolvedOne(self: string, raw: string): string {
    match Split(raw)
    case Homed(home, local) =>
      var address := if self != "" && home == self then local else Tag(home, local);
      if address == Trim(raw) then raw else address
    case _ => raw
  }

  function Malformed(): string -> bool {
    (raw: string) => Split(raw).Bad?
  }

  function Resolver(self: string): string -> string {
    (raw: string) => ResolvedOne(self, raw)
  }

  method ResolveFleetAddressedParams(self: string, p: Params) returns (resolved: Option<Params>)
    ensures resolved == if AnyBad(p, Malformed()) then None else Some(Rewritten(p, Resolver(self)))
  {
    resolved := RewriteFields(p, Malformed(), Resolver(self));
  }

  // ----- The target -----

  /** What each id of a call names. */
  type Named = Param -> Address

  function NamedBy(p: Params): Named {
    (f: Param) => Split(Field(p, f))
  }

  datatype Scan = Conflict | Tagged(machine: string)

  /** The one machine these fields name ("" for none). */
  function Scanned(named: Named, fields: seq<Param>, tagged: string): Scan
    decreases |fields|
  {
    if fields == [] then Tagged(tagged)
    else
      match named(fields[0])
      case Bad => Conflict
      case Homed(home, _) =>
        if tagged != "" && tagged != home then Conflict else Scanned(named, fields[1..], home)
      case _ => Scanned(named, fields[1..], tagged)
  }

  method ScanFields(named: Named, fields: seq<Param>) returns (scan: Scan)
    ensures scan == Scanned(named, fields, "")
  {
    var tagged := "";
    for i := 0 to |fields|
      invariant Scanned(named, fields, "") == Scanned(named, fields[i..], tagged)
    {
      assert fields[i..][1..] == fields[i + 1..];
      var address := named(fields[i]);
      if address.Bad? {
        return Conflict;
      }
      if address.Homed? {
        if tagged != "" && tagged != address.home {
          return Conflict;
        }
        tagged := address.home;
      }
    }
    scan := Tagged(tagged);
  }

  /** Both halves of a chat's pair name one machine, or neither names any. */
  predicate PairAgrees(tab: Address, chat: Address) {
    && !tab.Bad? && !chat.Bad?
    && (tab.Homed? <==> chat.Homed?)
    && (tab.Homed? ==> tab.home == chat.home)
  }

  predicate SecondaryAgrees(a: Address, tagged: string) {
    !a.Bad? && (a.Homed? ==> tagged != "" && a.home == tagged)
  }

  datatype Target = Refused | Here | At(machine: string)

  /** Where a call goes, once its address ids are read. */
  function Decided(m: Method, requested: string, tagged: string, secondary: bool): Target {
    match m.kind
    case LocalOnly => if tagged != "" || requested != "" then Refused else Here
    case MachineScoped =>
      if tagged != "" && m.taggedEntity then
        (if requested != "" && requested != tagged then Refused else At(tagged))
      else if tagged != "" then Refused
      else if requested == "" then Here
      else At(requested)
    case _ =>
      if !secondary then Refused
      else if requested != "" && tagged != "" && requested != tagged then Refused
      else if tagged != "" then At(tagged)
      else if requested == "" then Here
      else if m.hostTargetable then At(requested)
      else Refused
  }

  function TargetOf(m: Method, named: Named, requested: string): Target {
    if m.kind == ChatScoped && !PairAgrees(named(TabId), named(ChatId)) then Refused
    else
      match Scanned(named, AddressFields(m.kind), "")
      case Conflict => Refused
      case Tagged(tagged) =>
        Decided(m, requested, tagged,
                SecondaryAgrees(named(EntityId), tagged) && SecondaryAgrees(named(SubagentId), tagged)
                && SecondaryAgrees(named(WorkId), tagged))
  }

  method SecondaryFields(named: Named, tagged: string) returns (agrees: bool)
    ensures agrees <==> SecondaryAgrees(named(EntityId), tagged) && SecondaryAgrees(named(SubagentId), tagged)
                        && SecondaryAgrees(named(WorkId), tagged)
  {
    agrees := true;
    for i := 0 to |SECONDARY_FIELDS|
      invariant agrees <==> forall j :: 0 <= j < i ==> SecondaryAgrees(named(SECONDARY_FIELDS[j]), tagged)
    {
      agrees := agrees && SecondaryAgrees(named(SECONDARY_FIELDS[i]), tagged);
    }
    assert SECONDARY_FIELDS[0] == EntityId && SECONDARY_FIELDS[1] == SubagentId && SECONDARY_FIELDS[2] == WorkId;
  }

  method MethodTarget(m: Method, named: Named, requested: string) returns (target: Target)
    ensures target == TargetOf(m, named, requested)
  {
    if m.kind == ChatScoped && !PairAgrees(named(TabId), named(ChatId)) {
      return Refused;
    }
    var scan := ScanFields(named, AddressFields(m.kind));
    if scan.Conflict? {
      return Refused;
    }
    var secondary := SecondaryFields(named, scan.machine);
    target := Decided(m, requested, scan.machine, secondary);
  }

  // ----- On the wire -----

  function StrippedOne(machine: string, raw: string): string {
    match Split(raw)
    case Homed(home, local) => if home == machine then local else raw
    case _ => raw
  }

  /** An id naming the target arrives as the id the target itself uses; any
      other is left for the target to refuse. */
  function Stripper(machine: string): string -> string {
    (raw: string) => StrippedOne(machine, raw)
  }

  method StripFleetTargetTags(machine: string, p: Params) returns (q: Params)
    ensures q == Rewritten(p, Stripper(machine))
  {
    var stripped := RewriteFields(p, (raw: string) => false, Stripper(machine));
    q := stripped.value;
  }

  /** The work id is an id of the destination whichever class the method has: one
      that names another machine stops the call. */
  function Forwarded(machine: string, p: Params): Option<Params> {
    var q := (p - {OwnerKey, ParentChatId, ParentTabId})[MachineId := machine];
    var work := Split(Field(q, WorkId));
    if work.Bad? || (work.Homed? && work.home != machine) then None
    else Some(Rewritten(if work.Homed? then q[WorkId := work.local] else q, Stripper(machine)))
  }

  /** The receiver takes no id that still names a machine, in any param. */
  predicate Accepts(wire: Params) {
    forall k :: k in wire ==> !NamesHome(wire[k])
  }

  method RejectMachineTaggedParams(wire: Params) returns (accepted: bool)
    ensures accepted <==> Accepts(wire)
  {
    var left := wire.Keys;
    while left != {}
      invariant left <= wire.Keys && forall k :: k in wire && k !in left ==> !NamesHome(wire[k])
      decreases |left|
    {
      var key :| key in left;
      left := left - {key};
      if NamesHome(wire[key]) {
        return false;
      }
    }
    accepted := true;
  }

  // ----- The two ends agree -----

  /** Stripping touches nothing that names no machine, and strips a name only to
      the local part of one that names the target. */
  lemma StrippedIs(machine: string, raw: string)
    ensures !NamesHome(raw) ==> StrippedOne(machine, raw) == raw
    ensures !NamesHome(StrippedOne(machine, raw)) && NamesHome(raw) ==>
              Split(raw) == Homed(machine, StrippedOne(machine, raw))
    ensures !NamesHome(StrippedOne(machine, raw)) && Split(raw).Homed? ==> Split(raw).home == machine
  {
    if Split(raw).Homed? {
      HomedNamesHome(raw);
    }
  }

  lemma HomedNamesHome(raw: string)
    requires Split(raw).Homed?
    ensures NamesHome(raw)
  {
    assert Trim(Trim(raw)) == Trim(raw);
  }

  lemma TrimKeepsAddress(raw: string)
    ensures Split(Trim(raw)) == Split(raw)
  {
    assert Trim(Trim(raw)) == Trim(raw);
  }

  /** An address id as it leaves for a machine: a work id that names a home has
      it stripped before the stripping every id gets. */
  function OnTheWire(machine: string, field: Param, raw: string): string {
    StrippedOne(machine, if field == WorkId && Split(raw).Homed? then Split(raw).local else raw)
  }

  lemma ForwardedField(machine: string, p: Params, field: Param)
    requires Forwarded(machine, p).Some? && Addresses(field) && field in p
    ensures var wire := Forwarded(machine, p).value; field in wire && wire[field] == OnTheWire(machine, field, p[field])
    ensures field == WorkId ==> !Split(p[field]).Bad? && (Split(p[field]).Homed? ==> Split(p[field]).home == machine)
  {
    TrimKeepsAddress(p[field]);
  }

  /** The local part an id is left with: a work id loses the receiver's name once
      more when what it named bears that name again. */
  function LeftOf(machine: string, field: Param, local: string): string {
    if field == WorkId then StrippedOne(machine, local) else local
  }

  /** What a receiver that accepts a call was sent: each address id named no
      machine and arrives as it was, or named the receiver and arrives as its
      local part, a work id stripped of the receiver's name twice. */
  lemma AcceptedIdsAreTheReceivers(machine: string, p: Params, field: Param)
    requires Forwarded(machine, p).Some? && Accepts(Forwarded(machine, p).value)
    requires Addresses(field) && field in p
    ensures field in Forwarded(machine, p).value
    ensures NamesHome(p[field]) <==> Split(p[field]).Homed?
    ensures var arrived := Forwarded(machine, p).value[field];
            match Split(p[field])
            case Homed(home, local) => home == machine && arrived == LeftOf(machine, field, local)
            case _ => arrived == p[field]
  {
    var raw := p[field];
    ForwardedField(machine, p, field);
    assert !NamesHome(OnTheWire(machine, field, raw));
    if Split(raw).Homed? {
      HomedNamesHome(raw);
    }
    StrippedIs(machine, raw);
  }

  lemma LocalIsShorter(raw: string)
    requires Split(raw).Homed?
    ensures |Split(raw).local| < |raw|
  {
    var v := Trim(raw);
    if SCHEME <= v {
      ParseFormats(v);
      FormatIsBody(Parse(v).id);
    }
  }

  /** A work id arrives as exactly its local part if and only if that does not
      name the receiver again. */
  lemma WorkIdIsItsLocalPartIff(machine: string, p: Params)
    requires Forwarded(machine, p).Some? && Accepts(Forwarded(machine, p).value)
    requires WorkId in p && Split(p[WorkId]).Homed?
    ensures var local := Split(p[WorkId]).local;
            Forwarded(machine, p).value[WorkId] == local <==> !(Split(local).Homed? && Split(local).home == machine)
  {
    AcceptedIdsAreTheReceivers(machine, p, WorkId);
    var local := Split(p[WorkId]).local;
    if Split(local).Homed? {
      LocalIsShorter(local);
    }
  }

  /** Any other id whose local part still names a machine is refused. */
  lemma NestedIdIsRefused(machine: string, p: Params, field: Param)
    requires Addresses(field) && field != WorkId && field in p
    requires Split(p[field]).Homed? && NamesHome(Split(p[field]).local)
    ensures Forwarded(machine, p).None? || !Accepts(Forwarded(machine, p).value)
  {
    if Forwarded(machine, p).Some? && Accepts(Forwarded(machine, p).value) {
      AcceptedIdsAreTheReceivers(machine, p, field);
    }
  }

  /** A call whose address ids name two machines is accepted by neither. */
  lemma TwoMachinesAreNeverAccepted(machine: string, p: Params, f: Param, g: Param)
    requires Addresses(f) && Addresses(g) && f in p && g in p
    requires Split(p[f]).Homed? && Split(p[g]).Homed? && Split(p[f]).home != Split(p[g]).home
    ensures Forwarded(machine, p).None? || !Accepts(Forwarded(machine, p).value)
  {
    if Forwarded(machine, p).Some? && Accepts(Forwarded(machine, p).value) {
      AcceptedIdsAreTheReceivers(machine, p, f);
      AcceptedIdsAreTheReceivers(machine, p, g);
    }
  }

  // ----- From the caller's own params -----

  /** A machine id that is this machine's own is dropped at the edge. */
  function Local(self: string, p: Params): Params {
    if self != "" && Field(p, MachineId) == self then p - {MachineId} else p
  }

  /** What a call to a machine carries there. */
  function Carried(self: string, p: Params, machine: string): Option<Params> {
    if AnyBad(Local(self, p), Malformed()) then None
    else Forwarded(machine, Rewritten(Local(self, p), Resolver(self)))
  }

  /** A call that leaves this machine: where to, and with what. */
  datatype Sent = Sent(machine: string, wire: Params)

  function Routed(self: string, m: Method, p: Params): Target {
    var q := Rewritten(Local(self, p), Resolver(self));
    TargetOf(m, NamedBy(q), Field(q, MachineId))
  }

  function Sends(self: string, m: Method, p: Params): Option<Sent> {
    match Routed(self, m, p)
    case Refused => None
    case Here => None
    case At(machine) =>
      match Carried(self, p, machine)
      case None => None
      case Some(wire) => Some(Sent(machine, wire))
  }

  /** At the edge another machine's id keeps its home and local part. */
  lemma ResolvedKeepsTheHome(self: string, raw: string)
    requires Split(raw).Homed? && (self == "" || Split(raw).home != self)
    ensures Split(ResolvedOne(self, raw)) == Split(raw)
  {
    var a := Split(raw);
    SplitShape(raw);
    TagSplits(a.home, a.local);
  }

  /** What a caller's id has become once a receiver has accepted it. */
  predicate Arrives(self: string, machine: string, field: Param, raw: string, arrived: string) {
    match Split(raw)
    case Homed(home, local) =>
      if self != "" && home == self then arrived == OnTheWire(machine, field, ResolvedOne(self, raw))
      else home == machine && arrived == LeftOf(machine, field, local)
    case Bad => false
    case _ => arrived == raw
  }

  lemma AcceptedArrives(self: string, machine: string, field: Param, raw: string)
    requires var q := ResolvedOne(self, raw);
             && !Split(raw).Bad? && !NamesHome(OnTheWire(machine, field, q))
             && (field == WorkId && Split(q).Homed? ==> Split(q).home == machine)
    ensures Arrives(self, machine, field, raw, OnTheWire(machine, field, ResolvedOne(self, raw)))
  {
    var a := Split(raw);
    if a.Homed? && (self == "" || a.home != self) {
      ResolvedKeepsTheHome(self, raw);
      if field != WorkId {
        HomedNamesHome(ResolvedOne(self, raw));
        StrippedIs(machine, ResolvedOne(self, raw));
      }
    }
  }

  lemma CarriedField(self: string, p: Params, machine: string, field: Param)
    requires Carried(self, p, machine).Some? && Addresses(field) && field in p
    ensures var wire, q := Carried(self, p, machine).value, ResolvedOne(self, p[field]);
            && field in wire && wire[field] == OnTheWire(machine, field, q) && !Split(p[field]).Bad?
            && (field == WorkId && Split(q).Homed? ==> Split(q).home == machine)
  {
    var q := Local(self, p);
    assert field in q && q[field] == p[field];
    ForwardedField(machine, Rewritten(q, Resolver(self)), field);
  }

  /** End to end: of a caller's ids in a call another machine accepted, one that
      named a machine other than the sender named the receiver and arrives as
      its local part; one that named none arrives as it was; and one that named
      the sender has lost that name. */
  lemma AcceptedEndToEnd(self: string, m: Method, p: Params, field: Param)
    requires Sends(self, m, p).Some? && Accepts(Sends(self, m, p).value.wire)
    requires Addresses(field) && field in p
    ensures var sent := Sends(self, m, p).value;
            field in sent.wire && Arrives(self, sent.machine, field, p[field], sent.wire[field])
  {
    CarriedField(self, p, Sends(self, m, p).value.machine, field);
    AcceptedArrives(self, Sends(self, m, p).value.machine, field, p[field]);
  }

  /** Of a call another machine accepted, every id named that machine or none,
      exactly when none named the sender. */
  lemma OnlyTheReceiversIdsIff(self: string, m: Method, p: Params)
    requires self != "" && Sends(self, m, p).Some? && Sends(self, m, p).value.machine != self
    requires Accepts(Sends(self, m, p).value.wire)
    ensures var machine := Sends(self, m, p).value.machine;
            (forall f :: Addresses(f) && f in p && Split(p[f]).Homed? ==> Split(p[f]).home == machine)
            <==> (forall f :: Addresses(f) && f in p && Split(p[f]).Homed? ==> Split(p[f]).home != self)
  {
    forall f | Addresses(f) && f in p && Split(p[f]).Homed? && Split(p[f]).home != self
      ensures Split(p[f]).home == Sends(self, m, p).value.machine
    {
      AcceptedEndToEnd(self, m, p, f);
    }
  }

  /** The sender's own id, beside one of another machine in the same fork call,
      crosses to that machine as a bare id: it names whatever the receiver calls
      by it. */
  lemma SendersIdCrosses(self: string, other: string, a: string, b: string)
    requires self != "" && other != "" && self != other && '~' !in self && '~' !in other && Trimmed(self)
              && Trimmed(other)
    requires a != "" && Trimmed(a) && !IsHomed(a) && b != "" && Trimmed(b) && !IsHomed(b) && !NamesHome(other)
    ensures var p := map[ForkPointId := Tag(self, a), RunId := Tag(other, b)];
            Sends(self, Method(ForkScoped, false, false), p)
              == Some(Sent(other, map[ForkPointId := a, RunId := b, MachineId := other]))
    ensures Accepts(map[ForkPointId := a, RunId := b, MachineId := other])
  {
    var p, q := map[ForkPointId := Tag(self, a), RunId := Tag(other, b)], map[ForkPointId := a, RunId := Tag(other, b)];
    TagSplits(self, a);
    TagSplits(other, b);
    BareIs(a);
    BareIs(b);
    ForkCarried(self, other, a, b);
    ForkRouted(self, other, a, b);
  }

  lemma LocalSame(self: string, p: Params)
    requires self != "" && MachineId !in p
    ensures Local(self, p) == p
  {
  }

  lemma ForkNotBad(bad: string -> bool, p: Params)
    requires p.Keys == {ForkPointId, RunId} && !bad(p[ForkPointId]) && !bad(p[RunId])
    ensures !AnyBad(p, bad)
  {
  }

  lemma ForkClean(bad: string -> bool, a: string, b: string)
    requires !bad(a) && !bad(b)
    ensures !AnyBad(map[ForkPointId := a, RunId := b], bad)
  {
    ForkNotBad(bad, map[ForkPointId := a, RunId := b]);
  }

  lemma ForkResolved(one: string -> string, a: string, b: string)
    ensures Rewritten(map[ForkPointId := a, RunId := b], one) == map[ForkPointId := one(a), RunId := one(b)]
  {
    ForkRewritten(one, map[ForkPointId := a, RunId := b], one(a), one(b));
  }

  /** The edge leaves `a` bare and `b` tagged. */
  lemma ForkEdge(self: string, other: string, a: string, b: string)
    requires self != "" && self != other && Trimmed(Tag(other, b))
    requires Split(Tag(self, a)) == Homed(self, a) && Split(Tag(other, b)) == Homed(other, b)
    ensures var p := map[ForkPointId := Tag(self, a), RunId := Tag(other, b)];
            && !AnyBad(Local(self, p), Malformed())
            && Rewritten(Local(self, p), Resolver(self)) == map[ForkPointId := a, RunId := Tag(other, b)]
  {
    LocalSame(self, map[ForkPointId := Tag(self, a), RunId := Tag(other, b)]);
    EdgeOnce(self, other, a, b);
    ForkClean(Malformed(), Tag(self, a), Tag(other, b));
    ForkResolved(Resolver(self), Tag(self, a), Tag(other, b));
  }

  lemma StripOnce(other: string, a: string, b: string)
    requires Split(a) == Bare(a) && Split(Tag(other, b)) == Homed(other, b)
    ensures Stripper(other)(a) == a && Stripper(other)(Tag(other, b)) == b
  {
  }

  lemma ForkOut(one: string -> string, machine: string, a: string, tagged: string, b: string)
    requires one(a) == a && one(tagged) == b
    ensures Rewritten((map[ForkPointId := a, RunId := tagged] - {OwnerKey, ParentChatId,
              ParentTabId})[MachineId := machine], one)
              == map[ForkPointId := a, RunId := b, MachineId := machine]
  {
    var q := map[ForkPointId := a, RunId := tagged];
    assert q - {OwnerKey, ParentChatId, ParentTabId} == q;
    ForkRewritten(one, q[MachineId := machine], a, b);
  }

  /** The target takes its own tag off. */
  lemma ForkWire(other: string, a: string, b: string)
    requires Split(a) == Bare(a) && Split(Tag(other, b)) == Homed(other, b)
    ensures Forwarded(other, map[ForkPointId := a, RunId := Tag(other, b)])
              == Some(map[ForkPointId := a, RunId := b, MachineId := other])
  {
    NoWork(other, map[ForkPointId := a, RunId := Tag(other, b)]);
    StripOnce(other, a, b);
    ForkOut(Stripper(other), other, a, Tag(other, b), b);
  }

  lemma ForkCarried(self: string, other: string, a: string, b: string)
    requires self != "" && self != other && Trimmed(Tag(other, b)) && Split(a) == Bare(a)
    requires Split(Tag(self, a)) == Homed(self, a) && Split(Tag(other, b)) == Homed(other, b)
    ensures Carried(self, map[ForkPointId := Tag(self, a), RunId := Tag(other, b)], other)
              == Some(map[ForkPointId := a, RunId := b, MachineId := other])
  {
    ForkEdge(self, other, a, b);
    ForkWire(other, a, b);
  }

  lemma ForkNames(other: string, a: string, b: string)
    requires Split(a) == Bare(a) && Trimmed(a) && Split(Tag(other, b)) == Homed(other, b) && Trimmed(Tag(other, b))
    ensures var q := map[ForkPointId := a, RunId := Tag(other, b)]; var named := NamedBy(q);
            && named(ForkPointId) == Bare(a) && named(RunId) == Homed(other, b)
            && (forall f :: f != ForkPointId && f != RunId ==> named(f) == Empty)
            && Field(q, MachineId) == ""
  {
  }

  lemma ForkRouted(self: string, other: string, a: string, b: string)
    requires self != "" && self != other && other != "" && Trimmed(Tag(other, b)) && Split(a) == Bare(a) && Trimmed(a)
    requires Split(Tag(self, a)) == Homed(self, a) && Split(Tag(other, b)) == Homed(other, b)
    ensures Routed(self, Method(ForkScoped, false, false), map[ForkPointId := Tag(self, a), RunId := Tag(other,
              b)]) == At(other)
  {
    ForkEdge(self, other, a, b);
    ForkNames(other, a, b);
    ForkTarget(NamedBy(map[ForkPointId := a, RunId := Tag(other, b)]), other, a, b);
  }

  lemma NoWork(machine: string, q: Params)
    requires WorkId !in q
    ensures Forwarded(machine, q)
              == Some(Rewritten((q - {OwnerKey, ParentChatId, ParentTabId})[MachineId := machine], Stripper(machine)))
  {
    assert Field((q - {OwnerKey, ParentChatId, ParentTabId})[MachineId := machine], WorkId) == "";
  }

  lemma OwnTagIsDropped(self: string, a: string)
    requires self != "" && Split(Tag(self, a)) == Homed(self, a)
    ensures ResolvedOne(self, Tag(self, a)) == a
  {
    assert |Tag(self, a)| > |a|;
  }

  lemma OtherTagIsKept(self: string, other: string, b: string)
    requires self != other && Split(Tag(other, b)) == Homed(other, b)
    ensures ResolvedOne(self, Tag(other, b)) == Tag(other, b)
  {
  }

  lemma EdgeOnce(self: string, other: string, a: string, b: string)
    requires self != "" && self != other
    requires Split(Tag(self, a)) == Homed(self, a) && Split(Tag(other, b)) == Homed(other, b)
    ensures Resolver(self)(Tag(self, a)) == a && Resolver(self)(Tag(other, b)) == Tag(other, b)
  {
    OwnTagIsDropped(self, a);
    OtherTagIsKept(self, other, b);
  }

  lemma BareIs(a: string)
    requires a != "" && Trimmed(a) && !IsHomed(a)
    ensures Split(a) == Bare(a) && !NamesHome(a)
  {
  }

  lemma ForkRewritten(one: string -> string, p: Params, a: string, b: string)
    requires ForkPointId in p && RunId in p && p.Keys <= {ForkPointId, RunId, MachineId}
    requires one(p[ForkPointId]) == a && one(p[RunId]) == b
    ensures Rewritten(p, one) == p[ForkPointId := a][RunId := b]
  {
  }

  lemma ForkTarget(named: Named, other: string, a: string, b: string)
    requires other != "" && named(ForkPointId) == Bare(a) && named(RunId) == Homed(other, b)
    requires forall f :: f != ForkPointId && f != RunId ==> named(f) == Empty
    ensures TargetOf(Method(ForkScoped, false, false), named, "") == At(other)
  {
    var fields := AddressFields(ForkScoped);
    assert fields[1..] == [RunId, ChildId] && [RunId, ChildId][1..] == [ChildId] && [ChildId][1..] == [];
    assert Scanned(named, [ChildId], other) == Tagged(other);
    assert Scanned(named, [RunId, ChildId], "") == Tagged(other);
  }

  // ----- A work id that names its machine twice -----

  /** A work id that names its machine twice is sent there and accepted, and
      arrives without either name: not its local part, which still had one. */
  lemma WorkIdLosesTwoNames(self: string, other: string, x: string)
    requires self != "" && other != "" && self != other && '~' !in other && Trimmed(other) && !NamesHome(other)
    requires x != "" && Trimmed(x) && !IsHomed(x)
    ensures Split(Tag(other, Tag(other, x))) == Homed(other, Tag(other, x)) && Tag(other, x) != x
    ensures Sends(self, Method(MachineScoped, true, false), map[WorkId := Tag(other, Tag(other, x))])
         == Some(Sent(other, map[WorkId := x, MachineId := other]))
    ensures Accepts(map[WorkId := x, MachineId := other])
  {
    var inner := Tag(other, x);
    var twice := Tag(other, inner);
    TagSplits(other, x);
    TagSplits(other, inner);
    BareIs(x);
    WorkEdge(self, other, inner, twice);
    WorkRouted(self, other, inner, twice);
    WorkWire(other, inner, twice, x);
  }

  lemma WorkOnly(one: string -> string, bad: string -> bool, p: Params, work: string)
    requires WorkId in p && p.Keys <= {WorkId, MachineId} && p[WorkId] == work
    ensures Rewritten(p, one) == p[WorkId := one(work)]
    ensures !bad(work) ==> !AnyBad(p, bad)
  {
  }

  lemma WorkEdge(self: string, other: string, inner: string, twice: string)
    requires self != "" && self != other && twice == Tag(other, inner) && Trimmed(twice)
    requires Split(twice) == Homed(other, inner)
    ensures var p := map[WorkId := twice];
            !AnyBad(Local(self, p), Malformed()) && Rewritten(Local(self, p), Resolver(self)) == p
  {
    var p := map[WorkId := twice];
    LocalSame(self, p);
    OtherTagIsKept(self, other, inner);
    WorkOnly(Resolver(self), Malformed(), p, twice);
  }

  lemma WorkNames(other: string, inner: string, twice: string)
    requires Trimmed(twice) && Split(twice) == Homed(other, inner)
    ensures var p := map[WorkId := twice]; var named := NamedBy(p);
            && named(WorkId) == Homed(other, inner) && (forall f :: f != WorkId ==> named(f) == Empty)
            && Field(p, MachineId) == ""
  {
  }

  lemma {:induction false} ScannedWork(named: Named, fields: seq<Param>, other: string, inner: string)
    requires other != "" && named(WorkId) == Homed(other, inner) && forall f :: f != WorkId ==> named(f) == Empty
    ensures Scanned(named, fields, other) == Tagged(other)
    ensures WorkId in fields ==> Scanned(named, fields, "") == Tagged(other)
    decreases |fields|
  {
    if fields != [] {
      ScannedWork(named, fields[1..], other, inner);
      assert fields == [fields[0]] + fields[1..];
    }
  }

  lemma WorkTarget(named: Named, other: string, inner: string)
    requires other != "" && named(WorkId) == Homed(other, inner) && forall f :: f != WorkId ==> named(f) == Empty
    ensures TargetOf(Method(MachineScoped, true, false), named, "") == At(other)
  {
    assert ADDRESS_FIELDS[5] == WorkId;
    ScannedWork(named, ADDRESS_FIELDS, other, inner);
  }

  lemma WorkRouted(self: string, other: string, inner: string, twice: string)
    requires self != "" && self != other && other != "" && twice == Tag(other, inner) && Trimmed(twice)
    requires Split(twice) == Homed(other, inner)
    ensures Routed(self, Method(MachineScoped, true, false), map[WorkId := twice]) == At(other)
  {
    WorkEdge(self, other, inner, twice);
    WorkNames(other, inner, twice);
    WorkTarget(NamedBy(map[WorkId := twice]), other, inner);
  }

  lemma HomedWork(machine: string, p: Params, local: string)
    requires WorkId in p && Trimmed(p[WorkId]) && Split(p[WorkId]) == Homed(machine, local)
    ensures Forwarded(machine, p) == Some(Rewritten((p - {OwnerKey, ParentChatId,
              ParentTabId})[MachineId := machine][WorkId := local], Stripper(machine)))
  {
    assert Field((p - {OwnerKey, ParentChatId, ParentTabId})[MachineId := machine], WorkId) == p[WorkId];
  }

  lemma WorkOut(one: string -> string, machine: string, work: string, inner: string)
    ensures Rewritten((map[WorkId := work] - {OwnerKey, ParentChatId,
              ParentTabId})[MachineId := machine][WorkId := inner], one)
              == map[WorkId := one(inner), MachineId := machine]
  {
    var p: Params := map[WorkId := work];
    assert p - {OwnerKey, ParentChatId, ParentTabId} == p;
    var q := p[MachineId := machine][WorkId := inner];
    WorkOnly(one, _ => false, q, inner);
    assert q[WorkId := one(inner)] == map[WorkId := one(inner), MachineId := machine];
  }

  lemma WorkWire(other: string, inner: string, twice: string, x: string)
    requires Trimmed(twice) && Split(twice) == Homed(other, inner) && Split(inner) == Homed(other, x)
    ensures Forwarded(other, map[WorkId := twice]) == Some(map[WorkId := x, MachineId := other])
  {
    HomedWork(other, map[WorkId := twice], inner);
    WorkOut(Stripper(other), other, twice, inner);
    assert Stripper(other)(inner) == x;
  }

  // ----- Every answer of the target -----

  /** The ids that address a call of each class. */
  predicate RoutedBy(kind: Kind, f: Param) {
    match kind
    case ChatScoped => f == TabId || f == ChatId
    case ForkScoped => f == ForkPointId || f == RunId || f == ChildId
    case _ => Addresses(f)
  }

  /** None of them is malformed, and those that name a machine name this one. */
  ghost predicate NameOnly(named: Named, kind: Kind, machine: string) {
    forall f :: RoutedBy(kind, f) ==> !named(f).Bad? && (named(f).Homed? ==> named(f).home == machine)
  }

  ghost predicate NameAny(named: Named, kind: Kind) {
    exists f :: RoutedBy(kind, f) && named(f).Homed?
  }

  /** They name exactly this machine. */
  ghost predicate Name(named: Named, kind: Kind, machine: string) {
    NameOnly(named, kind, machine) && NameAny(named, kind)
  }

  /** They are well-formed and name no machine. */
  ghost predicate NameNone(named: Named, kind: Kind) {
    forall f :: RoutedBy(kind, f) ==> !named(f).Bad? && !named(f).Homed?
  }

  /** The ids beside the address are well-formed and name a machine only if the
      address names it. */
  ghost predicate SecondaryFits(named: Named, addressed: bool, machine: string) {
    forall f :: f == EntityId || f == SubagentId || f == WorkId ==>
      !named(f).Bad? && (named(f).Homed? ==> addressed && named(f).home == machine)
  }

  lemma {:induction false} ScanIs(named: Named, fields: seq<Param>, tagged: string)
    requires forall f :: named(f).Homed? ==> named(f).home != ""
    ensures var scan := Scanned(named, fields, tagged);
            && (scan == Tagged("") <==> tagged == "" && forall f :: f in fields ==> !named(f).Bad? && !named(f).Homed?)
            && (forall machine :: machine != "" ==>
                  (scan == Tagged(machine) <==>
                     && (tagged == "" || tagged == machine)
                     && (forall f :: f in fields ==> !named(f).Bad? && (named(f).Homed? ==> named(f).home == machine))
                     && (tagged == machine || exists f :: f in fields && named(f).Homed?)))
    decreases |fields|
  {
    if fields != [] {
      var a := named(fields[0]);
      assert forall f :: f in fields <==> f == fields[0] || f in fields[1..];
      ScanIs(named, fields[1..], if a.Homed? then a.home else tagged);
    }
  }

  lemma RoutedFields(kind: Kind)
    ensures forall f :: f in AddressFields(kind) <==> RoutedBy(kind, f)
  {
    EveryAddress();
  }

  lemma ScanOfCall(named: Named, kind: Kind)
    requires forall f :: named(f).Homed? ==> named(f).home != ""
    ensures Scanned(named, AddressFields(kind), "") == Tagged("") <==> NameNone(named, kind)
    ensures forall machine :: machine != "" ==>
              (Scanned(named, AddressFields(kind), "") == Tagged(machine) <==> Name(named, kind, machine))
  {
    RoutedFields(kind);
    ScanIs(named, AddressFields(kind), "");
  }

  /** A local-only call runs here when nothing it holds names a machine, and is
      refused otherwise. */
  lemma LocalOnlyIff(m: Method, named: Named, requested: string)
    requires forall f :: named(f).Homed? ==> named(f).home != ""
    requires m.kind == LocalOnly
    ensures TargetOf(m, named, requested) == if NameNone(named, LocalOnly) && requested == "" then Here else Refused
  {
    ScanOfCall(named, LocalOnly);
  }

  /** A machine's call goes to the machine its ids name where the method takes
      such an id and the machine id agrees; without such an id to the machine id,
      or here without either; and is refused otherwise. */
  lemma MachineScopedIff(m: Method, named: Named, requested: string)
    requires forall f :: named(f).Homed? ==> named(f).home != ""
    requires m.kind == MachineScoped
    ensures TargetOf(m, named, requested) == Here <==> NameNone(named, MachineScoped) && requested == ""
    ensures forall machine :: TargetOf(m, named, requested) == At(machine) <==>
              || (NameNone(named, MachineScoped) && requested == machine && machine != "")
              || (m.taggedEntity && machine != "" && Name(named, MachineScoped, machine)
                  && (requested == "" || requested == machine))
  {
    ScanOfCall(named, MachineScoped);
  }

  /** A chat's or a fork's call is well addressed when its routed ids are
      well-formed and name one machine or none, a chat's pair both or neither, and
      the ids beside them name no other. */
  ghost predicate AddressedNowhere(m: Method, named: Named) {
    NameNone(named, m.kind) && SecondaryFits(named, false, "")
  }

  ghost predicate AddressedTo(m: Method, named: Named, machine: string) {
    && machine != "" && Name(named, m.kind, machine) && SecondaryFits(named, true, machine)
    && (m.kind == ChatScoped ==> named(TabId).Homed? && named(ChatId).Homed?)
  }

  /** It runs here when it names no machine in any way; it goes to the machine its
      ids name unless the machine id differs, or to the machine id where the
      method takes a host; and is refused otherwise. */
  lemma OtherScopesIff(m: Method, named: Named, requested: string)
    requires forall f :: named(f).Homed? ==> named(f).home != ""
    requires m.kind == ChatScoped || m.kind == ForkScoped
    ensures TargetOf(m, named, requested) == Here <==> AddressedNowhere(m, named) && requested == ""
    ensures forall machine :: TargetOf(m, named, requested) == At(machine) <==>
              || (AddressedTo(m, named, machine) && (requested == "" || requested == machine))
              || (AddressedNowhere(m, named) && m.hostTargetable && requested == machine && machine != "")
  {
    ScanOfCall(named, m.kind);
    PairIff(named);
    forall machine ensures TargetOf(m, named, requested) == At(machine) <==>
                             || (AddressedTo(m, named, machine) && (requested == "" || requested == machine))
                             || (AddressedNowhere(m, named) && m.hostTargetable && requested == machine
                                 && machine != "")
    {
      SecondaryIff(named, machine);
    }
    SecondaryIff(named, "");
  }

  lemma PairIff(named: Named)
    ensures NameNone(named, ChatScoped) ==> PairAgrees(named(TabId), named(ChatId))
    ensures forall machine :: Name(named, ChatScoped, machine) ==>
              (PairAgrees(named(TabId), named(ChatId)) <==> named(TabId).Homed? && named(ChatId).Homed?)
  {
    assert RoutedBy(ChatScoped, TabId) && RoutedBy(ChatScoped, ChatId);
  }

  lemma SecondaryIff(named: Named, machine: string)
    ensures SecondaryFits(named, machine != "", machine) <==>
              SecondaryAgrees(named(EntityId), machine) && SecondaryAgrees(named(SubagentId), machine)
              && SecondaryAgrees(named(WorkId), machine)
  {
  }

  /** An id of this machine, in any spelling, names no machine past the edge. */
  lemma OwnIdIsLocal(self: string, raw: string)
    requires !Split(raw).Bad?
    requires Split(raw).Homed? ==> Split(raw).home == self && self != "" && !IsHomed(Split(raw).local)
    ensures var a := Split(Trim(ResolvedOne(self, raw))); !a.Homed? && !a.Bad?
  {
    assert Trim(Trim(raw)) == Trim(raw);
    if Split(raw).Homed? {
      var local := Split(raw).local;
      assert Trim(Trim(local)) == Trim(local);
      assert !(LEGACY_PREFIX <= Trim(local)) && !(SCHEME <= Trim(local));
    }
  }

  /** The ids of a call name no machine but this one. */
  ghost predicate NamesOnly(self: string, p: Params) {
    forall f :: f in p && Addresses(f) ==>
      !Split(p[f]).Bad? && (Split(p[f]).Homed? ==> Split(p[f]).home == self && !IsHomed(Split(p[f]).local))
  }

  lemma NamesNothing(self: string, p: Params, kind: Kind)
    requires NamesOnly(self, p)
    ensures var named := NamedBy(Rewritten(Local(self, p), Resolver(self)));
            && NameNone(named, kind) && SecondaryFits(named, false, "")
            && forall f :: named(f).Homed? ==> named(f).home != ""
  {
    var q := Rewritten(Local(self, p), Resolver(self));
    var named := NamedBy(q);
    forall f | Addresses(f) ensures !named(f).Homed? && !named(f).Bad? {
      if f in q {
        assert f in p && q[f] == ResolvedOne(self, p[f]);
        if Split(p[f]).Homed? {
          SplitShape(p[f]);
        }
        OwnIdIsLocal(self, p[f]);
      }
    }
    forall f | named(f).Homed? ensures named(f).home != "" {
      SplitShape(Field(q, f));
    }
  }

  /** A machine's own API is the fleet's with itself for home: a call whose ids
      name no machine but its own, in any spelling, runs here when its machine id
      is its own or none; with another's it goes there where the method takes a
      host, and is refused otherwise. */
  lemma HomeIsLocal(self: string, m: Method, p: Params)
    requires NamesOnly(self, p)
    ensures var machine := Field(p, MachineId);
            Routed(self, m, p) == if machine == "" || machine == self then Here
                                  else if m.kind == MachineScoped || (m.kind != LocalOnly && m.hostTargetable)
                                  then At(machine) else Refused
  {
    var q := Rewritten(Local(self, p), Resolver(self));
    var named, requested := NamedBy(q), Field(q, MachineId);
    NamesNothing(self, p, m.kind);
    assert requested == if Field(p, MachineId) == self then "" else Field(p, MachineId);
    match m.kind
    case LocalOnly => LocalOnlyIff(m, named, requested);
    case MachineScoped => MachineScopedIff(m, named, requested);
    case _ => OtherScopesIff(m, named, requested);
  }

  // ----- What decides the target -----

  lemma {:induction false} ScannedIs(named: Named, fields: seq<Param>, tagged: string)
    requires Scanned(named, fields, tagged).Tagged?
    ensures var machine := Scanned(named, fields, tagged).machine;
            && (forall f :: f in fields ==> !named(f).Bad?)
            && (forall f :: f in fields && named(f).Homed? ==> tagged == "" || named(f).home == tagged)
            && (tagged != "" ==> machine == tagged)
            && (machine == tagged || exists f :: f in fields && named(f).Homed? && named(f).home == machine)
    decreases |fields|
  {
    if fields != [] {
      var a := named(fields[0]);
      ScannedIs(named, fields[1..], if a.Homed? then a.home else tagged);
      assert fields == [fields[0]] + fields[1..];
    }
  }

  /** A call goes to a machine only if its address ids and its machine id name no
      other, and one of them names it. */
  lemma TargetIsTheOneNamed(m: Method, named: Named, requested: string)
    requires forall f :: named(f).Homed? ==> named(f).home != ""
    requires TargetOf(m, named, requested).At?
    ensures var machine := TargetOf(m, named, requested).machine;
            && (forall f :: f in AddressFields(m.kind) && named(f).Homed? ==> named(f).home == machine)
            && (requested != "" ==> requested == machine)
            && (requested == machine
                || exists f :: f in AddressFields(m.kind) && named(f).Homed? && named(f).home == machine)
            && m.kind != LocalOnly
  {
    OneMachine(named, AddressFields(m.kind), "");
    ScannedIs(named, AddressFields(m.kind), "");
  }

  lemma {:induction false} OneMachine(named: Named, fields: seq<Param>, tagged: string)
    requires forall f :: named(f).Homed? ==> named(f).home != ""
    requires Scanned(named, fields, tagged).Tagged?
    ensures forall f :: f in fields && named(f).Homed? ==> named(f).home == Scanned(named, fields, tagged).machine
    decreases |fields|
  {
    if fields != [] {
      var a := named(fields[0]);
      if a.Homed? {
        ScannedIs(named, fields[1..], a.home);
        OneMachine(named, fields[1..], a.home);
      } else {
        OneMachine(named, fields[1..], tagged);
      }
      assert fields == [fields[0]] + fields[1..];
    }
  }
}
