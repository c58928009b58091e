/** Tool payloads sent as a head and their size, and read in chunks when a row
    opens. */
module LeanTools {
  import opened Basics
  import opened Utf8

  const LEAN_TOOL_PAYLOAD_THRESHOLD: nat := 4 * 1024
  const LEAN_TOOL_PAYLOAD_HEAD: nat := 1024
  const TOOL_SUMMARY_OUTPUT_HEAD: nat := 160
  const TOOL_DETAIL_CHUNK_BYTES: nat := 1024 * 1024
  const NEWLINE: Byte := 10

  // ----- Heads -----

  /** The longest well-formed prefix of at most `limit` bytes. */
  function HeadLength(value: Bytes, limit: nat): (k: nat)
    requires limit <= |value|
    ensures k <= limit && ValidString(value[..k])
    ensures forall j :: k < j <= limit ==> !ValidString(value[..j])
  {
    if limit == 0 || ValidString(value[..limit]) then limit else HeadLength(value, limit - 1)
  }

  function PayloadHead(value: Bytes, limit: nat): (head: Bytes)
    ensures head <= value && (|value| > limit ==> |head| <= limit)
  {
    if |value| <= limit then value else value[..HeadLength(value, limit)]
  }

  method TrimToValid(value: Bytes, limit: nat) returns (head: Bytes)
    requires limit <= |value|
    ensures head == value[..HeadLength(value, limit)]
  {
    head := value[..limit];
    while !ValidString(head) && |head| > 0
      invariant |head| <= limit && head == value[..|head|]
      invariant HeadLength(value, limit) == HeadLength(value, |head|)
      decreases |head|
    {
      head := head[..|head| - 1];
    }
  }

  method ToolPayloadHead(value: Bytes, limit: nat) returns (head: Bytes)
    ensures head == PayloadHead(value, limit)
  {
    if |value| <= limit {
      return value;
    }
    head := TrimToValid(value, limit);
  }

  /** One past the last newline, or 0. */
  function AfterLastNewline(s: Bytes): (cut: nat)
    ensures cut <= |s| && (cut > 0 ==> s[cut - 1] == NEWLINE)
    ensures forall i :: cut <= i < |s| ==> s[i] != NEWLINE
  {
    if s == [] then 0
    else if s[|s| - 1] == NEWLINE then |s|
    else AfterLastNewline(s[..|s| - 1])
  }

  function LeanHead(value: Bytes): (head: Bytes)
    requires |value| >= LEAN_TOOL_PAYLOAD_HEAD
    ensures head <= value && |head| <= LEAN_TOOL_PAYLOAD_HEAD
  {
    var head := value[..HeadLength(value, LEAN_TOOL_PAYLOAD_HEAD)];
    var cut := AfterLastNewline(head);
    if cut > LEAN_TOOL_PAYLOAD_HEAD / 2 + 1 then head[..cut] else head
  }

  method LeanToolHead(value: Bytes) returns (head: Bytes)
    requires |value| >= LEAN_TOOL_PAYLOAD_HEAD
    ensures head == LeanHead(value)
  {
    head := TrimToValid(value, LEAN_TOOL_PAYLOAD_HEAD);
    var cut := |head|;
    while cut > 0 && head[cut - 1] != NEWLINE
      invariant 0 <= cut <= |head| && AfterLastNewline(head) == AfterLastNewline(head[..cut])
    {
      assert head[..cut][..cut - 1] == head[..cut - 1];
      cut := cut - 1;
    }
    if cut - 1 > LEAN_TOOL_PAYLOAD_HEAD / 2 {
      head := head[..cut];
    }
  }

  /** A head never splits a character, and gives up at most three bytes to that. */
  lemma HeadIsWellFormed(value: Bytes, limit: nat)
    requires ValidString(value)
    ensures ValidString(PayloadHead(value, limit))
    ensures 3 <= limit < |value| ==> limit - 3 <= |PayloadHead(value, limit)|
  {
    if 3 <= limit < |value| {
      StartNearby(value, limit);
      var j :| limit - 3 <= j <= limit && RuneStart(value[j]);
      PrefixValidIff(value, j);
    }
  }

  lemma LeanHeadIsWellFormed(value: Bytes)
    requires ValidString(value) && |value| > LEAN_TOOL_PAYLOAD_HEAD
    ensures ValidString(LeanHead(value)) && LEAN_TOOL_PAYLOAD_HEAD / 2 < |LeanHead(value)|
  {
    var head := value[..HeadLength(value, LEAN_TOOL_PAYLOAD_HEAD)];
    var cut := AfterLastNewline(head);
    HeadIsWellFormed(value, LEAN_TOOL_PAYLOAD_HEAD);
    if cut > LEAN_TOOL_PAYLOAD_HEAD / 2 + 1 {
      AfterAscii(head, cut - 1);
    }
  }

  // ----- The two passes -----

  /** One field of a tool event as a reply holds it. */
  datatype Field = Absent | Field(value: Bytes, deferred: bool, bytes: nat)

  datatype Event = Event(tool: bool, header: bool, command: Bytes, title: Field, input: Field, output: Field)

  datatype Message = Message(status: string, events: seq<Event>)

  /** Whether a payload holds the name or the mark of a page the agent published. */
  datatype Marks = Marks(names: Bytes -> bool, prints: Bytes -> bool)

  function ValueOf(field: Field): Bytes {
    if field.Absent? then [] else field.value
  }

  function LeanField(field: Field, keep: bool): Field {
    if field.Absent? || |field.value| <= LEAN_TOOL_PAYLOAD_THRESHOLD || keep then field
    else Field(LeanHead(field.value), true, |field.value|)
  }

  function LeanPayloads(e: Event, payloads: bool, titles: bool, marks: Marks): Event {
    if !e.tool || e.header then e
    else
      e.(output := LeanField(e.output, !payloads || marks.prints(ValueOf(e.output))),
         input := LeanField(e.input, !payloads),
         title := LeanField(e.title, !titles || marks.names(ValueOf(e.title))))
  }

  function Summarized(field: Field, head: nat): Field
    requires field.Field?
  {
    Field(PayloadHead(field.value, head), true, if field.deferred then field.bytes else |field.value|)
  }

  function LeanSummary(e: Event, marks: Marks): Event {
    if !e.tool || e.header || marks.names(ValueOf(e.title)) || marks.names(e.command) || marks.names(ValueOf(e.input))
       || marks.prints(ValueOf(e.output)) then e
    else
      e.(input := if e.input.Field? && e.input.value != [] then Summarized(e.input, 0) else e.input,
         output := if e.output.Field? && |e.output.value| > TOOL_SUMMARY_OUTPUT_HEAD
                   then Summarized(e.output, TOOL_SUMMARY_OUTPUT_HEAD) else e.output)
  }

  datatype Pass = Payloads(payloads: bool, titles: bool) | Summaries

  function Passed(e: Event, pass: Pass, marks: Marks): Event {
    match pass
    case Payloads(payloads, titles) => LeanPayloads(e, payloads, titles, marks)
    case Summaries => LeanSummary(e, marks)
  }

  function PassedEvents(events: seq<Event>, pass: Pass, marks: Marks): seq<Event> {
    if events == [] then [] else [Passed(events[0], pass, marks)] + PassedEvents(events[1..], pass, marks)
  }

  function PassedMessage(m: Message, pass: Pass, marks: Marks): Message {
    if m.status == "running" || m.status == "pending" then m
    else m.(events := PassedEvents(m.events, pass, marks))
  }

  lemma {:induction false} PassedEventsAt(events: seq<Event>, pass: Pass, marks: Marks, i: nat)
    requires i < |events|
    ensures |PassedEvents(events, pass, marks)| == |events|
    ensures PassedEvents(events, pass, marks)[i] == Passed(events[i], pass, marks)
  {
    if |events| > 1 {
      PassedEventsAt(events[1..], pass, marks, if i > 0 then i - 1 else 0);
    }
  }

  method LeanEvents(events: seq<Event>, pass: Pass, marks: Marks) returns (leaned: seq<Event>)
    ensures leaned == PassedEvents(events, pass, marks)
  {
    leaned := [];
    for k := 0 to |events|
      invariant leaned + PassedEvents(events[k..], pass, marks) == PassedEvents(events, pass, marks)
    {
      assert events[k..][1..] == events[k + 1..];
      leaned := leaned + [Passed(events[k], pass, marks)];
    }
  }

  method LeanMessage(m: Message, pass: Pass, marks: Marks) returns (leaned: Message)
    ensures leaned == PassedMessage(m, pass, marks)
  {
    if m.status == "running" || m.status == "pending" {
      return m;
    }
    var events := LeanEvents(m.events, pass, marks);
    leaned := m.(events := events);
  }

  /** A pass rewrites the settled rows of a reply in place. */
  method Lean(messages: array<Message>, pass: Pass, marks: Marks)
    modifies messages
    ensures forall i :: 0 <= i < messages.Length ==> messages[i] == PassedMessage(old(messages[i]), pass, marks)
  {
    for i := 0 to messages.Length
      invariant forall j :: 0 <= j < i ==> messages[j] == PassedMessage(old(messages[j]), pass, marks)
      invariant forall j :: i <= j < messages.Length ==> messages[j] == old(messages[j])
    {
      messages[i] := LeanMessage(messages[i], pass, marks);
    }
  }

  // ----- Nothing is lost -----

  /** A field of a reply, against what is stored: a prefix, marked deferred
      exactly when it is a strict one, and then with the stored length. */
  ghost predicate Faithful(field: Field, stored: Field) {
    if stored.Absent? then field.Absent?
    else
      && field.Field? && field.value <= stored.value
      && (field.deferred <==> field.value != stored.value)
      && (field.deferred ==> field.bytes == |stored.value| && |field.value| <= LEAN_TOOL_PAYLOAD_HEAD)
  }

  ghost predicate FaithfulEvent(e: Event, stored: Event) {
    Faithful(e.title, stored.title) && Faithful(e.input, stored.input) && Faithful(e.output, stored.output)
  }

  ghost predicate Stored(e: Event) {
    && (e.title.Field? ==> !e.title.deferred) && (e.input.Field? ==> !e.input.deferred)
    && (e.output.Field? ==> !e.output.deferred)
  }

  lemma LeanFieldFaithful(field: Field, keep: bool, stored: Field)
    requires Faithful(field, stored)
    ensures Faithful(LeanField(field, keep), stored)
  {
  }

  lemma SummarizedFaithful(field: Field, head: nat, stored: Field)
    requires Faithful(field, stored) && field.Field? && |field.value| > head && head <= LEAN_TOOL_PAYLOAD_HEAD
    ensures Faithful(Summarized(field, head), stored)
  {
  }

  lemma PassFaithful(e: Event, pass: Pass, marks: Marks, stored: Event)
    requires FaithfulEvent(e, stored)
    ensures FaithfulEvent(Passed(e, pass, marks), stored)
  {
    match pass
    case Payloads(payloads, titles) =>
      LeanFieldFaithful(e.output, !payloads || marks.prints(ValueOf(e.output)), stored.output);
      LeanFieldFaithful(e.input, !payloads, stored.input);
      LeanFieldFaithful(e.title, !titles || marks.names(ValueOf(e.title)), stored.title);
    case Summaries =>
      if e.input.Field? && e.input.value != [] {
        SummarizedFaithful(e.input, 0, stored.input);
      }
      if e.output.Field? && |e.output.value| > TOOL_SUMMARY_OUTPUT_HEAD {
        SummarizedFaithful(e.output, TOOL_SUMMARY_OUTPUT_HEAD, stored.output);
      }
  }

  function PassedAll(e: Event, passes: seq<Pass>, marks: Marks): Event
    decreases |passes|
  {
    if passes == [] then e else PassedAll(Passed(e, passes[0], marks), passes[1..], marks)
  }

  lemma {:induction false} PassesFaithful(e: Event, passes: seq<Pass>, marks: Marks, stored: Event)
    requires FaithfulEvent(e, stored)
    ensures FaithfulEvent(PassedAll(e, passes, marks), stored)
    decreases |passes|
  {
    if passes != [] {
      PassFaithful(e, passes[0], marks, stored);
      PassesFaithful(Passed(e, passes[0], marks), passes[1..], marks, stored);
    }
  }

  /** After the passes in any order and repetition, every field is a prefix of
      what is stored, deferred exactly when a strict one, with the stored size. */
  lemma LeanRowsAreFaithful(stored: Event, passes: seq<Pass>, marks: Marks)
    requires Stored(stored)
    ensures FaithfulEvent(PassedAll(stored, passes, marks), stored)
  {
    PassesFaithful(stored, passes, marks, stored);
  }

  // ----- What a pass takes away -----

  function Length(field: Field): nat {
    if field.Absent? then 0 else |field.value|
  }

  /** The payload pass cuts a settled call's long payloads to their heads: an
      output unless it prints a page's mark, an input always, a title when titles
      are asked for and it does not name a page. What is short stays. */
  lemma PayloadsCutIff(e: Event, payloads: bool, titles: bool, marks: Marks)
    requires e.tool && !e.header
    ensures var after := LeanPayloads(e, payloads, titles, marks);
            && (Length(after.output) < Length(e.output) <==>
                  payloads && Length(e.output) > 4096 && !marks.prints(e.output.value))
            && (Length(after.input) < Length(e.input) <==> payloads && Length(e.input) > 4096)
            && (Length(after.title) < Length(e.title) <==>
                  titles && Length(e.title) > 4096 && !marks.names(e.title.value))
            && (Length(after.output) < Length(e.output) ==>
                  Length(after.output) <= 1024 && after.output.deferred && after.output.bytes == |e.output.value|)
            && (Length(after.input) < Length(e.input) ==>
                  Length(after.input) <= 1024 && after.input.deferred && after.input.bytes == |e.input.value|)
            && (Length(after.output) == Length(e.output) ==> after.output == e.output)
            && (Length(after.input) == Length(e.input) ==> after.input == e.input)
            && (Length(after.title) == Length(e.title) ==> after.title == e.title)
            && after.command == e.command && after.tool && !after.header
  {
  }

  /** A summary keeps nothing of an unmarked call's input and at most 160 bytes of
      its output, and all of a marked one. */
  lemma SummaryCutsIff(e: Event, marks: Marks)
    requires e.tool && !e.header
    ensures var after := LeanSummary(e, marks);
            && after.title == e.title && after.command == e.command && after.tool && !after.header
            && (Marked(e, marks) ==> after == e)
            && (!Marked(e, marks) ==>
                  && Length(after.input) == 0 && Length(after.output) <= 160
                  && (Length(e.input) == 0 ==> after.input == e.input)
                  && (Length(e.output) <= 160 ==> after.output == e.output)
                  && (Length(e.input) > 0 ==> after.input.deferred)
                  && (Length(e.output) > 160 ==> after.output.deferred))
  {
  }

  /** Rows that still run, and events that are no tool call, pass untouched. */
  lemma OthersPassUntouched(m: Message, e: Event, pass: Pass, marks: Marks)
    ensures m.status == "running" || m.status == "pending" ==> PassedMessage(m, pass, marks) == m
    ensures m.status != "running" && m.status != "pending" ==>
              PassedMessage(m, pass, marks) == Message(m.status, PassedEvents(m.events, pass, marks))
    ensures !e.tool || e.header ==> Passed(e, pass, marks) == e
  {
  }

  // ----- Calls that show something outside the fold -----

  predicate Marked(e: Event, marks: Marks) {
    marks.names(ValueOf(e.title)) || marks.names(e.command) || marks.names(ValueOf(e.input))
        || marks.prints(ValueOf(e.output))
  }

  /** What a prefix contains the whole contains. */
  ghost predicate Contained(marks: Marks) {
    && (forall s: Bytes, k: nat :: k <= |s| && marks.names(s[..k]) ==> marks.names(s))
    && (forall s: Bytes, k: nat :: k <= |s| && marks.prints(s[..k]) ==> marks.prints(s))
  }

  lemma HeadContained(field: Field, keep: bool, marks: Marks)
    requires Contained(marks)
    ensures marks.names(ValueOf(LeanField(field, keep))) ==> marks.names(ValueOf(field))
    ensures marks.prints(ValueOf(LeanField(field, keep))) ==> marks.prints(ValueOf(field))
  {
    if LeanField(field, keep) != field {
      var head := LeanHead(field.value);
      assert field.value[..|head|] == head;
    }
  }

  /** Nothing but the input names the page's tool, the input is long enough to
      be cut, and what is left of it does not name the tool. */
  predicate OnlyPastTheHead(e: Event, marks: Marks) {
    && !marks.names(ValueOf(e.title)) && !marks.names(e.command) && !marks.prints(ValueOf(e.output))
    && e.input.Field? && |e.input.value| > LEAN_TOOL_PAYLOAD_THRESHOLD && !marks.names(LeanHead(e.input.value))
  }

  /** A marked call is to keep everything in a summary. With the payloads leaned
      first, as a page does, a call keeps its mark exactly when it had one and not
      only past its input's head; it then keeps everything. */
  lemma MarkedCallIsKeptIff(e: Event, marks: Marks)
    requires e.tool && !e.header && Contained(marks)
    ensures Marked(LeanPayloads(e, true, true, marks), marks) <==> Marked(e, marks) && !OnlyPastTheHead(e, marks)
    ensures Marked(e, marks) && !OnlyPastTheHead(e, marks) ==>
              LeanSummary(LeanPayloads(e, true, true, marks), marks) == LeanPayloads(e, true, true, marks)
  {
    HeadContained(e.title, marks.names(ValueOf(e.title)), marks);
    HeadContained(e.output, marks.prints(ValueOf(e.output)), marks);
    HeadContained(e.input, false, marks);
  }

  /** A call whose input names the page's tool past its head loses its output to
      the summary, though the summary alone would keep it. */
  lemma MarkPastTheHead(e: Event, marks: Marks)
    requires e.tool && !e.header && Contained(marks) && e.output.Field?
    requires OnlyPastTheHead(e, marks) && marks.names(e.input.value)
    requires TOOL_SUMMARY_OUTPUT_HEAD < |e.output.value| <= LEAN_TOOL_PAYLOAD_THRESHOLD
    ensures LeanSummary(e, marks) == e
    ensures LeanSummary(LeanPayloads(e, true, true, marks), marks).output.value != e.output.value
  {
    MarkedCallIsKeptIff(e, marks);
  }

  // ----- The rest, in chunks -----

  datatype Chunk = Chunk(text: Bytes, offset: nat, next: nat, total: nat)

  /** Where a chunk that could end at `end` ends. */
  function ChunkEnd(value: Bytes, offset: nat, end: nat): (next: nat)
    requires offset <= end <= |value|
    ensures offset <= next <= end
    ensures next == |value| || next == offset || RuneStart(value[next])
    ensures end < |value| ==> forall i :: next < i <= end ==> Continuation(value[i])
    ensures end == |value| ==> next == end
  {
    if end < |value| && end > offset && !RuneStart(value[end]) then ChunkEnd(value, offset, end - 1) else end
  }

  function FirstEnd(value: Bytes, offset: nat): (end: nat)
    requires offset <= |value|
    ensures offset <= end <= |value|
  {
    if |value| < offset + TOOL_DETAIL_CHUNK_BYTES then |value| else offset + TOOL_DETAIL_CHUNK_BYTES
  }

  function NextOffset(value: Bytes, offset: nat): (next: nat)
    requires offset <= |value|
    ensures offset <= next <= |value|
  {
    ChunkEnd(value, offset, FirstEnd(value, offset))
  }

  /** A chunk of a payload; None for an offset past it. */
  method ProjectToolDetail(value: Bytes, offset: nat) returns (chunk: Option<Chunk>)
    ensures chunk.None? <==> offset > |value|
    ensures chunk.Some? ==>
              chunk.value == Chunk(value[offset..NextOffset(value, offset)], offset, NextOffset(value, offset), |value|)
  {
    if offset > |value| {
      return None;
    }
    var end := FirstEnd(value, offset);
    ghost var first := end;
    while end < |value| && end > offset && !RuneStart(value[end])
      invariant offset <= end <= |value|
      invariant ChunkEnd(value, offset, first) == ChunkEnd(value, offset, end)
      decreases end
    {
      end := end - 1;
    }
    chunk := Some(Chunk(value[offset..end], offset, end, |value|));
  }

  /** A read from here gets further exactly when a character starts, or the
      payload ends, within the next chunk's reach. A reader repeats a read that
      does not for ever. */
  lemma ProgressIff(value: Bytes, offset: nat)
    requires offset < |value|
    ensures NextOffset(value, offset) > offset <==>
              || |value| <= offset + TOOL_DETAIL_CHUNK_BYTES
              || exists i :: offset < i <= offset + TOOL_DETAIL_CHUNK_BYTES && RuneStart(value[i])
  {
    var next := NextOffset(value, offset);
    if offset + TOOL_DETAIL_CHUNK_BYTES < |value| && next > offset {
      assert RuneStart(value[next]);
    }
  }

  /** A stored payload of continuation bytes alone stalls a reader. */
  lemma ContinuationBytesStall(value: Bytes)
    requires |value| > TOOL_DETAIL_CHUNK_BYTES && forall i :: 0 <= i < |value| ==> Continuation(value[i])
    ensures NextOffset(value, 0) == 0
  {
    ProgressIff(value, 0);
  }

  /** From a character's start, well-formed text yields a non-empty, well-formed
      chunk within the limit, ending at a character's start. */
  lemma ChunkIsWellFormed(value: Bytes, offset: nat)
    requires ValidString(value) && offset < |value| && RuneStart(value[offset])
    ensures var next := NextOffset(value, offset);
            && offset < next <= offset + TOOL_DETAIL_CHUNK_BYTES
            && ValidString(value[offset..next])
            && (next < |value| ==> RuneStart(value[next]))
  {
    var next := NextOffset(value, offset);
    if offset + TOOL_DETAIL_CHUNK_BYTES < |value| {
      StartNearby(value, offset + TOOL_DETAIL_CHUNK_BYTES);
      ProgressIff(value, offset);
    }
    PrefixValidIff(value, offset);
    PrefixValidIff(value, next);
    assert value[..next][..offset] == value[..offset];
    RestValid(value[..next], offset);
    assert value[..next][offset..] == value[offset..next];
  }

  /** What a reader holds that starts at `offset` and reads until next == total. */
  function ReadFrom(value: Bytes, offset: nat): Bytes
    requires offset <= |value| && ValidString(value) && (offset < |value| ==> RuneStart(value[offset]))
    decreases |value| - offset
  {
    if offset == |value| then []
    else
      ChunkIsWellFormed(value, offset);
      value[offset..NextOffset(value, offset)] + ReadFrom(value, NextOffset(value, offset))
  }

  lemma {:induction false} ReadFromIsTheRest(value: Bytes, offset: nat)
    requires offset <= |value| && ValidString(value) && (offset < |value| ==> RuneStart(value[offset]))
    ensures ReadFrom(value, offset) == value[offset..]
    decreases |value| - offset
  {
    if offset < |value| {
      var next := NextOffset(value, offset);
      ChunkIsWellFormed(value, offset);
      ReadFromIsTheRest(value, next);
      assert value[offset..] == value[offset..next] + value[next..];
    }
  }

  /** Detail reads rebuild the stored payload, whatever its size. */
  lemma DetailRebuildsThePayload(value: Bytes)
    requires ValidString(value)
    ensures value != [] ==> RuneStart(value[0])
    ensures ReadFrom(value, 0) == value
  {
    if value != [] {
      RuneShape(value);
    }
    ReadFromIsTheRest(value, 0);
  }
}
