/** A history reply bounded by the bytes it sends: the longest suffix of the
    rows that fits, never splitting the newest row or what is still running. */
module HistoryPage {
  import opened Basics

  type Raw = Bytes

  /** A projected row: its status, its encoding once finished for the wire (None
      when finishing fails), and its size as the other reader counts it. */
  datatype Row = Row(status: string, finished: Option<Raw>)

  predicate Open(row: Row) {
    row.status == "pending" || row.status == "running"
  }

  // ----- The reply -----

  const OPENING: Byte := 91
  const COMMA: Byte := 44
  const CLOSING: Byte := 93

  function Tail(encoded: seq<Raw>): Raw {
    if encoded == [] then [CLOSING] else [COMMA] + encoded[0] + Tail(encoded[1..])
  }

  /** The array that encoding the same rows together would write. */
  function Reply(encoded: seq<Raw>): Raw {
    if encoded == [] then [OPENING, CLOSING] else [OPENING] + encoded[0] + Tail(encoded[1..])
  }

  function TotalBytes(encoded: seq<Raw>): nat {
    if encoded == [] then 0 else |encoded[0]| + TotalBytes(encoded[1..])
  }

  lemma {:induction false} TailBytes(encoded: seq<Raw>)
    ensures |Tail(encoded)| == 1 + TotalBytes(encoded) + |encoded|
  {
    if encoded != [] {
      TailBytes(encoded[1..]);
    }
  }

  lemma ReplyBytes(encoded: seq<Raw>)
    ensures |Reply(encoded)| == 2 + TotalBytes(encoded) + (if encoded == [] then 0 else |encoded| - 1)
  {
    if encoded != [] {
      TailBytes(encoded[1..]);
    }
  }

  lemma AppendAssociates(out: Raw, a: Raw, b: Raw, c: Raw)
    ensures out + (a + b + c) == (out + a + b) + c
  {
  }

  /** The bytes before row k in the array's tail: every row before it, and a
      separator before each row. */
  function Offset(encoded: seq<Raw>, k: nat): nat
    requires k < |encoded|
    decreases k
  {
    if k == 0 then 1 else |encoded[0]| + 1 + Offset(encoded[1..], k - 1)
  }

  /** Bytes found at a place. */
  ghost predicate At(text: Raw, place: nat, part: Raw) {
    place + |part| <= |text| && text[place..place + |part|] == part
  }

  lemma {:induction false} TailHolds(encoded: seq<Raw>, k: nat)
    requires k < |encoded|
    ensures var at := Offset(encoded, k);
            && At(Tail(encoded), at, encoded[k]) && Tail(encoded)[at - 1] == 44 && at + |encoded[k]| < |Tail(encoded)|
            && Tail(encoded)[at + |encoded[k]|] == if k == |encoded| - 1 then 93 else 44
    ensures Offset(encoded, k) + |encoded[k]| == |Tail(encoded)| - 1 <==> k == |encoded| - 1
    decreases k
  {
    var head, rest := [44] + encoded[0], Tail(encoded[1..]);
    assert Tail(encoded) == head + rest;
    TailStarts(encoded[1..]);
    if k > 0 {
      TailHolds(encoded[1..], k - 1);
      var at := Offset(encoded[1..], k - 1);
      assert encoded[1..][k - 1] == encoded[k];
      assert (head + rest)[|head| + at..|head| + at + |encoded[k]|] == rest[at..at + |encoded[k]|];
    }
  }

  lemma TailStarts(encoded: seq<Raw>)
    ensures |Tail(encoded)| > 0 && Tail(encoded)[0] == (if encoded == [] then 93 else 44)
    ensures encoded == [] ==> |Tail(encoded)| == 1
    ensures encoded != [] ==> |Tail(encoded)| > 1
  {
    if encoded != [] {
      TailBytes(encoded);
    }
  }

  lemma SameButFirst(text: Raw, other: Raw, place: nat, part: Raw)
    requires |text| == |other| > 0 && text[1..] == other[1..] && place > 0 && At(text, place, part)
    ensures At(other, place, part)
    ensures forall i :: 0 < i < |text| ==> text[i] == other[i]
  {
    assert forall i :: 0 < i < |text| ==> text[i] == text[1..][i - 1] == other[i];
    assert text[place..place + |part|] == other[place..place + |part|];
  }

  /** A reply is its rows between brackets, in order, each byte for byte, with one
      comma between two. */
  lemma ReplyHolds(encoded: seq<Raw>, k: nat)
    requires k < |encoded|
    ensures var reply, at := Reply(encoded), Offset(encoded, k);
            && reply[0] == 91 && at > 0 && At(reply, at, encoded[k]) && at + |encoded[k]| < |reply|
            && (k == 0 ==> at == 1) && (k > 0 ==> reply[at - 1] == 44)
            && reply[at + |encoded[k]|] == (if k == |encoded| - 1 then 93 else 44)
            && (k + 1 < |encoded| ==> Offset(encoded, k + 1) == at + |encoded[k]| + 1)
            && (k == |encoded| - 1 ==> at + |encoded[k]| == |reply| - 1)
  {
    var tail, reply := Tail(encoded), Reply(encoded);
    TailHolds(encoded, k);
    Offsets(encoded, k);
    assert tail == [44] + (encoded[0] + Tail(encoded[1..])) && reply == [91] + (encoded[0] + Tail(encoded[1..]));
    SameButFirst(tail, reply, Offset(encoded, k), encoded[k]);
  }

  lemma {:induction false} Offsets(encoded: seq<Raw>, k: nat)
    requires k < |encoded|
    ensures k > 0 ==> Offset(encoded, k) > 1
    ensures k + 1 < |encoded| ==> Offset(encoded, k + 1) == Offset(encoded, k) + |encoded[k]| + 1
    decreases k
  {
    if k > 0 {
      Offsets(encoded[1..], k - 1);
    }
  }

  lemma EmptyReply()
    ensures Reply([]) == [91, 93]
  {
  }

  method RawReply(encoded: seq<Raw>) returns (out: Raw)
    ensures out == Reply(encoded)
  {
    out := [OPENING];
    ghost var whole := Reply(encoded);
    for index := 0 to |encoded|
      invariant if index == 0 then out == [OPENING] else out + Tail(encoded[index..]) == whole
    {
      AppendAssociates(out, [COMMA], encoded[index], Tail(encoded[index + 1..]));
      if index > 0 {
        out := out + [COMMA];
      }
      out := out + encoded[index];
    }
    assert encoded[|encoded|..] == [];
    out := out + [CLOSING];
  }

  /** The reply's length, without building it. */
  method Size(encoded: seq<Raw>) returns (size: nat)
    ensures size == |Reply(encoded)|
  {
    ReplyBytes(encoded);
    size := 2 + (if |encoded| > 0 then |encoded| - 1 else 0);
    for index := 0 to |encoded|
      invariant size + TotalBytes(encoded[index..]) == |Reply(encoded)|
    {
      size := size + |encoded[index]|;
    }
  }

  // ----- Which rows -----

  /** The first row that may not be dropped: the oldest open row, or the newest
      row; -1 for an empty history. */
  function Required(rows: seq<Row>): (required: int)
    ensures -1 <= required < |rows| && (rows != [] ==> 0 <= required)
    ensures forall i :: 0 <= i < required ==> !Open(rows[i])
    ensures 0 <= required < |rows| - 1 ==> Open(rows[required])
  {
    if |rows| <= 1 then |rows| - 1
    else if Open(rows[0]) then 0
    else 1 + Required(rows[1..])
  }

  method RequiredFirst(rows: seq<Row>) returns (required: int)
    ensures required == Required(rows)
  {
    required := |rows| - 1;
    for index := 0 to |rows|
      invariant -1 <= required < |rows| && (rows != [] ==> 0 <= required)
      invariant required == |rows| - 1 || (0 <= required < index && Open(rows[required]))
      invariant forall i :: 0 <= i < index && i < required ==> !Open(rows[i])
    {
      if Open(rows[index]) {
        required := if required < index then required else index;
      }
    }
  }

  /** What the loop has counted once it holds the rows from `first`: brackets,
      and a separator for every row. */
  function Used(sizes: seq<nat>, first: nat): (used: nat)
    requires first <= |sizes|
    ensures used >= 2
    decreases |sizes| - first
  {
    if first == |sizes| then 2 else sizes[first] + 1 + Used(sizes, first + 1)
  }

  /** A suffix that holds every required row, fits unless it holds nothing else,
      and has nothing more that would fit. */
  ghost predicate LongestFitting(sizes: seq<nat>, required: int, budget: int, first: nat)
    requires first <= |sizes|
  {
    && (sizes == [] || first <= required)
    && (first < required ==> Used(sizes, first) <= budget)
    && (first == 0 || Used(sizes, first - 1) > budget)
  }

  lemma {:induction false} UsedGrows(sizes: seq<nat>, i: nat, j: nat)
    requires i <= j <= |sizes|
    ensures Used(sizes, i) >= Used(sizes, j)
    decreases j - i
  {
    if i < j {
      UsedGrows(sizes, i + 1, j);
    }
  }

  /** There is only one such suffix. */
  lemma OneLongest(sizes: seq<nat>, required: int, budget: int, a: nat, b: nat)
    requires a <= |sizes| && b <= |sizes|
    requires LongestFitting(sizes, required, budget, a) && LongestFitting(sizes, required, budget, b)
    ensures a == b
  {
    if a < b {
      UsedGrows(sizes, a, b - 1);
    } else if b < a {
      UsedGrows(sizes, b, a - 1);
    }
  }

  function Sizes(rows: seq<Row>): (sizes: seq<nat>)
    ensures |sizes| == |rows|
  {
    seq(|rows|, i requires 0 <= i < |rows| => if rows[i].finished.Some? then |rows[i].finished.value| else 0)
  }

  function Encodings(rows: seq<Row>): (encoded: seq<Raw>)
    requires forall row :: row in rows ==> row.finished.Some?
    ensures |encoded| == |rows|
  {
    seq(|rows|, i requires 0 <= i < |rows| => rows[i].finished.value)
  }

  datatype Page = Page(messages: seq<Row>, encoded: seq<Raw>)

  /** A page that starts at `first`. */
  ghost predicate PageFrom(rows: seq<Row>, budget: int, page: Page, first: nat)
    requires first <= |rows|
  {
    && (forall row :: row in rows[first..] ==> row.finished.Some?)
    && page == Page(rows[first..], Encodings(rows[first..]))
    && (first > 0 ==> rows[first - 1].finished.Some?)
    && if budget <= 0 then first == 0 else LongestFitting(Sizes(rows), Required(rows), budget, first)
  }

  /** The row before `first` is reached and cannot be finished. */
  ghost predicate FailsBefore(rows: seq<Row>, budget: int, first: nat)
    requires first <= |rows|
  {
    && first > 0 && rows[first - 1].finished.None?
    && (forall row :: row in rows[first..] ==> row.finished.Some?)
    && (0 < budget && first < Required(rows) ==> Used(Sizes(rows), first) <= budget)
  }

  lemma MakesPage(rows: seq<Row>, budget: int, first: nat, encoded: seq<Raw>)
    requires first <= |rows| == |encoded|
    requires forall i :: first <= i < |rows| ==> rows[i].finished.Some? && encoded[i] == rows[i].finished.value
    requires first > 0 ==> rows[first - 1].finished.Some?
    requires if budget <= 0 then first == 0 else LongestFitting(Sizes(rows), Required(rows), budget, first)
    ensures PageFrom(rows, budget, Page(rows[first..], encoded[first..]), first)
  {
    forall row | row in rows[first..] ensures row.finished.Some? {
      var i :| first <= i < |rows| && rows[i] == row;
    }
    assert encoded[first..] == Encodings(rows[first..]);
  }

  lemma Fails(rows: seq<Row>, budget: int, first: nat)
    requires 0 < first <= |rows| && rows[first - 1].finished.None?
    requires forall i :: first <= i < |rows| ==> rows[i].finished.Some?
    requires 0 < budget && first < Required(rows) ==> Used(Sizes(rows), first) <= budget
    ensures FailsBefore(rows, budget, first)
  {
    forall row | row in rows[first..] ensures row.finished.Some? {
      var i :| first <= i < |rows| && rows[i] == row;
    }
  }

  /** Rows are finished from the newest back, so a row that fails matters only
      if the page reaches it. */
  method FinishArchivePage(rows: seq<Row>, budget: int) returns (page: Option<Page>)
    ensures page.Some? ==>
              && |page.value.messages| <= |rows|
              && PageFrom(rows, budget, page.value, |rows| - |page.value.messages|)
    ensures page.None? ==> exists first: nat :: first <= |rows| && FailsBefore(rows, budget, first)
  {
    var requiredFirst := RequiredFirst(rows);
    var encoded := new Raw[|rows|];
    var first := |rows|;
    var used := 2;
    ghost var sizes := Sizes(rows);
    var index := |rows| - 1;
    while index >= 0
      invariant -1 <= index < |rows| && first == index + 1
      invariant used == Used(sizes, first)
      invariant forall i :: first <= i < |rows| ==> rows[i].finished.Some? && encoded[i] == rows[i].finished.value
      invariant budget > 0 && first < requiredFirst ==> used <= budget
    {
      var data := rows[index].finished;
      if data.None? {
        Fails(rows, budget, first);
        return None;
      }
      var size := |data.value|;
      assert sizes[index] == size;
      if budget > 0 && index < requiredFirst && used + size + 1 > budget {
        break;
      }
      encoded[index] := data.value;
      first := index;
      used := used + size + 1;
      index := index - 1;
    }
    MakesPage(rows, budget, first, encoded[..]);
    assert encoded[..][first..] == encoded[first..];
    page := Some(Page(rows[first..], encoded[first..]));
    assert |rows| - |page.value.messages| == first;
  }

  /** The same selection over sizes counted another way. */
  method SuffixWithin(rows: seq<Row>, sizes: seq<nat>, budget: int) returns (messages: seq<Row>)
    requires |sizes| == |rows|
    ensures |messages| <= |rows| && messages == rows[|rows| - |messages|..]
    ensures LongestFitting(sizes, Required(rows), budget, |rows| - |messages|)
  {
    var requiredFirst := RequiredFirst(rows);
    var first := |rows|;
    var used := 2;
    var index := |rows| - 1;
    while index >= 0
      invariant -1 <= index < |rows| && first == index + 1 && used == Used(sizes, first)
      invariant first < requiredFirst ==> used <= budget
    {
      if index < requiredFirst && used + sizes[index] + 1 > budget {
        break;
      }
      first := index;
      used := used + sizes[index] + 1;
      index := index - 1;
    }
    messages := rows[first..];
    assert |rows| - |messages| == first;
  }

  // ----- What a page is -----

  lemma {:induction false} UsedIsTheReply(rows: seq<Row>, first: nat)
    requires first <= |rows| && forall row :: row in rows[first..] ==> row.finished.Some?
    ensures Used(Sizes(rows), first) == 2 + TotalBytes(Encodings(rows[first..])) + |rows| - first
    decreases |rows| - first
  {
    if first < |rows| {
      assert rows[first..][1..] == rows[first + 1..];
      assert forall row :: row in rows[first + 1..] ==> row in rows[first..];
      UsedIsTheReply(rows, first + 1);
      assert Encodings(rows[first..])[1..] == Encodings(rows[first + 1..]);
      assert rows[first..][0] in rows[first..];
    }
  }

  lemma ReplyIsUsed(rows: seq<Row>, first: nat)
    requires first < |rows| && forall row :: row in rows[first..] ==> row.finished.Some?
    ensures |Reply(Encodings(rows[first..]))| == Used(Sizes(rows), first) - 1
  {
    UsedIsTheReply(rows, first);
    ReplyBytes(Encodings(rows[first..]));
  }

  function WithOlder(older: seq<Raw>, encoded: seq<Raw>): Raw {
    Reply(older + encoded)
  }

  /** Over the budget, whatever older rows come with it. */
  ghost predicate NeverUnder(encoded: seq<Raw>, budget: int) {
    forall older: seq<Raw> :: |WithOlder(older, encoded)| >= budget
  }

  lemma {:induction false} MoreRowsMoreBytes(older: seq<Raw>, encoded: seq<Raw>)
    requires encoded != []
    ensures |WithOlder(older, encoded)| >= |Reply(encoded)|
  {
    if older == [] {
      assert older + encoded == encoded;
    } else {
      MoreRowsMoreBytes(older[1..], encoded);
      assert (older + encoded)[1..] == older[1..] + encoded;
      ReplyBytes(older + encoded);
      ReplyBytes(older[1..] + encoded);
    }
  }

  lemma OneMoreFinished(rows: seq<Row>, first: nat)
    requires 0 < first <= |rows| && rows[first - 1].finished.Some?
    requires forall row :: row in rows[first..] ==> row.finished.Some?
    ensures forall row :: row in rows[first - 1..] ==> row.finished.Some?
  {
    assert rows[first - 1..] == [rows[first - 1]] + rows[first..];
  }

  lemma LongestUnder(sizes: seq<nat>, required: nat, budget: int, first: nat)
    requires first <= |sizes| && required < |sizes| && LongestFitting(sizes, required, budget, first)
    ensures first <= required
    ensures if Used(sizes, required) <= budget
            then Used(sizes, first) <= budget && (first > 0 ==> Used(sizes, first - 1) > budget)
            else first == required
  {
    if first < required {
      UsedGrows(sizes, first, required);
    }
  }

  /** The rows from `first` in a reply under the budget, which no row before them
      would still be, however those further back encode. */
  ghost predicate LongestReply(rows: seq<Row>, budget: int, first: nat)
    requires first <= |rows| && (first > 0 ==> rows[first - 1].finished.Some?)
    requires forall row :: row in rows[first..] ==> row.finished.Some?
  {
    if first == 0 then |Reply(Encodings(rows))| < budget
    else
      OneMoreFinished(rows, first);
      |Reply(Encodings(rows[first..]))| < budget && NeverUnder(Encodings(rows[first - 1..]), budget)
  }

  /** The reply of the rows that must stay alone. */
  function ForcedReply(rows: seq<Row>, first: nat): Raw
    requires first <= Required(rows) && forall row :: row in rows[first..] ==> row.finished.Some?
  {
    Reply(Encodings(rows[Required(rows)..]))
  }

  /** A page is the longest suffix whose reply is under the budget, or, when the
      rows that must stay are over it alone, exactly those rows. It holds the
      newest row and every pending or running one. Rows it did not reach need not
      finish. */
  lemma PageIsTheLongestUnderBudget(rows: seq<Row>, budget: int, page: Page, first: nat)
    requires rows != [] && first <= |rows| && 0 < budget && PageFrom(rows, budget, page, first)
    ensures first <= Required(rows) && forall i :: 0 <= i < |rows| && Open(rows[i]) ==> first <= i
    ensures if |ForcedReply(rows, first)| < budget then LongestReply(rows, budget, first) else first == Required(rows)
  {
    LongestUnder(Sizes(rows), Required(rows), budget, first);
    assert rows[0..] == rows;
    ReplyIsUsed(rows, first);
    ReplyIsUsed(rows, Required(rows));
    if |ForcedReply(rows, first)| < budget && first > 0 {
      OneMoreFinished(rows, first);
      ReplyIsUsed(rows, first - 1);
      var encoded := Encodings(rows[first - 1..]);
      forall older: seq<Raw> ensures |WithOlder(older, encoded)| >= budget {
        MoreRowsMoreBytes(older, encoded);
      }
    }
  }

  /** Under one count of sizes, both readers keep the same rows: always with a
      positive budget, and without one exactly when nothing may be dropped. */
  lemma SameRowsIff(rows: seq<Row>, sizes: seq<nat>, budget: int, finished: nat, within: nat)
    requires |sizes| == |rows| && finished <= |rows| && within <= |rows|
    requires if budget <= 0 then finished == 0 else LongestFitting(sizes, Required(rows), budget, finished)
    requires LongestFitting(sizes, Required(rows), budget, within)
    ensures finished == within <==> budget > 0 || Required(rows) <= 0
  {
    if budget > 0 {
      OneLongest(sizes, Required(rows), budget, finished, within);
    }
  }
}
