/** The pages read ahead for a closed chat: those the renderer will ask for
    after its first screen. */
module WarmSlice {
  import opened Basics
  import opened ChatCache

  type Id = string

  /** A page's reply, and the row ids it decodes to (None when it does not). */
  datatype Reply = Reply(raw: Raw, ids: Option<seq<Id>>)

  /** A page-before read of one closed chat at one revision. */
  type PageReader = PageKey -> Option<Reply>

  const FIRST_SCREEN_WARM_LIMIT: nat := 10

  /** The rows of a page older than the boundary. */
  function Before(ids: seq<Id>, boundary: Id): (prefix: seq<Id>)
    ensures prefix <= ids
  {
    if ids == [] || ids[0] == boundary then [] else [ids[0]] + Before(ids[1..], boundary)
  }

  predicate Overlaps(prefix: seq<Id>, ids: seq<Id>) {
    exists id :: id in prefix && id in ids
  }

  function Newest(ids: seq<Id>, n: nat): (r: seq<Id>)
    ensures |r| == if |ids| < n then |ids| else n
  {
    if |ids| <= n then ids else ids[|ids| - n..]
  }

  function KeyFor(ids: seq<Id>, want: nat): PageKey
    requires ids != [] && |ids| < want
  {
    PageKey(ids[0], want - |ids|)
  }

  /** One page read for rows still lacking: a failure, nothing new, or the page
      and the rows held with it. */
  datatype Turn = Failed | Nothing | More(raw: Raw, ids: seq<Id>)

  function ReadOne(ids: seq<Id>, want: nat, read: PageReader): (turn: Turn)
    requires ids != [] && |ids| < want
    ensures turn.More? ==> |ids| < |turn.ids| <= want
  {
    match read(KeyFor(ids, want))
    case None => Failed
    case Some(reply) =>
      if reply.ids.None? then Failed
      else
        var prefix := Before(reply.ids.value, ids[0]);
        if prefix == [] || Overlaps(prefix, ids) then Nothing
        else More(reply.raw, Newest(prefix, want - |ids|) + ids)
  }

  // ----- What the renderer asks for -----

  /** The first place of an id, or -1. */
  function FindIndex(ids: seq<Id>, id: Id): (index: int)
    ensures -1 <= index < |ids|
    ensures if index < 0 then id !in ids else ids[index] == id && id !in ids[..index]
  {
    if ids == [] then -1
    else if ids[0] == id then 0
    else
      var later := FindIndex(ids[1..], id);
      assert ids == [ids[0]] + ids[1..];
      if later < 0 then -1 else
      assert ids[..later + 1] == [ids[0]] + ids[1..][..later];
      later + 1
  }

  /** A slice counted from the end: all of it when the count is 0 or too large. */
  function SliceFromEnd(ids: seq<Id>, n: nat): seq<Id> {
    if n == 0 || n >= |ids| then ids else ids[|ids| - n..]
  }

  /** Whether some row of the page is on screen already. */
  predicate AnySeen(page: seq<Id>, rows: seq<Id>) {
    exists i :: 0 <= i < |page| && page[i] in rows
  }

  /** One turn of the renderer's loop: the rows it holds afterwards, or None
      where it breaks off. */
  function RendererTurn(rows: seq<Id>, want: nat, read: PageReader): (turn: Option<seq<Id>>)
    requires rows != [] && |rows| < want
    ensures turn.Some? ==> |rows| < |turn.value| <= want
  {
    var boundary, lacking := rows[0], want - |rows|;
    var step := read(PageKey(boundary, lacking));
    if step.None? || step.value.ids.None? then None
    else
      var page := step.value.ids.value;
      var boundaryIndex := FindIndex(page, boundary);
      var prefix := if boundaryIndex >= 0 then page[..boundaryIndex] else page;
      if |prefix| == 0 || AnySeen(prefix, rows) then None
      else Some(SliceFromEnd(prefix, lacking) + rows)
  }

  lemma {:induction false} CutWhereFound(page: seq<Id>, boundary: Id)
    ensures var index := FindIndex(page, boundary);
            Before(page, boundary) == if index >= 0 then page[..index] else page
  {
    if page != [] && page[0] != boundary {
      CutWhereFound(page[1..], boundary);
      assert page == [page[0]] + page[1..];
    }
  }

  /** The renderer's turn, written apart from the daemon's, holds the same rows
      and breaks off at the same reads. */
  lemma RendererReadsAlike(rows: seq<Id>, want: nat, read: PageReader)
    requires rows != [] && |rows| < want
    ensures match ReadOne(rows, want, read)
            case More(_, more) => RendererTurn(rows, want, read) == Some(more)
            case _ => RendererTurn(rows, want, read) == None
  {
    var reply := read(KeyFor(rows, want));
    if reply.Some? && reply.value.ids.Some? {
      var prefix := Before(reply.value.ids.value, rows[0]);
      CutWhereFound(reply.value.ids.value, rows[0]);
      assert Overlaps(prefix, rows) <==> AnySeen(prefix, rows);
      assert SliceFromEnd(prefix, want - |rows|) == Newest(prefix, want - |rows|);
    }
  }

  /** The requests the renderer makes, in order, while it has fewer rows than
      its slice wants and its oldest row has an id. */
  function Requests(rows: seq<Id>, want: nat, read: PageReader): seq<PageKey>
    decreases want - |rows|
  {
    if |rows| >= want || rows == [] || rows[0] == "" then []
    else
      var request := PageKey(rows[0], want - |rows|);
      match RendererTurn(rows, want, read)
      case None => [request]
      case Some(more) => [request] + Requests(more, want, read)
  }

  // ----- What is read ahead -----

  datatype Walk = Walk(pages: map<PageKey, Raw>, ids: seq<Id>)

  /** The walk from here: None when a read fails, in which case nothing is kept. */
  function WalkFrom(pages: map<PageKey, Raw>, ids: seq<Id>, want: nat, read: PageReader): Option<Walk>
    decreases want - |ids|
  {
    if |ids| >= want || ids == [] then Some(Walk(pages, ids))
    else
      match ReadOne(ids, want, read)
      case Failed => None
      case Nothing => Some(Walk(pages, ids))
      case More(raw, more) => WalkFrom(pages[KeyFor(ids, want) := raw], more, want, read)
  }

  lemma {:induction false} BeforeFirst(ids: seq<Id>, boundary: Id, n: nat)
    requires n <= |ids| && (n < |ids| ==> ids[n] == boundary) && forall k :: 0 <= k < n ==> ids[k] != boundary
    ensures Before(ids, boundary) == ids[..n]
    decreases n
  {
    if n > 0 {
      BeforeFirst(ids[1..], boundary, n - 1);
      assert ids[..n] == [ids[0]] + ids[1..][..n - 1];
    }
  }

  method CutAt(ids: seq<Id>, boundary: Id) returns (prefix: seq<Id>)
    ensures prefix == Before(ids, boundary)
  {
    prefix := ids;
    for index := 0 to |ids|
      invariant prefix == ids
      invariant forall k :: 0 <= k < index ==> ids[k] != boundary
    {
      if ids[index] == boundary {
        prefix := ids[..index];
        BeforeFirst(ids, boundary, index);
        return;
      }
    }
    BeforeFirst(ids, boundary, |ids|);
  }

  method TakeTurn(ids: seq<Id>, want: nat, read: PageReader) returns (turn: Turn)
    requires ids != [] && |ids| < want
    ensures turn == ReadOne(ids, want, read)
  {
    var page := read(PageKey(ids[0], want - |ids|));
    if page.None? || page.value.ids.None? {
      return Failed;
    }
    var prefix := CutAt(page.value.ids.value, ids[0]);
    if |prefix| == 0 || Overlaps(prefix, ids) {
      return Nothing;
    }
    turn := More(page.value.raw, Newest(prefix, want - |ids|) + ids);
  }

  method WarmSlice(first: Option<seq<Id>>, ledgerCount: nat, read: PageReader) returns (kept: Option<map<PageKey, Raw>>)
    ensures var want := if ledgerCount < FIRST_SCREEN_WARM_LIMIT then ledgerCount else FIRST_SCREEN_WARM_LIMIT;
            kept == if first.None? || |first.value| >= want then None
                    else match WalkFrom(map[], first.value, want, read)
                         case None => None
                         case Some(walk) => Some(walk.pages)
  {
    var want := if ledgerCount < FIRST_SCREEN_WARM_LIMIT then ledgerCount else FIRST_SCREEN_WARM_LIMIT;
    if first.None? || |first.value| >= want {
      return None;
    }
    var ids := first.value;
    var pages: map<PageKey, Raw> := map[];
    while |ids| < want && |ids| > 0
      invariant WalkFrom(map[], first.value, want, read) == WalkFrom(pages, ids, want, read)
      decreases want - |ids|
    {
      var turn := TakeTurn(ids, want, read);
      if turn.Failed? {
        return None;
      }
      if turn.Nothing? {
        return Some(pages);
      }
      pages := pages[KeyFor(ids, want) := turn.raw];
      ids := turn.ids;
    }
    kept := Some(pages);
  }

  // ----- The two agree -----

  /** Every page held is what its request reads. */
  ghost predicate Honest(pages: map<PageKey, Raw>, read: PageReader) {
    forall key :: key in pages ==> read(key).Some? && pages[key] == read(key).value.raw
  }

  lemma HonestWith(pages: map<PageKey, Raw>, key: PageKey, read: PageReader)
    requires Honest(pages, read) && read(key).Some?
    ensures Honest(pages[key := read(key).value.raw], read)
  {
  }

  /** Every page kept beyond those held is one of the requests; each request but
      the last is kept, and the last too when the slice is whole. */
  ghost predicate Agree(pages: map<PageKey, Raw>, walk: Walk, requests: seq<PageKey>, want: nat) {
    && (forall key :: key in pages ==> key in walk.pages)
    && (forall key :: key in walk.pages ==> key in pages || key in requests)
    && (forall i :: 0 <= i < |requests| - 1 ==> requests[i] in walk.pages)
    && (|walk.ids| >= want ==> forall key :: key in requests ==> key in walk.pages)
  }

  lemma AgreeOneEarlier(pages: map<PageKey, Raw>, key: PageKey, raw: Raw, walk: Walk, rest: seq<PageKey>, want: nat)
    requires forall k :: k in pages[key := raw] ==> k in walk.pages
    ensures Agree(pages[key := raw], walk, rest, want) <==> Agree(pages, walk, [key] + rest, want)
  {
    var requests := [key] + rest;
    assert key in pages[key := raw] && requests[1..] == rest;
    if Agree(pages[key := raw], walk, rest, want) {
      forall i | 0 <= i < |requests| - 1 ensures requests[i] in walk.pages {
        assert i > 0 ==> requests[i] == rest[i - 1];
      }
    }
    if Agree(pages, walk, requests, want) {
      forall i | 0 <= i < |rest| - 1 ensures rest[i] in walk.pages {
        assert rest[i] == requests[i + 1];
      }
    }
  }

  /** The pages read beyond these, each for rows that are named. */
  ghost predicate NamedBeyond(pages: map<PageKey, Raw>, walk: Walk) {
    forall key :: key in walk.pages && key !in pages ==> key.before != ""
  }

  /** A walk keeps what it has. */
  lemma {:induction false} WalkGrows(pages: map<PageKey, Raw>, ids: seq<Id>, want: nat, read: PageReader)
    requires WalkFrom(pages, ids, want, read).Some?
    ensures forall key :: key in pages ==> key in WalkFrom(pages, ids, want, read).value.pages
    decreases want - |ids|
  {
    if |ids| < want && ids != [] && ReadOne(ids, want, read).More? {
      var turn := ReadOne(ids, want, read);
      WalkGrows(pages[KeyFor(ids, want) := turn.raw], turn.ids, want, read);
    }
  }

  /** Whatever a read answers: every page kept is the answer to its request; and
      the pages kept are the renderer's requests, of which it makes at most one
      more, its last, and none once the slice is whole, if and only if none was
      read before a row without an id, where the renderer stops. */
  lemma {:induction false} PagesAreTheRenderersRequests(pages: map<PageKey, Raw>, ids: seq<Id>, want: nat,
                                                        read: PageReader)
    requires Honest(pages, read) && forall key :: key in pages ==> key.limit > want - |ids|
    requires WalkFrom(pages, ids, want, read).Some?
    ensures Honest(WalkFrom(pages, ids, want, read).value.pages, read)
    ensures Agree(pages, WalkFrom(pages, ids, want, read).value, Requests(ids, want, read), want) <==>
              NamedBeyond(pages, WalkFrom(pages, ids, want, read).value)
    decreases want - |ids|
  {
    if |ids| < want && ids != [] {
      var key, turn, walk := KeyFor(ids, want), ReadOne(ids, want, read), WalkFrom(pages, ids, want, read).value;
      RendererReadsAlike(ids, want, read);
      if turn.More? {
        HonestWith(pages, key, read);
        PagesAreTheRenderersRequests(pages[key := turn.raw], turn.ids, want, read);
        WalkGrows(pages[key := turn.raw], turn.ids, want, read);
        assert key in pages[key := turn.raw] && key !in pages;
        AgreeOneEarlier(pages, key, turn.raw, walk, Requests(turn.ids, want, read), want);
      }
    }
  }

  /** Such a row: whatever is before it is read and kept, and never asked for. */
  lemma UnnamedRowIsReadInVain(raw: Raw, older: Id, newer: seq<Id>, want: nat)
    requires older != "" && "" !in newer && older !in newer && |newer| + 2 == want
    ensures var key, ids := PageKey("", 1), [""] + newer;
            var read := (k: PageKey) => Some(Reply(raw, Some([older])));
            && WalkFrom(map[], ids, want, read) == Some(Walk(map[key := raw], [older] + ids))
            && Requests(ids, want, read) == []
  {
    var key, ids := PageKey("", 1), [""] + newer;
    var read := (k: PageKey) => Some(Reply(raw, Some([older])));
    assert Before([older], "") == [older];
    assert older !in ids;
    assert KeyFor(ids, want) == key && ReadOne(ids, want, read) == More(raw, [older] + ids);
  }

  /** A page that brings nothing new ends the walk with what was read, and a read
      that fails leaves nothing of it. */
  lemma HowAWalkEnds(pages: map<PageKey, Raw>, ids: seq<Id>, want: nat, read: PageReader)
    requires 0 < |ids| < want
    ensures var reply := read(PageKey(ids[0], want - |ids|));
            && (reply.None? || reply.value.ids.None? ==> WalkFrom(pages, ids, want, read) == None)
            && (reply.Some? && reply.value.ids.Some?
                && (reply.value.ids.value == [] || reply.value.ids.value[0] == ids[0]
                    || exists id :: id in Before(reply.value.ids.value, ids[0]) && id in ids) ==>
                  WalkFrom(pages, ids, want, read) == Some(Walk(pages, ids)))
  {
  }

  // ----- What it has read -----

  ghost predicate Distinct(ids: seq<Id>) {
    forall i, j :: 0 <= i < j < |ids| ==> ids[i] != ids[j]
  }

  /** A page-before read returns rows directly before its boundary. */
  ghost predicate Contiguous(ledger: seq<Id>, read: PageReader) {
    forall j, limit :: 0 <= j < |ledger| ==> Adjacent(ledger, j, read(PageKey(ledger[j], limit)))
  }

  ghost predicate Adjacent(ledger: seq<Id>, j: nat, reply: Option<Reply>)
    requires j < |ledger|
  {
    reply.Some? && reply.value.ids.Some? ==>
      exists a :: 0 <= a <= j && Before(reply.value.ids.value, ledger[j]) == ledger[a..j]
  }

  lemma OlderRows(ledger: seq<Id>, a: nat, k: nat, limit: nat) returns (b: nat)
    requires Distinct(ledger) && a < k < |ledger| && limit > 0
    ensures !Overlaps(ledger[a..k], ledger[k..])
    ensures b < k && k - b <= limit && Newest(ledger[a..k], limit) + ledger[k..] == ledger[b..]
  {
    forall id | id in ledger[a..k] ensures id !in ledger[k..] {
      var i :| a <= i < k && ledger[i] == id;
      forall j | k <= j < |ledger| ensures ledger[j] != id {
        assert ledger[i] != ledger[j];
      }
    }
    b := if k - a <= limit then a else k - limit;
    assert Newest(ledger[a..k], limit) == ledger[b..k];
    assert ledger[b..k] + ledger[k..] == ledger[b..];
  }

  /** What one read does to a suffix of the ledger. */
  lemma SuffixTurn(ledger: seq<Id>, k: nat, want: nat, read: PageReader) returns (b: nat)
    requires Distinct(ledger) && Contiguous(ledger, read) && k < |ledger| && |ledger| - k < want
    ensures var ids := ledger[k..]; var turn := ReadOne(ids, want, read);
            match turn
            case Failed => true
            case Nothing =>
              var reply := read(KeyFor(ids, want));
              reply.Some? && reply.value.ids.Some? && Before(reply.value.ids.value, ledger[k]) == []
            case More(_, more) => b < k && |ledger| - b <= want && more == ledger[b..]
  {
    b := k;
    var ids := ledger[k..];
    var reply := read(KeyFor(ids, want));
    assert Adjacent(ledger, k, read(PageKey(ledger[k], want - |ids|)));
    if reply.Some? && reply.value.ids.Some? {
      var a :| 0 <= a <= k && Before(reply.value.ids.value, ledger[k]) == ledger[a..k];
      if a < k {
        b := OlderRows(ledger, a, k, want - |ids|);
      }
    }
  }

  /** The rows held are always a suffix of the ledger, none twice, and never
      more than the slice wants; a walk that ends short ended at a read with
      nothing before its oldest row. */
  lemma {:induction false} SliceIsASuffix(ledger: seq<Id>, k: nat, pages: map<PageKey, Raw>, want: nat,
                                          read: PageReader)
    returns (k': nat)
    requires Distinct(ledger) && Contiguous(ledger, read) && k < |ledger| && |ledger| - k <= want
    requires WalkFrom(pages, ledger[k..], want, read).Some?
    ensures var walk := WalkFrom(pages, ledger[k..], want, read).value;
            && k' <= k && walk.ids == ledger[k'..] && Distinct(walk.ids) && |walk.ids| <= want
            && (|walk.ids| < want ==>
                  var reply := read(KeyFor(walk.ids, want));
                  reply.Some? && reply.value.ids.Some? && Before(reply.value.ids.value, ledger[k']) == [])
    decreases want - (|ledger| - k)
  {
    k' := k;
    if |ledger| - k < want {
      var b := SuffixTurn(ledger, k, want, read);
      var turn := ReadOne(ledger[k..], want, read);
      if turn.More? {
        k' := SliceIsASuffix(ledger, b, pages[KeyFor(ledger[k..], want) := turn.raw], want, read);
      }
    }
  }
}
