/** The replies kept for closed chats: first screens, and the pages completing
    the first slice of the most recently active ones. */
module ChatCache {
  import opened Basics

  type ChatId = nat
  type Raw = Bytes

  datatype ReadOptions = ReadOptions(deferImages: bool, leanTools: bool, leanTitles: bool, toolSummaries: bool)

  /** A read of one chat's history. */
  datatype Read =
    | FirstScreen(limit: int, opts: ReadOptions)
    | PageBefore(before: string, limit: int, opts: ReadOptions)

  const FIRST_SCREEN_ENTRY_BYTES: nat := 4 * 1024 * 1024
  const FIRST_SCREEN_CACHE_BYTES: nat := 32 * 1024 * 1024
  const SLICE_PAGE_CACHE_BYTES: nat := 32 * 1024 * 1024

  datatype Screen = Screen(revision: nat, limit: int, opts: ReadOptions, raw: Raw)

  datatype PageKey = PageKey(before: string, limit: int)

  datatype Slice = Slice(revision: nat, opts: ReadOptions, activity: int, pages: map<PageKey, Raw>, bytes: nat)

  /** A closed chat as the runtime lists it. */
  datatype Summary = Summary(revision: nat, activity: int)

  datatype Cache = Cache(screens: map<ChatId, Screen>, bytes: int, slices: map<ChatId, Slice>, sliceBytes: int)

  const EMPTY := Cache(map[], 0, map[], 0)

  // ----- Sums over a map -----

  ghost function Sum<K, V>(m: map<K, V>, size: V -> nat): nat
    decreases |m|
  {
    if m == map[] then 0
    else
      var k :| k in m;
      assert |m - {k}| == |m| - 1 by { Removed(m, k); }
      size(m[k]) + Sum(m - {k}, size)
  }

  lemma Removed<K, V>(m: map<K, V>, k: K)
    requires k in m
    ensures |m - {k}| == |m| - 1
  {
    assert (m - {k}).Keys == m.Keys - {k};
    assert |(m - {k}).Keys| == |m.Keys| - 1;
  }

  lemma {:induction false} SumWithout<K, V>(m: map<K, V>, size: V -> nat, k: K)
    requires k in m
    ensures Sum(m, size) == size(m[k]) + Sum(m - {k}, size)
    decreases |m|
  {
    var j :| j in m && Sum(m, size) == size(m[j]) + Sum(m - {j}, size);
    if j != k {
      Removed(m, j);
      Removed(m, k);
      SumWithout(m - {j}, size, k);
      SumWithout(m - {k}, size, j);
      assert m - {j} - {k} == m - {k} - {j};
    }
  }

  lemma SumWith<K, V>(m: map<K, V>, size: V -> nat, k: K, v: V)
    ensures Sum(m[k := v], size) == Sum(m, size) - (if k in m then size(m[k]) else 0) + size(v)
  {
    SumWithout(m[k := v], size, k);
    if k in m {
      SumWithout(m, size, k);
      assert m[k := v] - {k} == m - {k};
    } else {
      assert m[k := v] - {k} == m;
    }
  }

  ghost function ScreenBytes(screens: map<ChatId, Screen>): nat {
    Sum(screens, (s: Screen) => |s.raw|)
  }

  ghost function SliceBytes(slices: map<ChatId, Slice>): nat {
    Sum(slices, (s: Slice) => s.bytes)
  }

  ghost function PageBytes(pages: map<PageKey, Raw>): nat {
    Sum(pages, (raw: Raw) => |raw|)
  }

  /** Both counters are the sum of what is held, and neither passes its cap. */
  ghost predicate Budgeted(c: Cache) {
    && c.bytes == ScreenBytes(c.screens) <= FIRST_SCREEN_CACHE_BYTES
    && c.sliceBytes == SliceBytes(c.slices) <= SLICE_PAGE_CACHE_BYTES
    && (forall chat :: chat in c.screens ==> |c.screens[chat].raw| <= FIRST_SCREEN_ENTRY_BYTES)
    && (forall chat :: chat in c.slices ==> c.slices[chat].bytes == PageBytes(c.slices[chat].pages) > 0)
  }

  // ----- First screens -----

  predicate CurrentSummary(closed: map<ChatId, Summary>, chat: ChatId, revision: nat) {
    chat in closed && closed[chat].revision == revision
  }

  function CachedScreen(c: Cache, closed: map<ChatId, Summary>, chat: ChatId, revision: nat, limit: int,
                        opts: ReadOptions): Option<Raw> {
    if chat !in c.screens || !CurrentSummary(closed, chat, revision) then None
    else
      var e := c.screens[chat];
      if e.revision != revision || e.limit != limit || e.opts != opts then None else Some(e.raw)
  }

  function StoredScreen(c: Cache, closed: map<ChatId, Summary>, stopped: bool, chat: ChatId, screen: Screen): Cache {
    var previous := if chat in c.screens then |c.screens[chat].raw| else 0;
    if |screen.raw| > FIRST_SCREEN_ENTRY_BYTES || stopped || !CurrentSummary(closed, chat, screen.revision)
       || c.bytes - previous + |screen.raw| > FIRST_SCREEN_CACHE_BYTES then c
    else c.(screens := c.screens[chat := screen], bytes := c.bytes + |screen.raw| - previous)
  }

  function DroppedSlice(c: Cache, chat: ChatId): Cache {
    if chat in c.slices then c.(slices := c.slices - {chat}, sliceBytes := c.sliceBytes - c.slices[chat].bytes) else c
  }

  function Dropped(c: Cache, chat: ChatId): Cache {
    var screens :=
      if chat in c.screens then c.(screens := c.screens - {chat}, bytes := c.bytes - |c.screens[chat].raw|) else c;
    DroppedSlice(screens, chat)
  }

  lemma StoredScreenBudgeted(c: Cache, closed: map<ChatId, Summary>, stopped: bool, chat: ChatId, screen: Screen)
    requires Budgeted(c)
    ensures Budgeted(StoredScreen(c, closed, stopped, chat, screen))
  {
    SumWith(c.screens, (s: Screen) => |s.raw|, chat, screen);
  }

  lemma DroppedSliceBudgeted(c: Cache, chat: ChatId)
    requires Budgeted(c)
    ensures Budgeted(DroppedSlice(c, chat))
  {
    if chat in c.slices {
      SumWithout(c.slices, (s: Slice) => s.bytes, chat);
    }
  }

  lemma DroppedBudgeted(c: Cache, chat: ChatId)
    requires Budgeted(c)
    ensures Budgeted(Dropped(c, chat))
  {
    if chat in c.screens {
      SumWithout(c.screens, (s: Screen) => |s.raw|, chat);
      DroppedSliceBudgeted(c.(screens := c.screens - {chat}, bytes := c.bytes - |c.screens[chat].raw|), chat);
    } else {
      DroppedSliceBudgeted(c, chat);
    }
  }

  /** A first screen is stored exactly when its chat is closed at that revision,
      it is no larger than four mebibytes, and it fits beside the other chats' in
      thirty-two; it then answers the same request, and nothing else changes. */
  lemma StoredIff(c: Cache, closed: map<ChatId, Summary>, stopped: bool, chat: ChatId, screen: Screen)
    requires Budgeted(c)
    ensures var after := StoredScreen(c, closed, stopped, chat, screen);
            && after.slices == c.slices && after.screens - {chat} == c.screens - {chat}
            && if !stopped && chat in closed && closed[chat].revision == screen.revision && |screen.raw| <= 4194304
                  && ScreenBytes(c.screens - {chat}) + |screen.raw| <= 33554432
               then chat in after.screens && after.screens[chat] == screen
                    && CachedScreen(after, closed, chat, screen.revision, screen.limit, screen.opts) == Some(screen.raw)
               else after == c
  {
    if chat in c.screens {
      SumWithout(c.screens, (s: Screen) => |s.raw|, chat);
    } else {
      assert c.screens - {chat} == c.screens;
    }
  }

  /** What is kept answers exactly the request it was read for, while its chat is
      closed at that revision. */
  lemma CachedScreenIff(c: Cache, closed: map<ChatId, Summary>, chat: ChatId, revision: nat, limit: int,
                        opts: ReadOptions, raw: Raw)
    ensures CachedScreen(c, closed, chat, revision, limit, opts) == Some(raw) <==>
              chat in c.screens && c.screens[chat] == Screen(revision, limit, opts, raw)
              && chat in closed && closed[chat].revision == revision
  {
  }

  /** A chat that opens is gone from both, and no other chat is. */
  lemma DroppedIsGone(c: Cache, chat: ChatId)
    ensures chat !in Dropped(c, chat).screens && chat !in Dropped(c, chat).slices
    ensures Dropped(c, chat).screens == c.screens - {chat} && Dropped(c, chat).slices == c.slices - {chat}
  {
  }

  // ----- First slices -----

  function CachedPage(c: Cache, closed: map<ChatId, Summary>, chat: ChatId, key: PageKey,
                      opts: ReadOptions): Option<Raw> {
    if chat !in c.slices || !CurrentSummary(closed, chat, c.slices[chat].revision) || c.slices[chat].opts != opts
       || key !in c.slices[chat].pages then None
    else Some(c.slices[chat].pages[key])
  }

  /** A page answers exactly the request it was read for, under the options of its
      slice, while its chat is closed at the slice's revision. */
  lemma CachedPageIff(c: Cache, closed: map<ChatId, Summary>, chat: ChatId, key: PageKey, opts: ReadOptions, raw: Raw)
    ensures CachedPage(c, closed, chat, key, opts) == Some(raw) <==>
              && chat in c.slices && c.slices[chat].opts == opts
              && key in c.slices[chat].pages && c.slices[chat].pages[key] == raw
              && chat in closed && closed[chat].revision == c.slices[chat].revision
  {
  }

  /** The other chats' slices a chat of this activity may not evict. */
  function Firm(slices: map<ChatId, Slice>, chat: ChatId, activity: int): map<ChatId, Slice> {
    map other | other in slices && other != chat && slices[other].activity >= activity :: slices[other]
  }

  predicate Outlasted(gone: Slice, after: map<ChatId, Slice>, activity: int) {
    && gone.activity < activity
    && forall kept :: kept in after ==> gone.activity <= after[kept].activity
  }

  /** Only less recent slices went, and none that stayed is less recent than
      one that went. */
  predicate LeastRecentFirst(before: map<ChatId, Slice>, after: map<ChatId, Slice>, activity: int) {
    && (forall chat :: chat in after ==> chat in before && after[chat] == before[chat])
    && (forall gone :: gone in before && gone !in after ==> Outlasted(before[gone], after, activity))
  }

  /** Without the last chat to go the new slice would not have fitted. */
  ghost predicate NoneToSpare(before: map<ChatId, Slice>, after: map<ChatId, Slice>, size: nat) {
    after == before
    || exists last :: last in before && last !in after
                   && SliceBytes(after) + before[last].bytes + size > SLICE_PAGE_CACHE_BYTES
  }

  /** What storing a slice does. Among chats of one activity the map's order
      decides who goes, so this is a relation. */
  ghost predicate StoresSlice(c: Cache, closed: map<ChatId, Summary>, stopped: bool, chat: ChatId, slice: Slice,
                              c': Cache, kept: bool) {
    var own := c.slices - {chat};
    if slice.bytes == 0 || slice.bytes > SLICE_PAGE_CACHE_BYTES || stopped
        || !CurrentSummary(closed, chat, slice.revision)
    then c' == c && !kept
    else
      && c'.screens == c.screens && c'.bytes == c.bytes
      && (kept <==> chat in c'.slices)
      && (kept ==> c'.slices[chat] == slice)
      && var others := c'.slices - {chat};
         && LeastRecentFirst(own, others, slice.activity)
         && NoneToSpare(own, others, slice.bytes)
         && (if kept then SliceBytes(others) + slice.bytes <= SLICE_PAGE_CACHE_BYTES
             else others == Firm(c.slices, chat, slice.activity)
                  && SliceBytes(others) + slice.bytes > SLICE_PAGE_CACHE_BYTES)
         && c'.sliceBytes == SliceBytes(c'.slices)
  }

  lemma {:induction false} SumSubset(small: map<ChatId, Slice>, big: map<ChatId, Slice>)
    requires forall chat :: chat in small ==> chat in big && small[chat] == big[chat]
    ensures SliceBytes(small) <= SliceBytes(big)
    decreases |big|
  {
    if chat :| chat in big {
      SumWithout(big, (s: Slice) => s.bytes, chat);
      Removed(big, chat);
      if chat in small {
        SumWithout(small, (s: Slice) => s.bytes, chat);
        SumSubset(small - {chat}, big - {chat});
      } else {
        SumSubset(small, big - {chat});
      }
    }
  }

  /** Storing a slice keeps the budgets, and every slice but the chat's own is
      one that was held. */
  lemma StoresSliceSound(c: Cache, closed: map<ChatId, Summary>, stopped: bool, chat: ChatId, slice: Slice, c': Cache,
                         kept: bool)
    requires Budgeted(c) && slice.bytes == PageBytes(slice.pages)
    requires StoresSlice(c, closed, stopped, chat, slice, c', kept)
    ensures Budgeted(c') && c'.screens == c.screens
    ensures c' == c || (forall other :: other in c'.slices && other != chat ==>
                          other in c.slices && c'.slices[other] == c.slices[other])
    ensures c' == c || (chat in c'.slices ==> c'.slices[chat] == slice && CurrentSummary(closed, chat, slice.revision))
  {
    if c' != c {
      var own, others := c.slices - {chat}, c'.slices - {chat};
      forall other | other in c'.slices && other != chat
        ensures other in c.slices && c'.slices[other] == c.slices[other]
      {
        assert other in others && other in own;
      }
      if kept {
        SumWithout(c'.slices, (s: Slice) => s.bytes, chat);
      } else {
        assert others == c'.slices;
        SumSubset(c'.slices, c.slices);
      }
    }
  }

  /** Whether a slice is kept does not depend on the order of the map: it is,
      exactly when it fits beside the slices it may not evict. */
  lemma KeptIff(c: Cache, closed: map<ChatId, Summary>, stopped: bool, chat: ChatId, slice: Slice, c': Cache,
                kept: bool)
    requires StoresSlice(c, closed, stopped, chat, slice, c', kept)
    ensures kept <==>
              && 0 < slice.bytes <= SLICE_PAGE_CACHE_BYTES && !stopped && CurrentSummary(closed, chat, slice.revision)
              && SliceBytes(Firm(c.slices, chat, slice.activity)) + slice.bytes <= SLICE_PAGE_CACHE_BYTES
  {
    if kept {
      var firm := Firm(c.slices, chat, slice.activity);
      var own, others := c.slices - {chat}, c'.slices - {chat};
      forall other | other in firm ensures other in others && others[other] == firm[other] {
        assert other in own;
      }
      SumSubset(firm, others);
    }
  }

  /** Room made for a slice beside its own chat's, and the slice put in it. */
  lemma RoomThenStore(c: Cache, closed: map<ChatId, Summary>, chat: ChatId, slice: Slice, others: map<ChatId, Slice>)
    requires Budgeted(c) && slice.bytes == PageBytes(slice.pages)
    requires 0 < slice.bytes <= SLICE_PAGE_CACHE_BYTES && CurrentSummary(closed, chat, slice.revision)
              && chat !in others
    requires LeastRecentFirst(c.slices - {chat}, others, slice.activity)
    requires NoneToSpare(c.slices - {chat}, others, slice.bytes)
    requires SliceBytes(others) + slice.bytes <= SLICE_PAGE_CACHE_BYTES
    ensures var c' := Cache(c.screens, c.bytes, others[chat := slice], SliceBytes(others) + slice.bytes);
            StoresSlice(c, closed, false, chat, slice, c', true) && Budgeted(c')
  {
    SumWith(others, (s: Slice) => s.bytes, chat, slice);
    assert others[chat := slice] - {chat} == others;
    forall other | other in others ensures others[other].bytes == PageBytes(others[other].pages) > 0 {
      assert other in c.slices - {chat};
    }
  }

  lemma NoRoom(c: Cache, closed: map<ChatId, Summary>, chat: ChatId, slice: Slice, others: map<ChatId, Slice>)
    requires Budgeted(c)
    requires 0 < slice.bytes <= SLICE_PAGE_CACHE_BYTES && CurrentSummary(closed, chat, slice.revision)
              && chat !in others
    requires LeastRecentFirst(c.slices - {chat}, others, slice.activity)
    requires NoneToSpare(c.slices - {chat}, others, slice.bytes)
    requires SliceBytes(others) + slice.bytes > SLICE_PAGE_CACHE_BYTES
    requires forall other :: other in others ==> others[other].activity >= slice.activity
    ensures StoresSlice(c, closed, false, chat, slice, Cache(c.screens, c.bytes, others, SliceBytes(others)), false)
  {
    assert others - {chat} == others;
    var firm := Firm(c.slices, chat, slice.activity);
    forall other | other in others ensures other in firm && firm[other] == others[other] {
      assert other in c.slices - {chat};
    }
    forall other | other in firm ensures other in others {
      assert other in c.slices - {chat};
    }
    assert others == firm;
  }

  /** Evicting the least recent slice, for a size that does not fit with it. */
  lemma EvictsOne(before: map<ChatId, Slice>, now: map<ChatId, Slice>, oldest: ChatId, activity: int, size: nat)
    requires LeastRecentFirst(before, now, activity)
    requires oldest in now && now[oldest].activity < activity
    requires forall chat :: chat in now ==> now[oldest].activity <= now[chat].activity
    requires SliceBytes(now) + size > SLICE_PAGE_CACHE_BYTES
    ensures LeastRecentFirst(before, now - {oldest}, activity) && NoneToSpare(before, now - {oldest}, size)
    ensures |now - {oldest}| < |now|
  {
    Removed(now, oldest);
    SumWithout(now, (s: Slice) => s.bytes, oldest);
    assert SliceBytes(now - {oldest}) + before[oldest].bytes + size > SLICE_PAGE_CACHE_BYTES;
  }

  method CountBytes(pages: map<PageKey, Raw>) returns (size: nat)
    ensures size == PageBytes(pages)
  {
    size := 0;
    var left := pages;
    while left != map[]
      invariant size + PageBytes(left) == PageBytes(pages)
      decreases |left|
    {
      var key :| key in left;
      SumWithout(left, (raw: Raw) => |raw|, key);
      Removed(left, key);
      size := size + |left[key]|;
      left := left - {key};
    }
  }

  // ----- The cache as the runtime holds it -----

  class FirstScreenCache {
    var screens: map<ChatId, Screen>
    var bytes: int
    var slices: map<ChatId, Slice>
    var sliceBytes: int

    function Contents(): Cache
      reads this
    {
      Cache(screens, bytes, slices, sliceBytes)
    }

    constructor ()
      ensures Contents() == EMPTY && Budgeted(Contents())
    {
      screens, bytes, slices, sliceBytes := map[], 0, map[], 0;
    }

    method StoreFirstScreen(closed: map<ChatId, Summary>, stopped: bool, chat: ChatId, screen: Screen)
      requires Budgeted(Contents())
      modifies this
      ensures Contents() == StoredScreen(old(Contents()), closed, stopped, chat, screen)
      ensures Budgeted(Contents())
    {
      StoredScreenBudgeted(Contents(), closed, stopped, chat, screen);
      if |screen.raw| > FIRST_SCREEN_ENTRY_BYTES {
        return;
      }
      if stopped || !CurrentSummary(closed, chat, screen.revision) {
        return;
      }
      var previous := if chat in screens then |screens[chat].raw| else 0;
      if bytes - previous + |screen.raw| > FIRST_SCREEN_CACHE_BYTES {
        return;
      }
      screens := screens[chat := screen];
      bytes := bytes + |screen.raw| - previous;
    }

    method DropSlice(chat: ChatId)
      requires Budgeted(Contents())
      modifies `slices, `sliceBytes
      ensures Contents() == DroppedSlice(old(Contents()), chat) && Budgeted(Contents())
    {
      DroppedSliceBudgeted(Contents(), chat);
      if chat in slices {
        sliceBytes := sliceBytes - slices[chat].bytes;
        slices := slices - {chat};
      }
    }

    method DropFirstScreen(chat: ChatId)
      requires Budgeted(Contents())
      modifies this
      ensures Contents() == Dropped(old(Contents()), chat) && Budgeted(Contents())
    {
      DroppedBudgeted(Contents(), chat);
      if chat in screens {
        SumWithout(screens, (s: Screen) => |s.raw|, chat);
        bytes := bytes - |screens[chat].raw|;
        screens := screens - {chat};
      }
      DropSlice(chat);
    }

    /** The least recently active slice below this activity, if there is one. */
    method Oldest(activity: int) returns (oldest: Option<ChatId>)
      ensures oldest.None? ==> forall chat :: chat in slices ==> slices[chat].activity >= activity
      ensures oldest.Some? ==> oldest.value in slices && slices[oldest.value].activity < activity
      ensures oldest.Some? ==> forall chat :: chat in slices ==> slices[oldest.value].activity <= slices[chat].activity
    {
      oldest := None;
      var left := slices.Keys;
      while left != {}
        invariant left <= slices.Keys
        invariant oldest.None? ==> forall chat :: chat in slices && chat !in left ==> slices[chat].activity >= activity
        invariant oldest.Some? ==> oldest.value in slices && slices[oldest.value].activity < activity
        invariant oldest.Some? ==>
                    forall chat :: chat in slices && chat !in left ==>
                        slices[oldest.value].activity <= slices[chat].activity
        decreases |left|
      {
        var chat :| chat in left;
        left := left - {chat};
        if slices[chat].activity < activity
           && (oldest.None? || slices[chat].activity < slices[oldest.value].activity) {
          oldest := Some(chat);
        }
      }
    }

    /** Evicts until `size` more bytes fit, or nothing less recent is left; what
        has gone by then stays gone. */
    method MakeRoom(activity: int, size: nat) returns (fits: bool)
      requires Budgeted(Contents())
      modifies `slices, `sliceBytes
      ensures Budgeted(Contents())
      ensures LeastRecentFirst(old(slices), slices, activity) && NoneToSpare(old(slices), slices, size)
      ensures fits <==> sliceBytes + size <= SLICE_PAGE_CACHE_BYTES
      ensures !fits ==> forall chat :: chat in slices ==> slices[chat].activity >= activity
    {
      while sliceBytes + size > SLICE_PAGE_CACHE_BYTES
        invariant Budgeted(Contents())
        invariant LeastRecentFirst(old(slices), slices, activity) && NoneToSpare(old(slices), slices, size)
        decreases |slices|
      {
        var oldest := Oldest(activity);
        if oldest.None? {
          return false;
        }
        EvictsOne(old(slices), slices, oldest.value, activity, size);
        DropSlice(oldest.value);
      }
      fits := true;
    }

    method StoreSlice(closed: map<ChatId, Summary>, stopped: bool, chat: ChatId, revision: nat, opts: ReadOptions,
                      activity: int, pages: map<PageKey, Raw>)
      returns (kept: bool)
      requires Budgeted(Contents())
      modifies this
      ensures StoresSlice(old(Contents()), closed, stopped, chat,
                          Slice(revision, opts, activity, pages, PageBytes(pages)), Contents(), kept)
      ensures Budgeted(Contents())
    {
      var size := CountBytes(pages);
      var slice := Slice(revision, opts, activity, pages, size);
      if slice.bytes == 0 || slice.bytes > SLICE_PAGE_CACHE_BYTES {
        return false;
      }
      if stopped || !CurrentSummary(closed, chat, slice.revision) {
        return false;
      }
      DropSlice(chat);
      assert slices == old(slices) - {chat};
      kept := MakeRoom(slice.activity, slice.bytes);
      if !kept {
        NoRoom(old(Contents()), closed, chat, slice, slices);
        return;
      }
      RoomThenStore(old(Contents()), closed, chat, slice, slices);
      slices := slices[chat := slice];
      sliceBytes := sliceBytes + slice.bytes;
    }
  }
}
