/** Chats opening, changing and closing while their histories are read and
    kept: a kept reply is the read it stands for. */
module ChatCacheRuns {
  import opened Basics
  import opened ChatCache

  type Tid = nat

  datatype Chat = Chat(revision: nat, activity: int, closed: bool)

  /** A page in a background read's hands, with the revision it was read at,
      which the code does not keep. */
  datatype Fetched = Fetched(at: nat, raw: Raw)

  /** A reply under way. It holds the summary it began with; the chat may open,
      change and close before it is stored. */
  datatype Call =
    | Begun(chat: ChatId, revision: nat, limit: int, opts: ReadOptions)
    | Missed(chat: ChatId, revision: nat, limit: int, opts: ReadOptions)
    | Held(chat: ChatId, revision: nat, limit: int, opts: ReadOptions, first: Fetched)
    | Warming(chat: ChatId, revision: nat, activity: int, opts: ReadOptions, pages: map<PageKey, Fetched>)

  /** A reply served from the cache, and what reading the chat at that moment
      would have returned. */
  datatype Served = Served(raw: Raw, direct: Raw)

  datatype State = State(chats: map<ChatId, Chat>, stopped: bool, cache: Cache, calls: map<Tid, Call>,
      served: seq<Served>)

  const START := State(map[], false, EMPTY, map[], [])

  /** What a read returns is settled by the chat, its revision and the request. */
  type Reader = (ChatId, nat, Read) -> Raw

  datatype Action =
    | Create(chat: ChatId)
    | Open(chat: ChatId)
    | Change(chat: ChatId, activity: int)
    | Close(chat: ChatId)
    | Stop
    | Begin(t: Tid, chat: ChatId, limit: int, opts: ReadOptions)
    | Lookup(t: Tid)
    | ReadFirst(t: Tid)
    | StoreFirst(t: Tid)
    | ServePage(chat: ChatId, key: PageKey, opts: ReadOptions)
    | Warm(t: Tid, chat: ChatId, opts: ReadOptions)
    | ReadPage(t: Tid, key: PageKey)
    | StorePages(t: Tid, after: Cache, kept: bool)

  function Closed(s: State): map<ChatId, Summary> {
    map chat | chat in s.chats && s.chats[chat].closed :: Summary(s.chats[chat].revision, s.chats[chat].activity)
  }

  function Pages(pages: map<PageKey, Fetched>): map<PageKey, Raw> {
    map key | key in pages :: pages[key].raw
  }

  ghost function SliceOf(call: Call): Slice
    requires call.Warming?
  {
    Slice(call.revision, call.opts, call.activity, Pages(call.pages), PageBytes(Pages(call.pages)))
  }

  ghost predicate Enabled(s: State, a: Action) {
    match a
    case Create(chat) => chat !in s.chats
    case Open(chat) => chat in s.chats && s.chats[chat].closed
    case Change(chat, _) => chat in s.chats && !s.chats[chat].closed
    case Close(chat) => chat in s.chats && !s.chats[chat].closed
    case Stop => true
    case Begin(t, chat, _, _) => t !in s.calls && chat in Closed(s)
    case Lookup(t) => t in s.calls && s.calls[t].Begun?
    case ReadFirst(t) => t in s.calls && s.calls[t].Missed? && s.calls[t].chat in s.chats
    case StoreFirst(t) => t in s.calls && s.calls[t].Held?
    case ServePage(chat, _, _) => chat in s.chats
    case Warm(t, chat, _) => t !in s.calls && chat in Closed(s)
    case ReadPage(t, _) => t in s.calls && s.calls[t].Warming? && s.calls[t].chat in s.chats
    case StorePages(t, after, kept) =>
      t in s.calls && s.calls[t].Warming?
      && StoresSlice(s.cache, Closed(s), s.stopped, s.calls[t].chat, SliceOf(s.calls[t]), after, kept)
  }

  ghost function ServeFirst(s: State, t: Tid, read: Reader): State
    requires t in s.calls && s.calls[t].Begun?
  {
    var call := s.calls[t];
    match CachedScreen(s.cache, Closed(s), call.chat, call.revision, call.limit, call.opts)
    case None => s.(calls := s.calls[t := Missed(call.chat, call.revision, call.limit, call.opts)])
    case Some(raw) =>
      var direct := read(call.chat, s.chats[call.chat].revision, FirstScreen(call.limit, call.opts));
      s.(calls := s.calls - {t}, served := s.served + [Served(raw, direct)])
  }

  ghost function ServeNext(s: State, chat: ChatId, key: PageKey, opts: ReadOptions, read: Reader): State
    requires chat in s.chats
  {
    match CachedPage(s.cache, Closed(s), chat, key, opts)
    case None => s
    case Some(raw) =>
      var direct := read(chat, s.chats[chat].revision, PageBefore(key.before, key.limit, opts));
      s.(served := s.served + [Served(raw, direct)])
  }

  ghost function Step(s: State, a: Action, read: Reader): State {
    if !Enabled(s, a) then s else
    match a
    case Create(chat) => s.(chats := s.chats[chat := Chat(0, 0, false)])
    case Open(chat) => s.(chats := s.chats[chat := s.chats[chat].(closed := false)], cache := Dropped(s.cache, chat))
    case Change(chat, activity) => s.(chats := s.chats[chat := Chat(s.chats[chat].revision + 1, activity, false)])
    case Close(chat) => s.(chats := s.chats[chat := s.chats[chat].(closed := true)])
    case Stop => s.(stopped := true)
    case Begin(t, chat, limit, opts) => s.(calls := s.calls[t := Begun(chat, s.chats[chat].revision, limit, opts)])
    case Lookup(t) => ServeFirst(s, t, read)
    case ReadFirst(t) =>
      var call := s.calls[t];
      var at := s.chats[call.chat].revision;
      var first := Fetched(at, read(call.chat, at, FirstScreen(call.limit, call.opts)));
      s.(calls := s.calls[t := Held(call.chat, call.revision, call.limit, call.opts, first)])
    case StoreFirst(t) =>
      var call := s.calls[t];
      s.(calls := s.calls - {t},
         cache := StoredScreen(s.cache, Closed(s), s.stopped, call.chat,
                               Screen(call.revision, call.limit, call.opts, call.first.raw)))
    case ServePage(chat, key, opts) => ServeNext(s, chat, key, opts, read)
    case Warm(t, chat, opts) =>
      s.(calls := s.calls[t := Warming(chat, s.chats[chat].revision, s.chats[chat].activity, opts, map[])])
    case ReadPage(t, key) =>
      var call := s.calls[t];
      var at := s.chats[call.chat].revision;
      var page := Fetched(at, read(call.chat, at, PageBefore(key.before, key.limit, call.opts)));
      s.(calls := s.calls[t := call.(pages := call.pages[key := page])])
    case StorePages(t, after, _) => s.(calls := s.calls - {t}, cache := after)
  }

  ghost function Run(s: State, actions: seq<Action>, read: Reader): State
    decreases |actions|
  {
    if actions == [] then s else Run(Step(s, actions[0], read), actions[1..], read)
  }

  // ----- The invariant -----

  ghost predicate ScreenTrue(chat: ChatId, e: Screen, read: Reader) {
    e.raw == read(chat, e.revision, FirstScreen(e.limit, e.opts))
  }

  ghost predicate SliceTrue(chat: ChatId, e: Slice, read: Reader) {
    forall key :: key in e.pages ==> e.pages[key] == read(chat, e.revision, PageBefore(key.before, key.limit, e.opts))
  }

  ghost predicate CacheTrue(c: Cache, read: Reader) {
    && (forall chat :: chat in c.screens ==> ScreenTrue(chat, c.screens[chat], read))
    && (forall chat :: chat in c.slices ==> SliceTrue(chat, c.slices[chat], read))
  }

  /** Between a summary and its store a chat's revision only grows, so a read in
      between is at the summary's revision if that is still the chat's. */
  ghost predicate CallTrue(s: State, call: Call, read: Reader) {
    && call.chat in s.chats && call.revision <= s.chats[call.chat].revision
    && (call.Held? ==>
          && call.revision <= call.first.at <= s.chats[call.chat].revision
          && call.first.raw == read(call.chat, call.first.at, FirstScreen(call.limit, call.opts)))
    && (call.Warming? ==> forall key :: key in call.pages ==> PageTrue(s, call, key, read))
  }

  ghost predicate PageTrue(s: State, call: Call, key: PageKey, read: Reader)
    requires call.Warming? && key in call.pages && call.chat in s.chats
  {
    var page := call.pages[key];
    && call.revision <= page.at <= s.chats[call.chat].revision
    && page.raw == read(call.chat, page.at, PageBefore(key.before, key.limit, call.opts))
  }

  ghost predicate Inv(s: State, read: Reader) {
    && CacheTrue(s.cache, read)
    && Budgeted(s.cache)
    && (forall t :: t in s.calls ==> CallTrue(s, s.calls[t], read))
    && (forall i :: 0 <= i < |s.served| ==> s.served[i].raw == s.served[i].direct)
  }

  lemma CallStays(s: State, a: Action, call: Call, read: Reader)
    requires CallTrue(s, call, read)
    ensures CallTrue(Step(s, a, read), call, read)
  {
    var s' := Step(s, a, read);
    assert call.chat in s'.chats && s.chats[call.chat].revision <= s'.chats[call.chat].revision;
    if call.Warming? {
      forall key | key in call.pages ensures PageTrue(s', call, key, read) {
        assert PageTrue(s, call, key, read);
      }
    }
  }

  lemma StepCalls(s: State, a: Action, t: Tid, read: Reader)
    requires Inv(s, read) && t in Step(s, a, read).calls
    ensures CallTrue(Step(s, a, read), Step(s, a, read).calls[t], read)
  {
    var s' := Step(s, a, read);
    if t in s.calls {
      CallStays(s, a, s.calls[t], read);
      if a.ReadPage? && s'.calls[t] != s.calls[t] {
        forall key | key in s'.calls[t].pages ensures PageTrue(s', s'.calls[t], key, read) {
          assert key != a.key ==> PageTrue(s', s.calls[t], key, read);
        }
      }
    }
  }

  /** A cached first screen is the direct read. */
  lemma ServeFirstTrue(s: State, t: Tid, read: Reader)
    requires Inv(s, read) && t in s.calls && s.calls[t].Begun?
    ensures forall served :: served in ServeFirst(s, t, read).served && served !in s.served ==>
              served.raw == served.direct
    ensures ServeFirst(s, t, read).cache == s.cache
  {
    var call := s.calls[t];
    if call.chat in s.cache.screens {
      assert ScreenTrue(call.chat, s.cache.screens[call.chat], read);
    }
  }

  lemma ServeNextTrue(s: State, chat: ChatId, key: PageKey, opts: ReadOptions, read: Reader)
    requires Inv(s, read) && chat in s.chats
    ensures forall served :: served in ServeNext(s, chat, key, opts, read).served && served !in s.served ==>
              served.raw == served.direct
    ensures ServeNext(s, chat, key, opts, read).cache == s.cache
  {
    if chat in s.cache.slices {
      assert SliceTrue(chat, s.cache.slices[chat], read);
    }
  }

  lemma StoreFirstTrue(s: State, t: Tid, read: Reader)
    requires Inv(s, read) && Enabled(s, StoreFirst(t))
    ensures CacheTrue(Step(s, StoreFirst(t), read).cache, read) && Budgeted(Step(s, StoreFirst(t), read).cache)
  {
    var call := s.calls[t];
    assert CallTrue(s, call, read);
    StoredScreenBudgeted(s.cache, Closed(s), s.stopped, call.chat, Screen(call.revision, call.limit, call.opts,
        call.first.raw));
  }

  /** Pages read for a summary that is still the chat's are pages at its
      revision. */
  lemma WarmedTrue(s: State, call: Call, read: Reader)
    requires call.Warming? && CallTrue(s, call, read) && CurrentSummary(Closed(s), call.chat, call.revision)
    ensures SliceTrue(call.chat, SliceOf(call), read)
  {
    forall key | key in call.pages
      ensures call.pages[key].raw == read(call.chat, call.revision, PageBefore(key.before, key.limit, call.opts))
    {
      assert PageTrue(s, call, key, read);
    }
  }

  lemma StorePagesTrue(s: State, t: Tid, after: Cache, kept: bool, read: Reader)
    requires Inv(s, read) && Enabled(s, StorePages(t, after, kept))
    ensures CacheTrue(after, read) && Budgeted(after)
  {
    var call := s.calls[t];
    StoresSliceSound(s.cache, Closed(s), s.stopped, call.chat, SliceOf(call), after, kept);
    assert CallTrue(s, call, read);
    if after != s.cache && call.chat in after.slices {
      WarmedTrue(s, call, read);
    }
  }

  lemma StepInv(s: State, a: Action, read: Reader)
    requires Inv(s, read)
    ensures Inv(Step(s, a, read), read)
  {
    var s' := Step(s, a, read);
    forall t | t in s'.calls ensures CallTrue(s', s'.calls[t], read) {
      StepCalls(s, a, t, read);
    }
    if Enabled(s, a) {
      if a.Lookup? {
        ServeFirstTrue(s, a.t, read);
      } else if a.ServePage? {
        ServeNextTrue(s, a.chat, a.key, a.opts, read);
      } else if a.StoreFirst? {
        StoreFirstTrue(s, a.t, read);
      } else if a.StorePages? {
        StorePagesTrue(s, a.t, a.after, a.kept, read);
      } else if a.Open? {
        DroppedBudgeted(s.cache, a.chat);
      }
    }
  }

  lemma {:induction false} RunInv(s: State, actions: seq<Action>, read: Reader)
    requires Inv(s, read)
    ensures Inv(Run(s, actions, read), read)
    decreases |actions|
  {
    if actions != [] {
      StepInv(s, actions[0], read);
      RunInv(Step(s, actions[0], read), actions[1..], read);
    }
  }

  /** Over every interleaving of opens, changes, closes, read, stores and drops,
      whatever is served from the cache is what reading the chat at its present
      revision returns. */
  lemma ServedIsTheDirectRead(actions: seq<Action>, read: Reader, i: nat)
    requires i < |Run(START, actions, read).served|
    ensures var served := Run(START, actions, read).served[i]; served.raw == served.direct
  {
    RunInv(START, actions, read);
  }

  /** What fits may be kept: the chat is closed, and its first screen is small
      enough and fits beside the others'. */
  ghost predicate MayKeep(s: State, chat: ChatId, raw: Raw) {
    && !s.stopped && chat in s.chats && s.chats[chat].closed
    && |raw| <= 4194304 && ScreenBytes(s.cache.screens - {chat}) + |raw| <= 33554432
  }

  /** A reply that finds nothing kept reads the chat and keeps what it read. */
  lemma ReadIsKept(s: State, t: Tid, chat: ChatId, limit: int, opts: ReadOptions, read: Reader)
    requires Budgeted(s.cache) && t !in s.calls && chat in s.chats
    requires var raw := read(chat, s.chats[chat].revision, FirstScreen(limit, opts));
             MayKeep(s, chat, raw)
             && CachedScreen(s.cache, Closed(s), chat, s.chats[chat].revision, limit, opts) == None
    ensures var raw := read(chat, s.chats[chat].revision, FirstScreen(limit, opts));
            var begun := Step(Step(s, Begin(t, chat, limit, opts), read), Lookup(t), read);
            var stored := Step(Step(begun, ReadFirst(t), read), StoreFirst(t), read);
            && stored.chats == s.chats && stored.served == s.served && stored.calls == s.calls
            && CachedScreen(stored.cache, Closed(stored), chat, s.chats[chat].revision, limit, opts) == Some(raw)
  {
    var revision := s.chats[chat].revision;
    var raw := read(chat, revision, FirstScreen(limit, opts));
    var missed := Step(Step(s, Begin(t, chat, limit, opts), read), Lookup(t), read);
    assert missed == s.(calls := s.calls[t := Missed(chat, revision, limit, opts)]);
    var held := Step(missed, ReadFirst(t), read);
    assert held == s.(calls := s.calls[t := Held(chat, revision, limit, opts, Fetched(revision, raw))]);
    StoredIff(s.cache, Closed(s), false, chat, Screen(revision, limit, opts, raw));
    assert held.calls - {t} == s.calls;
  }

  /** And one that finds it kept is served it. */
  lemma KeptIsServed(s: State, t: Tid, chat: ChatId, limit: int, opts: ReadOptions, read: Reader, raw: Raw)
    requires t !in s.calls && chat in s.chats && s.chats[chat].closed
    requires CachedScreen(s.cache, Closed(s), chat, s.chats[chat].revision, limit, opts) == Some(raw)
    ensures var served := Step(Step(s, Begin(t, chat, limit, opts), read), Lookup(t), read);
            && served.calls == s.calls && served.cache == s.cache
            && served.served == s.served + [Served(raw, read(chat, s.chats[chat].revision, FirstScreen(limit, opts)))]
  {
    var begun := Step(s, Begin(t, chat, limit, opts), read);
    assert begun == s.(calls := s.calls[t := Begun(chat, s.chats[chat].revision, limit, opts)]);
    assert begun.calls - {t} == s.calls;
  }

  /** What a chat goes through: created open, changed only while open and each
      time to its next revision, and closed with what it then holds. */
  lemma ChatMoves(s: State, a: Action, chat: ChatId, read: Reader)
    ensures var t := Step(s, a, read);
            && t.stopped == (s.stopped || a == Stop)
            && (chat !in s.chats ==>
                  (chat in t.chats <==> a == Create(chat)) && (chat in t.chats ==> t.chats[chat] == Chat(0, 0, false)))
            && (chat in s.chats ==>
                  var before, closed := s.chats[chat], s.chats[chat].closed;
                  && chat in t.chats && before.revision <= t.chats[chat].revision
                  && (a == Open(chat) ==> t.chats[chat] == before.(closed := false))
                  && (a == Close(chat) ==> t.chats[chat] == before.(closed := true))
                  && (a.Change? && a.chat == chat && !closed ==>
                        t.chats[chat] == Chat(before.revision + 1, a.activity, false))
                  && (t.chats[chat] != before ==>
                        a in {Open(chat), Close(chat)} || (a.Change? && a.chat == chat && !closed)))
  {
  }

  lemma HeldWith(pages: map<PageKey, Fetched>, key: PageKey, page: Fetched)
    ensures Pages(pages[key := page]) == Pages(pages)[key := page.raw]
  {
  }

  /** Reading ahead starts from the chat's summary with no page, and a page read
      joins those read before it. */
  lemma ReadingAhead(s: State, t: Tid, chat: ChatId, opts: ReadOptions, key: PageKey, read: Reader)
    requires chat in s.chats
    ensures t !in s.calls && s.chats[chat].closed ==>
              Step(s, Warm(t, chat, opts), read) ==
              s.(calls := s.calls[t := Warming(chat, s.chats[chat].revision, s.chats[chat].activity, opts, map[])])
    ensures t in s.calls && s.calls[t].Warming? && s.calls[t].chat == chat ==>
              var raw := read(chat, s.chats[chat].revision, PageBefore(key.before, key.limit, s.calls[t].opts));
              var after := Step(s, ReadPage(t, key), read);
              && after == s.(calls := s.calls[t := after.calls[t]]) && after.calls[t].Warming?
              && SliceOf(after.calls[t]) ==
                 Slice(s.calls[t].revision, s.calls[t].opts, s.calls[t].activity, Pages(s.calls[t].pages)[key := raw],
                       PageBytes(Pages(s.calls[t].pages)[key := raw]))
  {
    if t in s.calls && s.calls[t].Warming? && s.calls[t].chat == chat {
      var at := s.chats[chat].revision;
      HeldWith(s.calls[t].pages, key, Fetched(at, read(chat, at, PageBefore(key.before, key.limit, s.calls[t].opts))));
    }
  }

  /** What reading ahead keeps answers the requests for its pages, in the place of
      the reads. */
  lemma PagesAreServed(s: State, t: Tid, after: Cache, key: PageKey, read: Reader)
    requires Enabled(s, StorePages(t, after, true)) && s.calls[t].chat in s.chats && key in s.calls[t].pages
    ensures var call, stored := s.calls[t], Step(s, StorePages(t, after, true), read);
            var served := Step(stored, ServePage(call.chat, key, call.opts), read);
            && stored.calls == s.calls - {t} && stored.cache == after && stored.chats == s.chats
            && (s.chats[call.chat].closed ==>
                  served == stored.(served := s.served + [Served(call.pages[key].raw,
                    read(call.chat, s.chats[call.chat].revision, PageBefore(key.before, key.limit, call.opts)))]))
  {
    var call := s.calls[t];
    CachedPageIff(after, Closed(s), call.chat, key, call.opts, call.pages[key].raw);
  }

  /** A chat that opens is no longer kept. */
  lemma OpeningDrops(s: State, chat: ChatId, read: Reader)
    requires chat in s.chats && s.chats[chat].closed
    ensures var t := Step(s, Open(chat), read);
            && t.cache.screens == s.cache.screens - {chat} && t.cache.slices == s.cache.slices - {chat}
            && !t.chats[chat].closed
  {
    DroppedIsGone(s.cache, chat);
  }

  /** And both counters are exactly what is held, within their caps. */
  lemma AlwaysBudgeted(actions: seq<Action>, read: Reader)
    ensures Budgeted(Run(START, actions, read).cache)
  {
    RunInv(START, actions, read);
  }
}
