/** Page ids for browser tabs: the mapping in both directions, the selected page, and the copy in
    session storage that is written a moment later and read back when the worker restarts. */
module PageManager {
  import opened Prelude

  datatype Pages = Pages(tabToPage: map<int, int>, pageToTab: map<int, int>, nextPageId: int, selected: Option<int>)

  /** The tab entries as they are stored, a tab and its page each. */
  datatype Saved = Saved(entries: seq<(int, int)>, nextPageId: int, selected: Option<int>)

  const FRESH := Pages(map[], map[], 1, None)

  /** The two maps are inverse to each other, the selected page is mapped, ids are below the next. */
  ghost predicate Valid(s: Pages) {
    && s.nextPageId >= 1
    && (forall t :: t in s.tabToPage ==> s.tabToPage[t] in s.pageToTab && s.pageToTab[s.tabToPage[t]] == t)
    && (forall p :: p in s.pageToTab ==> s.pageToTab[p] in s.tabToPage && s.tabToPage[s.pageToTab[p]] == p)
    && (forall p :: p in s.pageToTab ==> 1 <= p < s.nextPageId)
    && (s.selected.Some? ==> s.selected.value in s.pageToTab)
  }

  // ------------------------------------------------------------------- the operations on values

  function Got(s: Pages, tab: int): (Pages, int) {
    if tab in s.tabToPage then (s, s.tabToPage[tab])
    else
      (Pages(s.tabToPage[tab := s.nextPageId], s.pageToTab[s.nextPageId := tab], s.nextPageId + 1, s.selected),
       s.nextPageId)
  }

  function Selected(s: Pages, page: int): Pages {
    if page in s.pageToTab then s.(selected := Some(page)) else s
  }

  function Removed(s: Pages, page: int): Pages {
    Pages(if page in s.pageToTab then s.tabToPage - {s.pageToTab[page]} else s.tabToPage, s.pageToTab - {page},
          s.nextPageId, if s.selected == Some(page) then None else s.selected)
  }

  function TabRemoved(s: Pages, tab: int): Pages {
    if tab in s.tabToPage then Removed(s, s.tabToPage[tab]) else s
  }

  /** The part of the state that concerns the tabs of `live`. */
  function Restricted(s: Pages, live: set<int>): Pages {
    Pages(map t | t in s.tabToPage && t in live :: s.tabToPage[t],
          map p | p in s.pageToTab && s.pageToTab[p] in live :: s.pageToTab[p],
          s.nextPageId,
          if s.selected.Some? && s.selected.value in s.pageToTab && s.pageToTab[s.selected.value] in live
          then s.selected else None)
  }

  /** Reading stored entries one by one, skipping the tabs that are gone; whatever is stored. */
  function Reloaded(entries: seq<(int, int)>, live: set<int>): (map<int, int>, map<int, int>, int) {
    if entries == [] then (map[], map[], 0)
    else
      var before, e := Reloaded(entries[..|entries| - 1], live), entries[|entries| - 1];
      if e.0 in live then (before.0[e.0 := e.1], before.1[e.1 := e.0], Max(before.2, e.1)) else before
  }

  function Restored(s: Saved, live: set<int>): Pages {
    var r := Reloaded(s.entries, live);
    Pages(r.0, r.1, Max(s.nextPageId, r.2 + 1),
          if s.selected.Some? && s.selected.value in r.1 then s.selected else None)
  }

  class Storage {
    var saved: Option<Saved>

    constructor ()
      ensures saved.None?
    {
      saved := None;
    }
  }

  class Manager {
    var tabToPage: map<int, int>
    var pageToTab: map<int, int>
    var nextPageId: int
    var selectedPageId: Option<int>
    var debuggerAttached: set<int>
    var persistPending: bool

    constructor ()
      ensures Value() == FRESH && debuggerAttached == {} && !persistPending
    {
      tabToPage, pageToTab, nextPageId, selectedPageId := map[], map[], 1, None;
      debuggerAttached, persistPending := {}, false;
    }

    ghost function Value(): Pages
      reads this
    {
      Pages(tabToPage, pageToTab, nextPageId, selectedPageId)
    }

    lemma ValueIs()
      ensures Value() == Pages(tabToPage, pageToTab, nextPageId, selectedPageId)
    {
    }

    /** `live`: the tabs the browser reports, none if it reports an error; `read`: whether the
        storage can be read. */
    method Restore(storage: Storage, live: set<int>, read: bool) returns (ok: bool)
      modifies this`tabToPage, this`pageToTab, this`nextPageId, this`selectedPageId
      ensures ok <==> read && storage.saved.Some?
      ensures Value() == if ok then Restored(storage.saved.value, live) else old(Value())
    {
      if !read || storage.saved.None? { return false; }
      var s := storage.saved.value;
      tabToPage, pageToTab := map[], map[];
      var maxId := 0;
      for i := 0 to |s.entries|
        modifies this`tabToPage, this`pageToTab
        invariant (tabToPage, pageToTab, maxId) == Reloaded(s.entries[..i], live)
      {
        assert s.entries[..i + 1][..i] == s.entries[..i];
        var (tab, page) := s.entries[i];
        if tab in live {
          tabToPage := tabToPage[tab := page];
          pageToTab := pageToTab[page := tab];
          if page > maxId { maxId := page; }
        }
      }
      assert s.entries[..|s.entries|] == s.entries;
      nextPageId := Max(s.nextPageId, maxId + 1);
      selectedPageId := if s.selected.Some? && s.selected.value in pageToTab then s.selected else None;
      ok := true;
    }

    method SchedulePersist()
      modifies this`persistPending
      ensures persistPending
    {
      persistPending := true;
    }

    /** The timer fires. `wrote`: whether the storage accepts the write; a refusal goes unnoticed. */
    method Persist(storage: Storage, wrote: bool)
      modifies this`persistPending, storage
      ensures !persistPending
      ensures if wrote then storage.saved.Some? && Stores(storage.saved.value, Value())
              else storage.saved == old(storage.saved)
    {
      hide *;
      var entries: seq<(int, int)> := [];
      ListsNothing(tabToPage);
      var rest: set<int> := tabToPage.Keys;
      while rest != {}
        modifies {}
        invariant rest <= tabToPage.Keys
        invariant Lists(entries, tabToPage, tabToPage.Keys - rest)
        decreases |rest|
      {
        HasElement(rest);
        var t: int :| t in rest;
        ListsOneMore(entries, tabToPage, tabToPage.Keys - rest, t);
        assert tabToPage.Keys - (rest - {t}) == tabToPage.Keys - rest + {t};
        entries, rest := entries + [(t, tabToPage[t])], rest - {t};
      }
      assert tabToPage.Keys - {} == tabToPage.Keys;
      StoresIf(entries, Pages(tabToPage, pageToTab, nextPageId, selectedPageId));
      ValueIs();
      if wrote { storage.saved := Some(Saved(entries, nextPageId, selectedPageId)); }
      persistPending := false;
      ValueIs();
    }

    method GetPageId(tab: int) returns (page: int)
      modifies this`tabToPage, this`pageToTab, this`nextPageId, this`persistPending
      ensures (Value(), page) == Got(old(Value()), tab)
      ensures persistPending == (old(persistPending) || Value() != old(Value()))
    {
      if tab in tabToPage { return tabToPage[tab]; }
      page := nextPageId;
      nextPageId := nextPageId + 1;
      tabToPage := tabToPage[tab := page];
      pageToTab := pageToTab[page := tab];
      SchedulePersist();
    }

    method SelectPage(page: int) returns (ok: bool)
      modifies this`selectedPageId, this`persistPending
      ensures Value() == Selected(old(Value()), page) && ok == (page in pageToTab)
      ensures persistPending == (old(persistPending) || ok)
    {
      if page !in pageToTab { return false; }
      selectedPageId := Some(page);
      SchedulePersist();
      ok := true;
    }

    method RemovePage(page: int)
      modifies this`tabToPage, this`pageToTab, this`selectedPageId, this`debuggerAttached, this`persistPending
      ensures Value() == Removed(old(Value()), page) && persistPending
      ensures debuggerAttached == if page in old(pageToTab) then old(debuggerAttached) - {old(pageToTab)[page]}
                                  else old(debuggerAttached)
    {
      if page in pageToTab {
        var tab := pageToTab[page];
        tabToPage := tabToPage - {tab};
        debuggerAttached := debuggerAttached - {tab};
      }
      pageToTab := pageToTab - {page};
      if selectedPageId == Some(page) { selectedPageId := None; }
      SchedulePersist();
    }

    method RemoveByTabId(tab: int)
      modifies this`tabToPage, this`pageToTab, this`selectedPageId, this`debuggerAttached, this`persistPending
      ensures Value() == TabRemoved(old(Value()), tab)
      ensures persistPending == (old(persistPending) || tab in old(tabToPage))
    {
      if tab in tabToPage { RemovePage(tabToPage[tab]); }
    }

    /** The tab an operation goes to: the page it names, or else the selected one. */
    method ResolveTabId(pageParam: Option<int>) returns (tab: Option<int>)
      ensures tab == var page := if pageParam.Some? then pageParam else selectedPageId;
                     if page.Some? && page.value in pageToTab then Some(pageToTab[page.value]) else None
    {
      if pageParam.Some? {
        if pageParam.value !in pageToTab { return None; }
        return Some(pageToTab[pageParam.value]);
      }
      if selectedPageId.None? { return None; }
      if selectedPageId.value !in pageToTab { return None; }
      tab := Some(pageToTab[selectedPageId.value]);
    }

    method Clear()
      modifies this
      ensures Value() == FRESH && debuggerAttached == {} && persistPending
    {
      tabToPage, pageToTab, debuggerAttached := map[], map[], {};
      selectedPageId, nextPageId := None, 1;
      SchedulePersist();
    }
  }

  // ---------------------------------------------------------------------------- what is stored

  /** `entries` has each tab of `tabs` once, with its page. */
  ghost predicate Lists(entries: seq<(int, int)>, m: map<int, int>, tabs: set<int>) {
    && (forall k :: 0 <= k < |entries| ==> entries[k].0 in m && entries[k].1 == m[entries[k].0])
    && (forall k, l :: 0 <= k < l < |entries| ==> entries[k].0 != entries[l].0)
    && tabs == Tabs(entries)
  }

  ghost function Tabs(entries: seq<(int, int)>): set<int> {
    if entries == [] then {} else Tabs(entries[..|entries| - 1]) + {entries[|entries| - 1].0}
  }

  ghost predicate Stores(saved: Saved, s: Pages) {
    && Lists(saved.entries, s.tabToPage, s.tabToPage.Keys)
    && saved.nextPageId == s.nextPageId
    && saved.selected == s.selected
  }

  lemma NoElement(s: set<int>)
    requires forall x :: x !in s
    ensures s == {}
  {
    assert forall x :: x in s <==> x in {};
  }

  lemma HasElement(s: set<int>)
    requires s != {}
    ensures exists x :: x in s
  {
    if !exists x :: x in s { NoElement(s); }
  }

  lemma ListsNothing(m: map<int, int>)
    ensures Lists([], m, m.Keys - m.Keys)
  {
  }

  lemma StoresIf(entries: seq<(int, int)>, s: Pages)
    requires Lists(entries, s.tabToPage, s.tabToPage.Keys)
    ensures Stores(Saved(entries, s.nextPageId, s.selected), s)
  {
  }

  lemma {:induction false} TabsHave(entries: seq<(int, int)>, t: int)
    ensures t in Tabs(entries) <==> exists k :: 0 <= k < |entries| && entries[k].0 == t
  {
    if entries != [] {
      var init := entries[..|entries| - 1];
      TabsHave(init, t);
      assert entries[|entries| - 1].0 == t ==> exists k :: 0 <= k < |entries| && entries[k].0 == t;
      assert forall k :: 0 <= k < |init| ==> init[k] == entries[k];
    }
  }

  lemma ListsOneMore(entries: seq<(int, int)>, m: map<int, int>, tabs: set<int>, t: int)
    requires Lists(entries, m, tabs) && t in m && t !in tabs
    ensures Lists(entries + [(t, m[t])], m, tabs + {t})
  {
    TabsHave(entries, t);
    var more := entries + [(t, m[t])];
    assert more[..|more| - 1] == entries;
  }

  // ------------------------------------------------------------------ the operations keep it valid

  lemma OperationsKeepValid(s: Pages, tab: int, page: int)
    requires Valid(s)
    ensures Valid(Got(s, tab).0) && Valid(Selected(s, page)) && Valid(Removed(s, page)) && Valid(TabRemoved(s, tab))
    ensures Got(s, tab).1 in Got(s, tab).0.pageToTab && Got(s, tab).0.pageToTab[Got(s, tab).1] == tab
  {
    GotValid(s, tab);
    RemovedValid(s, page);
    if tab in s.tabToPage { RemovedValid(s, s.tabToPage[tab]); }
  }

  predicate Maps(s: Pages, tab: int, page: int) { tab in s.tabToPage && s.tabToPage[tab] == page }

  /** Removing a page takes out that page, its tab and its selection; every other tab keeps its page, and
      another selection stays. Asking for a page adds one tab at most, selecting changes the selection
      alone, and a restart keeps the pages of the tabs that are still there. */
  lemma OthersStayAsTheyAre(s: Pages, tab: int, page: int, live: set<int>)
    requires Valid(s)
    ensures var r := Removed(s, page);
            && (forall t, p :: Maps(r, t, p) <==> Maps(s, t, p) && p != page)
            && r.selected == (if s.selected == Some(page) then None else s.selected) && r.nextPageId == s.nextPageId
    ensures var r := TabRemoved(s, tab);
            && (forall t, p :: Maps(r, t, p) <==> Maps(s, t, p) && t != tab)
            && (s.selected.Some? && s.pageToTab[s.selected.value] != tab ==> r.selected == s.selected)
    ensures var (r, got) := Got(s, tab);
            && (forall t, p :: Maps(r, t, p) <==> Maps(s, t, p) || (t == tab && p == got))
            && r.selected == s.selected
    ensures var r := Selected(s, page);
            && r.tabToPage == s.tabToPage && r.nextPageId == s.nextPageId
            && r.selected == (if page in s.pageToTab then Some(page) else s.selected)
    ensures var r := Restricted(s, live);
            && (forall t, p :: Maps(r, t, p) <==> Maps(s, t, p) && t in live)
            && r.selected == (if s.selected.Some? && s.pageToTab[s.selected.value] in live then s.selected else None)
            && r.nextPageId == s.nextPageId
  {
  }

  lemma GotValid(s: Pages, tab: int)
    requires Valid(s)
    ensures Valid(Got(s, tab).0)
  {
  }

  lemma RemovedValid(s: Pages, page: int)
    requires Valid(s)
    ensures Valid(Removed(s, page))
  {
  }

  lemma RestrictedValid(s: Pages, live: set<int>)
    requires Valid(s)
    ensures Valid(Restricted(s, live))
  {
  }

  // -------------------------------------------------------------------- what a restart brings back

  /** The tabs of the stored entries that are read so far and still there. */
  lemma {:induction false} ReloadedIsRestricted(s: Pages, entries: seq<(int, int)>, live: set<int>)
    requires Valid(s)
    requires forall k :: 0 <= k < |entries| ==> entries[k].0 in s.tabToPage && entries[k].1 == s.tabToPage[entries[k].0]
    ensures var r, want := Reloaded(entries, live), Restricted(s, Tabs(entries) * live);
            r.0 == want.tabToPage && r.1 == want.pageToTab && 0 <= r.2 < s.nextPageId
  {
    hide Valid;
    NextIsPositive(s);
    if entries == [] {
      NothingReloaded(s, live);
    } else {
      var init, e := entries[..|entries| - 1], entries[|entries| - 1];
      ReloadedIsRestricted(s, init, live);
      assert Tabs(entries) == Tabs(init) + {e.0};
      if e.0 in live {
        assert Tabs(entries) * live == Tabs(init) * live + {e.0};
        OneMoreTab(s, Tabs(init) * live, e.0);
      } else {
        assert Tabs(entries) * live == Tabs(init) * live;
      }
    }
  }

  lemma NextIsPositive(s: Pages)
    requires Valid(s)
    ensures s.nextPageId >= 1
  {
  }

  lemma NothingReloaded(s: Pages, live: set<int>)
    ensures Reloaded([], live) == (map[], map[], 0)
    ensures Restricted(s, Tabs([]) * live).tabToPage == map[] && Restricted(s, Tabs([]) * live).pageToTab == map[]
  {
  }

  lemma OneMoreTab(s: Pages, live: set<int>, t: int)
    requires Valid(s) && t in s.tabToPage
    ensures var p := s.tabToPage[t];
            Restricted(s, live + {t}).tabToPage == Restricted(s, live).tabToPage[t := p]
            && Restricted(s, live + {t}).pageToTab == Restricted(s, live).pageToTab[p := t]
            && 1 <= p < s.nextPageId
  {
    var p := s.tabToPage[t];
    var more, less := Restricted(s, live + {t}).pageToTab, Restricted(s, live).pageToTab;
    assert forall q :: q in s.pageToTab && s.pageToTab[q] == t ==> q == p;
    assert forall q :: q in more <==> q in less || q == p;
  }

  /** Restoring what was stored gives exactly that state, restricted to the tabs still there, and
      with it a bijection again. */
  lemma RestoreIsRestriction(s: Pages, saved: Saved, live: set<int>)
    requires Valid(s) && Stores(saved, s)
    ensures Restored(saved, live) == Restricted(s, live) && Valid(Restored(saved, live))
  {
    ReloadedIsRestricted(s, saved.entries, live);
    RestrictedValid(s, live);
    MoreThanAll(s, Tabs(saved.entries), live);
  }

  lemma MoreThanAll(s: Pages, tabs: set<int>, live: set<int>)
    requires Valid(s) && tabs == s.tabToPage.Keys
    ensures Restricted(s, tabs * live).tabToPage == Restricted(s, live).tabToPage
    ensures Restricted(s, tabs * live).pageToTab == Restricted(s, live).pageToTab
  {
    assert forall p :: p in s.pageToTab ==> s.pageToTab[p] in tabs;
    assert forall p :: p in Restricted(s, tabs * live).pageToTab <==> p in Restricted(s, live).pageToTab;
  }

  // ------------------------------------------------------------------------------------- runs

  /** `pending`: a write is scheduled. `stored`: the state that was written last. `issued`: every
      page id handed out since the last clear. */
  datatype System = System(pages: Pages, pending: bool, stored: Option<Pages>, issued: set<int>)

  /** Writes and reads of the storage may fail. */
  datatype Event =
    | Get(tab: int)
    | Select(page: int)
    | Remove(page: int)
    | RemoveTab(tab: int)
    | ClearAll
    | TimerFires(wrote: bool)
    | WorkerRestarts(live: set<int>, read: bool)

  const START := System(FRESH, false, None, {})

  function Issues(s: System, e: Event): Option<int> {
    if e.Get? && e.tab !in s.pages.tabToPage then Some(s.pages.nextPageId) else None
  }

  /** What a new worker starts from. */
  function AfterRestart(stored: Option<Pages>, live: set<int>, read: bool): Pages {
    if read && stored.Some? then Restricted(stored.value, live) else FRESH
  }

  function Next(s: System, e: Event): System {
    match e
    case Get(tab) =>
      System(Got(s.pages, tab).0, s.pending || tab !in s.pages.tabToPage, s.stored,
             if Issues(s, e).Some? then s.issued + {s.pages.nextPageId} else s.issued)
    case Select(page) => s.(pages := Selected(s.pages, page), pending := s.pending || page in s.pages.pageToTab)
    case Remove(page) => s.(pages := Removed(s.pages, page), pending := true)
    case RemoveTab(tab) => s.(pages := TabRemoved(s.pages, tab), pending := s.pending || tab in s.pages.tabToPage)
    case ClearAll => System(FRESH, true, s.stored, {})
    case TimerFires(wrote) =>
      if s.pending then s.(pending := false, stored := if wrote then Some(s.pages) else s.stored) else s
    case WorkerRestarts(live, read) => s.(pages := AfterRestart(s.stored, live, read), pending := false)
  }

  function RunAll(es: seq<Event>): System {
    if es == [] then START else Next(RunAll(es[..|es| - 1]), es[|es| - 1])
  }

  ghost predicate ValidSystem(s: System) { Valid(s.pages) && (s.stored.Some? ==> Valid(s.stored.value)) }

  /** In every reachable state, across clears and restarts with whatever was stored, the two maps
      are inverse to each other, the selection is mapped, and ids are below the next. */
  lemma {:induction false} AlwaysABijection(es: seq<Event>)
    ensures ValidSystem(RunAll(es))
  {
    hide Valid, Restricted, Got, Removed, Selected, TabRemoved;
    if es == [] {
      FreshIsValid();
    } else {
      var s, e := RunAll(es[..|es| - 1]), es[|es| - 1];
      AlwaysABijection(es[..|es| - 1]);
      FreshIsValid();
      match e
      case Get(tab) => OperationsKeepValid(s.pages, tab, 0);
      case Select(page) => OperationsKeepValid(s.pages, 0, page);
      case Remove(page) => OperationsKeepValid(s.pages, 0, page);
      case RemoveTab(tab) => OperationsKeepValid(s.pages, tab, 0);
      case WorkerRestarts(live, read) => if s.stored.Some? { RestrictedValid(s.stored.value, live); }
      case _ =>
    }
  }

  lemma FreshIsValid()
    ensures Valid(FRESH)
  {
  }

  /** The id a new worker starts counting from. */
  function StartsFrom(s: System, read: bool): int {
    if read && s.stored.Some? then s.stored.value.nextPageId else 1
  }

  /** From `first` on, the ids handed out have no gap. */
  ghost predicate NoGapFrom(issued: set<int>, first: int) {
    forall id, j :: id in issued && first <= j <= id ==> j in issued
  }

  /** What is handed out next, and what would be handed out next by a worker that starts from the
      storage, has been handed out before or is above everything that has. */
  ghost predicate Contiguous(s: System) {
    && s.pages.nextPageId >= 1 && StartsFrom(s, true) >= 1
    && NoGapFrom(s.issued, s.pages.nextPageId) && NoGapFrom(s.issued, StartsFrom(s, true))
    && forall j :: StartsFrom(s, true) <= j < s.pages.nextPageId ==> j in s.issued
  }

  /** The ids handed out have no gap at all. */
  ghost predicate Gapless(s: System) {
    && s.pages.nextPageId >= 1 && StartsFrom(s, true) >= 1
    && NoGapFrom(s.issued, 1)
    && (forall j :: 1 <= j < s.pages.nextPageId ==> j in s.issued)
    && (forall j :: 1 <= j < StartsFrom(s, true) ==> j in s.issued)
  }

  ghost predicate NoClear(es: seq<Event>) { forall e :: e in es ==> !e.ClearAll? }

  ghost predicate EveryRead(es: seq<Event>) { forall e :: e in es && e.WorkerRestarts? ==> e.read }

  lemma ContiguousNext(s: System, e: Event)
    requires Contiguous(s) && (e.WorkerRestarts? ==> e.read)
    ensures Contiguous(Next(s, e))
  {
    if e.Get? && e.tab !in s.pages.tabToPage {
      var n := s.pages.nextPageId;
      assert forall id :: id in s.issued && id >= n ==> n in s.issued;
    }
  }

  lemma GaplessNext(s: System, e: Event)
    requires Gapless(s) && !e.ClearAll?
    ensures Gapless(Next(s, e))
  {
  }

  lemma {:induction false} RunContiguous(es: seq<Event>)
    requires EveryRead(es)
    ensures Contiguous(RunAll(es))
  {
    hide Contiguous, Next;
    if es == [] {
      assert Contiguous(START) by { StartHasNoGap(); }
    } else {
      var init, e := es[..|es| - 1], es[|es| - 1];
      assert es == init + [e];
      RunContiguous(init);
      ContiguousNext(RunAll(init), e);
    }
  }

  lemma {:induction false} RunGapless(es: seq<Event>)
    requires NoClear(es)
    ensures Gapless(RunAll(es))
  {
    hide Gapless, Next;
    if es == [] {
      StartHasNoGap();
    } else {
      var init, e := es[..|es| - 1], es[|es| - 1];
      assert es == init + [e];
      RunGapless(init);
      GaplessNext(RunAll(init), e);
    }
  }

  lemma StartHasNoGap()
    ensures Contiguous(START) && Gapless(START)
  {
  }

  /** A restart leads to a page id that was handed out before exactly when some id was handed out
      that is not below the count found in the storage: after whatever run, with writes that fail
      and restarts at any moment, and reads that fail too if nothing is cleared. */
  lemma RestartReissuesExactlyWhen(es: seq<Event>, live: set<int>, read: bool, tab: int)
    requires NoClear(es) || (EveryRead(es) && read)
    ensures var s := RunAll(es);
            var t := Next(s, WorkerRestarts(live, read));
            var id := Issues(t, Get(tab));
            && (tab !in live ==> id.Some?)
            && (id.Some? ==> (id.value in t.issued <==> exists x :: x in s.issued && StartsFrom(s, read) <= x))
  {
    hide RunAll, NoClear, EveryRead, Valid;
    AlwaysABijection(es);
    RestartStartsFrom(RunAll(es), live, read);
    if EveryRead(es) && read {
      RunContiguous(es);
    } else {
      RunGapless(es);
    }
  }

  lemma RestartStartsFrom(s: System, live: set<int>, read: bool)
    requires ValidSystem(s)
    ensures var t := Next(s, WorkerRestarts(live, read));
            t.issued == s.issued && t.pages.nextPageId == StartsFrom(s, read)
            && forall tab :: tab in t.pages.tabToPage ==> tab in live
  {
  }

  /** The state after these tabs asked for their page. */
  function AfterGets(s: System, tabs: seq<int>): System {
    if tabs == [] then s else Next(AfterGets(s, tabs[..|tabs| - 1]), Get(tabs[|tabs| - 1]))
  }

  /** The last of these tabs gets a new id that was handed out before the first one asked. */
  predicate HandsOutAgain(s: System, tabs: seq<int>) {
    tabs != []
    && (var id := Issues(AfterGets(s, tabs[..|tabs| - 1]), Get(tabs[|tabs| - 1])); id.Some? && id.value in s.issued)
  }

  lemma {:induction false} GetsCountUp(s: System, tabs: seq<int>)
    ensures AfterGets(s, tabs).pages.nextPageId >= s.pages.nextPageId
  {
    if tabs != [] { GetsCountUp(s, tabs[..|tabs| - 1]); }
  }

  lemma AboveAll(tabs: set<int>) returns (m: int)
    ensures forall t :: t in tabs ==> t < m
    decreases |tabs|
  {
    m := 0;
    if t :| t in tabs {
      var n := AboveAll(tabs - {t});
      m := Max(n, t + 1);
      assert forall x :: x in tabs ==> x == t || x in tabs - {t};
    }
  }

  /** As many new tabs as one likes. */
  function NewTabs(first: int, count: nat): seq<int> {
    if count == 0 then [] else NewTabs(first, count - 1) + [first + count - 1]
  }

  lemma {:induction false} NewTabsCount(s: System, first: int, count: nat)
    requires forall t :: t in s.pages.tabToPage ==> t < first
    ensures var t := AfterGets(s, NewTabs(first, count));
            && t.pages.nextPageId == s.pages.nextPageId + count
            && forall tab :: tab in t.pages.tabToPage ==> tab < first + count
  {
    if count > 0 {
      NewTabsCount(s, first, count - 1);
      var tabs := NewTabs(first, count);
      assert tabs[..|tabs| - 1] == NewTabs(first, count - 1);
    }
  }

  lemma HandsOutOnlyAbove(t: System, tabs: seq<int>)
    requires HandsOutAgain(t, tabs)
    ensures exists x :: x in t.issued && t.pages.nextPageId <= x
  {
    hide Next, AfterGets, Issues;
    var front := tabs[..|tabs| - 1];
    GetsCountUp(t, front);
    IssuesTheNext(AfterGets(t, front), tabs[|tabs| - 1]);
    var x := AfterGets(t, front).pages.nextPageId;
    assert x in t.issued;
  }

  lemma HandsOutAllAbove(t: System, x: int)
    requires x in t.issued && t.pages.nextPageId <= x
    ensures exists tabs :: HandsOutAgain(t, tabs)
  {
    hide Next, AfterGets, Issues;
    var first := AboveAll(t.pages.tabToPage.Keys);
    var count := x - t.pages.nextPageId;
    NewTabsCount(t, first, count);
    var tabs := NewTabs(first, count + 1);
    assert tabs[..|tabs| - 1] == NewTabs(first, count) && tabs[|tabs| - 1] == first + count;
    IssuesTheNext(AfterGets(t, NewTabs(first, count)), first + count);
    assert HandsOutAgain(t, tabs);
  }

  /** After every run at all: the worker that starts now comes to hand out an id again, to one new tab
      or a later one, exactly when some id was handed out that is not below the count it finds. */
  lemma RestartComesToReissueExactlyWhen(es: seq<Event>, live: set<int>, read: bool)
    ensures var s := RunAll(es);
            var t := Next(s, WorkerRestarts(live, read));
            (exists tabs :: HandsOutAgain(t, tabs)) <==> exists x :: x in s.issued && StartsFrom(s, read) <= x
  {
    hide RunAll, Valid, Next, HandsOutAgain;
    AlwaysABijection(es);
    var s := RunAll(es);
    RestartStartsFrom(s, live, read);
    var t := Next(s, WorkerRestarts(live, read));
    if tabs :| HandsOutAgain(t, tabs) { HandsOutOnlyAbove(t, tabs); }
    if x :| x in s.issued && StartsFrom(s, read) <= x { HandsOutAllAbove(t, x); }
  }

  lemma IssuesTheNext(s: System, tab: int)
    ensures Issues(s, Get(tab)) == if tab in s.pages.tabToPage then None else Some(s.pages.nextPageId)
  {}

  /** Every restart finds a count in the storage that is not below the count it replaces. */
  ghost predicate UpToDate(es: seq<Event>) {
    forall k :: 0 <= k < |es| && es[k].WorkerRestarts? ==>
      RunAll(es[..k]).pages.nextPageId <= StartsFrom(RunAll(es[..k]), es[k].read)
  }

  ghost predicate BelowNext(s: System) { forall id :: id in s.issued ==> id < s.pages.nextPageId }

  lemma {:induction false} UpToDateIsBelow(es: seq<Event>)
    requires UpToDate(es)
    ensures BelowNext(RunAll(es))
  {
    if es != [] {
      var init := es[..|es| - 1];
      assert forall k :: 0 <= k < |init| ==> init[k] == es[k] && init[..k] == es[..k];
      UpToDateIsBelow(init);
      BelowNextStep(RunAll(init), es[|es| - 1]);
    }
  }

  lemma BelowNextStep(s: System, e: Event)
    requires BelowNext(s) && (e.WorkerRestarts? ==> s.pages.nextPageId <= StartsFrom(s, e.read))
    ensures BelowNext(Next(s, e))
  {
  }

  /** As long as restarts find the storage up to date a page id is never handed out twice. */
  lemma IdsAreNeverReissued(es: seq<Event>, e: Event)
    requires UpToDate(es) && Issues(RunAll(es), e).Some?
    ensures Issues(RunAll(es), e).value !in RunAll(es).issued
  {
    UpToDateIsBelow(es);
  }

  /** And the first restart that finds it out of date does hand one out twice. */
  lemma FirstStaleRestartReissues(es: seq<Event>, live: set<int>, read: bool, tab: int)
    requires UpToDate(es) && (NoClear(es) || (EveryRead(es) && read)) && tab !in live
    ensures var s := RunAll(es);
            var t := Next(s, WorkerRestarts(live, read));
            Issues(t, Get(tab)).Some?
            && (Issues(t, Get(tab)).value in t.issued <==> StartsFrom(s, read) < s.pages.nextPageId)
  {
    hide RunAll, NoClear, EveryRead, UpToDate, Valid;
    RestartReissuesExactlyWhen(es, live, read, tab);
    UpToDateIsBelow(es);
    var s := RunAll(es);
    if EveryRead(es) && read {
      RunContiguous(es);
    } else {
      RunGapless(es);
    }
    assert StartsFrom(s, read) < s.pages.nextPageId ==> s.pages.nextPageId - 1 in s.issued;
  }

  /** Such as: one tab and a restart before the write, or after a write that failed, or one that
      cannot read what was written. */
  lemma StaleRestartReissues()
    ensures var early := [Get(1), WorkerRestarts({1}, true)];
            var lost := [Get(1), TimerFires(false), WorkerRestarts({1}, true)];
            var unread := [Get(1), TimerFires(true), WorkerRestarts({1}, false)];
            && Issues(RunAll(early), Get(2)) == Some(1) && 1 in RunAll(early).issued
            && Issues(RunAll(lost), Get(2)) == Some(1) && 1 in RunAll(lost).issued
            && !RunAll(lost[..2]).pending
            && Issues(RunAll(unread), Get(2)) == Some(1) && 1 in RunAll(unread).issued
  {
    var one := [Get(1)];
    assert one[..0] == [];
    assert RunAll(one) == System(Got(FRESH, 1).0, true, None, {1});
    var early := one + [WorkerRestarts({1}, true)];
    assert early[..1] == one;
    var failed, wrote := one + [TimerFires(false)], one + [TimerFires(true)];
    assert failed[..1] == one && wrote[..1] == one;
    var lost, unread := failed + [WorkerRestarts({1}, true)], wrote + [WorkerRestarts({1}, false)];
    assert lost[..2] == failed && unread[..2] == wrote;
  }
}
