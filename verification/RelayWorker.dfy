/** The relay extension's service worker in the imperative form of its source: the module
    variables are fields, the handlers update them in place, and each is proved to take the
    step the machine prescribes. */
module RelayWorker {
  import opened Options
  import opened OrderedMaps
  import opened RelayMachine
  import opened RelaySafety

  ghost function Killed(c: OrderedMap<string, TabId>, tab: TabId, i: nat): set<string>
    requires i <= |c.keys|
  {
    set x | x in c.keys[..i] && x in c.m && c.m[x] == tab
  }

  /** What a loop that deletes a tab's child sessions has left after i rounds. */
  ghost function Remaining(c: OrderedMap<string, TabId>, tab: TabId, i: nat): OrderedMap<string, TabId>
    requires i <= |c.keys|
  {
    c.Restrict(c.m.Keys - Killed(c, tab, i))
  }

  lemma KillOneMore(c: OrderedMap<string, TabId>, tab: TabId, i: nat)
    requires c.Valid() && i < |c.keys|
    ensures var id := c.keys[i];
      && id in Remaining(c, tab, i).m && Remaining(c, tab, i).m[id] == c.m[id]
      && (c.m[id] == tab <==> id in ChildrenOf(c, tab))
      && Remaining(c, tab, i + 1) == if c.m[id] == tab then Remaining(c, tab, i).Delete(id) else Remaining(c, tab, i)
  {
    var id := c.keys[i];
    DistinctPrefix(c.keys, i);
    assert c.keys[..i + 1] == c.keys[..i] + [id];
    if c.m[id] == tab {
      c.RestrictDelete(c.m.Keys - Killed(c, tab, i), id);
      assert c.m.Keys - Killed(c, tab, i) - {id} == c.m.Keys - Killed(c, tab, i + 1);
    } else {
      assert Killed(c, tab, i) == Killed(c, tab, i + 1);
    }
  }

  lemma KillEnds(c: OrderedMap<string, TabId>, tab: TabId)
    requires c.Valid()
    ensures Remaining(c, tab, 0) == c && Remaining(c, tab, |c.keys|) == DropChildren(c, tab)
  {
    c.RestrictAll(c.m.Keys - Killed(c, tab, 0));
    assert c.keys[..|c.keys|] == c.keys;
    assert Killed(c, tab, |c.keys|) == ChildrenOf(c, tab);
  }

  ghost function Retargeted(c: OrderedMap<string, TabId>, from: TabId, to: TabId, i: nat): map<string, TabId>
    requires i <= |c.keys|
  {
    map x | x in c.m :: if x in c.keys[..i] && c.m[x] == from then to else c.m[x]
  }

  lemma RetargetOneMore(c: OrderedMap<string, TabId>, from: TabId, to: TabId, i: nat)
    requires c.Valid() && i < |c.keys|
    ensures var id := c.keys[i];
      && id in c.m && Retargeted(c, from, to, i)[id] == c.m[id]
      && Retargeted(c, from, to, i + 1)
         == if c.m[id] == from then Retargeted(c, from, to, i)[id := to] else Retargeted(c, from, to, i)
  {
    DistinctPrefix(c.keys, i);
    assert c.keys[..i + 1] == c.keys[..i] + [c.keys[i]];
  }

  /** What has been sent when a loop over the keys has reported its first i child sessions. */
  ghost function Reported(sent: seq<Message>, up: bool, keys: seq<string>, mine: set<string>, i: nat): seq<Message>
    requires i <= |keys|
  {
    if i == 0 then sent
    else
      var before := Reported(sent, up, keys, mine, i - 1);
      if up && keys[i - 1] in mine then before + [Detached(Child(keys[i - 1]))] else before
  }

  lemma {:induction false} ReportedMine(sent: seq<Message>, up: bool, keys: seq<string>, mine: set<string>, i: nat)
    requires i <= |keys|
    ensures Reported(sent, up, keys, mine, i) == if up then sent + ChildDetaches(Select(keys[..i], mine)) else sent
  {
    if i > 0 {
      ReportedMine(sent, up, keys, mine, i - 1);
      assert keys[..i][..i - 1] == keys[..i - 1];
      var ids, last := Select(keys[..i - 1], mine), keys[i - 1];
      assert (ids + [last])[..|ids|] == ids;
      assert sent + (ChildDetaches(ids) + [Detached(Child(last))]) == (sent + ChildDetaches(ids)) + [Detached(Child(last))];
    }
  }

  lemma ReportedAll(sent: seq<Message>, up: bool, keys: seq<string>, mine: set<string>)
    ensures Reported(sent, up, keys, mine, |keys|) == if up then sent + ChildDetaches(Select(keys, mine)) else sent
  {
    ReportedMine(sent, up, keys, mine, |keys|);
    assert keys[..|keys|] == keys;
  }

  lemma TellInTwo(s: State, a: seq<Message>, b: seq<Message>)
    ensures Tell(s, a + b) == if s.relayOpen then (s.sent + a) + b else s.sent
  {
    assert s.sent + (a + b) == (s.sent + a) + b;
  }

  class Worker {
    var nextSession: nat
    var tabs: OrderedMap<TabId, Tab>
    var tabBySession: map<nat, TabId>
    var childSessionToTab: OrderedMap<string, TabId>
    var reattachPending: set<TabId>
    var tabOperationLocks: set<TabId>
    var relayOpen: bool
    // The handlers suspended at an await, the frames sent, and the snapshots stored.
    var awaiting: multiset<Pending>
    var sent: seq<Message>
    var saved: seq<Snapshot>

    /** Every entry of the two ordered tables is listed, once. */
    ghost predicate Valid()
      reads this
    {
      Ordered(View())
    }

    ghost function View(): State
      reads this
    {
      State(Index(nextSession, tabs, tabBySession), childSessionToTab, reattachPending,
            tabOperationLocks, relayOpen, awaiting, sent, saved)
    }

    /** Worker start: empty module state, then rehydration from a stored snapshot, if any. */
    constructor (stored: seq<Snapshot>, from: Option<nat>, alive: set<TabId>)
      ensures Valid()
      ensures View() == Boot(if from.Some? && from.value < |stored|
                             then EMPTY_INDEX.Rehydrate(stored[from.value], alive) else EMPTY_INDEX, stored)
    {
      nextSession, tabs, tabBySession := 1, Empty(), map[];
      childSessionToTab, reattachPending, tabOperationLocks := Empty(), {}, {};
      relayOpen, awaiting, sent, saved := false, multiset{}, [], stored;
      new;
      if from.Some? && from.value < |stored| {
        RehydrateState(stored[from.value], alive);
        RehydrateValid(stored[from.value], alive);
      }
    }

    method RehydrateState(snap: Snapshot, alive: set<TabId>)
      modifies this`nextSession, this`tabs, this`tabBySession
      ensures View() == old(View()).(index := old(View()).index.Rehydrate(snap, alive))
    {
      if snap.nextSession > nextSession {
        nextSession := snap.nextSession;
      }
      RestoreEntries(snap.entries);
      DropInvalid(snap.entries, alive);
    }

    method RestoreEntries(entries: seq<Entry>)
      modifies this`tabs, this`tabBySession
      ensures Index(nextSession, tabs, tabBySession) == old(Index(nextSession, tabs, tabBySession)).RestoreAll(entries)
    {
      ghost var start := Index(nextSession, tabs, tabBySession);
      for i := 0 to |entries|
        invariant Index(nextSession, tabs, tabBySession) == start.RestoreAll(entries[..i])
      {
        assert entries[..i + 1][..i] == entries[..i];
        tabs := tabs.Set(entries[i].tab, TabOf(entries[i]));
        tabBySession := tabBySession[entries[i].session := entries[i].tab];
      }
      assert entries[..|entries|] == entries;
    }

    /** Validation: entries whose tab does not answer are taken out again. */
    method DropInvalid(entries: seq<Entry>, alive: set<TabId>)
      modifies this`tabs, this`tabBySession
      ensures Index(nextSession, tabs, tabBySession) == old(Index(nextSession, tabs, tabBySession)).PruneAll(entries, alive)
    {
      ghost var restored := Index(nextSession, tabs, tabBySession);
      for i := 0 to |entries|
        invariant Index(nextSession, tabs, tabBySession) == restored.PruneAll(entries[..i], alive)
      {
        assert entries[..i + 1][..i] == entries[..i];
        if entries[i].tab !in alive {
          tabs := tabs.Delete(entries[i].tab);
          tabBySession := tabBySession - {entries[i].session};
        }
      }
      assert entries[..|entries|] == entries;
    }

    method PersistState()
      modifies this`saved
      ensures saved == old(saved) + [Index(nextSession, tabs, tabBySession).Save()]
    {
      var entries: seq<Entry> := [];
      for i := 0 to |tabs.keys|
        invariant entries == EntriesOf(tabs.keys[..i], tabs.m)
      {
        assert tabs.keys[..i + 1][..i] == tabs.keys[..i];
        var id := tabs.keys[i];
        if id in tabs.m {
          var tab := tabs.m[id];
          if tab.Connected? && tab.targetId != "" {
            entries := entries + [Entry(id, tab.session, tab.targetId, tab.attachOrder)];
          }
        }
      }
      assert tabs.keys[..|tabs.keys|] == tabs.keys;
      saved := saved + [Snapshot(entries, nextSession)];
    }

    method SendToRelay(msg: Message) returns (ok: bool)
      modifies this`sent
      ensures ok == relayOpen
      ensures sent == if relayOpen then old(sent) + [msg] else old(sent)
    {
      ok := relayOpen;
      if ok {
        sent := sent + [msg];
      }
    }

    method SuspendAt(p: Pending)
      modifies this`awaiting
      ensures awaiting == old(awaiting) + multiset{p}
    {
      awaiting := awaiting + multiset{p};
    }

    method CommitSession(tab: TabId, targetId: string) returns (sid: nat)
      modifies this`nextSession, this`tabs, this`tabBySession
      ensures sid == old(nextSession)
      ensures Index(nextSession, tabs, tabBySession) == old(Index(nextSession, tabs, tabBySession)).Commit(tab, targetId)
    {
      sid := nextSession;
      nextSession := nextSession + 1;
      tabs := tabs.Set(tab, Connected(sid, targetId, sid));
      tabBySession := tabBySession[sid := tab];
    }

    /** The rest of attachTab after its debugger calls; a throw lands in the caller's catch. */
    method FinishAttachTab(tab: TabId, origin: Origin, outcome: Outcome)
      modifies this
      ensures View() == FinishAttach(old(View()), tab, origin, outcome)
    {
      var saved := false;
      if outcome.Target? && outcome.targetId != "" {
        saved := CommitAndAnnounce(tab, outcome.targetId, origin.Reattach? && !origin.relayUp);
      }
      var next := AfterAttach(tab, origin, saved);
      if next.Some? {
        SuspendAt(next.value);
      }
      if GivesUp(origin, saved) {
        reattachPending := reattachPending - {tab};
      }
    }

    method CommitAndAnnounce(tab: TabId, targetId: string, skipAttachedEvent: bool) returns (announced: bool)
      modifies this`nextSession, this`tabs, this`tabBySession, this`sent, this`saved
      ensures announced == (skipAttachedEvent || relayOpen)
      ensures var x := old(Index(nextSession, tabs, tabBySession)).Commit(tab, targetId);
        && Index(nextSession, tabs, tabBySession) == x
        && saved == (if announced then old(saved) + [x.Save()] else old(saved))
      ensures sent == if skipAttachedEvent || !relayOpen then old(sent) else old(sent) + [Attached(old(nextSession))]
    {
      var sid := CommitSession(tab, targetId);
      announced := true;
      if !skipAttachedEvent {
        announced := SendToRelay(Attached(sid));
      }
      if announced {
        PersistState();
      }
    }

    /** Report and forget the child sessions of a tab, oldest first. */
    method DetachChildren(tab: TabId)
      requires childSessionToTab.Valid()
      modifies this`childSessionToTab, this`sent
      ensures childSessionToTab == DropChildren(old(childSessionToTab), tab)
      ensures var mine := ChildrenOf(old(childSessionToTab), tab);
        sent == if relayOpen then old(sent) + ChildDetaches(Select(old(childSessionToTab.keys), mine)) else old(sent)
    {
      var before := childSessionToTab;
      ghost var mine := ChildrenOf(before, tab);
      KillEnds(before, tab);
      for i := 0 to |before.keys|
        invariant childSessionToTab == Remaining(before, tab, i)
        invariant sent == Reported(old(sent), relayOpen, before.keys, mine, i)
      {
        KillOneMore(before, tab, i);
        DetachChild(before.keys[i], tab);
      }
      ReportedAll(old(sent), relayOpen, before.keys, mine);
    }

    method DetachChild(id: string, tab: TabId)
      requires id in childSessionToTab.m
      modifies this`childSessionToTab, this`sent
      ensures childSessionToTab
           == if old(childSessionToTab.m[id]) == tab then old(childSessionToTab).Delete(id) else old(childSessionToTab)
      ensures sent == if relayOpen && old(childSessionToTab.m[id]) == tab then old(sent) + [Detached(Child(id))] else old(sent)
    {
      if childSessionToTab.m[id] == tab {
        var _ := SendToRelay(Detached(Child(id)));
        childSessionToTab := childSessionToTab.Delete(id);
      }
    }

    /** Forget the child sessions of a tab without a report. */
    method ForgetChildren(tab: TabId)
      requires childSessionToTab.Valid()
      modifies this`childSessionToTab
      ensures childSessionToTab == DropChildren(old(childSessionToTab), tab)
    {
      var before := childSessionToTab;
      KillEnds(before, tab);
      for i := 0 to |before.keys|
        invariant childSessionToTab == Remaining(before, tab, i)
      {
        KillOneMore(before, tab, i);
        var id := before.keys[i];
        if childSessionToTab.m[id] == tab {
          childSessionToTab := childSessionToTab.Delete(id);
        }
      }
    }

    method ReportMainDetach(tab: Option<Tab>)
      modifies this`sent
      ensures sent == if relayOpen then old(sent) + MainDetach(tab) else old(sent)
    {
      if tab.Some? && tab.value.Connected? && tab.value.targetId != "" {
        var _ := SendToRelay(Detached(Main(tab.value.session)));
      }
    }

    /** Take a tab and the session it holds out of the tables. */
    method ForgetTab(tabId: TabId)
      modifies this`tabs, this`tabBySession
      ensures Index(nextSession, tabs, tabBySession) == old(Index(nextSession, tabs, tabBySession)).Drop(tabId)
    {
      if tabId in tabs.m && tabs.m[tabId].Connected? {
        tabBySession := tabBySession - {tabs.m[tabId].session};
      }
      tabs := tabs.Delete(tabId);
    }

    /** Clean up a tab that is gone: its child sessions are dropped without a report. */
    method ForgetAndReport(tabId: TabId)
      requires childSessionToTab.Valid()
      modifies this`tabs, this`tabBySession, this`childSessionToTab, this`sent
      ensures Index(nextSession, tabs, tabBySession) == old(Index(nextSession, tabs, tabBySession)).Drop(tabId)
      ensures childSessionToTab == DropChildren(old(childSessionToTab), tabId)
      ensures var tab := old(Index(nextSession, tabs, tabBySession)).Get(tabId);
        sent == if relayOpen then old(sent) + MainDetach(tab) else old(sent)
    {
      var tab := if tabId in tabs.m then Some(tabs.m[tabId]) else None;
      ForgetTab(tabId);
      ForgetChildren(tabId);
      ReportMainDetach(tab);
    }

    /** The frames detachTab sends: the child sessions, oldest first, then the main session. */
    method ReportDetach(tabId: TabId)
      requires childSessionToTab.Valid()
      modifies this`childSessionToTab, this`sent
      ensures childSessionToTab == DropChildren(old(childSessionToTab), tabId)
      ensures var was := old(View());
        sent == Tell(was, ChildDetaches(Select(was.children.keys, ChildrenOf(was.children, tabId))) + MainDetach(was.index.Get(tabId)))
    {
      ghost var was := View();
      var tab := if tabId in tabs.m then Some(tabs.m[tabId]) else None;
      DetachChildren(tabId);
      ReportMainDetach(tab);
      TellInTwo(was, ChildDetaches(Select(was.children.keys, ChildrenOf(was.children, tabId))), MainDetach(tab));
    }

    method Detach(tabId: TabId, byClick: bool)
      requires childSessionToTab.Valid()
      modifies this
      ensures View() == DetachTab(old(View()), tabId, byClick)
    {
      ReportDetach(tabId);
      ForgetTab(tabId);
      SuspendAt(DetachWait(tabId, byClick));
    }

    method OnClicked(tabId: TabId)
      requires childSessionToTab.Valid()
      modifies this
      ensures View() == ClickTab(old(View()), tabId)
    {
      if tabId in tabOperationLocks {
        return;
      }
      tabOperationLocks := tabOperationLocks + {tabId};
      if tabId in reattachPending {
        reattachPending := reattachPending - {tabId};
        tabOperationLocks := tabOperationLocks - {tabId};
        assert tabOperationLocks == old(tabOperationLocks);
        return;
      }
      ghost var locked := View();
      assert locked == old(View()).(locks := old(tabOperationLocks) + {tabId});
      if tabId in tabs.m && tabs.m[tabId].Connected? {
        Detach(tabId, true);
        assert View() == DetachTab(locked, tabId, true);
        return;
      }
      tabs := tabs.Set(tabId, Connecting);
      SuspendAt(ConnectWait(tabId));
    }

    method OnDebuggerEvent(tabId: TabId, source: Option<string>, event: CdpEvent)
      modifies this
      ensures View() == ForwardEvent(old(View()), tabId, source, event)
    {
      if tabId !in tabs.m || !tabs.m[tabId].Connected? {
        return;
      }
      match event {
        case ChildAttached(c) => if c != "" { childSessionToTab := childSessionToTab.Set(c, tabId); }
        case ChildDetached(c) => if c != "" { childSessionToTab := childSessionToTab.Delete(c); }
        case OtherEvent =>
      }
      var _ := SendToRelay(Forwarded(if source.Some? && source.value != "" then Child(source.value) else Main(tabs.m[tabId].session)));
    }

    method OnDebuggerDetach(tabId: TabId, userEnded: bool)
      requires childSessionToTab.Valid()
      modifies this
      ensures View() == StartDebuggerDetach(old(View()), tabId, userEnded)
    {
      if tabId !in tabs.m {
        return;
      }
      if userEnded {
        Detach(tabId, false);
        return;
      }
      SuspendAt(ProbeWait(tabId));
    }

    method OnNavigation(tabId: TabId)
      requires childSessionToTab.Valid()
      modifies this
      ensures View() == NavigationDetach(old(View()), tabId)
    {
      if tabId !in reattachPending {
        ForgetAndReport(tabId);
        reattachPending := reattachPending + {tabId};
        SuspendAt(ReattachSleep(tabId, 0));
      }
    }

    method OnRemoved(tabId: TabId)
      requires childSessionToTab.Valid()
      modifies this
      ensures View() == RemoveTab(old(View()), tabId)
    {
      reattachPending := reattachPending - {tabId};
      if tabId in tabs.m {
        ForgetAndReport(tabId);
        PersistState();
        ghost var want := RemoveTab(old(View()), tabId);
        assert View().index == want.index;
        assert saved == want.saved && childSessionToTab == want.children;
      }
    }

    method OnReplaced(added: TabId, removed: TabId)
      requires childSessionToTab.Valid()
      modifies this
      ensures View() == ReplaceTab(old(View()), added, removed)
    {
      if removed in tabs.m {
        MoveTabAndChildren(added, removed);
        ghost var moved := View();
        PersistState();
        assert View() == Persist(moved);
      }
    }

    method MoveTabAndChildren(added: TabId, removed: TabId)
      requires removed in tabs.m && childSessionToTab.Valid()
      modifies this`tabs, this`tabBySession, this`childSessionToTab
      ensures View() == old(View()).(index := old(View()).index.Replace(added, removed),
                                     children := MoveChildren(old(childSessionToTab), removed, added))
    {
      MoveTab(added, removed);
      RetargetChildren(removed, added);
    }

    method MoveTab(added: TabId, removed: TabId)
      requires removed in tabs.m
      modifies this`tabs, this`tabBySession
      ensures Index(nextSession, tabs, tabBySession) == old(Index(nextSession, tabs, tabBySession)).Replace(added, removed)
    {
      var tab := tabs.m[removed];
      tabs := tabs.Delete(removed);
      tabs := tabs.Set(added, tab);
      if tab.Connected? {
        tabBySession := tabBySession[tab.session := added];
      }
    }

    method RetargetChildren(from: TabId, to: TabId)
      requires childSessionToTab.Valid()
      modifies this`childSessionToTab
      ensures childSessionToTab == MoveChildren(old(childSessionToTab), from, to)
    {
      var before := childSessionToTab;
      for i := 0 to |before.keys|
        invariant childSessionToTab.keys == before.keys
        invariant childSessionToTab.m == Retargeted(before, from, to, i)
      {
        RetargetOneMore(before, from, to, i);
        if childSessionToTab.m[before.keys[i]] == from {
          childSessionToTab := childSessionToTab.Set(before.keys[i], to);
        }
      }
      assert before.keys[..|before.keys|] == before.keys;
    }

    method WakeReattachLoop(t: TabId, n: nat)
      modifies this`reattachPending, this`awaiting
      ensures View() == WakeReattach(old(View()), t, n)
    {
      if t in reattachPending {
        SuspendAt(ReattachProbe(t, n));
      }
    }

    /** The catch of the toggle: the tab is forgotten, its index entry is not. */
    method ClickFailed(t: TabId)
      modifies this`tabs, this`tabOperationLocks
      ensures View() == Continue(old(View()), ClickError(t), Failed)
    {
      tabs := tabs.Delete(t);
      tabOperationLocks := tabOperationLocks - {t};
    }

    method AnnounceValidated(t: TabId, info: Tab, outcome: Outcome)
      modifies this`tabs, this`tabBySession, this`awaiting
      ensures View() == Continue(old(View()), AnnounceValidate(t, info), outcome)
    {
      if !outcome.Failed? {
        SuspendAt(AnnounceDescribe(t, info));
      } else {
        tabs := tabs.Delete(t);
        if info.Connected? { tabBySession := tabBySession - {info.session}; }
      }
    }

    method ReattachProbed(t: TabId, n: nat, outcome: Outcome)
      modifies this`reattachPending, this`awaiting
      ensures View() == Continue(old(View()), ReattachProbe(t, n), outcome)
    {
      if outcome.Failed? {
        reattachPending := reattachPending - {t};
      } else {
        SuspendAt(AttachWait(t, Reattach(n, relayOpen)));
      }
    }

    method Resumed(p: Pending, outcome: Outcome)
      requires childSessionToTab.Valid()
      modifies this
      ensures View() == Continue(old(View()), p, outcome)
    {
      match p {
        case ConnectWait(t) =>
          SuspendAt(if outcome.Failed? then ClickError(t) else AttachWait(t, Click));
        case AttachWait(t, origin) => FinishAttachTab(t, origin, outcome);
        case ClickError(t) => ClickFailed(t);
        case ClickFinally(t) => tabOperationLocks := tabOperationLocks - {t};
        case DetachWait(t, byClick) =>
          PersistState();
          if byClick { SuspendAt(ClickFinally(t)); }
        case ProbeWait(t) =>
          if outcome.Failed? { Detach(t, false); } else { OnNavigation(t); }
        case ReattachSleep(t, n) => WakeReattachLoop(t, n);
        case ReattachProbe(t, n) => ReattachProbed(t, n, outcome);
        case ReattachSaved(t) => reattachPending := reattachPending - {t};
        case AnnounceValidate(t, info) => AnnounceValidated(t, info, outcome);
        case AnnounceDescribe(t, info) =>
          if info.Connected? { var _ := SendToRelay(Attached(info.session)); }
      }
    }

    /** The event loop: every event within a worker lifetime takes the machine's step. */
    method Handle(e: Event)
      requires Valid() && !e.Restart?
      modifies this
      ensures View() == Next(old(View()), e) && Valid()
    {
      OrderedStep(View(), e);
      match e {
        case Clicked(t) => OnClicked(t);
        case TabCreated(t) => SuspendAt(AttachWait(t, Create));
        case Resume(p, outcome) =>
          if p in awaiting {
            awaiting := awaiting - multiset{p};
            Resumed(p, outcome);
          }
        case DebuggerEvent(t, source, event) => OnDebuggerEvent(t, source, event);
        case DebuggerDetached(t, userEnded) => OnDebuggerDetach(t, userEnded);
        case TabRemoved(t) => OnRemoved(t);
        case TabReplaced(added, removed) => OnReplaced(added, removed);
        case AnnounceNext(t) =>
          if t in tabs.m && tabs.m[t].Connected? && tabs.m[t].targetId != "" {
            SuspendAt(AnnounceValidate(t, tabs.m[t]));
          }
        case AnnounceEnd => PersistState();
        case SocketOpened => relayOpen := true;
        case SocketLost => relayOpen := false;
        case RelayClosed => relayOpen, reattachPending := false, {};
      }
    }

    method GetTabByTargetId(targetId: string) returns (tab: Option<TabId>)
      ensures tab == TabWithTarget(tabs.keys, tabs.m, targetId)
      ensures tab.Some? ==> tab.value in tabs.m && tabs.m[tab.value].Connected? && tabs.m[tab.value].targetId == targetId
    {
      for i := 0 to |tabs.keys|
        invariant TabWithTarget(tabs.keys, tabs.m, targetId) == TabWithTarget(tabs.keys[i..], tabs.m, targetId)
      {
        var id := tabs.keys[i];
        if id in tabs.m && tabs.m[id].Connected? && tabs.m[id].targetId == targetId {
          return Some(id);
        }
      }
      return None;
    }

    method FirstAttachedTab() returns (tab: Option<TabId>)
      requires tabs.Matched()
      ensures tab == FirstConnected(tabs.keys, tabs.m)
      ensures tab.None? <==> forall t :: t in tabs.m ==> !tabs.m[t].Connected?
    {
      for i := 0 to |tabs.keys|
        invariant FirstConnected(tabs.keys, tabs.m) == FirstConnected(tabs.keys[i..], tabs.m)
        invariant forall k :: 0 <= k < i ==> !tabs.m[tabs.keys[k]].Connected?
      {
        if tabs.m[tabs.keys[i]].Connected? {
          return Some(tabs.keys[i]);
        }
      }
      forall t | t in tabs.m ensures !tabs.m[t].Connected? {
        assert t in tabs.keys;
      }
      return None;
    }

    /** The routing at the head of handleForwardCdpCommand. */
    method RouteCommand(session: Option<SessionId>, targetId: Option<string>) returns (tab: Option<TabId>)
      requires tabs.Matched()
      ensures tab == Route(View(), session, targetId)
    {
      if session.Some? {
        match session.value {
          case Main(n) => if n in tabBySession { return Some(tabBySession[n]); }
          case Child(c) => if c in childSessionToTab.m { return Some(childSessionToTab.m[c]); }
        }
      }
      if targetId.Some? && targetId.value != "" {
        var byTarget := GetTabByTargetId(targetId.value);
        if byTarget.Some? {
          return byTarget;
        }
      }
      tab := FirstAttachedTab();
    }
  }
}
