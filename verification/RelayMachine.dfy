/** The Chrome relay extension as a state machine. One event is one stretch of code between
    two awaits; a suspended handler is a `Pending` value waiting in `awaiting`, and any of
    them may resume next, so every interleaving of handlers is a sequence of events. */
module RelayMachine {
  import opened Options
  import opened OrderedMaps

  // Chrome numbers tabs from 1, so the code's falsiness tests on tab ids never fire.
  newtype TabId = t: int | 0 < t witness 1

  // Main sessions are minted as `cb-tab-<n>`; child ids come from the debugger.
  datatype SessionId = Main(n: nat) | Child(id: string)

  datatype Tab = Connecting | Connected(session: nat, targetId: string, attachOrder: nat)

  datatype Entry = Entry(tab: TabId, session: nat, targetId: string, attachOrder: nat)

  datatype Snapshot = Snapshot(entries: seq<Entry>, nextSession: nat)

  datatype Message = Attached(session: nat) | Detached(id: SessionId) | Forwarded(id: SessionId)

  datatype Origin = Click | Create | Reattach(attempt: nat, relayUp: bool)

  datatype Pending =
    | ConnectWait(tab: TabId)
    | AttachWait(tab: TabId, origin: Origin)
    | ClickError(tab: TabId)
    | ClickFinally(tab: TabId)
    | DetachWait(tab: TabId, byClick: bool)
    | ProbeWait(tab: TabId)
    | ReattachSleep(tab: TabId, attempt: nat)
    | ReattachProbe(tab: TabId, attempt: nat)
    | ReattachSaved(tab: TabId)
    | AnnounceValidate(tab: TabId, info: Tab)
    | AnnounceDescribe(tab: TabId, info: Tab)

  // How an awaited call ended; Target carries the id Target.getTargetInfo returned.
  datatype Outcome = Failed | Ok | Target(targetId: string)

  datatype CdpEvent = ChildAttached(child: string) | ChildDetached(child: string) | OtherEvent

  datatype Event =
    | Clicked(tab: TabId)
    | TabCreated(tab: TabId)
    | Resume(p: Pending, outcome: Outcome)
    | DebuggerEvent(tab: TabId, source: Option<string>, event: CdpEvent)
    | DebuggerDetached(tab: TabId, userEnded: bool)
    | TabRemoved(tab: TabId)
    | TabReplaced(added: TabId, removed: TabId)
    | AnnounceNext(tab: TabId)
    | AnnounceEnd
    | SocketOpened
    | SocketLost
    | RelayClosed
    | Restart(from: Option<nat>, alive: set<TabId>)

  const REATTACH_ATTEMPTS := 5

  /** Who holds which session: the tab table, its inverse index, and the session counter. */
  datatype Index = Index(nextSession: nat, tabs: OrderedMap<TabId, Tab>, tabBySession: map<nat, TabId>) {

    function Get(tab: TabId): Option<Tab> {
      if tab in tabs.m then Some(tabs.m[tab]) else None
    }

    predicate Occupied(tab: TabId) {
      tab in tabs.m && tabs.m[tab].Connected?
    }

    /** Give the tab the next session. */
    function Commit(tab: TabId, targetId: string): Index {
      Index(nextSession + 1,
            tabs.Set(tab, Connected(nextSession, targetId, nextSession)),
            tabBySession[nextSession := tab])
    }

    /** Forget the tab, and the index entry of the session it holds. */
    function Drop(tab: TabId): Index {
      Index(nextSession, tabs.Delete(tab),
            if Occupied(tab) then tabBySession - {tabs.m[tab].session} else tabBySession)
    }

    /** Forget the tab but not its index entry. */
    function Abandon(tab: TabId): Index {
      Index(nextSession, tabs.Delete(tab), tabBySession)
    }

    /** Forget the tab, and the index entry of the session it held when it was looked at. */
    function Condemn(tab: TabId, info: Tab): Index {
      Index(nextSession, tabs.Delete(tab), if info.Connected? then tabBySession - {info.session} else tabBySession)
    }

    function Connect(tab: TabId): Index {
      Index(nextSession, tabs.Set(tab, Connecting), tabBySession)
    }

    function Replace(added: TabId, removed: TabId): Index {
      if removed !in tabs.m then this
      else
        var tab := tabs.m[removed];
        Index(nextSession, tabs.Delete(removed).Set(added, tab),
              if tab.Connected? then tabBySession[tab.session := added] else tabBySession)
    }

    function RestoreEntry(e: Entry): Index {
      Index(nextSession, tabs.Set(e.tab, TabOf(e)), tabBySession[e.session := e.tab])
    }

    function RestoreAll(entries: seq<Entry>): Index {
      if entries == [] then this
      else RestoreAll(entries[..|entries| - 1]).RestoreEntry(entries[|entries| - 1])
    }

    function PruneEntry(e: Entry, alive: set<TabId>): Index {
      if e.tab in alive then this
      else Index(nextSession, tabs.Delete(e.tab), tabBySession - {e.session})
    }

    function PruneAll(entries: seq<Entry>, alive: set<TabId>): Index {
      if entries == [] then this
      else PruneAll(entries[..|entries| - 1], alive).PruneEntry(entries[|entries| - 1], alive)
    }

    /** Restore every saved entry, then drop the ones whose validation fails. */
    function Rehydrate(snap: Snapshot, alive: set<TabId>): Index {
      this.(nextSession := if snap.nextSession > nextSession then snap.nextSession else nextSession)
      .RestoreAll(snap.entries)
      .PruneAll(snap.entries, alive)
    }

    function Save(): Snapshot {
      Snapshot(EntriesOf(tabs.keys, tabs.m), nextSession)
    }
  }

  datatype State = State(
    index: Index,
    children: OrderedMap<string, TabId>,
    reattachPending: set<TabId>,
    locks: set<TabId>,
    relayOpen: bool,
    awaiting: multiset<Pending>,
    sent: seq<Message>,
    saved: seq<Snapshot>)

  const EMPTY_INDEX := Index(1, Empty(), map[])

  function Boot(index: Index, saved: seq<Snapshot>): State {
    State(index, Empty(), {}, {}, false, multiset{}, [], saved)
  }

  function Send(s: State, msg: Message): State {
    if s.relayOpen then s.(sent := s.sent + [msg]) else s
  }

  function Suspend(s: State, p: Pending): State {
    s.(awaiting := s.awaiting + multiset{p})
  }

  // ---- persistence ----

  predicate Persistable(tab: Tab) {
    tab.Connected? && tab.targetId != ""
  }

  function EntryOf(id: TabId, tab: Tab): Entry
    requires tab.Connected?
  {
    Entry(id, tab.session, tab.targetId, tab.attachOrder)
  }

  function TabOf(e: Entry): Tab {
    Connected(e.session, e.targetId, e.attachOrder)
  }

  function EntriesOf(keys: seq<TabId>, m: map<TabId, Tab>): seq<Entry> {
    if keys == [] then []
    else
      var front, last := EntriesOf(keys[..|keys| - 1], m), keys[|keys| - 1];
      if last in m && Persistable(m[last]) then front + [EntryOf(last, m[last])] else front
  }

  function Persist(s: State): State {
    s.(saved := s.saved + [s.index.Save()])
  }

  // ---- child sessions ----

  function ChildrenOf(children: OrderedMap<string, TabId>, tab: TabId): set<string> {
    set c | c in children.m && children.m[c] == tab
  }

  function DropChildren(children: OrderedMap<string, TabId>, tab: TabId): OrderedMap<string, TabId> {
    children.Restrict(children.m.Keys - ChildrenOf(children, tab))
  }

  function MoveChildren(children: OrderedMap<string, TabId>, from: TabId, to: TabId): OrderedMap<string, TabId> {
    OrderedMap(children.keys, map c | c in children.m :: if children.m[c] == from then to else children.m[c])
  }

  function ChildDetaches(ids: seq<string>): (r: seq<Message>)
    ensures |r| == |ids|
    ensures forall i :: 0 <= i < |r| ==> r[i] == Detached(Child(ids[i]))
  {
    if ids == [] then [] else ChildDetaches(ids[..|ids| - 1]) + [Detached(Child(ids[|ids| - 1]))]
  }

  // ---- attaching ----

  /** Where the caller of attachTab resumes: its catch, or the code after it. */
  function AfterAttach(tab: TabId, origin: Origin, saved: bool): Option<Pending> {
    match origin
    case Click => Some(if saved then ClickFinally(tab) else ClickError(tab))
    case Create => None
    case Reattach(n, _) =>
      if saved then Some(ReattachSaved(tab))
      else if n + 1 < REATTACH_ATTEMPTS then Some(ReattachSleep(tab, n + 1)) else None
  }

  /** The reattach loop ends with its last attempt. */
  predicate GivesUp(origin: Origin, saved: bool) {
    origin.Reattach? && !saved && origin.attempt + 1 >= REATTACH_ATTEMPTS
  }

  function Plus(awaiting: multiset<Pending>, p: Option<Pending>): multiset<Pending> {
    if p.Some? then awaiting + multiset{p.value} else awaiting
  }

  function ReturnFromAttach(s: State, tab: TabId, origin: Origin, saved: bool): State {
    s.(awaiting := Plus(s.awaiting, AfterAttach(tab, origin, saved)),
       reattachPending := if GivesUp(origin, saved) then s.reattachPending - {tab} else s.reattachPending)
  }

  /** The rest of attachTab once the debugger calls have returned. */
  function FinishAttach(s: State, tab: TabId, origin: Origin, outcome: Outcome): State {
    if !outcome.Target? || outcome.targetId == "" then ReturnFromAttach(s, tab, origin, false)
    else
      var committed := s.(index := s.index.Commit(tab, outcome.targetId));
      if origin.Reattach? && !origin.relayUp then ReturnFromAttach(Persist(committed), tab, origin, true)
      else if !s.relayOpen then ReturnFromAttach(committed, tab, origin, false)
      else ReturnFromAttach(Persist(Send(committed, Attached(s.index.nextSession))), tab, origin, true)
  }

  // ---- detaching ----

  /** What detaching a tab tells the relay about its main session. */
  function MainDetach(tab: Option<Tab>): seq<Message> {
    if tab.Some? && Persistable(tab.value) then [Detached(Main(tab.value.session))] else []
  }

  function Tell(s: State, msgs: seq<Message>): seq<Message> {
    if s.relayOpen then s.sent + msgs else s.sent
  }

  /** detachTab up to its first await: children first, then the main session. */
  function DetachTab(s: State, tab: TabId, byClick: bool): State {
    var gone := Select(s.children.keys, ChildrenOf(s.children, tab));
    s.(index := s.index.Drop(tab),
       children := DropChildren(s.children, tab),
       sent := Tell(s, ChildDetaches(gone) + MainDetach(s.index.Get(tab))),
       awaiting := s.awaiting + multiset{DetachWait(tab, byClick)})
  }

  /** onDebuggerDetach after the tab proved to be alive on an ordinary page. */
  function NavigationDetach(s: State, tab: TabId): State {
    if tab in s.reattachPending then s
    else
      s.(index := s.index.Drop(tab),
         children := DropChildren(s.children, tab),
         sent := Tell(s, MainDetach(s.index.Get(tab))),
         reattachPending := s.reattachPending + {tab},
         awaiting := s.awaiting + multiset{ReattachSleep(tab, 0)})
  }

  function RemoveTab(s: State, tab: TabId): State {
    if tab !in s.index.tabs.m then s.(reattachPending := s.reattachPending - {tab})
    else
      Persist(s.(index := s.index.Drop(tab),
                 children := DropChildren(s.children, tab),
                 sent := Tell(s, MainDetach(s.index.Get(tab))),
                 reattachPending := s.reattachPending - {tab}))
  }

  function ReplaceTab(s: State, added: TabId, removed: TabId): State {
    if removed !in s.index.tabs.m then s
    else
      Persist(s.(index := s.index.Replace(added, removed),
                 children := MoveChildren(s.children, removed, added)))
  }

  // ---- handlers ----

  /** connectOrToggleForActiveTab up to its next await. */
  function ClickTab(s: State, tab: TabId): State {
    if tab in s.locks then s
    else if tab in s.reattachPending then s.(reattachPending := s.reattachPending - {tab})
    else
      var locked := s.(locks := s.locks + {tab});
      if s.index.Occupied(tab) then DetachTab(locked, tab, true)
      else Suspend(locked.(index := s.index.Connect(tab)), ConnectWait(tab))
  }

  /** onDebuggerEvent: track child sessions and forward the event; an empty session id counts as none. */
  function ForwardEvent(s: State, tab: TabId, source: Option<string>, event: CdpEvent): State {
    if !s.index.Occupied(tab) then s
    else
      var tracked := match event
        case ChildAttached(c) => if c == "" then s.children else s.children.Set(c, tab)
        case ChildDetached(c) => if c == "" then s.children else s.children.Delete(c)
        case OtherEvent => s.children;
      var id := if source.Some? && source.value != "" then Child(source.value) else Main(s.index.tabs.m[tab].session);
      s.(children := tracked, sent := Tell(s, [Forwarded(id)]))
  }

  function StartDebuggerDetach(s: State, tab: TabId, userEnded: bool): State {
    if tab !in s.index.tabs.m then s
    else if userEnded then DetachTab(s, tab, false)
    else Suspend(s, ProbeWait(tab))
  }

  /** The reattach loop after its delay. */
  function WakeReattach(s: State, tab: TabId, attempt: nat): State {
    if tab !in s.reattachPending then s else Suspend(s, ReattachProbe(tab, attempt))
  }

  function Continue(s: State, p: Pending, outcome: Outcome): State {
    match p
    case ConnectWait(t) =>
      Suspend(s, if outcome.Failed? then ClickError(t) else AttachWait(t, Click))
    case AttachWait(t, origin) => FinishAttach(s, t, origin, outcome)
    case ClickError(t) => s.(index := s.index.Abandon(t), locks := s.locks - {t})
    case ClickFinally(t) => s.(locks := s.locks - {t})
    case DetachWait(t, byClick) =>
      if byClick then Suspend(Persist(s), ClickFinally(t)) else Persist(s)
    case ProbeWait(t) => if outcome.Failed? then DetachTab(s, t, false) else NavigationDetach(s, t)
    case ReattachSleep(t, n) => WakeReattach(s, t, n)
    case ReattachProbe(t, n) =>
      if outcome.Failed? then s.(reattachPending := s.reattachPending - {t})
      else Suspend(s, AttachWait(t, Reattach(n, s.relayOpen)))
    case ReattachSaved(t) => s.(reattachPending := s.reattachPending - {t})
    case AnnounceValidate(t, info) =>
      if outcome.Failed? then s.(index := s.index.Condemn(t, info)) else Suspend(s, AnnounceDescribe(t, info))
    case AnnounceDescribe(t, info) => if info.Connected? then Send(s, Attached(info.session)) else s
  }

  function RestartFrom(s: State, from: Option<nat>, alive: set<TabId>): State {
    Boot(if from.Some? && from.value < |s.saved| then EMPTY_INDEX.Rehydrate(s.saved[from.value], alive)
         else EMPTY_INDEX, s.saved)
  }

  /** One event; a resumption of something that is not waiting does nothing. */
  function Next(s: State, e: Event): State {
    match e
    case Clicked(t) => ClickTab(s, t)
    case TabCreated(t) => Suspend(s, AttachWait(t, Create))
    case Resume(p, outcome) =>
      if p in s.awaiting then Continue(s.(awaiting := s.awaiting - multiset{p}), p, outcome) else s
    case DebuggerEvent(t, source, event) => ForwardEvent(s, t, source, event)
    case DebuggerDetached(t, userEnded) => StartDebuggerDetach(s, t, userEnded)
    case TabRemoved(t) => RemoveTab(s, t)
    case TabReplaced(added, removed) => ReplaceTab(s, added, removed)
    case AnnounceNext(t) =>
      var tab := s.index.Get(t);
      if tab.Some? && Persistable(tab.value) then Suspend(s, AnnounceValidate(t, tab.value)) else s
    case AnnounceEnd => Persist(s)
    case SocketOpened => s.(relayOpen := true)
    case SocketLost => s.(relayOpen := false)
    case RelayClosed => s.(relayOpen := false, reattachPending := {})
    case Restart(from, alive) => RestartFrom(s, from, alive)
  }

  /** A run from the first start of the extension, with nothing saved yet. */
  function Run(events: seq<Event>): State {
    if events == [] then Boot(EMPTY_INDEX, [])
    else Next(Run(events[..|events| - 1]), events[|events| - 1])
  }

  // ---- routing of relay commands ----

  function TabWithTarget(keys: seq<TabId>, m: map<TabId, Tab>, targetId: string): Option<TabId> {
    if keys == [] then None
    else if keys[0] in m && m[keys[0]].Connected? && m[keys[0]].targetId == targetId then Some(keys[0])
    else TabWithTarget(keys[1..], m, targetId)
  }

  function FirstConnected(keys: seq<TabId>, m: map<TabId, Tab>): Option<TabId> {
    if keys == [] then None
    else if keys[0] in m && m[keys[0]].Connected? then Some(keys[0])
    else FirstConnected(keys[1..], m)
  }

  function TabBySession(s: State, id: SessionId): Option<TabId> {
    match id
    case Main(n) => if n in s.index.tabBySession then Some(s.index.tabBySession[n]) else None
    case Child(c) => if c in s.children.m then Some(s.children.m[c]) else None
  }

  /** The tab a forwarded command goes to: its session's, else its target's, else the first
      connected one. */
  function Route(s: State, session: Option<SessionId>, targetId: Option<string>): Option<TabId> {
    var bySession := if session.Some? then TabBySession(s, session.value) else None;
    var byTarget := if targetId.Some? && targetId.value != ""
                    then TabWithTarget(s.index.tabs.keys, s.index.tabs.m, targetId.value) else None;
    if bySession.Some? then bySession
    else if byTarget.Some? then byTarget
    else FirstConnected(s.index.tabs.keys, s.index.tabs.m)
  }
}
