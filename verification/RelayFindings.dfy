/** What detaching promises beyond the invariant, and concrete runs that show where tempting
    stronger claims about the relay extension fail. */
module RelayFindings {
  import opened Options
  import opened OrderedMaps
  import opened RelayMachine
  import opened RelaySafety
  import opened RelayIndex
  import opened RelayReports

  // ---- what a detach reports ----

  /** No trace of a detached tab stays, and the other tabs keep everything. */
  lemma DetachSettles(s: State, tab: TabId, byClick: bool)
    ensures var r := DetachTab(s, tab, byClick);
      && tab !in r.index.tabs.m
      && (forall t :: t != tab ==> r.index.Get(t) == s.index.Get(t))
      && (forall c :: c in r.children.m <==> c in s.children.m && s.children.m[c] != tab)
      && (forall c :: c in r.children.m ==> r.children.m[c] == s.children.m[c])
  {
  }

  ghost predicate ReportsDetach(told: seq<Message>, s: State, tab: TabId) {
    && Distinct(told)
    && (forall c :: Detached(Child(c)) in told <==> c in s.children.m && s.children.m[c] == tab)
    && (forall n: nat :: Detached(Main(n)) in told <==> Holds(s.index, tab, n))
    && (s.index.Occupied(tab) ==> told != [] && told[|told| - 1] == Detached(Main(s.index.tabs.m[tab].session)))
    && (forall msg :: msg in told ==> msg.Detached?)
  }

  /** With the relay up, detaching a tab reports each of its child sessions once, then its own
      session, and nothing else. */
  lemma DetachReports(s: State, tab: TabId, byClick: bool)
    requires Inv(s) && Ordered(s) && s.relayOpen
    ensures exists told :: DetachTab(s, tab, byClick).sent == s.sent + told && ReportsDetach(told, s, tab)
  {
    var gone := Select(s.children.keys, ChildrenOf(s.children, tab));
    var ids, main := ChildDetaches(gone), MainDetach(s.index.Get(tab));
    SelectDistinct(s.children.keys, ChildrenOf(s.children, tab));
    ReportDistinct(gone, main);
    forall c ensures Detached(Child(c)) in ids + main <==> c in gone {
      if c in gone {
        var i :| 0 <= i < |gone| && gone[i] == c;
        assert (ids + main)[i] == Detached(Child(c));
      }
    }
    if s.index.Occupied(tab) {
      assert main == [Detached(Main(s.index.tabs.m[tab].session))];
    }
    assert ReportsDetach(ids + main, s, tab);
  }

  lemma ReportDistinct(gone: seq<string>, main: seq<Message>)
    requires Distinct(gone) && |main| <= 1 && (forall c :: Detached(Child(c)) !in main)
    ensures Distinct(ChildDetaches(gone) + main)
  {
    var told := ChildDetaches(gone) + main;
    forall i, j | 0 <= i < j < |told| ensures At(told, i) != At(told, j) {
      if j < |gone| {
        assert At(gone, i) != At(gone, j);
      }
    }
  }

  // ---- late announcements ----

  /** It happens to every attached tab that is re-announced with the relay up, when a detach slips
      in while its target is being described. */
  lemma AnnouncedAfterDetach(s: State, s1: State, s2: State, s3: State, t: TabId)
    requires Inv(s) && Ordered(s) && s.index.Occupied(t) && s.relayOpen
    requires s1 == Next(s, AnnounceNext(t)) && s2 == Next(s1, Resume(AnnounceValidate(t, s.index.tabs.m[t]), Ok))
    requires s3 == Next(s2, DebuggerDetached(t, true))
    ensures AnnouncesDetached(s3, Resume(AnnounceDescribe(t, s.index.tabs.m[t]), Ok))
  {
    var info := s.index.tabs.m[t];
    AnnounceStarted(s, t);
    JudgedWell(s1, t, info);
    DetachTold(s2, t);
    StepKeeps(s, AnnounceNext(t));
    StepKeeps(s1, Resume(AnnounceValidate(t, info), Ok));
    StepKeeps(s2, DebuggerDetached(t, true));
    StepAnnouncesDetached(s3, Resume(AnnounceDescribe(t, info), Ok));
  }

  lemma StepKeeps(s: State, e: Event)
    requires Inv(s) && Ordered(s)
    ensures Inv(Next(s, e)) && Ordered(Next(s, e))
  {
    NextKeeps(s, e);
    OrderedStep(s, e);
  }

  lemma JudgedWell(s: State, t: TabId, info: Tab)
    requires AnnounceValidate(t, info) in s.awaiting
    ensures var r := Next(s, Resume(AnnounceValidate(t, info), Ok));
      r.index == s.index && r.relayOpen == s.relayOpen && AnnounceDescribe(t, info) in r.awaiting
  {
  }

  // ---- gaps in the index ----

  lemma {:induction false} SelectHead<T(!new)>(xs: seq<T>, keep: set<T>)
    requires xs != [] && xs[0] in keep
    ensures Select(xs, keep) != [] && Select(xs, keep)[0] == xs[0]
  {
    if |xs| > 1 {
      SelectHead(xs[..|xs| - 1], keep);
    }
  }

  /** The oldest attached tab. */
  predicate First(x: Index, first: TabId) {
    x.Occupied(first) && x.tabs.keys != [] && x.tabs.keys[0] == first
  }

  lemma MovedKeepsFirst(x: Index, first: TabId, t: TabId, added: TabId)
    requires First(x, first)
    requires t in x.tabs.m && t != first && added != first
    ensures First(x.Replace(added, t), first)
  {
    SelectHead(x.tabs.keys, x.tabs.m.Keys - {t});
  }

  lemma CondemnedKeepsFirst(x: Index, first: TabId, t: TabId, info: Tab)
    requires First(x, first) && t != first
    ensures First(x.Condemn(t, info), first)
  {
    SelectHead(x.tabs.keys, x.tabs.m.Keys - {t});
  }

  /** A tab that is replaced while its validation is awaited keeps its session but loses its
      place in the index; commands for the session then go to the first attached tab. */
  lemma MisroutedAfterReplace(s: State, s1: State, s2: State, s3: State, first: TabId, t: TabId, added: TabId)
    requires Inv(s) && First(s.index, first)
    requires s.index.Occupied(t) && t != first && added !in s.index.tabs.m
    requires s1 == Next(s, AnnounceNext(t)) && s2 == Next(s1, TabReplaced(added, t))
    requires s3 == Next(s2, Resume(AnnounceValidate(t, s.index.tabs.m[t]), Failed))
    ensures Holds(s3.index, added, s.index.tabs.m[t].session)
    ensures Route(s3, Some(Main(s.index.tabs.m[t].session)), None) == Some(first)
  {
    var info := s.index.tabs.m[t];
    MovedWhileJudged(s, s1, s2, t, added);
    MovedKeepsFirst(s.index, first, t, added);
    CondemnedNext(s2, t, info);
    CondemnedKeepsFirst(s2.index, first, t, info);
    FirstRoute(s3, first, info.session);
  }

  lemma MovedWhileJudged(s: State, s1: State, s2: State, t: TabId, added: TabId)
    requires s.index.Occupied(t) && Tidy(s.index)
    requires s1 == Next(s, AnnounceNext(t)) && s2 == Next(s1, TabReplaced(added, t))
    ensures s2.index == s.index.Replace(added, t) && AnnounceValidate(t, s.index.tabs.m[t]) in s2.awaiting
  {
    AnnounceStarted(s, t);
    ReplacedOnly(s1, added, t);
  }

  lemma AnnounceStarted(s: State, t: TabId)
    requires s.index.Occupied(t) && Tidy(s.index)
    ensures Next(s, AnnounceNext(t)) == s.(awaiting := s.awaiting + multiset{AnnounceValidate(t, s.index.tabs.m[t])})
  {
  }

  lemma ReplacedOnly(s: State, added: TabId, removed: TabId)
    ensures var r := Next(s, TabReplaced(added, removed));
      r.index == s.index.Replace(added, removed) && r.awaiting == s.awaiting
  {
  }

  lemma FirstRoute(s: State, first: TabId, n: nat)
    requires First(s.index, first) && n !in s.index.tabBySession
    ensures Route(s, Some(Main(n)), None) == Some(first)
  {
  }

  lemma CondemnedNext(s: State, t: TabId, info: Tab)
    requires AnnounceValidate(t, info) in s.awaiting
    ensures Next(s, Resume(AnnounceValidate(t, info), Failed)).index == s.index.Condemn(t, info)
  {
  }

  /** A click whose relay connection is lost again before the tab is announced leaves its session
      in the index, and commands for that session go to a tab that is not attached. */
  lemma StaleAfterFailedClick(s: State, t: TabId)
    requires Inv(s) && t !in s.locks && t !in s.reattachPending && !s.index.Occupied(t)
    ensures var n := s.index.nextSession;
      var connected := Next(Next(Next(s, Clicked(t)), SocketOpened), Resume(ConnectWait(t), Ok));
      var attached := Next(Next(connected, SocketLost), Resume(AttachWait(t, Click), Target("a")));
      var r := Next(attached, Resume(ClickError(t), Ok));
      t !in r.index.tabs.m && Route(r, Some(Main(n)), None) == Some(t)
  {
    ClickConnects(s, t);
    var connected := Next(Next(Next(s, Clicked(t)), SocketOpened), Resume(ConnectWait(t), Ok));
    AttachFails(connected, t);
    AbandonedNext(Next(Next(connected, SocketLost), Resume(AttachWait(t, Click), Target("a"))), t);
  }

  lemma AttachFails(s: State, t: TabId)
    requires AttachWait(t, Click) in s.awaiting
    ensures var r := Next(Next(s, SocketLost), Resume(AttachWait(t, Click), Target("a")));
      ClickError(t) in r.awaiting && r.index == s.index.Commit(t, "a")
  {
    var lost := Next(s, SocketLost);
    assert lost.awaiting == s.awaiting && lost.index == s.index && !lost.relayOpen;
  }

  lemma AbandonedNext(s: State, t: TabId)
    requires ClickError(t) in s.awaiting
    ensures Next(s, Resume(ClickError(t), Ok)).index == s.index.Abandon(t)
  {
  }

  lemma ClickConnects(s: State, t: TabId)
    requires t !in s.locks && t !in s.reattachPending && !s.index.Occupied(t)
    ensures var r := Next(Next(Next(s, Clicked(t)), SocketOpened), Resume(ConnectWait(t), Ok));
      AttachWait(t, Click) in r.awaiting && r.index == s.index.Connect(t)
  {
    var s1 := Next(s, Clicked(t));
    assert s1.awaiting == s.awaiting + multiset{ConnectWait(t)} && s1.index == s.index.Connect(t);
    var s2 := Next(s1, SocketOpened);
    assert s2.awaiting == s1.awaiting && s2.index == s1.index;
  }

  /** The once-only report of a detach does not survive a restart: a worker killed while the
      debugger is being detached comes back with the tab and reports the session again. */
  lemma DetachedAgainAfterRestart(s: State, t: TabId, gone: State, back: State)
    requires Inv(s) && Ordered(s) && s.index.Occupied(t) && s.relayOpen && t !in s.locks && t !in s.reattachPending
    requires s.saved != [] && EntryOf(t, s.index.tabs.m[t]) in s.saved[|s.saved| - 1].entries
    requires gone == Next(s, Clicked(t))
    requires back == Next(Next(gone, Restart(Some(|s.saved| - 1), {t})), SocketOpened)
    ensures var n := s.index.tabs.m[t].session;
      DetachWait(t, true) in gone.awaiting && Reported(gone, n) && Reported(Next(back, Clicked(t)), n)
  {
    var info := s.index.tabs.m[t];
    ClickStarted(s, t);
    ClickTells(s, t);
    StepKeeps(s, Clicked(t));
    Revived(gone, |s.saved| - 1, t, info, back);
    ClickTells(back, t);
  }

  lemma Revived(gone: State, i: nat, t: TabId, info: Tab, back: State)
    requires Inv(gone) && Ordered(gone) && info.Connected?
    requires i < |gone.saved| && EntryOf(t, info) in gone.saved[i].entries
    requires back == Next(Next(gone, Restart(Some(i), {t})), SocketOpened)
    ensures Inv(back) && back.index.Get(t) == Some(info) && Idle(back)
  {
    var restarted := Next(gone, Restart(Some(i), {t}));
    RestartRevives(gone, i, t, info);
    StepKeeps(gone, Restart(Some(i), {t}));
    OpenKeeps(restarted);
  }

  lemma RestartRevives(s: State, i: nat, t: TabId, info: Tab)
    requires Inv(s) && info.Connected? && i < |s.saved| && EntryOf(t, info) in s.saved[i].entries
    ensures var r := Next(s, Restart(Some(i), {t}));
      r.index.Get(t) == Some(info) && r.locks == {} && r.reattachPending == {} && r.awaiting == multiset{}
  {
    EntryRevives(s.saved[i], EntryOf(t, info));
    RestartsFrom(s, i, {t});
  }

  lemma RestartsFrom(s: State, i: nat, alive: set<TabId>)
    requires i < |s.saved|
    ensures Next(s, Restart(Some(i), alive)) == Boot(EMPTY_INDEX.Rehydrate(s.saved[i], alive), s.saved)
  {
  }

  lemma EntryRevives(snap: Snapshot, e: Entry)
    requires Sound(snap) && e in snap.entries
    ensures EMPTY_INDEX.Rehydrate(snap, {e.tab}).Get(e.tab) == Some(TabOf(e))
  {
    RehydrateExact(snap, {e.tab});
  }

  lemma OpenKeeps(s: State)
    requires Inv(s)
    ensures Inv(Next(s, SocketOpened)) && Next(s, SocketOpened) == s.(relayOpen := true)
  {
  }

  lemma ClickTells(s: State, t: TabId)
    requires Inv(s) && s.index.Occupied(t) && s.relayOpen && t !in s.locks && t !in s.reattachPending
    ensures Reported(Next(s, Clicked(t)), s.index.tabs.m[t].session)
  {
    ReportsExactly(s, Clicked(t), s.index.tabs.m[t].session);
  }

  lemma ClickStarted(s: State, t: TabId)
    requires s.index.Occupied(t) && t !in s.locks && t !in s.reattachPending
    ensures Next(s, Clicked(t)).saved == s.saved && DetachWait(t, true) in Next(s, Clicked(t)).awaiting
  {
  }

  lemma DetachTold(s: State, t: TabId)
    requires s.index.Occupied(t) && Persistable(s.index.tabs.m[t]) && s.relayOpen
    ensures Detached(Main(s.index.tabs.m[t].session)) in Next(s, DebuggerDetached(t, true)).sent
    ensures Next(s, DebuggerDetached(t, true)).saved == s.saved && Next(s, DebuggerDetached(t, true)).relayOpen
    ensures s.awaiting <= Next(s, DebuggerDetached(t, true)).awaiting
  {
    var r := Next(s, DebuggerDetached(t, true));
    assert MainDetach(s.index.Get(t)) == [Detached(Main(s.index.tabs.m[t].session))];
    assert r.sent[|r.sent| - 1] == Detached(Main(s.index.tabs.m[t].session));
  }

  // ---- those states are reachable ----

  lemma Extend(events: seq<Event>, e: Event)
    ensures Run(events + [e]) == Next(Run(events), e)
  {
    assert (events + [e])[..|events|] == events;
  }

  /** The relay up and nothing underway. */
  ghost predicate Idle(s: State) {
    s.relayOpen && s.awaiting == multiset{} && s.locks == {} && s.reattachPending == {}
  }

  /** A tab attached by a relay command is held and saved. */
  lemma AttachByCommand(events: seq<Event>, t: TabId) returns (more: seq<Event>)
    requires Idle(Run(events))
    ensures Run(more).index == Run(events).index.Commit(t, "a")
    ensures Idle(Run(more))
    ensures Run(more).saved == Run(events).saved + [Run(more).index.Save()]
  {
    var p := AttachWait(t, Create);
    Extend(events, TabCreated(t));
    Extend(events + [TabCreated(t)], Resume(p, Target("a")));
    more := events + [TabCreated(t)] + [Resume(p, Target("a"))];
  }

  /** Two attached tabs, the relay up, both tabs in the latest snapshot. */
  lemma TwoTabsReachable() returns (events: seq<Event>)
    ensures TwoTabs(Run(events))
  {
    events := [SocketOpened];
    assert events[..0] == [];
    assert Run(events) == Next(Run([]), SocketOpened);
    events := AttachByCommand(events, 1);
    events := AttachByCommand(events, 2);
    TwoCommits(Run(events));
  }

  lemma TwoCommits(s: State)
    requires s.index == EMPTY_INDEX.Commit(1, "a").Commit(2, "a") && Idle(s)
    requires s.saved != [] && s.saved[|s.saved| - 1] == s.index.Save()
    ensures TwoTabs(s)
  {
    var one := EMPTY_INDEX.Commit(1, "a");
    assert one.tabs == OrderedMap([1], map[1 := Connected(1, "a", 1)]);
    assert s.index.tabs == OrderedMap([1, 2], map[1 := Connected(1, "a", 1), 2 := Connected(2, "a", 2)]);
    assert [1 as TabId, 2][..1] == [1];
  }

  ghost predicate TwoTabs(s: State) {
    && s.index.tabs.keys == [1, 2] && s.index.Occupied(1) && s.index.Occupied(2) && Idle(s)
    && s.saved != [] && EntryOf(2, s.index.tabs.m[2]) in s.saved[|s.saved| - 1].entries
  }
}
