/** What every run of the relay extension keeps, whatever the interleaving, relay failures
    and worker restarts. */
module RelaySafety {
  import opened Options
  import opened OrderedMaps
  import opened RelayMachine

  predicate Holds(x: Index, t: TabId, n: nat) {
    x.Occupied(t) && x.tabs.m[t].session == n
  }

  predicate Held(x: Index, n: nat) {
    exists t :: t in x.tabs.m && Holds(x, t, n)
  }

  /** Routing safety: sessions are below the counter, no two tabs share one, and the session
      index never sends a held session to another tab. */
  ghost predicate Routed(x: Index) {
    && (forall t, n: nat :: Holds(x, t, n) ==> n < x.nextSession)
    && (forall t, u, n: nat :: Holds(x, t, n) && Holds(x, u, n) ==> t == u)
    && (forall n :: n in x.tabBySession ==> n < x.nextSession)
    && (forall u, n: nat :: n in x.tabBySession && Holds(x, u, n) ==> x.tabBySession[n] == u)
  }

  ghost predicate Tidy(x: Index) {
    && 0 < x.nextSession
    && forall t :: x.Occupied(t) ==> x.tabs.m[t].targetId != ""
  }

  /** A snapshot that came from a routed state. */
  ghost predicate Sound(snap: Snapshot) {
    && 0 < snap.nextSession
    && (forall i :: 0 <= i < |snap.entries| ==>
          snap.entries[i].session < snap.nextSession && snap.entries[i].targetId != "")
    && AllDistinct(snap.entries)
  }

  ghost predicate AllDistinct(entries: seq<Entry>) {
    forall i, j :: 0 <= i < j < |entries| ==>
      entries[i].tab != entries[j].tab && entries[i].session != entries[j].session
  }

  ghost predicate SavedSound(saved: seq<Snapshot>) {
    forall i :: 0 <= i < |saved| ==> Sound(saved[i])
  }

  /** What a main session may still appear in after it was reported detached: nothing but a
      late attach announcement. */
  ghost predicate Silenced(sent: seq<Message>) {
    forall i, j, n: nat :: 0 <= i < j < |sent| && sent[i] == Detached(Main(n)) ==>
      sent[j] != Detached(Main(n)) && sent[j] != Forwarded(Main(n))
  }

  ghost predicate Retired(x: Index, sent: seq<Message>) {
    forall n: nat :: Detached(Main(n)) in sent ==> n < x.nextSession && !Held(x, n)
  }

  ghost predicate Inv(s: State) {
    && Routed(s.index) && Tidy(s.index) && SavedSound(s.saved)
    && Retired(s.index, s.sent) && Silenced(s.sent)
  }

  // ---- the insertion-ordered tables ----

  ghost predicate Ordered(s: State) {
    s.index.tabs.Valid() && s.children.Valid()
  }

  lemma DropChildrenValid(children: OrderedMap<string, TabId>, tab: TabId)
    requires children.Valid()
    ensures DropChildren(children, tab).Valid()
  {
    children.RestrictValid(children.m.Keys - ChildrenOf(children, tab));
  }

  lemma ReplaceValid(x: Index, added: TabId, removed: TabId)
    requires x.tabs.Valid()
    ensures x.Replace(added, removed).tabs.Valid()
  {
    x.tabs.DeleteValid(removed);
    if removed in x.tabs.m {
      x.tabs.Delete(removed).SetValid(added, x.tabs.m[removed]);
    }
  }

  lemma {:induction false} RestoreAllValid(x: Index, entries: seq<Entry>)
    requires x.tabs.Valid()
    ensures x.RestoreAll(entries).tabs.Valid()
  {
    if entries != [] {
      var last := entries[|entries| - 1];
      RestoreAllValid(x, entries[..|entries| - 1]);
      x.RestoreAll(entries[..|entries| - 1]).tabs.SetValid(last.tab, TabOf(last));
    }
  }

  lemma {:induction false} PruneAllValid(x: Index, entries: seq<Entry>, alive: set<TabId>)
    requires x.tabs.Valid()
    ensures x.PruneAll(entries, alive).tabs.Valid()
  {
    if entries != [] {
      var front, last := entries[..|entries| - 1], entries[|entries| - 1];
      PruneAllValid(x, front, alive);
      x.PruneAll(front, alive).tabs.DeleteValid(last.tab);
    }
  }

  lemma RehydrateValid(snap: Snapshot, alive: set<TabId>)
    ensures EMPTY_INDEX.Rehydrate(snap, alive).tabs.Valid()
  {
    var start := EMPTY_INDEX.(nextSession := if snap.nextSession > 1 then snap.nextSession else 1);
    RestoreAllValid(start, snap.entries);
    PruneAllValid(start.RestoreAll(snap.entries), snap.entries, alive);
  }

  lemma ContinueOrdered(s: State, p: Pending, outcome: Outcome)
    requires Ordered(s)
    ensures Ordered(Continue(s, p, outcome))
  {
    s.index.tabs.DeleteValid(p.tab);
    match p {
      case AttachWait(t, _) =>
        if outcome.Target? {
          s.index.tabs.SetValid(t, Connected(s.index.nextSession, outcome.targetId, s.index.nextSession));
        }
      case ProbeWait(t) => DropChildrenValid(s.children, t);
      case _ =>
    }
  }

  lemma ClickOrdered(s: State, t: TabId)
    requires Ordered(s)
    ensures Ordered(ClickTab(s, t))
  {
    s.index.tabs.DeleteValid(t);
    s.index.tabs.SetValid(t, Connecting);
    DropChildrenValid(s.children, t);
  }

  lemma ForwardOrdered(s: State, t: TabId, source: Option<string>, event: CdpEvent)
    requires Ordered(s)
    ensures Ordered(ForwardEvent(s, t, source, event))
  {
    match event {
      case ChildAttached(c) => s.children.SetValid(c, t);
      case ChildDetached(c) => s.children.DeleteValid(c);
      case OtherEvent =>
    }
  }

  lemma GoneOrdered(s: State, t: TabId, userEnded: bool)
    requires Ordered(s)
    ensures Ordered(StartDebuggerDetach(s, t, userEnded)) && Ordered(RemoveTab(s, t))
  {
    s.index.tabs.DeleteValid(t);
    DropChildrenValid(s.children, t);
  }

  lemma OrderedStep(s: State, e: Event)
    requires Ordered(s)
    ensures Ordered(Next(s, e))
  {
    match e {
      case Clicked(t) => ClickOrdered(s, t);
      case Resume(p, outcome) =>
        if p in s.awaiting {
          ContinueOrdered(s.(awaiting := s.awaiting - multiset{p}), p, outcome);
        }
      case DebuggerEvent(t, source, event) => ForwardOrdered(s, t, source, event);
      case DebuggerDetached(t, userEnded) => GoneOrdered(s, t, userEnded);
      case TabRemoved(t) => GoneOrdered(s, t, false);
      case TabReplaced(added, removed) => ReplaceValid(s.index, added, removed);
      case Restart(from, alive) =>
        if from.Some? && from.value < |s.saved| { RehydrateValid(s.saved[from.value], alive); }
      case _ =>
    }
  }

  lemma {:induction false} RunOrdered(events: seq<Event>)
    ensures Ordered(Run(events))
  {
    if events != [] {
      RunOrdered(events[..|events| - 1]);
      OrderedStep(Run(events[..|events| - 1]), events[|events| - 1]);
    }
  }

  // ---- the tab table and its index ----

  ghost predicate Within(y: Index, x: Index) {
    && y.nextSession == x.nextSession
    && (forall t, n: nat :: Holds(y, t, n) ==> Holds(x, t, n))
    && (forall t :: y.Occupied(t) ==> x.Occupied(t) && y.tabs.m[t] == x.tabs.m[t])
    && (forall n :: n in y.tabBySession ==> n in x.tabBySession && y.tabBySession[n] == x.tabBySession[n])
  }

  lemma ShrinkKeeps(x: Index, y: Index)
    requires Routed(x) && Tidy(x) && Within(y, x)
    ensures Routed(y) && Tidy(y)
  {
  }

  lemma WithinRetired(x: Index, y: Index, sent: seq<Message>)
    requires Retired(x, sent) && Within(y, x)
    ensures Retired(y, sent)
  {
    forall n: nat | Detached(Main(n)) in sent ensures !Held(y, n) {
      assert !Held(x, n);
    }
  }

  lemma DropKeeps(x: Index, tab: TabId)
    requires Routed(x) && Tidy(x)
    ensures Within(x.Drop(tab), x) && Routed(x.Drop(tab)) && Tidy(x.Drop(tab))
    ensures x.Occupied(tab) ==> !Held(x.Drop(tab), x.tabs.m[tab].session)
  {
    ShrinkKeeps(x, x.Drop(tab));
    if x.Occupied(tab) {
      assert Holds(x, tab, x.tabs.m[tab].session);
    }
  }

  lemma CommitKeeps(x: Index, tab: TabId, targetId: string, sent: seq<Message>)
    requires Routed(x) && Tidy(x) && Retired(x, sent) && targetId != ""
    ensures Routed(x.Commit(tab, targetId)) && Tidy(x.Commit(tab, targetId)) && Retired(x.Commit(tab, targetId), sent)
  {
    var y := x.Commit(tab, targetId);
    assert forall t, n: nat :: Holds(y, t, n) ==> Holds(x, t, n) || (t == tab && n == x.nextSession);
    forall n: nat | Detached(Main(n)) in sent ensures !Held(y, n) {
      assert !Held(x, n);
    }
  }

  lemma ReplaceKeeps(x: Index, added: TabId, removed: TabId, sent: seq<Message>)
    requires Routed(x) && Tidy(x) && Retired(x, sent)
    ensures var y := x.Replace(added, removed); Routed(y) && Tidy(y) && Retired(y, sent)
  {
    var y := x.Replace(added, removed);
    if removed in x.tabs.m {
      if x.Occupied(removed) {
        assert Holds(x, removed, x.tabs.m[removed].session);
      }
      assert forall t, n: nat :: Holds(y, t, n) ==> Holds(x, if t == added then removed else t, n);
      forall n: nat | Detached(Main(n)) in sent ensures !Held(y, n) {
        assert !Held(x, n);
      }
    }
  }

  // ---- saved snapshots ----

  lemma {:induction false} EntriesFaithful(keys: seq<TabId>, m: map<TabId, Tab>)
    requires forall k :: k in keys ==> k in m
    requires Distinct(keys)
    ensures forall e :: e in EntriesOf(keys, m) ==> e.tab in keys && m[e.tab] == TabOf(e) && e.targetId != ""
    ensures forall t :: t in keys && Persistable(m[t]) ==> EntryOf(t, m[t]) in EntriesOf(keys, m)
    ensures forall i, j :: 0 <= i < j < |EntriesOf(keys, m)| ==> EntriesOf(keys, m)[i].tab != EntriesOf(keys, m)[j].tab
  {
    if keys != [] {
      DistinctPrefix(keys, |keys| - 1);
      EntriesFaithful(keys[..|keys| - 1], m);
    }
  }

  lemma SaveSound(x: Index)
    requires x.tabs.Valid() && Routed(x) && Tidy(x)
    ensures Sound(x.Save())
  {
    var snap := x.Save();
    EntriesFaithful(x.tabs.keys, x.tabs.m);
    forall i | 0 <= i < |snap.entries| ensures Holds(x, snap.entries[i].tab, snap.entries[i].session) {
      assert snap.entries[i] in snap.entries;
    }
  }

  function Ids(entries: seq<Entry>): (r: seq<TabId>)
    ensures |r| == |entries|
    ensures forall i :: 0 <= i < |r| ==> r[i] == entries[i].tab
  {
    if entries == [] then [] else Ids(entries[..|entries| - 1]) + [entries[|entries| - 1].tab]
  }

  ghost function SessionSet(entries: seq<Entry>): set<nat> {
    set e | e in entries :: e.session
  }

  ghost predicate Restored(x: Index, entries: seq<Entry>) {
    && x.tabs.keys == Ids(entries) && x.tabs.Matched()
    && (forall e :: e in entries ==> e.tab in x.tabs.m && x.tabs.m[e.tab] == TabOf(e))
    && x.tabBySession.Keys == SessionSet(entries)
    && (forall e :: e in entries ==> e.session in x.tabBySession && x.tabBySession[e.session] == e.tab)
  }

  lemma FreshEntry(front: seq<Entry>, last: Entry)
    requires AllDistinct(front + [last])
    ensures last.tab !in Ids(front) && last.session !in SessionSet(front)
    ensures Ids(front + [last]) == Ids(front) + [last.tab]
    ensures SessionSet(front + [last]) == SessionSet(front) + {last.session}
  {
    var entries := front + [last];
    assert entries[|front|] == last && entries[..|front|] == front;
    assert forall i :: 0 <= i < |front| ==> entries[i] == front[i] && Ids(front)[i] == front[i].tab;
  }

  lemma RestoreOneMore(x: Index, front: seq<Entry>, last: Entry)
    requires Restored(x, front) && AllDistinct(front + [last])
    ensures Restored(x.RestoreEntry(last), front + [last])
  {
    FreshEntry(front, last);
    var y := x.RestoreEntry(last);
    assert last.tab !in x.tabs.keys;
    forall e | e in front + [last]
      ensures e.tab in y.tabs.m && y.tabs.m[e.tab] == TabOf(e)
      ensures e.session in y.tabBySession && y.tabBySession[e.session] == e.tab
    {
      if e != last {
        assert e in front;
      }
    }
  }

  lemma {:induction false} RestoreAllRestores(x: Index, entries: seq<Entry>)
    requires x.tabs == Empty() && x.tabBySession == map[]
    requires AllDistinct(entries)
    ensures Restored(x.RestoreAll(entries), entries) && x.RestoreAll(entries).nextSession == x.nextSession
  {
    if entries != [] {
      var front, last := entries[..|entries| - 1], entries[|entries| - 1];
      assert entries == front + [last];
      RestoreAllRestores(x, front);
      RestoreOneMore(x.RestoreAll(front), front, last);
    } else {
      assert SessionSet(entries) == {};
    }
  }

  lemma EntryUnique(entries: seq<Entry>, d: Entry, e: Entry)
    requires AllDistinct(entries) && d in entries && e in entries
    requires d.session == e.session || d.tab == e.tab
    ensures d == e
  {
    var i :| 0 <= i < |entries| && entries[i] == d;
    var j :| 0 <= j < |entries| && entries[j] == e;
  }

  ghost function DeadTabs(entries: seq<Entry>, alive: set<TabId>): set<TabId> {
    set e | e in entries && e.tab !in alive :: e.tab
  }

  ghost function DeadSessions(entries: seq<Entry>, alive: set<TabId>): set<nat> {
    set e | e in entries && e.tab !in alive :: e.session
  }

  lemma DeadOneMore(front: seq<Entry>, last: Entry, alive: set<TabId>)
    ensures DeadTabs(front + [last], alive) == DeadTabs(front, alive) + (if last.tab in alive then {} else {last.tab})
    ensures DeadSessions(front + [last], alive)
         == DeadSessions(front, alive) + (if last.tab in alive then {} else {last.session})
  {
  }

  lemma {:induction false} PruneAllPrunes(x: Index, entries: seq<Entry>, alive: set<TabId>)
    requires x.tabs.Matched()
    ensures x.PruneAll(entries, alive) == Index(x.nextSession,
              x.tabs.Restrict(x.tabs.m.Keys - DeadTabs(entries, alive)),
              x.tabBySession - DeadSessions(entries, alive))
  {
    if entries == [] {
      x.tabs.RestrictAll(x.tabs.m.Keys);
      assert x.tabs.m.Keys - DeadTabs(entries, alive) == x.tabs.m.Keys;
      assert x.tabBySession - DeadSessions(entries, alive) == x.tabBySession;
    } else {
      var front, last := entries[..|entries| - 1], entries[|entries| - 1];
      assert entries == front + [last];
      DeadOneMore(front, last, alive);
      PruneAllPrunes(x, front, alive);
      if last.tab !in alive {
        PruneOneMore(x, DeadTabs(front, alive), DeadSessions(front, alive), last);
      } else {
        assert DeadTabs(entries, alive) == DeadTabs(front, alive);
        assert DeadSessions(entries, alive) == DeadSessions(front, alive);
      }
    }
  }

  lemma PruneOneMore(x: Index, tabs: set<TabId>, sessions: set<nat>, last: Entry)
    requires x.tabs.Matched()
    ensures x.tabs.Restrict(x.tabs.m.Keys - tabs).Delete(last.tab) == x.tabs.Restrict(x.tabs.m.Keys - (tabs + {last.tab}))
    ensures (x.tabBySession - sessions) - {last.session} == x.tabBySession - (sessions + {last.session})
  {
    var keep := x.tabs.m.Keys - tabs;
    x.tabs.RestrictDelete(keep, last.tab);
    assert keep - {last.tab} == x.tabs.m.Keys - (tabs + {last.tab});
  }

  /** The session index is the exact inverse of the tab table. */
  ghost predicate IsInverse(x: Index) {
    && (forall t, n: nat :: Holds(x, t, n) ==> n in x.tabBySession && x.tabBySession[n] == t)
    && (forall n :: n in x.tabBySession ==> Holds(x, x.tabBySession[n], n))
  }

  lemma PrunedTabs(x: Index, entries: seq<Entry>, alive: set<TabId>)
    requires AllDistinct(entries) && Restored(x, entries)
    ensures var y := x.PruneAll(entries, alive);
      && (forall e :: e in entries ==>
            (e.tab in y.tabs.m <==> e.tab in alive) && (e.tab in y.tabs.m ==> y.tabs.m[e.tab] == TabOf(e)))
      && y.tabs.keys == Select(Ids(entries), alive)
  {
    PruneAllPrunes(x, entries, alive);
    forall t | t in x.tabs.keys ensures t in DeadTabs(entries, alive) <==> t !in alive {
      var i :| 0 <= i < |entries| && Ids(entries)[i] == t;
      assert entries[i] in entries;
    }
    SelectSame(Ids(entries), x.tabs.m.Keys - DeadTabs(entries, alive), alive);
  }

  /** An entry's session and tab leave together. */
  lemma EntryFate(x: Index, entries: seq<Entry>, alive: set<TabId>, e: Entry)
    requires AllDistinct(entries) && Restored(x, entries) && e in entries
    ensures var y := x.PruneAll(entries, alive);
      && (e.session in y.tabBySession <==> e.tab in alive) && (e.tab in y.tabs.m <==> e.tab in alive)
      && (e.tab in alive ==> y.tabBySession[e.session] == e.tab && y.tabs.m[e.tab] == TabOf(e))
  {
    PruneAllPrunes(x, entries, alive);
    forall d | d in entries && (d.session == e.session || d.tab == e.tab) ensures d == e { EntryUnique(entries, d, e); }
  }

  lemma PrunedIndex(x: Index, entries: seq<Entry>, alive: set<TabId>, n: nat)
    requires AllDistinct(entries) && Restored(x, entries) && n in x.PruneAll(entries, alive).tabBySession
    ensures var y := x.PruneAll(entries, alive); Holds(y, y.tabBySession[n], n)
  {
    PruneAllPrunes(x, entries, alive);
    var e :| e in entries && e.session == n;
    EntryFate(x, entries, alive, e);
  }

  lemma PrunedHolder(x: Index, entries: seq<Entry>, alive: set<TabId>, t: TabId, n: nat)
    requires AllDistinct(entries) && Restored(x, entries) && Holds(x.PruneAll(entries, alive), t, n)
    ensures var y := x.PruneAll(entries, alive); n in y.tabBySession && y.tabBySession[n] == t
  {
    PruneAllPrunes(x, entries, alive);
    assert t in x.tabs.keys;
    var i :| 0 <= i < |entries| && Ids(entries)[i] == t;
    assert entries[i] in entries;
    EntryFate(x, entries, alive, entries[i]);
  }

  lemma PrunedInverse(x: Index, entries: seq<Entry>, alive: set<TabId>)
    requires AllDistinct(entries) && Restored(x, entries)
    ensures IsInverse(x.PruneAll(entries, alive))
  {
    var y := x.PruneAll(entries, alive);
    forall n | n in y.tabBySession ensures Holds(y, y.tabBySession[n], n) {
      PrunedIndex(x, entries, alive, n);
    }
    forall t, n: nat | Holds(y, t, n) ensures n in y.tabBySession && y.tabBySession[n] == t {
      PrunedHolder(x, entries, alive, t, n);
    }
  }

  /** A restarted worker holds exactly the saved tabs that are still alive, in their order,
      and its session index is their exact inverse. */
  lemma RehydrateExact(snap: Snapshot, alive: set<TabId>)
    requires Sound(snap)
    ensures var x := EMPTY_INDEX.Rehydrate(snap, alive);
      && x.nextSession == snap.nextSession
      && (forall e :: e in snap.entries ==>
            (e.tab in x.tabs.m <==> e.tab in alive) && (e.tab in x.tabs.m ==> x.tabs.m[e.tab] == TabOf(e)))
      && x.tabs.keys == Select(Ids(snap.entries), alive)
      && IsInverse(x)
  {
    var start := EMPTY_INDEX.(nextSession := snap.nextSession);
    RestoreAllRestores(start, snap.entries);
    PruneAllPrunes(start.RestoreAll(snap.entries), snap.entries, alive);
    PrunedTabs(start.RestoreAll(snap.entries), snap.entries, alive);
    PrunedInverse(start.RestoreAll(snap.entries), snap.entries, alive);
  }

  lemma RehydrateKeeps(snap: Snapshot, alive: set<TabId>)
    requires Sound(snap)
    ensures var x := EMPTY_INDEX.Rehydrate(snap, alive); Routed(x) && Tidy(x)
  {
    RehydrateExact(snap, alive);
    RehydrateValid(snap, alive);
    var x := EMPTY_INDEX.Rehydrate(snap, alive);
    forall t | t in x.tabs.m
      ensures exists i :: 0 <= i < |snap.entries| && snap.entries[i].tab == t && x.tabs.m[t] == TabOf(snap.entries[i])
    {
      var i :| 0 <= i < |snap.entries| && Ids(snap.entries)[i] == t;
      assert snap.entries[i] in snap.entries;
    }
  }

  lemma SavedComesBack(x: Index, alive: set<TabId>, t: TabId)
    requires x.tabs.Valid() && Tidy(x) && Sound(x.Save())
    ensures var y := EMPTY_INDEX.Rehydrate(x.Save(), alive);
      (t in y.tabs.m <==> x.Occupied(t) && t in alive) && (t in y.tabs.m ==> y.tabs.m[t] == x.tabs.m[t])
  {
    var snap := x.Save();
    RehydrateValid(snap, alive);
    RehydrateExact(snap, alive);
    EntriesFaithful(x.tabs.keys, x.tabs.m);
    if t in EMPTY_INDEX.Rehydrate(snap, alive).tabs.m {
      var i :| 0 <= i < |snap.entries| && Ids(snap.entries)[i] == t;
      assert snap.entries[i] in snap.entries;
    }
    if x.Occupied(t) {
      assert EntryOf(t, x.tabs.m[t]) in snap.entries;
    }
  }

  /** Persist, die, restart: what comes back is exactly the attached tabs that are still
      alive, in their order, under an exactly inverse index and the same counter. */
  lemma PersistThenRehydrate(events: seq<Event>, alive: set<TabId>)
    ensures var x, y := Run(events).index, EMPTY_INDEX.Rehydrate(Run(events).index.Save(), alive);
      && y.nextSession == x.nextSession
      && (forall t :: t in y.tabs.m <==> x.Occupied(t) && t in alive)
      && (forall t :: t in y.tabs.m ==> y.tabs.m[t] == x.tabs.m[t])
      && y.tabs.keys == Select(x.tabs.keys, y.tabs.m.Keys)
      && IsInverse(y)
  {
    RunKeeps(events);
    RunOrdered(events);
    var x := Run(events).index;
    var snap := x.Save();
    RehydrateValid(snap, alive);
    SaveSound(x);
    RehydrateExact(snap, alive);
    var y := EMPTY_INDEX.Rehydrate(snap, alive);
    forall t ensures t in y.tabs.m <==> x.Occupied(t) && t in alive
             ensures t in y.tabs.m ==> y.tabs.m[t] == x.tabs.m[t] {
      SavedComesBack(x, alive, t);
    }
    var kept := set t | t in x.tabs.m && Persistable(x.tabs.m[t]);
    EntriesInOrder(x.tabs.keys, x.tabs.m, kept);
    SelectTwice(x.tabs.keys, kept, alive);
    SelectSame(x.tabs.keys, kept * alive, y.tabs.m.Keys);
  }

  lemma {:induction false} EntriesInOrder(keys: seq<TabId>, m: map<TabId, Tab>, kept: set<TabId>)
    requires forall k :: k in keys ==> k in m && (k in kept <==> Persistable(m[k]))
    ensures Ids(EntriesOf(keys, m)) == Select(keys, kept)
  {
    if keys != [] {
      var front, last := keys[..|keys| - 1], keys[|keys| - 1];
      EntriesInOrder(front, m, kept);
      if last in kept {
        var entries := EntriesOf(keys, m);
        assert entries[..|entries| - 1] == EntriesOf(front, m);
      }
    }
  }

  // ---- what the relay is told ----

  /** Messages that may go out now: an event only for a held session, and a detach only for
      one that was held before and is held no more. */
  ghost predicate Timely(before: Index, after: Index, msgs: seq<Message>) {
    && (forall n: nat :: Forwarded(Main(n)) in msgs ==> Held(before, n))
    && (forall n: nat :: Detached(Main(n)) in msgs ==> Held(before, n) && !Held(after, n) && n < after.nextSession)
    && (forall i, n: nat :: 0 <= i < |msgs| && msgs[i] == Detached(Main(n)) ==> i == |msgs| - 1)
  }

  lemma TellKeeps(before: Index, after: Index, sent: seq<Message>, msgs: seq<Message>)
    requires Retired(before, sent) && Retired(after, sent) && Silenced(sent)
    requires Timely(before, after, msgs)
    ensures Retired(after, sent + msgs) && Silenced(sent + msgs)
  {
    var all := sent + msgs;
    assert forall k :: |sent| <= k < |all| ==> all[k] == msgs[k - |sent|];
    forall i, j, n: nat | 0 <= i < j < |all| && all[i] == Detached(Main(n))
      ensures all[j] != Detached(Main(n)) && all[j] != Forwarded(Main(n))
    {
      if i < |sent| {
        assert Detached(Main(n)) in sent;
        if |sent| <= j { assert all[j] == msgs[j - |sent|] && all[j] in msgs; }
      }
    }
  }

  /** Detaching a tab keeps the invariant, whatever child sessions are reported first. */
  lemma DetachKeeps(s: State, r: State, tab: TabId, children: seq<string>)
    requires Inv(s)
    requires r.index == s.index.Drop(tab) && r.saved == s.saved
    requires r.sent == Tell(s, ChildDetaches(children) + MainDetach(s.index.Get(tab)))
    ensures Inv(r)
  {
    DropKeeps(s.index, tab);
    WithinRetired(s.index, r.index, s.sent);
    var msgs := ChildDetaches(children) + MainDetach(s.index.Get(tab));
    if s.index.Occupied(tab) {
      assert Holds(s.index, tab, s.index.tabs.m[tab].session);
    }
    TellKeeps(s.index, r.index, s.sent, msgs);
  }

  /** Steps that only forget, and tell the relay nothing about main sessions. */
  lemma QuietKeeps(s: State, r: State, msgs: seq<Message>)
    requires Inv(s) && Within(r.index, s.index) && r.saved == s.saved
    requires r.sent == s.sent + msgs
    requires forall n: nat :: Forwarded(Main(n)) !in msgs && Detached(Main(n)) !in msgs
    ensures Inv(r)
  {
    ShrinkKeeps(s.index, r.index);
    WithinRetired(s.index, r.index, s.sent);
    TellKeeps(s.index, r.index, s.sent, msgs);
  }

  lemma FinishAttachKeeps(s: State, tab: TabId, origin: Origin, outcome: Outcome)
    requires Inv(s) && s.index.tabs.Valid()
    ensures Inv(FinishAttach(s, tab, origin, outcome))
  {
    if outcome.Target? && outcome.targetId != "" {
      var x := s.index.Commit(tab, outcome.targetId);
      CommitKeeps(s.index, tab, outcome.targetId, s.sent);
      s.index.tabs.SetValid(tab, Connected(s.index.nextSession, outcome.targetId, s.index.nextSession));
      SaveSound(x);
      TellKeeps(x, x, s.sent, [Attached(s.index.nextSession)]);
    }
  }

  lemma ClickTabKeeps(s: State, tab: TabId)
    requires Inv(s)
    ensures Inv(ClickTab(s, tab))
  {
    var r := ClickTab(s, tab);
    if tab !in s.locks && tab !in s.reattachPending && s.index.Occupied(tab) {
      DetachKeeps(s, r, tab, Select(s.children.keys, ChildrenOf(s.children, tab)));
    } else {
      assert s.sent + [] == s.sent;
      QuietKeeps(s, r, []);
    }
  }

  lemma RemoveTabKeeps(s: State, tab: TabId)
    requires Inv(s) && s.index.tabs.Valid()
    ensures Inv(RemoveTab(s, tab))
  {
    if tab in s.index.tabs.m {
      var r := RemoveTab(s, tab).(saved := s.saved);
      assert ChildDetaches([]) + MainDetach(s.index.Get(tab)) == MainDetach(s.index.Get(tab));
      DetachKeeps(s, r, tab, []);
      s.index.tabs.DeleteValid(tab);
      SaveSound(r.index);
    }
  }

  lemma NavigationDetachKeeps(s: State, tab: TabId)
    requires Inv(s)
    ensures Inv(NavigationDetach(s, tab))
  {
    if tab !in s.reattachPending {
      assert ChildDetaches([]) + MainDetach(s.index.Get(tab)) == MainDetach(s.index.Get(tab));
      DetachKeeps(s, NavigationDetach(s, tab), tab, []);
    }
  }

  lemma DetachTabKeeps(s: State, tab: TabId, byClick: bool)
    requires Inv(s)
    ensures Inv(DetachTab(s, tab, byClick))
  {
    DetachKeeps(s, DetachTab(s, tab, byClick), tab, Select(s.children.keys, ChildrenOf(s.children, tab)));
  }

  lemma ForwardEventKeeps(s: State, tab: TabId, source: Option<string>, event: CdpEvent)
    requires Inv(s)
    ensures Inv(ForwardEvent(s, tab, source, event))
  {
    if s.index.Occupied(tab) {
      var n := s.index.tabs.m[tab].session;
      assert Holds(s.index, tab, n);
      TellKeeps(s.index, s.index, s.sent, [Forwarded(if source.Some? && source.value != "" then Child(source.value) else Main(n))]);
    }
  }

  lemma ContinueKeeps(s: State, p: Pending, outcome: Outcome)
    requires Inv(s) && s.index.tabs.Valid()
    ensures Inv(Continue(s, p, outcome))
  {
    var r := Continue(s, p, outcome);
    match p {
      case AttachWait(t, origin) => FinishAttachKeeps(s, t, origin, outcome);
      case DetachWait(t, byClick) => SaveSound(s.index);
      case ProbeWait(t) =>
        if outcome.Failed? { DetachTabKeeps(s, t, false); } else { NavigationDetachKeeps(s, t); }
      case AnnounceDescribe(t, info) =>
        if info.Connected? && s.relayOpen {
          QuietKeeps(s, r, [Attached(info.session)]);
        }
      case _ => QuietContinue(s, p, outcome);
    }
  }

  lemma QuietContinue(s: State, p: Pending, outcome: Outcome)
    requires Inv(s) && !p.AttachWait? && !p.DetachWait? && !p.ProbeWait? && !p.AnnounceDescribe?
    ensures Inv(Continue(s, p, outcome))
  {
    assert s.sent + [] == s.sent;
    QuietKeeps(s, Continue(s, p, outcome), []);
  }

  lemma NextKeeps(s: State, e: Event)
    requires Inv(s) && s.index.tabs.Valid()
    ensures Inv(Next(s, e))
  {
    match e {
      case Clicked(t) => ClickTabKeeps(s, t);
      case Resume(p, outcome) =>
        if p in s.awaiting {
          ContinueKeeps(s.(awaiting := s.awaiting - multiset{p}), p, outcome);
        }
      case DebuggerEvent(t, source, event) => ForwardEventKeeps(s, t, source, event);
      case DebuggerDetached(t, userEnded) => DetachTabKeeps(s, t, false);
      case TabRemoved(t) => RemoveTabKeeps(s, t);
      case TabReplaced(added, removed) =>
        ReplaceKeeps(s.index, added, removed, s.sent);
        ReplaceValid(s.index, added, removed);
        SaveSound(s.index.Replace(added, removed));
      case AnnounceEnd => SaveSound(s.index);
      case Restart(from, alive) =>
        if from.Some? && from.value < |s.saved| {
          RehydrateKeeps(s.saved[from.value], alive);
        }
      case _ =>
    }
  }

  /** Routing safety and the silence of detached sessions hold after every run. */
  lemma {:induction false} RunKeeps(events: seq<Event>)
    ensures Inv(Run(events))
  {
    if events != [] {
      RunKeeps(events[..|events| - 1]);
      RunOrdered(events[..|events| - 1]);
      NextKeeps(Run(events[..|events| - 1]), events[|events| - 1]);
    }
  }
}
