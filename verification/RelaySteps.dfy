/** What every event does to each part of the relay extension's state, told part by part: the tabs,
    the handlers underway, the tabs waiting for re-attach, the snapshots and the frames. */
module RelaySteps {
  import opened Options
  import opened OrderedMaps
  import opened RelayMachine
  import opened RelaySafety
  import opened RelayIndex
  import opened RelayReports

  // ---- the tabs ----

  ghost function TabAt(s: State, t: TabId): Option<Tab> {
    if t in s.index.tabs.m then Some(s.index.tabs.m[t]) else None
  }

  ghost predicate IsAttached(s: State, t: TabId) {
    t in s.index.tabs.m && s.index.tabs.m[t].Connected?
  }

  /** The awaited attach of this handler succeeds. */
  predicate Attaches(outcome: Outcome) {
    outcome.Target? && outcome.targetId != ""
  }

  /** The click is not swallowed by an operation underway or by a pending re-attach. */
  predicate Toggles(s: State, t: TabId) {
    t !in s.locks && t !in s.reattachPending
  }

  /** What a tab is after the event. */
  ghost function TabAfter(s: State, e: Event, t: TabId): Option<Tab> {
    var now := TabAt(s, t);
    match e
    case Clicked(u) => if u == t && Toggles(s, t) then (if IsAttached(s, t) then None else Some(Connecting)) else now
    case DebuggerDetached(u, userEnded) => if u == t && userEnded then None else now
    case TabRemoved(u) => if u == t then None else now
    case TabReplaced(added, removed) =>
      if TabAt(s, removed).None? then now
      else if t == added then TabAt(s, removed) else if t == removed then None else now
    case Resume(p, outcome) =>
      if p !in s.awaiting || p.tab != t then now
      else (
        match p
        case AttachWait(_, _) =>
          if Attaches(outcome) then Some(Connected(s.index.nextSession, outcome.targetId, s.index.nextSession)) else now
        case ClickError(_) => None
        case ProbeWait(_) => if outcome.Failed? || t !in s.reattachPending then None else now
        case AnnounceValidate(_, _) => if outcome.Failed? then None else now
        case _ => now)
    case _ => now
  }

  lemma ResumeTabs(s: State, p: Pending, outcome: Outcome, t: TabId)
    requires p in s.awaiting
    ensures NextIndex(s, Resume(p, outcome)).Get(t) == TabAfter(s, Resume(p, outcome), t)
  {
  }

  lemma TableEvent(s: State, e: Event, t: TabId)
    requires !e.Restart? && !e.Resume?
    ensures NextIndex(s, e).Get(t) == TabAfter(s, e, t)
  {
  }

  /** The tab table after the event. */
  lemma TabsExactly(s: State, e: Event, t: TabId)
    requires !e.Restart?
    ensures TabAt(Next(s, e), t) == TabAfter(s, e, t)
  {
    NextIndexed(s, e);
    assert TabAt(Next(s, e), t) == NextIndex(s, e).Get(t);
    if !e.Resume? {
      TableEvent(s, e, t);
    } else if e.p in s.awaiting {
      ResumeTabs(s, e.p, e.outcome, t);
    }
  }

  /** The counter moves on exactly with an attach. */
  lemma CounterExactly(s: State, e: Event)
    requires !e.Restart?
    ensures Next(s, e).index.nextSession ==
      s.index.nextSession + if e.Resume? && e.p in s.awaiting && e.p.AttachWait? && Attaches(e.outcome) then 1 else 0
  {
    NextIndexed(s, e);
  }

  /** The tab the event puts at the end of the table: a new one, or one replaced by itself. */
  ghost function Newest(s: State, e: Event): Option<TabId> {
    match e
    case Clicked(t) => if Toggles(s, t) && TabAt(s, t).None? then Some(t) else None
    case TabReplaced(added, removed) =>
      if TabAt(s, removed).Some? && (TabAt(s, added).None? || added == removed) then Some(added) else None
    case Resume(p, outcome) =>
      if p in s.awaiting && p.AttachWait? && Attaches(outcome) && TabAt(s, p.tab).None? then Some(p.tab) else None
    case _ => None
  }

  ghost function Listed(t: Option<TabId>): seq<TabId> {
    if t.Some? then [t.value] else []
  }

  lemma KeysSame(x: Index, y: Index)
    requires x.tabs.Valid() && y.tabs.keys == x.tabs.keys && y.tabs.m.Keys == x.tabs.m.Keys
    ensures y.tabs.keys == Select(x.tabs.keys, y.tabs.m.Keys)
  {
    SelectAll(x.tabs.keys, y.tabs.m.Keys);
  }

  lemma KeysWithout(x: Index, y: Index, t: TabId)
    requires x.tabs.Valid() && y.tabs.keys == Select(x.tabs.keys, x.tabs.m.Keys - {t}) && y.tabs.m.Keys == x.tabs.m.Keys - {t}
    ensures y.tabs.keys == Select(x.tabs.keys, y.tabs.m.Keys)
  {
  }

  lemma KeysWith(x: Index, y: Index, t: TabId, tab: Tab)
    requires x.tabs.Valid() && y.tabs == x.tabs.Set(t, tab)
    ensures y.tabs.keys == Select(x.tabs.keys, if t in x.tabs.m then y.tabs.m.Keys else y.tabs.m.Keys - {t})
                           + if t in x.tabs.m then [] else [t]
  {
    SelectAll(x.tabs.keys, if t in x.tabs.m then y.tabs.m.Keys else y.tabs.m.Keys - {t});
  }

  lemma KeysReplaced(x: Index, added: TabId, removed: TabId)
    requires x.tabs.Valid() && removed in x.tabs.m
    ensures var y, end := x.Replace(added, removed), added !in x.tabs.m || added == removed;
      y.tabs.keys == Select(x.tabs.keys, if end then y.tabs.m.Keys - {added} else y.tabs.m.Keys) + if end then [added] else []
  {
    var y, end := x.Replace(added, removed), added !in x.tabs.m || added == removed;
    SelectSame(x.tabs.keys, x.tabs.m.Keys - {removed}, if end then y.tabs.m.Keys - {added} else y.tabs.m.Keys);
  }

  lemma ClickOrder(s: State, t: TabId)
    requires Ordered(s)
    ensures var last, y := Newest(s, Clicked(t)), NextIndex(s, Clicked(t));
      y.tabs.keys == Select(s.index.tabs.keys, if last.Some? then y.tabs.m.Keys - {last.value} else y.tabs.m.Keys) + Listed(last)
  {
    var x, y := s.index, NextIndex(s, Clicked(t));
    if !Toggles(s, t) {
      KeysSame(x, y);
    } else if x.Occupied(t) {
      KeysWithout(x, y, t);
    } else {
      KeysWith(x, y, t, Connecting);
    }
  }

  /** The tabs that stay keep their order, and a new one comes last. */
  lemma OrderExactly(s: State, e: Event)
    requires !e.Restart? && Ordered(s)
    ensures var last, y := Newest(s, e), Next(s, e).index;
      y.tabs.keys == Select(s.index.tabs.keys, if last.Some? then y.tabs.m.Keys - {last.value} else y.tabs.m.Keys) + Listed(last)
  {
    NextIndexed(s, e);
    var x, y := s.index, NextIndex(s, e);
    match e {
      case Clicked(t) => ClickOrder(s, t);
      case DebuggerDetached(t, _) => if y == x { KeysSame(x, y); } else { KeysWithout(x, y, t); }
      case TabRemoved(t) => if y == x { KeysSame(x, y); } else { KeysWithout(x, y, t); }
      case TabReplaced(added, removed) =>
        if removed in x.tabs.m { KeysReplaced(x, added, removed); } else { KeysSame(x, y); }
      case Resume(p, outcome) => ResumeOrder(s, p, outcome);
      case _ => KeysSame(x, y);
    }
  }

  lemma ResumeOrder(s: State, p: Pending, outcome: Outcome)
    requires Ordered(s)
    ensures var last, y := Newest(s, Resume(p, outcome)), NextIndex(s, Resume(p, outcome));
      y.tabs.keys == Select(s.index.tabs.keys, if last.Some? then y.tabs.m.Keys - {last.value} else y.tabs.m.Keys) + Listed(last)
  {
    var x, y := s.index, NextIndex(s, Resume(p, outcome));
    if y == x {
      KeysSame(x, y);
    } else if p.AttachWait? {
      KeysWith(x, y, p.tab, Connected(x.nextSession, outcome.targetId, x.nextSession));
    } else {
      KeysWithout(x, y, p.tab);
    }
  }

  // ---- the handlers underway ----

  /** The attach this handler waits for goes through: it is announced, or need not be. */
  predicate GoesThrough(s: State, origin: Origin, outcome: Outcome) {
    Attaches(outcome) && (s.relayOpen || (origin.Reattach? && !origin.relayUp))
  }

  /** What the code behind an await leaves underway: a toggle ends in its `finally`, by way of its
      catch if it failed; a re-attach is tried five times in all. */
  ghost function Continues(s: State, p: Pending, outcome: Outcome): Option<Pending> {
    match p
    case ConnectWait(t) => if outcome.Failed? then Some(ClickError(t)) else Some(AttachWait(t, Click))
    case AttachWait(t, Click) => if GoesThrough(s, Click, outcome) then Some(ClickFinally(t)) else Some(ClickError(t))
    case AttachWait(t, Reattach(n, up)) =>
      if GoesThrough(s, Reattach(n, up), outcome) then Some(ReattachSaved(t))
      else if n < 4 then Some(ReattachSleep(t, n + 1)) else None
    case DetachWait(t, true) => Some(ClickFinally(t))
    case ProbeWait(t) =>
      if outcome.Failed? then Some(DetachWait(t, false)) else if t in s.reattachPending then None else Some(ReattachSleep(t, 0))
    case ReattachSleep(t, n) => if t in s.reattachPending then Some(ReattachProbe(t, n)) else None
    case ReattachProbe(t, n) => if outcome.Failed? then None else Some(AttachWait(t, Reattach(n, s.relayOpen)))
    case AnnounceValidate(t, info) => if outcome.Failed? then None else Some(AnnounceDescribe(t, info))
    case _ => None
  }

  /** The handler an event leaves waiting at its first or next await. */
  ghost function Waits(s: State, e: Event): Option<Pending> {
    match e
    case Clicked(t) =>
      if !Toggles(s, t) then None else if IsAttached(s, t) then Some(DetachWait(t, true)) else Some(ConnectWait(t))
    case TabCreated(t) => Some(AttachWait(t, Create))
    case DebuggerDetached(t, userEnded) =>
      if TabAt(s, t).None? then None else if userEnded then Some(DetachWait(t, false)) else Some(ProbeWait(t))
    case AnnounceNext(t) =>
      if IsAttached(s, t) && s.index.tabs.m[t].targetId != "" then Some(AnnounceValidate(t, s.index.tabs.m[t])) else None
    case Resume(p, outcome) => if p in s.awaiting then Continues(s, p, outcome) else None
    case _ => None
  }

  lemma ContinuesAs(s: State, p: Pending, outcome: Outcome)
    ensures Follow(s, p, outcome) == Continues(s, p, outcome)
  {
  }

  lemma ClickWaits(s: State, t: TabId)
    ensures ClickTab(s, t).awaiting == Plus(s.awaiting, Waits(s, Clicked(t)))
  {
  }

  lemma DetachWaits(s: State, t: TabId, userEnded: bool)
    ensures StartDebuggerDetach(s, t, userEnded).awaiting == Plus(s.awaiting, Waits(s, DebuggerDetached(t, userEnded)))
  {
  }

  lemma EventWaits(s: State, e: Event)
    requires !e.Restart? && !e.Resume?
    ensures Next(s, e).awaiting == Plus(s.awaiting, Waits(s, e))
  {
    match e {
      case Clicked(t) => ClickWaits(s, t);
      case DebuggerDetached(t, userEnded) => DetachWaits(s, t, userEnded);
      case _ => OtherWaits(s, e);
    }
  }

  lemma OtherWaits(s: State, e: Event)
    requires !e.Restart? && !e.Resume? && !e.Clicked? && !e.DebuggerDetached?
    ensures Next(s, e).awaiting == Plus(s.awaiting, Waits(s, e))
  {
  }

  lemma SameContinues(s: State, r: State, p: Pending, outcome: Outcome)
    requires r.relayOpen == s.relayOpen && r.reattachPending == s.reattachPending
    ensures Continues(r, p, outcome) == Continues(s, p, outcome)
  {
  }

  lemma ResumedNext(s: State, p: Pending, outcome: Outcome)
    requires p in s.awaiting
    ensures Next(s, Resume(p, outcome)) == Continue(s.(awaiting := s.awaiting - multiset{p}), p, outcome)
  {
  }

  lemma ResumeHandlers(s: State, p: Pending, outcome: Outcome)
    requires p in s.awaiting
    ensures Next(s, Resume(p, outcome)).awaiting == Plus(s.awaiting - multiset{p}, Continues(s, p, outcome))
  {
    var resumed := s.(awaiting := s.awaiting - multiset{p});
    ResumedNext(s, p, outcome);
    ContinueAwaits(resumed, p, outcome);
    ContinuesAs(resumed, p, outcome);
    SameContinues(s, resumed, p, outcome);
  }

  /** The handlers underway after an event: the one resumed leaves, the one that waits now joins. */
  lemma HandlersExactly(s: State, e: Event)
    requires !e.Restart?
    ensures Next(s, e).awaiting == Plus(if e.Resume? then s.awaiting - multiset{e.p} else s.awaiting, Waits(s, e))
  {
    if !e.Resume? {
      EventWaits(s, e);
    } else if e.p in s.awaiting {
      ResumeHandlers(s, e.p, e.outcome);
    }
  }

  // ---- the tabs waiting for re-attach ----

  /** The event lets the tab wait for re-attach: it has navigated, as far as its debugger tells. */
  ghost predicate StartsWaiting(s: State, e: Event, t: TabId) {
    e.Resume? && e.p == ProbeWait(t) && e.p in s.awaiting && !e.outcome.Failed?
  }

  /** The event ends the waiting: a click, the end of the tab or of the relay, a tab that is gone, an
      attach that is stored, or the fifth one that fails. */
  ghost predicate EndsWaiting(s: State, e: Event, t: TabId) {
    match e
    case Clicked(u) => u == t && t !in s.locks
    case TabRemoved(u) => u == t
    case RelayClosed => true
    case Resume(p, outcome) => p in s.awaiting && EndsLoop(s, p, outcome, t)
    case _ => false
  }

  ghost predicate EndsLoop(s: State, p: Pending, outcome: Outcome, t: TabId) {
    p.tab == t &&
    match p
    case ReattachProbe(_, _) => outcome.Failed?
    case ReattachSaved(_) => true
    case AttachWait(_, Reattach(n, up)) => n >= 4 && !GoesThrough(s, Reattach(n, up), outcome)
    case _ => false
  }

  lemma WaitingExactly(s: State, e: Event, t: TabId)
    requires !e.Restart?
    ensures t in Next(s, e).reattachPending <==> StartsWaiting(s, e, t) || (t in s.reattachPending && !EndsWaiting(s, e, t))
  {
    if e.Resume? && e.p in s.awaiting {
      ResumedNext(s, e.p, e.outcome);
      ResumeWaiting(s.(awaiting := s.awaiting - multiset{e.p}), e.p, e.outcome, t);
    } else if !e.Resume? {
      EventWaiting(s, e, t);
    }
  }

  lemma EventWaiting(s: State, e: Event, t: TabId)
    requires !e.Restart? && !e.Resume?
    ensures t in Next(s, e).reattachPending <==> t in s.reattachPending && !EndsWaiting(s, e, t)
  {
  }

  lemma ResumeWaiting(s: State, p: Pending, outcome: Outcome, t: TabId)
    ensures t in Continue(s, p, outcome).reattachPending
            <==> (p == ProbeWait(t) && !outcome.Failed?) || (t in s.reattachPending && !EndsLoop(s, p, outcome, t))
  {
  }

  /** A handler of the tab's re-attach loop. */
  predicate InLoop(p: Pending, t: TabId) {
    match p
    case ReattachSleep(u, n) => u == t
    case ReattachProbe(u, n) => u == t
    case AttachWait(u, origin) => u == t && origin.Reattach?
    case ReattachSaved(u) => u == t
    case _ => false
  }

  predicate Attempt(p: Pending, n: nat) {
    match p
    case ReattachSleep(_, m) => n == m
    case ReattachProbe(_, m) => n == m
    case AttachWait(_, Reattach(m, _)) => n == m
    case _ => false
  }

  /** Every tab that waits for re-attach has a handler that will end the waiting, and no handler is
      beyond its fifth attempt. */
  ghost predicate Looped(s: State) {
    && (forall t :: t in s.reattachPending ==> exists p :: p in s.awaiting && InLoop(p, t))
    && (forall p, n :: p in s.awaiting && Attempt(p, n) ==> n < 5)
  }

  lemma LoopContinues(s: State, p: Pending, outcome: Outcome, t: TabId)
    requires p in s.awaiting && InLoop(p, t) && t in s.reattachPending && !EndsWaiting(s, Resume(p, outcome), t)
    ensures Continues(s, p, outcome).Some? && InLoop(Continues(s, p, outcome).value, t)
  {
  }

  lemma LoopWaits(s: State, e: Event, t: TabId)
    requires !e.Restart? && Waits(s, e).Some? && InLoop(Waits(s, e).value, t)
    ensures exists p :: p in Next(s, e).awaiting && InLoop(p, t)
  {
    HandlersExactly(s, e);
    assert Waits(s, e).value in Next(s, e).awaiting;
  }

  lemma LoopStays(s: State, e: Event, t: TabId)
    requires !e.Restart? && Looped(s) && t in Next(s, e).reattachPending
    ensures exists p :: p in Next(s, e).awaiting && InLoop(p, t)
  {
    WaitingExactly(s, e, t);
    if t !in s.reattachPending {
      LoopWaits(s, e, t);
    } else {
      var p :| p in s.awaiting && InLoop(p, t);
      if e.Resume? && e.p == p {
        LoopContinues(s, p, e.outcome, t);
        LoopWaits(s, e, t);
      } else {
        HandlersExactly(s, e);
        assert p in Next(s, e).awaiting;
      }
    }
  }

  lemma AttemptContinues(s: State, p: Pending, outcome: Outcome, q: Pending, n: nat)
    requires Continues(s, p, outcome) == Some(q) && Attempt(q, n)
    ensures n == 0 || Attempt(p, n) || (n < 5 && Attempt(p, n - 1))
  {
  }

  lemma AttemptsBelowFive(s: State, e: Event, p: Pending, n: nat)
    requires !e.Restart? && Looped(s) && p in Next(s, e).awaiting && Attempt(p, n)
    ensures n < 5
  {
    HandlersExactly(s, e);
    if p !in s.awaiting && e.Resume? {
      AttemptContinues(s, e.p, e.outcome, p, n);
    }
  }

  /** No tab is stuck: in every run a tab waits for re-attach only while a handler of its loop, at most
      in its fifth attempt, is underway. */
  lemma {:induction false} RunLooped(events: seq<Event>)
    ensures Looped(Run(events))
  {
    if events != [] {
      var s, e := Run(events[..|events| - 1]), events[|events| - 1];
      RunLooped(events[..|events| - 1]);
      if !e.Restart? {
        forall t | t in Next(s, e).reattachPending ensures exists p :: p in Next(s, e).awaiting && InLoop(p, t) {
          LoopStays(s, e, t);
        }
        forall p, n | p in Next(s, e).awaiting && Attempt(p, n) ensures n < 5 {
          AttemptsBelowFive(s, e, p, n);
        }
      }
    }
  }

  // ---- the snapshots ----

  /** The event stores a snapshot: the end of a detach, of an attach that goes through or of a
      re-announcement, and the removal or replacement of a tab of the table. */
  ghost predicate Stores(s: State, e: Event) {
    match e
    case TabRemoved(t) => TabAt(s, t).Some?
    case TabReplaced(_, removed) => TabAt(s, removed).Some?
    case AnnounceEnd => true
    case Resume(p, outcome) =>
      p in s.awaiting && (p.DetachWait? || (p.AttachWait? && GoesThrough(s, p.origin, outcome)))
    case _ => false
  }

  /** What is stored is the table as the event leaves it. */
  lemma SavedExactly(s: State, e: Event)
    requires !e.Restart?
    ensures Next(s, e).saved == if Stores(s, e) then s.saved + [Next(s, e).index.Save()] else s.saved
  {
    if e.Resume? && e.p in s.awaiting {
      ResumeSaves(s.(awaiting := s.awaiting - multiset{e.p}), e.p, e.outcome);
    } else if !e.Resume? {
      EventSaves(s, e);
    }
  }

  lemma EventSaves(s: State, e: Event)
    requires !e.Restart? && !e.Resume?
    ensures Next(s, e).saved == if Stores(s, e) then s.saved + [Next(s, e).index.Save()] else s.saved
  {
  }

  lemma ResumeSaves(s: State, p: Pending, outcome: Outcome)
    ensures var r := Continue(s, p, outcome);
      r.saved == if p.DetachWait? || (p.AttachWait? && GoesThrough(s, p.origin, outcome)) then s.saved + [r.index.Save()] else s.saved
  {
  }

  // ---- a restart, and the socket ----

  /** A restarted worker has nothing but what it rehydrates: no child sessions, locks or handlers, and
      no connection; only the snapshots survive. */
  lemma RestartExactly(s: State, from: Option<nat>, alive: set<TabId>)
    requires Inv(s)
    ensures var r := Next(s, Restart(from, alive));
      && r.children.m == map[] && r.children.keys == [] && r.reattachPending == {} && r.locks == {} && r.awaiting == multiset{}
      && !r.relayOpen && r.sent == [] && r.saved == s.saved
      && forall n :: Held(r.index, n) <==> Revives(SnapshotFrom(s, from), alive, n)
  {
    forall n ensures Held(Next(s, Restart(from, alive)).index, n) <==> Revives(SnapshotFrom(s, from), alive, n) {
      HeldAfterRestart(s, from, alive, n);
    }
  }

  lemma SocketExactly(s: State, e: Event)
    requires !e.Restart?
    ensures Next(s, e).relayOpen <==> e.SocketOpened? || (s.relayOpen && !e.SocketLost? && !e.RelayClosed?)
  {
  }
}
