/** How far the session index can be trusted: when it finds every attached tab, when it is
    the exact inverse of the tab table, and what its gaps do to routing. */
module RelayIndex {
  import opened Options
  import opened OrderedMaps
  import opened RelayMachine
  import opened RelaySafety

  // ---- what an event does to the index ----

  ghost function NextIndex(s: State, e: Event): Index {
    var x := s.index;
    match e
    case Clicked(t) =>
      if t in s.locks || t in s.reattachPending then x
      else if x.Occupied(t) then x.Drop(t)
      else x.Connect(t)
    case DebuggerDetached(t, userEnded) => if userEnded && t in x.tabs.m then x.Drop(t) else x
    case TabRemoved(t) => if t in x.tabs.m then x.Drop(t) else x
    case TabReplaced(added, removed) => x.Replace(added, removed)
    case Restart(from, alive) => RestartFrom(s, from, alive).index
    case Resume(p, outcome) =>
      if p !in s.awaiting then x
      else (
        match p
        case AttachWait(t, _) => if outcome.Target? && outcome.targetId != "" then x.Commit(t, outcome.targetId) else x
        case ClickError(t) => x.Abandon(t)
        case ProbeWait(t) => if outcome.Failed? || t !in s.reattachPending then x.Drop(t) else x
        case AnnounceValidate(t, info) => if outcome.Failed? then x.Condemn(t, info) else x
        case _ => x)
    case _ => x
  }

  lemma NextIndexed(s: State, e: Event)
    ensures Next(s, e).index == NextIndex(s, e)
  {
  }

  // ---- what an event leaves in flight ----

  /** What a resumed handler waits for next, if anything. */
  ghost function Follow(s: State, p: Pending, outcome: Outcome): Option<Pending> {
    match p
    case ConnectWait(t) => Some(if outcome.Failed? then ClickError(t) else AttachWait(t, Click))
    case AttachWait(t, origin) =>
      AfterAttach(t, origin, outcome.Target? && outcome.targetId != "" &&
                             (s.relayOpen || (origin.Reattach? && !origin.relayUp)))
    case DetachWait(t, byClick) => if byClick then Some(ClickFinally(t)) else None
    case ProbeWait(t) =>
      if outcome.Failed? then Some(DetachWait(t, false))
      else if t in s.reattachPending then None
      else Some(ReattachSleep(t, 0))
    case ReattachSleep(t, n) =>
      if t in s.reattachPending then Some(ReattachProbe(t, n)) else None
    case ReattachProbe(t, n) => if outcome.Failed? then None else Some(AttachWait(t, Reattach(n, s.relayOpen)))
    case AnnounceValidate(t, info) => if outcome.Failed? then None else Some(AnnounceDescribe(t, info))
    case _ => None
  }

  lemma ContinueAwaits(s: State, p: Pending, outcome: Outcome)
    ensures Continue(s, p, outcome).awaiting == Plus(s.awaiting, Follow(s, p, outcome))
  {
  }

  // ---- completeness ----

  /** Every attached tab is found under its own session. */
  ghost predicate Complete(x: Index) {
    forall t, n: nat :: Holds(x, t, n) ==> n in x.tabBySession && x.tabBySession[n] == t
  }

  /** The late verdict of a re-announcement strikes the session of a tab that has moved. */
  ghost predicate Misjudges(s: State, e: Event) {
    && e.Resume? && e.p in s.awaiting && e.p.AnnounceValidate? && e.outcome.Failed?
    && e.p.info.Connected?
    && exists u :: u != e.p.tab && Holds(s.index, u, e.p.info.session)
  }

  lemma DropComplete(x: Index, tab: TabId)
    requires Routed(x) && Complete(x)
    ensures Complete(x.Drop(tab))
  {
    var y := x.Drop(tab);
    assert forall t, n: nat :: Holds(y, t, n) ==> Holds(x, t, n);
    if x.Occupied(tab) {
      assert Holds(x, tab, x.tabs.m[tab].session);
    }
  }

  lemma CommitComplete(x: Index, tab: TabId, targetId: string)
    requires Routed(x) && Complete(x)
    ensures Complete(x.Commit(tab, targetId))
  {
    var y := x.Commit(tab, targetId);
    assert forall t, n: nat :: Holds(y, t, n) ==> Holds(x, t, n) || (t == tab && n == x.nextSession);
  }

  lemma ReplaceComplete(x: Index, added: TabId, removed: TabId)
    requires Routed(x) && Complete(x)
    ensures Complete(x.Replace(added, removed))
  {
    var y := x.Replace(added, removed);
    if removed in x.tabs.m {
      forall t, n: nat | Holds(y, t, n) ensures n in y.tabBySession && y.tabBySession[n] == t {
        assert Holds(x, if t == added then removed else t, n);
        if x.Occupied(removed) {
          assert Holds(x, removed, x.tabs.m[removed].session);
        }
      }
    }
  }

  lemma CondemnComplete(x: Index, tab: TabId, info: Tab)
    requires Routed(x) && Complete(x)
    ensures Complete(x.Condemn(tab, info)) <==>
            !(info.Connected? && exists u :: u != tab && Holds(x, u, info.session))
  {
    assert forall t, n: nat :: Holds(x.Condemn(tab, info), t, n) <==> t != tab && Holds(x, t, n);
  }

  lemma AbandonComplete(x: Index, tab: TabId)
    requires Complete(x)
    ensures Complete(x.Abandon(tab))
  {
    assert forall u, n: nat :: Holds(x.Abandon(tab), u, n) ==> Holds(x, u, n);
  }

  lemma ConnectComplete(x: Index, tab: TabId)
    requires Complete(x)
    ensures Complete(x.Connect(tab))
  {
    assert forall u, n: nat :: Holds(x.Connect(tab), u, n) ==> Holds(x, u, n);
  }

  lemma ResumeComplete(s: State, p: Pending, outcome: Outcome)
    requires Routed(s.index) && Complete(s.index) && p in s.awaiting
    ensures Complete(NextIndex(s, Resume(p, outcome))) <==> !Misjudges(s, Resume(p, outcome))
  {
    var x := s.index;
    match p {
      case AttachWait(t, _) => if outcome.Target? { CommitComplete(x, t, outcome.targetId); }
      case ClickError(t) => AbandonComplete(x, t);
      case ProbeWait(t) => DropComplete(x, t);
      case AnnounceValidate(t, info) => CondemnComplete(x, t, info);
      case _ =>
    }
  }

  /** From a complete index, one step loses a tab exactly when a validation verdict comes back
      negative for a session that another tab holds by then. */
  lemma CompleteStep(s: State, e: Event)
    requires Inv(s) && Complete(s.index)
    ensures Complete(Next(s, e).index) <==> !Misjudges(s, e)
  {
    NextIndexed(s, e);
    var x := s.index;
    match e {
      case Resume(p, outcome) => if p in s.awaiting { ResumeComplete(s, p, outcome); }
      case Clicked(t) =>
        DropComplete(x, t);
        ConnectComplete(x, t);
      case DebuggerDetached(t, userEnded) => DropComplete(x, t);
      case TabRemoved(t) => DropComplete(x, t);
      case TabReplaced(added, removed) => ReplaceComplete(x, added, removed);
      case Restart(from, alive) =>
        if from.Some? && from.value < |s.saved| { RehydrateExact(s.saved[from.value], alive); }
      case _ =>
    }
  }

  // ---- runs in which no tab is replaced while its validation is awaited ----

  ghost predicate BeingJudged(s: State, tab: TabId) {
    exists p :: p in s.awaiting && p.AnnounceValidate? && p.tab == tab && p.info.Connected?
                && Holds(s.index, tab, p.info.session)
  }

  ghost predicate Undisturbed(events: seq<Event>) {
    events == [] ||
    var front, e := events[..|events| - 1], events[|events| - 1];
    && Undisturbed(front)
    && (e.TabReplaced? ==> !BeingJudged(Run(front), e.removed))
  }

  /** A session under validation is held by the tab being validated, or by none. */
  ghost predicate Watched(s: State) {
    forall p :: p in s.awaiting && p.AnnounceValidate? && p.info.Connected? ==>
      && p.info.session < s.index.nextSession
      && forall u :: Holds(s.index, u, p.info.session) ==> u == p.tab
  }

  lemma NoNewValidation(s: State, e: Event)
    requires !e.AnnounceNext? && !e.Resume?
    ensures forall p :: p in Next(s, e).awaiting && p.AnnounceValidate? ==> p in s.awaiting
  {
  }

  lemma ResumeNoValidation(s: State, p: Pending, outcome: Outcome)
    requires p in s.awaiting
    ensures forall q :: q in Next(s, Resume(p, outcome)).awaiting && q.AnnounceValidate? ==> q in s.awaiting
  {
    var resumed := s.(awaiting := s.awaiting - multiset{p});
    ContinueAwaits(resumed, p, outcome);
    var next := Follow(resumed, p, outcome);
    assert next.Some? ==> !next.value.AnnounceValidate?;
  }

  lemma ResumeHolders(s: State, p: Pending, outcome: Outcome)
    ensures var y := NextIndex(s, Resume(p, outcome));
      && s.index.nextSession <= y.nextSession
      && forall t, n: nat :: Holds(y, t, n) ==> Holds(s.index, t, n) || s.index.nextSession <= n
  {
  }

  lemma NoNewHolder(s: State, e: Event)
    requires !e.TabReplaced? && !e.Restart?
    ensures s.index.nextSession <= Next(s, e).index.nextSession
    ensures forall t, n: nat :: Holds(Next(s, e).index, t, n) ==> Holds(s.index, t, n) || s.index.nextSession <= n
  {
    NextIndexed(s, e);
    if e.Resume? {
      ResumeHolders(s, e.p, e.outcome);
    }
  }

  lemma NextWatched(s: State, e: Event)
    requires Inv(s) && Watched(s)
    requires e.TabReplaced? ==> !BeingJudged(s, e.removed)
    ensures Watched(Next(s, e))
  {
    var r := Next(s, e);
    if e.TabReplaced? {
      forall p, u | p in r.awaiting && p.AnnounceValidate? && p.info.Connected? && Holds(r.index, u, p.info.session)
        ensures u == p.tab
      {
        assert Holds(s.index, u, p.info.session) || Holds(s.index, e.removed, p.info.session);
      }
    } else if e.AnnounceNext? {
      if s.index.Occupied(e.tab) {
        assert Holds(s.index, e.tab, s.index.tabs.m[e.tab].session);
      }
    } else if !e.Restart? {
      if e.Resume? && e.p in s.awaiting {
        ResumeNoValidation(s, e.p, e.outcome);
      } else if !e.Resume? {
        NoNewValidation(s, e);
      }
      NoNewHolder(s, e);
    }
  }

  /** Index completeness: unless a tab is replaced while its validation is awaited, every
      attached tab is always found under exactly its own session. */
  lemma {:induction false} RunComplete(events: seq<Event>)
    requires Undisturbed(events)
    ensures Complete(Run(events).index) && Watched(Run(events))
  {
    if events != [] {
      var front, e := events[..|events| - 1], events[|events| - 1];
      RunComplete(front);
      RunKeeps(front);
      NextWatched(Run(front), e);
      CompleteStep(Run(front), e);
    }
  }

  // ---- the exact inverse ----

  /** The steps that leave a session behind in the index, or take a held one out of it. */
  ghost predicate Strays(s: State, e: Event) {
    var x := s.index;
    match e
    case TabReplaced(added, removed) => removed in x.tabs.m && added != removed && x.Occupied(added)
    case Resume(p, outcome) =>
      p in s.awaiting &&
      (match p
       case AttachWait(t, _) => outcome.Target? && outcome.targetId != "" && x.Occupied(t)
       case ClickError(t) => x.Occupied(t)
       case AnnounceValidate(t, info) =>
         outcome.Failed? &&
         if x.Occupied(t) then !info.Connected? || x.tabs.m[t].session != info.session
         else info.Connected? && Held(x, info.session)
       case _ => false)
    case _ => false
  }

  /** Removing one tab and at most one session from an exact inverse leaves an exact inverse
      exactly when they belong together. */
  lemma RemovePair(x: Index, y: Index, t: TabId, gone: Option<nat>)
    requires Routed(x) && IsInverse(x)
    requires y.tabs.m == x.tabs.m - {t}
    requires y.tabBySession == if gone.Some? then x.tabBySession - {gone.value} else x.tabBySession
    ensures IsInverse(y) <==>
      if x.Occupied(t) then gone == Some(x.tabs.m[t].session) else gone.None? || !Held(x, gone.value)
  {
    assert forall u, n: nat :: Holds(y, u, n) <==> u != t && Holds(x, u, n);
    if x.Occupied(t) {
      var n := x.tabs.m[t].session;
      assert Holds(x, t, n);
      assert n in y.tabBySession ==> !Holds(y, y.tabBySession[n], n);
    } else if gone.Some? && Held(x, gone.value) {
      var u :| Holds(x, u, gone.value);
      assert Holds(y, u, gone.value);
    }
  }

  lemma CommitInverse(x: Index, tab: TabId, targetId: string)
    requires Routed(x) && IsInverse(x)
    ensures IsInverse(x.Commit(tab, targetId)) <==> !x.Occupied(tab)
  {
    var y := x.Commit(tab, targetId);
    assert forall t, n: nat :: Holds(y, t, n) <==> if t == tab then n == x.nextSession else Holds(x, t, n);
    if x.Occupied(tab) {
      var n := x.tabs.m[tab].session;
      assert Holds(x, tab, n);
      assert n in y.tabBySession && !Holds(y, y.tabBySession[n], n);
    }
  }

  lemma ReplaceStrays(x: Index, added: TabId, removed: TabId)
    requires Routed(x) && IsInverse(x) && removed in x.tabs.m && added != removed && x.Occupied(added)
    ensures !IsInverse(x.Replace(added, removed))
  {
    var y, n := x.Replace(added, removed), x.tabs.m[added].session;
    assert Holds(x, added, n);
    assert !Holds(x, removed, n);
    assert n in y.tabBySession && y.tabBySession[n] == added && !Holds(y, added, n);
  }

  lemma ReplaceExactly(x: Index, added: TabId, removed: TabId)
    requires Routed(x) && IsInverse(x)
    ensures IsInverse(x.Replace(added, removed)) <==> !(removed in x.tabs.m && added != removed && x.Occupied(added))
  {
    if removed in x.tabs.m {
      if added != removed && x.Occupied(added) {
        ReplaceStrays(x, added, removed);
      } else {
        ReplaceInverse(x, added, removed);
      }
    }
  }

  lemma ConnectInverse(x: Index, t: TabId)
    requires IsInverse(x) && !x.Occupied(t)
    ensures IsInverse(x.Connect(t))
  {
    assert forall u, n: nat :: Holds(x.Connect(t), u, n) <==> Holds(x, u, n);
  }

  lemma ReplaceInverse(x: Index, added: TabId, removed: TabId)
    requires Routed(x) && IsInverse(x) && removed in x.tabs.m && (added == removed || !x.Occupied(added))
    ensures IsInverse(x.Replace(added, removed))
  {
    var y := x.Replace(added, removed);
    ReplaceComplete(x, added, removed);
    forall n | n in y.tabBySession ensures Holds(y, y.tabBySession[n], n) {
      assert Holds(x, removed, n) ==> Holds(y, added, n);
      assert n in x.tabBySession ==> Holds(x, x.tabBySession[n], n);
    }
  }

  lemma ResumeInverse(s: State, p: Pending, outcome: Outcome)
    requires Inv(s) && IsInverse(s.index) && p in s.awaiting
    ensures IsInverse(NextIndex(s, Resume(p, outcome))) <==> !Strays(s, Resume(p, outcome))
  {
    var x := s.index;
    match p {
      case AttachWait(t, origin) => if outcome.Target? { CommitInverse(x, t, outcome.targetId); }
      case ClickError(t) => RemovePair(x, x.Abandon(t), t, None);
      case ProbeWait(t) => DropInverse(x, t);
      case AnnounceValidate(t, info) =>
        RemovePair(x, x.Condemn(t, info), t, if info.Connected? then Some(info.session) else None);
      case _ =>
    }
  }

  lemma DropInverse(x: Index, t: TabId)
    requires Routed(x) && IsInverse(x)
    ensures IsInverse(x.Drop(t))
  {
    RemovePair(x, x.Drop(t), t, if x.Occupied(t) then Some(x.tabs.m[t].session) else None);
  }

  /** From an exact inverse, the next index is an exact inverse unless the step strays. */
  lemma InverseStep(s: State, e: Event)
    requires Inv(s) && IsInverse(s.index)
    ensures IsInverse(Next(s, e).index) <==> !Strays(s, e)
  {
    NextIndexed(s, e);
    var x := s.index;
    match e {
      case Clicked(t) => if x.Occupied(t) { DropInverse(x, t); } else { ConnectInverse(x, t); }
      case DebuggerDetached(t, _) => DropInverse(x, t);
      case TabRemoved(t) => DropInverse(x, t);
      case TabReplaced(added, removed) => ReplaceExactly(x, added, removed);
      case Resume(p, outcome) => if p in s.awaiting { ResumeInverse(s, p, outcome); }
      case Restart(from, alive) =>
        if from.Some? && from.value < |s.saved| { RehydrateExact(s.saved[from.value], alive); }
      case _ =>
    }
  }

  // ---- routing ----

  /** A command for a held session reaches its holder whenever the index has the session;
      without a target id that is also the only way, unless the holder happens to come first. */
  lemma RouteReachesHolder(events: seq<Event>, u: TabId, n: nat, targetId: Option<string>)
    requires Holds(Run(events).index, u, n)
    ensures var s := Run(events);
      && (n in s.index.tabBySession || Undisturbed(events) ==> Route(s, Some(Main(n)), targetId) == Some(u))
      && (Route(s, Some(Main(n)), None) == Some(u) <==>
            n in s.index.tabBySession || FirstConnected(s.index.tabs.keys, s.index.tabs.m) == Some(u))
  {
    RunKeeps(events);
    if Undisturbed(events) {
      RunComplete(events);
    }
  }

  // ---- operation locks ----

  /** Click operations in flight on a tab. */
  function ClickOps(awaiting: multiset<Pending>, t: TabId): nat {
    awaiting[ConnectWait(t)] + awaiting[AttachWait(t, Click)] + awaiting[ClickError(t)]
    + awaiting[ClickFinally(t)] + awaiting[DetachWait(t, true)]
  }

  ghost predicate Exclusive(s: State) {
    forall t :: ClickOps(s.awaiting, t) == if t in s.locks then 1 else 0
  }

  /** The tab whose lock a suspended handler will release. */
  function LockOf(p: Pending): Option<TabId> {
    match p
    case ConnectWait(t) => Some(t)
    case AttachWait(t, Click) => Some(t)
    case ClickError(t) => Some(t)
    case ClickFinally(t) => Some(t)
    case DetachWait(t, true) => Some(t)
    case _ => None
  }

  predicate Releases(p: Pending) {
    p.ClickError? || p.ClickFinally?
  }

  lemma ClickOpsAdd(awaiting: multiset<Pending>, p: Pending, t: TabId)
    ensures ClickOps(awaiting + multiset{p}, t) == ClickOps(awaiting, t) + if LockOf(p) == Some(t) then 1 else 0
  {
  }

  /** A resumed handler either keeps its lock and stays in flight, or ends and releases it. */
  lemma ContinueLocks(s: State, p: Pending, outcome: Outcome, t: TabId)
    ensures var r := Continue(s, p, outcome);
      && ClickOps(r.awaiting, t) == ClickOps(s.awaiting, t) + (if LockOf(p) == Some(t) && !Releases(p) then 1 else 0)
      && (t in r.locks <==> t in s.locks && !(LockOf(p) == Some(t) && Releases(p)))
  {
    var next := Follow(s, p, outcome);
    ContinueAwaits(s, p, outcome);
    if next.Some? {
      ClickOpsAdd(s.awaiting, next.value, t);
      assert LockOf(next.value) == if Releases(p) then None else LockOf(p);
    }
    ContinueReleases(s, p, outcome);
  }

  lemma ContinueReleases(s: State, p: Pending, outcome: Outcome)
    ensures Continue(s, p, outcome).locks == if Releases(p) then s.locks - {p.tab} else s.locks
  {
  }

  lemma ClickLocks(s: State, tab: TabId, t: TabId)
    ensures var r := ClickTab(s, tab);
      && (t in s.locks ==> t in r.locks)
      && ClickOps(r.awaiting, t) == ClickOps(s.awaiting, t) + (if t in r.locks && t !in s.locks then 1 else 0)
  {
    var started := if s.index.Occupied(tab) then DetachWait(tab, true) else ConnectWait(tab);
    ClickOpsAdd(s.awaiting, started, t);
    ClickAwaits(s, tab);
  }

  lemma ClickAwaits(s: State, tab: TabId)
    ensures var r, started := ClickTab(s, tab), if s.index.Occupied(tab) then DetachWait(tab, true) else ConnectWait(tab);
      if tab in s.locks || tab in s.reattachPending then r.awaiting == s.awaiting && r.locks == s.locks
      else r.awaiting == s.awaiting + multiset{started} && r.locks == s.locks + {tab}
  {
  }

  lemma StepLocks(s: State, e: Event, t: TabId)
    requires ClickOps(s.awaiting, t) == if t in s.locks then 1 else 0
    ensures ClickOps(Next(s, e).awaiting, t) == if t in Next(s, e).locks then 1 else 0
  {
    match e {
      case Clicked(tab) => ClickLocks(s, tab, t);
      case Resume(p, outcome) =>
        if p in s.awaiting {
          var resumed := s.(awaiting := s.awaiting - multiset{p});
          assert resumed.awaiting + multiset{p} == s.awaiting;
          ClickOpsAdd(resumed.awaiting, p, t);
          ContinueLocks(resumed, p, outcome, t);
        }
      case _ => OtherLocks(s, e, t);
    }
  }

  lemma OtherLocks(s: State, e: Event, t: TabId)
    requires !e.Clicked? && !e.Resume?
    requires ClickOps(s.awaiting, t) == if t in s.locks then 1 else 0
    ensures ClickOps(Next(s, e).awaiting, t) == if t in Next(s, e).locks then 1 else 0
  {
  }

  lemma ExclusiveStep(s: State, e: Event)
    requires Exclusive(s)
    ensures Exclusive(Next(s, e))
  {
    forall t ensures ClickOps(Next(s, e).awaiting, t) == if t in Next(s, e).locks then 1 else 0 {
      StepLocks(s, e, t);
    }
  }

  /** The per-tab locks do their job: at every moment a tab has one click operation in flight
      if it is locked and none otherwise. */
  lemma {:induction false} RunExclusive(events: seq<Event>)
    ensures Exclusive(Run(events))
  {
    if events != [] {
      RunExclusive(events[..|events| - 1]);
      ExclusiveStep(Run(events[..|events| - 1]), events[|events| - 1]);
    }
  }
}
