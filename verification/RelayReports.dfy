/** Which steps report a session detached, and how often over a run: late announcements after
    a report, and second reports after a restart. */
module RelayReports {
  import opened Options
  import opened OrderedMaps
  import opened RelayMachine
  import opened RelaySafety
  import opened RelayIndex

  // ---- one step ----

  /** The tab an event detaches, attached or not. */
  ghost function DetachedTab(s: State, e: Event): Option<TabId> {
    match e
    case Clicked(t) => if t in s.locks || t in s.reattachPending then None else Some(t)
    case DebuggerDetached(t, userEnded) => if userEnded then Some(t) else None
    case TabRemoved(t) => Some(t)
    case Resume(p, outcome) =>
      if p in s.awaiting && p.ProbeWait? && (outcome.Failed? || p.tab !in s.reattachPending) then Some(p.tab) else None
    case _ => None
  }

  /** The event detaches the tab that holds the session. */
  ghost predicate Detaches(s: State, e: Event, n: nat) {
    DetachedTab(s, e).Some? && Holds(s.index, DetachedTab(s, e).value, n)
  }

  ghost predicate Reports(s: State, e: Event, n: nat) {
    s.relayOpen && Detaches(s, e, n)
  }

  ghost predicate Reported(s: State, n: nat) {
    Detached(Main(n)) in s.sent
  }

  lemma DetachTells(s: State, tab: TabId, ids: seq<string>, n: nat)
    requires Tidy(s.index)
    ensures Detached(Main(n)) in Tell(s, ChildDetaches(ids) + MainDetach(s.index.Get(tab)))
            <==> Reported(s, n) || (s.relayOpen && Holds(s.index, tab, n))
  {
    var children, main := ChildDetaches(ids), MainDetach(s.index.Get(tab));
    assert Detached(Main(n)) !in children;
    assert Detached(Main(n)) in main <==> Holds(s.index, tab, n);
    assert forall m :: m in s.sent + (children + main) <==> m in s.sent || m in children || m in main;
  }

  lemma MainOnly(x: Index, tab: TabId)
    ensures ChildDetaches([]) + MainDetach(x.Get(tab)) == MainDetach(x.Get(tab))
  {
  }

  lemma ClickReports(s: State, t: TabId, n: nat)
    requires Tidy(s.index)
    ensures Reported(ClickTab(s, t), n)
            <==> Reported(s, n) || (s.relayOpen && t !in s.locks && t !in s.reattachPending && Holds(s.index, t, n))
  {
    DetachTells(s, t, Select(s.children.keys, ChildrenOf(s.children, t)), n);
  }

  lemma DetachedReports(s: State, t: TabId, userEnded: bool, n: nat)
    requires Tidy(s.index)
    ensures Reported(StartDebuggerDetach(s, t, userEnded), n)
            <==> Reported(s, n) || (s.relayOpen && userEnded && Holds(s.index, t, n))
  {
    DetachTells(s, t, Select(s.children.keys, ChildrenOf(s.children, t)), n);
  }

  lemma RemovedReports(s: State, t: TabId, n: nat)
    requires Tidy(s.index)
    ensures Reported(RemoveTab(s, t), n) <==> Reported(s, n) || (s.relayOpen && Holds(s.index, t, n))
  {
    MainOnly(s.index, t);
    DetachTells(s, t, [], n);
  }

  /** A session is newly reported exactly by the steps that detach its holder with the relay up. */
  lemma ReportsExactly(s: State, e: Event, n: nat)
    requires Inv(s) && !e.Restart?
    ensures Reported(Next(s, e), n) <==> Reported(s, n) || Reports(s, e, n)
  {
    match e {
      case Clicked(t) => ClickReports(s, t, n);
      case DebuggerDetached(t, userEnded) => DetachedReports(s, t, userEnded, n);
      case TabRemoved(t) => RemovedReports(s, t, n);
      case Resume(p, outcome) => if p in s.awaiting { ResumeReports(s, p, outcome, n); }
      case _ =>
    }
  }

  lemma ResumeReports(s: State, p: Pending, outcome: Outcome, n: nat)
    requires Inv(s) && p in s.awaiting
    ensures Reported(Next(s, Resume(p, outcome)), n) <==> Reported(s, n) || Reports(s, Resume(p, outcome), n)
  {
    var resumed := s.(awaiting := s.awaiting - multiset{p});
    if p.ProbeWait? {
      ProbeReports(resumed, p.tab, outcome, n);
    } else {
      ContinueQuiet(resumed, p, outcome, n);
    }
  }

  lemma ProbeReports(s: State, t: TabId, outcome: Outcome, n: nat)
    requires Tidy(s.index)
    ensures Reported(Continue(s, ProbeWait(t), outcome), n) <==>
      Reported(s, n) || (s.relayOpen && (outcome.Failed? || t !in s.reattachPending) && Holds(s.index, t, n))
  {
    if outcome.Failed? {
      DetachTells(s, t, Select(s.children.keys, ChildrenOf(s.children, t)), n);
    } else {
      MainOnly(s.index, t);
      DetachTells(s, t, [], n);
    }
  }

  lemma ContinueQuiet(s: State, p: Pending, outcome: Outcome, n: nat)
    requires !p.ProbeWait?
    ensures Reported(Continue(s, p, outcome), n) <==> Reported(s, n)
  {
  }

  // ---- sessions that leave ----

  /** The event takes the session from its holder without detaching it: another tab takes the
      holder's place, the holder is attached once more, its click fails, or its validation does. */
  ghost predicate Slips(s: State, e: Event, n: nat) {
    match e
    case TabReplaced(added, removed) => removed in s.index.tabs.m && added != removed && Holds(s.index, added, n)
    case Resume(p, outcome) =>
      p in s.awaiting && Holds(s.index, p.tab, n) &&
      (match p
       case AttachWait(_, _) => outcome.Target? && outcome.targetId != ""
       case ClickError(_) => true
       case AnnounceValidate(_, _) => outcome.Failed?
       case _ => false)
    case _ => false
  }

  lemma ForgottenHeld(x: Index, y: Index, t: TabId, n: nat)
    requires Routed(x) && y.tabs.m == x.tabs.m - {t}
    ensures Held(y, n) <==> Held(x, n) && !Holds(x, t, n)
  {
    assert forall u :: Holds(y, u, n) <==> u != t && Holds(x, u, n);
    if Held(x, n) && !Holds(x, t, n) {
      var u :| Holds(x, u, n);
      assert Holds(y, u, n);
    }
  }

  lemma ConnectHeld(x: Index, t: TabId, n: nat)
    requires !x.Occupied(t)
    ensures Held(x.Connect(t), n) <==> Held(x, n)
  {
    assert forall u :: Holds(x.Connect(t), u, n) <==> Holds(x, u, n);
    if u :| Holds(x, u, n) {
      assert Holds(x.Connect(t), u, n);
    }
  }

  lemma CommitHeld(x: Index, t: TabId, targetId: string, n: nat)
    requires Routed(x) && Held(x, n)
    ensures Held(x.Commit(t, targetId), n) <==> !Holds(x, t, n)
  {
    var y := x.Commit(t, targetId);
    var h :| Holds(x, h, n);
    assert forall u :: Holds(y, u, n) <==> u != t && Holds(x, u, n);
    if h != t {
      assert Holds(y, h, n);
    }
  }

  lemma ReplaceHeld(x: Index, added: TabId, removed: TabId, n: nat)
    requires Routed(x) && Held(x, n)
    ensures Held(x.Replace(added, removed), n) <==> !(removed in x.tabs.m && added != removed && Holds(x, added, n))
  {
    var y := x.Replace(added, removed);
    var h :| Holds(x, h, n);
    if removed in x.tabs.m {
      assert forall u :: Holds(y, u, n) <==> if u == added then Holds(x, removed, n) else u != removed && Holds(x, u, n);
      assert h == removed ==> Holds(y, added, n);
      assert h != removed && h != added ==> Holds(y, h, n);
    }
  }

  lemma ResumeHeld(s: State, p: Pending, outcome: Outcome, n: nat)
    requires Inv(s) && p in s.awaiting && Held(s.index, n)
    ensures var e := Resume(p, outcome); Held(NextIndex(s, e), n) <==> !Detaches(s, e, n) && !Slips(s, e, n)
  {
    var x := s.index;
    match p {
      case AttachWait(t, _) => if outcome.Target? { CommitHeld(x, t, outcome.targetId, n); }
      case ClickError(t) => ForgottenHeld(x, x.Abandon(t), t, n);
      case ProbeWait(t) => ForgottenHeld(x, x.Drop(t), t, n);
      case AnnounceValidate(t, info) => ForgottenHeld(x, x.Condemn(t, info), t, n);
      case _ =>
    }
  }

  lemma StillHeld(s: State, e: Event, n: nat)
    requires Inv(s) && !e.Restart? && Held(s.index, n)
    ensures Held(Next(s, e).index, n) <==> !Detaches(s, e, n) && !Slips(s, e, n)
  {
    NextIndexed(s, e);
    var x := s.index;
    match e {
      case Clicked(t) => if x.Occupied(t) { ForgottenHeld(x, x.Drop(t), t, n); } else { ConnectHeld(x, t, n); }
      case DebuggerDetached(t, _) => ForgottenHeld(x, x.Drop(t), t, n);
      case TabRemoved(t) => ForgottenHeld(x, x.Drop(t), t, n);
      case TabReplaced(added, removed) => ReplaceHeld(x, added, removed, n);
      case Resume(p, outcome) => if p in s.awaiting { ResumeHeld(s, p, outcome, n); }
      case _ =>
    }
  }

  /** A held session leaves the table exactly when its holder is detached or loses it otherwise,
      and it leaves unreported exactly when the relay is down or the holder is not detached. */
  lemma LeavesUnreported(s: State, e: Event, n: nat)
    requires Inv(s) && !e.Restart? && Held(s.index, n)
    ensures !Held(Next(s, e).index, n) <==> Detaches(s, e, n) || Slips(s, e, n)
    ensures !Held(Next(s, e).index, n) ==> (!Reported(Next(s, e), n) <==> !s.relayOpen || Slips(s, e, n))
  {
    StillHeld(s, e, n);
    ReportsExactly(s, e, n);
    assert !Reported(s, n);
    assert !(Detaches(s, e, n) && Slips(s, e, n));
  }

  // ---- runs ----

  /** The states of a run, from the first start on. */
  ghost function Trace(events: seq<Event>): (states: seq<State>)
    ensures |states| == |events| + 1
  {
    if events == [] then [Run([])]
    else
      var front := Trace(events[..|events| - 1]);
      front + [Next(front[|events| - 1], events[|events| - 1])]
  }

  /** The state before the k-th event of a run. */
  ghost function Before(events: seq<Event>, k: nat): State
    requires k <= |events|
  {
    Trace(events)[k]
  }

  lemma {:induction false} TraceRuns(events: seq<Event>, k: nat)
    requires k <= |events|
    ensures Trace(events)[k] == Run(events[..k])
    decreases |events|
  {
    if events != [] {
      var front := events[..|events| - 1];
      if k < |events| {
        assert front[..k] == events[..k];
        TraceRuns(front, k);
      } else {
        assert front[..|front|] == front && events[..k] == events;
        TraceRuns(front, |front|);
      }
    } else {
      assert events[..0] == [];
    }
  }

  lemma RunStep(events: seq<Event>, k: nat)
    requires k < |events|
    ensures Run(events[..k + 1]) == Next(Run(events[..k]), events[k])
  {
    assert events[..k + 1][..k] == events[..k];
  }

  lemma BeforeStep(events: seq<Event>, k: nat)
    requires k < |events|
    ensures Before(events, k + 1) == Next(Before(events, k), events[k])
    ensures Inv(Before(events, k)) && Ordered(Before(events, k))
  {
    TraceRuns(events, k);
    TraceRuns(events, k + 1);
    RunStep(events, k);
    RunKeeps(events[..k]);
    RunOrdered(events[..k]);
  }

  lemma BeforeFirst(events: seq<Event>)
    ensures Before(events, 0) == Run([])
  {
    TraceRuns(events, 0);
    assert events[..0] == [];
  }

  lemma BeforeReports(events: seq<Event>, k: nat, n: nat)
    requires k < |events| && !events[k].Restart?
    ensures Reported(Before(events, k + 1), n)
            <==> Reported(Before(events, k), n) || ReportsAt(events, k, n)
  {
    BeforeStep(events, k);
    ReportsExactly(Before(events, k), events[k], n);
  }

  /** No restart lies between event a and event j. */
  ghost predicate OneLife(events: seq<Event>, a: nat, j: nat)
    requires j <= |events|
  {
    forall k :: a <= k < j ==> !events[k].Restart?
  }

  /** Event d reports the session. */
  ghost predicate ReportsAt(events: seq<Event>, d: nat, n: nat)
    requires d < |events|
  {
    Reports(Before(events, d), events[d], n)
  }

  /** Whether the session has been reported before each event. */
  ghost function Reportedness(events: seq<Event>, n: nat): (r: seq<bool>)
    ensures |r| == |events| + 1 && forall k :: 0 <= k <= |events| ==> r[k] == Reported(Before(events, k), n)
  {
    seq(|events| + 1, k requires 0 <= k <= |events| => Reported(Before(events, k), n))
  }

  lemma {:induction false} Flips(r: seq<bool>, a: nat, j: nat) returns (d: nat)
    requires a <= j < |r| && r[a] != r[j]
    ensures a <= d < j && r[d] == r[a] && r[d + 1] != r[a]
    decreases j
  {
    if r[j - 1] == r[a] {
      d := j - 1;
    } else {
      d := Flips(r, a, j - 1);
    }
  }

  /** The report of the session between two events of one worker lifetime. */
  lemma ReportedBetween(events: seq<Event>, a: nat, j: nat, n: nat) returns (d: nat)
    requires a <= j <= |events| && OneLife(events, a, j)
    requires !Reported(Before(events, a), n) && Reported(Before(events, j), n)
    ensures a <= d < j && ReportsAt(events, d, n)
  {
    d := Flips(Reportedness(events, n), a, j);
    BeforeReports(events, d, n);
  }

  lemma StaysReported(events: seq<Event>, d: nat, j: nat, n: nat)
    requires d <= j <= |events| && OneLife(events, d, j) && Reported(Before(events, d), n)
    ensures Reported(Before(events, j), n)
  {
    if !Reported(Before(events, j), n) {
      var k := Flips(Reportedness(events, n), d, j);
      BeforeReports(events, k, n);
    }
  }

  // ---- late announcements ----

  /** A re-announcement of the tab, as it was then, is on its way. */
  ghost predicate Announcing(s: State, t: TabId, info: Tab) {
    AnnounceValidate(t, info) in s.awaiting || AnnounceDescribe(t, info) in s.awaiting
  }

  /** Event a starts the re-announcement of the tab, which holds a session then. */
  ghost predicate Announced(events: seq<Event>, a: nat, t: TabId, info: Tab)
    requires a < |events|
  {
    events[a] == AnnounceNext(t) && Before(events, a).index.Get(t) == Some(info) && Persistable(info)
  }

  lemma StepAnnounces(s: State, e: Event, t: TabId, info: Tab)
    requires Announcing(Next(s, e), t, info)
    ensures !e.Restart?
    ensures Announcing(s, t, info) || (e == AnnounceNext(t) && s.index.Get(t) == Some(info) && Persistable(info))
  {
    if e.Resume? {
      ResumeAnnounces(s, e.p, e.outcome, t, info);
    } else if !e.AnnounceNext? {
      NoNewAnnouncement(s, e, t, info);
    }
  }

  lemma NoNewAnnouncement(s: State, e: Event, t: TabId, info: Tab)
    requires !e.AnnounceNext? && !e.Resume?
    ensures AnnounceValidate(t, info) in Next(s, e).awaiting ==> AnnounceValidate(t, info) in s.awaiting
    ensures AnnounceDescribe(t, info) in Next(s, e).awaiting ==> AnnounceDescribe(t, info) in s.awaiting
    ensures e.Restart? ==> Next(s, e).awaiting == multiset{}
  {
  }

  lemma ResumeAnnounces(s: State, p: Pending, outcome: Outcome, t: TabId, info: Tab)
    requires Announcing(Next(s, Resume(p, outcome)), t, info)
    ensures Announcing(s, t, info)
  {
    if p in s.awaiting {
      var resumed := s.(awaiting := s.awaiting - multiset{p});
      ContinueAwaits(resumed, p, outcome);
      FollowAnnounces(resumed, p, outcome);
      PlusAdds(resumed.awaiting, Follow(resumed, p, outcome), AnnounceValidate(t, info));
      PlusAdds(resumed.awaiting, Follow(resumed, p, outcome), AnnounceDescribe(t, info));
    }
  }

  lemma FollowAnnounces(s: State, p: Pending, outcome: Outcome)
    ensures var next := Follow(s, p, outcome);
      && (next.Some? ==> !next.value.AnnounceValidate?)
      && (next.Some? && next.value.AnnounceDescribe? ==> p == AnnounceValidate(next.value.tab, next.value.info))
  {
  }

  lemma PlusAdds(awaiting: multiset<Pending>, next: Option<Pending>, q: Pending)
    ensures q in Plus(awaiting, next) <==> q in awaiting || next == Some(q)
  {
  }

  /** Where a re-announcement on its way comes from: the last event started it, or it was on its way
      before. */
  lemma StartedOrBefore(events: seq<Event>, j: nat, t: TabId, info: Tab) returns (before: bool)
    requires j <= |events| && Announcing(Before(events, j), t, info)
    ensures j > 0 && !events[j - 1].Restart?
    ensures if before then Announcing(Before(events, j - 1), t, info) else Announced(events, j - 1, t, info)
  {
    BeforeFirst(events);
    BeforeStep(events, j - 1);
    StepAnnounces(Before(events, j - 1), events[j - 1], t, info);
    before := Announcing(Before(events, j - 1), t, info);
  }

  lemma OneLifeMore(events: seq<Event>, a: nat, j: nat)
    requires a <= j < |events| && OneLife(events, a, j) && !events[j].Restart?
    ensures OneLife(events, a, j + 1)
  {
  }

  /** Every re-announcement on its way was started in the same worker lifetime. */
  lemma {:induction false} AnnouncedBefore(events: seq<Event>, j: nat, t: TabId, info: Tab) returns (a: nat)
    requires j <= |events| && Announcing(Before(events, j), t, info)
    ensures a < j && Announced(events, a, t, info) && OneLife(events, a, j)
    decreases j
  {
    var before := StartedOrBefore(events, j, t, info);
    if before {
      a := AnnouncedBefore(events, j - 1, t, info);
      OneLifeMore(events, a, j - 1);
    } else {
      a := j - 1;
    }
  }

  /** The session was reported detached after its re-announcement started. */
  ghost predicate DetachedMeanwhile(events: seq<Event>, j: nat, t: TabId, info: Tab)
    requires j <= |events| && info.Connected?
  {
    exists a: nat, d: nat :: a < d < j && OneLife(events, a, j) && Announced(events, a, t, info)
                             && ReportsAt(events, d, info.session)
  }

  /** The step announces a session that was already reported detached. */
  ghost predicate AnnouncesDetached(s: State, e: Event) {
    var r := Next(s, e);
    |s.sent| < |r.sent| && r.sent[|s.sent|].Attached? && Reported(s, r.sent[|s.sent|].session)
  }

  /** Of all steps only the last of a re-announcement announces a reported session. */
  lemma StepAnnouncesDetached(s: State, e: Event)
    requires Inv(s)
    ensures AnnouncesDetached(s, e) <==>
      (e.Resume? && e.p in s.awaiting && e.p.AnnounceDescribe? && e.p.info.Connected? && s.relayOpen
       && Reported(s, e.p.info.session))
  {
    if e.Resume? {
      if e.p in s.awaiting {
        ResumeAnnouncesDetached(s, e.p, e.outcome);
      }
    } else {
      OthersAnnounceNone(s, e);
    }
  }

  lemma OthersAnnounceNone(s: State, e: Event)
    requires !e.Resume?
    ensures !AnnouncesDetached(s, e)
  {
  }

  lemma ResumeAnnouncesDetached(s: State, p: Pending, outcome: Outcome)
    requires Inv(s) && p in s.awaiting
    ensures AnnouncesDetached(s, Resume(p, outcome)) <==>
      p.AnnounceDescribe? && p.info.Connected? && s.relayOpen && Reported(s, p.info.session)
  {
    if p.AttachWait? {
      assert !Reported(s, s.index.nextSession);
    }
  }

  /** A detached session is announced exactly when the last step of a re-announcement comes, with
      the relay up, after a step that detached the session's holder while the re-announcement was
      on its way. */
  lemma LateAnnouncement(events: seq<Event>, j: nat)
    requires j < |events|
    ensures var s, e := Before(events, j), events[j];
      AnnouncesDetached(s, e) <==>
        (e.Resume? && e.p in s.awaiting && e.p.AnnounceDescribe? && e.p.info.Connected? && s.relayOpen
         && DetachedMeanwhile(events, j, e.p.tab, e.p.info))
  {
    var s, e := Before(events, j), events[j];
    BeforeStep(events, j);
    StepAnnouncesDetached(s, e);
    if e.Resume? && e.p in s.awaiting && e.p.AnnounceDescribe? && e.p.info.Connected? {
      var t, info := e.p.tab, e.p.info;
      if Reported(s, info.session) {
        ReportedMeanwhile(events, j, t, info);
      } else if DetachedMeanwhile(events, j, t, info) {
        var a: nat, d: nat :| a < d < j && OneLife(events, a, j) && Announced(events, a, t, info)
                              && ReportsAt(events, d, info.session);
        MeanwhileReported(events, a, d, j, info.session);
      }
    }
  }

  lemma ReportedMeanwhile(events: seq<Event>, j: nat, t: TabId, info: Tab)
    requires j <= |events| && info.Connected? && Announcing(Before(events, j), t, info)
    requires Reported(Before(events, j), info.session)
    ensures DetachedMeanwhile(events, j, t, info)
  {
    var a := AnnouncedBefore(events, j, t, info);
    BeforeStep(events, a);
    assert Holds(Before(events, a).index, t, info.session);
    assert !Reported(Before(events, a), info.session);
    var d := ReportedBetween(events, a, j, info.session);
  }

  lemma MeanwhileReported(events: seq<Event>, a: nat, d: nat, j: nat, n: nat)
    requires a < d < j <= |events| && OneLife(events, a, j) && ReportsAt(events, d, n)
    ensures Reported(Before(events, j), n)
  {
    BeforeReports(events, d, n);
    StaysReported(events, d + 1, j, n);
  }

  // ---- a second report after a restart ----

  /** Events without a restart, from any state on. */
  function RunFrom(s: State, events: seq<Event>): State {
    if events == [] then s else Next(RunFrom(s, events[..|events| - 1]), events[|events| - 1])
  }

  ghost predicate NoRestart(events: seq<Event>) {
    OneLife(events, 0, |events|)
  }

  lemma {:induction false} RunFromKeeps(s: State, events: seq<Event>)
    requires Inv(s) && Ordered(s)
    ensures Inv(RunFrom(s, events)) && Ordered(RunFrom(s, events))
  {
    if events != [] {
      var front, e := events[..|events| - 1], events[|events| - 1];
      RunFromKeeps(s, front);
      NextKeeps(RunFrom(s, front), e);
      OrderedStep(RunFrom(s, front), e);
    }
  }

  lemma FollowedBy(s: State, events: seq<Event>, e: Event)
    ensures RunFrom(s, events + [e]) == Next(RunFrom(s, events), e)
    ensures NoRestart(events) && !e.Restart? ==> NoRestart(events + [e])
  {
    assert (events + [e])[..|events|] == events;
  }

  /** The session was minted and no tab holds it. */
  ghost predicate Gone(x: Index, n: nat) {
    n < x.nextSession && !Held(x, n)
  }

  /** What is gone stays gone: a state in which it had also been reported keeps it silent. */
  lemma GoneStays(s: State, e: Event, n: nat)
    requires Inv(s) && Ordered(s) && !e.Restart? && Gone(s.index, n) && !Reported(s, n)
    ensures Gone(Next(s, e).index, n) && !Reported(Next(s, e), n)
  {
    var told := s.(sent := s.sent + [Detached(Main(n))]);
    assert Inv(told) by {
      assert forall m :: m in told.sent <==> m in s.sent || m == Detached(Main(n));
    }
    NextKeeps(told, e);
    NextIndexed(told, e);
    NextIndexed(s, e);
    assert NextIndex(told, e) == NextIndex(s, e);
    ReportsExactly(told, e, n);
    ReportsExactly(s, e, n);
  }

  lemma {:induction false} NeverReported(s: State, events: seq<Event>, n: nat)
    requires Inv(s) && Ordered(s) && NoRestart(events) && Gone(s.index, n) && !Reported(s, n)
    ensures Gone(RunFrom(s, events).index, n) && !Reported(RunFrom(s, events), n)
  {
    if events != [] {
      var front := events[..|events| - 1];
      assert NoRestart(front);
      NeverReported(s, front, n);
      RunFromKeeps(s, front);
      GoneStays(RunFrom(s, front), events[|events| - 1], n);
    }
  }

  /** What a worker restarts from. */
  function SnapshotFrom(s: State, from: Option<nat>): Snapshot {
    if from.Some? && from.value < |s.saved| then s.saved[from.value] else Snapshot([], 1)
  }

  /** The snapshot holds the session for a tab that is still alive. */
  ghost predicate Revives(snap: Snapshot, alive: set<TabId>, n: nat) {
    exists e :: e in snap.entries && e.session == n && e.tab in alive
  }

  lemma HeldAfterRestart(s: State, from: Option<nat>, alive: set<TabId>, n: nat)
    requires Inv(s)
    ensures var x, snap := RestartFrom(s, from, alive).index, SnapshotFrom(s, from);
      x.nextSession == snap.nextSession && (Held(x, n) <==> Revives(snap, alive, n))
  {
    var x, snap := RestartFrom(s, from, alive).index, SnapshotFrom(s, from);
    if from.Some? && from.value < |s.saved| {
      RehydrateExact(snap, alive);
      RehydrateValid(snap, alive);
      if Held(x, n) {
        var t :| t in x.tabs.m && Holds(x, t, n);
        assert t in x.tabs.keys;
        var i :| 0 <= i < |snap.entries| && Ids(snap.entries)[i] == t;
        assert snap.entries[i] in snap.entries;
      }
      if e :| e in snap.entries && e.session == n && e.tab in alive {
        assert Holds(x, e.tab, n);
      }
    }
  }

  /** Attaching new tabs mints every number from the counter on. */
  lemma {:induction false} Mints(s: State, t: TabId, count: nat) returns (events: seq<Event>)
    requires s.relayOpen && s.locks == {} && s.reattachPending == {} && s.awaiting == multiset{} && count > 0
    ensures var r := RunFrom(s, events);
      && NoRestart(events) && r.index.nextSession == s.index.nextSession + count
      && Holds(r.index, t, s.index.nextSession + count - 1)
      && r.relayOpen && r.locks == {} && r.reattachPending == {} && r.awaiting == multiset{}
    decreases count
  {
    events := [];
    if count > 1 {
      events := Mints(s, t, count - 1);
    }
    var p := AttachWait(t, Create);
    FollowedBy(s, events, TabCreated(t));
    FollowedBy(s, events + [TabCreated(t)], Resume(p, Target("a")));
    events := events + [TabCreated(t)] + [Resume(p, Target("a"))];
  }

  /** Some run without another restart reports the session detached. */
  ghost predicate Reportable(s: State, n: nat) {
    exists events :: NoRestart(events) && Reported(RunFrom(s, events), n)
  }

  lemma HeldReportable(s: State, n: nat)
    requires Inv(s) && Ordered(s) && s.locks == {} && s.reattachPending == {} && Held(s.index, n)
    ensures Reportable(s, n)
  {
    var t :| t in s.index.tabs.m && Holds(s.index, t, n);
    assert RunFrom(s, [SocketOpened]) == s.(relayOpen := true) by { assert [SocketOpened][..0] == []; }
    var events := ReportHolder(s, [SocketOpened], t, n);
  }

  lemma UnmintedReportable(s: State, n: nat)
    requires Inv(s) && Ordered(s) && s.locks == {} && s.reattachPending == {} && s.awaiting == multiset{}
    requires s.index.nextSession <= n
    ensures Reportable(s, n)
  {
    var minting := Mints(Next(s, SocketOpened), 1, n - s.index.nextSession + 1);
    Prepended(s, SocketOpened, minting);
    var events := ReportHolder(s, [SocketOpened] + minting, 1, n);
  }

  lemma GoneUnreportable(s: State, n: nat)
    requires Inv(s) && Ordered(s) && Gone(s.index, n) && !Reported(s, n)
    ensures !Reportable(s, n)
  {
    forall events | NoRestart(events) ensures !Reported(RunFrom(s, events), n) {
      NeverReported(s, events, n);
    }
  }

  /** After a restart a session can be reported detached, once more if it was before, exactly
      when the snapshot revives it or is so old that its number is minted again. */
  lemma ReportedAgain(s: State, from: Option<nat>, alive: set<TabId>, n: nat)
    requires Inv(s) && Ordered(s)
    ensures Reportable(RestartFrom(s, from, alive), n)
            <==> Revives(SnapshotFrom(s, from), alive, n) || SnapshotFrom(s, from).nextSession <= n
  {
    var back := RestartFrom(s, from, alive);
    HeldAfterRestart(s, from, alive, n);
    NextKeeps(s, Restart(from, alive));
    OrderedStep(s, Restart(from, alive));
    if Held(back.index, n) {
      HeldReportable(back, n);
    } else if back.index.nextSession <= n {
      UnmintedReportable(back, n);
    } else {
      GoneUnreportable(back, n);
    }
  }

  lemma {:induction false} RunsOn(s: State, first: seq<Event>, more: seq<Event>)
    ensures RunFrom(s, first + more) == RunFrom(RunFrom(s, first), more)
  {
    if more == [] {
      assert first + more == first;
    } else {
      var front, last := more[..|more| - 1], more[|more| - 1];
      assert front + [last] == more;
      assert first + more == (first + front) + [last];
      RunsOn(s, first, front);
      FollowedBy(s, first + front, last);
      FollowedBy(RunFrom(s, first), front, last);
    }
  }

  lemma Prepended(s: State, e: Event, events: seq<Event>)
    ensures RunFrom(s, [e] + events) == RunFrom(Next(s, e), events)
    ensures NoRestart(events) && !e.Restart? ==> NoRestart([e] + events)
  {
    RunsOn(s, [e], events);
    FollowedBy(s, [], e);
    assert [] + [e] == [e];
  }

  lemma ReportHolder(s: State, events: seq<Event>, t: TabId, n: nat) returns (more: seq<Event>)
    requires Inv(s) && Ordered(s) && NoRestart(events)
    requires var r := RunFrom(s, events);
      r.relayOpen && r.locks == {} && r.reattachPending == {} && Holds(r.index, t, n)
    ensures NoRestart(more) && Reported(RunFrom(s, more), n)
  {
    RunFromKeeps(s, events);
    FollowedBy(s, events, Clicked(t));
    ReportsExactly(RunFrom(s, events), Clicked(t), n);
    more := events + [Clicked(t)];
  }
}
