/** What the relay is told by each event, which tab a child session belongs to over a run, and where
    commands go. */
module RelayFrames {
  import opened Options
  import opened OrderedMaps
  import opened RelayMachine
  import opened RelaySafety
  import opened RelayIndex
  import opened RelayReports
  import opened RelaySteps

  // ---- the frames of one event ----

  /** The tab whose child sessions the event reports detached, before its own session. */
  ghost function ReportedTab(s: State, e: Event): Option<TabId> {
    match e
    case Clicked(t) => if Toggles(s, t) && IsAttached(s, t) then Some(t) else None
    case DebuggerDetached(t, userEnded) => if userEnded && TabAt(s, t).Some? then Some(t) else None
    case Resume(p, outcome) => if p in s.awaiting && p.ProbeWait? && outcome.Failed? then Some(p.tab) else None
    case _ => None
  }

  /** The session a debugger event goes out under: that of its source, or else the tab's own. */
  ghost predicate GoesUnder(s: State, t: TabId, source: Option<string>, id: SessionId)
    requires IsAttached(s, t)
  {
    if source.Some? && |source.value| > 0 then id == Child(source.value) else id == Main(s.index.tabs.m[t].session)
  }

  /** The event tells the relay this. */
  ghost predicate Tells(s: State, e: Event, msg: Message) {
    s.relayOpen &&
    match msg
    case Forwarded(id) => e.DebuggerEvent? && IsAttached(s, e.tab) && GoesUnder(s, e.tab, e.source, id)
    case Attached(n) =>
      && e.Resume? && e.p in s.awaiting
      && ((e.p.AttachWait? && Attaches(e.outcome) && !(e.p.origin.Reattach? && !e.p.origin.relayUp) && n == s.index.nextSession)
          || (e.p.AnnounceDescribe? && e.p.info.Connected? && n == e.p.info.session))
    case Detached(Child(c)) =>
      ReportedTab(s, e).Some? && c in s.children.m && s.children.m[c] == ReportedTab(s, e).value
    case Detached(Main(n)) => Detaches(s, e, n)
  }

  /** The frames of an event, in their order, as far as the relay is up. */
  ghost function Frames(s: State, e: Event): seq<Message> {
    match e
    case Clicked(t) => if Toggles(s, t) && IsAttached(s, t) then DetachFrames(s, t) else []
    case DebuggerDetached(t, userEnded) => if userEnded && TabAt(s, t).Some? then DetachFrames(s, t) else []
    case TabRemoved(t) => MainDetach(s.index.Get(t))
    case DebuggerEvent(t, source, _) =>
      if !IsAttached(s, t) then []
      else [Forwarded(if source.Some? && source.value != "" then Child(source.value) else Main(s.index.tabs.m[t].session))]
    case Resume(p, outcome) => if p in s.awaiting then ResumeFrames(s, p, outcome) else []
    case _ => []
  }

  ghost function DetachFrames(s: State, t: TabId): seq<Message> {
    ChildDetaches(Select(s.children.keys, ChildrenOf(s.children, t))) + MainDetach(s.index.Get(t))
  }

  ghost function ResumeFrames(s: State, p: Pending, outcome: Outcome): seq<Message> {
    match p
    case AttachWait(_, origin) =>
      if Attaches(outcome) && !(origin.Reattach? && !origin.relayUp) then [Attached(s.index.nextSession)] else []
    case AnnounceDescribe(_, info) => if info.Connected? then [Attached(info.session)] else []
    case ProbeWait(t) =>
      if outcome.Failed? then DetachFrames(s, t) else if t in s.reattachPending then [] else MainDetach(s.index.Get(t))
    case _ => []
  }

  lemma SendsFrames(s: State, e: Event)
    requires !e.Restart?
    ensures Next(s, e).sent == Tell(s, Frames(s, e))
  {
    if e.Resume? && e.p in s.awaiting {
      ResumedNext(s, e.p, e.outcome);
      ResumeSends(s.(awaiting := s.awaiting - multiset{e.p}), e.p, e.outcome);
    } else if !e.Resume? {
      EventSends(s, e);
    }
  }

  lemma EventSends(s: State, e: Event)
    requires !e.Restart? && !e.Resume?
    ensures Next(s, e).sent == Tell(s, Frames(s, e))
  {
  }

  lemma ResumeSends(s: State, p: Pending, outcome: Outcome)
    ensures Continue(s, p, outcome).sent == Tell(s, ResumeFrames(s, p, outcome))
  {
  }

  lemma DetachFramesAre(s: State, t: TabId, msg: Message)
    requires Ordered(s) && Tidy(s.index)
    ensures msg in DetachFrames(s, t) <==>
      match msg
      case Detached(Child(c)) => c in s.children.m && s.children.m[c] == t
      case Detached(Main(n)) => Holds(s.index, t, n)
      case _ => false
  {
    var gone := Select(s.children.keys, ChildrenOf(s.children, t));
    var ids, main := ChildDetaches(gone), MainDetach(s.index.Get(t));
    assert msg in ids + main <==> msg in ids || msg in main;
    if msg.Detached? && msg.id.Child? && msg.id.id in gone {
      var i :| 0 <= i < |gone| && gone[i] == msg.id.id;
      assert ids[i] == msg;
    }
  }

  lemma MainFrames(s: State, t: TabId, msg: Message)
    requires Tidy(s.index)
    ensures msg in MainDetach(s.index.Get(t)) <==> msg.Detached? && msg.id.Main? && Holds(s.index, t, msg.id.n)
  {
  }

  lemma ResumeTells(s: State, p: Pending, outcome: Outcome, msg: Message)
    requires s.relayOpen && Inv(s) && Ordered(s) && p in s.awaiting
    ensures msg in ResumeFrames(s, p, outcome) <==> Tells(s, Resume(p, outcome), msg)
  {
    if p.ProbeWait? {
      DetachFramesAre(s, p.tab, msg);
      MainFrames(s, p.tab, msg);
    }
  }

  lemma EventTells(s: State, e: Event, msg: Message)
    requires s.relayOpen && Inv(s) && Ordered(s) && !e.Restart? && !e.Resume?
    ensures msg in Frames(s, e) <==> Tells(s, e, msg)
  {
    match e {
      case Clicked(t) => DetachFramesAre(s, t, msg);
      case DebuggerDetached(t, _) => DetachFramesAre(s, t, msg);
      case TabRemoved(t) => MainFrames(s, t, msg);
      case _ =>
    }
  }

  lemma DetachFramesDistinct(s: State, t: TabId)
    requires Ordered(s)
    ensures Distinct(DetachFrames(s, t))
  {
    var gone := Select(s.children.keys, ChildrenOf(s.children, t));
    SelectDistinct(s.children.keys, ChildrenOf(s.children, t));
    var told := DetachFrames(s, t);
    forall i, j | 0 <= i < j < |told| ensures At(told, i) != At(told, j) {
      if j < |gone| {
        assert At(gone, i) != At(gone, j);
      }
    }
  }

  lemma FramesDistinct(s: State, e: Event)
    requires Ordered(s)
    ensures Distinct(Frames(s, e))
  {
    match e {
      case Clicked(t) => DetachFramesDistinct(s, t);
      case DebuggerDetached(t, _) => DetachFramesDistinct(s, t);
      case Resume(p, outcome) => if p.ProbeWait? { DetachFramesDistinct(s, p.tab); }
      case _ =>
    }
  }

  /** Every event tells the relay exactly what it has to, each frame once, when the relay is up, and
      nothing when it is down. */
  lemma FramesExactly(s: State, e: Event) returns (told: seq<Message>)
    requires Inv(s) && Ordered(s) && !e.Restart?
    ensures Next(s, e).sent == s.sent + told && Distinct(told)
    ensures forall msg :: msg in told <==> Tells(s, e, msg)
  {
    SendsFrames(s, e);
    FramesDistinct(s, e);
    told := if s.relayOpen then Frames(s, e) else [];
    if s.relayOpen {
      forall msg ensures msg in told <==> Tells(s, e, msg) {
        if e.Resume? {
          if e.p in s.awaiting { ResumeTells(s, e.p, e.outcome, msg); }
        } else {
          EventTells(s, e, msg);
        }
      }
    }
  }

  // ---- the order of a detach ----

  lemma {:induction false} SelectOrder<T(!new)>(xs: seq<T>, keep: set<T>, i: nat, j: nat) returns (p: nat, q: nat)
    requires i < j < |Select(xs, keep)|
    ensures p < q < |xs| && xs[p] == Select(xs, keep)[i] && xs[q] == Select(xs, keep)[j]
  {
    var front := xs[..|xs| - 1];
    if j < |Select(front, keep)| {
      p, q := SelectOrder(front, keep, i, j);
    } else {
      q := |front|;
      assert Select(front, keep)[i] in front;
      p :| 0 <= p < |front| && front[p] == Select(front, keep)[i];
    }
  }

  /** A detach reports the child sessions in the order of their table, and the tab's own last. */
  lemma DetachOrder(s: State, t: TabId, i: nat, j: nat)
    requires i < j < |DetachFrames(s, t)|
    ensures var told := DetachFrames(s, t);
      && told[i].Detached? && told[i].id.Child?
      && (told[j].Detached? && told[j].id.Child? ==>
            exists p, q :: 0 <= p < q < |s.children.keys| && s.children.keys[p] == told[i].id.id && s.children.keys[q] == told[j].id.id)
  {
    var gone := Select(s.children.keys, ChildrenOf(s.children, t));
    if j < |gone| {
      var p, q := SelectOrder(s.children.keys, ChildrenOf(s.children, t), i, j);
    }
  }

  // ---- child sessions ----

  ghost function ChildTab(s: State, c: string): Option<TabId> {
    if c in s.children.m then Some(s.children.m[c]) else None
  }

  /** The event takes the tab's child sessions: it is detached, removed, or has navigated. */
  ghost predicate Leaves(s: State, e: Event, t: TabId) {
    match e
    case Clicked(u) => u == t && Toggles(s, t) && IsAttached(s, t)
    case DebuggerDetached(u, userEnded) => u == t && userEnded && TabAt(s, t).Some?
    case TabRemoved(u) => u == t && TabAt(s, t).Some?
    case Resume(p, outcome) => p in s.awaiting && p == ProbeWait(t) && (outcome.Failed? || t !in s.reattachPending)
    case _ => false
  }

  /** A debugger event of an attached tab about this child session. */
  ghost predicate About(s: State, e: Event, event: CdpEvent) {
    e.DebuggerEvent? && IsAttached(s, e.tab) && e.event == event
  }

  /** The tab of a child session after the event. */
  ghost function ChildTabAfter(s: State, e: Event, c: string): Option<TabId> {
    var now := ChildTab(s, c);
    if |c| > 0 && About(s, e, ChildAttached(c)) then Some(e.tab)
    else if |c| > 0 && About(s, e, ChildDetached(c)) then None
    else if now.None? || Leaves(s, e, now.value) then None
    else Some(MovedBy(s, e, now.value))
  }

  /** Where a tab's session goes: to the tab that replaces it. */
  ghost function MovedBy(s: State, e: Event, t: TabId): TabId {
    if e.TabReplaced? && e.removed == t && TabAt(s, t).Some? then e.added else t
  }

  lemma ChildrenExactly(s: State, e: Event, c: string)
    requires !e.Restart?
    ensures ChildTab(Next(s, e), c) == ChildTabAfter(s, e, c)
  {
    if e.Resume? {
      if e.p in s.awaiting {
        ResumedNext(s, e.p, e.outcome);
        ResumeChildren(s.(awaiting := s.awaiting - multiset{e.p}), e.p, e.outcome, c);
      }
    } else {
      EventChildren(s, e, c);
    }
  }

  lemma ForwardChildren(s: State, t: TabId, source: Option<string>, event: CdpEvent, c: string)
    ensures ChildTab(ForwardEvent(s, t, source, event), c) == ChildTabAfter(s, DebuggerEvent(t, source, event), c)
  {
  }

  lemma ReplacedChildren(s: State, added: TabId, removed: TabId, c: string)
    ensures ChildTab(ReplaceTab(s, added, removed), c) == ChildTabAfter(s, TabReplaced(added, removed), c)
  {
    MovedChild(s.children, removed, added, c);
    ReplacedTable(s, added, removed);
  }

  lemma MovedChild(children: OrderedMap<string, TabId>, from: TabId, to: TabId, c: string)
    ensures var moved := MoveChildren(children, from, to).m;
      (c in moved <==> c in children.m) && (c in children.m ==> moved[c] == if children.m[c] == from then to else children.m[c])
  {
  }

  lemma ReplacedTable(s: State, added: TabId, removed: TabId)
    ensures ReplaceTab(s, added, removed).children
         == if TabAt(s, removed).None? then s.children else MoveChildren(s.children, removed, added)
  {
  }

  lemma ClickChildren(s: State, t: TabId, c: string)
    ensures ChildTab(ClickTab(s, t), c) == ChildTabAfter(s, Clicked(t), c)
  {
    ClickedTable(s, t);
    DroppedChild(s.children, t, c);
  }

  lemma ClickedTable(s: State, t: TabId)
    ensures ClickTab(s, t).children == if Toggles(s, t) && IsAttached(s, t) then DropChildren(s.children, t) else s.children
  {
  }

  lemma DroppedChild(children: OrderedMap<string, TabId>, t: TabId, c: string)
    ensures var kept := DropChildren(children, t).m;
      (c in kept <==> c in children.m && children.m[c] != t) && (c in kept ==> kept[c] == children.m[c])
  {
  }

  lemma DetachedChildren(s: State, t: TabId, userEnded: bool, c: string)
    ensures ChildTab(StartDebuggerDetach(s, t, userEnded), c) == ChildTabAfter(s, DebuggerDetached(t, userEnded), c)
  {
  }

  lemma RemovedChildren(s: State, t: TabId, c: string)
    ensures ChildTab(RemoveTab(s, t), c) == ChildTabAfter(s, TabRemoved(t), c)
  {
  }

  lemma OtherChildren(s: State, e: Event, c: string)
    requires e.TabCreated? || e.AnnounceNext? || e.AnnounceEnd? || e.SocketOpened? || e.SocketLost? || e.RelayClosed?
    ensures ChildTab(Next(s, e), c) == ChildTab(s, c) == ChildTabAfter(s, e, c)
  {
  }

  lemma EventChildren(s: State, e: Event, c: string)
    requires !e.Restart? && !e.Resume?
    ensures ChildTab(Next(s, e), c) == ChildTabAfter(s, e, c)
  {
    match e {
      case Clicked(t) => ClickChildren(s, t, c);
      case DebuggerDetached(t, userEnded) => DetachedChildren(s, t, userEnded, c);
      case TabRemoved(t) => RemovedChildren(s, t, c);
      case DebuggerEvent(t, source, event) => ForwardChildren(s, t, source, event, c);
      case TabReplaced(added, removed) => ReplacedChildren(s, added, removed, c);
      case _ => OtherChildren(s, e, c);
    }
  }

  lemma ResumeChildren(s: State, p: Pending, outcome: Outcome, c: string)
    ensures var now := ChildTab(s, c);
      ChildTab(Continue(s, p, outcome), c)
      == if now.Some? && p == ProbeWait(now.value) && (outcome.Failed? || p.tab !in s.reattachPending) then None else now
  {
  }

  /** A debugger event of an attached tab: forwarded under one session, its child sessions tracked, and
      nothing else touched. One of another tab does nothing at all. */
  lemma DebuggerEventExactly(s: State, t: TabId, source: Option<string>, event: CdpEvent)
    ensures var r := Next(s, DebuggerEvent(t, source, event));
      && (!IsAttached(s, t) ==> r == s)
      && r == s.(children := r.children, sent := r.sent)
      && (IsAttached(s, t) && s.relayOpen ==>
            exists id :: GoesUnder(s, t, source, id) && r.sent == s.sent + [Forwarded(id)])
      && (!s.relayOpen ==> r.sent == s.sent)
  {
    if IsAttached(s, t) {
      var id := if source.Some? && source.value != "" then Child(source.value) else Main(s.index.tabs.m[t].session);
      assert GoesUnder(s, t, source, id);
    }
  }

  // ---- commands ----

  /** The first of the tabs, in the order of the table, that has the property. */
  ghost predicate FirstWith(keys: seq<TabId>, has: set<TabId>, tab: Option<TabId>) {
    if tab.None? then forall i :: 0 <= i < |keys| ==> keys[i] !in has
    else exists i :: 0 <= i < |keys| && keys[i] == tab.value && keys[i] in has && forall j :: 0 <= j < i ==> keys[j] !in has
  }

  lemma FirstWithLater(keys: seq<TabId>, has: set<TabId>, tab: Option<TabId>)
    requires keys != [] && keys[0] !in has && FirstWith(keys[1..], has, tab)
    ensures FirstWith(keys, has, tab)
  {
    var rest := keys[1..];
    if tab.None? {
      forall i | 0 <= i < |keys| ensures keys[i] !in has {
        assert i > 0 ==> keys[i] == rest[i - 1];
      }
    } else {
      var i :| 0 <= i < |rest| && rest[i] == tab.value && rest[i] in has && forall j :: 0 <= j < i ==> rest[j] !in has;
      assert keys[i + 1] == rest[i];
      forall j | 0 <= j < i + 1 ensures keys[j] !in has {
        assert j > 0 ==> keys[j] == rest[j - 1];
      }
    }
  }

  ghost function Targets(m: map<TabId, Tab>, targetId: string): set<TabId> {
    set t | t in m && m[t].Connected? && m[t].targetId == targetId
  }

  ghost function AttachedTabs(m: map<TabId, Tab>): set<TabId> {
    set t | t in m && m[t].Connected?
  }

  lemma {:induction false} TargetFirst(keys: seq<TabId>, m: map<TabId, Tab>, targetId: string)
    ensures FirstWith(keys, Targets(m, targetId), TabWithTarget(keys, m, targetId))
  {
    if keys != [] && keys[0] !in Targets(m, targetId) {
      TargetFirst(keys[1..], m, targetId);
      FirstWithLater(keys, Targets(m, targetId), TabWithTarget(keys[1..], m, targetId));
    }
  }

  lemma {:induction false} AttachedFirst(keys: seq<TabId>, m: map<TabId, Tab>)
    ensures FirstWith(keys, AttachedTabs(m), FirstConnected(keys, m))
  {
    if keys != [] && keys[0] !in AttachedTabs(m) {
      AttachedFirst(keys[1..], m);
      FirstWithLater(keys, AttachedTabs(m), FirstConnected(keys[1..], m));
    }
  }

  /** The tab a session id leads to. */
  ghost function SessionTab(s: State, id: SessionId): Option<TabId> {
    match id
    case Main(n) => if n in s.index.tabBySession then Some(s.index.tabBySession[n]) else None
    case Child(c) => ChildTab(s, c)
  }

  /** A command goes where its session leads; else to the first attached tab with its target, if it
      names one; else to the first attached tab. */
  lemma RouteExactly(s: State, session: Option<SessionId>, targetId: Option<string>)
    ensures var tab, keys, m := Route(s, session, targetId), s.index.tabs.keys, s.index.tabs.m;
      var named := targetId.Some? && |targetId.value| > 0;
      if session.Some? && SessionTab(s, session.value).Some? then tab == SessionTab(s, session.value)
      else if named && (exists i :: 0 <= i < |keys| && keys[i] in Targets(m, targetId.value))
        then FirstWith(keys, Targets(m, targetId.value), tab)
      else FirstWith(keys, AttachedTabs(m), tab)
  {
    if targetId.Some? {
      TargetFirst(s.index.tabs.keys, s.index.tabs.m, targetId.value);
    }
    AttachedFirst(s.index.tabs.keys, s.index.tabs.m);
  }

  // ---- a child session over a run ----

  /** The k-th event takes the child session from the tab, for another one or for none. */
  ghost predicate TakesFrom(events: seq<Event>, k: nat, c: string, t: TabId)
    requires k < |events|
  {
    var s, e := Before(events, k), events[k];
    e.Restart? || Leaves(s, e, t) || About(s, e, ChildAttached(c)) || About(s, e, ChildDetached(c))
  }

  /** The tab that has the place of t after the k-th event, if it has the child session then. */
  ghost function PlaceAfter(events: seq<Event>, k: nat, c: string, t: TabId): Option<TabId>
    requires k < |events|
  {
    if TakesFrom(events, k, c, t) then None else Some(MovedBy(Before(events, k), events[k], t))
  }

  /** The tab that has, before event j, the place of the tab event a attached the child session to,
      unless that event attached none or it was taken since. */
  ghost function Place(events: seq<Event>, a: nat, j: nat, c: string): Option<TabId>
    requires a < j <= |events|
    decreases j
  {
    if j == a + 1 then (if |c| > 0 && About(Before(events, a), events[a], ChildAttached(c)) then Some(events[a].tab) else None)
    else
      var before := Place(events, a, j - 1, c);
      if before.None? then None else PlaceAfter(events, j - 1, c, before.value)
  }

  lemma ChildStep(events: seq<Event>, k: nat, c: string)
    requires k < |events| && !events[k].Restart?
    ensures ChildTab(Before(events, k + 1), c) == ChildTabAfter(Before(events, k), events[k], c)
  {
    BeforeStep(events, k);
    ChildrenExactly(Before(events, k), events[k], c);
  }

  lemma NoChildYet(events: seq<Event>, k: nat, c: string)
    requires k <= |events| && (k == 0 || events[k - 1].Restart?)
    ensures ChildTab(Before(events, k), c).None?
  {
    if k > 0 {
      BeforeStep(events, k - 1);
    } else {
      BeforeFirst(events);
    }
  }

  lemma ChildKept(events: seq<Event>, k: nat, c: string, t: TabId)
    requires k < |events| && |c| > 0 && ChildTab(Before(events, k), c) == Some(t) && PlaceAfter(events, k, c, t).Some?
    ensures ChildTab(Before(events, k + 1), c) == PlaceAfter(events, k, c, t)
  {
    ChildStep(events, k, c);
  }

  lemma ChildGiven(events: seq<Event>, a: nat, c: string)
    requires a < |events| && Place(events, a, a + 1, c).Some?
    ensures |c| > 0 && ChildTab(Before(events, a + 1), c) == Place(events, a, a + 1, c)
  {
    ChildStep(events, a, c);
  }

  ghost predicate Agrees(events: seq<Event>, a: nat, k: nat, c: string)
    requires a < |events| && k <= |events|
  {
    k <= a || Place(events, a, k, c).None? || (|c| > 0 && ChildTab(Before(events, k), c) == Place(events, a, k, c))
  }

  ghost function Agreement(events: seq<Event>, a: nat, c: string): (r: seq<bool>)
    requires a < |events|
    ensures |r| == |events| + 1 && forall k :: 0 <= k <= |events| ==> r[k] == Agrees(events, a, k, c)
  {
    seq(|events| + 1, k requires 0 <= k <= |events| => Agrees(events, a, k, c))
  }

  lemma AgreesFirst(events: seq<Event>, a: nat, c: string)
    requires a < |events|
    ensures Agreement(events, a, c)[a + 1]
  {
    if Place(events, a, a + 1, c).Some? {
      ChildGiven(events, a, c);
    }
  }

  lemma AgreesNext(events: seq<Event>, a: nat, k: nat, c: string)
    requires a < k < |events| && Agreement(events, a, c)[k]
    ensures Agreement(events, a, c)[k + 1]
  {
    var before := Place(events, a, k, c);
    if before.Some? && PlaceAfter(events, k, c, before.value).Some? {
      ChildKept(events, k, c, before.value);
    }
  }

  lemma PlaceHasChild(events: seq<Event>, a: nat, j: nat, c: string)
    requires a < j <= |events| && Place(events, a, j, c).Some?
    ensures |c| > 0 && ChildTab(Before(events, j), c) == Place(events, a, j, c)
  {
    var r := Agreement(events, a, c);
    AgreesFirst(events, a, c);
    if !r[j] {
      var d := Flips(r, a + 1, j);
      AgreesNext(events, a, d, c);
    }
  }

  /** Where a child session has its tab from: it is attached just now, or had one before. */
  lemma ChildFrom(events: seq<Event>, k: nat, c: string)
    requires k < |events| && ChildTab(Before(events, k + 1), c).Some? && (ChildTab(Before(events, k), c).Some? ==> |c| > 0)
    ensures Place(events, k, k + 1, c).Some?
            || (ChildTab(Before(events, k), c).Some? && PlaceAfter(events, k, c, ChildTab(Before(events, k), c).value).Some?)
  {
    if events[k].Restart? {
      NoChildYet(events, k + 1, c);
    } else {
      ChildStep(events, k, c);
    }
  }

  lemma SomethingHappened(events: seq<Event>, j: nat, c: string)
    requires j <= |events| && ChildTab(Before(events, j), c).Some?
    ensures j > 0
  {
    BeforeFirst(events);
  }

  lemma {:induction false} PlaceFrom(events: seq<Event>, j: nat, c: string) returns (a: nat)
    requires j <= |events| && ChildTab(Before(events, j), c).Some?
    ensures a < j && Place(events, a, j, c).Some?
  {
    SomethingHappened(events, j, c);
    a := j - 1;
    if ChildTab(Before(events, j - 1), c).Some? {
      var b := PlaceFrom(events, j - 1, c);
      PlaceHasChild(events, b, j - 1, c);
      ChildFrom(events, j - 1, c);
      if Place(events, j - 1, j, c).None? {
        a := b;
      }
    } else {
      ChildFrom(events, j - 1, c);
    }
  }

  /** The child session was attached to a tab whose place t has now, and not taken from it since. */
  ghost predicate BelongsTo(events: seq<Event>, j: nat, c: string, t: TabId)
    requires j <= |events|
  {
    exists a: nat :: a < j && Place(events, a, j, c) == Some(t)
  }

  lemma ChildBelongs(events: seq<Event>, j: nat, c: string, t: TabId)
    requires j <= |events|
    ensures ChildTab(Before(events, j), c) == Some(t) <==> BelongsTo(events, j, c, t)
  {
    if ChildTab(Before(events, j), c) == Some(t) {
      var a := PlaceFrom(events, j, c);
      PlaceHasChild(events, a, j, c);
    }
    if a: nat :| a < j && Place(events, a, j, c) == Some(t) {
      PlaceHasChild(events, a, j, c);
    }
  }

  lemma ChildRoute(s: State, c: string, targetId: Option<string>)
    ensures Route(s, Some(Child(c)), targetId)
         == if ChildTab(s, c).Some? then ChildTab(s, c) else Route(s, None, targetId)
  {
  }

  /** In every run a command for a child session reaches the tab that has the place of the one it was
      attached to, from its attach until its detach, that tab's departure or a restart; before and
      after that it is routed as if it named no session. */
  lemma ChildReached(events: seq<Event>, j: nat, c: string, targetId: Option<string>)
    requires j <= |events|
    ensures forall t :: BelongsTo(events, j, c, t) ==> Route(Before(events, j), Some(Child(c)), targetId) == Some(t)
    ensures (forall t :: !BelongsTo(events, j, c, t)) ==>
      Route(Before(events, j), Some(Child(c)), targetId) == Route(Before(events, j), None, targetId)
  {
    ChildRoute(Before(events, j), c, targetId);
    forall t ensures ChildTab(Before(events, j), c) == Some(t) <==> BelongsTo(events, j, c, t) {
      ChildBelongs(events, j, c, t);
    }
    assert ChildTab(Before(events, j), c).Some? ==> BelongsTo(events, j, c, ChildTab(Before(events, j), c).value);
  }
}
