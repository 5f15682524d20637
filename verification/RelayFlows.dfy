/** Whole operations of the relay extension, run without interruption: the toggle of a tab, and the
    attempts to attach again after a navigation. */
module RelayFlows {
  import opened Options
  import opened OrderedMaps
  import opened RelayMachine
  import opened RelaySafety
  import opened RelayReports
  import opened RelaySteps

  // ---- the toggle ----

  lemma ClickStarts(s: State, t: TabId)
    requires Toggles(s, t) && !IsAttached(s, t)
    ensures Next(s, Clicked(t)) == s.(locks := s.locks + {t}, index := s.index.Connect(t),
                                      awaiting := s.awaiting + multiset{ConnectWait(t)})
  {
  }

  lemma ClickConnects(s: State, t: TabId)
    requires ConnectWait(t) in s.awaiting
    ensures Next(s, Resume(ConnectWait(t), Ok)) == s.(awaiting := s.awaiting - multiset{ConnectWait(t)} + multiset{AttachWait(t, Click)})
  {
  }

  lemma ClickAnnounces(s: State, t: TabId, id: string)
    requires AttachWait(t, Click) in s.awaiting && s.relayOpen && id != ""
    ensures var x := s.index.Commit(t, id);
      Next(s, Resume(AttachWait(t, Click), Target(id)))
      == s.(index := x, sent := s.sent + [Attached(s.index.nextSession)], saved := s.saved + [x.Save()],
            awaiting := s.awaiting - multiset{AttachWait(t, Click)} + multiset{ClickFinally(t)})
  {
  }

  lemma ClickEnds(s: State, t: TabId)
    requires ClickFinally(t) in s.awaiting
    ensures Next(s, Resume(ClickFinally(t), Ok)) == s.(awaiting := s.awaiting - multiset{ClickFinally(t)}, locks := s.locks - {t})
  {
  }

  lemma ClickConnected(s: State, t: TabId) returns (r: State)
    requires Toggles(s, t) && !IsAttached(s, t)
    ensures r == Next(Next(s, Clicked(t)), Resume(ConnectWait(t), Ok))
    ensures r == s.(locks := s.locks + {t}, index := s.index.Connect(t), awaiting := s.awaiting + multiset{AttachWait(t, Click)})
  {
    var clicked := Next(s, Clicked(t));
    ClickStarts(s, t);
    r := Next(clicked, Resume(ConnectWait(t), Ok));
    ClickConnects(clicked, t);
    assert clicked.awaiting - multiset{ConnectWait(t)} == s.awaiting;
  }

  lemma ClickFinished(s: State, t: TabId, id: string, rest: multiset<Pending>) returns (r: State)
    requires s.awaiting == rest + multiset{AttachWait(t, Click)} && s.relayOpen && id != ""
    ensures r == Next(Next(s, Resume(AttachWait(t, Click), Target(id))), Resume(ClickFinally(t), Ok))
    ensures var x := s.index.Commit(t, id);
      r == s.(index := x, sent := s.sent + [Attached(s.index.nextSession)], saved := s.saved + [x.Save()],
              awaiting := rest, locks := s.locks - {t})
  {
    var announced := Next(s, Resume(AttachWait(t, Click), Target(id)));
    ClickAnnounces(s, t, id);
    assert s.awaiting - multiset{AttachWait(t, Click)} == rest;
    r := Next(announced, Resume(ClickFinally(t), Ok));
    ClickEnds(announced, t);
    assert announced.awaiting - multiset{ClickFinally(t)} == rest;
  }

  /** A click on a tab that is not attached, with nothing failing, attaches, announces and stores it
      under the next session, and leaves nothing locked or underway. */
  lemma ClickAttaches(s: State, t: TabId, id: string) returns (r: State)
    requires Toggles(s, t) && !IsAttached(s, t) && s.relayOpen && id != ""
    ensures r == Next(Next(Next(Next(s, Clicked(t)), Resume(ConnectWait(t), Ok)),
                           Resume(AttachWait(t, Click), Target(id))), Resume(ClickFinally(t), Ok))
    ensures var n := s.index.nextSession;
      && TabAt(r, t) == Some(Connected(n, id, n)) && r.index.nextSession == n + 1
      && n in r.index.tabBySession && r.index.tabBySession[n] == t
      && (forall u :: u != t ==> TabAt(r, u) == TabAt(s, u))
      && r.sent == s.sent + [Attached(n)] && r.saved == s.saved + [r.index.Save()]
      && r.locks == s.locks && r.awaiting == s.awaiting && r.children == s.children && r.reattachPending == s.reattachPending
  {
    var connected := ClickConnected(s, t);
    r := ClickFinished(connected, t, id, s.awaiting);
    assert s.locks + {t} - {t} == s.locks;
    Recommitted(s.index, t, id);
    assert forall u :: TabAt(r, u) == r.index.Get(u) && TabAt(s, u) == s.index.Get(u);
  }

  lemma Recommitted(x: Index, t: TabId, id: string)
    ensures var y := x.Connect(t).Commit(t, id);
      && y.Get(t) == Some(Connected(x.nextSession, id, x.nextSession)) && y.nextSession == x.nextSession + 1
      && x.nextSession in y.tabBySession && y.tabBySession[x.nextSession] == t
      && forall u :: u != t ==> y.Get(u) == x.Get(u)
  {
  }

  lemma DetachStarts(s: State, t: TabId)
    requires Toggles(s, t) && IsAttached(s, t)
    ensures var r := Next(s, Clicked(t));
      && r.index == s.index.Drop(t) && r.locks == s.locks + {t} && r.awaiting == s.awaiting + multiset{DetachWait(t, true)}
      && r.saved == s.saved && r.reattachPending == s.reattachPending
  {
  }

  lemma DetachSaves(s: State, t: TabId)
    requires DetachWait(t, true) in s.awaiting
    ensures Next(s, Resume(DetachWait(t, true), Ok))
         == s.(awaiting := s.awaiting - multiset{DetachWait(t, true)} + multiset{ClickFinally(t)}, saved := s.saved + [s.index.Save()])
  {
  }

  /** A click on an attached tab takes it out of the table, and stores the rest, and leaves nothing
      locked or underway. */
  lemma ClickDetaches(s: State, t: TabId) returns (r: State)
    requires Toggles(s, t) && IsAttached(s, t)
    ensures r == Next(Next(Next(s, Clicked(t)), Resume(DetachWait(t, true), Ok)), Resume(ClickFinally(t), Ok))
    ensures TabAt(r, t) == None && s.index.tabs.m[t].session !in r.index.tabBySession && r.index.nextSession == s.index.nextSession
    ensures (forall u :: u != t ==> TabAt(r, u) == TabAt(s, u)) && r.saved == s.saved + [r.index.Save()]
    ensures r.locks == s.locks && r.awaiting == s.awaiting && r.reattachPending == s.reattachPending
  {
    var clicked := Next(s, Clicked(t));
    DetachStarts(s, t);
    var saved := Next(clicked, Resume(DetachWait(t, true), Ok));
    DetachSaves(clicked, t);
    assert saved.awaiting == s.awaiting + multiset{ClickFinally(t)};
    r := Next(saved, Resume(ClickFinally(t), Ok));
    ClickEnds(saved, t);
    assert r.awaiting == s.awaiting && r.locks == s.locks;
  }

  // ---- attaching again after a navigation ----

  lemma RetryWakes(s: State, t: TabId, n: nat)
    requires ReattachSleep(t, n) in s.awaiting && t in s.reattachPending
    ensures Next(s, Resume(ReattachSleep(t, n), Ok))
         == s.(awaiting := s.awaiting - multiset{ReattachSleep(t, n)} + multiset{ReattachProbe(t, n)})
  {
  }

  lemma RetryProbes(s: State, t: TabId, n: nat)
    requires ReattachProbe(t, n) in s.awaiting
    ensures Next(s, Resume(ReattachProbe(t, n), Ok))
         == s.(awaiting := s.awaiting - multiset{ReattachProbe(t, n)} + multiset{AttachWait(t, Reattach(n, s.relayOpen))})
  {
  }

  lemma RetryEnds(s: State, t: TabId, n: nat, up: bool)
    requires AttachWait(t, Reattach(n, up)) in s.awaiting && n < 5
    ensures var r := Next(s, Resume(AttachWait(t, Reattach(n, up)), Failed));
      && (n < 4 ==> r == s.(awaiting := s.awaiting - multiset{AttachWait(t, Reattach(n, up))} + multiset{ReattachSleep(t, n + 1)}))
      && (n == 4 ==> r == s.(awaiting := s.awaiting - multiset{AttachWait(t, Reattach(n, up))},
                             reattachPending := s.reattachPending - {t}))
  {
  }

  function Retry(s: State, t: TabId, n: nat): seq<Event> {
    [Resume(ReattachSleep(t, n), Ok), Resume(ReattachProbe(t, n), Ok), Resume(AttachWait(t, Reattach(n, s.relayOpen)), Failed)]
  }

  /** One failing attempt: the next one is scheduled, or after the fifth none. */
  lemma RetryFails(s: State, t: TabId, n: nat)
    requires ReattachSleep(t, n) in s.awaiting && t in s.reattachPending && n < 5
    ensures var e, rest := Retry(s, t, n), s.awaiting - multiset{ReattachSleep(t, n)};
      Next(Next(Next(s, e[0]), e[1]), e[2])
      == if n < 4 then s.(awaiting := rest + multiset{ReattachSleep(t, n + 1)})
         else s.(awaiting := rest, reattachPending := s.reattachPending - {t})
  {
    var rest := s.awaiting - multiset{ReattachSleep(t, n)};
    var woken := Next(s, Resume(ReattachSleep(t, n), Ok));
    RetryWakes(s, t, n);
    var probed := Next(woken, Resume(ReattachProbe(t, n), Ok));
    RetryProbes(woken, t, n);
    assert probed.awaiting == rest + multiset{AttachWait(t, Reattach(n, s.relayOpen))};
    RetryEnds(probed, t, n, s.relayOpen);
    assert probed.awaiting - multiset{AttachWait(t, Reattach(n, s.relayOpen))} == rest;
  }

  lemma RunThree(s: State, a: Event, b: Event, c: Event, more: seq<Event>)
    ensures RunFrom(s, [a, b, c] + more) == RunFrom(Next(Next(Next(s, a), b), c), more)
  {
    FollowedBy(s, [], a);
    FollowedBy(s, [a], b);
    FollowedBy(s, [a, b], c);
    assert [] + [a] == [a] && [a] + [b] == [a, b] && [a, b] + [c] == [a, b, c];
    RunsOn(s, [a, b, c], more);
  }

  /** The state once the tab has been given up. */
  function GivenUp(s: State, t: TabId, n: nat): State {
    s.(awaiting := s.awaiting - multiset{ReattachSleep(t, n)}, reattachPending := s.reattachPending - {t})
  }

  lemma GivenUpLater(s: State, t: TabId, n: nat, failed: State)
    requires failed == s.(awaiting := s.awaiting - multiset{ReattachSleep(t, n)} + multiset{ReattachSleep(t, n + 1)})
    ensures GivenUp(failed, t, n + 1) == GivenUp(s, t, n)
  {
    assert failed.awaiting - multiset{ReattachSleep(t, n + 1)} == s.awaiting - multiset{ReattachSleep(t, n)};
  }

  lemma RetryThen(s: State, t: TabId, n: nat, more: seq<Event>) returns (failed: State)
    requires ReattachSleep(t, n) in s.awaiting && t in s.reattachPending && n < 5
    ensures failed == if n < 4 then s.(awaiting := s.awaiting - multiset{ReattachSleep(t, n)} + multiset{ReattachSleep(t, n + 1)})
                      else GivenUp(s, t, n)
    ensures RunFrom(s, Retry(s, t, n) + more) == RunFrom(failed, more)
  {
    var e := Retry(s, t, n);
    failed := Next(Next(Next(s, e[0]), e[1]), e[2]);
    RetryFails(s, t, n);
    RunThree(s, e[0], e[1], e[2], more);
  }

  /** When every attempt fails, the tab is given up after the fifth: it no longer waits, no handler of
      its loop is left, and nothing else has changed. */
  lemma {:induction false} GivesUpAfterFive(s: State, t: TabId, n: nat) returns (events: seq<Event>)
    requires ReattachSleep(t, n) in s.awaiting && t in s.reattachPending && n < 5
    ensures |events| == 3 * (5 - n) && RunFrom(s, events) == GivenUp(s, t, n)
    decreases 5 - n
  {
    var failed := RetryThen(s, t, n, []);
    if n < 4 {
      var more := GivesUpAfterFive(failed, t, n + 1);
      GivenUpLater(s, t, n, failed);
      failed := RetryThen(s, t, n, more);
      events := Retry(s, t, n) + more;
    } else {
      assert RunFrom(failed, []) == failed;
      events := Retry(s, t, n) + [];
    }
  }

  /** An attempt that succeeds attaches the tab under the next session, whether or not the relay is
      up, and ends the waiting. */
  lemma RetrySucceeds(s: State, t: TabId, n: nat, id: string)
    requires ReattachSleep(t, n) in s.awaiting && t in s.reattachPending && id != ""
    ensures var up := s.relayOpen;
      var probed := Next(Next(s, Resume(ReattachSleep(t, n), Ok)), Resume(ReattachProbe(t, n), Ok));
      var attached := Next(probed, Resume(AttachWait(t, Reattach(n, up)), Target(id)));
      var r := Next(attached, Resume(ReattachSaved(t), Ok));
      && r.index == s.index.Commit(t, id) && t !in r.reattachPending && r.saved == s.saved + [r.index.Save()]
      && r.sent == (if up then s.sent + [Attached(s.index.nextSession)] else s.sent)
      && r.awaiting == s.awaiting - multiset{ReattachSleep(t, n)}
  {
    var rest := s.awaiting - multiset{ReattachSleep(t, n)};
    var woken := Next(s, Resume(ReattachSleep(t, n), Ok));
    RetryWakes(s, t, n);
    var probed := Next(woken, Resume(ReattachProbe(t, n), Ok));
    RetryProbes(woken, t, n);
    assert probed.awaiting == rest + multiset{AttachWait(t, Reattach(n, s.relayOpen))};
    AttachedAgain(probed, t, n, s.relayOpen, id);
    var attached := Next(probed, Resume(AttachWait(t, Reattach(n, s.relayOpen)), Target(id)));
    assert attached.awaiting == rest + multiset{ReattachSaved(t)};
    WaitEnds(attached, t);
    assert attached.awaiting - multiset{ReattachSaved(t)} == rest;
  }

  lemma AttachedAgain(s: State, t: TabId, n: nat, up: bool, id: string)
    requires AttachWait(t, Reattach(n, up)) in s.awaiting && up == s.relayOpen && id != ""
    ensures var r := Next(s, Resume(AttachWait(t, Reattach(n, up)), Target(id)));
      && r.index == s.index.Commit(t, id) && r.saved == s.saved + [r.index.Save()]
      && r.sent == (if up then s.sent + [Attached(s.index.nextSession)] else s.sent)
      && r.awaiting == s.awaiting - multiset{AttachWait(t, Reattach(n, up))} + multiset{ReattachSaved(t)}
  {
  }

  lemma WaitEnds(s: State, t: TabId)
    requires ReattachSaved(t) in s.awaiting
    ensures Next(s, Resume(ReattachSaved(t), Ok))
         == s.(awaiting := s.awaiting - multiset{ReattachSaved(t)}, reattachPending := s.reattachPending - {t})
  {
  }
}
