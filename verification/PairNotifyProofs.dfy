/** What the pairing notifier keeps over any run of polls and commands. */
module PairNotifyProofs {
  import opened Options
  import opened Texts
  import opened PairNotify

  // ---- reading back what was written ----

  predicate CanonicalText(text: Text) {
    text != [] && Trimmed(text)
  }

  predicate CanonicalThread(thread: Thread) {
    thread.TextThread? ==> CanonicalText(thread.text)
  }

  /** A target that survives being written and read. */
  predicate CanonicalTarget(t: Target) {
    CanonicalText(t.to) && (t.account.Some? ==> CanonicalText(t.account.value)) && CanonicalThread(t.thread)
  }

  predicate CanonicalNotified(notified: map<Text, int>) {
    forall id :: id in notified ==> !Blank(id) && notified[id] > 0
  }

  predicate Canonical(s: State) {
    AllCanonical(s.subscribers) && CanonicalNotified(s.notified)
  }

  lemma OptionRoundTrip(text: Option<Text>)
    ensures TrimmedOr(WriteOption(text)) == text <==> (text.Some? ==> CanonicalText(text.value))
  {
    if text.Some? { TrimTrims(text.value); }
  }

  lemma ThreadRoundTrip(thread: Thread)
    ensures NormalThread(WriteThread(thread)) == thread <==> CanonicalThread(thread)
  {
    if thread.TextThread? { TrimTrims(thread.text); }
  }

  lemma SubscriberRoundTrip(s: Subscriber, now: int)
    ensures NormalSubscriber(WriteSubscriber(s), now) == Some(s) <==> CanonicalTarget(s.target)
  {
    var raw := WriteSubscriber(s);
    OptionRoundTrip(Some(s.target.to));
    OptionRoundTrip(s.target.account);
    ThreadRoundTrip(s.target.thread);
    assert |ONCE| != |PERSISTENT|;
    assert (raw.mode == Str(ONCE)) == s.once && Trunc(raw.addedAt.value) == s.addedAt;
    assert raw.to == WriteOption(Some(s.target.to)) && raw.account == WriteOption(s.target.account);
  }

  lemma WriteOneMore(subs: seq<Subscriber>, last: Subscriber)
    ensures WriteSubscribers(subs + [last]) == WriteSubscribers(subs) + [WriteSubscriber(last)]
  {
    assert (subs + [last])[..|subs|] == subs;
  }

  lemma NormalOneMore(raws: seq<RawSubscriber>, raw: RawSubscriber, now: int)
    ensures NormalSubscribers(raws + [raw], now)
         == NormalSubscribers(raws, now) + OptionToSeq(NormalSubscriber(raw, now))
  {
    assert (raws + [raw])[..|raws|] == raws;
  }

  function OptionToSeq(s: Option<Subscriber>): seq<Subscriber> {
    if s.Some? then [s.value] else []
  }

  lemma {:induction false} ReadsNoMore(subs: seq<Subscriber>, now: int)
    ensures |NormalSubscribers(WriteSubscribers(subs), now)| <= |subs|
  {
    if subs != [] {
      var front, last := subs[..|subs| - 1], subs[|subs| - 1];
      ReadsNoMore(front, now);
      NormalOneMore(WriteSubscribers(front), WriteSubscriber(last), now);
    }
  }

  predicate AllCanonical(subs: seq<Subscriber>) {
    forall i :: 0 <= i < |subs| ==> CanonicalTarget(subs[i].target)
  }

  lemma AppendedSame(r: seq<Subscriber>, front: seq<Subscriber>, s: Option<Subscriber>, last: Subscriber)
    requires |r| <= |front|
    ensures r + OptionToSeq(s) == front + [last] <==> r == front && s == Some(last)
  {
    if r + OptionToSeq(s) == front + [last] {
      assert |r + OptionToSeq(s)| == |front| + 1;
      assert (r + OptionToSeq(s))[..|front|] == r && (front + [last])[..|front|] == front;
      assert (r + OptionToSeq(s))[|front|] == last;
    }
  }

  lemma {:induction false} SubscribersRoundTrip(subs: seq<Subscriber>, now: int)
    ensures NormalSubscribers(WriteSubscribers(subs), now) == subs <==> AllCanonical(subs)
  {
    if subs != [] {
      var front, last := subs[..|subs| - 1], subs[|subs| - 1];
      assert subs == front + [last];
      WriteOneMore(front, last);
      NormalOneMore(WriteSubscribers(front), WriteSubscriber(last), now);
      ReadsNoMore(front, now);
      SubscribersRoundTrip(front, now);
      SubscriberRoundTrip(last, now);
      AppendedSame(NormalSubscribers(WriteSubscribers(front), now), front, NormalSubscriber(WriteSubscriber(last), now), last);
      AppendedCanonical(front, last);
    }
  }

  lemma AppendedCanonical(front: seq<Subscriber>, last: Subscriber)
    ensures AllCanonical(front + [last]) <==> AllCanonical(front) && CanonicalTarget(last.target)
  {
    var all := front + [last];
    assert all[|front|] == last;
    assert forall i :: 0 <= i < |front| ==> all[i] == front[i];
  }

  lemma NotifiedRoundTrip(notified: map<Text, int>)
    ensures NormalNotified(WriteNotified(notified)) == notified <==> CanonicalNotified(notified)
  {
    var n := NormalNotified(WriteNotified(notified));
    assert forall id :: id in n <==> id in notified && !Blank(id) && notified[id] > 0;
    assert forall id :: id in n ==> n[id] == notified[id];
    if n == notified {
      assert forall id :: id in notified ==> id in n;
    }
  }

  /** Reading back a written state gives it unchanged exactly when it is canonical. */
  lemma RoundTrip(s: State, now: int)
    ensures Read(Write(s), now) == s <==> Canonical(s)
  {
    SubscribersRoundTrip(s.subscribers, now);
    NotifiedRoundTrip(s.notified);
  }

  // ---- subscriber keys ----

  ghost function KeyAt(subs: seq<Subscriber>, i: int): Text
    requires 0 <= i < |subs|
  {
    Key(subs[i].target)
  }

  ghost predicate UniqueKeys(subs: seq<Subscriber>) {
    forall i, j {:trigger KeyAt(subs, i), KeyAt(subs, j)} :: 0 <= i < j < |subs| ==> KeyAt(subs, i) != KeyAt(subs, j)
  }

  lemma SameKeySame(subs: seq<Subscriber>, a: Subscriber, b: Subscriber)
    requires UniqueKeys(subs) && a in subs && b in subs && Key(a.target) == Key(b.target)
    ensures a == b
  {
    var i :| 0 <= i < |subs| && subs[i] == a;
    var j :| 0 <= j < |subs| && subs[j] == b;
    assert KeyAt(subs, i) == KeyAt(subs, j);
  }

  /** Subscribing leaves unique keys unique, gives the target's key the asked mode, and touches
      no other subscriber. */
  lemma UpsertSubscribes(subs: seq<Subscriber>, target: Target, once: bool, now: int)
    requires UniqueKeys(subs)
    ensures var r := Upsert(subs, target, once, now);
      && UniqueKeys(r)
      && (exists s :: s in r && Key(s.target) == Key(target) && s.once == once)
      && (forall s: Subscriber :: Key(s.target) != Key(target) ==> (s in r <==> s in subs))
      && (forall s :: s in r && s !in subs ==> s == Subscriber(target, once, now))
  {
    var r, k := Upsert(subs, target, once, now), FindKey(subs, Key(target));
    forall i, j | 0 <= i < j < |r| ensures KeyAt(r, i) != KeyAt(r, j) {
      assert j < |subs| ==> KeyAt(subs, i) != KeyAt(subs, j);
    }
    assert r[if k < 0 then |subs| else k] in r;
    forall s: Subscriber | Key(s.target) != Key(target) ensures s in r <==> s in subs {
      if s in subs {
        var i :| 0 <= i < |subs| && subs[i] == s;
        assert r[i] == s;
      }
    }
  }

  lemma CutUnique(subs: seq<Subscriber>, k: nat)
    requires UniqueKeys(subs) && k < |subs|
    ensures UniqueKeys(subs[..k] + subs[k + 1..])
  {
    var r := subs[..k] + subs[k + 1..];
    forall i, j | 0 <= i < j < |r| ensures KeyAt(r, i) != KeyAt(r, j) {
      assert KeyAt(subs, if i < k then i else i + 1) != KeyAt(subs, if j < k then j else j + 1);
    }
  }

  lemma CutMember(subs: seq<Subscriber>, k: nat, s: Subscriber)
    requires UniqueKeys(subs) && k < |subs|
    ensures s in subs[..k] + subs[k + 1..] <==> s in subs && Key(s.target) != KeyAt(subs, k)
  {
    var r := subs[..k] + subs[k + 1..];
    assert forall i :: 0 <= i < k ==> subs[i] == r[i];
    assert forall i :: k < i < |subs| ==> subs[i] == r[i - 1];
    if s in r {
      var i :| 0 <= i < |r| && r[i] == s;
      var at := if i < k then i else i + 1;
      assert subs[at] == s;
      assert KeyAt(subs, if i < k then at else k) != KeyAt(subs, if i < k then k else at);
    }
  }

  lemma CutRemoves(subs: seq<Subscriber>, k: nat)
    requires UniqueKeys(subs) && k < |subs|
    ensures forall s :: s in subs[..k] + subs[k + 1..] <==> s in subs && Key(s.target) != KeyAt(subs, k)
  {
    forall s ensures s in subs[..k] + subs[k + 1..] <==> s in subs && Key(s.target) != KeyAt(subs, k) {
      CutMember(subs, k, s);
    }
  }

  /** Unsubscribing removes the target's key and nothing else. */
  lemma UnsubscribeRemoves(subs: seq<Subscriber>, target: Target)
    requires UniqueKeys(subs)
    ensures UniqueKeys(Unsubscribe(subs, target))
    ensures forall s :: s in Unsubscribe(subs, target) <==> s in subs && Key(s.target) != Key(target)
  {
    var k := FindKey(subs, Key(target));
    if k >= 0 {
      CutUnique(subs, k);
      CutRemoves(subs, k);
      assert KeyAt(subs, k) == Key(target);
    }
  }

  lemma {:induction false} WithoutKeysUnique(subs: seq<Subscriber>, keys: set<Text>)
    requires UniqueKeys(subs)
    ensures UniqueKeys(WithoutKeys(subs, keys))
  {
    if subs != [] {
      var n := |subs| - 1;
      var front, r := subs[..n], WithoutKeys(subs[..n], keys);
      assert UniqueKeys(front) by {
        forall i, j | 0 <= i < j < n ensures KeyAt(front, i) != KeyAt(front, j) {
          assert KeyAt(subs, i) != KeyAt(subs, j);
        }
      }
      WithoutKeysUnique(front, keys);
      var all := r + [subs[n]];
      forall i, j | 0 <= i < j < |all| ensures KeyAt(all, i) != KeyAt(all, j) {
        if j < |r| {
          assert KeyAt(r, i) != KeyAt(r, j);
        } else {
          assert all[i] in front;
          var k :| 0 <= k < n && front[k] == all[i];
          assert KeyAt(subs, k) != KeyAt(subs, n);
        }
      }
    }
  }

  // ---- one poll ----

  ghost predicate Told(log: seq<Delivery>, id: Text) {
    exists d :: d in log && d.request.id == id
  }

  /** Some message about the request gets through. */
  ghost predicate Reaches(subs: seq<Subscriber>, pending: seq<Request>, accepted: seq<set<nat>>, i: nat)
    requires i < |pending| == |accepted|
  {
    Sends(subs, pending[i], accepted[i]) != []
  }

  lemma ToldMore(log: seq<Delivery>, sends: seq<Delivery>, r: Request)
    requires forall d :: d in sends ==> d.request == r
    ensures forall id :: Told(log + sends, id) <==> Told(log, id) || (sends != [] && id == r.id)
  {
    if sends == [] {
      assert log + sends == log;
    } else {
      var all := log + sends;
      assert sends[0] in sends && sends[0] in all;
      assert forall d :: d in all <==> d in log || d in sends;
      forall id ensures Told(all, id) <==> Told(log, id) || id == r.id {
        if Told(all, id) {
          var d :| d in all && d.request.id == id;
        }
        if Told(log, id) {
          var d :| d in log && d.request.id == id;
          assert d in all;
        }
      }
    }
  }

  /** What is told is stamped with the poll's time, the rest is remembered as before. */
  ghost predicate Stamped(p: Progress, start: map<Text, int>, now: int) {
    && (forall id :: Told(p.log, id) ==> id in p.notified && p.notified[id] == now)
    && (forall id :: !Told(p.log, id) ==> (id in p.notified <==> id in start) && (id in start ==> p.notified[id] == start[id]))
  }

  lemma StampMore(p: Progress, r: Request, sends: seq<Delivery>, start: map<Text, int>, now: int)
    requires Stamped(p, start, now) && forall d :: d in sends ==> d.request == r
    ensures Stamped(Progress(if sends == [] then p.notified else p.notified[r.id := now], p.log + sends), start, now)
  {
    ToldMore(p.log, sends, r);
  }

  lemma {:induction false} RoundsStamp(subs: seq<Subscriber>, pending: seq<Request>, n: nat, accepted: seq<set<nat>>,
                                       start: map<Text, int>, now: int)
    requires n <= |pending| == |accepted|
    ensures Stamped(Rounds(subs, pending, n, accepted, start, now), start, now)
  {
    if n > 0 {
      RoundsStamp(subs, pending, n - 1, accepted, start, now);
      var r := pending[n - 1];
      StampMore(Rounds(subs, pending, n - 1, accepted, start, now), r, Sends(subs, r, accepted[n - 1]), start, now);
    } else {
      assert forall id :: !Told([], id);
    }
  }

  ghost predicate ReachesWithin(subs: seq<Subscriber>, pending: seq<Request>, accepted: seq<set<nat>>, n: nat, id: Text)
    requires n <= |pending| == |accepted|
  {
    exists i: nat :: i < n && pending[i].id == id && Reaches(subs, pending, accepted, i)
  }

  lemma {:induction false} RoundsTell(subs: seq<Subscriber>, pending: seq<Request>, n: nat, accepted: seq<set<nat>>,
                                      start: map<Text, int>, now: int, id: Text)
    requires n <= |pending| == |accepted| && now != 0
    ensures Told(Rounds(subs, pending, n, accepted, start, now).log, id) <==>
      !Known(start, id) && ReachesWithin(subs, pending, accepted, n, id)
  {
    if n > 0 {
      RoundsTell(subs, pending, n - 1, accepted, start, now, id);
      RoundsStamp(subs, pending, n - 1, accepted, start, now);
      var p, r := Rounds(subs, pending, n - 1, accepted, start, now), pending[n - 1];
      var sends := Sends(subs, r, accepted[n - 1]);
      ReachesMore(subs, pending, accepted, n, id);
      RoundTells(p, r, sends, start, now, id);
    }
  }

  lemma ReachesMore(subs: seq<Subscriber>, pending: seq<Request>, accepted: seq<set<nat>>, n: nat, id: Text)
    requires 0 < n <= |pending| == |accepted|
    ensures ReachesWithin(subs, pending, accepted, n, id) <==>
      ReachesWithin(subs, pending, accepted, n - 1, id)
      || (pending[n - 1].id == id && Reaches(subs, pending, accepted, n - 1))
  {
  }

  /** One round, when the progress so far is stamped as it should be. */
  lemma RoundTells(p: Progress, r: Request, sends: seq<Delivery>, start: map<Text, int>, now: int, id: Text)
    requires now != 0 && Stamped(p, start, now) && forall d :: d in sends ==> d.request == r
    ensures !Known(p.notified, r.id) <==> !Known(start, r.id) && !Told(p.log, r.id)
    ensures Told(p.log + sends, id) <==> Told(p.log, id) || (sends != [] && id == r.id)
  {
    ToldMore(p.log, sends, r);
  }

  lemma {:induction false} RoundsSources(subs: seq<Subscriber>, pending: seq<Request>, n: nat, accepted: seq<set<nat>>,
                                         start: map<Text, int>, now: int)
    requires n <= |pending| == |accepted|
    ensures forall d :: d in Rounds(subs, pending, n, accepted, start, now).log ==>
      d.subscriber in subs && d.request in pending && ShouldNotify(d.subscriber, d.request)
  {
    if n > 0 {
      RoundsSources(subs, pending, n - 1, accepted, start, now);
    }
  }

  /** A poll tells someone about a request exactly when it is not remembered from the last 24
      hours and some eligible subscriber's message gets through. */
  lemma PollDelivers(s: State, pending: seq<Request>, accepted: seq<set<nat>>, now: int, id: Text)
    requires |accepted| == |pending| && now != 0
    ensures Told(PollState(s, pending, accepted, now).1, id) <==>
      && !(id in s.notified && s.notified[id] != 0 && IsPending(pending, id) && now - s.notified[id] <= 86400000)
      && ReachesWithin(s.subscribers, pending, accepted, |pending|, id)
  {
    RoundsTell(s.subscribers, pending, |pending|, accepted, Prune(s.notified, pending, now), now, id);
  }

  /** After a poll: the remembered ids are pending, the told ones are stamped with this poll's
      time, and the subscribers gone are exactly the one-shot ones a message got through to. */
  lemma PollSettles(s: State, pending: seq<Request>, accepted: seq<set<nat>>, now: int)
    requires |accepted| == |pending| && UniqueKeys(s.subscribers)
    ensures var (r, log) := PollState(s, pending, accepted, now);
      && (forall id :: id in r.notified ==> IsPending(pending, id))
      && (forall id :: Told(log, id) ==> id in r.notified && r.notified[id] == now)
      && (forall id :: id in r.notified && !Told(log, id) ==>
            id in s.notified && r.notified[id] == s.notified[id] && now - r.notified[id] <= 86400000)
      && (forall sub :: sub in r.subscribers <==>
            sub in s.subscribers && !(sub.once && exists d :: d in log && d.subscriber == sub))
      && (forall d :: d in log ==> d.subscriber in s.subscribers && ShouldNotify(d.subscriber, d.request))
      && UniqueKeys(r.subscribers)
  {
    var kept := Prune(s.notified, pending, now);
    RoundsStamp(s.subscribers, pending, |pending|, accepted, kept, now);
    RoundsSources(s.subscribers, pending, |pending|, accepted, kept, now);
    var p := Rounds(s.subscribers, pending, |pending|, accepted, kept, now);
    if s.subscribers != [] {
      WithoutKeysUnique(s.subscribers, OneShotKeys(p.log));
      forall sub | sub in s.subscribers
        ensures Key(sub.target) in OneShotKeys(p.log) <==> sub.once && exists d :: d in p.log && d.subscriber == sub
      {
        if Key(sub.target) in OneShotKeys(p.log) {
          var i :| 0 <= i < |p.log| && p.log[i].subscriber.once && Key(p.log[i].subscriber.target) == Key(sub.target);
          assert p.log[i] in p.log;
          SameKeySame(s.subscribers, p.log[i].subscriber, sub);
        }
      }
    }
  }
}
