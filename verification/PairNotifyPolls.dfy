/** Which messages a poll sends, one by one, and what a one-shot subscription hears over a run. */
module PairNotifyPolls {
  import opened Options
  import opened Texts
  import opened PairNotify
  import opened PairNotifyProofs
  import opened PairNotifyRuns

  // ---- who hears of a request ----

  /** A persistent subscriber hears of every request, a one-shot one of those with a finite time that
      is at least 1, and not before its arming. */
  predicate Hears(sub: Subscriber, r: Request) {
    !sub.once || (r.ts.Num? && r.ts.value >= 1.0 && r.ts.value >= sub.addedAt as real)
  }

  lemma HearsExactly(sub: Subscriber, r: Request)
    ensures ShouldNotify(sub, r) <==> Hears(sub, r)
  {
  }

  // ---- the messages of one poll ----

  /** js lists, in order, the subscribers a message about the request gets through to. */
  ghost predicate SentTo(subs: seq<Subscriber>, r: Request, accepted: set<nat>, js: seq<nat>, log: seq<Delivery>) {
    && |log| == |js| && (forall a, b :: 0 <= a < b < |js| ==> js[a] < js[b])
    && (forall k :: 0 <= k < |js| ==> js[k] < |subs| && log[k] == Delivery(r, subs[js[k]]))
    && (forall j: nat :: j in js <==> j < |subs| && j in accepted && Hears(subs[j], r))
  }

  lemma SentMore(subs: seq<Subscriber>, sub: Subscriber, r: Request, accepted: set<nat>, js: seq<nat>, log: seq<Delivery>)
    requires SentTo(subs, r, accepted, js, log)
    ensures if |subs| in accepted && Hears(sub, r) then SentTo(subs + [sub], r, accepted, js + [|subs|], log + [Delivery(r, sub)])
            else SentTo(subs + [sub], r, accepted, js, log)
  {
    var all := subs + [sub];
    assert forall j: nat :: j < |subs| ==> all[j] == subs[j];
  }

  lemma SendsLast(front: seq<Subscriber>, last: Subscriber, r: Request, accepted: set<nat>, before: seq<nat>) returns (js: seq<nat>)
    requires SentTo(front, r, accepted, before, Sends(front, r, accepted))
    ensures SentTo(front + [last], r, accepted, js, Sends(front + [last], r, accepted))
  {
    HearsExactly(last, r);
    SentMore(front, last, r, accepted, before, Sends(front, r, accepted));
    assert (front + [last])[..|front|] == front;
    js := if |front| in accepted && Hears(last, r) then before + [|front|] else before;
  }

  lemma {:induction false} SendsListed(subs: seq<Subscriber>, r: Request, accepted: set<nat>) returns (js: seq<nat>)
    ensures SentTo(subs, r, accepted, js, Sends(subs, r, accepted))
  {
    if subs == [] {
      js := [];
    } else {
      var front, last := subs[..|subs| - 1], subs[|subs| - 1];
      assert front + [last] == subs;
      var before := SendsListed(front, r, accepted);
      js := SendsLast(front, last, r, accepted, before);
    }
  }

  /** Some message about the request gets through. */
  ghost predicate HeardOf(subs: seq<Subscriber>, r: Request, accepted: set<nat>) {
    exists j: nat :: j < |subs| && j in accepted && Hears(subs[j], r)
  }

  lemma HeardExactly(subs: seq<Subscriber>, r: Request, accepted: set<nat>)
    ensures Sends(subs, r, accepted) != [] <==> HeardOf(subs, r, accepted)
  {
    var js := SendsListed(subs, r, accepted);
    assert js != [] ==> js[0] in js;
    if j: nat :| j < |subs| && j in accepted && Hears(subs[j], r) {
      assert j in js;
    }
  }

  /** The request is one the poll takes up: not remembered from the last 24 hours, and not told of
      earlier in the same poll. */
  ghost predicate TakenUp(s: State, pending: seq<Request>, accepted: seq<set<nat>>, now: int, i: nat)
    requires i < |pending| == |accepted|
  {
    var id := pending[i].id;
    && !(id in s.notified && s.notified[id] != 0 && now - s.notified[id] <= 86400000)
    && forall k: nat :: k < i && pending[k].id == id ==> !HeardOf(s.subscribers, pending[k], accepted[k])
  }

  lemma HeardWithin(subs: seq<Subscriber>, pending: seq<Request>, accepted: seq<set<nat>>, n: nat, id: Text)
    requires n <= |pending| == |accepted|
    ensures ReachesWithin(subs, pending, accepted, n, id)
            <==> exists k: nat :: k < n && pending[k].id == id && HeardOf(subs, pending[k], accepted[k])
  {
    forall k: nat | k < n ensures Reaches(subs, pending, accepted, k) <==> HeardOf(subs, pending[k], accepted[k]) {
      HeardExactly(subs, pending[k], accepted[k]);
    }
  }

  lemma RoundTakes(s: State, pending: seq<Request>, accepted: seq<set<nat>>, now: int, i: nat)
    requires i < |pending| == |accepted| && now != 0
    ensures var p := Rounds(s.subscribers, pending, i, accepted, Prune(s.notified, pending, now), now);
      !Known(p.notified, pending[i].id) <==> TakenUp(s, pending, accepted, now, i)
  {
    var start, r := Prune(s.notified, pending, now), pending[i];
    var p := Rounds(s.subscribers, pending, i, accepted, start, now);
    RoundsStamp(s.subscribers, pending, i, accepted, start, now);
    RoundTells(p, r, [], start, now, r.id);
    RoundsTell(s.subscribers, pending, i, accepted, start, now, r.id);
    HeardWithin(s.subscribers, pending, accepted, i, r.id);
    StartKnown(s, pending, now, i);
  }

  lemma StartKnown(s: State, pending: seq<Request>, now: int, i: nat)
    requires i < |pending|
    ensures var id := pending[i].id;
      Known(Prune(s.notified, pending, now), id)
      <==> id in s.notified && s.notified[id] != 0 && now - s.notified[id] <= 86400000
  {
    assert IsPending(pending, pending[i].id);
  }

  // A message: which request it is about, and which subscriber it goes to.
  datatype Mail = Mail(request: nat, subscriber: nat)

  predicate Ahead(a: Mail, b: Mail) {
    a.request < b.request || (a.request == b.request && a.subscriber < b.subscriber)
  }

  ghost predicate Due(s: State, pending: seq<Request>, accepted: seq<set<nat>>, now: int, m: Mail)
    requires |pending| == |accepted|
  {
    && m.request < |pending| && m.subscriber < |s.subscribers|
    && TakenUp(s, pending, accepted, now, m.request)
    && m.subscriber in accepted[m.request] && Hears(s.subscribers[m.subscriber], pending[m.request])
  }

  ghost predicate InOrder(mails: seq<Mail>) {
    forall a, b :: 0 <= a < b < |mails| ==> Ahead(mails[a], mails[b])
  }

  ghost predicate AllDue(s: State, pending: seq<Request>, accepted: seq<set<nat>>, now: int, n: nat, mails: seq<Mail>)
    requires |pending| == |accepted|
  {
    forall m :: m in mails <==> m.request < n && Due(s, pending, accepted, now, m)
  }

  ghost predicate LogOf(s: State, pending: seq<Request>, mails: seq<Mail>, log: seq<Delivery>) {
    |log| == |mails| && forall k :: 0 <= k < |mails| ==> DeliveryOf(s, pending, mails[k], log[k])
  }

  /** The mails are in order, are those due about the first n requests, and the log is theirs. */
  ghost predicate Mailed(s: State, pending: seq<Request>, accepted: seq<set<nat>>, now: int, n: nat, mails: seq<Mail>, log: seq<Delivery>)
    requires n <= |pending| == |accepted|
  {
    InOrder(mails) && AllDue(s, pending, accepted, now, n, mails) && LogOf(s, pending, mails, log)
  }

  predicate DeliveryOf(s: State, pending: seq<Request>, m: Mail, d: Delivery) {
    m.request < |pending| && m.subscriber < |s.subscribers| && d == Delivery(pending[m.request], s.subscribers[m.subscriber])
  }

  function MailsTo(i: nat, js: seq<nat>): (r: seq<Mail>)
    ensures |r| == |js| && forall k :: 0 <= k < |r| ==> r[k] == Mail(i, js[k])
  {
    seq(|js|, k requires 0 <= k < |js| => Mail(i, js[k]))
  }

  lemma MailsToAre(i: nat, js: seq<nat>, m: Mail)
    ensures m in MailsTo(i, js) <==> m.request == i && m.subscriber in js
  {
    if m.request == i && m.subscriber in js {
      var k :| 0 <= k < |js| && js[k] == m.subscriber;
      assert MailsTo(i, js)[k] == m;
    }
  }

  lemma DueMore(s: State, pending: seq<Request>, accepted: seq<set<nat>>, now: int, n: nat, mails: seq<Mail>, js: seq<nat>,
                sends: seq<Delivery>, m: Mail)
    requires n < |pending| == |accepted| && AllDue(s, pending, accepted, now, n, mails)
    requires TakenUp(s, pending, accepted, now, n) && SentTo(s.subscribers, pending[n], accepted[n], js, sends)
    ensures m in mails + MailsTo(n, js) <==> m.request < n + 1 && Due(s, pending, accepted, now, m)
  {
    MailsToAre(n, js, m);
    assert m in mails + MailsTo(n, js) <==> m in mails || m in MailsTo(n, js);
    if m.request == n {
      assert m.subscriber in js <==>
        m.subscriber < |s.subscribers| && m.subscriber in accepted[n] && Hears(s.subscribers[m.subscriber], pending[n]);
    }
  }

  lemma OrderMore(mails: seq<Mail>, n: nat, js: seq<nat>)
    requires InOrder(mails) && (forall m :: m in mails ==> m.request < n)
    requires forall a, b :: 0 <= a < b < |js| ==> js[a] < js[b]
    ensures InOrder(mails + MailsTo(n, js))
  {
    var all := mails + MailsTo(n, js);
    forall a, b | 0 <= a < b < |all| ensures Ahead(all[a], all[b]) {
      if a < |mails| {
        assert mails[a] in mails;
      }
    }
  }

  lemma LogMore(s: State, pending: seq<Request>, mails: seq<Mail>, log: seq<Delivery>, n: nat, js: seq<nat>, sends: seq<Delivery>)
    requires LogOf(s, pending, mails, log) && n < |pending| && |sends| == |js|
    requires forall k :: 0 <= k < |js| ==> js[k] < |s.subscribers| && sends[k] == Delivery(pending[n], s.subscribers[js[k]])
    ensures LogOf(s, pending, mails + MailsTo(n, js), log + sends)
  {
  }

  lemma MailedMore(s: State, pending: seq<Request>, accepted: seq<set<nat>>, now: int, n: nat, mails: seq<Mail>, log: seq<Delivery>,
                   js: seq<nat>, sends: seq<Delivery>)
    requires n < |pending| == |accepted| && Mailed(s, pending, accepted, now, n, mails, log)
    requires TakenUp(s, pending, accepted, now, n) && SentTo(s.subscribers, pending[n], accepted[n], js, sends)
    ensures Mailed(s, pending, accepted, now, n + 1, mails + MailsTo(n, js), log + sends)
  {
    OrderMore(mails, n, js);
    LogMore(s, pending, mails, log, n, js, sends);
    forall m ensures m in mails + MailsTo(n, js) <==> m.request < n + 1 && Due(s, pending, accepted, now, m) {
      DueMore(s, pending, accepted, now, n, mails, js, sends, m);
    }
  }

  lemma MailedNone(s: State, pending: seq<Request>, accepted: seq<set<nat>>, now: int, n: nat, mails: seq<Mail>, log: seq<Delivery>)
    requires n < |pending| == |accepted| && Mailed(s, pending, accepted, now, n, mails, log)
    requires !TakenUp(s, pending, accepted, now, n)
    ensures Mailed(s, pending, accepted, now, n + 1, mails, log)
  {
  }

  lemma {:induction false} RoundsMail(s: State, pending: seq<Request>, accepted: seq<set<nat>>, now: int, n: nat) returns (mails: seq<Mail>)
    requires n <= |pending| == |accepted| && now != 0
    ensures Mailed(s, pending, accepted, now, n, mails,
                   Rounds(s.subscribers, pending, n, accepted, Prune(s.notified, pending, now), now).log)
  {
    mails := [];
    if n > 0 {
      mails := RoundsMail(s, pending, accepted, now, n - 1);
      mails := RoundMails(s, pending, accepted, now, n - 1, mails);
    }
  }

  lemma RoundMails(s: State, pending: seq<Request>, accepted: seq<set<nat>>, now: int, i: nat, before: seq<Mail>) returns (mails: seq<Mail>)
    requires i < |pending| == |accepted| && now != 0
    requires Mailed(s, pending, accepted, now, i, before,
                    Rounds(s.subscribers, pending, i, accepted, Prune(s.notified, pending, now), now).log)
    ensures Mailed(s, pending, accepted, now, i + 1, mails,
                   Rounds(s.subscribers, pending, i + 1, accepted, Prune(s.notified, pending, now), now).log)
  {
    var start := Prune(s.notified, pending, now);
    var p := Rounds(s.subscribers, pending, i, accepted, start, now);
    RoundTakes(s, pending, accepted, now, i);
    if TakenUp(s, pending, accepted, now, i) {
      var js := SendsListed(s.subscribers, pending[i], accepted[i]);
      MailedMore(s, pending, accepted, now, i, before, p.log, js, Sends(s.subscribers, pending[i], accepted[i]));
      mails := before + MailsTo(i, js);
    } else {
      MailedNone(s, pending, accepted, now, i, before, p.log);
      mails := before;
    }
  }

  /** A poll sends exactly the messages due, each once, request by request and in the order of the
      subscribers: about each request it takes up, to every subscriber who hears of it and whose
      message gets through. */
  lemma PollMails(s: State, pending: seq<Request>, accepted: seq<set<nat>>, now: int) returns (mails: seq<Mail>)
    requires |accepted| == |pending| && now != 0
    ensures Mailed(s, pending, accepted, now, |pending|, mails, PollState(s, pending, accepted, now).1)
  {
    if s.subscribers == [] {
      mails := [];
    } else {
      mails := RoundsMail(s, pending, accepted, now, |pending|);
    }
  }

  // ---- a one-shot subscription ----

  /** A one-shot subscriber is told of nothing it does not hear of, and stays subscribed. */
  lemma PollPasses(s: State, pending: seq<Request>, accepted: seq<set<nat>>, now: int, sub: Subscriber)
    requires |accepted| == |pending| && UniqueKeys(s.subscribers) && sub in s.subscribers
    requires forall i :: 0 <= i < |pending| ==> !Hears(sub, pending[i])
    ensures var (r, log) := PollState(s, pending, accepted, now);
      sub in r.subscribers && forall d :: d in log ==> d.subscriber != sub
  {
    PollSettles(s, pending, accepted, now);
    RoundsSources(s.subscribers, pending, |pending|, accepted, Prune(s.notified, pending, now), now);
    forall d | d in PollState(s, pending, accepted, now).1 ensures d.subscriber != sub {
      HearsExactly(d.subscriber, d.request);
    }
  }

  /** The operation passes the subscriber by: a poll of requests it does not hear of, or a command for
      another key, and nothing is stored that was not read. */
  ghost predicate PassesBy(op: Op, io: Io, sub: Subscriber) {
    && !Careless(op, io)
    && if op.Poll? then forall i :: 0 <= i < |op.pending| ==> !Hears(sub, op.pending[i])
       else Key(op.target) != Key(sub.target)
  }

  lemma ApplyPasses(s: State, op: Op, sub: Subscriber)
    requires GoodState(s) && GoodOp(op) && sub in s.subscribers
    requires if op.Poll? then forall i :: 0 <= i < |op.pending| ==> !Hears(sub, op.pending[i]) else Key(op.target) != Key(sub.target)
    ensures sub in Apply(s, op).0.subscribers && forall d :: d in Apply(s, op).1 ==> d.subscriber != sub
  {
    match op {
      case Poll(pending, accepted, now) => PollPasses(s, pending, accepted, now, sub);
      case On(t, now) => UpsertSubscribes(s.subscribers, t, false, now);
      case Once(t, now) => UpsertSubscribes(s.subscribers, t, true, now);
      case Off(t, _) => UnsubscribeRemoves(s.subscribers, t);
    }
  }

  lemma StepPasses(file: File, s: State, op: Op, io: Io, sub: Subscriber) returns (r: State)
    requires Stores(file, s) && GoodOp(op) && sub in s.subscribers && PassesBy(op, io, sub)
    ensures Stores(Step(file, op, io).0, r) && sub in r.subscribers
    ensures forall d :: d in Step(file, op, io).1 ==> d.subscriber != sub
  {
    r := StepState(s, op, io);
    StepStores(file, s, op, io);
    if io.readOk {
      ApplyPasses(s, op, sub);
    } else {
      NothingFromNothing(op);
    }
  }

  ghost predicate AllPassBy(ops: seq<Op>, ios: seq<Io>, k: nat, sub: Subscriber)
    requires k <= |ops| == |ios|
  {
    k == 0 || (PassesBy(ops[k - 1], ios[k - 1], sub) && AllPassBy(ops, ios, k - 1, sub))
  }

  lemma RunPasses(file: File, ops: seq<Op>, ios: seq<Io>, k: nat, s: State, sub: Subscriber) returns (r: State)
    requires AllGood(ops) && AllProper(ops) && k < |ops| == |ios| && PassesBy(ops[k], ios[k], sub)
    requires Stores(FileAfter(file, ops, ios, k), s) && sub in s.subscribers
    ensures Stores(FileAfter(file, ops, ios, k + 1), r) && sub in r.subscribers
    ensures forall d :: d in Step(FileAfter(file, ops, ios, k), ops[k], ios[k]).1 ==> d.subscriber != sub
  {
    NextFile(file, ops, ios, k);
    r := StepPasses(FileAfter(file, ops, ios, k), s, ops[k], ios[k], sub);
  }

  lemma {:induction false} StaysStored(file: File, s: State, ops: seq<Op>, ios: seq<Io>, k: nat, sub: Subscriber) returns (r: State)
    requires Stores(file, s) && sub in s.subscribers && AllGood(ops) && AllProper(ops) && k <= |ops| == |ios|
    requires AllPassBy(ops, ios, k, sub)
    ensures Stores(FileAfter(file, ops, ios, k), r) && sub in r.subscribers
  {
    if k == 0 {
      r := s;
    } else {
      var before := StaysStored(file, s, ops, ios, k - 1, sub);
      r := RunPasses(file, ops, ios, k - 1, before, sub);
    }
  }

  /** Under any run of polls and commands that pass it by, whatever other reads and writes fail, a
      one-shot subscriber stays in the file, and the next poll that passes it by does not tell it. */
  lemma OneShotWaits(file: File, s: State, ops: seq<Op>, ios: seq<Io>, k: nat, sub: Subscriber) returns (r: State)
    requires Stores(file, s) && sub in s.subscribers && AllGood(ops) && AllProper(ops) && k < |ops| == |ios|
    requires AllPassBy(ops, ios, k, sub) && PassesBy(ops[k], ios[k], sub)
    ensures Stores(FileAfter(file, ops, ios, k + 1), r) && sub in r.subscribers
    ensures forall d :: d in Step(FileAfter(file, ops, ios, k), ops[k], ios[k]).1 ==> d.subscriber != sub
  {
    var before := StaysStored(file, s, ops, ios, k, sub);
    r := RunPasses(file, ops, ios, k, before, sub);
  }
}
