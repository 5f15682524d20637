/** What the pairing notifier keeps over any run of polls and commands, whatever reads and writes
    of its file fail. */
module PairNotifyRuns {
  import opened Options
  import opened Texts
  import opened PairNotify
  import opened PairNotifyProofs

  // ---- the file and the state in memory ----

  /** Commands name targets in canonical form; polls see positive times and visible ids. */
  ghost predicate GoodOp(op: Op) {
    && op.Proper()
    && (op.Poll? ==> op.now > 0 && forall id :: IsPending(op.pending, id) ==> !Blank(id))
    && (!op.Poll? ==> CanonicalTarget(op.target))
  }

  ghost predicate AllGood(ops: seq<Op>) {
    forall k :: 0 <= k < |ops| ==> GoodOp(ops[k])
  }

  ghost predicate GoodState(s: State) {
    Canonical(s) && UniqueKeys(s.subscribers)
  }

  /** The file reads as s, whenever it is read. */
  ghost predicate Stores(file: File, s: State) {
    GoodState(s) && forall now :: Read(file, now) == s
  }

  lemma MembersCanonical(subs: seq<Subscriber>, r: seq<Subscriber>, target: Target)
    requires AllCanonical(subs) && CanonicalTarget(target)
    requires forall s :: s in r ==> s in subs || s.target == target
    ensures AllCanonical(r)
  {
    forall i | 0 <= i < |r| ensures CanonicalTarget(r[i].target) {
      assert r[i] in r;
    }
  }

  lemma UpsertKeeps(s: State, target: Target, once: bool, now: int)
    requires GoodState(s) && CanonicalTarget(target)
    ensures GoodState(s.(subscribers := Upsert(s.subscribers, target, once, now)))
  {
    UpsertSubscribes(s.subscribers, target, once, now);
    MembersCanonical(s.subscribers, Upsert(s.subscribers, target, once, now), target);
  }

  lemma ApplyKeeps(s: State, op: Op)
    requires GoodState(s) && GoodOp(op)
    ensures GoodState(Apply(s, op).0)
  {
    match op {
      case Poll(pending, accepted, now) => PollSettles(s, pending, accepted, now); PollCanonical(s, pending, accepted, now);
      case On(t, now) => UpsertKeeps(s, t, false, now);
      case Once(t, now) => UpsertKeeps(s, t, true, now);
      case Off(t, now) =>
        UnsubscribeRemoves(s.subscribers, t);
        MembersCanonical(s.subscribers, Unsubscribe(s.subscribers, t), t);
    }
  }

  lemma PollCanonical(s: State, pending: seq<Request>, accepted: seq<set<nat>>, now: int)
    requires GoodState(s) && GoodOp(Poll(pending, accepted, now))
    ensures Canonical(PollState(s, pending, accepted, now).0)
  {
    PollSettles(s, pending, accepted, now);
    var r := PollState(s, pending, accepted, now).0;
    forall i | 0 <= i < |r.subscribers| ensures CanonicalTarget(r.subscribers[i].target) {
      assert r.subscribers[i] in r.subscribers;
    }
  }

  lemma NoStateStored()
    ensures Stores(Unreadable, NO_STATE)
  {
  }

  /** The same operation on a state in memory that is lost and kept as the file is. */
  ghost function StepState(s: State, op: Op, io: Io): State
    requires op.Proper()
  {
    var known := if io.readOk then s else NO_STATE;
    if !Changes(known, op) then s
    else match io.write case Stored => Apply(known, op).0 case Failed => s case Torn => NO_STATE
  }

  lemma WriteStores(r: State)
    requires GoodState(r)
    ensures Stores(Write(r), r)
  {
    forall now ensures Read(Write(r), now) == r {
      RoundTrip(r, now);
    }
  }

  lemma StepStores(file: File, s: State, op: Op, io: Io)
    requires Stores(file, s) && GoodOp(op)
    ensures Stores(Step(file, op, io).0, StepState(s, op, io))
  {
    var known := if io.readOk then s else NO_STATE;
    NoStateStored();
    assert ReadIo(file, op.now, io) == known;
    ApplyKeeps(known, op);
    WriteStores(Apply(known, op).0);
  }

  /** The state after the first k operations. */
  ghost function StateAfter(ops: seq<Op>, ios: seq<Io>, k: nat): State
    requires AllProper(ops) && k <= |ops| == |ios|
  {
    if k == 0 then NO_STATE else StepState(StateAfter(ops, ios, k - 1), ops[k - 1], ios[k - 1])
  }

  ghost predicate StoresAt(ops: seq<Op>, ios: seq<Io>, k: nat)
    requires AllProper(ops) && k <= |ops| == |ios|
  {
    Stores(FileAfter(Unreadable, ops, ios, k), StateAfter(ops, ios, k))
  }

  lemma NextStores(ops: seq<Op>, ios: seq<Io>, k: nat)
    requires AllGood(ops) && AllProper(ops) && k < |ops| == |ios| && StoresAt(ops, ios, k)
    ensures StoresAt(ops, ios, k + 1)
  {
    StepStores(FileAfter(Unreadable, ops, ios, k), StateAfter(ops, ios, k), ops[k], ios[k]);
  }

  ghost function Storing(ops: seq<Op>, ios: seq<Io>): (r: seq<bool>)
    requires AllProper(ops) && |ops| == |ios|
    ensures |r| == |ops| + 1 && forall k :: 0 <= k <= |ops| ==> r[k] == StoresAt(ops, ios, k)
  {
    seq(|ops| + 1, k requires 0 <= k <= |ops| => StoresAt(ops, ios, k))
  }

  lemma {:induction false} Carries(r: seq<bool>, k: nat)
    requires k < |r| && r[0] && forall i :: 0 <= i < |r| - 1 && r[i] ==> r[i + 1]
    ensures r[k]
  {
    if k > 0 { Carries(r, k - 1); }
  }

  /** From a missing file on, whatever reads and writes fail, the file holds a canonical state with
      unique subscriber keys, the one of the run in memory, whenever it is read. */
  lemma RunStores(ops: seq<Op>, ios: seq<Io>, k: nat)
    requires AllGood(ops) && AllProper(ops) && k <= |ops| == |ios|
    ensures Stores(FileAfter(Unreadable, ops, ios, k), StateAfter(ops, ios, k))
  {
    var r := Storing(ops, ios);
    NoStateStored();
    forall i | 0 <= i < |ops| && r[i] ensures r[i + 1] {
      NextStores(ops, ios, i);
    }
    Carries(r, k);
    assert StoresAt(ops, ios, k);
  }

  // ---- what the file recalls ----

  /** What reading the file recalls of the requests, whoever subscribes. */
  function Recalled(file: File): map<Text, int> {
    if file.Unreadable? then map[] else NormalNotified(file.notified)
  }

  ghost predicate Recalls(file: File, id: Text, since: int) {
    id in Recalled(file) && Recalled(file)[id] >= since
  }

  /** The file recalls nothing that keeps the request from being told at this time. */
  ghost predicate Stale(file: File, id: Text, time: int) {
    !(Known(Recalled(file), id) && time - Recalled(file)[id] <= MAX_SEEN_AGE_MS)
  }

  /** An operation that leaves the request pending, not more than 24 hours after. */
  ghost predicate Bears(op: Op, id: Text, since: int) {
    op.Proper() && (op.Poll? ==> IsPending(op.pending, id) && since <= op.now && op.now - since <= MAX_SEEN_AGE_MS)
  }

  /** The operation wipes the file's memory: its write is torn, or it stores a state it could not
      read before. */
  ghost predicate Forgets(file: File, op: Op, io: Io)
    requires op.Proper()
  {
    Changes(ReadIo(file, op.now, io), op) && (io.write.Torn? || (io.write.Stored? && !io.readOk))
  }

  lemma PollRecalls(s: State, pending: seq<Request>, accepted: seq<set<nat>>, now: int, id: Text, since: int)
    requires |accepted| == |pending| && since <= now && now - since <= MAX_SEEN_AGE_MS
    requires id in s.notified && s.notified[id] >= since && IsPending(pending, id)
    ensures var r := PollState(s, pending, accepted, now).0; id in r.notified && r.notified[id] >= since
  {
    var kept := Prune(s.notified, pending, now);
    assert id in kept;
    RoundsStamp(s.subscribers, pending, |pending|, accepted, kept, now);
    var p := Rounds(s.subscribers, pending, |pending|, accepted, kept, now);
    if Told(p.log, id) {
      assert p.notified[id] == now;
    } else {
      assert p.notified[id] == kept[id];
    }
  }

  lemma ApplyRecalls(s: State, op: Op, id: Text, since: int)
    requires id in s.notified && s.notified[id] >= since && Bears(op, id, since)
    ensures var r := Apply(s, op).0; id in r.notified && r.notified[id] >= since
  {
    if op.Poll? {
      PollRecalls(s, op.pending, op.accepted, op.now, id, since);
    }
  }

  lemma WriteRecalls(s: State, id: Text, since: int)
    requires id in s.notified && s.notified[id] >= since && since > 0 && !Blank(id)
    ensures Recalls(Write(s), id, since)
  {
  }

  lemma StepRecalls(file: File, op: Op, io: Io, id: Text, since: int)
    requires Recalls(file, id, since) && Bears(op, id, since) && since > 0 && !Blank(id) && !Forgets(file, op, io)
    ensures Recalls(Step(file, op, io).0, id, since)
  {
    if io.readOk {
      var s := Read(file, op.now);
      ApplyRecalls(s, op, id, since);
      WriteRecalls(Apply(s, op).0, id, since);
    }
  }

  lemma NothingFromNothing(op: Op)
    requires op.Proper()
    ensures Apply(NO_STATE, op).0.notified == map[] && Apply(NO_STATE, op).1 == []
  {
  }

  lemma StepForgets(file: File, op: Op, io: Io)
    requires op.Proper() && Forgets(file, op, io)
    ensures Recalled(Step(file, op, io).0) == map[]
  {
    NothingFromNothing(op);
  }

  lemma ApplyStale(s: State, op: Op, id: Text)
    requires op.Proper() && !Told(Apply(s, op).1, id)
    ensures var r := Apply(s, op).0; id in r.notified ==> id in s.notified && r.notified[id] == s.notified[id]
  {
    if op.Poll? {
      var kept := Prune(s.notified, op.pending, op.now);
      RoundsStamp(s.subscribers, op.pending, |op.pending|, op.accepted, kept, op.now);
    }
  }

  lemma StepStale(file: File, op: Op, io: Io, id: Text, time: int)
    requires op.Proper() && Stale(file, id, time) && !Told(Step(file, op, io).1, id)
    ensures Stale(Step(file, op, io).0, id, time)
  {
    ApplyStale(ReadIo(file, op.now, io), op, id);
  }

  lemma ReachesPending(subs: seq<Subscriber>, pending: seq<Request>, accepted: seq<set<nat>>, n: nat, id: Text)
    requires n <= |pending| == |accepted| && ReachesWithin(subs, pending, accepted, n, id)
    ensures IsPending(pending, id) && subs != []
  {
  }

  /** A request is told exactly when nothing recalled keeps it, and some message gets through. */
  lemma PollTells(file: File, op: Op, io: Io, id: Text, time: int)
    requires op.Proper() && op.Poll? && op.now != 0
    requires if io.readOk && Known(Recalled(file), id) then time <= op.now else true
    ensures Stale(file, id, time) ==> (Told(Step(file, op, io).1, id)
            <==> ReachesWithin(ReadIo(file, op.now, io).subscribers, op.pending, op.accepted, |op.pending|, id))
    ensures Told(Step(file, op, io).1, id) ==> io.readOk && Stale(file, id, op.now)
  {
    var s := ReadIo(file, op.now, io);
    PollDelivers(s, op.pending, op.accepted, op.now, id);
    if ReachesWithin(s.subscribers, op.pending, op.accepted, |op.pending|, id) {
      ReachesPending(s.subscribers, op.pending, op.accepted, |op.pending|, id);
    }
  }

  /** What is recalled from the last 24 hours is not delivered again. */
  lemma Withheld(file: File, op: Op, io: Io, id: Text, since: int)
    requires op.Proper() && op.Poll? && Recalls(file, id, since) && since > 0
    requires since <= op.now && op.now - since <= MAX_SEEN_AGE_MS
    ensures !Told(Step(file, op, io).1, id)
  {
    PollTells(file, op, io, id, op.now);
  }

  /** A poll that tells of a request always writes: a stored write recalls the request under the
      poll's time, any other leaves nothing that keeps it from being told again. */
  lemma DeliveryRecalled(file: File, op: Op, io: Io, id: Text)
    requires op.Proper() && op.Poll? && Told(Step(file, op, io).1, id) && op.now > 0 && !Blank(id)
    ensures var f := Step(file, op, io).0;
      if io.write.Stored? then Recalls(f, id, op.now) else Stale(f, id, op.now)
  {
    PollTells(file, op, io, id, op.now);
    var s := ReadIo(file, op.now, io);
    var kept := Prune(s.notified, op.pending, op.now);
    RoundsStamp(s.subscribers, op.pending, |op.pending|, op.accepted, kept, op.now);
    WriteRecalls(Apply(s, op).0, id, op.now);
  }

  // ---- spacing ----

  /** The k-th operation delivers a message about the request. */
  ghost predicate Delivers(start: File, ops: seq<Op>, ios: seq<Io>, k: nat, id: Text)
    requires AllProper(ops) && k < |ops| == |ios|
  {
    ops[k].Poll? && Told(Step(FileAfter(start, ops, ios, k), ops[k], ios[k]).1, id)
  }

  /** From poll i to poll j the request stays pending and the clock does not run backwards. */
  ghost predicate PendingThroughout(ops: seq<Op>, i: nat, j: nat, id: Text)
    requires i <= j < |ops|
  {
    forall k :: i <= k <= j && ops[k].Poll? ==> IsPending(ops[k].pending, id) && ops[i].now <= ops[k].now <= ops[j].now
  }

  lemma NextFile(start: File, ops: seq<Op>, ios: seq<Io>, k: nat)
    requires AllProper(ops) && k < |ops| == |ios|
    ensures FileAfter(start, ops, ios, k + 1) == Step(FileAfter(start, ops, ios, k), ops[k], ios[k]).0
  {
  }

  /** Between poll i and operation k the memory of the delivery was not stored, or wiped. */
  ghost predicate Lost(start: File, ops: seq<Op>, ios: seq<Io>, i: nat, k: nat)
    requires AllProper(ops) && i < k <= |ops| == |ios|
    decreases k
  {
    if k == i + 1 then !ios[i].write.Stored?
    else Lost(start, ops, ios, i, k - 1) || Forgets(FileAfter(start, ops, ios, k - 1), ops[k - 1], ios[k - 1])
  }

  ghost predicate Remembers(file: File, id: Text, time: int, lost: bool) {
    if lost then Stale(file, id, time) else Recalls(file, id, time)
  }

  lemma StepRemembers(file: File, op: Op, io: Io, id: Text, time: int, lost: bool)
    requires Remembers(file, id, time, lost) && Bears(op, id, time) && time > 0 && !Blank(id)
    requires !Told(Step(file, op, io).1, id)
    ensures Remembers(Step(file, op, io).0, id, time, lost || Forgets(file, op, io))
  {
    if Forgets(file, op, io) {
      StepForgets(file, op, io);
    } else if lost {
      StepStale(file, op, io, id, time);
    } else {
      StepRecalls(file, op, io, id, time);
    }
  }

  ghost predicate RemembersAt(start: File, ops: seq<Op>, ios: seq<Io>, i: nat, k: nat, id: Text)
    requires AllProper(ops) && k <= |ops| == |ios|
  {
    k <= i || Remembers(FileAfter(start, ops, ios, k), id, ops[i].now, Lost(start, ops, ios, i, k))
  }

  lemma FirstRemembers(start: File, ops: seq<Op>, ios: seq<Io>, i: nat, id: Text)
    requires AllProper(ops) && i < |ops| == |ios| && ops[i].now > 0 && !Blank(id) && Delivers(start, ops, ios, i, id)
    ensures RemembersAt(start, ops, ios, i, i + 1, id)
  {
    DeliveryRecalled(FileAfter(start, ops, ios, i), ops[i], ios[i], id);
    NextFile(start, ops, ios, i);
  }

  lemma NextRemembers(start: File, ops: seq<Op>, ios: seq<Io>, i: nat, k: nat, id: Text)
    requires AllProper(ops) && i < k < |ops| == |ios| && ops[i].now > 0 && !Blank(id)
    requires Bears(ops[k], id, ops[i].now) && !Told(Step(FileAfter(start, ops, ios, k), ops[k], ios[k]).1, id)
    requires RemembersAt(start, ops, ios, i, k, id)
    ensures RemembersAt(start, ops, ios, i, k + 1, id)
  {
    StepRemembers(FileAfter(start, ops, ios, k), ops[k], ios[k], id, ops[i].now, Lost(start, ops, ios, i, k));
    NextFile(start, ops, ios, k);
  }

  ghost function Remembering(start: File, ops: seq<Op>, ios: seq<Io>, i: nat, j: nat, id: Text): (r: seq<bool>)
    requires AllProper(ops) && j <= |ops| == |ios|
    ensures |r| == j + 1 && forall k :: 0 <= k <= j ==> r[k] == RemembersAt(start, ops, ios, i, k, id)
  {
    seq(j + 1, k requires 0 <= k <= j => RemembersAt(start, ops, ios, i, k, id))
  }

  /** As long as nothing is delivered in between, the file recalls the delivery of poll i exactly
      while that memory is not lost. */
  lemma RunRemembers(start: File, ops: seq<Op>, ios: seq<Io>, i: nat, j: nat, id: Text)
    requires AllProper(ops) && i < j < |ops| == |ios| && ops[i].now > 0 && !Blank(id) && Delivers(start, ops, ios, i, id)
    requires Quiet(start, ops, ios, i, j, id) && forall m :: i < m < j ==> Bears(ops[m], id, ops[i].now)
    ensures Remembers(FileAfter(start, ops, ios, j), id, ops[i].now, Lost(start, ops, ios, i, j))
  {
    var r := Remembering(start, ops, ios, i, j, id);
    forall k | 0 <= k < |r| - 1 && r[k] ensures r[k + 1] {
      if k == i {
        FirstRemembers(start, ops, ios, i, id);
      } else if k > i {
        NextRemembers(start, ops, ios, i, k, id);
      }
    }
    Carries(r, j);
    assert RemembersAt(start, ops, ios, i, j, id);
  }

  ghost predicate Quiet(start: File, ops: seq<Op>, ios: seq<Io>, i: nat, j: nat, id: Text)
    requires AllProper(ops) && i < j < |ops| == |ios|
  {
    forall m :: i < m < j ==> !Told(Step(FileAfter(start, ops, ios, m), ops[m], ios[m]).1, id)
  }

  /** Some eligible subscriber's message about the request gets through at the k-th operation. */
  ghost predicate GetsThrough(start: File, ops: seq<Op>, ios: seq<Io>, k: nat, id: Text)
    requires AllProper(ops) && k < |ops| == |ios| && ops[k].Poll?
  {
    ReachesWithin(ReadIo(FileAfter(start, ops, ios, k), ops[k].now, ios[k]).subscribers,
                  ops[k].pending, ops[k].accepted, |ops[k].pending|, id)
  }

  lemma AllBear(ops: seq<Op>, i: nat, j: nat, id: Text)
    requires AllProper(ops) && i < j < |ops| && PendingThroughout(ops, i, j, id)
    requires ops[j].Poll? && ops[j].now - ops[i].now <= MAX_SEEN_AGE_MS
    ensures forall m :: i < m < j ==> Bears(ops[m], id, ops[i].now)
  {
  }

  /** Within 24 hours of a delivery the next one comes exactly when the memory of the first was lost
      and some eligible subscriber's message gets through. */
  lemma DeliveredAgainExactly(start: File, ops: seq<Op>, ios: seq<Io>, i: nat, j: nat, id: Text)
    requires AllProper(ops) && i < j < |ops| == |ios| && !Blank(id) && ops[i].now > 0
    requires Delivers(start, ops, ios, i, id) && Quiet(start, ops, ios, i, j, id)
    requires PendingThroughout(ops, i, j, id) && ops[i].Poll? && ops[j].Poll? && ops[j].now - ops[i].now <= MAX_SEEN_AGE_MS
    ensures Delivers(start, ops, ios, j, id) <==> Lost(start, ops, ios, i, j) && GetsThrough(start, ops, ios, j, id)
  {
    AllBear(ops, i, j, id);
    RunRemembers(start, ops, ios, i, j, id);
    JudgeDelivery(FileAfter(start, ops, ios, j), ops[j], ios[j], id, ops[i].now, Lost(start, ops, ios, i, j));
  }

  lemma JudgeDelivery(file: File, op: Op, io: Io, id: Text, time: int, lost: bool)
    requires op.Proper() && op.Poll? && Remembers(file, id, time, lost)
    requires 0 < time <= op.now && op.now - time <= MAX_SEEN_AGE_MS
    ensures Told(Step(file, op, io).1, id) <==>
      lost && ReachesWithin(ReadIo(file, op.now, io).subscribers, op.pending, op.accepted, |op.pending|, id)
  {
    if lost {
      PollTells(file, op, io, id, time);
    } else {
      Withheld(file, op, io, id, time);
    }
  }

  /** An operation whose write is torn, or that stores a subscription without having read the file. */
  predicate Careless(op: Op, io: Io) {
    io.write.Torn? || (io.write.Stored? && !io.readOk && (op.On? || op.Once?))
  }

  /** The delivery of poll i is stored, and nothing up to poll j wipes the file's memory. */
  ghost predicate Careful(ops: seq<Op>, ios: seq<Io>, i: nat, j: nat)
    requires i < j < |ops| == |ios|
  {
    ios[i].write.Stored? && forall m :: i < m < j ==> !Careless(ops[m], ios[m])
  }

  lemma CarefulKeeps(file: File, op: Op, io: Io)
    requires op.Proper() && !Careless(op, io)
    ensures !Forgets(file, op, io)
  {
  }

  lemma {:induction false} RunRecalls(start: File, ops: seq<Op>, ios: seq<Io>, from: nat, k: nat, id: Text, since: int)
    requires AllProper(ops) && from <= k <= |ops| == |ios| && since > 0 && !Blank(id)
    requires forall m :: from <= m < k ==> Bears(ops[m], id, since) && !Careless(ops[m], ios[m])
    requires Recalls(FileAfter(start, ops, ios, from), id, since)
    ensures Recalls(FileAfter(start, ops, ios, k), id, since)
    decreases k
  {
    if k > from {
      RunRecalls(start, ops, ios, from, k - 1, id, since);
      FileRecalls(start, ops, ios, k - 1, id, since);
    }
  }

  lemma FileRecalls(start: File, ops: seq<Op>, ios: seq<Io>, k: nat, id: Text, since: int)
    requires AllProper(ops) && k < |ops| == |ios| && Bears(ops[k], id, since) && since > 0 && !Blank(id)
    requires !Careless(ops[k], ios[k]) && Recalls(FileAfter(start, ops, ios, k), id, since)
    ensures Recalls(FileAfter(start, ops, ios, k + 1), id, since)
  {
    var file := FileAfter(start, ops, ios, k);
    CarefulKeeps(file, ops[k], ios[k]);
    StepRecalls(file, ops[k], ios[k], id, since);
    NextFile(start, ops, ios, k);
  }

  lemma StampRecalled(start: File, ops: seq<Op>, ios: seq<Io>, i: nat, id: Text)
    requires AllProper(ops) && i < |ops| == |ios| && !Blank(id) && ops[i].now > 0
    requires Delivers(start, ops, ios, i, id) && ios[i].write.Stored?
    ensures Recalls(FileAfter(start, ops, ios, i + 1), id, ops[i].now)
  {
    DeliveryRecalled(FileAfter(start, ops, ios, i), ops[i], ios[i], id);
    NextFile(start, ops, ios, i);
  }

  lemma RecallsUntil(start: File, ops: seq<Op>, ios: seq<Io>, i: nat, j: nat, id: Text)
    requires AllProper(ops) && i < j < |ops| == |ios| && !Blank(id) && ops[i].now > 0 && Careful(ops, ios, i, j)
    requires PendingThroughout(ops, i, j, id) && ops[j].Poll? && ops[j].now - ops[i].now <= MAX_SEEN_AGE_MS
    requires Recalls(FileAfter(start, ops, ios, i + 1), id, ops[i].now)
    ensures Recalls(FileAfter(start, ops, ios, j), id, ops[i].now)
  {
    AllBear(ops, i, j, id);
    RunRecalls(start, ops, ios, i + 1, j, id, ops[i].now);
  }

  /** From any file on, under any commands and polls, whatever other reads and writes fail: when the
      delivery of poll i is stored and its memory not wiped, the next delivery about the request,
      pending throughout, is more than 24 hours later. */
  lemma DeliveriesSpaced(start: File, ops: seq<Op>, ios: seq<Io>, i: nat, j: nat, id: Text)
    requires AllProper(ops) && i < j < |ops| == |ios| && !Blank(id) && ops[i].now > 0 && Careful(ops, ios, i, j)
    requires Delivers(start, ops, ios, i, id) && Delivers(start, ops, ios, j, id) && PendingThroughout(ops, i, j, id)
    ensures ops[j].now - ops[i].now > MAX_SEEN_AGE_MS
  {
    if ops[j].now - ops[i].now <= MAX_SEEN_AGE_MS {
      StampRecalled(start, ops, ios, i, id);
      RecallsUntil(start, ops, ios, i, j, id);
      Withheld(FileAfter(start, ops, ios, j), ops[j], ios[j], id, ops[i].now);
    }
  }

  /** Two deliveries about a request that is pending throughout, at positive times. */
  ghost predicate Twice(start: File, ops: seq<Op>, ios: seq<Io>, i: nat, j: nat, id: Text) {
    && AllProper(ops) && i < j < |ops| == |ios| && ops[i].now > 0
    && Delivers(start, ops, ios, i, id) && Delivers(start, ops, ios, j, id) && PendingThroughout(ops, i, j, id)
  }

  /** All deliveries about the request whose memory is kept are spaced. */
  ghost predicate AllSpaced(id: Text) {
    forall start, ops: seq<Op>, ios: seq<Io>, i: nat, j: nat ::
      Twice(start, ops, ios, i, j, id) && Careful(ops, ios, i, j) ==> ops[j].now - ops[i].now > MAX_SEEN_AGE_MS
  }

  /** Given careful writes, deliveries about a request are spaced in all runs exactly when its id is
      not blank. */
  lemma SpacedExactly(id: Text)
    ensures AllSpaced(id) <==> !Blank(id)
  {
    if Blank(id) {
      BlankUnspaced(id);
    } else {
      forall start, ops: seq<Op>, ios: seq<Io>, i: nat, j: nat | Twice(start, ops, ios, i, j, id) && Careful(ops, ios, i, j)
        ensures ops[j].now - ops[i].now > MAX_SEEN_AGE_MS
      {
        DeliveriesSpaced(start, ops, ios, i, j, id);
      }
    }
  }

  lemma BlankUnspaced(id: Text)
    requires Blank(id)
    ensures !AllSpaced(id)
  {
    var ops, more, chat := SomeRuns(id);
    BlankRunUnspaced(ops, [FINE, FINE, FINE], chat, id);
  }

  lemma BlankRunUnspaced(ops: seq<Op>, ios: seq<Io>, chat: Target, id: Text)
    requires OnPollPoll(ops, chat, id) && Blank(id) && ios == [FINE, FINE, FINE]
    ensures !AllSpaced(id)
  {
    TwoPolls(ops, ios, chat, id);
    PollsPending(ops, chat, id);
    MakesUnspaced(Unreadable, ops, ios, 1, 2, id);
  }

  lemma MakesUnspaced(start: File, ops: seq<Op>, ios: seq<Io>, i: nat, j: nat, id: Text)
    requires AllProper(ops) && i < j < |ops| == |ios| && ops[i].now > 0 && ops[j].now == ops[i].now && Careful(ops, ios, i, j)
    requires Delivers(start, ops, ios, i, id) && Delivers(start, ops, ios, j, id) && PendingThroughout(ops, i, j, id)
    ensures !AllSpaced(id)
  {
    assert Twice(start, ops, ios, i, j, id);
  }

  // ---- two deliveries at one time ----

  /** A poll of one request, the message to the first subscriber getting through. */
  function OnePoll(id: Text): Op {
    Poll([Request(id, Absent)], [{0}], 1)
  }

  /** One persistent subscriber, who has not been told of the request. */
  ghost predicate Ready(file: File, sub: Subscriber, id: Text) {
    Read(file, 1).subscribers == [sub] && !sub.once && CanonicalTarget(sub.target) && !Known(Recalled(file), id)
  }

  lemma ReadyTells(file: File, sub: Subscriber, id: Text, io: Io)
    requires Ready(file, sub, id) && io.readOk
    ensures Told(Step(file, OnePoll(id), io).1, id)
  {
    var poll := OnePoll(id);
    assert Delivery(poll.pending[0], sub) in Sends([sub], poll.pending[0], {0});
    assert Reaches([sub], poll.pending, poll.accepted, 0);
    PollTells(file, poll, io, id, 1);
  }

  lemma ReadyAfter(file: File, sub: Subscriber, id: Text, io: Io)
    requires Ready(file, sub, id) && io.readOk
    ensures io.write.Failed? ==> Step(file, OnePoll(id), io).0 == file
    ensures io.write.Stored? ==> Read(Step(file, OnePoll(id), io).0, 1).subscribers == [sub]
    ensures io.write.Torn? ==> Step(file, OnePoll(id), io).0 == Unreadable
  {
    ReadyTells(file, sub, id, io);
    PollKeepsOthers(Read(file, 1), OnePoll(id).pending, OnePoll(id).accepted, 1, sub);
    SubscribersRoundTrip([sub], 1);
  }

  lemma {:induction false} NoKeysNoneGone(subs: seq<Subscriber>, keys: set<Text>)
    requires keys == {}
    ensures WithoutKeys(subs, keys) == subs
  {
    if subs != [] {
      NoKeysNoneGone(subs[..|subs| - 1], keys);
    }
  }

  lemma PollKeepsOthers(s: State, pending: seq<Request>, accepted: seq<set<nat>>, now: int, sub: Subscriber)
    requires |accepted| == |pending| && s.subscribers == [sub] && !sub.once
    ensures PollState(s, pending, accepted, now).0.subscribers == [sub]
  {
    var kept := Prune(s.notified, pending, now);
    RoundsSources(s.subscribers, pending, |pending|, accepted, kept, now);
    var p := Rounds(s.subscribers, pending, |pending|, accepted, kept, now);
    assert forall i :: 0 <= i < |p.log| ==> p.log[i] in p.log && p.log[i].subscriber == sub;
    NoKeysNoneGone([sub], OneShotKeys(p.log));
  }

  /** Subscribing without a state to read makes a chat ready for any request. */
  lemma OnReady(file: File, chat: Target, io: Io, id: Text)
    requires CanonicalTarget(chat) && io.write.Stored? && (file == Unreadable || !io.readOk)
    ensures Ready(Step(file, On(chat, 1), io).0, Subscriber(chat, false, 1), id)
  {
    var sub := Subscriber(chat, false, 1);
    assert Step(file, On(chat, 1), io).0 == Write(State([sub], map[]));
    RoundTrip(State([sub], map[]), 1);
  }

  lemma PollsPending(ops: seq<Op>, chat: Target, id: Text)
    requires OnPollPoll(ops, chat, id)
    ensures PendingThroughout(ops, 1, 2, id)
  {
    assert OnePoll(id).pending[0].id == id;
  }

  lemma LaterPending(ops: seq<Op>, chat: Target, id: Text)
    requires OnPollOnPoll(ops, chat, id)
    ensures PendingThroughout(ops, 1, 3, id)
  {
    assert OnePoll(id).pending[0].id == id;
  }

  lemma FirstReady(ops: seq<Op>, ios: seq<Io>, chat: Target, id: Text)
    requires AllProper(ops) && |ops| == |ios| > 0 && CanonicalTarget(chat) && ops[0] == On(chat, 1) && ios[0] == FINE
    ensures Ready(FileAfter(Unreadable, ops, ios, 1), Subscriber(chat, false, 1), id)
  {
    OnReady(Unreadable, chat, FINE, id);
    NextFile(Unreadable, ops, ios, 0);
  }

  lemma ReadyDelivers(ops: seq<Op>, ios: seq<Io>, k: nat, sub: Subscriber, id: Text)
    requires AllProper(ops) && k < |ops| == |ios| && ops[k] == OnePoll(id) && ios[k].readOk
    requires Ready(FileAfter(Unreadable, ops, ios, k), sub, id)
    ensures Delivers(Unreadable, ops, ios, k, id)
    ensures ios[k].write.Failed? || (ios[k].write.Stored? && Blank(id)) ==> Ready(FileAfter(Unreadable, ops, ios, k + 1), sub, id)
    ensures ios[k].write.Torn? ==> FileAfter(Unreadable, ops, ios, k + 1) == Unreadable
  {
    ReadyTells(FileAfter(Unreadable, ops, ios, k), sub, id, ios[k]);
    ReadyAfter(FileAfter(Unreadable, ops, ios, k), sub, id, ios[k]);
    NextFile(Unreadable, ops, ios, k);
  }

  lemma ReadyAgain(ops: seq<Op>, ios: seq<Io>, k: nat, chat: Target, id: Text)
    requires AllProper(ops) && k < |ops| == |ios| && ops[k] == On(chat, 1) && CanonicalTarget(chat)
    requires ios[k].write.Stored? && (FileAfter(Unreadable, ops, ios, k) == Unreadable || !ios[k].readOk)
    ensures Ready(FileAfter(Unreadable, ops, ios, k + 1), Subscriber(chat, false, 1), id)
  {
    OnReady(FileAfter(Unreadable, ops, ios, k), chat, ios[k], id);
    NextFile(Unreadable, ops, ios, k);
  }

  /** Two polls in a row: the second delivers too when the first could not write, or the id is
      blank. */
  lemma TwoPolls(ops: seq<Op>, ios: seq<Io>, chat: Target, id: Text)
    requires AllProper(ops) && CanonicalTarget(chat) && |ops| == |ios| == 3 && ios[0] == FINE && ios[2] == FINE
    requires ops[0] == On(chat, 1) && ops[1] == OnePoll(id) && ops[2] == OnePoll(id)
    requires ios[1] == Io(true, Failed) || (ios[1] == FINE && Blank(id))
    ensures Delivers(Unreadable, ops, ios, 1, id) && Delivers(Unreadable, ops, ios, 2, id)
  {
    FirstReady(ops, ios, chat, id);
    ReadyDelivers(ops, ios, 1, Subscriber(chat, false, 1), id);
    ReadyDelivers(ops, ios, 2, Subscriber(chat, false, 1), id);
  }

  /** A chat that subscribes between two polls: the second delivers too when the first tore the
      file, or the subscription was stored without having read it. */
  lemma PollOnPoll(ops: seq<Op>, ios: seq<Io>, chat: Target, id: Text)
    requires AllProper(ops) && CanonicalTarget(chat) && |ops| == |ios| == 4 && ios[0] == FINE && ios[3] == FINE
    requires ops[0] == On(chat, 1) && ops[1] == OnePoll(id) && ops[2] == On(chat, 1) && ops[3] == OnePoll(id)
    requires (ios[1] == Io(true, Torn) && ios[2] == FINE) || (ios[1] == FINE && ios[2] == Io(false, Stored))
    ensures Delivers(Unreadable, ops, ios, 1, id) && Delivers(Unreadable, ops, ios, 3, id)
  {
    FirstReady(ops, ios, chat, id);
    ReadyDelivers(ops, ios, 1, Subscriber(chat, false, 1), id);
    ReadyAgain(ops, ios, 2, chat, id);
    ReadyDelivers(ops, ios, 3, Subscriber(chat, false, 1), id);
  }

  lemma MakesTwice(start: File, ops: seq<Op>, ios: seq<Io>, i: nat, j: nat, id: Text)
    requires AllProper(ops) && i < j < |ops| == |ios| && ops[i].now > 0
    requires Delivers(start, ops, ios, i, id) && Delivers(start, ops, ios, j, id) && PendingThroughout(ops, i, j, id)
    ensures Twice(start, ops, ios, i, j, id)
  {
  }

  /** From a missing file on, the request is told twice at one time. */
  ghost predicate TwiceAtOnce(ops: seq<Op>, ios: seq<Io>, id: Text) {
    exists i: nat, j: nat :: Twice(Unreadable, ops, ios, i, j, id) && ops[i].now == ops[j].now
  }

  /** Subscribe, then poll twice at one time. */
  ghost predicate OnPollPoll(ops: seq<Op>, chat: Target, id: Text) {
    && CanonicalTarget(chat) && |ops| == 3 && ops[0] == On(chat, 1) && ops[1] == OnePoll(id) && ops[2] == OnePoll(id)
    && AllProper(ops)
  }

  /** Subscribe and poll, then both again at the same time. */
  ghost predicate OnPollOnPoll(ops: seq<Op>, chat: Target, id: Text) {
    && CanonicalTarget(chat) && |ops| == 4 && ops[0] == On(chat, 1) && ops[1] == OnePoll(id)
    && ops[2] == On(chat, 1) && ops[3] == OnePoll(id) && AllProper(ops)
  }

  /** Any request is told twice at one time when the first poll cannot write. */
  lemma FailedWriteTwice(ops: seq<Op>, ios: seq<Io>, chat: Target, id: Text)
    requires OnPollPoll(ops, chat, id) && ios == [FINE, Io(true, Failed), FINE]
    ensures TwiceAtOnce(ops, ios, id)
  {
    TwoPolls(ops, ios, chat, id);
    PollsPending(ops, chat, id);
    MakesTwice(Unreadable, ops, ios, 1, 2, id);
  }

  /** A request with a blank id is told twice at one time although nothing fails. */
  lemma BlankTwice(ops: seq<Op>, ios: seq<Io>, chat: Target, id: Text)
    requires OnPollPoll(ops, chat, id) && ios == [FINE, FINE, FINE] && Blank(id)
    ensures TwiceAtOnce(ops, ios, id)
  {
    TwoPolls(ops, ios, chat, id);
    PollsPending(ops, chat, id);
    MakesTwice(Unreadable, ops, ios, 1, 2, id);
  }

  /** Any request is told twice at one time when the first poll tears the file. */
  lemma TornWriteTwice(ops: seq<Op>, ios: seq<Io>, chat: Target, id: Text)
    requires OnPollOnPoll(ops, chat, id) && ios == [FINE, Io(true, Torn), FINE, FINE]
    ensures TwiceAtOnce(ops, ios, id)
  {
    PollOnPoll(ops, ios, chat, id);
    LaterPending(ops, chat, id);
    MakesTwice(Unreadable, ops, ios, 1, 3, id);
  }

  /** Any request is told twice at one time when a command stores a state it could not read. */
  lemma FailedReadTwice(ops: seq<Op>, ios: seq<Io>, chat: Target, id: Text)
    requires OnPollOnPoll(ops, chat, id) && ios == [FINE, FINE, Io(false, Stored), FINE]
    ensures TwiceAtOnce(ops, ios, id)
  {
    PollOnPoll(ops, ios, chat, id);
    LaterPending(ops, chat, id);
    MakesTwice(Unreadable, ops, ios, 1, 3, id);
  }

  /** There are such runs for every request. */
  lemma SomeRuns(id: Text) returns (ops: seq<Op>, more: seq<Op>, chat: Target)
    ensures OnPollPoll(ops, chat, id) && OnPollOnPoll(more, chat, id)
  {
    chat := Target([0x61], None, NoThread);
    ops, more := [On(chat, 1), OnePoll(id), OnePoll(id)], [On(chat, 1), OnePoll(id), On(chat, 1), OnePoll(id)];
  }

  /** A blank id is dropped on every read: whatever was delivered before, a poll tells of it
      again as soon as some eligible subscriber's message gets through. */
  lemma BlankToldAgain(file: File, op: Op, io: Io, id: Text)
    requires op.Proper() && op.Poll? && op.now != 0 && Blank(id)
    ensures Told(Step(file, op, io).1, id)
            <==> ReachesWithin(ReadIo(file, op.now, io).subscribers, op.pending, op.accepted, |op.pending|, id)
  {
    PollTells(file, op, io, id, op.now);
  }

  // ---- what the conditions are for ----

  lemma {:induction false} FirstVisibleTrimmed(texts: seq<Option<Text>>)
    ensures FirstVisible(texts).Some? ==> CanonicalText(FirstVisible(texts).value)
  {
    if texts != [] {
      if texts[0].Some? { TrimTrims(texts[0].value); }
      FirstVisibleTrimmed(texts[1..]);
    }
  }

  /** The targets commands resolve are canonical exactly when account and thread name are. */
  lemma ResolvedTargets(sender: Option<Text>, from: Option<Text>, to: Option<Text>, account: Option<Text>, thread: Thread)
    ensures var r := ResolveTarget(sender, from, to, account, thread);
      && (r.Some? ==> CanonicalText(r.value.to))
      && (r.Some? ==>
            (CanonicalTarget(r.value) <==> (account.Some? ==> Trimmed(account.value)) && CanonicalThread(thread)))
  {
    FirstVisibleTrimmed([sender, from, to]);
  }

  /** Saying on twice writes the file twice exactly when the target's account or thread name is
      not trimmed: the key read back is then another one. */
  lemma OnTwice(s: State, target: Target, now: int, later: int)
    requires GoodState(s) && FindKey(s.subscribers, Key(target)) < 0
    requires CanonicalText(target.to) && (target.account.Some? ==> target.account.value != [])
    ensures var first := Step(Write(s), On(target, now), FINE).0;
      Step(first, On(target, later), FINE).0 == first <==>
        (target.account.Some? ==> Trimmed(target.account.value)) && (target.thread.TextThread? ==> Trimmed(target.thread.text))
  {
    var sub := Subscriber(target, false, now);
    var first := Write(State(s.subscribers + [sub], s.notified));
    RoundTrip(s, now);
    OnAppends(Write(s), s, target, now);
    ReadAppended(s, sub, later);
    var read := State(s.subscribers + [Subscriber(ReadTarget(target), false, now)], s.notified);
    FindAppended(s.subscribers, Subscriber(ReadTarget(target), false, now), Key(target));
    KeyReadBack(target);
    if Key(ReadTarget(target)) == Key(target) {
      OnAgain(first, read, target, later);
    } else {
      OnAppends(first, read, target, later);
      LongerDiffers(s.subscribers + [sub], read.subscribers + [Subscriber(target, false, later)], s.notified);
    }
  }

  lemma OnAppends(file: File, s: State, target: Target, now: int)
    requires Read(file, now) == s && FindKey(s.subscribers, Key(target)) < 0
    ensures Step(file, On(target, now), FINE).0 == Write(State(s.subscribers + [Subscriber(target, false, now)], s.notified))
  {
    assert |s.subscribers + [Subscriber(target, false, now)]| != |s.subscribers|;
  }

  lemma OnAgain(file: File, s: State, target: Target, now: int)
    requires Read(file, now) == s && FindKey(s.subscribers, Key(target)) >= 0
    requires !s.subscribers[FindKey(s.subscribers, Key(target))].once
    ensures Step(file, On(target, now), FINE).0 == file
  {
  }

  lemma LongerDiffers(a: seq<Subscriber>, b: seq<Subscriber>, notified: map<Text, int>)
    requires |a| != |b|
    ensures Write(State(a, notified)) != Write(State(b, notified))
  {
    WriteLength(a);
    WriteLength(b);
  }

  /** A target as it comes back from the file. */
  function ReadTarget(t: Target): Target {
    Target(Trim(t.to), TrimmedOr(WriteOption(t.account)), NormalThread(WriteThread(t.thread)))
  }

  lemma KeyReadBack(t: Target)
    requires CanonicalText(t.to) && (t.account.Some? ==> t.account.value != [])
    ensures Key(ReadTarget(t)) == Key(t) <==>
      (t.account.Some? ==> Trimmed(t.account.value)) && (t.thread.TextThread? ==> Trimmed(t.thread.text))
  {
    TrimTrims(t.to);
    var back := ReadTarget(t);
    if t.account.Some? { TrimTrims(t.account.value); TrimShorter(t.account.value); }
    if t.thread.TextThread? { TrimTrims(t.thread.text); TrimShorter(t.thread.text); }
    if Key(back) == Key(t) {
      assert |Key(back)| == |Key(t)|;
    }
  }

  lemma TrimShorter(s: Text)
    ensures |Trim(s)| <= |s| && (|Trim(s)| == |s| ==> Trim(s) == s)
  {
  }

  lemma {:induction false} WriteLength(subs: seq<Subscriber>)
    ensures |WriteSubscribers(subs)| == |subs|
  {
    if subs != [] {
      WriteLength(subs[..|subs| - 1]);
    }
  }

  lemma SubscriberReadBack(sub: Subscriber, now: int)
    requires CanonicalText(sub.target.to)
    ensures NormalSubscriber(WriteSubscriber(sub), now)
         == Some(Subscriber(ReadTarget(sub.target), sub.once, sub.addedAt))
  {
    var raw := WriteSubscriber(sub);
    TrimTrims(sub.target.to);
    assert |ONCE| != |PERSISTENT|;
    assert (raw.mode == Str(ONCE)) == sub.once && Trunc(raw.addedAt.value) == sub.addedAt;
  }

  lemma ReadAppended(s: State, sub: Subscriber, now: int)
    requires GoodState(s) && CanonicalText(sub.target.to)
    ensures Read(Write(State(s.subscribers + [sub], s.notified)), now)
         == State(s.subscribers + [Subscriber(ReadTarget(sub.target), sub.once, sub.addedAt)], s.notified)
  {
    RoundTrip(s, now);
    SubscriberReadBack(sub, now);
    var subs := s.subscribers + [sub];
    assert subs[..|subs| - 1] == s.subscribers;
    var raws := WriteSubscribers(subs);
    assert raws[..|raws| - 1] == WriteSubscribers(s.subscribers);
  }

  lemma FindAppended(subs: seq<Subscriber>, sub: Subscriber, key: Text)
    requires FindKey(subs, key) < 0
    ensures FindKey(subs + [sub], key) == if Key(sub.target) == key then |subs| else -1
  {
    var all := subs + [sub];
    assert all[|subs|] == sub;
    assert forall i :: 0 <= i < |subs| ==> all[i] == subs[i];
    var i := FindKey(all, key);
  }

  // ---- keys of arbitrary targets ----

  function ReadBack(sub: Subscriber): Subscriber {
    Subscriber(ReadTarget(sub.target), sub.once, sub.addedAt)
  }

  lemma ReadBackSame(sub: Subscriber)
    requires CanonicalTarget(sub.target)
    ensures ReadBack(sub) == sub
  {
    SubscriberRoundTrip(sub, 0);
    SubscriberReadBack(sub, 0);
  }

  function ReadBacks(subs: seq<Subscriber>): seq<Subscriber> {
    if subs == [] then [] else ReadBacks(subs[..|subs| - 1]) + [ReadBack(subs[|subs| - 1])]
  }

  lemma {:induction false} ReadBacksAt(subs: seq<Subscriber>)
    ensures |ReadBacks(subs)| == |subs| && forall i :: 0 <= i < |subs| ==> ReadBacks(subs)[i] == ReadBack(subs[i])
  {
    if subs != [] {
      ReadBacksAt(subs[..|subs| - 1]);
    }
  }

  lemma AppendedBack(front: seq<Subscriber>, last: Subscriber, now: int)
    requires CanonicalText(last.target.to)
    ensures NormalSubscribers(WriteSubscribers(front + [last]), now)
         == NormalSubscribers(WriteSubscribers(front), now) + [ReadBack(last)]
  {
    SubscriberReadBack(last, now);
    WriteOneMore(front, last);
    NormalOneMore(WriteSubscribers(front), WriteSubscriber(last), now);
  }

  lemma {:induction false} ReadsBack(subs: seq<Subscriber>, now: int)
    requires forall i :: 0 <= i < |subs| ==> CanonicalText(subs[i].target.to)
    ensures NormalSubscribers(WriteSubscribers(subs), now) == ReadBacks(subs)
  {
    if subs != [] {
      var front, last := subs[..|subs| - 1], subs[|subs| - 1];
      ReadsBack(front, now);
      AppendedBack(front, last, now);
      assert subs == front + [last];
    }
  }

  /** Where a subscription puts its target. */
  ghost predicate Placed(subs: seq<Subscriber>, r: seq<Subscriber>, p: nat, sub: Subscriber) {
    p < |r| && r[p] == sub && |subs| <= |r| <= |subs| + 1 && (|r| == |subs| || p == |subs|)
    && forall i :: 0 <= i < |subs| && i != p ==> r[i] == subs[i]
  }

  /** One key among unique ones: they stay unique when no other subscriber has it. */
  lemma PlacedUnique(subs: seq<Subscriber>, r: seq<Subscriber>, p: nat, sub: Subscriber)
    requires UniqueKeys(subs) && Placed(subs, r, p, sub)
    ensures UniqueKeys(r) <==> forall i :: 0 <= i < |subs| && i != p ==> KeyAt(subs, i) != Key(sub.target)
  {
    if UniqueKeys(r) {
      forall i | 0 <= i < |subs| && i != p ensures KeyAt(subs, i) != Key(sub.target) {
        assert KeyAt(r, i) == KeyAt(subs, i) && KeyAt(r, p) == Key(sub.target);
      }
    }
    if forall i :: 0 <= i < |subs| && i != p ==> KeyAt(subs, i) != Key(sub.target) {
      forall i, j | 0 <= i < j < |r| ensures KeyAt(r, i) != KeyAt(r, j) {
        if i != p && j != p {
          assert KeyAt(subs, i) != KeyAt(subs, j);
        } else if i == p {
          assert KeyAt(subs, j) != Key(sub.target);
        } else {
          assert KeyAt(subs, i) != Key(sub.target);
        }
      }
    }
  }

  /** No subscriber with another key than the target has the key the target is read back with. */
  ghost predicate FreeKey(subs: seq<Subscriber>, target: Target) {
    forall i :: 0 <= i < |subs| && KeyAt(subs, i) != Key(target) ==> KeyAt(subs, i) != Key(ReadTarget(target))
  }

  /** After a subscription of any target the file reads with unique keys exactly when nothing has
      changed or the key the target is read back with is free. */
  lemma OnKeepsUnique(s: State, target: Target, once: bool, now: int, later: int)
    requires GoodState(s) && CanonicalText(target.to)
    ensures var r := Upsert(s.subscribers, target, once, now);
      UniqueKeys(Read(Write(State(r, s.notified)), later).subscribers) <==> r == s.subscribers || FreeKey(s.subscribers, target)
  {
    var r := Upsert(s.subscribers, target, once, now);
    if r == s.subscribers {
      SubscribersRoundTrip(r, later);
    } else {
      ChangedUnique(s.subscribers, target, once, now, later);
    }
  }

  lemma UpsertPlaces(subs: seq<Subscriber>, target: Target, once: bool, now: int, p: nat)
    requires AllCanonical(subs) && CanonicalText(target.to) && Upsert(subs, target, once, now) != subs
    requires p == if FindKey(subs, Key(target)) < 0 then |subs| else FindKey(subs, Key(target))
    ensures var r := Upsert(subs, target, once, now);
      Placed(subs, r, p, Subscriber(target, once, now)) && forall i :: 0 <= i < |r| ==> CanonicalText(r[i].target.to)
  {
  }

  lemma ChangedUnique(subs: seq<Subscriber>, target: Target, once: bool, now: int, later: int)
    requires AllCanonical(subs) && UniqueKeys(subs) && CanonicalText(target.to)
    requires Upsert(subs, target, once, now) != subs
    ensures UniqueKeys(NormalSubscribers(WriteSubscribers(Upsert(subs, target, once, now)), later)) <==> FreeKey(subs, target)
  {
    var r, p := Upsert(subs, target, once, now), if FindKey(subs, Key(target)) < 0 then |subs| else FindKey(subs, Key(target));
    UpsertPlaces(subs, target, once, now, p);
    ReadsBack(r, later);
    PlacedReadUnique(subs, r, p, Subscriber(target, once, now));
    OthersKeys(subs, target, p);
  }

  lemma PlacedReadUnique(subs: seq<Subscriber>, r: seq<Subscriber>, p: nat, sub: Subscriber)
    requires AllCanonical(subs) && UniqueKeys(subs) && Placed(subs, r, p, sub)
    ensures UniqueKeys(ReadBacks(r))
            <==> forall i :: 0 <= i < |subs| && i != p ==> KeyAt(subs, i) != Key(ReadTarget(sub.target))
  {
    ReadBacksAt(r);
    PlacedBack(subs, r, ReadBacks(r), p, sub);
    PlacedUnique(subs, ReadBacks(r), p, ReadBack(sub));
  }

  lemma PlacedBack(subs: seq<Subscriber>, r: seq<Subscriber>, back: seq<Subscriber>, p: nat, sub: Subscriber)
    requires AllCanonical(subs) && Placed(subs, r, p, sub)
    requires |back| == |r| && forall i :: 0 <= i < |r| ==> back[i] == ReadBack(r[i])
    ensures Placed(subs, back, p, ReadBack(sub))
  {
    forall i | 0 <= i < |subs| && i != p ensures back[i] == subs[i] {
      ReadBackSame(subs[i]);
    }
  }

  lemma OthersKeys(subs: seq<Subscriber>, target: Target, p: nat)
    requires UniqueKeys(subs)
    requires p == if FindKey(subs, Key(target)) < 0 then |subs| else FindKey(subs, Key(target))
    ensures FreeKey(subs, target) <==> forall i :: 0 <= i < |subs| && i != p ==> KeyAt(subs, i) != Key(ReadTarget(target))
  {
    forall i | 0 <= i < |subs| && i != p ensures KeyAt(subs, i) != Key(target) {
      if p < |subs| {
        assert KeyAt(subs, p) == Key(target);
        assert KeyAt(subs, if i < p then i else p) != KeyAt(subs, if i < p then p else i);
      }
    }
  }

  /** An account name with a leading space: saying on twice leaves two subscribers with one key. */
  lemma UntrimmedTwice(target: Target, first: File, second: File)
    requires target == Target([0x61], Some([SPACE, 0x62]), NoThread)
    requires first == Step(Unreadable, On(target, 1), FINE).0 && second == Step(first, On(target, 2), FINE).0
    ensures var r := Read(second, 3).subscribers; |r| == 2 && Key(r[0].target) == Key(r[1].target)
  {
    UntrimmedKey(target);
    OnUntrimmed(Unreadable, NO_STATE, target, 1, 2);
    var sub := Subscriber(ReadTarget(target), false, 1);
    assert Read(first, 2) == State([sub], map[]);
    OnUntrimmed(first, State([sub], map[]), target, 2, 3);
  }

  lemma UntrimmedKey(target: Target)
    requires target == Target([0x61], Some([SPACE, 0x62]), NoThread)
    ensures Key(ReadTarget(target)) != Key(target) && CanonicalTarget(ReadTarget(target)) && CanonicalText(target.to)
  {
    KeyReadBack(target);
    TrimTrims([0x61]);
    TrimTrims([SPACE, 0x62]);
    assert Trim([SPACE, 0x62]) != [] by { assert [SPACE, 0x62 as CodeUnit][1] == 0x62; }
  }

  lemma OnUntrimmed(file: File, s: State, target: Target, now: int, later: int)
    requires Read(file, now) == s && GoodState(s) && CanonicalText(target.to) && FindKey(s.subscribers, Key(target)) < 0
    ensures Read(Step(file, On(target, now), FINE).0, later)
         == State(s.subscribers + [Subscriber(ReadTarget(target), false, now)], s.notified)
  {
    ReadAppended(s, Subscriber(target, false, now), later);
  }
}
