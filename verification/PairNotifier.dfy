/** The notifier service in the imperative form of its source: each operation reads the state
    file, changes what it read in place, and writes it back when something has changed. */
module PairNotifier {
  import opened Options
  import opened Texts
  import opened PairNotify

  class Notifier {
    var file: File

    constructor ()
      ensures file == Unreadable
    {
      file := Unreadable;
    }

    /** A file that cannot be read counts as empty. */
    method ReadState(now: int, io: Io) returns (subscribers: seq<Subscriber>, notified: map<Text, int>)
      ensures State(subscribers, notified) == ReadIo(file, now, io)
    {
      subscribers, notified := [], map[];
      if !io.readOk || file.Unreadable? {
        return;
      }
      for i := 0 to |file.subscribers|
        invariant subscribers == NormalSubscribers(file.subscribers[..i], now)
      {
        assert file.subscribers[..i + 1][..i] == file.subscribers[..i];
        var record := NormalSubscriber(file.subscribers[i], now);
        if record.Some? {
          subscribers := subscribers + [record.value];
        }
      }
      assert file.subscribers[..|file.subscribers|] == file.subscribers;
      var todo := file.notified.Keys;
      while todo != {}
        invariant todo <= file.notified.Keys
        invariant notified == map id | id in NormalNotified(file.notified) && id !in todo :: NormalNotified(file.notified)[id]
        decreases todo
      {
        var id :| id in todo;
        todo := todo - {id};
        if !Blank(id) && file.notified[id].Num? && file.notified[id].value > 0.0 {
          notified := notified[id := Trunc(file.notified[id].value)];
        }
      }
    }

    /** A write that does not succeed throws, whether or not it touched the file. */
    method WriteState(s: State, io: Io) returns (ok: bool)
      modifies this
      ensures file == WriteIo(old(file), s, io) && ok == io.write.Stored?
    {
      ok := io.write.Stored?;
      match io.write {
        case Stored => file := Write(s);
        case Failed =>
        case Torn => file := Unreadable;
      }
    }

    method On(target: Target, now: int, io: Io) returns (ok: bool)
      modifies this
      ensures file == Step(old(file), Op.On(target, now), io).0
      ensures ok <==> io.write.Stored? || !Changes(ReadIo(old(file), now, io), Op.On(target, now))
    {
      var subscribers, notified := ReadState(now, io);
      var changed;
      changed, subscribers := UpsertSubscriber(subscribers, target, false, now);
      ok := true;
      if changed {
        ok := WriteState(State(subscribers, notified), io);
      }
    }

    method Once(target: Target, now: int, io: Io) returns (ok: bool)
      modifies this
      ensures file == Step(old(file), Op.Once(target, now), io).0
      ensures ok <==> io.write.Stored? || !Changes(ReadIo(old(file), now, io), Op.Once(target, now))
    {
      var subscribers, notified := ReadState(now, io);
      var changed;
      changed, subscribers := UpsertSubscriber(subscribers, target, true, now);
      ok := true;
      if changed {
        ok := WriteState(State(subscribers, notified), io);
      }
    }

    method Off(target: Target, now: int, io: Io) returns (ok: bool)
      modifies this
      ensures file == Step(old(file), Op.Off(target, now), io).0
      ensures ok <==> io.write.Stored? || !Changes(ReadIo(old(file), now, io), Op.Off(target, now))
    {
      var subscribers, notified := ReadState(now, io);
      var currentIndex := FindKey(subscribers, Key(target));
      ok := true;
      if currentIndex != -1 {
        var without := subscribers[..currentIndex] + subscribers[currentIndex + 1..];
        assert |without| != |subscribers|;
        ok := WriteState(State(without, notified), io);
      }
    }

    static method UpsertSubscriber(subscribers: seq<Subscriber>, target: Target, once: bool, now: int)
        returns (changed: bool, r: seq<Subscriber>)
      ensures r == Upsert(subscribers, target, once, now) && changed == (r != subscribers)
    {
      var index := FindKey(subscribers, Key(target));
      var next := Subscriber(target, once, now);
      if index == -1 {
        r := subscribers + [next];
        assert |r| != |subscribers|;
        return true, r;
      }
      if subscribers[index].once == once {
        return false, subscribers;
      }
      r := subscribers[index := next];
      assert r[index] != subscribers[index];
      return true, r;
    }

    /** One poll; accepted[i] holds the subscribers to whom a message about request i gets
        through, and the messages that did are returned, also when the write then throws. */
    method Poll(pending: seq<Request>, accepted: seq<set<nat>>, now: int, io: Io) returns (log: seq<Delivery>, ok: bool)
      requires |accepted| == |pending|
      modifies this
      ensures (file, log) == Step(old(file), Op.Poll(pending, accepted, now), io)
      ensures ok <==> io.write.Stored? || !Changes(ReadIo(old(file), now, io), Op.Poll(pending, accepted, now))
    {
      var subscribers, notified := ReadState(now, io);
      var changed;
      changed, log, subscribers, notified := PollOnce(subscribers, notified, pending, accepted, now);
      ok := true;
      if changed {
        ok := WriteState(State(subscribers, notified), io);
      }
    }

    /** What a poll makes of the state it has read. */
    static method PollOnce(subscribers0: seq<Subscriber>, notified0: map<Text, int>, pending: seq<Request>,
                           accepted: seq<set<nat>>, now: int)
        returns (changed: bool, log: seq<Delivery>, subscribers: seq<Subscriber>, notified: map<Text, int>)
      requires |accepted| == |pending|
      ensures (State(subscribers, notified), log) == PollState(State(subscribers0, notified0), pending, accepted, now)
      ensures changed == (State(subscribers, notified) != State(subscribers0, notified0) || log != [])
    {
      subscribers := subscribers0;
      changed, notified := ForgetOld(notified0, pending, now);
      log := [];
      if |subscribers| > 0 {
        ghost var kept := notified;
        var oneShotDelivered;
        log, notified, oneShotDelivered := Deliver(subscribers, pending, accepted, notified, now);
        WithoutKeysShrinks(subscribers, oneShotDelivered);
        subscribers := WithoutKeys(subscribers, oneShotDelivered);
        assert log == [] ==> notified == kept && oneShotDelivered == {};
        changed := changed || log != [];
      }
    }

    /** Drop what is no longer pending or older than a day. */
    static method ForgetOld(notified: map<Text, int>, pending: seq<Request>, now: int)
        returns (changed: bool, r: map<Text, int>)
      ensures r == Prune(notified, pending, now) && changed == (r != notified)
    {
      var pendingIds := PendingIds(pending);
      changed, r := false, notified;
      var todo := notified.Keys;
      while todo != {}
        invariant todo <= notified.Keys && r.Keys <= notified.Keys
        invariant forall id :: id in notified ==> (id in r <==> id in todo || id in Prune(notified, pending, now))
        invariant forall id :: id in r ==> r[id] == notified[id]
        invariant changed == (r != notified)
        decreases todo
      {
        var id :| id in todo;
        todo := todo - {id};
        if id !in pendingIds || now - notified[id] > MAX_SEEN_AGE_MS {
          r := r - {id};
          changed := true;
        }
      }
    }

    /** Tell every eligible subscriber about every request not yet known. */
    static method Deliver(subscribers: seq<Subscriber>, pending: seq<Request>, accepted: seq<set<nat>>,
                          start: map<Text, int>, now: int)
        returns (log: seq<Delivery>, notified: map<Text, int>, oneShotDelivered: set<Text>)
      requires |accepted| == |pending|
      ensures Progress(notified, log) == Rounds(subscribers, pending, |pending|, accepted, start, now)
      ensures oneShotDelivered == OneShotKeys(log)
      ensures log == [] ==> notified == start
    {
      log, notified, oneShotDelivered := [], start, {};
      for i := 0 to |pending|
        invariant Progress(notified, log) == Rounds(subscribers, pending, i, accepted, start, now)
        invariant oneShotDelivered == OneShotKeys(log)
        invariant log == [] ==> notified == start
      {
        var request := pending[i];
        if !Known(notified, request.id) {
          var sends, oneShots := Announce(subscribers, request, accepted[i]);
          OneShotKeysAppend(log, sends);
          oneShotDelivered := oneShotDelivered + oneShots;
          log := log + sends;
          if sends != [] {
            notified := notified[request.id := now];
          }
        }
      }
    }

    static method Announce(subscribers: seq<Subscriber>, request: Request, accepted: set<nat>)
        returns (sends: seq<Delivery>, oneShots: set<Text>)
      ensures sends == Sends(subscribers, request, accepted) && oneShots == OneShotKeys(sends)
    {
      sends, oneShots := [], {};
      for j := 0 to |subscribers|
        invariant sends == Sends(subscribers[..j], request, accepted)
        invariant oneShots == OneShotKeys(sends)
      {
        assert subscribers[..j + 1][..j] == subscribers[..j];
        var subscriber := subscribers[j];
        if ShouldNotify(subscriber, request) && j in accepted {
          OneShotKeysAppend(sends, [Delivery(request, subscriber)]);
          sends := sends + [Delivery(request, subscriber)];
          if subscriber.once {
            oneShots := oneShots + {Key(subscriber.target)};
          }
        }
      }
      assert subscribers[..|subscribers|] == subscribers;
    }
  }

  lemma OneShotKeysAppend(a: seq<Delivery>, b: seq<Delivery>)
    ensures OneShotKeys(a + b) == OneShotKeys(a) + OneShotKeys(b)
    ensures |b| == 1 ==> OneShotKeys(b) == if b[0].subscriber.once then {Key(b[0].subscriber.target)} else {}
  {
    forall key ensures key in OneShotKeys(a + b) <==> key in OneShotKeys(a) || key in OneShotKeys(b) {
      if key in OneShotKeys(a) {
        var i :| 0 <= i < |a| && a[i].subscriber.once && Key(a[i].subscriber.target) == key;
        assert (a + b)[i] == a[i];
      }
      if key in OneShotKeys(b) {
        var i :| 0 <= i < |b| && b[i].subscriber.once && Key(b[i].subscriber.target) == key;
        assert (a + b)[|a| + i] == b[i];
      }
    }
  }

  lemma {:induction false} WithoutKeysShrinks(subs: seq<Subscriber>, keys: set<Text>)
    ensures keys == {} ==> WithoutKeys(subs, keys) == subs
  {
    if subs != [] {
      WithoutKeysShrinks(subs[..|subs| - 1], keys);
    }
  }
}
