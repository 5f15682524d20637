/** How the notifier reads its file, keys its subscribers and decides to write. */
module PairNotifyFile {
  import opened Options
  import opened Texts
  import opened Decimals
  import opened PairNotify
  import opened PairNotifyProofs

  // ---- reading ----

  /** The field is a string that is not blank, and this is it without the whitespace around it. */
  ghost predicate TextOf(field: Raw, text: Text) {
    field.Str? && text != [] && Core(field.text, text)
  }

  lemma TrimmedExactly(field: Raw)
    ensures TrimmedOr(field).Some? <==> field.Str? && !Blank(field.text)
    ensures TrimmedOr(field).Some? ==> TextOf(field, TrimmedOr(field).value)
  {
    if field.Str? {
      TrimTrims(field.text);
      TrimCore(field.text);
    }
  }

  /** n is the number without its fraction. */
  predicate Whole(v: real, n: int) {
    if v >= 0.0 then n as real <= v < n as real + 1.0 else n as real - 1.0 < v <= n as real
  }

  /** A visible thread name, the whole part of a finite number, or nothing. */
  ghost predicate ThreadIs(field: Raw, thread: Thread) {
    match thread
    case TextThread(t) => TextOf(field, t)
    case NumThread(n) => field.Num? && Whole(field.value, n)
    case NoThread => !field.Num? && (field.Str? ==> Blank(field.text))
  }

  /** The subscriber a record stands for; one without a readable arming time counts as armed now. */
  ghost predicate Stands(raw: RawSubscriber, now: int, sub: Subscriber) {
    && raw.Record? && TextOf(raw.to, sub.target.to)
    && (if sub.target.account.Some? then TextOf(raw.account, sub.target.account.value)
        else !(raw.account.Str? && !Blank(raw.account.text)))
    && ThreadIs(raw.thread, sub.target.thread)
    && (sub.once <==> raw.mode.Str? && raw.mode.text == Ascii("once"))
    && (if raw.addedAt.Num? then Whole(raw.addedAt.value, sub.addedAt) else sub.addedAt == now)
  }

  lemma ModesSpelled()
    ensures ONCE == Ascii("once") && PERSISTENT == Ascii("persistent")
  {
  }

  lemma ThreadExactly(field: Raw)
    ensures ThreadIs(field, NormalThread(field))
  {
    if field.Str? {
      TrimTrims(field.text);
      TrimCore(field.text);
    }
  }

  /** A record is read exactly when it names a visible address, and as what it stands for. */
  lemma RecordRead(raw: RawSubscriber, now: int)
    ensures var r := NormalSubscriber(raw, now);
      && (r.Some? <==> raw.Record? && raw.to.Str? && !Blank(raw.to.text))
      && (r.Some? ==> Stands(raw, now, r.value))
  {
    if raw.Record? {
      TrimmedExactly(raw.to);
      TrimmedExactly(raw.account);
      ThreadExactly(raw.thread);
      ModesSpelled();
    }
  }

  /** at lists, in order, the records with a visible address, and the subscribers are theirs. */
  ghost predicate RecordsRead(raws: seq<RawSubscriber>, now: int, at: seq<nat>, subs: seq<Subscriber>) {
    && |subs| == |at| && (forall i, j :: 0 <= i < j < |at| ==> at[i] < at[j])
    && (forall k: nat :: k in at <==> k < |raws| && Addressed(raws[k]))
    && (forall j :: 0 <= j < |at| ==> at[j] < |raws| && Stands(raws[at[j]], now, subs[j]))
  }

  predicate Addressed(raw: RawSubscriber) {
    raw.Record? && raw.to.Str? && !Blank(raw.to.text)
  }

  lemma RecordsMore(raws: seq<RawSubscriber>, raw: RawSubscriber, now: int, at: seq<nat>, subs: seq<Subscriber>, sub: Subscriber)
    requires RecordsRead(raws, now, at, subs) && Addressed(raw) && Stands(raw, now, sub)
    ensures RecordsRead(raws + [raw], now, at + [|raws|], subs + [sub])
  {
    assert forall k: nat :: k < |raws| ==> (raws + [raw])[k] == raws[k];
  }

  lemma RecordsSkip(raws: seq<RawSubscriber>, raw: RawSubscriber, now: int, at: seq<nat>, subs: seq<Subscriber>)
    requires RecordsRead(raws, now, at, subs) && !Addressed(raw)
    ensures RecordsRead(raws + [raw], now, at, subs)
  {
    assert forall k: nat :: k < |raws| ==> (raws + [raw])[k] == raws[k];
  }

  lemma RecordsLast(front: seq<RawSubscriber>, last: RawSubscriber, now: int, before: seq<nat>) returns (at: seq<nat>)
    requires RecordsRead(front, now, before, NormalSubscribers(front, now))
    ensures RecordsRead(front + [last], now, at, NormalSubscribers(front + [last], now))
  {
    RecordRead(last, now);
    NormalOneMore(front, last, now);
    if Addressed(last) {
      RecordsMore(front, last, now, before, NormalSubscribers(front, now), NormalSubscriber(last, now).value);
      at := before + [|front|];
    } else {
      RecordsSkip(front, last, now, before, NormalSubscribers(front, now));
      assert NormalSubscribers(front, now) + [] == NormalSubscribers(front, now);
      at := before;
    }
  }

  /** The subscribers read are those of the addressed records, in order. */
  lemma {:induction false} SubscribersRead(raws: seq<RawSubscriber>, now: int) returns (at: seq<nat>)
    ensures RecordsRead(raws, now, at, NormalSubscribers(raws, now))
  {
    if raws == [] {
      at := [];
    } else {
      var front, last := raws[..|raws| - 1], raws[|raws| - 1];
      at := SubscribersRead(front, now);
      at := RecordsLast(front, last, now, at);
      assert front + [last] == raws;
    }
  }

  /** The stamps read are the whole parts of the positive finite numbers under visible ids. */
  lemma StampsRead(raw: map<Text, Raw>, id: Text)
    ensures var r := NormalNotified(raw);
      && (id in r <==> id in raw && !Blank(id) && raw[id].Num? && raw[id].value > 0.0)
      && (id in r ==> Whole(raw[id].value, r[id]))
  {
  }

  // ---- the chat a command speaks for ----

  predicate Visible(text: Option<Text>) {
    text.Some? && !Blank(text.value)
  }

  /** The chat is addressed by the first visible of sender, from and to, trimmed; its account is kept
      unless it is empty, and its thread as it is. Without a visible one there is no chat. */
  lemma TargetResolved(sender: Option<Text>, from: Option<Text>, to: Option<Text>, account: Option<Text>, thread: Thread)
    ensures var r := ResolveTarget(sender, from, to, account, thread);
      && (r.Some? <==> Visible(sender) || Visible(from) || Visible(to))
      && (r.Some? ==>
            var named := if Visible(sender) then sender.value else if Visible(from) then from.value else to.value;
            && Core(named, r.value.to) && r.value.to != []
            && r.value.account == (if account == Some([]) then None else account) && r.value.thread == thread)
  {
    FirstThree(sender, from, to);
  }

  /** r is the first visible text among these, trimmed, if there is one. */
  ghost predicate IsFirst(texts: seq<Option<Text>>, r: Option<Text>) {
    match r
    case None => forall i :: 0 <= i < |texts| ==> !Visible(texts[i])
    case Some(text) =>
      text != [] && exists i :: 0 <= i < |texts| && Visible(texts[i]) && Core(texts[i].value, text)
                                && forall j :: 0 <= j < i ==> !Visible(texts[j])
  }

  lemma IsFirstLater(a: Option<Text>, rest: seq<Option<Text>>, r: Option<Text>)
    requires !Visible(a) && IsFirst(rest, r)
    ensures IsFirst([a] + rest, r)
  {
    var all := [a] + rest;
    assert forall i :: 0 < i < |all| ==> all[i] == rest[i - 1];
    if r.Some? {
      var i :| 0 <= i < |rest| && Visible(rest[i]) && Core(rest[i].value, r.value) && forall j :: 0 <= j < i ==> !Visible(rest[j]);
      assert all[i + 1] == rest[i];
    }
  }

  lemma IsFirstNow(a: Option<Text>, rest: seq<Option<Text>>, text: Text)
    requires Visible(a) && text != [] && Core(a.value, text)
    ensures IsFirst([a] + rest, Some(text))
  {
    assert ([a] + rest)[0] == a;
  }

  lemma {:induction false} FirstIsFirst(texts: seq<Option<Text>>)
    ensures IsFirst(texts, FirstVisible(texts))
  {
    if texts != [] {
      var a, rest := texts[0], texts[1..];
      assert [a] + rest == texts;
      FirstIsFirst(rest);
      FirstOf(a, rest);
      if Visible(a) {
        IsFirstNow(a, rest, FirstVisible(texts).value);
      } else {
        IsFirstLater(a, rest, FirstVisible(rest));
      }
    }
  }

  lemma FirstThree(a: Option<Text>, b: Option<Text>, c: Option<Text>)
    ensures var r := FirstVisible([a, b, c]);
      && (r.Some? <==> Visible(a) || Visible(b) || Visible(c))
      && (r.Some? ==> r.value != [] && Core(if Visible(a) then a.value else if Visible(b) then b.value else c.value, r.value))
  {
    FirstIsFirst([a, b, c]);
    FirstOfThree(a, b, c, FirstVisible([a, b, c]));
  }

  lemma FirstOfThree(a: Option<Text>, b: Option<Text>, c: Option<Text>, r: Option<Text>)
    requires IsFirst([a, b, c], r)
    ensures r.Some? <==> Visible(a) || Visible(b) || Visible(c)
    ensures r.Some? ==> r.value != [] && Core(if Visible(a) then a.value else if Visible(b) then b.value else c.value, r.value)
  {
    var texts := [a, b, c];
    assert texts[0] == a && texts[1] == b && texts[2] == c;
  }

  lemma FirstOf(a: Option<Text>, rest: seq<Option<Text>>)
    ensures var r := FirstVisible([a] + rest);
      if Visible(a) then r.Some? && r.value != [] && Core(a.value, r.value) else r == FirstVisible(rest)
  {
    assert ([a] + rest)[1..] == rest;
    if a.Some? {
      TrimTrims(a.value);
      TrimCore(a.value);
    }
  }

  // ---- keys ----

  /** How a thread shows in a key: not at all, by its name, or in decimal notation. */
  predicate ShowsAs(thread: Thread, text: Text) {
    match thread
    case NoThread => text == []
    case TextThread(t) => text == t
    case NumThread(n) => Reads(text, n)
  }

  lemma ThreadShows(thread: Thread, text: Text)
    ensures text == ThreadText(thread) <==> ShowsAs(thread, text)
  {
    if thread.NumThread? {
      RenderReads(text, thread.n);
    }
  }

  function AccountText(t: Target): Text {
    if t.account.Some? then t.account.value else []
  }

  lemma KeyParts(t: Target)
    ensures Key(t) == t.to + [0x7C] + AccountText(t) + [0x7C] + ThreadText(t.thread)
  {
  }

  lemma SplitAtBar(a: Text, x: Text, b: Text, y: Text)
    requires 0x7C !in a && 0x7C !in b && a + [0x7C] + x == b + [0x7C] + y
    ensures a == b && x == y
  {
    var s, t := a + [0x7C] + x, b + [0x7C] + y;
    assert s[|a|] == 0x7C && t[|b|] == 0x7C;
    assert a == s[..|a|] && b == t[..|b|];
    assert |a| == |b|;
    assert x == s[|a| + 1..] && y == t[|b| + 1..];
  }

  /** Where no address or account has a bar in it, two chats have one key exactly when they agree in
      address and account, an absent account being the empty one, and their threads show alike: a
      thread number is the same as its decimal notation for a name. */
  lemma KeysTell(a: Target, b: Target)
    requires 0x7C !in a.to && 0x7C !in b.to && 0x7C !in AccountText(a) && 0x7C !in AccountText(b)
    ensures Key(a) == Key(b) <==>
      a.to == b.to && AccountText(a) == AccountText(b) && exists text :: ShowsAs(a.thread, text) && ShowsAs(b.thread, text)
  {
    ThreadShows(a.thread, ThreadText(a.thread));
    forall text ensures ShowsAs(b.thread, text) <==> text == ThreadText(b.thread)
                ensures ShowsAs(a.thread, text) <==> text == ThreadText(a.thread) {
      ThreadShows(b.thread, text);
      ThreadShows(a.thread, text);
    }
    if Key(a) == Key(b) {
      KeysSplit(a, b);
    }
  }

  lemma KeysSplit(a: Target, b: Target)
    requires 0x7C !in a.to && 0x7C !in b.to && 0x7C !in AccountText(a) && 0x7C !in AccountText(b) && Key(a) == Key(b)
    ensures a.to == b.to && AccountText(a) == AccountText(b) && ThreadText(a.thread) == ThreadText(b.thread)
  {
    var x, y := AccountText(a) + [0x7C] + ThreadText(a.thread), AccountText(b) + [0x7C] + ThreadText(b.thread);
    assert Key(a) == a.to + [0x7C] + x && Key(b) == b.to + [0x7C] + y;
    SplitAtBar(a.to, x, b.to, y);
    SplitAtBar(AccountText(a), ThreadText(a.thread), AccountText(b), ThreadText(b.thread));
  }

  /** With a bar in an address, two chats can share a key. */
  lemma BarShares()
    ensures var a, b := Target([0x61, 0x7C], None, NoThread), Target([0x61], Some([0x7C]), NoThread);
      a != b && Key(a) == Key(b)
  {
    var a, b := Target([0x61, 0x7C], None, NoThread), Target([0x61], Some([0x7C]), NoThread);
    assert Key(a) == [0x61, 0x7C, 0x7C, 0x7C] && Key(b) == [0x61, 0x7C, 0x7C, 0x7C];
  }

  // ---- writing ----

  /** The subscribers read have the key, with this mode. */
  ghost predicate Armed(s: State, target: Target, once: bool) {
    exists i :: 0 <= i < |s.subscribers| && Key(s.subscribers[i].target) == Key(target) && s.subscribers[i].once == once
                && forall j :: 0 <= j < i ==> Key(s.subscribers[j].target) != Key(target)
  }

  ghost predicate Keyed(s: State, target: Target) {
    exists i :: 0 <= i < |s.subscribers| && Key(s.subscribers[i].target) == Key(target)
  }

  /** Something the poll has in memory is no longer pending, or older than a day. */
  ghost predicate SomeStale(s: State, pending: seq<Request>, now: int) {
    exists id :: id in s.notified && (now - s.notified[id] > 86400000 || forall i :: 0 <= i < |pending| ==> pending[i].id != id)
  }

  /** An operation needs a write exactly when it has something to store: subscribing, when the key is
      not armed in that mode; unsubscribing, when the key is there; a poll, when it forgets something or
      has told somebody. */
  lemma WritesExactly(s: State, op: Op)
    requires op.Proper()
    ensures Changes(s, op) <==>
      match op
      case On(t, _) => !Armed(s, t, false)
      case Once(t, _) => !Armed(s, t, true)
      case Off(t, _) => Keyed(s, t)
      case Poll(pending, _, now) => SomeStale(s, pending, now) || Apply(s, op).1 != []
  {
    match op {
      case On(t, now) => UpsertChanges(s, t, false, now);
      case Once(t, now) => UpsertChanges(s, t, true, now);
      case Off(t, _) => UnsubscribeChanges(s, t);
      case Poll(pending, accepted, now) => PollChanges(s, pending, accepted, now);
    }
  }

  lemma UnsubscribeChanges(s: State, t: Target)
    ensures Unsubscribe(s.subscribers, t) != s.subscribers <==> Keyed(s, t)
  {
    if Keyed(s, t) {
      assert |Unsubscribe(s.subscribers, t)| < |s.subscribers|;
    }
  }

  lemma UpsertChanges(s: State, t: Target, once: bool, now: int)
    ensures Upsert(s.subscribers, t, once, now) != s.subscribers <==> !Armed(s, t, once)
  {
    var i := FindKey(s.subscribers, Key(t));
    var r := Upsert(s.subscribers, t, once, now);
    if i < 0 {
      assert |r| != |s.subscribers|;
    } else if s.subscribers[i].once != once {
      assert r[i] != s.subscribers[i];
    }
  }

  lemma PruneChanges(s: State, pending: seq<Request>, now: int)
    ensures Prune(s.notified, pending, now) != s.notified <==> SomeStale(s, pending, now)
  {
    var kept := Prune(s.notified, pending, now);
    forall id | id in s.notified ensures id in kept <==> IsPending(pending, id) && now - s.notified[id] <= 86400000 {
    }
    if SomeStale(s, pending, now) {
      var id :| id in s.notified && (now - s.notified[id] > 86400000 || forall i :: 0 <= i < |pending| ==> pending[i].id != id);
      assert id !in kept;
    } else {
      assert forall id :: id in s.notified ==> id in kept;
    }
  }

  lemma PollChanges(s: State, pending: seq<Request>, accepted: seq<set<nat>>, now: int)
    requires |accepted| == |pending|
    ensures var (r, log) := PollState(s, pending, accepted, now);
      (r != s || log != []) <==> SomeStale(s, pending, now) || log != []
  {
    PruneChanges(s, pending, now);
    if PollState(s, pending, accepted, now).1 == [] {
      QuietPoll(s, pending, accepted, now);
    }
  }

  lemma QuietPoll(s: State, pending: seq<Request>, accepted: seq<set<nat>>, now: int)
    requires |accepted| == |pending| && PollState(s, pending, accepted, now).1 == []
    ensures PollState(s, pending, accepted, now).0 == State(s.subscribers, Prune(s.notified, pending, now))
  {
    if s.subscribers != [] {
      var kept := Prune(s.notified, pending, now);
      var p := Rounds(s.subscribers, pending, |pending|, accepted, kept, now);
      RoundsStamp(s.subscribers, pending, |pending|, accepted, kept, now);
      assert forall id :: !Told(p.log, id);
      assert p.notified == kept;
      KeepsAll(s.subscribers, OneShotKeys(p.log));
    }
  }

  lemma {:induction false} KeepsAll(subs: seq<Subscriber>, keys: set<Text>)
    requires keys == {}
    ensures WithoutKeys(subs, keys) == subs
  {
    if subs != [] {
      KeepsAll(subs[..|subs| - 1], keys);
    }
  }
}
