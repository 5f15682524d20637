/** The pairing notifier: chats subscribe to pairing requests, a poll tells each of them about
    new requests, and everything it remembers lives in one JSON file. */
module PairNotify {
  import opened Options
  import opened Texts
  import opened Decimals

  const MAX_SEEN_AGE_MS := 24 * 60 * 60 * 1000
  const BAR: CodeUnit := 0x7C
  const ONCE: Text := [0x6F, 0x6E, 0x63, 0x65]
  const PERSISTENT: Text := [0x70, 0x65, 0x72, 0x73, 0x69, 0x73, 0x74, 0x65, 0x6E, 0x74]

  datatype Thread = NoThread | TextThread(text: Text) | NumThread(n: int)

  datatype Target = Target(to: Text, account: Option<Text>, thread: Thread)

  datatype Subscriber = Subscriber(target: Target, once: bool, addedAt: int)

  datatype State = State(subscribers: seq<Subscriber>, notified: map<Text, int>)

  // A field of a parsed JSON record; Infinite stands for a number too large to be finite.
  datatype Raw = Absent | Str(text: Text) | Num(value: real) | Infinite | Other

  datatype RawSubscriber = NotObject | Record(to: Raw, account: Raw, thread: Raw, mode: Raw, addedAt: Raw)

  datatype File = Unreadable | Parsed(subscribers: seq<RawSubscriber>, notified: map<Text, Raw>)

  datatype Request = Request(id: Text, ts: Raw)

  datatype Delivery = Delivery(request: Request, subscriber: Subscriber)

  // ---- reading and writing ----

  function TrimmedOr(raw: Raw): Option<Text> {
    if raw.Str? && Trim(raw.text) != [] then Some(Trim(raw.text)) else None
  }

  function NormalThread(raw: Raw): Thread {
    match raw
    case Str(t) => if Trim(t) != [] then TextThread(Trim(t)) else NoThread
    case Num(n) => NumThread(Trunc(n))
    case _ => NoThread
  }

  function NormalSubscriber(raw: RawSubscriber, now: int): Option<Subscriber> {
    if raw.NotObject? || TrimmedOr(raw.to).None? then None
    else Some(Subscriber(
      Target(TrimmedOr(raw.to).value, TrimmedOr(raw.account), NormalThread(raw.thread)),
      raw.mode == Str(ONCE),
      if raw.addedAt.Num? then Trunc(raw.addedAt.value) else now))
  }

  function NormalSubscribers(raws: seq<RawSubscriber>, now: int): seq<Subscriber> {
    if raws == [] then []
    else
      var front, last := NormalSubscribers(raws[..|raws| - 1], now), NormalSubscriber(raws[|raws| - 1], now);
      if last.Some? then front + [last.value] else front
  }

  function NormalNotified(raw: map<Text, Raw>): map<Text, int> {
    map id | id in raw && !Blank(id) && raw[id].Num? && raw[id].value > 0.0 :: Trunc(raw[id].value)
  }

  /** What reading the file yields; now stands in for a missing arming time. */
  function Read(file: File, now: int): State {
    if file.Unreadable? then State([], map[])
    else State(NormalSubscribers(file.subscribers, now), NormalNotified(file.notified))
  }

  function WriteOption(text: Option<Text>): Raw {
    if text.Some? then Str(text.value) else Absent
  }

  function WriteThread(thread: Thread): Raw {
    match thread
    case NoThread => Absent
    case TextThread(t) => Str(t)
    case NumThread(n) => Num(n as real)
  }

  function WriteSubscriber(s: Subscriber): RawSubscriber {
    Record(Str(s.target.to),
           WriteOption(s.target.account),
           WriteThread(s.target.thread),
           Str(if s.once then ONCE else PERSISTENT),
           Num(s.addedAt as real))
  }

  function WriteSubscribers(subs: seq<Subscriber>): seq<RawSubscriber> {
    if subs == [] then [] else WriteSubscribers(subs[..|subs| - 1]) + [WriteSubscriber(subs[|subs| - 1])]
  }

  function WriteNotified(notified: map<Text, int>): map<Text, Raw> {
    map id | id in notified :: Num(notified[id] as real)
  }

  function Write(s: State): File {
    Parsed(WriteSubscribers(s.subscribers), WriteNotified(s.notified))
  }

  // ---- commands ----

  function FirstVisible(texts: seq<Option<Text>>): Option<Text> {
    if texts == [] then None
    else if texts[0].Some? && Trim(texts[0].value) != [] then Some(Trim(texts[0].value))
    else FirstVisible(texts[1..])
  }

  /** The chat a command speaks for; only its address is trimmed. */
  function ResolveTarget(sender: Option<Text>, from: Option<Text>, to: Option<Text>, account: Option<Text>, thread: Thread):
    (r: Option<Target>)
  {
    var address := FirstVisible([sender, from, to]);
    if address.None? then None
    else Some(Target(address.value, if account.Some? && account.value == [] then None else account, thread))
  }

  function ThreadText(thread: Thread): Text {
    match thread
    case NoThread => []
    case TextThread(t) => t
    case NumThread(n) => Render(n)
  }

  function Key(t: Target): Text {
    t.to + [BAR] + (if t.account.Some? then t.account.value else []) + [BAR] + ThreadText(t.thread)
  }

  /** The first subscriber with the key, or -1. */
  function FindKey(subs: seq<Subscriber>, key: Text): (i: int)
    ensures -1 <= i < |subs|
    ensures 0 <= i ==> Key(subs[i].target) == key
    ensures forall j :: 0 <= j < (if i < 0 then |subs| else i) ==> Key(subs[j].target) != key
  {
    if subs == [] then -1
    else if Key(subs[0].target) == key then 0
    else
      var i := FindKey(subs[1..], key);
      if i < 0 then -1 else i + 1
  }

  function Upsert(subs: seq<Subscriber>, target: Target, once: bool, now: int): seq<Subscriber> {
    var i := FindKey(subs, Key(target));
    if i < 0 then subs + [Subscriber(target, once, now)]
    else if subs[i].once == once then subs
    else subs[i := Subscriber(target, once, now)]
  }

  function Unsubscribe(subs: seq<Subscriber>, target: Target): seq<Subscriber> {
    var i := FindKey(subs, Key(target));
    if i < 0 then subs else subs[..i] + subs[i + 1..]
  }

  // ---- polling ----

  function RequestTime(r: Request): Option<int> {
    if r.ts.Num? && Trunc(r.ts.value) > 0 then Some(Trunc(r.ts.value)) else None
  }

  /** One-shot subscriptions hear only of requests created after they were armed. */
  predicate ShouldNotify(s: Subscriber, r: Request) {
    !s.once || (RequestTime(r).Some? && RequestTime(r).value >= s.addedAt)
  }

  predicate Known(notified: map<Text, int>, id: Text) {
    id in notified && notified[id] != 0
  }

  ghost predicate IsPending(pending: seq<Request>, id: Text) {
    exists i :: 0 <= i < |pending| && pending[i].id == id
  }

  function PendingIds(pending: seq<Request>): (ids: set<Text>)
    ensures forall id :: id in ids <==> IsPending(pending, id)
  {
    set i | 0 <= i < |pending| :: pending[i].id
  }

  function Prune(notified: map<Text, int>, pending: seq<Request>, now: int): map<Text, int> {
    var ids := PendingIds(pending);
    map id | id in notified && id in ids && now - notified[id] <= MAX_SEEN_AGE_MS :: notified[id]
  }

  /** The messages about one request that get through, the sends that succeed being given. */
  function Sends(subs: seq<Subscriber>, r: Request, accepted: set<nat>): (log: seq<Delivery>)
    ensures forall d :: d in log <==>
      d.request == r && exists j :: 0 <= j < |subs| && subs[j] == d.subscriber && j in accepted && ShouldNotify(subs[j], r)
  {
    if subs == [] then []
    else
      var front, j := Sends(subs[..|subs| - 1], r, accepted), |subs| - 1;
      if j in accepted && ShouldNotify(subs[j], r) then front + [Delivery(r, subs[j])] else front
  }

  datatype Progress = Progress(notified: map<Text, int>, log: seq<Delivery>)

  /** The poll's loop over the first n requests. */
  function Rounds(subs: seq<Subscriber>, pending: seq<Request>, n: nat, accepted: seq<set<nat>>, start: map<Text, int>, now: int): Progress
    requires n <= |pending| && |accepted| == |pending|
  {
    if n == 0 then Progress(start, [])
    else
      var p, r := Rounds(subs, pending, n - 1, accepted, start, now), pending[n - 1];
      if Known(p.notified, r.id) then p
      else
        var sends := Sends(subs, r, accepted[n - 1]);
        Progress(if sends == [] then p.notified else p.notified[r.id := now], p.log + sends)
  }

  function OneShotKeys(log: seq<Delivery>): set<Text> {
    set i | 0 <= i < |log| && log[i].subscriber.once :: Key(log[i].subscriber.target)
  }

  function WithoutKeys(subs: seq<Subscriber>, keys: set<Text>): (r: seq<Subscriber>)
    ensures forall s :: s in r <==> s in subs && Key(s.target) !in keys
  {
    if subs == [] then []
    else
      var front, last := WithoutKeys(subs[..|subs| - 1], keys), subs[|subs| - 1];
      if Key(last.target) in keys then front else front + [last]
  }

  function PollState(s: State, pending: seq<Request>, accepted: seq<set<nat>>, now: int): (State, seq<Delivery>)
    requires |accepted| == |pending|
  {
    var kept := Prune(s.notified, pending, now);
    if s.subscribers == [] then (State([], kept), [])
    else
      var p := Rounds(s.subscribers, pending, |pending|, accepted, kept, now);
      (State(WithoutKeys(s.subscribers, OneShotKeys(p.log)), p.notified), p.log)
  }

  // ---- the service: one file, polls and commands ----

  datatype Op =
    | Poll(pending: seq<Request>, accepted: seq<set<nat>>, now: int)
    | On(target: Target, now: int)
    | Once(target: Target, now: int)
    | Off(target: Target, now: int)
  {
    /** A poll comes with the outcome of each send it may make. */
    predicate Proper() {
      Poll? ==> |accepted| == |pending|
    }
  }

  /** The new state, and what a poll delivers. */
  function Apply(s: State, op: Op): (State, seq<Delivery>)
    requires op.Proper()
  {
    match op
    case Poll(pending, accepted, now) => PollState(s, pending, accepted, now)
    case On(t, now) => (s.(subscribers := Upsert(s.subscribers, t, false, now)), [])
    case Once(t, now) => (s.(subscribers := Upsert(s.subscribers, t, true, now)), [])
    case Off(t, now) => (s.(subscribers := Unsubscribe(s.subscribers, t)), [])
  }

  /** How the file operations of one command or poll end: a failed read reads as no state; a write
      may fail before it touches the file, or leave the file torn. */
  datatype Io = Io(readOk: bool, write: WriteResult)

  datatype WriteResult = Stored | Failed | Torn

  const FINE := Io(true, Stored)
  const NO_STATE := State([], map[])

  function ReadIo(file: File, now: int, io: Io): State {
    Read(if io.readOk then file else Unreadable, now)
  }

  function WriteIo(file: File, s: State, io: Io): File {
    match io.write
    case Stored => Write(s)
    case Failed => file
    case Torn => Unreadable
  }

  /** The operation changes something, and so writes. */
  predicate Changes(s: State, op: Op)
    requires op.Proper()
  {
    Apply(s, op).0 != s || Apply(s, op).1 != []
  }

  /** Read, change, and write back only what has changed; messages go out before the write. */
  function Step(file: File, op: Op, io: Io): (File, seq<Delivery>)
    requires op.Proper()
  {
    var s := ReadIo(file, op.now, io);
    var (r, log) := Apply(s, op);
    (if Changes(s, op) then WriteIo(file, r, io) else file, log)
  }

  ghost predicate AllProper(ops: seq<Op>) {
    forall k :: 0 <= k < |ops| ==> ops[k].Proper()
  }

  /** The file after the first k operations. */
  function FileAfter(start: File, ops: seq<Op>, ios: seq<Io>, k: nat): File
    requires AllProper(ops) && k <= |ops| == |ios|
  {
    if k == 0 then start else Step(FileAfter(start, ops, ios, k - 1), ops[k - 1], ios[k - 1]).0
  }
}
