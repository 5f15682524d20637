/** Bedrock model discovery: a cache with one request in flight per key. */
module BedrockDiscovery {
  import opened Options

  type Models = seq<string>

  // The parameters the cache key spells out as JSON.
  datatype Key = Key(region: string, providerFilter: seq<string>, refreshIntervalSeconds: nat,
                     defaultContextWindow: nat, defaultMaxTokens: nat)

  datatype CacheEntry = CacheEntry(expiresAt: int, value: Option<Models>, inFlight: Option<nat>)

  // A request underway, and the clock reading it was started with.
  datatype Request = Request(key: Key, start: int)

  datatype Reply = Served(value: Models) | Joined(request: nat) | Started(request: nat)

  // How a caller's own promise ends.
  datatype Answer = Resolved(value: Models) | Rejected

  datatype Settled = Done(start: int, value: Models) | Lost

  datatype Event = Call(key: Key, now: int) | Settle(request: nat, outcome: Option<Models>)

  datatype State = State(cache: map<Key, CacheEntry>, running: map<nat, Request>, nextRequest: nat)

  const START := State(map[], map[], 0)

  function Expiry(r: Request): int {
    r.start + r.key.refreshIntervalSeconds * 1000
  }

  function CallReply(s: State, key: Key, now: int): Reply {
    if key.refreshIntervalSeconds > 0 && key in s.cache && s.cache[key].value.Some? && s.cache[key].expiresAt > now then
      Served(s.cache[key].value.value)
    else if key.refreshIntervalSeconds > 0 && key in s.cache && s.cache[key].inFlight.Some? then
      Joined(s.cache[key].inFlight.value)
    else Started(s.nextRequest)
  }

  function CallState(s: State, key: Key, now: int): State {
    if !CallReply(s, key, now).Started? then s
    else
      var r := Request(key, now);
      State(if key.refreshIntervalSeconds > 0
            then s.cache[key := CacheEntry(Expiry(r), None, Some(s.nextRequest))] else s.cache,
            s.running[s.nextRequest := r], s.nextRequest + 1)
  }

  function SettleState(s: State, request: nat, outcome: Option<Models>): State {
    if request !in s.running then s
    else
      var r := s.running[request];
      s.(running := s.running - {request},
         cache := if r.key.refreshIntervalSeconds == 0 then s.cache
                  else if outcome.Some? then s.cache[r.key := CacheEntry(Expiry(r), outcome, None)]
                  else s.cache - {r.key})
  }

  function Next(s: State, e: Event): State {
    match e
    case Call(key, now) => CallState(s, key, now)
    case Settle(request, outcome) => SettleState(s, request, outcome)
  }

  function Run(events: seq<Event>): State {
    if events == [] then START else Next(Run(events[..|events| - 1]), events[|events| - 1])
  }

  /** What the caller of a request gets when the request settles: the starter of a lost one no
      models, a caller that joined it the failure itself. */
  function AnswerOf(reply: Reply, outcome: Option<Models>): Answer {
    if reply.Served? then Resolved(reply.value)
    else if outcome.Some? then Resolved(outcome.value)
    else if reply.Started? then Resolved([])
    else Rejected
  }

  /** How the last request of each key to settle ended. */
  function History(events: seq<Event>): map<Key, Settled> {
    if events == [] then map[]
    else
      var front, e := events[..|events| - 1], events[|events| - 1];
      if e.Settle? && e.request in Run(front).running then
        var r := Run(front).running[e.request];
        History(front)[r.key := if e.outcome.Some? then Done(r.start, e.outcome.value) else Lost]
      else History(front)
  }

  // ---- single flight ----

  /** The cache knows the one request running for each cached key, and otherwise what the last
      settled request of the key brought. */
  ghost predicate Inv(s: State, history: map<Key, Settled>) {
    && (forall r :: r in s.running ==> r < s.nextRequest)
    && (forall r :: r in s.running && s.running[r].key.refreshIntervalSeconds > 0 ==>
          s.running[r].key in s.cache && s.cache[s.running[r].key].inFlight == Some(r))
    && (forall key :: key in s.cache ==> key.refreshIntervalSeconds > 0 && Explained(s, history, key))
    && (forall key :: key in history && history[key].Done? && key.refreshIntervalSeconds > 0 ==> key in s.cache)
  }

  ghost predicate Explained(s: State, history: map<Key, Settled>, key: Key)
    requires key in s.cache
  {
    var e := s.cache[key];
    if e.inFlight.Some? then
      e.value.None? && e.inFlight.value in s.running && s.running[e.inFlight.value].key == key
    else
      key in history && history[key].Done? && e.value == Some(history[key].value)
      && e.expiresAt == Expiry(Request(key, history[key].start))
  }

  lemma {:induction false} RunInv(events: seq<Event>)
    ensures Inv(Run(events), History(events))
  {
    if events != [] {
      var front, e := events[..|events| - 1], events[|events| - 1];
      RunInv(front);
      var s, h := Run(front), History(front);
      match e {
        case Call(key, now) => CallKeeps(s, h, key, now);
        case Settle(request, outcome) => if request in s.running { SettleKeeps(s, h, request, outcome); }
      }
    }
  }

  lemma CallKeeps(s: State, h: map<Key, Settled>, key: Key, now: int)
    requires Inv(s, h)
    ensures Inv(CallState(s, key, now), h)
  {
    var t := CallState(s, key, now);
    forall k | k in t.cache ensures k.refreshIntervalSeconds > 0 && Explained(t, h, k) {
      assert k != key ==> k in s.cache && Explained(s, h, k);
    }
  }

  lemma SettleKeeps(s: State, h: map<Key, Settled>, request: nat, outcome: Option<Models>)
    requires Inv(s, h) && request in s.running
    ensures var r := s.running[request];
      Inv(SettleState(s, request, outcome), h[r.key := if outcome.Some? then Done(r.start, outcome.value) else Lost])
  {
    var r := s.running[request];
    var t := SettleState(s, request, outcome);
    var g := h[r.key := if outcome.Some? then Done(r.start, outcome.value) else Lost];
    forall k | k in t.cache ensures k.refreshIntervalSeconds > 0 && Explained(t, g, k) {
      if k != r.key {
        assert k in s.cache && Explained(s, h, k);
      }
    }
  }

  /** At most one request per key is running, when the key has a positive refresh interval. */
  lemma SingleFlight(events: seq<Event>, a: nat, b: nat)
    requires a in Run(events).running && b in Run(events).running
    requires Run(events).running[a].key == Run(events).running[b].key
    requires Run(events).running[a].key.refreshIntervalSeconds > 0
    ensures a == b
  {
    RunInv(events);
  }

  ghost predicate Underway(s: State, key: Key, request: nat) {
    request in s.running && s.running[request].key == key
  }

  /** What a call is answered with is decided by the history alone: the value of the last
      settled request, if it succeeded less than the interval after its start and no newer
      request is running; else the running request; else a new one. */
  lemma CallFollowsHistory(events: seq<Event>, key: Key, now: int)
    ensures var s, h, reply := Run(events), History(events), CallReply(Run(events), key, now);
      && (reply.Served? <==>
            && key.refreshIntervalSeconds > 0 && key in h && h[key].Done?
            && now - h[key].start < key.refreshIntervalSeconds * 1000
            && forall r :: !Underway(s, key, r))
      && (reply.Served? ==> reply.value == h[key].value)
      && (reply.Joined? <==> key.refreshIntervalSeconds > 0 && exists r :: Underway(s, key, r))
      && (reply.Joined? ==> Underway(s, key, reply.request))
  {
    RunInv(events);
    var s, h := Run(events), History(events);
    if key in s.cache {
      assert Explained(s, h, key);
      if s.cache[key].inFlight.Some? {
        assert Underway(s, key, s.cache[key].inFlight.value);
      }
    }
  }

  lemma {:induction false} KeyStays(events: seq<Event>, more: seq<Event>, request: nat)
    requires request in Run(events).running
    ensures request < Run(events + more).nextRequest
    ensures request in Run(events + more).running ==> Run(events + more).running[request] == Run(events).running[request]
  {
    if more == [] {
      assert events + more == events;
      RunInv(events);
    } else {
      var all, front := events + more, more[..|more| - 1];
      assert all[..|all| - 1] == events + front;
      KeyStays(events, front, request);
    }
  }

  /** A caller that joins a request gets what it brings for the caller's own key, and is rejected
      exactly when it is lost, where its starter gets no models; then the next call for the key
      starts anew. */
  lemma JoinerReceives(events: seq<Event>, key: Key, now: int, request: nat, more: seq<Event>, outcome: Option<Models>, later: int)
    requires CallReply(Run(events), key, now) == Joined(request)
    requires request in Run(events + more).running
    ensures var after := events + more + [Settle(request, outcome)];
      && key in History(after)
      && (AnswerOf(Joined(request), outcome) ==
            if History(after)[key].Done? then Resolved(History(after)[key].value) else Rejected)
      && AnswerOf(Started(request), outcome) == Resolved(if History(after)[key].Done? then History(after)[key].value else [])
      && (History(after)[key].Lost? ==> CallReply(Run(after), key, later).Started?)
  {
    RunInv(events);
    assert Explained(Run(events), History(events), key);
    KeyStays(events, more, request);
    var all := events + more;
    assert (all + [Settle(request, outcome)])[..|all|] == all;
  }

  // ---- how long a request is joined, and how long its models are served ----

  lemma RunNext(events: seq<Event>, k: nat)
    requires k < |events|
    ensures Run(events[..k + 1]) == Next(Run(events[..k]), events[k])
  {
    assert events[..k + 1][..k] == events[..k];
  }

  /** The k-th event is a call for the key that starts the request. */
  ghost predicate StartedAt(events: seq<Event>, k: nat, key: Key, request: nat)
    requires k < |events|
  {
    events[k].Call? && events[k].key == key && CallReply(Run(events[..k]), key, events[k].now) == Started(request)
  }

  predicate SettledAt(events: seq<Event>, k: nat, request: nat)
    requires k < |events|
  {
    events[k].Settle? && events[k].request == request
  }

  ghost predicate Listed(s: State, key: Key, start: int, request: nat) {
    && request in s.running && s.running[request] == Request(key, start)
    && (key.refreshIntervalSeconds > 0 ==> key in s.cache && s.cache[key].value.None? && s.cache[key].inFlight == Some(request))
  }

  lemma StaysListed(s: State, h: map<Key, Settled>, e: Event, key: Key, start: int, request: nat)
    requires Inv(s, h) && Listed(s, key, start, request) && !(e.Settle? && e.request == request)
    ensures Listed(Next(s, e), key, start, request)
  {
  }

  lemma ListedNext(events: seq<Event>, k: nat, key: Key, start: int, request: nat)
    requires k < |events| && Listed(Run(events[..k]), key, start, request) && !SettledAt(events, k, request)
    ensures Listed(Run(events[..k + 1]), key, start, request)
  {
    RunNext(events, k);
    RunInv(events[..k]);
    StaysListed(Run(events[..k]), History(events[..k]), events[k], key, start, request);
  }

  lemma {:induction false} ListedSince(events: seq<Event>, k: nat, j: nat, key: Key, request: nat)
    requires k < j <= |events| && StartedAt(events, k, key, request)
    requires forall m :: k < m < j ==> !SettledAt(events, m, request)
    ensures Listed(Run(events[..j]), key, events[k].now, request)
  {
    if k + 1 < j {
      ListedSince(events, k, j - 1, key, request);
      assert !SettledAt(events, j - 1, request);
      ListedNext(events, j - 1, key, events[k].now, request);
    } else {
      RunNext(events, k);
    }
  }

  /** From its start until it settles a request is running, and every call for its key joins it when
      the key has a positive interval. Calls for keys without one always start a request. */
  lemma JoinedUntilSettled(events: seq<Event>, k: nat, j: nat, key: Key, request: nat, now: int)
    requires k < j <= |events| && StartedAt(events, k, key, request)
    requires forall m :: k < m < j ==> !SettledAt(events, m, request)
    ensures Underway(Run(events[..j]), key, request)
    ensures var reply := CallReply(Run(events[..j]), key, now);
      if key.refreshIntervalSeconds > 0 then reply == Joined(request) else reply.Started?
  {
    ListedSince(events, k, j, key, request);
  }

  ghost predicate StartsAt(events: seq<Event>, k: nat, key: Key)
    requires k < |events|
  {
    events[k].Call? && events[k].key == key && CallReply(Run(events[..k]), key, events[k].now).Started?
  }

  /** No call for the key starts a request. */
  ghost predicate NoneStarted(events: seq<Event>, k: nat, j: nat, key: Key)
    requires j <= |events|
  {
    forall m :: k <= m < j ==> !StartsAt(events, m, key)
  }

  ghost predicate Holds(s: State, key: Key, start: int, outcome: Option<Models>) {
    && (forall r :: !Underway(s, key, r))
    && (outcome.None? ==> key !in s.cache)
    && (outcome.Some? ==> key in s.cache && s.cache[key].value == outcome && s.cache[key].inFlight.None?
                          && s.cache[key].expiresAt - start == key.refreshIntervalSeconds * 1000)
  }

  lemma StaysHeld(s: State, h: map<Key, Settled>, e: Event, key: Key, start: int, outcome: Option<Models>)
    requires Inv(s, h) && Holds(s, key, start, outcome) && key.refreshIntervalSeconds > 0
    requires e.Call? && e.key == key ==> !CallReply(s, key, e.now).Started?
    ensures Holds(Next(s, e), key, start, outcome)
  {
    assert forall r :: Underway(Next(s, e), key, r) ==> Underway(s, key, r);
    assert e.Settle? && e.request in s.running ==> Underway(s, s.running[e.request].key, e.request);
  }

  lemma SettledHeld(s: State, h: map<Key, Settled>, key: Key, start: int, request: nat, outcome: Option<Models>)
    requires Inv(s, h) && Listed(s, key, start, request) && key.refreshIntervalSeconds > 0
    ensures Holds(Next(s, Settle(request, outcome)), key, start, outcome)
  {
    forall r ensures !Underway(Next(s, Settle(request, outcome)), key, r) {
      assert Underway(s, key, r) ==> r == request;
    }
  }

  lemma HeldFirst(events: seq<Event>, i: nat, key: Key, start: int, request: nat)
    requires i < |events| && Listed(Run(events[..i]), key, start, request) && key.refreshIntervalSeconds > 0
    requires SettledAt(events, i, request)
    ensures Holds(Run(events[..i + 1]), key, start, events[i].outcome)
  {
    RunNext(events, i);
    RunInv(events[..i]);
    SettledHeld(Run(events[..i]), History(events[..i]), key, start, request, events[i].outcome);
  }

  lemma HeldNext(events: seq<Event>, k: nat, key: Key, start: int, outcome: Option<Models>)
    requires k < |events| && Holds(Run(events[..k]), key, start, outcome) && key.refreshIntervalSeconds > 0
    requires !StartsAt(events, k, key)
    ensures Holds(Run(events[..k + 1]), key, start, outcome)
  {
    var s, e := Run(events[..k]), events[k];
    RunNext(events, k);
    RunInv(events[..k]);
    StaysHeld(s, History(events[..k]), e, key, start, outcome);
  }

  lemma {:induction false} HeldSince(events: seq<Event>, k: nat, i: nat, j: nat, key: Key, request: nat)
    requires k < i < j <= |events| && StartedAt(events, k, key, request) && key.refreshIntervalSeconds > 0
    requires SettledAt(events, i, request) && forall m :: k < m < i ==> !SettledAt(events, m, request)
    requires NoneStarted(events, i, j, key)
    ensures Holds(Run(events[..j]), key, events[k].now, events[i].outcome)
  {
    if i + 1 < j {
      HeldSince(events, k, i, j - 1, key, request);
      assert !StartsAt(events, j - 1, key);
      HeldNext(events, j - 1, key, events[k].now, events[i].outcome);
    } else {
      ListedSince(events, k, i, key, request);
      HeldFirst(events, i, key, events[k].now, request);
    }
  }

  /** Once a request has settled, and until a call for its key starts another, calls are served its
      models exactly until the interval after its start is over; else, or when it was lost, they
      start a new request. */
  lemma ServedForInterval(events: seq<Event>, k: nat, i: nat, j: nat, key: Key, request: nat, now: int)
    requires k < i < j <= |events| && StartedAt(events, k, key, request) && key.refreshIntervalSeconds > 0
    requires SettledAt(events, i, request) && forall m :: k < m < i ==> !SettledAt(events, m, request)
    requires NoneStarted(events, i, j, key)
    ensures var outcome, reply := events[i].outcome, CallReply(Run(events[..j]), key, now);
      if outcome.Some? && now - events[k].now < key.refreshIntervalSeconds * 1000 then reply == Served(outcome.value)
      else reply.Started?
  {
    HeldSince(events, k, i, j, key, request);
  }

  /** The module-level cache and the requests awaited, updated in place. */
  class Discovery {
    var discoveryCache: map<Key, CacheEntry>
    var running: map<nat, Request>
    var nextRequest: nat

    ghost function View(): State
      reads this
    {
      State(discoveryCache, running, nextRequest)
    }

    constructor ()
      ensures View() == START
    {
      discoveryCache, running, nextRequest := map[], map[], 0;
    }

    /** discoverBedrockModels up to its await. */
    method DiscoverBedrockModels(key: Key, now: int) returns (reply: Reply)
      modifies this
      ensures reply == CallReply(old(View()), key, now) && View() == CallState(old(View()), key, now)
    {
      if key.refreshIntervalSeconds > 0 && key in discoveryCache {
        var cached := discoveryCache[key];
        if cached.value.Some? && cached.expiresAt > now {
          return Served(cached.value.value);
        }
        if cached.inFlight.Some? {
          return Joined(cached.inFlight.value);
        }
      }
      var request := nextRequest;
      running, nextRequest := running[request := Request(key, now)], request + 1;
      if key.refreshIntervalSeconds > 0 {
        discoveryCache := discoveryCache[key := CacheEntry(now + key.refreshIntervalSeconds * 1000, None, Some(request))];
      }
      return Started(request);
    }

    /** discoverBedrockModels after its await, for the request's starter. */
    method Resume(request: nat, outcome: Option<Models>) returns (value: Models)
      requires request in running
      modifies this
      ensures View() == SettleState(old(View()), request, outcome)
      ensures Resolved(value) == AnswerOf(Started(request), outcome)
    {
      var r := running[request];
      running := running - {request};
      if outcome.Some? {
        if r.key.refreshIntervalSeconds > 0 {
          discoveryCache := discoveryCache[r.key := CacheEntry(r.start + r.key.refreshIntervalSeconds * 1000, outcome, None)];
        }
        return outcome.value;
      }
      if r.key.refreshIntervalSeconds > 0 {
        discoveryCache := discoveryCache - {r.key};
      }
      return [];
    }
  }
}
