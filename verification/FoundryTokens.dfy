/** Foundry runtime auth: cached tenant tokens and one refresh in flight per cache key. */
module FoundryTokens {
  import opened Options

  type Key = string

  const TOKEN_REFRESH_MARGIN_MS := 5 * 60 * 1000
  const DEFAULT_LIFETIME_MS := 55 * 60 * 1000

  datatype Token = Token(text: string, expiresAt: int)

  // A refresh first awaits the token command; once that has ended, its promise is settled but
  // stays listed until the `finally` handler has run.
  datatype Refresh = Refresh(key: Key, result: Option<Option<Token>>)

  datatype Reply = Served(token: Token) | Joined(refresh: nat) | Started(refresh: nat)

  datatype Event =
    | Prepare(key: Key, now: int)
    | CommandEnded(refresh: nat, text: Option<string>, expiry: Option<int>, now: int)
    | Cleanup(refresh: nat)

  datatype State = State(cachedTokens: map<Key, Token>, refreshPromises: map<Key, nat>, live: map<nat, Refresh>, next: nat)

  const START := State(map[], map[], map[], 0)

  function PrepareReply(s: State, key: Key, now: int): Reply {
    if key in s.cachedTokens && s.cachedTokens[key].expiresAt > now + TOKEN_REFRESH_MARGIN_MS then Served(s.cachedTokens[key])
    else if key in s.refreshPromises then Joined(s.refreshPromises[key])
    else Started(s.next)
  }

  function PrepareState(s: State, key: Key, now: int): State {
    if !PrepareReply(s, key, now).Started? then s
    else s.(refreshPromises := s.refreshPromises[key := s.next], live := s.live[s.next := Refresh(key, None)], next := s.next + 1)
  }

  /** The token a successful command yields; without a readable expiry it counts 55 minutes. */
  function Issued(text: string, expiry: Option<int>, now: int): Token {
    Token(text, if expiry.Some? then expiry.value else now + DEFAULT_LIFETIME_MS)
  }

  function EndState(s: State, refresh: nat, text: Option<string>, expiry: Option<int>, now: int): State {
    if refresh !in s.live || s.live[refresh].result.Some? then s
    else
      var key := s.live[refresh].key;
      var result := if text.Some? then Some(Issued(text.value, expiry, now)) else None;
      s.(live := s.live[refresh := Refresh(key, Some(result))],
         cachedTokens := if result.Some? then s.cachedTokens[key := result.value] else s.cachedTokens)
  }

  function CleanupState(s: State, refresh: nat): State {
    if refresh !in s.live || s.live[refresh].result.None? then s
    else s.(live := s.live - {refresh}, refreshPromises := s.refreshPromises - {s.live[refresh].key})
  }

  function Next(s: State, e: Event): State {
    match e
    case Prepare(key, now) => PrepareState(s, key, now)
    case CommandEnded(r, text, expiry, now) => EndState(s, r, text, expiry, now)
    case Cleanup(r) => CleanupState(s, r)
  }

  function Run(events: seq<Event>): State {
    if events == [] then START else Next(Run(events[..|events| - 1]), events[|events| - 1])
  }

  /** The last token a refresh brought for each key. */
  function History(events: seq<Event>): map<Key, Token> {
    if events == [] then map[]
    else
      var front, e := events[..|events| - 1], events[|events| - 1];
      if e.CommandEnded? && e.text.Some? && e.refresh in Run(front).live && Run(front).live[e.refresh].result.None? then
        History(front)[Run(front).live[e.refresh].key := Issued(e.text.value, e.expiry, e.now)]
      else History(front)
  }

  /** The promise map lists exactly the refreshes not yet cleaned up, one per key, and what a
      settled one brought is what the token map holds. */
  ghost predicate Inv(s: State, history: map<Key, Token>) {
    && s.cachedTokens == history
    && (forall r :: r in s.live ==>
          r < s.next && s.live[r].key in s.refreshPromises && s.refreshPromises[s.live[r].key] == r)
    && (forall key :: key in s.refreshPromises ==>
          s.refreshPromises[key] in s.live && s.live[s.refreshPromises[key]].key == key)
    && (forall r :: r in s.live && s.live[r].result.Some? && s.live[r].result.value.Some? ==>
          s.live[r].key in history && history[s.live[r].key] == s.live[r].result.value.value)
  }

  lemma {:induction false} RunInv(events: seq<Event>)
    ensures Inv(Run(events), History(events))
  {
    if events != [] {
      RunInv(events[..|events| - 1]);
    }
  }

  /** At most one refresh per key is underway, from the start of its command to its cleanup. */
  lemma SingleFlight(events: seq<Event>, a: nat, b: nat)
    requires a in Run(events).live && b in Run(events).live && Run(events).live[a].key == Run(events).live[b].key
    ensures a == b
  {
    RunInv(events);
  }

  ghost predicate Underway(s: State, key: Key, refresh: nat) {
    refresh in s.live && s.live[refresh].key == key
  }

  /** A cached token is served exactly when the last one issued for the key has more than five
      minutes left; otherwise the caller waits for the one refresh underway, or starts it. */
  lemma PrepareFollowsHistory(events: seq<Event>, key: Key, now: int)
    ensures var s, h, reply := Run(events), History(events), PrepareReply(Run(events), key, now);
      && (reply.Served? <==> key in h && h[key].expiresAt - now > TOKEN_REFRESH_MARGIN_MS)
      && (reply.Served? ==> reply.token == h[key])
      && (reply.Joined? <==> !reply.Served? && exists r :: Underway(s, key, r))
      && (reply.Joined? ==> Underway(s, key, reply.refresh))
  {
    RunInv(events);
    var s := Run(events);
    if key in s.refreshPromises {
      assert Underway(s, key, s.refreshPromises[key]);
    }
  }

  lemma {:induction false} KeyStays(events: seq<Event>, more: seq<Event>, refresh: nat)
    requires refresh in Run(events).live
    ensures refresh < Run(events + more).next
    ensures refresh in Run(events + more).live ==> Run(events + more).live[refresh].key == Run(events).live[refresh].key
  {
    if more == [] {
      assert events + more == events;
      RunInv(events);
    } else {
      var all, front := events + more, more[..|more| - 1];
      assert all[..|all| - 1] == events + front;
      KeyStays(events, front, refresh);
    }
  }

  /** A caller that joins a refresh gets what it brings: once it has settled with a token, that is
      the last token issued for the caller's key, and the one the token map holds. */
  lemma JoinerReceives(events: seq<Event>, key: Key, now: int, refresh: nat, more: seq<Event>)
    requires PrepareReply(Run(events), key, now) == Joined(refresh)
    requires refresh in Run(events + more).live && Run(events + more).live[refresh].result.Some?
    ensures var result := Run(events + more).live[refresh].result.value;
      result.Some? ==>
        && key in History(events + more) && History(events + more)[key] == result.value
        && Run(events + more).cachedTokens == History(events + more)
  {
    RunInv(events);
    KeyStays(events, more, refresh);
    RunInv(events + more);
  }

  /** The j-th event is a call for the key that starts the refresh. */
  ghost predicate StartedAt(events: seq<Event>, j: nat, key: Key, refresh: nat)
    requires j < |events|
  {
    events[j].Prepare? && events[j].key == key && PrepareReply(Run(events[..j]), key, events[j].now) == Started(refresh)
  }

  /** The k-th event is the successful end of a refresh the j-th event started for the key, and
      it yields the token. */
  ghost predicate IssuedAt(events: seq<Event>, j: nat, k: nat, key: Key, token: Token)
    requires j < k < |events|
  {
    var e := events[k];
    && e.CommandEnded? && e.text.Some? && StartedAt(events, j, key, e.refresh)
    && token == Issued(e.text.value, e.expiry, e.now)
  }

  lemma {:induction false} LiveStarted(events: seq<Event>, refresh: nat) returns (j: nat)
    requires refresh in Run(events).live
    ensures j < |events| && StartedAt(events, j, Run(events).live[refresh].key, refresh)
  {
    var front, e := events[..|events| - 1], events[|events| - 1];
    RunInv(front);
    if refresh in Run(front).live {
      j := LiveStarted(front, refresh);
      assert events[..j] == front[..j];
    } else {
      j := |front|;
    }
  }

  /** Every cached token was issued by a refresh that a call for its key started. */
  lemma {:induction false} TokenIssued(events: seq<Event>, key: Key) returns (j: nat, k: nat)
    requires key in Run(events).cachedTokens
    ensures j < k < |events| && IssuedAt(events, j, k, key, Run(events).cachedTokens[key])
  {
    var front, e := events[..|events| - 1], events[|events| - 1];
    if Run(events).cachedTokens == Run(front).cachedTokens || Run(front).live[e.refresh].key != key {
      j, k := TokenIssued(front, key);
      assert events[..j] == front[..j];
    } else {
      j := LiveStarted(front, e.refresh);
      k := |front|;
      assert events[..j] == front[..j];
    }
  }

  // ---- how long a token is served, and how long a refresh is joined ----

  /** The k-th event is the successful end of a refresh for the key. */
  ghost predicate SucceedsAt(events: seq<Event>, k: nat, key: Key)
    requires k < |events|
  {
    var e, live := events[k], Run(events[..k]).live;
    e.CommandEnded? && e.text.Some? && e.refresh in live && live[e.refresh].key == key && live[e.refresh].result.None?
  }

  lemma RunNext(events: seq<Event>, k: nat)
    requires k < |events|
    ensures Run(events[..k + 1]) == Next(Run(events[..k]), events[k])
  {
    assert events[..k + 1][..k] == events[..k];
  }

  /** The token map changes for a key only when a refresh for it succeeds. */
  lemma CachedSame(s: State, e: Event, key: Key)
    requires !(e.CommandEnded? && e.text.Some? && e.refresh in s.live && s.live[e.refresh].key == key
               && s.live[e.refresh].result.None?)
    ensures key in Next(s, e).cachedTokens <==> key in s.cachedTokens
    ensures key in s.cachedTokens ==> Next(s, e).cachedTokens[key] == s.cachedTokens[key]
  {
  }

  lemma {:induction false} CachedSince(events: seq<Event>, k: nat, j: nat, key: Key)
    requires k < j <= |events| && SucceedsAt(events, k, key)
    requires forall m :: k < m < j ==> !SucceedsAt(events, m, key)
    ensures key in Run(events[..j]).cachedTokens
    ensures Run(events[..j]).cachedTokens[key]
         == Token(events[k].text.value, if events[k].expiry.Some? then events[k].expiry.value else events[k].now + 3300000)
  {
    RunNext(events, j - 1);
    if k + 1 < j {
      CachedSince(events, k, j - 1, key);
      assert !SucceedsAt(events, j - 1, key);
      CachedSame(Run(events[..j - 1]), events[j - 1], key);
    }
  }

  /** After a refresh for the key has succeeded and until another does, the key is served what it
      brought exactly while more than five minutes are left of it: to the expiry the command named,
      or to 55 minutes after its end. */
  lemma ServedUntilMargin(events: seq<Event>, k: nat, j: nat, key: Key, now: int)
    requires k < j <= |events| && SucceedsAt(events, k, key)
    requires forall m :: k < m < j ==> !SucceedsAt(events, m, key)
    ensures var expiresAt := if events[k].expiry.Some? then events[k].expiry.value else events[k].now + 3300000;
      var reply := PrepareReply(Run(events[..j]), key, now);
      && (reply.Served? <==> expiresAt - now > 300000)
      && (reply.Served? ==> reply.token == Token(events[k].text.value, expiresAt))
  {
    CachedSince(events, k, j, key);
  }

  lemma {:induction false} NothingCached(events: seq<Event>, j: nat, key: Key)
    requires j <= |events| && forall m :: 0 <= m < j ==> !SucceedsAt(events, m, key)
    ensures key !in Run(events[..j]).cachedTokens
  {
    if j > 0 {
      NothingCached(events, j - 1, key);
      RunNext(events, j - 1);
      assert !SucceedsAt(events, j - 1, key);
      CachedSame(Run(events[..j - 1]), events[j - 1], key);
    }
  }

  /** A key is not served before a refresh for it has succeeded. */
  lemma NotServedBefore(events: seq<Event>, j: nat, key: Key, now: int)
    requires j <= |events| && forall m :: 0 <= m < j ==> !SucceedsAt(events, m, key)
    ensures !PrepareReply(Run(events[..j]), key, now).Served?
  {
    NothingCached(events, j, key);
  }

  /** The m-th event cleans the refresh up: its command has ended, and its `finally` handler runs. */
  ghost predicate CleansAt(events: seq<Event>, m: nat, refresh: nat)
    requires m < |events|
  {
    var live := Run(events[..m]).live;
    events[m] == Cleanup(refresh) && refresh in live && live[refresh].result.Some?
  }

  /** How the refresh has ended after the event, given how it had before. */
  function ResultAfter(e: Event, refresh: nat, before: Option<Option<Token>>): Option<Option<Token>> {
    if before.None? && e.CommandEnded? && e.refresh == refresh then
      Some(if e.text.None? then None
           else Some(Token(e.text.value, if e.expiry.Some? then e.expiry.value else e.now + 3300000)))
    else before
  }

  /** How the refresh has ended before the k-th event, by the first end of its command since j. */
  function ResultSince(events: seq<Event>, j: nat, k: nat, refresh: nat): Option<Option<Token>>
    requires j <= k <= |events|
  {
    if j == k then None else ResultAfter(events[k - 1], refresh, ResultSince(events, j, k - 1, refresh))
  }

  lemma StaysUnderway(s: State, h: map<Key, Token>, e: Event, key: Key, refresh: nat, result: Option<Option<Token>>)
    requires Inv(s, h) && Listed(s, key, refresh, result)
    requires !(e == Cleanup(refresh) && result.Some?)
    ensures Listed(Next(s, e), key, refresh, ResultAfter(e, refresh, result))
  {
  }

  ghost predicate Listed(s: State, key: Key, refresh: nat, result: Option<Option<Token>>) {
    && key in s.refreshPromises && s.refreshPromises[key] == refresh
    && refresh in s.live && s.live[refresh] == Refresh(key, result)
  }

  lemma ListedNext(events: seq<Event>, k: nat, key: Key, refresh: nat, result: Option<Option<Token>>)
    requires k < |events| && Listed(Run(events[..k]), key, refresh, result) && !CleansAt(events, k, refresh)
    ensures Listed(Run(events[..k + 1]), key, refresh, ResultAfter(events[k], refresh, result))
  {
    RunNext(events, k);
    RunInv(events[..k]);
    StaysUnderway(Run(events[..k]), History(events[..k]), events[k], key, refresh, result);
  }

  /** From the call that starts it to its cleanup, a refresh is listed under its key, with the result
      its command ended with. */
  lemma {:induction false} ListedSince(events: seq<Event>, j: nat, k: nat, key: Key, refresh: nat)
    requires j < k <= |events| && StartedAt(events, j, key, refresh)
    requires forall m :: j < m < k ==> !CleansAt(events, m, refresh)
    ensures Listed(Run(events[..k]), key, refresh, ResultSince(events, j + 1, k, refresh))
  {
    if j + 1 < k {
      ListedSince(events, j, k - 1, key, refresh);
      assert !CleansAt(events, k - 1, refresh);
      ListedNext(events, k - 1, key, refresh, ResultSince(events, j + 1, k - 1, refresh));
    } else {
      RunNext(events, j);
    }
  }

  /** Until its cleanup every caller of the key that is not served joins the refresh, and no other
      is started; once its command has ended it brings them the token of that command. */
  lemma JoinedUntilCleanup(events: seq<Event>, j: nat, k: nat, key: Key, refresh: nat, now: int)
    requires j < k <= |events| && StartedAt(events, j, key, refresh)
    requires forall m :: j < m < k ==> !CleansAt(events, m, refresh)
    ensures var reply := PrepareReply(Run(events[..k]), key, now); reply.Served? || reply == Joined(refresh)
    ensures refresh in Run(events[..k]).live
    ensures Run(events[..k]).live[refresh].result == ResultSince(events, j + 1, k, refresh)
  {
    ListedSince(events, j, k, key, refresh);
  }

  /** After its cleanup, a call for the key that is not served starts a new refresh. */
  lemma StartsAfterCleanup(events: seq<Event>, k: nat, key: Key, refresh: nat, now: int)
    requires k < |events| && CleansAt(events, k, refresh) && Run(events[..k]).live[refresh].key == key
    ensures var reply := PrepareReply(Run(events[..k + 1]), key, now); reply.Served? || reply.Started?
  {
    RunNext(events, k);
  }

  /** The module-level maps, updated in place. */
  class RuntimeAuth {
    var cachedTokens: map<Key, Token>
    var refreshPromises: map<Key, nat>
    var live: map<nat, Refresh>
    var next: nat

    ghost function View(): State
      reads this
    {
      State(cachedTokens, refreshPromises, live, next)
    }

    constructor ()
      ensures View() == START
    {
      cachedTokens, refreshPromises, live, next := map[], map[], map[], 0;
    }

    /** prepareFoundryRuntimeAuth up to its await. */
    method PrepareFoundryRuntimeAuth(key: Key, now: int) returns (reply: Reply)
      modifies this
      ensures reply == PrepareReply(old(View()), key, now) && View() == PrepareState(old(View()), key, now)
    {
      if key in cachedTokens && cachedTokens[key].expiresAt > now + TOKEN_REFRESH_MARGIN_MS {
        return Served(cachedTokens[key]);
      }
      if key in refreshPromises {
        return Joined(refreshPromises[key]);
      }
      live := live[next := Refresh(key, None)];
      refreshPromises := refreshPromises[key := next];
      next := next + 1;
      return Started(next - 1);
    }

    /** refreshEntraToken after the token command; None stands for a failed command. */
    method RefreshEntraToken(refresh: nat, text: Option<string>, expiry: Option<int>, now: int)
      modifies this
      ensures View() == EndState(old(View()), refresh, text, expiry, now)
    {
      if refresh in live && live[refresh].result.None? {
        var key := live[refresh].key;
        if text.Some? {
          var token := Issued(text.value, expiry, now);
          cachedTokens := cachedTokens[key := token];
          live := live[refresh := Refresh(key, Some(Some(token)))];
        } else {
          live := live[refresh := Refresh(key, Some(None))];
        }
      }
    }

    /** The `finally` handler. */
    method Finally(refresh: nat)
      modifies this
      ensures View() == CleanupState(old(View()), refresh)
    {
      if refresh in live && live[refresh].result.Some? {
        refreshPromises := refreshPromises - {live[refresh].key};
        live := live - {refresh};
      }
    }
  }
}
