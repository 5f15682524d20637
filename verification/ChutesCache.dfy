/** The Chutes model cache: bounded in size and age, on top of an insertion-ordered map. */
module ChutesCache {
  import opened Options
  import opened OrderedMaps

  type Key = string
  type Models = seq<string>

  const CACHE_TTL := 5 * 60 * 1000
  const CACHE_MAX_ENTRIES := 100

  datatype CacheEntry = CacheEntry(models: Models, time: int)

  type Cache = OrderedMap<Key, CacheEntry>

  function Fresh(c: Cache, now: int): set<Key> {
    set k | k in c.m && now - c.m[k].time < CACHE_TTL
  }

  function Prune(c: Cache, now: int): Cache {
    c.Restrict(Fresh(c, now))
  }

  function Lookup(c: Cache, key: Key, now: int): Option<Models> {
    var p := Prune(c, now);
    if key in p.m then Some(p.m[key].models) else None
  }

  /** Make room for a new key by dropping the key that has been in the map longest. */
  function MakeRoom(c: Cache, key: Key): Cache {
    if key !in c.m && |c.keys| >= CACHE_MAX_ENTRIES then c.Delete(c.keys[0]) else c
  }

  function Store(c: Cache, key: Key, models: Models, now: int): Cache {
    MakeRoom(Prune(c, now), key).Set(key, CacheEntry(models, now))
  }

  datatype Op = Find(key: Key, now: int) | Put(key: Key, models: Models, now: int)

  function Next(c: Cache, op: Op): Cache {
    match op
    case Find(key, now) => Prune(c, now)
    case Put(key, models, now) => Store(c, key, models, now)
  }

  function Run(ops: seq<Op>): Cache {
    if ops == [] then Empty() else Next(Run(ops[..|ops| - 1]), ops[|ops| - 1])
  }

  /** The unbounded map of everything ever stored. */
  function History(ops: seq<Op>): map<Key, CacheEntry> {
    if ops == [] then map[]
    else
      var front, op := History(ops[..|ops| - 1]), ops[|ops| - 1];
      if op.Put? then front[op.key := CacheEntry(op.models, op.now)] else front
  }

  // ---- the cache refines the history ----

  ghost predicate Inv(c: Cache, history: map<Key, CacheEntry>) {
    && c.Valid() && |c.keys| <= CACHE_MAX_ENTRIES
    && forall k :: k in c.m ==> k in history && c.m[k] == history[k]
  }

  lemma {:induction false} SelectShorter<T(!new)>(xs: seq<T>, keep: set<T>)
    ensures |Select(xs, keep)| <= |xs|
    ensures (exists x :: x in xs && x !in keep) ==> |Select(xs, keep)| < |xs|
  {
    if xs != [] {
      SelectShorter(xs[..|xs| - 1], keep);
    }
  }

  lemma PruneValid(c: Cache, now: int)
    requires c.Valid()
    ensures Prune(c, now).Valid() && |Prune(c, now).keys| <= |c.keys|
  {
    c.RestrictValid(Fresh(c, now));
    SelectShorter(c.keys, Fresh(c, now));
  }

  /** Whom an insertion under the key evicts from a pruned cache. */
  function Victims(c: Cache, key: Key): (r: set<Key>)
    ensures |r| <= 1
  {
    if key !in c.m && |c.keys| >= CACHE_MAX_ENTRIES then {c.keys[0]} else {}
  }

  lemma MakeRoomEvicts(c: Cache, key: Key)
    requires c.Valid() && |c.keys| <= CACHE_MAX_ENTRIES
    ensures var r := MakeRoom(c, key);
      r.Valid() && r.m == c.m - Victims(c, key) && (key in r.m || |r.keys| < CACHE_MAX_ENTRIES) && |r.keys| <= CACHE_MAX_ENTRIES
  {
    if key !in c.m && |c.keys| >= CACHE_MAX_ENTRIES {
      c.DeleteValid(c.keys[0]);
      SelectShorter(c.keys, c.m.Keys - {c.keys[0]});
      assert c.keys[0] in c.keys;
    }
  }

  /** An insertion evicts at most one unexpired entry, never the one just inserted. */
  lemma StoreEvictsOne(c: Cache, key: Key, models: Models, now: int)
    requires c.Valid() && |c.keys| <= CACHE_MAX_ENTRIES
    ensures var r, victims := Store(c, key, models, now), Victims(Prune(c, now), key);
      && r.Valid() && |r.keys| <= CACHE_MAX_ENTRIES && |victims| <= 1 && key !in victims
      && key in r.m && r.m[key] == CacheEntry(models, now)
      && (forall k :: k != key ==> (k in r.m <==> k in c.m && now - c.m[k].time < CACHE_TTL && k !in victims))
      && (forall k :: k != key && k in r.m ==> r.m[k] == c.m[k])
  {
    PruneValid(c, now);
    MakeRoomEvicts(Prune(c, now), key);
    MakeRoom(Prune(c, now), key).SetValid(key, CacheEntry(models, now));
  }

  lemma {:induction false} RunInv(ops: seq<Op>)
    ensures Inv(Run(ops), History(ops))
  {
    if ops != [] {
      var front, op := ops[..|ops| - 1], ops[|ops| - 1];
      RunInv(front);
      PruneValid(Run(front), op.now);
      if op.Put? {
        StoreEvictsOne(Run(front), op.key, op.models, op.now);
      }
    }
  }

  /** Whatever the operations before, at most 100 entries are held, and a hit is the last list
      stored under the key, younger than the TTL. */
  lemma HitsAreCurrent(ops: seq<Op>, key: Key, now: int)
    ensures |Run(ops).m| <= 100
    ensures Lookup(Run(ops), key, now).Some? ==>
      key in History(ops) && Lookup(Run(ops), key, now).value == History(ops)[key].models
      && now - History(ops)[key].time < 300000
  {
    RunInv(ops);
    KeysCount(Run(ops));
  }

  lemma {:induction false} DistinctCount(keys: seq<Key>, elements: set<Key>)
    requires Distinct(keys) && forall k :: k in keys <==> k in elements
    ensures |elements| == |keys|
  {
    if keys == [] {
      assert elements == {};
    } else {
      DistinctPrefix(keys, |keys| - 1);
      DistinctCount(keys[..|keys| - 1], elements - {keys[|keys| - 1]});
    }
  }

  lemma KeysCount(c: Cache)
    requires c.Valid()
    ensures |c.m| == |c.keys|
  {
    DistinctCount(c.keys, c.m.Keys);
  }

  // ---- how long an entry is safe ----

  /** The number of keys inserted after this one. */
  function Behind(keys: seq<Key>, key: Key): nat {
    if keys == [] || keys[|keys| - 1] == key then 0 else 1 + Behind(keys[..|keys| - 1], key)
  }

  lemma {:induction false} BehindSelect(keys: seq<Key>, keep: set<Key>, key: Key)
    requires key in keys && key in keep
    ensures Behind(Select(keys, keep), key) <= Behind(keys, key)
  {
    var last := keys[|keys| - 1];
    if last != key {
      BehindSelect(keys[..|keys| - 1], keep, key);
      var front := Select(keys[..|keys| - 1], keep);
      assert (front + [last])[..|front|] == front;
    }
  }

  lemma {:induction false} BehindFirst(keys: seq<Key>)
    requires keys != [] && Distinct(keys)
    ensures Behind(keys, keys[0]) == |keys| - 1
  {
    if |keys| > 1 {
      DistinctPrefix(keys, |keys| - 1);
      BehindFirst(keys[..|keys| - 1]);
    }
  }

  ghost predicate Within(op: Op, start: int) {
    start <= op.now < start + CACHE_TTL
  }

  /** Making room evicts the key only when all the other keys were inserted after it. */
  lemma RoomKeepsKey(p: Cache, newKey: Key, key: Key)
    requires p.Valid() && |p.keys| <= CACHE_MAX_ENTRIES && key in p.m && Behind(p.keys, key) < CACHE_MAX_ENTRIES - 1
    ensures var r := MakeRoom(p, newKey);
      key in r.m && r.m[key] == p.m[key] && Behind(r.keys, key) <= Behind(p.keys, key)
  {
    if newKey !in p.m && |p.keys| >= CACHE_MAX_ENTRIES {
      BehindFirst(p.keys);
      BehindSelect(p.keys, p.m.Keys - {p.keys[0]}, key);
    }
  }

  lemma SetKeepsKey(r: Cache, newKey: Key, entry: CacheEntry, key: Key)
    requires r.Valid() && key in r.m
    ensures var s := r.Set(newKey, entry);
      key in s.m && s.m[key] == (if newKey == key then entry else r.m[key])
      && Behind(s.keys, key) <= Behind(r.keys, key) + 1
  {
    if newKey !in r.m {
      assert (r.keys + [newKey])[..|r.keys|] == r.keys;
    }
  }

  ghost predicate Kept(c: Cache, key: Key, start: int, puts: nat) {
    key in c.m && start <= c.m[key].time < start + CACHE_TTL && Behind(c.keys, key) <= puts
  }

  lemma StepKeepsKey(c: Cache, op: Op, key: Key, start: int, puts: nat)
    requires c.Valid() && |c.keys| <= CACHE_MAX_ENTRIES && Kept(c, key, start, puts) && Within(op, start)
    requires op.Put? ==> puts < CACHE_MAX_ENTRIES - 1
    ensures Kept(Next(c, op), key, start, if op.Put? then puts + 1 else puts)
  {
    var p := Prune(c, op.now);
    PruneValid(c, op.now);
    BehindSelect(c.keys, Fresh(c, op.now), key);
    if op.Put? {
      RoomKeepsKey(p, op.key, key);
      MakeRoomEvicts(p, op.key);
      SetKeepsKey(MakeRoom(p, op.key), op.key, CacheEntry(op.models, op.now), key);
    }
  }

  function Puts(ops: seq<Op>): nat {
    if ops == [] then 0 else Puts(ops[..|ops| - 1]) + if ops[|ops| - 1].Put? then 1 else 0
  }

  lemma StoreKept(c: Cache, key: Key, models: Models, start: int)
    requires c.Valid() && |c.keys| <= CACHE_MAX_ENTRIES
    ensures var r := Store(c, key, models, start); Kept(r, key, start, Behind(r.keys, key))
  {
    StoreEvictsOne(c, key, models, start);
  }

  /** A key not cached goes to the end of the eviction order, a cached one keeps its place. */
  lemma StorePlaces(c: Cache, key: Key, models: Models, start: int)
    requires c.Valid() && |c.keys| <= CACHE_MAX_ENTRIES
    ensures var p := Prune(c, start);
      Behind(Store(c, key, models, start).keys, key) == if key in p.m then Behind(p.keys, key) else 0
  {
    PruneValid(c, start);
    MakeRoomEvicts(Prune(c, start), key);
  }

  lemma RunOneMore(ops: seq<Op>, op: Op)
    ensures Run(ops + [op]) == Next(Run(ops), op)
  {
    assert (ops + [op])[..|ops|] == ops;
  }

  lemma {:induction false} StaysCached(before: seq<Op>, key: Key, models: Models, start: int, behind: nat, after: seq<Op>)
    requires behind == Behind(Store(Run(before), key, models, start).keys, key)
    requires behind + Puts(after) < CACHE_MAX_ENTRIES && forall i :: 0 <= i < |after| ==> Within(after[i], start)
    ensures Kept(Run(before + [Put(key, models, start)] + after), key, start, behind + Puts(after))
  {
    var stored := before + [Put(key, models, start)];
    if after == [] {
      assert stored + after == stored;
      RunInv(before);
      RunOneMore(before, Put(key, models, start));
      StoreKept(Run(before), key, models, start);
    } else {
      var front, op := after[..|after| - 1], after[|after| - 1];
      assert stored + after == stored + front + [op];
      StaysCached(before, key, models, start, behind, front);
      RunInv(stored + front);
      RunOneMore(stored + front, op);
      assert Within(op, start);
      StepKeepsKey(Run(stored + front), op, key, start, behind + Puts(front));
    }
  }

  /** A stored list is found under its key, or a newer one is, for the whole TTL, through as many
      further stores as there are places behind it: 99 for a key that was not cached. */
  lemma FoundForItsTtl(before: seq<Op>, key: Key, models: Models, start: int, after: seq<Op>, now: int)
    requires var p := Prune(Run(before), start);
      (if key in p.m then Behind(p.keys, key) else 0) + Puts(after) < 100
    requires start <= now < start + 300000 && forall i :: 0 <= i < |after| ==> Within(after[i], start)
    ensures Lookup(Run(before + [Put(key, models, start)] + after), key, now).Some?
  {
    RunInv(before);
    StorePlaces(Run(before), key, models, start);
    StaysCached(before, key, models, start, Behind(Store(Run(before), key, models, start).keys, key), after);
  }

  // ---- the cache after an insertion ----

  /** The first key in the map among those given. */
  ghost predicate Oldest(c: Cache, among: set<Key>, k: Key) {
    k in among && exists i :: 0 <= i < |c.keys| && c.keys[i] == k && forall j :: 0 <= j < i ==> c.keys[j] !in among
  }

  lemma {:induction false} SelectFirst(keys: seq<Key>, keep: set<Key>) returns (i: nat)
    requires Select(keys, keep) != []
    ensures i < |keys| && keys[i] == Select(keys, keep)[0] && keys[i] in keep
    ensures forall j :: 0 <= j < i ==> keys[j] !in keep
  {
    var front := keys[..|keys| - 1];
    if Select(front, keep) != [] {
      i := SelectFirst(front, keep);
    } else {
      i := |front|;
      forall j | 0 <= j < |front| ensures keys[j] !in keep {
        assert keys[j] in front;
      }
    }
  }

  lemma OldestFirst(c: Cache, now: int, k: Key)
    requires c.Valid() && Prune(c, now).keys != []
    ensures Oldest(c, Fresh(c, now), k) <==> k == Prune(c, now).keys[0]
  {
    var i := SelectFirst(c.keys, Fresh(c, now));
    assert c.keys[i] == Prune(c, now).keys[0];
    if Oldest(c, Fresh(c, now), k) {
      var l :| 0 <= l < |c.keys| && c.keys[l] == k && forall j :: 0 <= j < l ==> c.keys[j] !in Fresh(c, now);
      assert !(l < i) && !(i < l);
    }
  }

  lemma VictimsOldest(c: Cache, key: Key, now: int, k: Key)
    requires c.Valid() && |c.keys| <= 100
    ensures k in Victims(Prune(c, now), key)
            <==> key !in Fresh(c, now) && |Fresh(c, now)| >= 100 && Oldest(c, Fresh(c, now), k)
  {
    var p := Prune(c, now);
    PruneValid(c, now);
    KeysCount(p);
    assert p.m.Keys == Fresh(c, now);
    if p.keys != [] {
      OldestFirst(c, now, k);
    }
  }

  /** The keys in the map after an insertion, in their order: the unexpired ones, short of the
      oldest of them when 100 are held and the key is a new one, and the key at the end unless it was
      there. */
  lemma StoreExactly(c: Cache, key: Key, models: Models, now: int)
    requires c.Valid() && |c.keys| <= 100
    ensures var r, young := Store(c, key, models, now), set k | k in c.m && now - c.m[k].time < 300000;
      && (forall k :: k in r.m <==>
            k == key || (k in young && !(key !in young && |young| >= 100 && Oldest(c, young, k))))
      && (forall k :: k in r.m ==> r.m[k] == if k == key then CacheEntry(models, now) else c.m[k])
      && r.keys == Select(c.keys, r.m.Keys * young) + if key in young then [] else [key]
  {
    assert Fresh(c, now) == set k | k in c.m && now - c.m[k].time < 300000;
    forall k ensures k in Victims(Prune(c, now), key)
                     <==> key !in Fresh(c, now) && |Fresh(c, now)| >= 100 && Oldest(c, Fresh(c, now), k) {
      VictimsOldest(c, key, now, k);
    }
    StoreEvictsOne(c, key, models, now);
    StoreOrder(c, key, models, now);
  }

  lemma StoreOrder(c: Cache, key: Key, models: Models, now: int)
    requires c.Valid() && |c.keys| <= 100
    ensures var r, young := Store(c, key, models, now), Fresh(c, now);
      r.keys == Select(c.keys, r.m.Keys * young) + if key in young then [] else [key]
  {
    var p, young := Prune(c, now), Fresh(c, now);
    PruneValid(c, now);
    MakeRoomEvicts(p, key);
    var r, room := Store(c, key, models, now), MakeRoom(p, key);
    assert room.m.Keys == r.m.Keys * young;
    if key !in p.m && |p.keys| >= 100 {
      SelectTwice(c.keys, young, p.m.Keys - {p.keys[0]});
      SelectSame(c.keys, young * (p.m.Keys - {p.keys[0]}), r.m.Keys * young);
    } else {
      SelectSame(c.keys, young, r.m.Keys * young);
    }
  }

  /** A lookup finds exactly what is held and not expired. */
  lemma LookupExactly(c: Cache, key: Key, now: int)
    requires c.Valid()
    ensures Lookup(c, key, now) == if key in c.m && now - c.m[key].time < 300000 then Some(c.m[key].models) else None
  {
  }

  /** Storing again does not move a key back: in a full cache without expired entries the next new
      key evicts a key that has just been refreshed exactly when it is the oldest. */
  lemma RefreshedStillEvicted(c: Cache, key: Key, models: Models, newKey: Key, now: int)
    requires c.Valid() && |c.keys| == CACHE_MAX_ENTRIES && Fresh(c, now) == c.m.Keys
    requires key in c.m && newKey !in c.m
    ensures key !in Store(Store(c, key, models, now), newKey, models, now).m <==> key == c.keys[0]
  {
    assert c.keys[0] in c.keys;
    c.RestrictAll(Fresh(c, now));
    var refreshed := Store(c, key, models, now);
    assert refreshed == c.Set(key, CacheEntry(models, now));
    c.SetValid(key, CacheEntry(models, now));
    assert Fresh(refreshed, now) == refreshed.m.Keys;
    refreshed.RestrictAll(Fresh(refreshed, now));
  }

  /** The module-level cache, pruned, evicted from and set in place. */
  class ModelCache {
    var modelCache: Cache

    constructor ()
      ensures modelCache == Empty()
    {
      modelCache := Empty();
    }

    method PruneExpiredCacheEntries(now: int)
      requires modelCache.Valid()
      modifies this
      ensures modelCache == Prune(old(modelCache), now) && modelCache.Valid()
    {
      var before := modelCache;
      before.RestrictAll(before.m.Keys - Expired(before, now, 0));
      for i := 0 to |before.keys|
        invariant modelCache == before.Restrict(before.m.Keys - Expired(before, now, i))
      {
        var key := before.keys[i];
        ExpireOneMore(before, now, i);
        if now - before.m[key].time >= CACHE_TTL {
          modelCache := modelCache.Delete(key);
        }
      }
      AllExpired(before, now);
      PruneValid(before, now);
    }

    method CacheAndReturn(tokenKey: Key, models: Models, now: int) returns (r: Models)
      requires modelCache.Valid() && |modelCache.keys| <= CACHE_MAX_ENTRIES
      modifies this
      ensures modelCache == Store(old(modelCache), tokenKey, models, now) && r == models
      ensures modelCache.Valid() && |modelCache.keys| <= CACHE_MAX_ENTRIES
    {
      StoreEvictsOne(modelCache, tokenKey, models, now);
      PruneExpiredCacheEntries(now);
      if tokenKey !in modelCache.m && |modelCache.keys| >= CACHE_MAX_ENTRIES {
        var oldest := modelCache.keys[0];
        modelCache := modelCache.Delete(oldest);
      }
      modelCache := modelCache.Set(tokenKey, CacheEntry(models, now));
      return models;
    }

    /** The lookup at the head of discoverChutesModels. */
    method Cached(key: Key, now: int) returns (r: Option<Models>)
      requires modelCache.Valid()
      modifies this
      ensures modelCache == Prune(old(modelCache), now) && r == Lookup(old(modelCache), key, now)
    {
      PruneExpiredCacheEntries(now);
      r := if key in modelCache.m then Some(modelCache.m[key].models) else None;
    }
  }

  ghost function Expired(c: Cache, now: int, i: nat): set<Key>
    requires i <= |c.keys|
  {
    set k | k in c.keys[..i] && k in c.m && now - c.m[k].time >= CACHE_TTL
  }

  lemma ExpireOneMore(c: Cache, now: int, i: nat)
    requires c.Valid() && i < |c.keys|
    ensures var key := c.keys[i];
      && key in c.m
      && c.Restrict(c.m.Keys - Expired(c, now, i + 1))
         == var r := c.Restrict(c.m.Keys - Expired(c, now, i));
            if now - c.m[key].time >= CACHE_TTL then r.Delete(key) else r
  {
    var key := c.keys[i];
    assert c.keys[..i + 1] == c.keys[..i] + [key];
    if now - c.m[key].time >= CACHE_TTL {
      c.RestrictDelete(c.m.Keys - Expired(c, now, i), key);
      assert c.m.Keys - Expired(c, now, i) - {key} == c.m.Keys - Expired(c, now, i + 1);
    } else {
      assert Expired(c, now, i + 1) == Expired(c, now, i);
    }
  }

  lemma AllExpired(c: Cache, now: int)
    requires c.Valid()
    ensures c.Restrict(c.m.Keys - Expired(c, now, |c.keys|)) == Prune(c, now)
  {
    assert c.keys[..|c.keys|] == c.keys;
    assert c.m.Keys - Expired(c, now, |c.keys|) == Fresh(c, now);
  }
}
