/**
 The response cache: hits are checked against the whole history of calls, and the size bound
 against its exact condition.  Each call is one atomic step with a clock reading.
 */
module ResponseCache {
  import opened Util

  datatype Entry = Entry(body: Bytes, contentType: string, status: nat, hash: nat, createdAt: nat)

  datatype Cache = Cache(store: map<string, Entry>, ttl: nat, maxEntries: nat, enabled: bool)

  const GET: string := "GET"

  function CacheKey(verb: string, path: string): string { verb + ":" + path }

  /** Clock readings do not go back, so an age is a difference. */
  function Age(e: Entry, now: nat): nat { if now < e.createdAt then 0 else now - e.createdAt }

  predicate IsValid(e: Entry, hash: nat, ttl: nat, now: nat) { e.hash == hash && Age(e, now) < ttl }

  /** What `evict_oldest` may remove: an entry of maximal age, and of positive age. */
  predicate Victim(store: map<string, Entry>, now: nat, victim: Option<string>) {
    match victim
    case Some(k) =>
      && k in store && Age(store[k], now) > 0
      && forall j :: j in store ==> Age(store[j], now) <= Age(store[k], now)
    case None => forall j :: j in store ==> Age(store[j], now) == 0
  }

  datatype Call =
    | Get(verb: string, path: string, hash: nat, now: nat)
    | Put(verb: string, path: string, entry: Entry, victim: Option<string>)
    | Invalidate(path: string)
    | Clear
    | Purge(now: nat)

  /** The entry's creation time is the clock at the put. */
  predicate Accepted(c: Cache, call: Call) { call.Put? && c.enabled && call.verb == GET && call.entry.status == 200 }

  function Lookup(c: Cache, verb: string, path: string, hash: nat, now: nat): Option<Entry> {
    var key := CacheKey(verb, path);
    if c.enabled && key in c.store && IsValid(c.store[key], hash, c.ttl, now) then Some(c.store[key]) else None
  }

  function Evicted(store: map<string, Entry>, victim: Option<string>): map<string, Entry> {
    match victim
    case Some(k) => store - {k}
    case None => store
  }

  predicate Enabled(c: Cache, call: Call) {
    Accepted(c, call) && |c.store| >= c.maxEntries ==> Victim(c.store, call.entry.createdAt, call.victim)
  }

  function Unexpired(store: map<string, Entry>, ttl: nat, now: nat): map<string, Entry> {
    map k | k in store && Age(store[k], now) < ttl :: store[k]
  }

  function Apply(c: Cache, call: Call): Cache {
    match call
    case Get(verb, path, hash, now) =>
      var key := CacheKey(verb, path);
      if c.enabled && key in c.store && !IsValid(c.store[key], hash, c.ttl, now) then c.(store := c.store - {key})
      else c
    case Put(verb, path, entry, victim) =>
      if !Accepted(c, call) then c
      else
        var store := if |c.store| >= c.maxEntries then Evicted(c.store, victim) else c.store;
        c.(store := store[CacheKey(verb, path) := entry])
    case Invalidate(path) => c.(store := c.store - {CacheKey(GET, path)})
    case Clear => c.(store := map[])
    case Purge(now) => c.(store := Unexpired(c.store, c.ttl, now))
  }

  // ------------------------------------------------------------------ soundness against the history

  function Run(c: Cache, calls: seq<Call>): Cache {
    if calls == [] then c else Apply(Run(c, calls[..|calls| - 1]), calls[|calls| - 1])
  }

  ghost predicate ValidRun(c: Cache, calls: seq<Call>) {
    forall i :: 0 <= i < |calls| ==> Enabled(Run(c, calls[..i]), calls[i])
  }

  /** The latest accepted put for the path with no invalidation or clear since. */
  function Latest(c: Cache, calls: seq<Call>, path: string): Option<Entry> {
    if calls == [] then None
    else
      var last := calls[|calls| - 1];
      var before := Latest(c, calls[..|calls| - 1], path);
      match last
      case Put(verb, p, entry, _) =>
        if c.enabled && verb == "GET" && entry.status == 200 && p == path then Some(entry) else before
      case Invalidate(p) => if p == path then None else before
      case Clear => None
      case _ => before
  }

  function Start(ttl: nat, maxEntries: nat, enabled: bool): Cache { Cache(map[], ttl, maxEntries, enabled) }

  lemma KeysDiffer(p: string, q: string)
    ensures CacheKey(GET, p) == CacheKey(GET, q) <==> p == q
  {
    assert CacheKey(GET, p)[4..] == p && CacheKey(GET, q)[4..] == q;
  }

  /** Everything stored is the latest put for its path. */
  lemma {:induction false} StoreIsLatest(c: Cache, calls: seq<Call>)
    requires c.store == map[]
    ensures var r := Run(c, calls);
            && r == c.(store := r.store)
            && (forall k :: k in r.store ==> exists p :: k == CacheKey(GET, p))
            && (forall p :: CacheKey(GET, p) in r.store ==> Latest(c, calls, p) == Some(r.store[CacheKey(GET, p)]))
    decreases |calls|
  {
    if calls != [] {
      var before := calls[..|calls| - 1];
      StoreIsLatest(c, before);
      var m, last := Run(c, before), calls[|calls| - 1];
      var r := Apply(m, last);
      forall p | CacheKey(GET, p) in r.store ensures Latest(c, calls, p) == Some(r.store[CacheKey(GET, p)]) {
        if last.Put? || last.Invalidate? { KeysDiffer(p, last.path); }
      }
    }
  }

  /** Methods are tokens: no colon. */
  lemma OnlyGetMatches(verb: string, path: string, p: string)
    requires ':' !in verb && CacheKey(verb, path) == CacheKey(GET, p)
    ensures verb == GET && path == p
  {
    var k := CacheKey(verb, path);
    assert k[|verb|] == ':' && CacheKey(GET, p)[3] == ':';
    assert forall i :: 0 <= i < |verb| ==> k[i] == verb[i] && verb[i] in verb;
    assert forall i :: 0 <= i < 3 ==> CacheKey(GET, p)[i] == GET[i];
    assert |verb| == 3;
    assert k[..3] == verb && CacheKey(GET, p)[..3] == GET;
    assert k[4..] == path && CacheKey(GET, p)[4..] == p;
  }

  /** After any sequence of calls, a hit is the latest accepted put for exactly that method and path, with no
      invalidation or clear since, made from the same source and younger than the TTL. */
  lemma HitIsLatestPut(ttl: nat, maxEntries: nat, enabled: bool, calls: seq<Call>, verb: string, path: string,
                       hash: nat, now: nat)
    requires ':' !in verb
    ensures var c := Start(ttl, maxEntries, enabled);
            var hit := Lookup(Run(c, calls), verb, path, hash, now);
            hit.Some? ==>
              && verb == "GET" && Latest(c, calls, path) == hit && hit.value.hash == hash
              && Max(now - hit.value.createdAt, 0) < ttl
  {
    var c := Start(ttl, maxEntries, enabled);
    StoreIsLatest(c, calls);
    var r := Run(c, calls);
    if CacheKey(verb, path) in r.store {
      var p :| CacheKey(verb, path) == CacheKey(GET, p);
      OnlyGetMatches(verb, path, p);
    }
  }

  /** Younger than the TTL; an entry from the future has age zero. */
  predicate Young(e: Entry, ttl: nat, now: nat) { Max(now - e.createdAt, 0) < ttl }

  /** What the history leaves stored for a path: the latest put, unless since then it was invalidated, cleared,
      evicted for another put, found invalid by a get, or purged past its TTL. */
  function Kept(c: Cache, calls: seq<Call>, path: string): Option<Entry> {
    if calls == [] then None
    else
      var m, last := Run(c, calls[..|calls| - 1]), calls[|calls| - 1];
      var before := Kept(c, calls[..|calls| - 1], path);
      match last
      case Put(verb, p, entry, victim) =>
        if !c.enabled || verb != "GET" || entry.status != 200 then before
        else if p == path then Some(entry)
        else if |m.store| >= m.maxEntries && victim == Some(CacheKey(GET, path)) then None
        else before
      case Get(verb, p, hash, now) =>
        if c.enabled && verb == "GET" && p == path && before.Some? &&
           (before.value.hash != hash || !Young(before.value, c.ttl, now))
        then None else before
      case Invalidate(p) => if p == path then None else before
      case Clear => None
      case Purge(now) => if before.Some? && Young(before.value, c.ttl, now) then before else None
  }

  function Stored(c: Cache, path: string): Option<Entry> {
    if CacheKey(GET, path) in c.store then Some(c.store[CacheKey(GET, path)]) else None
  }

  /** Methods are tokens: no colon. */
  predicate Tokens(calls: seq<Call>) { forall i :: 0 <= i < |calls| && calls[i].Get? ==> ':' !in calls[i].verb }

  lemma KeptStep(m: Cache, last: Call, path: string)
    requires last.Get? ==> ':' !in last.verb
    ensures Stored(Apply(m, last), path) ==
            match last {
              case Put(verb, p, entry, victim) =>
                if !m.enabled || verb != "GET" || entry.status != 200 then Stored(m, path)
                else if p == path then Some(entry)
                else if |m.store| >= m.maxEntries && victim == Some(CacheKey(GET, path)) then None
                else Stored(m, path)
              case Get(verb, p, hash, now) =>
                if m.enabled && verb == "GET" && p == path && Stored(m, path).Some? &&
                   (Stored(m, path).value.hash != hash || !Young(Stored(m, path).value, m.ttl, now))
                then None else Stored(m, path)
              case Invalidate(p) => if p == path then None else Stored(m, path)
              case Clear => None
              case Purge(now) =>
                if Stored(m, path).Some? && Young(Stored(m, path).value, m.ttl, now) then Stored(m, path) else None
            }
  {
    if last.Put? || last.Invalidate? { KeysDiffer(path, last.path); }
    if last.Get? && CacheKey(last.verb, last.path) == CacheKey(GET, path) {
      OnlyGetMatches(last.verb, last.path, path);
    }
  }

  lemma {:induction false} StoredIff(c: Cache, calls: seq<Call>, path: string)
    requires c.store == map[] && Tokens(calls)
    ensures Run(c, calls) == c.(store := Run(c, calls).store)
    ensures Stored(Run(c, calls), path) == Kept(c, calls, path)
    decreases |calls|
  {
    if calls != [] {
      StoredIff(c, calls[..|calls| - 1], path);
      KeptStep(Run(c, calls[..|calls| - 1]), calls[|calls| - 1], path);
    }
  }

  /** A lookup hits if and only if the history leaves an entry for the path that is valid now. */
  lemma HitIff(ttl: nat, maxEntries: nat, calls: seq<Call>, path: string, hash: nat, now: nat)
    requires Tokens(calls)
    ensures var c := Start(ttl, maxEntries, true);
            var kept := Kept(c, calls, path);
            Lookup(Run(c, calls), "GET", path, hash, now) ==
            if kept.Some? && kept.value.hash == hash && Max(now - kept.value.createdAt, 0) < ttl then kept else None
  {
    StoredIff(Start(ttl, maxEntries, true), calls, path);
  }

  // ------------------------------------------------------------------ size

  /** From within the bound, an accepted put stays within it if and only if there was room, or the key was
      there already, or some entry has a positive age and can be evicted. */
  lemma PutBoundIff(c: Cache, call: Call)
    requires Accepted(c, call) && Enabled(c, call) && |c.store| <= c.maxEntries
    ensures |Apply(c, call).store| <= c.maxEntries <==>
            || |c.store| < c.maxEntries
            || CacheKey(GET, call.path) in c.store
            || exists k :: k in c.store && c.store[k].createdAt < call.entry.createdAt
  {
    var key := CacheKey(GET, call.path);
    var kept := if |c.store| >= c.maxEntries then Evicted(c.store, call.victim) else c.store;
    assert kept[key := call.entry].Keys == kept.Keys + {key};
    if |c.store| >= c.maxEntries && call.victim.Some? {
      assert kept.Keys == c.store.Keys - {call.victim.value};
    }
  }

  lemma ShrinkStep(c: Cache, call: Call)
    requires !Accepted(c, call)
    ensures Apply(c, call).store.Keys <= c.store.Keys && |Apply(c, call).store| <= |c.store|
    ensures forall k :: k in Apply(c, call).store ==> Apply(c, call).store[k] == c.store[k]
  {
    var r := Apply(c, call);
    var a, b := r.store.Keys, c.store.Keys;
    assert a <= b;
    assert b == a + (b - a) && a !! (b - a);
  }

  /** The clock at the latest accepted put, 0 before any. */
  function LastPutTime(c: Cache, calls: seq<Call>): nat {
    if calls == [] then 0
    else
      var last := calls[|calls| - 1];
      if Accepted(c, last) then last.entry.createdAt else LastPutTime(c, calls[..|calls| - 1])
  }

  /** Each accepted put reads a later clock than the one before. */
  ghost predicate ClockAdvances(c: Cache, calls: seq<Call>) {
    forall i :: 0 <= i < |calls| && Accepted(c, calls[i]) ==> calls[i].entry.createdAt > LastPutTime(c, calls[..i])
  }

  lemma BoundStep(m: Cache, call: Call, last: nat)
    requires Enabled(m, call) && m.maxEntries >= 1 && |m.store| <= m.maxEntries
    requires forall k :: k in m.store ==> m.store[k].createdAt <= last
    requires Accepted(m, call) ==> call.entry.createdAt > last
    ensures var r := Apply(m, call);
            && r == m.(store := r.store) && |r.store| <= m.maxEntries
            && (forall k :: k in r.store ==>
                  r.store[k].createdAt <= if Accepted(m, call) then call.entry.createdAt else last)
  {
    if Accepted(m, call) {
      PutBoundIff(m, call);
      if |m.store| >= m.maxEntries {
        var k :| k in m.store;
        assert Age(m.store[k], call.entry.createdAt) > 0;
      }
    } else {
      ShrinkStep(m, call);
    }
  }

  /** With room for at least one entry and a clock that advances between puts, the cache never holds more than
      its maximum. */
  lemma {:induction false} SizeBound(c: Cache, calls: seq<Call>)
    requires c.store == map[] && c.maxEntries >= 1 && ValidRun(c, calls) && ClockAdvances(c, calls)
    ensures var r := Run(c, calls);
            && r == c.(store := r.store) && |r.store| <= c.maxEntries
            && (forall k :: k in r.store ==> r.store[k].createdAt <= LastPutTime(c, calls))
    decreases |calls|
  {
    if calls != [] {
      var n := |calls| - 1;
      var before, last := calls[..n], calls[n];
      assert forall i :: 0 <= i <= n ==> before[..i] == calls[..i];
      SizeBound(c, before);
      assert Accepted(Run(c, before), last) == Accepted(c, last);
      BoundStep(Run(c, before), last, LastPutTime(c, before));
    }
  }

  /** Without an advancing clock the bound fails: two puts at one instant in a cache of one entry. */
  lemma SizeBoundNeedsClock()
    ensures var c := Start(10, 1, true);
            var e := Entry([], "", 200, 0, 0);
            var calls := [Put(GET, "a", e, None), Put(GET, "b", e, None)];
            ValidRun(c, calls) && |Run(c, calls).store| == 2
  {
    var c := Start(10, 1, true);
    var e := Entry([], "", 200, 0, 0);
    var a, b := Put(GET, "a", e, None), Put(GET, "b", e, None);
    var calls := [a, b];
    assert calls[..0] == [] && calls[..1] == [a] && [a][..0] == [];
    assert Run(c, []) == c;
    var c1 := Apply(c, a);
    assert Run(c, [a]) == c1;
    assert Run(c, calls) == Apply(c1, b);
    var ka, kb := CacheKey(GET, "a"), CacheKey(GET, "b");
    KeysDiffer("a", "b");
    assert Accepted(c, a) && c1.store.Keys == {ka};
    assert Enabled(c, a) && Enabled(c1, b);
    assert Apply(c1, b).store.Keys == {ka, kb};
  }

  // ------------------------------------------------------------------ the object

  class ResponseStore {
    var store: map<string, Entry>
    const ttl: nat
    const maxEntries: nat
    const enabled: bool

    ghost function View(): Cache
      reads this
    {
      Cache(store, ttl, maxEntries, enabled)
    }

    constructor (ttl: nat, maxEntries: nat, enabled: bool)
      ensures View() == Start(ttl, maxEntries, enabled)
    {
      this.ttl, this.maxEntries, this.enabled, store := ttl, maxEntries, enabled, map[];
    }

    method GetEntry(verb: string, path: string, hash: nat, now: nat) returns (r: Option<Entry>)
      modifies this`store
      ensures r == Lookup(old(View()), verb, path, hash, now)
      ensures View() == Apply(old(View()), Get(verb, path, hash, now))
    {
      if !enabled { return None; }
      var key := CacheKey(verb, path);
      if key in store {
        if IsValid(store[key], hash, ttl, now) { return Some(store[key]); }
        store := store - {key};
      }
      r := None;
    }

    /** Scans in whatever order the map iterates; only a strictly greater age replaces the candidate. */
    method EvictOldest(now: nat) returns (victim: Option<string>)
      modifies this`store
      ensures Victim(old(store), now, victim) && store == Evicted(old(store), victim)
    {
      victim := None;
      var oldest := 0;
      var rest := store.Keys;
      while rest != {}
        invariant rest <= store.Keys && store == old(store)
        invariant victim.None? ==> oldest == 0
        invariant victim.Some? ==> victim.value in store && Age(store[victim.value], now) == oldest > 0
        invariant forall j :: j in store && j !in rest ==> Age(store[j], now) <= oldest
        decreases rest
      {
        var k :| k in rest;
        rest := rest - {k};
        if Age(store[k], now) > oldest {
          oldest := Age(store[k], now);
          victim := Some(k);
        }
      }
      if victim.Some? { store := store - {victim.value}; }
    }

    method PutEntry(verb: string, path: string, entry: Entry) returns (ghost victim: Option<string>)
      modifies this`store
      ensures Enabled(old(View()), Put(verb, path, entry, victim))
      ensures View() == Apply(old(View()), Put(verb, path, entry, victim))
    {
      victim := None;
      if !enabled || verb != GET || entry.status != 200 { return; }
      if |store| >= maxEntries {
        var evicted := EvictOldest(entry.createdAt);
        victim := evicted;
      }
      store := store[CacheKey(verb, path) := entry];
    }

    method InvalidatePath(path: string)
      modifies this`store
      ensures View() == Apply(old(View()), Invalidate(path))
    {
      store := store - {CacheKey(GET, path)};
    }

    method PurgeExpired(now: nat) returns (removed: nat)
      modifies this`store
      ensures View() == Apply(old(View()), Purge(now))
      ensures removed == |old(store)| - |store|
    {
      var kept := Unexpired(store, ttl, now);
      var a, b := kept.Keys, store.Keys;
      assert b == a + (b - a) && a !! (b - a);
      removed := |store| - |kept|;
      store := kept;
    }
  }
}
