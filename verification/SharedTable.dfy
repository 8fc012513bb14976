/**
 The shared key/value table with per-entry deadlines: lazy eviction and sweeping are invisible,
 the size is bounded, and counters are two's-complement sums behind their bytes.
 */
module SharedTable {
  import opened Util
  import opened LittleEndian

  type Key = string

  datatype Entry = Entry(value: Bytes, expiresAt: Option<nat>) {
    predicate Expired(now: nat) { expiresAt.Some? && now >= expiresAt.value }
  }

  datatype Error = Full | NotACounter

  datatype Result<T> = Ok(value: T) | Err(error: Error)

  // ------------------------------------------------------------------ 64-bit counters

  const TWO63: nat := 0x8000_0000_0000_0000
  const TWO64: nat := 0x1_0000_0000_0000_0000

  type i64 = n: int | -0x8000_0000_0000_0000 <= n < 0x8000_0000_0000_0000

  /** Two's-complement wrap-around. */
  function Wrap(n: int): i64 { (n + TWO63) % TWO64 - TWO63 }

  /** The 64-bit number that differs from `n` by a multiple of 2^64. */
  lemma WrapExact(n: int)
    ensures (n - Wrap(n)) % 0x1_0000_0000_0000_0000 == 0
    ensures -0x8000_0000_0000_0000 <= n < 0x8000_0000_0000_0000 ==> Wrap(n) == n
  {
    var q := (n + TWO63) / TWO64;
    assert n - Wrap(n) == q * TWO64;
    ModShift(0, q);
  }

  function ToBytes(n: i64): (r: Bytes)
    ensures |r| == 8
  {
    Le(if n < 0 then n + TWO64 else n, 8)
  }

  function FromBytes(s: Bytes): i64
    requires |s| == 8
  {
    FromLeBound(s); Pow256Eight();
    if FromLe(s) < TWO63 then FromLe(s) else FromLe(s) - TWO64
  }

  lemma Pow256Eight()
    ensures Pow256(8) == TWO64
  {
    Widths();
    assert Pow256(6) == 0x1_0000_0000_0000;
  }

  lemma BytesRoundTrip(n: i64)
    ensures FromBytes(ToBytes(n)) == n
  {
    Pow256Eight();
    LeRoundTrip(if n < 0 then n + TWO64 else n, 8);
  }

  lemma WrapSum(a: int, b: int)
    ensures Wrap(Wrap(a) + b) == Wrap(a + b)
  {
    var q := (a + TWO63) / TWO64;
    assert Wrap(a) == a - q * TWO64;
    ModShift(a + b + TWO63, -q);
  }

  lemma ModShift(x: int, k: int)
    ensures (x + k * TWO64) % TWO64 == x % TWO64
  {
  }

  // ------------------------------------------------------------------ the table

  datatype Table = Table(entries: map<Key, Entry>, maxEntries: nat)

  /** What a reader can see at `now`. */
  function Live(t: Table, now: nat): map<Key, Bytes> {
    map k | k in t.entries && !t.entries[k].Expired(now) :: t.entries[k].value
  }

  function Set(t: Table, key: Key, value: Bytes, deadline: Option<nat>): (Table, Result<()>) {
    if key in t.entries || |t.entries| < t.maxEntries
    then (t.(entries := t.entries[key := Entry(value, deadline)]), Ok(()))
    else (t, Err(Full))
  }

  function Get(t: Table, key: Key, now: nat): (Table, Option<Bytes>) {
    if key !in t.entries then (t, None)
    else if t.entries[key].Expired(now) then (t.(entries := t.entries - {key}), None)
    else (t, Some(t.entries[key].value))
  }

  function Del(t: Table, key: Key, now: nat): (Table, bool) {
    (t.(entries := t.entries - {key}), key in t.entries && !t.entries[key].Expired(now))
  }

  function Incr(t: Table, key: Key, delta: i64, now: nat): (Table, Result<i64>) {
    if key in t.entries then
      var e := t.entries[key];
      if e.Expired(now) then (t.(entries := t.entries[key := Entry(ToBytes(delta), None)]), Ok(delta))
      else if |e.value| != 8 then (t, Err(NotACounter))
      else
        var n := Wrap(FromBytes(e.value) + delta);
        (t.(entries := t.entries[key := e.(value := ToBytes(n))]), Ok(n))
    else if |t.entries| >= t.maxEntries then (t, Err(Full))
    else (t.(entries := t.entries[key := Entry(ToBytes(delta), None)]), Ok(delta))
  }

  function Sweep(t: Table, now: nat): Table {
    t.(entries := map k | k in t.entries && !t.entries[k].Expired(now) :: t.entries[k])
  }

  // ------------------------------------------------------------------ what a reader sees

  /** A get changes nothing that anyone can see, now or later, and returns what is visible. */
  lemma GetInvisible(t: Table, key: Key, now: nat, later: nat)
    requires now <= later
    ensures Live(Get(t, key, now).0, later) == Live(t, later)
    ensures Get(t, key, now).1 == if key in Live(t, now) then Some(Live(t, now)[key]) else None
  {
  }

  /** Neither does a sweep, and it leaves no expired entry behind. */
  lemma SweepInvisible(t: Table, now: nat, later: nat)
    requires now <= later
    ensures Live(Sweep(t, now), later) == Live(t, later)
    ensures Sweep(t, now).entries.Keys == Apply(t, CSweep(now)).entries.Keys == Live(t, now).Keys
  {
  }

  /** A clear leaves nothing to see. */
  lemma ClearVisible(t: Table, later: nat)
    ensures Live(Apply(t, CClear), later) == map[] && Apply(t, CClear).entries == map[]
  {
  }

  /** A set is visible until its deadline, and touches no other key; it fails exactly for a new key at capacity. */
  lemma SetVisible(t: Table, key: Key, value: Bytes, deadline: Option<nat>, later: nat)
    ensures Set(t, key, value, deadline).1.Ok? <==> key in t.entries || |t.entries| < t.maxEntries
    ensures Set(t, key, value, deadline).1.Ok? ==>
              Live(Set(t, key, value, deadline).0, later) ==
              if deadline.Some? && later >= deadline.value then Live(t, later) - {key} else Live(t, later)[key := value]
  {
    var r := Set(t, key, value, deadline).0;
    if Set(t, key, value, deadline).1.Ok? {
      if deadline.Some? && later >= deadline.value {
        assert Live(r, later) == Live(t, later) - {key};
      } else {
        assert Live(r, later) == Live(t, later)[key := value];
      }
    }
  }

  /** A delete removes the key from view and says whether it was in view. */
  lemma DelVisible(t: Table, key: Key, now: nat, later: nat)
    ensures Live(Del(t, key, now).0, later) == Live(t, later) - {key}
    ensures Del(t, key, now).1 <==> key in Live(t, now)
  {
    assert Live(Del(t, key, now).0, later) == Live(t, later) - {key};
  }

  /** An increment adds to the visible counter, which stays visible as long as it would have, starts over from an
      invisible one for good, touches no other key, and fails exactly for a visible value that is no counter or a new
      key at capacity, changing nothing. */
  lemma IncrVisible(t: Table, key: Key, delta: i64, now: nat, later: nat)
    ensures var (r, res) := Incr(t, key, delta, now);
            var seen := Live(t, now);
            && (res.Ok? <==> if key in t.entries then key in seen ==> |seen[key]| == 8 else |t.entries| < t.maxEntries)
            && (res.Ok? ==> res.value == if key in seen then Wrap(FromBytes(seen[key]) + delta) else delta)
            && (res.Ok? ==> key in Live(r, now) && Live(r, now)[key] == ToBytes(res.value))
            && Live(r, later) - {key} == Live(t, later) - {key}
            && (res.Ok? && now <= later ==> (key in Live(r, later) <==> (key in seen ==> key in Live(t, later))))
            && (res.Ok? && key in Live(r, later) ==> Live(r, later)[key] == ToBytes(res.value))
            && (!res.Ok? ==> r == t)
  {
    var r := Incr(t, key, delta, now).0;
    assert Live(r, later) - {key} == Live(t, later) - {key};
  }

  // ------------------------------------------------------------------ runs

  datatype Call =
    | CSet(key: Key, value: Bytes, deadline: Option<nat>)
    | CGet(key: Key, now: nat)
    | CDel(key: Key, now: nat)
    | CIncr(key: Key, delta: i64, now: nat)
    | CSweep(now: nat)
    | CClear

  function Apply(t: Table, c: Call): Table {
    match c
    case CSet(key, value, deadline) => Set(t, key, value, deadline).0
    case CGet(key, now) => Get(t, key, now).0
    case CDel(key, now) => Del(t, key, now).0
    case CIncr(key, delta, now) => Incr(t, key, delta, now).0
    case CSweep(now) => Sweep(t, now)
    case CClear => t.(entries := map[])
  }

  function Run(t: Table, calls: seq<Call>): Table {
    if calls == [] then t else Apply(Run(t, calls[..|calls| - 1]), calls[|calls| - 1])
  }

  /** Writes add at most their own key, and a new key only below the maximum. */
  lemma WriteKeys(t: Table, c: Call)
    requires c.CSet? || c.CIncr?
    ensures var r := Apply(t, c);
            && r.maxEntries == t.maxEntries
            && (|| r.entries.Keys == t.entries.Keys
                || (r.entries.Keys == t.entries.Keys + {c.key} && |t.entries| < t.maxEntries))
  {
  }

  lemma DropKeys(t: Table, c: Call)
    requires !c.CSet? && !c.CIncr?
    ensures Apply(t, c).maxEntries == t.maxEntries && Apply(t, c).entries.Keys <= t.entries.Keys
  {
  }

  lemma SubsetSize<T>(a: set<T>, b: set<T>)
    requires a <= b
    ensures |a| <= |b|
  {
    assert b == a + (b - a) && a !! (b - a);
  }

  lemma BoundStep(t: Table, c: Call)
    requires |t.entries| <= t.maxEntries
    ensures |Apply(t, c).entries| <= t.maxEntries && Apply(t, c).maxEntries == t.maxEntries
  {
    var before, after := t.entries, Apply(t, c).entries;
    assert |before| == |before.Keys| && |after| == |after.Keys|;
    if c.CSet? || c.CIncr? {
      WriteKeys(t, c);
    } else {
      DropKeys(t, c);
      SubsetSize(after.Keys, before.Keys);
    }
  }

  /** The table never holds more than its maximum. */
  lemma {:induction false} SizeBound(t: Table, calls: seq<Call>)
    requires |t.entries| <= t.maxEntries
    ensures |Run(t, calls).entries| <= t.maxEntries && Run(t, calls).maxEntries == t.maxEntries
    decreases |calls|
  {
    if calls != [] {
      SizeBound(t, calls[..|calls| - 1]);
      BoundStep(Run(t, calls[..|calls| - 1]), calls[|calls| - 1]);
    }
  }

  /** The key is written by increments only. */
  predicate OnlyCounts(c: Call, key: Key) {
    match c
    case CSet(k, _, _) => k != key
    case CDel(k, _) => k != key
    case CClear => false
    case _ => true
  }

  /** What a call adds to the key's counter: an accepted increment's delta. */
  function Delta(t: Table, c: Call, key: Key): int {
    if c.CIncr? && c.key == key && Incr(t, key, c.delta, c.now).1.Ok? then c.delta else 0
  }

  /** The sum of the increments of the key that were accepted. */
  function Total(t: Table, calls: seq<Call>, key: Key): int {
    if calls == [] then 0
    else
      var before := calls[..|calls| - 1];
      Total(t, before, key) + Delta(Run(t, before), calls[|calls| - 1], key)
  }

  /** The key holds the sum as eight bytes without a deadline, or nothing when nothing was added. */
  ghost predicate Holds(t: Table, key: Key, sum: int) {
    if key in t.entries then t.entries[key] == Entry(ToBytes(Wrap(sum)), None) else sum == 0
  }

  /** What holds at the start and survives every call that only counts holds after all of them. */
  lemma {:induction false} AlongCounts(t: Table, calls: seq<Call>, key: Key, P: (Table, int) -> bool)
    requires P(t, 0) && forall i :: 0 <= i < |calls| ==> OnlyCounts(calls[i], key)
    requires forall m, sum, c :: P(m, sum) && OnlyCounts(c, key) ==> P(Apply(m, c), sum + Delta(m, c, key))
    ensures P(Run(t, calls), Total(t, calls, key))
    decreases |calls|
  {
    if calls != [] { AlongCounts(t, calls[..|calls| - 1], key, P); }
  }

  /** A key absent at first and written by increments only always reads as the 64-bit two's-complement sum of
      the accepted deltas, as eight little-endian bytes that never expire. */
  lemma CounterIsSum(t: Table, calls: seq<Call>, key: Key)
    requires key !in t.entries && forall i :: 0 <= i < |calls| ==> OnlyCounts(calls[i], key)
    ensures Holds(Run(t, calls), key, Total(t, calls, key))
  {
    forall m, sum, c | Holds(m, key, sum) && OnlyCounts(c, key)
      ensures Holds(Apply(m, c), key, sum + Delta(m, c, key))
    {
      CounterStep(m, sum, c, key);
    }
    AlongCounts(t, calls, key, (m: Table, sum: int) => Holds(m, key, sum));
  }

  lemma CounterStep(m: Table, sum: int, c: Call, key: Key)
    requires Holds(m, key, sum) && OnlyCounts(c, key)
    ensures Holds(Apply(m, c), key, sum + Delta(m, c, key))
  {
    if c.CIncr? && c.key == key { CountStep(m, sum, c); } else { Untouched(m, c, key); }
  }

  /** Other calls leave a key alone that has no deadline. */
  lemma Untouched(m: Table, c: Call, key: Key)
    requires OnlyCounts(c, key) && !(c.CIncr? && c.key == key)
    requires key in m.entries ==> m.entries[key].expiresAt.None?
    ensures var r := Apply(m, c);
            (key in r.entries <==> key in m.entries) && (key in m.entries ==> r.entries[key] == m.entries[key])
  {
  }

  lemma BumpStep(sum: int, delta: i64)
    ensures Wrap(FromBytes(ToBytes(Wrap(sum))) + delta) == Wrap(sum + delta)
    ensures |ToBytes(Wrap(sum))| == 8 && Wrap(0 + delta) == delta
  {
    BytesRoundTrip(Wrap(sum));
    WrapSum(sum, delta);
  }

  lemma IncrExisting(m: Table, key: Key, delta: i64, now: nat, value: Bytes, next: i64)
    requires key in m.entries && m.entries[key] == Entry(value, None) && |value| == 8
    requires Wrap(FromBytes(value) + delta) == next
    ensures Incr(m, key, delta, now) == (m.(entries := m.entries[key := Entry(ToBytes(next), None)]), Ok(next))
  {
  }

  lemma CountStep(m: Table, sum: int, c: Call)
    requires c.CIncr?
    requires Holds(m, c.key, sum)
    ensures var (r, res) := Incr(m, c.key, c.delta, c.now);
            && (c.key in m.entries ==> res.Ok?)
            && (res.Ok? ==> c.key in r.entries && r.entries[c.key] == Entry(ToBytes(Wrap(sum + c.delta)), None) &&
                            res.value == Wrap(sum + c.delta))
            && (!res.Ok? ==> r == m)
  {
    BumpStep(sum, c.delta);
    if c.key in m.entries {
      IncrExisting(m, c.key, c.delta, c.now, m.entries[c.key].value, Wrap(sum + c.delta));
    }
  }

  // ------------------------------------------------------------------ the object

  class Shared {
    var entries: map<Key, Entry>
    const maxEntries: nat
    var evictions: nat

    ghost function View(): Table
      reads this
    {
      Table(entries, maxEntries)
    }

    constructor (maxEntries: nat)
      ensures View() == Table(map[], maxEntries) && evictions == 0
    {
      entries, this.maxEntries, evictions := map[], maxEntries, 0;
    }

    method SetKey(key: Key, value: Bytes, deadline: Option<nat>) returns (r: Result<()>)
      modifies this`entries
      ensures (View(), r) == Set(old(View()), key, value, deadline)
    {
      if key in entries {
        entries := entries[key := Entry(value, deadline)];
        return Ok(());
      }
      if |entries| >= maxEntries { return Err(Full); }
      entries := entries[key := Entry(value, deadline)];
      r := Ok(());
    }

    method GetKey(key: Key, now: nat) returns (r: Option<Bytes>)
      modifies this`entries
      ensures (View(), r) == Get(old(View()), key, now)
    {
      if key !in entries { return None; }
      if !entries[key].Expired(now) { return Some(entries[key].value); }
      entries := entries - {key};
      r := None;
    }

    method DelKey(key: Key, now: nat) returns (r: bool)
      modifies this`entries
      ensures (View(), r) == Del(old(View()), key, now)
    {
      if key in entries {
        r := !entries[key].Expired(now);
        entries := entries - {key};
      } else {
        assert entries - {key} == entries;
        r := false;
      }
    }

    method IncrKey(key: Key, delta: i64, now: nat) returns (r: Result<i64>)
      modifies this`entries
      ensures (View(), r) == Incr(old(View()), key, delta, now)
    {
      if key in entries {
        var e := entries[key];
        if e.Expired(now) {
          entries := entries[key := Entry(ToBytes(delta), None)];
          return Ok(delta);
        }
        if |e.value| != 8 { return Err(NotACounter); }
        var n := Wrap(FromBytes(e.value) + delta);
        entries := entries[key := e.(value := ToBytes(n))];
        return Ok(n);
      }
      if |entries| >= maxEntries { return Err(Full); }
      entries := entries[key := Entry(ToBytes(delta), None)];
      r := Ok(delta);
    }

    /** Visits every entry, in any order, and drops the expired ones. */
    method SweepExpired(now: nat) returns (removed: nat)
      modifies this
      ensures View() == Sweep(old(View()), now)
      ensures removed == |old(entries)| - |entries| && evictions == old(evictions) + removed
    {
      removed := 0;
      var kept := entries;
      var rest := entries.Keys;
      while rest != {}
        invariant rest <= entries.Keys && entries == old(entries) && evictions == old(evictions)
        invariant removed + |kept| == |entries|
        invariant kept == map k | k in entries && (k in rest || !entries[k].Expired(now)) :: entries[k]
        decreases rest
      {
        var k :| k in rest;
        rest := rest - {k};
        if entries[k].Expired(now) {
          assert (kept - {k}).Keys == kept.Keys - {k};
          kept := kept - {k};
          removed := removed + 1;
        }
      }
      entries := kept;
      evictions := evictions + removed;
    }
  }
}
