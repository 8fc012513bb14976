/**
 Evicting expired entries from the shared table, over whole sequences of calls: dropping every get
 and sweep from the history changes no later answer and no live view exactly as long as no write
 gets in only because an eviction made room.
 */
module TableEviction {
  import opened Util
  import opened SharedTable

  datatype Answer =
    | Wrote(set': Result<()>)
    | Counted(incr: Result<i64>)
    | Removed(found: bool)
    | Seen(value: Option<Bytes>)
    | Silent

  /** What the caller learns; sizes are not among it. */
  function AnswerOf(t: Table, c: Call): Answer {
    match c
    case CSet(key, value, deadline) => Wrote(Set(t, key, value, deadline).1)
    case CGet(key, now) => Seen(Get(t, key, now).1)
    case CDel(key, now) => Removed(Del(t, key, now).1)
    case CIncr(key, delta, now) => Counted(Incr(t, key, delta, now).1)
    case CSweep(_) => Silent
    case CClear => Silent
  }

  /** The table that never evicts on reads or sweeps. */
  function ApplyKeeping(u: Table, c: Call): Table { if c.CGet? || c.CSweep? then u else Apply(u, c) }

  function Tick(now: nat, c: Call): nat {
    match c
    case CGet(_, n) => n
    case CDel(_, n) => n
    case CIncr(_, _, n) => n
    case CSweep(n) => n
    case _ => now
  }

  /** The write is refused without the evictions and gets in with them. */
  predicate GetsIn(t: Table, u: Table, c: Call) {
    (c.CSet? || c.CIncr?) && c.key !in u.entries && |u.entries| >= u.maxEntries && |t.entries| < t.maxEntries
  }

  /** `t` is `u` without some entries that have expired. */
  ghost predicate Trimmed(t: Table, u: Table, now: nat) {
    && t.maxEntries == u.maxEntries && |u.entries| <= u.maxEntries
    && (forall k :: k in t.entries ==> k in u.entries && t.entries[k] == u.entries[k])
    && (forall k :: k in u.entries && k !in t.entries ==> u.entries[k].Expired(now))
  }

  lemma TrimmedLive(t: Table, u: Table, now: nat, later: nat)
    requires Trimmed(t, u, now) && now <= later
    ensures Live(t, later) == Live(u, later)
  {
  }

  lemma TrimmedSize(t: Table, u: Table, now: nat)
    requires Trimmed(t, u, now)
    ensures |t.entries| <= |u.entries|
    ensures |t.entries| == |u.entries| ==> t.entries == u.entries
  {
    var a, b := t.entries.Keys, u.entries.Keys;
    assert a <= b && b == a + (b - a) && a !! (b - a);
    assert |t.entries| == |a| && |u.entries| == |b|;
    if |a| == |b| { assert b - a == {}; }
  }

  lemma IncrAnswer(t: Table, u: Table, now: nat, c: Call)
    requires Trimmed(t, u, now) && c.CIncr? && now <= c.now
    ensures AnswerOf(t, c) == AnswerOf(u, c) <==> !GetsIn(t, u, c)
  {
    TrimmedSize(t, u, now);
  }

  lemma TrimmedAnswer(t: Table, u: Table, now: nat, c: Call)
    requires Trimmed(t, u, now) && now <= Tick(now, c)
    ensures AnswerOf(t, c) == AnswerOf(u, c) <==> !GetsIn(t, u, c)
  {
    if c.CIncr? { IncrAnswer(t, u, now, c); } else { TrimmedSize(t, u, now); }
  }

  /** Writing one entry to both. */
  lemma TrimmedWrite(t: Table, u: Table, now: nat, key: Key, e: Entry)
    requires Trimmed(t, u, now) && |u.entries[key := e]| <= u.maxEntries
    ensures Trimmed(t.(entries := t.entries[key := e]), u.(entries := u.entries[key := e]), now)
  {
  }

  /** An increment that is not let in by an eviction does the same to both: nothing, or one entry. */
  lemma IncrAlike(t: Table, u: Table, now: nat, c: Call)
    requires Trimmed(t, u, now) && c.CIncr? && now <= c.now && !GetsIn(t, u, c)
    ensures || (Apply(t, c) == t && Apply(u, c) == u)
            || (c.key in Apply(u, c).entries &&
                var e := Apply(u, c).entries[c.key];
                Apply(t, c) == t.(entries := t.entries[c.key := e]) &&
                  Apply(u, c) == u.(entries := u.entries[c.key := e]))
  {
    TrimmedSize(t, u, now);
  }

  lemma TrimmedTick(t: Table, u: Table, now: nat, later: nat)
    requires Trimmed(t, u, now) && now <= later
    ensures Trimmed(t, u, later)
  {
  }

  lemma TrimmedDrop(t: Table, u: Table, now: nat, c: Call)
    requires Trimmed(t, u, now) && now == Tick(now, c) && !c.CIncr? && !c.CSet?
    ensures Trimmed(Apply(t, c), ApplyKeeping(u, c), now)
  {
    BoundStep(u, c);
  }

  lemma TrimmedSet(t: Table, u: Table, now: nat, c: Call)
    requires Trimmed(t, u, now) && c.CSet? && !GetsIn(t, u, c)
    ensures Trimmed(Apply(t, c), Apply(u, c), now)
  {
    TrimmedSize(t, u, now);
    BoundStep(u, c);
    if c.key in u.entries || |u.entries| < u.maxEntries { TrimmedWrite(t, u, now, c.key, Entry(c.value, c.deadline)); }
  }

  lemma TrimmedStep(t: Table, u: Table, now: nat, c: Call)
    requires Trimmed(t, u, now) && now <= Tick(now, c) && !GetsIn(t, u, c)
    ensures Trimmed(Apply(t, c), ApplyKeeping(u, c), Tick(now, c))
  {
    TrimmedTick(t, u, now, Tick(now, c));
    if c.CIncr? {
      IncrAlike(t, u, now, c);
      BoundStep(u, c);
      if Apply(u, c) != u || Apply(t, c) != t {
        TrimmedWrite(t, u, c.now, c.key, Apply(u, c).entries[c.key]);
      }
    } else if c.CSet? {
      TrimmedSet(t, u, now, c);
    } else {
      TrimmedDrop(t, u, Tick(now, c), c);
    }
  }

  predicate Timely(now: nat, calls: seq<Call>)
    decreases |calls|
  {
    calls == [] || (now <= Tick(now, calls[0]) && Timely(Tick(now, calls[0]), calls[1..]))
  }

  function EndTime(now: nat, calls: seq<Call>): nat
    decreases |calls|
  {
    if calls == [] then now else EndTime(Tick(now, calls[0]), calls[1..])
  }

  function RunOn(t: Table, calls: seq<Call>): Table
    decreases |calls|
  {
    if calls == [] then t else RunOn(Apply(t, calls[0]), calls[1..])
  }

  function RunKeeping(u: Table, calls: seq<Call>): Table
    decreases |calls|
  {
    if calls == [] then u else RunKeeping(ApplyKeeping(u, calls[0]), calls[1..])
  }

  /** Every call is answered alike. */
  predicate SameAnswers(t: Table, u: Table, calls: seq<Call>)
    decreases |calls|
  {
    calls == [] ||
    (AnswerOf(t, calls[0]) == AnswerOf(u, calls[0]) &&
     SameAnswers(Apply(t, calls[0]), ApplyKeeping(u, calls[0]), calls[1..]))
  }

  predicate NoneGetsIn(t: Table, u: Table, calls: seq<Call>)
    decreases |calls|
  {
    calls == [] ||
    (!GetsIn(t, u, calls[0]) && NoneGetsIn(Apply(t, calls[0]), ApplyKeeping(u, calls[0]), calls[1..]))
  }

  lemma {:induction false} TrimmedRun(t: Table, u: Table, now: nat, calls: seq<Call>)
    requires Trimmed(t, u, now) && Timely(now, calls)
    ensures SameAnswers(t, u, calls) <==> NoneGetsIn(t, u, calls)
    ensures NoneGetsIn(t, u, calls) ==> Trimmed(RunOn(t, calls), RunKeeping(u, calls), EndTime(now, calls))
    decreases |calls|
  {
    if calls != [] {
      TrimmedAnswer(t, u, now, calls[0]);
      if !GetsIn(t, u, calls[0]) {
        TrimmedStep(t, u, now, calls[0]);
        TrimmedRun(Apply(t, calls[0]), ApplyKeeping(u, calls[0]), Tick(now, calls[0]), calls[1..]);
      }
    }
  }

  /** Under a clock that does not go back, eviction on gets and sweeps leaves every answer the same if and only if no
      write gets in through room it made; and then the live views agree at the end and ever after. */
  lemma EvictionInvisibleIff(t: Table, now: nat, calls: seq<Call>, later: nat)
    requires |t.entries| <= t.maxEntries && Timely(now, calls) && EndTime(now, calls) <= later
    ensures SameAnswers(t, t, calls) <==> NoneGetsIn(t, t, calls)
    ensures NoneGetsIn(t, t, calls) ==> Live(RunOn(t, calls), later) == Live(RunKeeping(t, calls), later)
  {
    TrimmedRun(t, t, now, calls);
    if NoneGetsIn(t, t, calls) { TrimmedLive(RunOn(t, calls), RunKeeping(t, calls), EndTime(now, calls), later); }
  }

  /** With room for one key, a read of an expired key lets another key in. */
  lemma EvictionSeen(v: Bytes)
    ensures var t := Table(map["a" := Entry(v, Some(1))], 1);
            var calls := [CGet("a", 2), CSet("b", v, None)];
            Timely(0, calls) && !SameAnswers(t, t, calls)
  {
    var t := Table(map["a" := Entry(v, Some(1))], 1);
    var calls := [CGet("a", 2), CSet("b", v, None)];
    assert calls[1..] == [CSet("b", v, None)] && calls[1..][1..] == [];
    assert Apply(t, calls[0]).entries == map[];
  }
}
