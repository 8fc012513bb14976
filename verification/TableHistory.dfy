/**
 What a reader of the shared table sees of a key, from the history of calls alone: the last accepted write that nothing
 has deleted or cleared since, for as long as its deadline allows, whatever gets and sweeps evict in between.
 */
module TableHistory {
  import opened Util
  import opened SharedTable
  import opened TableEviction

  /** The call is a write of the key that the table takes. */
  predicate Takes(t: Table, c: Call, key: Key) {
    match AnswerOf(t, c)
    case Wrote(r) => c.key == key && r.Ok?
    case Counted(r) => c.key == key && r.Ok?
    case _ => false
  }

  /** The counter an increment leaves: the sum and the old deadline if there is a live counter, else the increment. */
  function Bumped(was: Option<Entry>, delta: i64, now: nat): Entry {
    if was.Some? && !(was.value.expiresAt.Some? && now >= was.value.expiresAt.value) && |was.value.value| == 8
    then Entry(ToBytes(Wrap(FromBytes(was.value.value) + delta)), was.value.expiresAt)
    else Entry(ToBytes(delta), None)
  }

  /** The entry last written under the key and not deleted or cleared since. */
  function LastWrite(t: Table, calls: seq<Call>, key: Key): Option<Entry>
    decreases |calls|
  {
    if calls == [] then (if key in t.entries then Some(t.entries[key]) else None)
    else
      var before, last := calls[..|calls| - 1], calls[|calls| - 1];
      var was := LastWrite(t, before, key);
      match last
      case CSet(_, value, deadline) => if Takes(Run(t, before), last, key) then Some(Entry(value, deadline)) else was
      case CIncr(_, delta, now) => if Takes(Run(t, before), last, key) then Some(Bumped(was, delta, now)) else was
      case CDel(k, _) => if k == key then None else was
      case CClear => None
      case CGet(_, _) => was
      case CSweep(_) => was
  }

  /** The latest clock reading of the calls, `now` before them. */
  function LastTime(now: nat, calls: seq<Call>): nat
    decreases |calls|
  {
    if calls == [] then now else Tick(LastTime(now, calls[..|calls| - 1]), calls[|calls| - 1])
  }

  /** The clock does not go back. */
  ghost predicate Onward(now: nat, calls: seq<Call>)
    decreases |calls|
  {
    calls == [] ||
    (Onward(now, calls[..|calls| - 1]) && LastTime(now, calls[..|calls| - 1]) <= LastTime(now, calls))
  }

  /** The table holds that entry, or has dropped it after its deadline. */
  ghost predicate Reflects(t: Table, key: Key, was: Option<Entry>, now: nat) {
    if key in t.entries then was == Some(t.entries[key]) else was.None? || was.value.Expired(now)
  }

  lemma WriteReflects(t: Table, c: Call, key: Key, was: Option<Entry>, now: nat)
    requires Reflects(t, key, was, now) && now <= Tick(now, c) && (c.CSet? || c.CIncr?)
    ensures Reflects(Apply(t, c), key,
                     if !Takes(t, c, key) then was
                     else if c.CSet? then Some(Entry(c.value, c.deadline)) else Some(Bumped(was, c.delta, c.now)),
                     Tick(now, c))
  {
  }

  lemma OtherReflects(t: Table, c: Call, key: Key, was: Option<Entry>, now: nat)
    requires Reflects(t, key, was, now) && now <= Tick(now, c) && !c.CSet? && !c.CIncr?
    ensures Reflects(Apply(t, c), key, if c.CClear? || (c.CDel? && c.key == key) then None else was, Tick(now, c))
  {
  }

  lemma {:induction false} RunReflects(t: Table, calls: seq<Call>, key: Key, now: nat)
    requires Onward(now, calls)
    ensures Reflects(Run(t, calls), key, LastWrite(t, calls, key), LastTime(now, calls))
    decreases |calls|
  {
    if calls != [] {
      var before, last := calls[..|calls| - 1], calls[|calls| - 1];
      RunReflects(t, before, key, now);
      var m, was, clock := Run(t, before), LastWrite(t, before, key), LastTime(now, before);
      if last.CSet? || last.CIncr? {
        WriteReflects(m, last, key, was, clock);
      } else {
        OtherReflects(m, last, key, was, clock);
      }
    }
  }

  /** For all calls under a clock that does not go back, a get returns the value last written under the key if that has
      no deadline or its deadline is still to come, and nothing otherwise. */
  lemma GetReadsLastWrite(t: Table, calls: seq<Call>, key: Key, start: nat, now: nat)
    requires Onward(start, calls) && LastTime(start, calls) <= now
    ensures var w := LastWrite(t, calls, key);
            Get(Run(t, calls), key, now).1 ==
            if w.Some? && (w.value.expiresAt.None? || now < w.value.expiresAt.value) then Some(w.value.value) else None
  {
    RunReflects(t, calls, key, start);
  }
}
