/**
 The coalescer and its leader guard as objects.  A slot is named by its allocation; the shared
 fields are the in-flight map and the slots' contents.
 */
module CoalescerObject {
  import opened Util
  import opened Coalescer

  class Flights<V> {
    var inflight: map<Key, SlotId>
    var slots: map<SlotId, Slot<V>>
    var next: SlotId

    /** Keys in flight have unfinished slots, and the allocator is ahead of every slot. */
    ghost predicate Valid()
      reads this
    {
      && (forall k :: k in inflight ==> inflight[k] in slots && !slots[inflight[k]].notified)
      && (forall j, k :: j in inflight && k in inflight && j != k ==> inflight[j] != inflight[k])
      && (forall i :: i in slots ==> i < next)
    }

    constructor ()
      ensures Valid() && inflight == map[] && slots == map[]
    {
      inflight, slots, next := map[], map[], 0;
    }

    /** Lead with a fresh slot if nobody leads the key, follow the leader's slot otherwise. */
    method AcquireKey(key: Key) returns (leader: bool, slot: SlotId)
      requires Valid()
      modifies this
      ensures Valid() && slot in slots && key in inflight && inflight[key] == slot
      ensures leader <==> key !in old(inflight)
      ensures leader ==> slot !in old(slots) && inflight == old(inflight)[key := slot] &&
                         slots == old(slots)[slot := Slot(None, false)]
      ensures !leader ==> inflight == old(inflight) && slots == old(slots)
    {
      if key in inflight {
        return false, inflight[key];
      }
      slot := next;
      slots := slots[slot := Slot(None, false)];
      next := next + 1;
      inflight := inflight[key := slot];
      leader := true;
    }

    method Count() returns (n: nat)
      ensures n == |inflight|
    {
      n := |inflight|;
    }
  }

  class LeaderGuard<V> {
    const flights: Flights<V>
    const key: Key
    const slot: SlotId
    var published: bool

    /** Until it is published, the guard's slot is the one in flight for its key. */
    ghost predicate Valid()
      reads this, flights
    {
      && flights.Valid() && slot in flights.slots
      && (!published ==> key in flights.inflight && flights.inflight[key] == slot)
    }

    constructor (flights: Flights<V>, key: Key, slot: SlotId)
      requires flights.Valid() && slot in flights.slots && key in flights.inflight && flights.inflight[key] == slot
      ensures this.flights == flights && this.key == key && this.slot == slot && !published && Valid()
    {
      this.flights, this.key, this.slot, published := flights, key, slot, false;
    }

    /** Publishing once writes the result, takes out the guard's own key and notifies; again, nothing. */
    method Publish(value: V)
      requires Valid()
      modifies this, flights
      ensures Valid() && published
      ensures old(published) ==> flights.inflight == old(flights.inflight) && flights.slots == old(flights.slots)
      ensures !old(published) ==> key !in flights.inflight && flights.inflight == old(flights.inflight) - {key} &&
                                  flights.slots == old(flights.slots)[slot := Slot(Some(value), true)]
    {
      if published { return; }
      published := true;
      flights.slots := flights.slots[slot := flights.slots[slot].(result := Some(value))];
      flights.inflight := flights.inflight - {key};
      flights.slots := flights.slots[slot := flights.slots[slot].(notified := true)];
    }

    method Drop()
      requires Valid()
      modifies flights
      ensures flights.Valid()
      ensures published ==> flights.inflight == old(flights.inflight) && flights.slots == old(flights.slots)
      ensures !published ==> key !in flights.inflight && flights.inflight == old(flights.inflight) - {key} &&
                             flights.slots == old(flights.slots)[slot := old(flights.slots)[slot].(notified := true)]
    {
      if !published {
        flights.inflight := flights.inflight - {key};
        flights.slots := flights.slots[slot := flights.slots[slot].(notified := true)];
      }
    }
  }

  /** An uninterrupted `publish` is the run store, remove, notify, with the effect of Publish. */
  lemma PublishIsRun<V>(s: State<V>, t: Tid, v: V)
    requires Inv(s) && t in s.callers && s.callers[t].Producing?
    ensures var Producing(key, slot) := s.callers[t];
            var run := [Store(t, v)] + ([Remove(t)] + ([NotifyWaiters(t)] + []));
            && ValidRun(s, run)
            && After(s, run) == State(s.inflight - {key}, s.slots[slot := Slot(Some(v), true)],
                                      WakeUp(s.callers, slot)[t := Led(slot, Some(v))])
  {
    var Producing(key, slot) := s.callers[t];
    var s1 := Apply(s, Store(t, v));
    var s2 := Apply(s1, Remove(t));
    var s3 := Apply(s2, NotifyWaiters(t));
    Cons(s2, NotifyWaiters(t), s3, [], s3);
    Cons(s1, Remove(t), s2, [NotifyWaiters(t)] + [], s3);
    Cons(s, Store(t, v), s1, [Remove(t)] + ([NotifyWaiters(t)] + []), s3);
    assert s3.slots == s.slots[slot := Slot(Some(v), true)];
    assert s3.callers == WakeUp(s.callers, slot)[t := Led(slot, Some(v))];
  }

  /** An uninterrupted drop of an unpublished guard is the run abort, notify, with the effect of Drop. */
  lemma DropIsRun<V>(s: State<V>, t: Tid)
    requires Inv(s) && t in s.callers && s.callers[t].Producing?
    ensures var Producing(key, slot) := s.callers[t];
            var run := [Abort(t)] + ([NotifyWaiters(t)] + []);
            && ValidRun(s, run)
            && After(s, run) == State(s.inflight - {key}, s.slots[slot := Slot(None, true)],
                                      WakeUp(s.callers, slot)[t := Led(slot, None)])
  {
    var Producing(key, slot) := s.callers[t];
    var s1 := Apply(s, Abort(t));
    var s2 := Apply(s1, NotifyWaiters(t));
    Cons(s1, NotifyWaiters(t), s2, [], s2);
    Cons(s, Abort(t), s1, [NotifyWaiters(t)] + [], s2);
    assert s2.callers == WakeUp(s.callers, slot)[t := Led(slot, None)];
  }
}
