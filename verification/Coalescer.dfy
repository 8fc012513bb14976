/**
 Request coalescing (singleflight) as a transition system: `acquire`, the three steps of
 `publish`, the two steps of an aborting drop, and the follower's registration with the slot's
 `Notify`, which happens after `acquire` has returned.
 */
module Coalescer {
  import opened Util

  type Key = string
  type Tid = nat
  type SlotId = nat

  /** `notified` is set by the leader's `notify_waiters`, which wakes whoever is registered then
      and stores nothing for later. */
  datatype Slot<V> = Slot(result: Option<V>, notified: bool)

  datatype Caller<V> =
    | Producing(key: Key, slot: SlotId)                 // leader, guard not published
    | Stored(key: Key, slot: SlotId, value: V)          // leader, result written
    | Removed(slot: SlotId, outcome: Option<V>)         // leader, key removed, followers not notified
    | Led(slot: SlotId, outcome: Option<V>)             // leader, finished
    | Following(slot: SlotId)                           // acquire returned, not registered
    | Parked(slot: SlotId)                              // registered
    | Woken(slot: SlotId)
    | Answered(slot: SlotId, outcome: Option<V>)
    | Left                                              // follower cancelled

  predicate Leads(c: Caller) { c.Producing? || c.Stored? }

  predicate Owns(c: Caller) { c.Producing? || c.Stored? || c.Removed? || c.Led? }

  predicate Follows(c: Caller) { c.Following? || c.Parked? || c.Woken? || c.Answered? }

  datatype State<V> = State(inflight: map<Key, SlotId>, slots: map<SlotId, Slot<V>>, callers: map<Tid, Caller<V>>)

  function Init<V>(): State<V> { State(map[], map[], map[]) }

  datatype Step<V> =
    | Acquire(t: Tid, key: Key, newSlot: SlotId)
    | Store(t: Tid, value: V)
    | Remove(t: Tid)                                    // publish, after the result is written
    | Abort(t: Tid)                                     // drop of an unpublished guard
    | NotifyWaiters(t: Tid)
    | Register(t: Tid)
    | Return(t: Tid)
    | Cancel(t: Tid)

  predicate Enabled<V>(s: State<V>, step: Step<V>) {
    match step
    case Acquire(t, key, newSlot) => t !in s.callers && newSlot !in s.slots
    case Store(t, _) => t in s.callers && s.callers[t].Producing? && s.callers[t].slot in s.slots
    case Remove(t) => t in s.callers && s.callers[t].Stored?
    case Abort(t) => t in s.callers && s.callers[t].Producing?
    case NotifyWaiters(t) => t in s.callers && s.callers[t].Removed? && s.callers[t].slot in s.slots
    case Register(t) => t in s.callers && s.callers[t].Following?
    case Return(t) => t in s.callers && s.callers[t].Woken? && s.callers[t].slot in s.slots
    case Cancel(t) => t in s.callers && (s.callers[t].Following? || s.callers[t].Parked? || s.callers[t].Woken?)
  }

  function WakeUp<V>(callers: map<Tid, Caller<V>>, slot: SlotId): map<Tid, Caller<V>> {
    map u | u in callers :: if callers[u] == Parked(slot) then Woken(slot) else callers[u]
  }

  function Apply<V>(s: State<V>, step: Step<V>): State<V>
    requires Enabled(s, step)
  {
    match step
    case Acquire(t, key, newSlot) =>
      if key in s.inflight then s.(callers := s.callers[t := Following(s.inflight[key])])
      else State(s.inflight[key := newSlot], s.slots[newSlot := Slot(None, false)],
                 s.callers[t := Producing(key, newSlot)])
    case Store(t, value) =>
      var Producing(key, slot) := s.callers[t];
      s.(slots := s.slots[slot := s.slots[slot].(result := Some(value))],
         callers := s.callers[t := Stored(key, slot, value)])
    case Remove(t) =>
      var Stored(key, slot, value) := s.callers[t];
      s.(inflight := s.inflight - {key}, callers := s.callers[t := Removed(slot, Some(value))])
    case Abort(t) =>
      var Producing(key, slot) := s.callers[t];
      s.(inflight := s.inflight - {key}, callers := s.callers[t := Removed(slot, None)])
    case NotifyWaiters(t) =>
      var Removed(slot, outcome) := s.callers[t];
      s.(slots := s.slots[slot := s.slots[slot].(notified := true)],
         callers := WakeUp(s.callers, slot)[t := Led(slot, outcome)])
    case Register(t) => s.(callers := s.callers[t := Parked(s.callers[t].slot)])
    case Return(t) => s.(callers := s.callers[t := Answered(s.callers[t].slot, s.slots[s.callers[t].slot].result)])
    case Cancel(t) => s.(callers := s.callers[t := Left])
  }

  predicate ValidRun<V>(s: State<V>, run: seq<Step<V>>)
    decreases |run|
  {
    run == [] || (Enabled(s, run[0]) && ValidRun(Apply(s, run[0]), run[1..]))
  }

  function After<V>(s: State<V>, run: seq<Step<V>>): State<V>
    requires ValidRun(s, run)
    decreases |run|
  {
    if run == [] then s else After(Apply(s, run[0]), run[1..])
  }

  // ------------------------------------------------------------------ invariant

  ghost predicate LeadsFor<V>(s: State<V>, t: Tid, k: Key) {
    t in s.callers && Leads(s.callers[t]) && s.callers[t].key == k
  }

  /** The in-flight map and the unfinished leaders determine each other. */
  ghost predicate MapIsLeaders<V>(s: State<V>) {
    && (forall t :: t in s.callers && Leads(s.callers[t]) ==>
          s.callers[t].key in s.inflight && s.inflight[s.callers[t].key] == s.callers[t].slot)
    && (forall k :: k in s.inflight ==> s.inflight[k] in s.slots && exists t :: LeadsFor(s, t, k))
  }

  /** Nobody shares a slot with its leader, and slots of followers exist. */
  ghost predicate SlotsOwned<V>(s: State<V>) {
    && (forall t, u :: t in s.callers && u in s.callers && t != u && Owns(s.callers[t]) && Owns(s.callers[u]) ==>
          s.callers[t].slot != s.callers[u].slot)
    && (forall t :: t in s.callers && (Owns(s.callers[t]) || Follows(s.callers[t])) ==> s.callers[t].slot in s.slots)
  }

  ghost predicate LeaderAgrees<V>(c: Caller<V>, slot: Slot<V>) {
    match c
    case Producing(_, _) => slot == Slot(None, false)
    case Stored(_, _, v) => slot == Slot(Some(v), false)
    case Removed(_, o) => slot == Slot(o, false)
    case Led(_, o) => slot == Slot(o, true)
    case _ => true
  }

  /** Only a notification takes a follower past its wait, and then the slot holds its answer. */
  ghost predicate FollowerAgrees<V>(c: Caller<V>, slot: Slot<V>) {
    match c
    case Woken(_) => slot.notified
    case Answered(_, o) => slot.notified && o == slot.result
    case _ => true
  }

  ghost predicate SlotsAgree<V>(s: State<V>)
    requires SlotsOwned(s)
  {
    forall t :: t in s.callers && (Owns(s.callers[t]) || Follows(s.callers[t])) ==>
      LeaderAgrees(s.callers[t], s.slots[s.callers[t].slot]) && FollowerAgrees(s.callers[t], s.slots[s.callers[t].slot])
  }

  /** Every slot has the leader that made it. */
  ghost predicate NoOrphans<V>(s: State<V>) {
    forall k :: k in s.slots ==> exists t :: IsOwner(s, t, k)
  }

  ghost predicate Inv<V>(s: State<V>) {
    MapIsLeaders(s) && SlotsOwned(s) && SlotsAgree(s) && NoOrphans(s)
  }

  ghost predicate IsOwner<V>(s: State<V>, t: Tid, k: SlotId) {
    t in s.callers && Owns(s.callers[t]) && s.callers[t].slot == k
  }

  /** No step takes a slot from its owner. */
  lemma OwnersStay<V>(s: State<V>, step: Step<V>, t: Tid, k: SlotId)
    requires Enabled(s, step) && IsOwner(s, t, k)
    ensures IsOwner(Apply(s, step), t, k)
  {
  }

  /** A caller's leadership ends with its own remove or abort. */
  lemma LeadsStays<V>(s: State<V>, step: Step<V>, t: Tid, k: Key)
    requires MapIsLeaders(s) && Enabled(s, step) && LeadsFor(s, t, k) && k in Apply(s, step).inflight
    ensures LeadsFor(Apply(s, step), t, k)
  {
  }

  lemma MapHasLeaders<V>(s: State<V>, step: Step<V>)
    requires Inv(s) && Enabled(s, step)
    ensures var r := Apply(s, step);
            forall k :: k in r.inflight ==> r.inflight[k] in r.slots && exists t :: LeadsFor(r, t, k)
  {
    var r := Apply(s, step);
    forall k | k in r.inflight
      ensures r.inflight[k] in r.slots && exists t :: LeadsFor(r, t, k)
    {
      if k in s.inflight {
        var t :| LeadsFor(s, t, k);
        LeadsStays(s, step, t, k);
      } else {
        assert LeadsFor(r, step.t, k);
      }
    }
  }

  /** An unfinished leader was one before, or just won an acquire. */
  lemma LeaderFrom<V>(s: State<V>, step: Step<V>, t: Tid)
    requires Enabled(s, step) && t in Apply(s, step).callers && Leads(Apply(s, step).callers[t])
    ensures var c := Apply(s, step).callers[t];
            || (t in s.callers && Leads(s.callers[t]) && s.callers[t].key == c.key && s.callers[t].slot == c.slot
                && !(step.t == t && (step.Remove? || step.Abort?)))
            || (step.Acquire? && step.t == t && step.key !in s.inflight && c == Producing(step.key, step.newSlot))
  {
  }

  lemma MapAfter<V>(s: State<V>, step: Step<V>)
    requires Enabled(s, step)
    ensures Apply(s, step).inflight ==
            if step.Acquire? && step.key !in s.inflight then s.inflight[step.key := step.newSlot]
            else if step.Remove? || step.Abort? then s.inflight - {s.callers[step.t].key}
            else s.inflight
  {
  }

  lemma LeaderInMap<V>(s: State<V>, step: Step<V>, t: Tid)
    requires Inv(s) && Enabled(s, step) && t in Apply(s, step).callers && Leads(Apply(s, step).callers[t])
    ensures var r := Apply(s, step);
            r.callers[t].key in r.inflight && r.inflight[r.callers[t].key] == r.callers[t].slot
  {
    LeaderFrom(s, step, t);
    MapAfter(s, step);
  }

  lemma LeadersInMap<V>(s: State<V>, step: Step<V>)
    requires Inv(s) && Enabled(s, step)
    ensures var r := Apply(s, step);
            forall t :: t in r.callers && Leads(r.callers[t]) ==>
              r.callers[t].key in r.inflight && r.inflight[r.callers[t].key] == r.callers[t].slot
  {
    forall t | t in Apply(s, step).callers && Leads(Apply(s, step).callers[t])
      ensures var r := Apply(s, step);
              r.callers[t].key in r.inflight && r.inflight[r.callers[t].key] == r.callers[t].slot
    {
      LeaderInMap(s, step, t);
    }
  }

  /** A step that wakes nobody changes its own caller only. */
  lemma OthersSame<V>(s: State<V>, step: Step<V>)
    requires Enabled(s, step) && !step.NotifyWaiters?
    ensures var r := Apply(s, step); step.t in r.callers && r.callers == s.callers[step.t := r.callers[step.t]]
    ensures forall k :: k in s.slots ==> k in Apply(s, step).slots
  {
  }

  /** The caller of a step keeps its slot, joins one in flight, or makes a new one. */
  lemma OwnSlot<V>(s: State<V>, step: Step<V>)
    requires Inv(s) && Enabled(s, step) && !step.NotifyWaiters?
    ensures var c := Apply(s, step).callers[step.t];
            && (Owns(c) || Follows(c) ==> c.slot in Apply(s, step).slots)
            && (Owns(c) ==> || (step.t in s.callers && Owns(s.callers[step.t]) && s.callers[step.t].slot == c.slot)
                            || c.slot !in s.slots)
  {
  }

  lemma OwnedStep<V>(s: State<V>, step: Step<V>)
    requires Inv(s) && Enabled(s, step) && !step.NotifyWaiters?
    ensures SlotsOwned(Apply(s, step))
  {
    var r := Apply(s, step);
    OthersSame(s, step);
    OwnSlot(s, step);
  }

  /** A notification turns parked followers of its slot into woken ones and nothing else but its own leader. */
  lemma NotifyMoves<V>(s: State<V>, t: Tid, u: Tid)
    requires Enabled(s, NotifyWaiters(t)) && u in Apply(s, NotifyWaiters(t)).callers
    ensures var r := Apply(s, NotifyWaiters(t));
            && u in s.callers
            && (Owns(r.callers[u]) <==> Owns(s.callers[u]))
            && (Owns(s.callers[u]) || Follows(s.callers[u]) ==> r.callers[u].slot == s.callers[u].slot)
            && (u != t ==> r.callers[u] == s.callers[u]
                           || (s.callers[u] == Parked(s.callers[t].slot) && r.callers[u] == Woken(s.callers[t].slot)))
            && r.slots == s.slots[s.callers[t].slot := s.slots[s.callers[t].slot].(notified := true)]
            && r.callers[t] == Led(s.callers[t].slot, s.callers[t].outcome)
  {
  }

  lemma NotifyOwned<V>(s: State<V>, t: Tid)
    requires Inv(s) && Enabled(s, NotifyWaiters(t))
    ensures SlotsOwned(Apply(s, NotifyWaiters(t)))
  {
    forall u | u in Apply(s, NotifyWaiters(t)).callers
      ensures var r := Apply(s, NotifyWaiters(t));
              && u in s.callers && (Owns(r.callers[u]) <==> Owns(s.callers[u]))
              && (Owns(s.callers[u]) || Follows(s.callers[u]) ==> r.callers[u].slot == s.callers[u].slot)
    {
      NotifyMoves(s, t, u);
    }
  }

  lemma NotifyAgreesAt<V>(s: State<V>, t: Tid, u: Tid)
    requires Inv(s) && Enabled(s, NotifyWaiters(t)) && SlotsOwned(Apply(s, NotifyWaiters(t)))
    requires var r := Apply(s, NotifyWaiters(t)); u in r.callers && (Owns(r.callers[u]) || Follows(r.callers[u]))
    ensures var r := Apply(s, NotifyWaiters(t));
            && LeaderAgrees(r.callers[u], r.slots[r.callers[u].slot])
            && FollowerAgrees(r.callers[u], r.slots[r.callers[u].slot])
  {
    NotifyMoves(s, t, u);
  }

  lemma NotifyAgrees<V>(s: State<V>, t: Tid)
    requires Inv(s) && Enabled(s, NotifyWaiters(t))
    ensures SlotsOwned(Apply(s, NotifyWaiters(t))) && SlotsAgree(Apply(s, NotifyWaiters(t)))
  {
    var r := Apply(s, NotifyWaiters(t));
    NotifyOwned(s, t);
    forall u | u in r.callers && (Owns(r.callers[u]) || Follows(r.callers[u]))
      ensures LeaderAgrees(r.callers[u], r.slots[r.callers[u].slot])
      ensures FollowerAgrees(r.callers[u], r.slots[r.callers[u].slot])
    {
      NotifyAgreesAt(s, t, u);
    }
  }

  /** The slot only changes under its own leader, which no follower has been answered by yet. */
  lemma AgreesAt<V>(s: State<V>, step: Step<V>, u: Tid)
    requires Inv(s) && Enabled(s, step) && !step.NotifyWaiters? && SlotsOwned(Apply(s, step))
    requires var r := Apply(s, step); u in r.callers && (Owns(r.callers[u]) || Follows(r.callers[u]))
    ensures var r := Apply(s, step);
            && LeaderAgrees(r.callers[u], r.slots[r.callers[u].slot])
            && FollowerAgrees(r.callers[u], r.slots[r.callers[u].slot])
  {
    OthersSame(s, step);
  }

  lemma AgreesStep<V>(s: State<V>, step: Step<V>)
    requires Inv(s) && Enabled(s, step) && !step.NotifyWaiters?
    requires SlotsOwned(Apply(s, step))
    ensures SlotsAgree(Apply(s, step))
  {
    var r := Apply(s, step);
    forall u | u in r.callers && (Owns(r.callers[u]) || Follows(r.callers[u]))
      ensures LeaderAgrees(r.callers[u], r.slots[r.callers[u].slot])
      ensures FollowerAgrees(r.callers[u], r.slots[r.callers[u].slot])
    {
      AgreesAt(s, step, u);
    }
  }

  lemma InvStep<V>(s: State<V>, step: Step<V>)
    requires Inv(s) && Enabled(s, step)
    ensures Inv(Apply(s, step))
  {
    MapHasLeaders(s, step);
    LeadersInMap(s, step);
    if step.NotifyWaiters? {
      NotifyAgrees(s, step.t);
    } else {
      OwnedStep(s, step);
      AgreesStep(s, step);
    }
    var r := Apply(s, step);
    forall k | k in r.slots ensures exists t :: IsOwner(r, t, k) {
      if k in s.slots {
        var t :| IsOwner(s, t, k);
        OwnersStay(s, step, t, k);
      } else {
        assert IsOwner(r, step.t, k);
      }
    }
  }

  lemma {:induction false} AlwaysInv<V>(s: State<V>, run: seq<Step<V>>)
    requires Inv(s) && ValidRun(s, run)
    ensures Inv(After(s, run))
    decreases |run|
  {
    if run != [] {
      InvStep(s, run[0]);
      AlwaysInv(Apply(s, run[0]), run[1..]);
    }
  }

  // ------------------------------------------------------------------ theorems

  /** Single leader: in every reachable state a key is in flight exactly while one guard for it has not
      run its remove step; that guard's slot is the one in the map, so remove takes out its own. */
  lemma SingleLeader<V>(run: seq<Step<V>>, key: Key)
    requires ValidRun(Init<V>(), run)
    ensures var s := After(Init<V>(), run);
            && (key in s.inflight <==> exists t :: LeadsFor(s, t, key))
            && (forall t :: LeadsFor(s, t, key) ==> s.inflight[key] == s.callers[t].slot)
            && (forall t, u :: LeadsFor(s, t, key) && LeadsFor(s, u, key) ==> t == u)
  {
    AlwaysInv(Init<V>(), run);
  }

  /** Follower agreement: a follower that returned has its leader's outcome, the published value or
      None when the leader aborted, and so does every other follower of that slot. */
  lemma FollowerAgreement<V>(run: seq<Step<V>>, f: Tid)
    requires ValidRun(Init<V>(), run)
    requires var s := After(Init<V>(), run); f in s.callers && s.callers[f].Answered?
    ensures var s := After(Init<V>(), run);
            var Answered(slot, outcome) := s.callers[f];
            && (exists l :: l in s.callers && s.callers[l] == Led(slot, outcome))
            && (forall l :: IsOwner(s, l, slot) ==> s.callers[l] == Led(slot, outcome))
            && (forall g :: g in s.callers && s.callers[g].Answered? && s.callers[g].slot == slot ==>
                s.callers[g].outcome == outcome)
  {
    AlwaysInv(Init<V>(), run);
    var s := After(Init<V>(), run);
    var l :| IsOwner(s, l, s.callers[f].slot);
    assert s.callers[l] == Led(s.callers[f].slot, s.callers[f].outcome);
  }

  /** The leader's notify step wakes every follower of its slot that has registered, and no one else. */
  lemma NotifyWakesRegistered<V>(s: State<V>, t: Tid)
    requires Inv(s) && Enabled(s, NotifyWaiters(t))
    ensures var r := Apply(s, NotifyWaiters(t));
            forall f :: f in s.callers && f != t ==>
              r.callers[f] ==
              if s.callers[f] == Parked(s.callers[t].slot) then Woken(s.callers[t].slot) else s.callers[f]
  {
  }

  lemma {:induction false} LeftForGood<V>(s: State<V>, f: Tid, run: seq<Step<V>>)
    requires f in s.callers && s.callers[f] == Left && ValidRun(s, run)
    ensures f in After(s, run).callers && After(s, run).callers[f] == Left
    decreases |run|
  {
    if run != [] { LeftForGood(Apply(s, run[0]), f, run[1..]); }
  }

  /** A follower can be cancelled at any time before it returns; it is gone for good, and nobody else, no slot and no
      key in flight is affected. */
  lemma CancelledFollower<V>(s: State<V>, f: Tid, run: seq<Step<V>>)
    requires f in s.callers && (s.callers[f].Following? || s.callers[f].Parked? || s.callers[f].Woken?)
    requires Enabled(s, Cancel(f)) ==> ValidRun(Apply(s, Cancel(f)), run)
    ensures Enabled(s, Cancel(f)) && Apply(s, Cancel(f)) == s.(callers := s.callers[f := Left])
    ensures var r := After(Apply(s, Cancel(f)), run); f in r.callers && r.callers[f] == Left
  {
    LeftForGood(Apply(s, Cancel(f)), f, run);
  }

  /** The follower is waiting for a notification that has already gone by. */
  ghost predicate TooLate<V>(s: State<V>, f: Tid) {
    f in s.callers && s.callers[f].Parked? && s.callers[f].slot in s.slots && s.slots[s.callers[f].slot].notified
  }

  lemma TooLateStep<V>(s: State<V>, step: Step<V>, f: Tid)
    requires Inv(s) && TooLate(s, f) && Enabled(s, step)
    ensures TooLate(Apply(s, step), f) || step == Cancel(f)
  {
  }

  /** A follower that registers after the notify step never returns: in every continuation it is
      still parked unless it was cancelled. */
  lemma {:induction false} LateFollowerStuck<V>(s: State<V>, f: Tid, run: seq<Step<V>>)
    requires Inv(s) && TooLate(s, f) && ValidRun(s, run) && Cancel(f) !in run
    ensures TooLate(After(s, run), f)
    decreases |run|
  {
    if run != [] {
      InvStep(s, run[0]);
      TooLateStep(s, run[0], f);
      LateFollowerStuck(Apply(s, run[0]), f, run[1..]);
    }
  }

  /** A follower that registers before the notify step does return: let its leader finish. */
  lemma EarlyFollowerReturns<V>(s: State<V>, f: Tid) returns (run: seq<Step<V>>)
    requires Inv(s) && f in s.callers && s.callers[f].Parked? && !s.slots[s.callers[f].slot].notified
    ensures ValidRun(s, run) && Cancel(f) !in run
    ensures f in After(s, run).callers && After(s, run).callers[f].Answered?
  {
    var slot := s.callers[f].slot;
    var l :| IsOwner(s, l, slot);
    assert !s.callers[l].Led?;
    if s.callers[l].Removed? {
      run := NotifyThenReturn(s, f, l);
    } else {
      var step := if s.callers[l].Producing? then Abort(l) else Remove(l);
      InvStep(s, step);
      var rest := NotifyThenReturn(Apply(s, step), f, l);
      run := [step] + rest;
      assert run[1..] == rest;
    }
  }

  lemma NotifyThenReturn<V>(s: State<V>, f: Tid, l: Tid) returns (run: seq<Step<V>>)
    requires Inv(s) && f in s.callers && s.callers[f].Parked?
    requires l in s.callers && s.callers[l].Removed? && s.callers[l].slot == s.callers[f].slot
    ensures ValidRun(s, run) && Cancel(f) !in run
    ensures f in After(s, run).callers && After(s, run).callers[f].Answered?
  {
    var s1 := Apply(s, NotifyWaiters(l));
    assert s1.callers[f] == Woken(s.callers[f].slot);
    var s2 := Apply(s1, Return(f));
    run := [NotifyWaiters(l), Return(f)];
    assert run[1..][1..] == [];
    assert ValidRun(s2, []) && After(s2, []) == s2;
    assert ValidRun(s1, run[1..]) && After(s1, run[1..]) == s2;
  }

  /** A parked follower can still return if and only if its leader's notify step is still to come. */
  lemma ReturnsIffRegisteredInTime<V>(s: State<V>, f: Tid)
    requires Inv(s) && f in s.callers && s.callers[f].Parked?
    ensures !s.slots[s.callers[f].slot].notified <==>
            exists run: seq<Step<V>> :: ValidRun(s, run) && Cancel(f) !in run &&
              f in After(s, run).callers && After(s, run).callers[f].Answered?
  {
    if s.slots[s.callers[f].slot].notified {
      forall run: seq<Step<V>> | ValidRun(s, run) && Cancel(f) !in run ensures TooLate(After(s, run), f) {
        LateFollowerStuck(s, f, run);
      }
    } else {
      var run := EarlyFollowerReturns(s, f);
    }
  }

  lemma Cons<V>(s: State<V>, step: Step<V>, r: State<V>, rest: seq<Step<V>>, end: State<V>)
    requires Enabled(s, step) && Apply(s, step) == r && ValidRun(r, rest) && After(r, rest) == end
    ensures ValidRun(s, [step] + rest) && After(s, [step] + rest) == end
  {
    assert ([step] + rest)[1..] == rest;
  }

  /** Such a follower exists: it acquires while the leader runs and registers after the notify. */
  lemma LateFollowerExists<V>(v: V) returns (run: seq<Step<V>>)
    ensures ValidRun(Init<V>(), run)
    ensures var s := After(Init<V>(), run); TooLate(s, 1) && s.slots[s.callers[1].slot].result == Some(v)
  {
    var s3 := State(map["k" := 0], map[0 := Slot(Some(v), false)], map[0 := Stored("k", 0, v), 1 := Following(0)]);
    var tail, end := LateTail(v, s3);
    var s2 := State(map["k" := 0], map[0 := Slot(None, false)], map[0 := Producing("k", 0), 1 := Following(0)]);
    Cons(s2, Store(0, v), s3, tail, end);
    var s1 := s2.(callers := map[0 := Producing("k", 0)]);
    Cons(s1, Acquire(1, "k", 1), s2, [Store(0, v)] + tail, end);
    run := [Acquire(0, "k", 0)] + ([Acquire(1, "k", 1)] + ([Store(0, v)] + tail));
    Cons(Init<V>(), Acquire(0, "k", 0), s1, [Acquire(1, "k", 1)] + ([Store(0, v)] + tail), end);
  }

  lemma LateTail<V>(v: V, s: State<V>) returns (run: seq<Step<V>>, end: State<V>)
    requires s == State(map["k" := 0], map[0 := Slot(Some(v), false)], map[0 := Stored("k", 0, v), 1 := Following(0)])
    ensures ValidRun(s, run) && After(s, run) == end
    ensures TooLate(end, 1) && end.slots[end.callers[1].slot].result == Some(v)
  {
    var s4 := State(map[], map[0 := Slot(Some(v), false)], map[0 := Removed(0, Some(v)), 1 := Following(0)]);
    var s5 := State(map[], map[0 := Slot(Some(v), true)], map[0 := Led(0, Some(v)), 1 := Following(0)]);
    end := s5.(callers := map[0 := Led(0, Some(v)), 1 := Parked(0)]);
    Cons(s5, Register(1), end, [], end);
    Cons(s4, NotifyWaiters(0), s5, [Register(1)] + [], end);
    run := [Remove(0)] + ([NotifyWaiters(0)] + ([Register(1)] + []));
    Cons(s, Remove(0), s4, [NotifyWaiters(0)] + ([Register(1)] + []), end);
  }
}
