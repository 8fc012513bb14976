/**
 One holder per slot.  Whatever the permits do, no slot is queued twice, queued while held, or held
 twice along exactly those runs in which `refresh_fds` pushes no slot that is held, and its scale-up
 branch none that is held or queued.
 */
module DispatchExclusive {
  import opened Util
  import opened Dispatch
  import opened DispatchCover
  import opened DispatchExact

  /** Every queued slot is queued once, and every held slot is held once and not queued. */
  ghost predicate Exclusive(s: State) {
    && s.core.Valid() && QueueProper(s)
    && (forall i :: i in Revived(s.reaper) ==> i < s.core.Cap())
    && (forall t :: t in s.tasks && Holding(s.tasks[t]) ==>
          s.tasks[t].idx < s.core.Cap() && s.tasks[t].idx !in s.core.queue)
    && (forall t, u :: t in s.tasks && u in s.tasks && t != u && Holding(s.tasks[t]) && Holding(s.tasks[u]) ==>
          s.tasks[t].idx != s.tasks[u].idx)
  }

  /** The scale-up branch is about to queue slots. */
  predicate Grows(s: State) {
    s.reaper.Growing? && s.reaper.prevLen < s.reaper.newLen && s.reaper.prevLen <= s.core.Cap()
  }

  /** The step queues only slots that are not held, and grows by slots that are not queued either. */
  ghost predicate Fair(s: State, step: Step)
    requires s.core.Valid() && Enabled(s, step)
  {
    match step
    case PushRevived => forall i :: i in s.reaper.revived && i !in s.core.queue ==> !Held(s, i)
    case Grow => Grows(s) ==> forall i :: i in Grown(s) ==> i !in s.core.queue && !Held(s, i)
    case _ => true
  }

  lemma ExactIsExclusive(s: State)
    requires Exact(s)
    ensures Exclusive(s)
  {
  }

  lemma MoveKeepsExclusive(s: State, r: State, t: Tid)
    requires Exclusive(s) && SlotMove(s, r, t) && r.core.Valid()
    ensures Exclusive(r)
  {
    if s.core.queue != [] {
      NoDupPop(s.core.queue);
      assert s.core.queue[|s.core.queue| - 1] in s.core.queue;
    }
    if t in s.tasks && Holding(s.tasks[t]) { NoDupAppend(s.core.queue, s.tasks[t].idx); }
    forall i | i in r.core.queue
      ensures i in s.core.queue || (t in s.tasks && Holding(s.tasks[t]) && i == s.tasks[t].idx)
    {
    }
  }

  lemma TaskKeepsExclusive(s: State, step: Step)
    requires Exclusive(s) && Enabled(s, step) && ByTask(step)
    ensures Exclusive(Apply(s, step))
  {
    TaskMovesSlot(s, step);
    MoveKeepsExclusive(s, Apply(s, step), step.t);
  }

  lemma {:induction false} PushMissingOnce(c: Core, revived: seq<nat>)
    requires NoDup(c.queue)
    ensures NoDup(c.PushMissing(revived).queue)
    decreases |revived|
  {
    if revived != [] {
      var k := |revived| - 1;
      PushMissingOnce(c, revived[..k]);
      var rest := c.PushMissing(revived[..k]).queue;
      if revived[k] !in rest { NoDupAppend(rest, revived[k]); }
    }
  }

  /** Queueing slots on top of an exclusive state stays exclusive exactly if each comes once and nobody holds it. */
  lemma MoreQueuedIff(s: State, r: State, more: set<nat>)
    requires Exclusive(s) && r.core.Valid() && r.core.Cap() == s.core.Cap() && r.tasks == s.tasks &&
             Revived(r.reaper) == []
    requires forall i: nat :: i in r.core.queue <==> i in s.core.queue || i in more
    requires forall i :: i in more ==> i < s.core.Cap() && i !in s.core.queue
    requires NoDup(r.core.queue)
    ensures Exclusive(r) <==> forall i :: i in more ==> !Held(s, i)
  {
    forall t | t in s.tasks && Holding(s.tasks[t]) ensures Held(s, s.tasks[t].idx) {
      assert Holds(s, t, s.tasks[t].idx);
    }
    forall i | i in more && Held(s, i) ensures !Exclusive(r) {
      var t :| Holds(s, t, i);
      assert r.tasks[t].idx in r.core.queue;
    }
  }

  lemma PushExclusiveIff(s: State)
    requires Exclusive(s) && Enabled(s, PushRevived)
    ensures Exclusive(Apply(s, PushRevived)) <==> Fair(s, PushRevived)
  {
    PushMissingOnce(s.core, s.reaper.revived);
    PushMissingMeaning(s.core, s.reaper.revived);
    assert Revived(s.reaper) == s.reaper.revived;
    var more := set i | i in s.reaper.revived && i !in s.core.queue;
    MoreQueuedIff(s, Apply(s, PushRevived), more);
  }

  lemma GrowExclusiveIff(s: State)
    requires Exclusive(s) && Enabled(s, Grow)
    ensures Exclusive(Apply(s, Grow)) <==> Fair(s, Grow)
  {
    if Grows(s) {
      if i :| i in Grown(s) && i in s.core.queue {
        QueuedTwice(s.core.queue, Grown(s), i);
      } else {
        NoDupJoin(s.core.queue, Grown(s));
        MoreQueuedIff(s, Apply(s, Grow), set i | i in Grown(s));
      }
    }
  }

  lemma QueuedTwice<T>(a: seq<T>, b: seq<T>, x: T)
    requires x in a && x in b
    ensures !NoDup(a + b)
  {
    var j :| 0 <= j < |a| && a[j] == x;
    var k :| 0 <= k < |b| && b[k] == x;
    assert (a + b)[j] == (a + b)[|a| + k];
  }

  lemma QuietKeepsExclusive(s: State, step: Step)
    requires Exclusive(s) && Enabled(s, step) && !ByTask(step) && !step.PushRevived? && !step.Grow?
    ensures Exclusive(Apply(s, step))
  {
    if step.Scan? {
      assert Revived(s.reaper) == s.reaper.revived;
      forall i | i in Apply(s, step).reaper.revived ensures i in s.reaper.revived || i == s.reaper.at {
      }
    }
  }

  /** From an exclusive state any step leads to an exclusive one if and only if it is fair. */
  lemma StepExclusiveIff(s: State, step: Step)
    requires Exclusive(s) && Enabled(s, step)
    ensures Exclusive(Apply(s, step)) <==> Fair(s, step)
  {
    if ByTask(step) { TaskKeepsExclusive(s, step); }
    else if step.PushRevived? { PushExclusiveIff(s); }
    else if step.Grow? { GrowExclusiveIff(s); }
    else { QuietKeepsExclusive(s, step); }
  }

  // ------------------------------------------------------------------ whole runs

  ghost predicate FairRun(s: State, run: seq<Step>)
    requires s.core.Valid() && ValidRun(s, run)
    decreases |run|
  {
    run == [] || (Fair(s, run[0]) && FairRun(Apply(s, run[0]), run[1..]))
  }

  ghost predicate ExclusiveThroughout(s: State, run: seq<Step>)
    requires s.core.Valid() && ValidRun(s, run)
    decreases |run|
  {
    Exclusive(s) && (run == [] || ExclusiveThroughout(Apply(s, run[0]), run[1..]))
  }

  lemma {:induction false} RunExclusiveIff(s: State, run: seq<Step>)
    requires Exclusive(s) && ValidRun(s, run)
    ensures ExclusiveThroughout(s, run) <==> FairRun(s, run)
    ensures FairRun(s, run) ==> Exclusive(After(s, run))
    decreases |run|
  {
    if run != [] {
      StepExclusiveIff(s, run[0]);
      if Fair(s, run[0]) {
        RunExclusiveIff(Apply(s, run[0]), run[1..]);
      } else {
        assert !ExclusiveThroughout(Apply(s, run[0]), run[1..]);
      }
    }
  }

  /** From start-up in either mode, every slot has at most one holder, and none while it is queued, in every state of
      a run if and only if the run is fair. */
  lemma OneHolderIff(quota: seq<nat>, channels: bool, run: seq<Step>)
    requires ValidRun(Init(quota, channels), run)
    ensures ExclusiveThroughout(Init(quota, channels), run) <==> FairRun(Init(quota, channels), run)
  {
    InitExact(quota, channels);
    RunExclusiveIff(Init(quota, channels), run);
  }
}
