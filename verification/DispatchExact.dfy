/**
 Slot conservation and exclusivity.  They hold along a run exactly when every slot that
 `refresh_fds` puts back into circulation was out of circulation; without that they fail.
 */
module DispatchExact {
  import opened Util
  import opened Dispatch
  import opened DispatchCover

  ghost predicate Holds(s: State, t: Tid, i: nat) {
    t in s.tasks && Holding(s.tasks[t]) && s.tasks[t].idx == i
  }

  ghost predicate Held(s: State, i: nat) { exists t :: Holds(s, t, i) }

  /** The slot is queued, in some request's hands, or in the reaper's. */
  ghost predicate InUse(s: State, i: nat) {
    i in s.core.queue || i in Revived(s.reaper) || Held(s, i)
  }

  /** The scale-up branch of the refresh in progress has yet to add this slot. */
  ghost predicate Joining(s: State, i: nat) {
    (s.reaper.Scanning? || s.reaper.Owing? || s.reaper.Growing?) && s.reaper.prevLen <= i < s.reaper.newLen
  }

  ghost predicate QueueProper(s: State) {
    NoDup(s.core.queue) && forall i :: i in s.core.queue ==> i < s.core.Cap()
  }

  ghost predicate RevivedProper(s: State) {
    && NoDup(Revived(s.reaper))
    && (forall i :: i in Revived(s.reaper) ==> i < s.core.Cap() && i < s.reaper.at && i !in s.core.queue)
  }

  ghost predicate HeldProper(s: State) {
    && (forall t :: t in s.tasks && Holding(s.tasks[t]) ==>
          s.tasks[t].idx < s.core.Cap() && s.tasks[t].idx !in s.core.queue && s.tasks[t].idx !in Revived(s.reaper))
    && (forall t, u :: t in s.tasks && u in s.tasks && t != u && Holding(s.tasks[t]) && Holding(s.tasks[u]) ==>
          s.tasks[t].idx != s.tasks[u].idx)
  }

  /** A slot nobody uses is flagged, so that a refresh revives it, or is about to be added. */
  ghost predicate NoneLost(s: State)
    requires s.core.Valid()
  {
    forall i: nat :: i < s.core.Cap() ==> InUse(s, i) || s.core.Flagged(i) || Joining(s, i)
  }

  /** Permits account exactly for the queue, and no `get_idle` ever finds it empty. */
  ghost predicate Balanced(s: State) {
    && |s.core.queue| == s.core.permits + |Owers(s.tasks)| + ReaperOwes(s.reaper)
    && (forall t :: t in s.tasks ==> !s.tasks[t].Restoring?)
  }

  ghost predicate Exact(s: State) {
    && s.core.Valid() && QueueProper(s) && RevivedProper(s) && HeldProper(s) && NoneLost(s) && Balanced(s)
  }

  /** The step puts back into circulation only slots that were out of it. */
  ghost predicate Clean(s: State, step: Step)
    requires s.core.Valid() && Enabled(s, step)
  {
    match step
    case Scan => s.reaper.at < s.reaper.prevLen && s.core.Flagged(s.reaper.at) ==> !InUse(s, s.reaper.at)
    case Grow =>
      s.reaper.prevLen < s.reaper.newLen && s.reaper.prevLen <= s.core.Cap() ==>
        forall i :: i in Grown(s) ==> !InUse(s, i)
    case _ => true
  }

  lemma PushMissingAll(c: Core, revived: seq<nat>)
    requires NoDup(revived) && forall i :: i in revived ==> i !in c.queue
    ensures c.PushMissing(revived).queue == c.queue + revived
  {
    if revived != [] {
      var k := |revived| - 1;
      NoDupPop(revived);
      PushMissingAll(c, revived[..k]);
      assert revived == revived[..k] + [revived[k]];
    } else {
      assert c.queue + revived == c.queue;
    }
  }

  // ------------------------------------------------------------------ one step at a time

  /** A permit in hand finds a queued slot. */
  lemma PopFinds(s: State, t: Tid)
    requires Balanced(s) && t in s.tasks && s.tasks[t].Acquired?
    ensures s.core.queue != []
  {
    assert t in Owers(s.tasks);
  }

  /** A request future moves a permit, a queued slot and what it owes together. */
  lemma TaskPermits(s: State, step: Step)
    requires s.core.Valid() && Enabled(s, step) && ByTask(step) && (step.Pop? ==> s.core.queue != [])
    requires step.t in s.tasks ==> !s.tasks[step.t].Restoring?
    ensures var r := Apply(s, step);
            && step.t in r.tasks && !r.tasks[step.t].Restoring? && r.reaper == s.reaper
            && |r.core.queue| - r.core.permits - One(Owes(r.tasks[step.t])) ==
               |s.core.queue| - s.core.permits - One(step.t in s.tasks && Owes(s.tasks[step.t]))
  {
  }

  /** Steps of request futures and workers keep the balance. */
  lemma TaskBalance(s: State, step: Step)
    requires Exact(s) && Enabled(s, step) && ByTask(step)
    ensures Balanced(Apply(s, step))
  {
    if step.Pop? { PopFinds(s, step.t); }
    TaskPermits(s, step);
    TasksAfter(s, step);
    OwersAfter(s.tasks, step.t, Apply(s, step).tasks[step.t]);
  }

  /** A request future keeps what it holds, pops the back of the queue, pushes what it held, or
      lets go of it. */
  ghost predicate SlotMove(s: State, r: State, t: Tid) {
    && r.core.Cap() == s.core.Cap() && r.reaper == s.reaper
    && t in r.tasks && r.tasks == s.tasks[t := r.tasks[t]]
    && (if Holding(r.tasks[t]) then
          || (r.core.queue == s.core.queue && Holds(s, t, r.tasks[t].idx))
          || (s.core.queue != [] && r.core.queue == s.core.queue[..|s.core.queue| - 1] &&
              r.tasks[t].idx == s.core.queue[|s.core.queue| - 1] && !(t in s.tasks && Holding(s.tasks[t])))
        else
          || r.core.queue == s.core.queue
          || (t in s.tasks && Holding(s.tasks[t]) && r.core.queue == s.core.queue + [s.tasks[t].idx]))
  }

  lemma TaskMovesSlot(s: State, step: Step)
    requires s.core.Valid() && Enabled(s, step) && ByTask(step)
    ensures SlotMove(s, Apply(s, step), step.t)
  {
  }

  lemma HeldAfterMove(s: State, r: State, t: Tid)
    requires QueueProper(s) && RevivedProper(s) && HeldProper(s) && SlotMove(s, r, t)
    ensures HeldProper(r)
  {
    if Holding(r.tasks[t]) && !Holds(s, t, r.tasks[t].idx) {
      NoDupPop(s.core.queue);
      assert s.core.queue[|s.core.queue| - 1] in s.core.queue;
    }
  }

  lemma QueueAfterMove(s: State, r: State, t: Tid)
    requires QueueProper(s) && RevivedProper(s) && HeldProper(s) && SlotMove(s, r, t)
    ensures QueueProper(r) && RevivedProper(r)
  {
    if s.core.queue != [] { NoDupPop(s.core.queue); }
    if t in s.tasks && Holding(s.tasks[t]) { NoDupAppend(s.core.queue, s.tasks[t].idx); }
    forall i | i in r.core.queue
      ensures i in s.core.queue || (t in s.tasks && Holding(s.tasks[t]) && i == s.tasks[t].idx)
    {
    }
  }

  lemma FlagsStay(s: State, step: Step, i: nat)
    requires s.core.Valid() && Enabled(s, step) && ByTask(step) && i < s.core.Cap() && s.core.Flagged(i)
    ensures Apply(s, step).core.Cap() == s.core.Cap() && Apply(s, step).core.Flagged(i)
  {
  }

  /** A slot let go without being queued is flagged. */
  lemma LetGoFlagged(s: State, step: Step)
    requires s.core.Valid() && Enabled(s, step) && ByTask(step)
    requires step.t in s.tasks && Holding(s.tasks[step.t]) && s.tasks[step.t].idx < s.core.Cap()
    ensures var r := Apply(s, step);
            && r.core.Cap() == s.core.Cap() && step.t in r.tasks
            && (Holding(r.tasks[step.t]) || r.core.queue != s.core.queue || r.core.Flagged(s.tasks[step.t].idx))
  {
  }

  /** Where a slot in use is after a request future moves. */
  lemma StaysOrMoves(s: State, r: State, t: Tid, i: nat)
    requires SlotMove(s, r, t) && InUse(s, i)
    ensures InUse(r, i) || (t in s.tasks && Holding(s.tasks[t]) && !Holding(r.tasks[t]) && r.core.queue == s.core.queue
                            && s.tasks[t].idx == i)
  {
    if i in s.core.queue {
      if i !in r.core.queue {
        assert s.core.queue == s.core.queue[..|s.core.queue| - 1] + [s.core.queue[|s.core.queue| - 1]];
        assert Holds(r, t, i);
      }
    } else if Held(s, i) {
      var u :| Holds(s, u, i);
      if u != t || (Holding(r.tasks[t]) && r.core.queue == s.core.queue) { assert Holds(r, u, i); }
    }
  }

  lemma NoneLostAfterTask(s: State, step: Step)
    requires Exact(s) && Enabled(s, step) && ByTask(step)
    ensures NoneLost(Apply(s, step))
  {
    var r := Apply(s, step);
    TaskMovesSlot(s, step);
    if step.t in s.tasks && Holding(s.tasks[step.t]) { LetGoFlagged(s, step); }
    forall i: nat | i < s.core.Cap() ensures InUse(r, i) || r.core.Flagged(i) || Joining(r, i) {
      if InUse(s, i) {
        StaysOrMoves(s, r, step.t, i);
      } else if s.core.Flagged(i) {
        FlagsStay(s, step, i);
      }
    }
  }

  lemma TaskKeepsExact(s: State, step: Step)
    requires Exact(s) && Enabled(s, step) && ByTask(step)
    ensures Exact(Apply(s, step))
  {
    TaskBalance(s, step);
    TaskMovesSlot(s, step);
    QueueAfterMove(s, Apply(s, step), step.t);
    HeldAfterMove(s, Apply(s, step), step.t);
    NoneLostAfterTask(s, step);
  }

  /** What a slot's users are does not depend on the pipes, the flags or the reaper's phase. */
  lemma SameUsers(s: State, r: State)
    requires s.tasks == r.tasks
    ensures forall i :: Held(s, i) <==> Held(r, i)
  {
    forall i ensures Held(s, i) <==> Held(r, i) {
      if Held(s, i) { var t :| Holds(s, t, i); assert Holds(r, t, i); }
      if Held(r, i) { var t :| Holds(r, t, i); assert Holds(s, t, i); }
    }
  }

  lemma QuietStepKeepsExact(s: State, step: Step)
    requires Exact(s) && Enabled(s, step)
    requires step.WorkerTake? || step.WorkerEmit? || step.MarkOverQuota? || step.InstallFds? ||
             step.AddRevivedPermits? || step.AddGrownPermits?
    ensures Exact(Apply(s, step))
  {
    var r := Apply(s, step);
    SameUsers(s, r);
    forall i: nat | i < s.core.Cap() ensures InUse(r, i) || r.core.Flagged(i) || Joining(r, i) {
      assert InUse(s, i) || s.core.Flagged(i) || Joining(s, i);
    }
  }

  /** Every revived slot enters the queue exactly once, and the permits owed are as many. */
  lemma PushRevivedKeepsExact(s: State)
    requires Exact(s) && Enabled(s, PushRevived)
    ensures Exact(Apply(s, PushRevived))
    ensures Apply(s, PushRevived).core.queue == s.core.queue + s.reaper.revived
  {
    var r := Apply(s, PushRevived);
    PushMissingAll(s.core, s.reaper.revived);
    NoDupJoin(s.core.queue, s.reaper.revived);
    SameUsers(s, r);
    forall i: nat | i < s.core.Cap() ensures InUse(r, i) || r.core.Flagged(i) || Joining(r, i) {
      assert InUse(s, i) || s.core.Flagged(i) || Joining(s, i);
    }
  }

  lemma ScanKeepsExact(s: State)
    requires Exact(s) && Enabled(s, Scan) && Clean(s, Scan)
    ensures Exact(Apply(s, Scan))
  {
    var r := Apply(s, Scan);
    var Scanning(prevLen, newLen, at, revived) := s.reaper;
    SameUsers(s, r);
    NoDupJoin(revived, [at]);
    forall t | t in s.tasks && Holding(s.tasks[t]) ensures s.tasks[t].idx !in r.reaper.revived {
      assert Holds(s, t, s.tasks[t].idx);
    }
    forall i: nat | i < s.core.Cap() ensures InUse(r, i) || r.core.Flagged(i) || Joining(r, i) {
      assert InUse(s, i) || s.core.Flagged(i) || Joining(s, i);
      if i == at && !InUse(s, i) && at < prevLen { assert at in r.reaper.revived; }
    }
  }

  /** Scanning a slot keeps exactness if and only if a flagged slot it revives was out of use. */
  lemma ScanExactIff(s: State)
    requires Exact(s) && Enabled(s, Scan)
    ensures Exact(Apply(s, Scan)) <==> Clean(s, Scan)
  {
    if Clean(s, Scan) {
      ScanKeepsExact(s);
    } else {
      var r := Apply(s, Scan);
      assert s.reaper.at in r.reaper.revived;
      if Held(s, s.reaper.at) {
        var t :| Holds(s, t, s.reaper.at);
        assert Holds(r, t, s.reaper.at);
      }
    }
  }

  lemma GrowKeepsExact(s: State)
    requires Exact(s) && Enabled(s, Grow) && Clean(s, Grow)
    ensures Exact(Apply(s, Grow))
  {
    var r := Apply(s, Grow);
    SameUsers(s, r);
    if s.reaper.prevLen < s.reaper.newLen && s.reaper.prevLen <= s.core.Cap() {
      NoDupJoin(s.core.queue, Grown(s));
      assert r.core.queue == s.core.queue + Grown(s);
      forall t | t in s.tasks && Holding(s.tasks[t]) ensures s.tasks[t].idx !in Grown(s) {
        assert Holds(s, t, s.tasks[t].idx);
      }
    }
    forall i: nat | i < s.core.Cap() ensures InUse(r, i) || r.core.Flagged(i) || Joining(r, i) {
      assert InUse(s, i) || s.core.Flagged(i) || Joining(s, i);
      if Joining(s, i) { assert Grown(s)[i - s.reaper.prevLen] == i; }
    }
  }

  lemma GrowExactIff(s: State)
    requires Exact(s) && Enabled(s, Grow)
    ensures Exact(Apply(s, Grow)) <==> Clean(s, Grow)
  {
    if Clean(s, Grow) {
      GrowKeepsExact(s);
    } else {
      var r := Apply(s, Grow);
      var i :| i in Grown(s) && InUse(s, i);
      NoDupJoin(s.core.queue, Grown(s));
      if Held(s, i) {
        var t :| Holds(s, t, i);
        assert Holds(r, t, i) && i in r.core.queue;
      }
    }
  }

  /** From an exact state, a step leads to an exact state if and only if it is clean. */
  lemma StepExactIff(s: State, step: Step)
    requires Exact(s) && Enabled(s, step)
    ensures Exact(Apply(s, step)) <==> Clean(s, step)
  {
    if ByTask(step) { TaskKeepsExact(s, step); }
    else if step.Scan? { ScanExactIff(s); }
    else if step.Grow? { GrowExactIff(s); }
    else if step.PushRevived? { PushRevivedKeepsExact(s); }
    else { QuietStepKeepsExact(s, step); }
  }

  // ------------------------------------------------------------------ whole runs

  ghost predicate CleanRun(s: State, run: seq<Step>)
    requires s.core.Valid() && ValidRun(s, run)
    decreases |run|
  {
    run == [] || (Clean(s, run[0]) && CleanRun(Apply(s, run[0]), run[1..]))
  }

  /** Every state along the run is exact. */
  ghost predicate ExactThroughout(s: State, run: seq<Step>)
    requires s.core.Valid() && ValidRun(s, run)
    decreases |run|
  {
    Exact(s) && (run == [] || ExactThroughout(Apply(s, run[0]), run[1..]))
  }

  lemma InitExact(quota: seq<nat>, channels: bool)
    ensures Exact(Init(quota, channels))
  {
    var s := Init(quota, channels);
    assert Owers(s.tasks) == {};
    forall i: nat | i < |quota| ensures i in s.core.queue { assert s.core.queue[i] == i; }
  }

  lemma {:induction false} RunExactIff(s: State, run: seq<Step>)
    requires Exact(s) && ValidRun(s, run)
    ensures ExactThroughout(s, run) <==> CleanRun(s, run)
    ensures CleanRun(s, run) ==> Exact(After(s, run))
    decreases |run|
  {
    if run != [] {
      StepExactIff(s, run[0]);
      if Clean(s, run[0]) {
        RunExactIff(Apply(s, run[0]), run[1..]);
      } else {
        assert !ExactThroughout(Apply(s, run[0]), run[1..]);
      }
    }
  }

  /** Slot conservation and exclusivity hold in every state of a run if and only if each refresh
      found the slots it put back out of circulation. */
  lemma ConservationIff(quota: seq<nat>, channels: bool, run: seq<Step>)
    requires ValidRun(Init(quota, channels), run)
    ensures ExactThroughout(Init(quota, channels), run) <==> CleanRun(Init(quota, channels), run)
  {
    InitExact(quota, channels);
    RunExactIff(Init(quota, channels), run);
  }

  /** What exactness means for one slot: it is in exactly one place. */
  lemma OnePlace(s: State, i: nat)
    requires Exact(s) && i < s.core.Cap() && !Joining(s, i)
    ensures i in s.core.queue ==> !Held(s, i) && i !in Revived(s.reaper)
    ensures i in Revived(s.reaper) ==> !Held(s, i)
    ensures forall t, u :: Holds(s, t, i) && Holds(s, u, i) ==> t == u
    ensures var q := s.core.queue; forall j, k :: 0 <= j < |q| && 0 <= k < |q| && q[j] == i && q[k] == i ==> j == k
    ensures !InUse(s, i) ==> s.core.Flagged(i)
  {
  }

  /** A scan that reaches an unused slot takes it for revival and leaves it pickable. */
  lemma UnusedSlotRevived(s: State)
    requires Exact(s) && Enabled(s, Scan) && s.reaper.at < s.reaper.prevLen
    requires !InUse(s, s.reaper.at)
    ensures var r := Apply(s, Scan);
            Exact(r) && r.reaper.revived == s.reaper.revived + [s.reaper.at] && r.core.Pickable(s.reaper.at)
  {
    ScanExactIff(s);
  }
}
