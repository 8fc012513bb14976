/**
 What every run of the dispatch protocol keeps, with no side condition: the permits cover the
 idle queue, `get_idle` stops, and every permit it consumed is accounted for.
 */
module DispatchCover {
  import opened Util
  import opened Dispatch

  ghost function Owers(tasks: map<Tid, Task>): set<Tid> {
    set t | t in tasks && Owes(tasks[t])
  }

  ghost function Pending(tasks: map<Tid, Task>): set<Tid> {
    set t | t in tasks && Undecided(tasks[t])
  }

  /** Permits plus the permits in transit cover the queue. */
  ghost predicate Covered(s: State) {
    |s.core.queue| <= s.core.permits + |Owers(s.tasks)| + ReaperOwes(s.reaper)
  }

  /** No call has skipped its full allowance and is still running. */
  ghost predicate SkipsBounded(s: State) {
    forall t :: t in s.tasks && (s.tasks[t].Waiting? || s.tasks[t].Acquired? || s.tasks[t].Popped?) ==>
      s.tasks[t].skips < MaxSkips(s.core.Cap())
  }

  /** Every consumed permit was handed out with a worker, restored, retired with its slot, or is
      still in the hands of a running `get_idle`. */
  ghost predicate PermitsAccounted(s: State) {
    s.tally.consumed == s.tally.handedOut + s.tally.restored + s.tally.retired + |Pending(s.tasks)|
  }

  ghost predicate CoverInv(s: State) {
    s.core.Valid() && Covered(s) && SkipsBounded(s) && PermitsAccounted(s)
  }

  lemma OwersAfter(tasks: map<Tid, Task>, t: Tid, x: Task)
    ensures |Owers(tasks[t := x])| == |Owers(tasks)| + One(Owes(x)) - One(t in tasks && Owes(tasks[t]))
  {
    assert Owers(tasks[t := x]) == if Owes(x) then Owers(tasks) + {t} else Owers(tasks) - {t};
    assert t in Owers(tasks) <==> t in tasks && Owes(tasks[t]);
  }

  lemma PendingAfter(tasks: map<Tid, Task>, t: Tid, x: Task)
    ensures |Pending(tasks[t := x])| == |Pending(tasks)| + One(Undecided(x)) - One(t in tasks && Undecided(tasks[t]))
  {
    assert Pending(tasks[t := x]) == if Undecided(x) then Pending(tasks) + {t} else Pending(tasks) - {t};
    assert t in Pending(tasks) <==> t in tasks && Undecided(tasks[t]);
  }

  lemma PushMissingGrowth(c: Core, revived: seq<nat>)
    ensures |c.PushMissing(revived).queue| <= |c.queue| + |revived|
  {
    if revived != [] {
      PushMissingGrowth(c, revived[..|revived| - 1]);
    }
  }

  lemma {:induction false} PushMissingMeaning(c: Core, revived: seq<nat>)
    ensures c.queue <= c.PushMissing(revived).queue
    ensures forall i :: i in c.PushMissing(revived).queue <==> i in c.queue || i in revived
    decreases |revived|
  {
    if revived != [] {
      var k := |revived| - 1;
      PushMissingMeaning(c, revived[..k]);
      assert revived == revived[..k] + [revived[k]];
    }
  }

  /** Steps on behalf of one request future; the others belong to workers and the reaper. */
  predicate ByTask(step: Step) { !OfPool(step) }

  /** A step moves at most the future it belongs to. */
  lemma TasksAfter(s: State, step: Step)
    requires s.core.Valid() && Enabled(s, step)
    ensures ByTask(step) ==> step.t in Apply(s, step).tasks &&
                             Apply(s, step).tasks == s.tasks[step.t := Apply(s, step).tasks[step.t]]
    ensures !ByTask(step) ==> Apply(s, step).tasks == s.tasks
  {
  }

  lemma CoveredByTask(s: State, step: Step)
    requires s.core.Valid() && Covered(s) && Enabled(s, step) && ByTask(step)
    ensures Covered(Apply(s, step))
  {
    TasksAfter(s, step);
    OwersAfter(s.tasks, step.t, Apply(s, step).tasks[step.t]);
  }

  lemma CoveredByPool(s: State, step: Step)
    requires s.core.Valid() && Covered(s) && Enabled(s, step) && !ByTask(step)
    ensures Covered(Apply(s, step))
  {
    TasksAfter(s, step);
    if step.PushRevived? { PushMissingGrowth(s.core, s.reaper.revived); }
  }

  lemma AccountedByTask(s: State, step: Step)
    requires s.core.Valid() && PermitsAccounted(s) && Enabled(s, step) && ByTask(step)
    ensures PermitsAccounted(Apply(s, step))
  {
    TasksAfter(s, step);
    PendingAfter(s.tasks, step.t, Apply(s, step).tasks[step.t]);
  }

  lemma SkipsByTask(s: State, step: Step)
    requires s.core.Valid() && SkipsBounded(s) && Enabled(s, step) && ByTask(step)
    ensures SkipsBounded(Apply(s, step))
  {
    TasksAfter(s, step);
  }

  lemma CountsByPool(s: State, step: Step)
    requires s.core.Valid() && Enabled(s, step) && !ByTask(step)
    ensures Apply(s, step).tally == s.tally && Apply(s, step).tasks == s.tasks &&
            Apply(s, step).core.Cap() == s.core.Cap()
  {
  }

  lemma CoverStep(s: State, step: Step)
    requires CoverInv(s) && Enabled(s, step)
    ensures CoverInv(Apply(s, step))
  {
    if ByTask(step) {
      CoveredByTask(s, step);
      SkipsByTask(s, step);
      AccountedByTask(s, step);
    } else {
      CoveredByPool(s, step);
      CountsByPool(s, step);
    }
  }

  /** In every reachable state the permits, together with those in transit, cover the idle queue;
      no `get_idle` exceeds its skip allowance; and no consumed permit is lost. */
  lemma {:induction false} AlwaysCovered(s: State, run: seq<Step>)
    requires CoverInv(s) && ValidRun(s, run)
    ensures CoverInv(After(s, run))
    decreases |run|
  {
    if run != [] {
      CoverStep(s, run[0]);
      AlwaysCovered(Apply(s, run[0]), run[1..]);
    }
  }

  lemma InitCovered(quota: seq<nat>, channels: bool)
    ensures CoverInv(Init(quota, channels))
  {
    var s := Init(quota, channels);
    assert Owers(s.tasks) == {} && Pending(s.tasks) == {};
  }

  /** No stranded idle worker: a queued slot with nobody in transit always has a permit to claim it. */
  lemma NoStrandedWorker(quota: seq<nat>, channels: bool, run: seq<Step>)
    requires ValidRun(Init(quota, channels), run)
    ensures var s := After(Init(quota, channels), run);
            s.core.queue != [] && Owers(s.tasks) == {} && ReaperOwes(s.reaper) == 0 ==> s.core.permits > 0
  {
    InitCovered(quota, channels);
    AlwaysCovered(Init(quota, channels), run);
  }

  /** What the tally counts: a permit is consumed by an acquire, and its slot is handed out or retired by the check, or
      the permit is restored. */
  lemma TallyMeaning(s: State, step: Step)
    requires s.core.Valid() && Enabled(s, step)
    ensures var r := Apply(s, step);
            && r.tally.consumed == s.tally.consumed + One(step.Acquire?)
            && r.tally.handedOut == s.tally.handedOut + One(step.Check? && r.tasks[step.t].Claimed?)
            && r.tally.retired == s.tally.retired + One(step.Check? && !r.tasks[step.t].Claimed?)
            && r.tally.restored == s.tally.restored + One(step.Restore?)
  {
  }

  /** When no `get_idle` is between its permit and its verdict, consumed permits split exactly into
      workers handed out, permits restored and slots taken out of circulation. */
  lemma PermitFates(quota: seq<nat>, channels: bool, run: seq<Step>)
    requires ValidRun(Init(quota, channels), run)
    ensures var s := After(Init(quota, channels), run);
            Pending(s.tasks) == {} ==> s.tally.consumed == s.tally.handedOut + s.tally.restored + s.tally.retired
    ensures var s := After(Init(quota, channels), run);
            forall t :: t in s.tasks && s.tasks[t].Waiting? ==> s.tasks[t].skips < 2 * Max(|quota|, 1)
  {
    InitCovered(quota, channels);
    AlwaysCovered(Init(quota, channels), run);
    CapConstant(Init(quota, channels), run);
  }

  lemma {:induction false} CapConstant(s: State, run: seq<Step>)
    requires s.core.Valid() && ValidRun(s, run)
    ensures After(s, run).core.quota == s.core.quota && After(s, run).channels == s.channels
    decreases |run|
  {
    if run != [] {
      CapConstant(Apply(s, run[0]), run[1..]);
    }
  }
}
