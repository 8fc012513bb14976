/**
 Channel mode: the dispatch starts without fds, so the first refresh runs its scale-up branch over
 every slot.  It keeps exactness if and only if none of those slots is in use then; with idle
 workers it queues each of them a second time.
 */
module DispatchChannels {
  import opened Dispatch
  import opened DispatchExact
  import opened DispatchRuns
  import opened ThreadDispatchObject

  /** Before the first scale-up: no fds were known, and the refresh in progress found none before it. */
  ghost predicate First(s: State) {
    && s.channels && !s.reaper.GrownOwing?
    && (s.reaper.Resting? ==> s.fds == [])
    && ((s.reaper.Scanning? || s.reaper.Owing? || s.reaper.Growing?) ==> s.reaper.prevLen == 0)
  }

  lemma FirstStep(s: State, step: Step)
    requires s.core.Valid() && First(s) && Enabled(s, step) && !step.Grow?
    ensures First(Apply(s, step)) && Clean(s, step)
  {
  }

  /** Until the first scale-up every channel-mode run is exact. */
  lemma {:induction false} ExactUntilGrow(s: State, run: seq<Step>)
    requires Exact(s) && First(s) && ValidRun(s, run) && Grow !in run
    ensures CleanRun(s, run) && Exact(After(s, run)) && First(After(s, run))
    decreases |run|
  {
    if run != [] {
      FirstStep(s, run[0]);
      StepExactIff(s, run[0]);
      ExactUntilGrow(Apply(s, run[0]), run[1..]);
    }
  }

  /** No slot below the new length is queued, held or in the reaper's hands. */
  ghost predicate NoneInUseBelow(s: State)
    requires s.reaper.Growing?
  {
    forall i: nat :: i < s.reaper.newLen && i < s.core.Cap() ==> !InUse(s, i)
  }

  lemma FirstGrowIff(s: State)
    requires Exact(s) && First(s) && Enabled(s, Grow)
    ensures Exact(Apply(s, Grow)) <==> NoneInUseBelow(s)
  {
    GrowExactIff(s);
    if s.reaper.newLen > 0 {
      forall i: nat ensures i in Grown(s) <==> i < s.reaper.newLen && i < s.core.Cap() {
        if i < s.reaper.newLen && i < s.core.Cap() { assert Grown(s)[i] == i; }
      }
    }
  }

  /** From the start of channel mode, whatever runs before it, the first refresh keeps exactness if and only if no
      slot below the new length is in use when its scale-up branch runs. */
  lemma FirstChannelRefreshIff(quota: seq<nat>, run: seq<Step>)
    requires ValidRun(Init(quota, true), run) && Grow !in run && Enabled(After(Init(quota, true), run), Grow)
    ensures ExactThroughout(Init(quota, true), run)
    ensures Exact(Apply(After(Init(quota, true), run), Grow)) <==> NoneInUseBelow(After(Init(quota, true), run))
  {
    InitExact(quota, true);
    ExactUntilGrow(Init(quota, true), run);
    RunExactIff(Init(quota, true), run);
    FirstGrowIff(After(Init(quota, true), run));
  }

  /** A queued slot below the new length is queued twice afterwards. */
  lemma FirstGrowDoubles(s: State, i: nat)
    requires Exact(s) && First(s) && Enabled(s, Grow) && i < s.reaper.newLen && i in s.core.queue
    ensures multiset(Apply(s, Grow).core.queue)[i] >= 2 && !Exact(Apply(s, Grow))
  {
    FirstGrowIff(s);
    assert i < s.core.Cap() && InUse(s, i);
    assert Grown(s)[i] == i;
    assert i in multiset(Grown(s)) && i in multiset(s.core.queue);
    assert multiset(Apply(s, Grow).core.queue) == multiset(s.core.queue) + multiset(Grown(s));
  }

  lemma InitRefreshed(quota: seq<nat>)
    ensures var c := Init(quota, true).core;
            Refreshed(c, 0, |quota|) == c.(queue := Slots(|quota|) + Slots(|quota|), permits := 2 * |quota|)
  {
    var c, n := Init(quota, true).core, |quota|;
    assert Revivable(c, 0, n) == [];
    assert Span(0, n) == Slots(n);
    ResetNothing(c, n);
  }

  lemma ResetNothing(c: Core, n: nat)
    requires c.Valid() && n == c.Cap() && c.unhealthy == seq(n, i => false) && c.served == seq(n, i => 0)
    ensures ResetBelow(c, n) == c
  {
    ResetBelowMeaning(c, n);
    assert ResetBelow(c, n).unhealthy == c.unhealthy && ResetBelow(c, n).served == c.served;
  }

  /** For any number of workers: a refresh right after start-up queues every slot twice and doubles the permits. */
  lemma RefreshDoublesQueue(quota: seq<nat>, dummies: seq<PipeId>) returns (run: seq<Step>)
    requires |dummies| == |quota|
    ensures ValidRun(Init(quota, true), run)
    ensures var s := After(Init(quota, true), run);
            && s.core.queue == Slots(|quota|) + Slots(|quota|) && s.core.permits == 2 * |quota|
            && s.reaper == Resting && s.tasks == map[]
  {
    var o := Init(quota, true);
    var r := RefreshIsRun(o, o, dummies);
    InitRefreshed(quota);
    ReachedByRun(o, r);
    run :| ValidRun(o, run) && After(o, run) == r;
  }

  /** With one worker, two requests hold it at once after that refresh. */
  lemma ChannelTwoHolders(dummy: PipeId) returns (run: seq<Step>)
    ensures ValidRun(Init([0], true), run)
    ensures var s := After(Init([0], true), run);
            0 in s.tasks && 1 in s.tasks && s.tasks[0] == Claimed(0) && s.tasks[1] == Claimed(0)
  {
    var o := Init([0], true);
    var s := RefreshIsRun(o, o, [dummy]);
    InitRefreshed([0]);
    assert Slots(1) + Slots(1) == [0, 0];
    s := Claim(o, s, 0);
    assert [0, 0][..1] == [0];
    s := Claim(o, s, 1);
    ReachedByRun(o, s);
    run :| ValidRun(o, run) && After(o, run) == s;
  }
}
