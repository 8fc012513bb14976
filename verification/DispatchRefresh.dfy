/**
 What a whole refresh does while everyone else keeps running: a slot out of use when the refresh
 installs its pipes stays out of use until it is put back, comes back exactly once, and comes back
 clean when its pipe was new or untouched.
 */
module DispatchRefresh {
  import opened Util
  import opened Dispatch
  import opened DispatchCover
  import opened DispatchExact
  import opened DispatchExclusive
  import opened DispatchIsolation

  // ------------------------------------------------------------------ out of use stays out of use

  /** Neither queued nor held. */
  ghost predicate Apart(s: State, i: nat) { i !in s.core.queue && !Held(s, i) }

  lemma MoveTakesUsed(s: State, r: State, t: Tid, i: nat)
    requires SlotMove(s, r, t) && !Apart(r, i)
    ensures !Apart(s, i)
  {
    if i in r.core.queue {
      if i !in s.core.queue { assert Holds(s, t, i); }
    } else {
      var u :| Holds(r, u, i);
      if u != t || Holds(s, t, i) { assert Holds(s, u, i); } else { assert i in s.core.queue; }
    }
  }

  /** Only a refresh that queues it ends a slot's being apart. */
  lemma ApartStays(s: State, step: Step, i: nat)
    requires s.core.Valid() && Enabled(s, step) && Apart(s, i)
    requires !(step.PushRevived? && i in s.reaper.revived) && (step.Grow? && Grows(s) ==> i !in Grown(s))
    ensures Apart(Apply(s, step), i)
  {
    var r := Apply(s, step);
    if ByTask(step) {
      TaskMovesSlot(s, step);
      if !Apart(r, i) { MoveTakesUsed(s, r, step.t, i); }
    } else {
      TasksAfter(s, step);
      SameUsers(s, r);
      if step.PushRevived? { PushMissingMeaning(s.core, s.reaper.revived); }
    }
  }

  /** Only its own scan or the scale-up branch takes an unused slot into use. */
  lemma UnusedStays(s: State, step: Step, i: nat)
    requires s.core.Valid() && Enabled(s, step) && !InUse(s, i) && !(step.Scan? && s.reaper.at == i)
    requires step.Grow? && Grows(s) ==> i !in Grown(s)
    ensures !InUse(Apply(s, step), i)
  {
    ApartStays(s, step, i);
  }

  // ------------------------------------------------------------------ the next refresh revives it exactly once

  /** The scan of the refresh in progress will take the slot, or has taken it. */
  ghost predicate Due(s: State, i: nat) {
    && s.core.Valid() && s.reaper.Scanning? && i < s.reaper.prevLen && i < ScanEnd(s)
    && ((s.reaper.at <= i && !InUse(s, i) && s.core.Flagged(i)) || i in s.reaper.revived)
  }

  lemma ReaperAlone(s: State, step: Step)
    requires s.core.Valid() && Enabled(s, step) && s.reaper.Scanning? && !step.Scan? && !step.PushRevived?
    ensures Apply(s, step).reaper == s.reaper && Apply(s, step).core.Cap() == s.core.Cap()
  {
  }

  lemma FlagStays(s: State, step: Step, i: nat)
    requires s.core.Valid() && Enabled(s, step) && i < s.core.Cap() && s.core.Flagged(i) &&
             !(step.Scan? && s.reaper.at == i)
    ensures Apply(s, step).core.Cap() == s.core.Cap() && Apply(s, step).core.Flagged(i)
  {
    if ByTask(step) { FlagsStay(s, step, i); }
  }

  lemma DueStep(s: State, step: Step, i: nat)
    requires Due(s, i) && Enabled(s, step) && !step.PushRevived?
    ensures Due(Apply(s, step), i)
  {
    if step.Scan? && s.reaper.at == i {
    } else {
      if !step.Scan? { ReaperAlone(s, step); }
      if s.core.Flagged(i) && s.reaper.at <= i && !InUse(s, i) {
        FlagStays(s, step, i);
        UnusedStays(s, step, i);
      }
    }
  }

  lemma {:induction false} DueRun(s: State, run: seq<Step>, i: nat)
    requires Due(s, i) && ValidRun(s, run) && PushRevived !in run
    ensures Due(After(s, run), i)
    decreases |run|
  {
    if run != [] {
      DueStep(s, run[0], i);
      DueRun(Apply(s, run[0]), run[1..], i);
    }
  }

  lemma {:induction false} CountOnce<T>(s: seq<T>, x: T)
    requires NoDup(s)
    ensures multiset(s)[x] == One(x in s)
    decreases |s|
  {
    if s != [] {
      var k := |s| - 1;
      NoDupPop(s);
      CountOnce(s[..k], x);
      assert s == s[..k] + [s[k]];
    }
  }

  lemma InstallMakesDue(s: State, newFds: seq<PipeId>, i: nat)
    requires Exact(s) && Enabled(s, InstallFds(newFds)) && !InUse(s, i)
    requires i < |s.fds| && i < |newFds| && i < s.core.Cap()
    ensures Exact(Apply(s, InstallFds(newFds))) && Due(Apply(s, InstallFds(newFds)), i) &&
            Taken(Apply(s, InstallFds(newFds)), i)
  {
    QuietStepKeepsExact(s, InstallFds(newFds));
    UnusedStays(s, InstallFds(newFds), i);
    FlagStays(s, InstallFds(newFds), i);
  }

  /** The slot was taken once by the scan, is queued exactly once by the push, and is one of the slots a permit is
      owed for. */
  ghost predicate RevivedOnce(a: State, r: State, i: nat) {
    && Exact(a) && Exact(r) && a.reaper.Scanning?
    && multiset(a.core.queue)[i] == 0 && multiset(a.reaper.revived)[i] == 1 && multiset(r.core.queue)[i] == 1
    && r.core.queue == a.core.queue + a.reaper.revived && ReaperOwes(r.reaper) == |a.reaper.revived|
    && !Held(r, i) && r.core.Pickable(i)
  }

  lemma PushQueuesOnce(a: State, i: nat)
    requires Due(a, i) && Taken(a, i) && Enabled(a, PushRevived)
    ensures RevivedOnce(a, Apply(a, PushRevived), i)
  {
    PushRevivedKeepsExact(a);
    CountOnce(a.core.queue, i);
    CountOnce(a.reaper.revived, i);
    CountOnce(Apply(a, PushRevived).core.queue, i);
  }

  /** From a resting exact state with an unused slot that the refresh knows: whatever runs between installing the
      pipes and queueing the revived slots, a clean refresh takes the slot once, queues it exactly once, and owes one
      permit per slot it took. */
  lemma NextRefreshRevives(s: State, newFds: seq<PipeId>, mid: seq<Step>, i: nat)
    requires Exact(s) && Enabled(s, InstallFds(newFds)) && !InUse(s, i)
    requires i < |s.fds| && i < |newFds| && i < s.core.Cap()
    requires ValidRun(Apply(s, InstallFds(newFds)), mid) && PushRevived !in mid &&
             CleanRun(Apply(s, InstallFds(newFds)), mid)
    requires Enabled(After(Apply(s, InstallFds(newFds)), mid), PushRevived)
    ensures var a := After(Apply(s, InstallFds(newFds)), mid); RevivedOnce(a, Apply(a, PushRevived), i)
  {
    InstallMakesDue(s, newFds, i);
    DueRun(Apply(s, InstallFds(newFds)), mid, i);
    ScannedUnflagged(Apply(s, InstallFds(newFds)), mid, i);
    PushQueuesOnce(After(Apply(s, InstallFds(newFds)), mid), i);
  }

  /** A slot the scan has taken is unflagged and stays so unless a request that holds it flags it. */
  ghost predicate Taken(s: State, i: nat) {
    Exact(s) && s.reaper.Scanning? && (i in s.reaper.revived ==> i < s.core.Cap() && s.core.Pickable(i))
  }

  lemma TakenStep(s: State, step: Step, i: nat)
    requires Taken(s, i) && Enabled(s, step) && Clean(s, step) && !step.PushRevived?
    ensures Taken(Apply(s, step), i)
  {
    StepExactIff(s, step);
    if !step.Scan? && i in s.reaper.revived { NobodyMarks(s, step, i); }
  }

  /** A request flags or counts on the slot it holds only. */
  lemma TaskMarksOwn(s: State, step: Step, i: nat)
    requires s.core.Valid() && Enabled(s, step) && ByTask(step) && s.core.Pickable(i) && !Holds(s, step.t, i)
    ensures Apply(s, step).reaper == s.reaper && Apply(s, step).core.Cap() == s.core.Cap() &&
            Apply(s, step).core.Pickable(i)
  {
  }

  /** Nobody else holds a slot in the reaper's hands, and the reaper marks while it rests. */
  lemma NobodyMarks(s: State, step: Step, i: nat)
    requires Exact(s) && Enabled(s, step) && s.reaper.Scanning? && !step.Scan? && !step.PushRevived?
    requires i in s.reaper.revived && s.core.Pickable(i)
    ensures Apply(s, step).reaper == s.reaper && Apply(s, step).core.Cap() == s.core.Cap() &&
            Apply(s, step).core.Pickable(i)
  {
    if ByTask(step) { TaskMarksOwn(s, step, i); }
  }

  lemma {:induction false} ScannedUnflagged(s: State, run: seq<Step>, i: nat)
    requires Taken(s, i) && ValidRun(s, run) && CleanRun(s, run) && PushRevived !in run
    ensures Taken(After(s, run), i)
    decreases |run|
  {
    if run != [] {
      TakenStep(s, run[0], i);
      ScannedUnflagged(Apply(s, run[0]), run[1..], i);
    }
  }

  // ------------------------------------------------------------------ clean pipes from the install on

  /** Neither queued nor held, on an untouched pipe. */
  ghost predicate Away(s: State, i: nat) { Apart(s, i) && SlotPristine(s, i) }

  lemma PristineByTask(s: State, step: Step, i: nat)
    requires Isolated(s) && Enabled(s, step) && ByTask(step) && !OffPipe(step) && Away(s, i)
    ensures SlotPristine(Apply(s, step), i)
  {
    if step.Arm? { assert Holds(s, step.t, s.tasks[step.t].idx); }
  }

  lemma PristineStays(s: State, step: Step, i: nat)
    requires Isolated(s) && Enabled(s, step) && !step.InstallFds? && Away(s, i)
    ensures SlotPristine(Apply(s, step), i)
  {
    var r := Apply(s, step);
    if OffPipe(step) {
      OffPipeFrame(s, step);
      TasksAfter(s, step);
      PristineSame(s, r);
    } else if ByTask(step) {
      PristineByTask(s, step, i);
    } else if step.WorkerTake? || step.WorkerEmit? {
      WorkerFrame(s, step);
      PristineExcept(s, r, step.p);
    } else {
      ReaperFrame(s, step);
      PristineSame(s, r);
    }
  }

  /** The refresh in progress has yet to put the slot back. */
  ghost predicate Ahead(s: State, i: nat) {
    s.reaper.Scanning? || ((s.reaper.Owing? || s.reaper.Growing?) && s.reaper.prevLen <= i)
  }

  /** Only slots below the old length are revived. */
  ghost predicate RevivesKnown(s: State) {
    s.reaper.Scanning? ==> forall i :: i in s.reaper.revived ==> i < s.reaper.prevLen
  }

  lemma AheadBefore(s: State, step: Step, i: nat)
    requires s.core.Valid() && Enabled(s, step) && !step.InstallFds? && Ahead(Apply(s, step), i)
    ensures Ahead(s, i) && !step.Grow? && (step.PushRevived? ==> s.reaper.prevLen <= i)
  {
  }

  lemma KnownStays(s: State, step: Step)
    requires s.core.Valid() && Enabled(s, step) && RevivesKnown(s)
    ensures RevivesKnown(Apply(s, step))
  {
  }

  /** A slot out of use on an untouched pipe stays so in every interleaving until the refresh puts it back. */
  lemma AwayStays(s: State, step: Step, i: nat)
    requires Isolated(s) && Enabled(s, step) && !step.InstallFds? && RevivesKnown(s)
    requires Away(s, i) && Ahead(Apply(s, step), i)
    ensures Ahead(s, i) && Away(Apply(s, step), i)
  {
    AheadBefore(s, step, i);
    PristineStays(s, step, i);
    ApartStays(s, step, i);
  }

  /** A slot that `get_idle` takes out of circulation is out of use on an untouched pipe. */
  lemma RetiredIsAway(s: State, t: Tid)
    requires Isolated(s) && Enabled(s, Check(t)) && !s.core.Pickable(s.tasks[t].idx)
    ensures Away(Apply(s, Check(t)), s.tasks[t].idx)
  {
    OffPipeFrame(s, Check(t));
    TasksAfter(s, Check(t));
    PristineSame(s, Apply(s, Check(t)));
  }

  /** What a caller of `refresh_fds` can check: the slot is out of use and gets a new pipe or keeps an untouched one. */
  ghost predicate Ready(s: State, newFds: seq<PipeId>, i: nat) {
    Apart(s, i) && (i < |newFds| ==> newFds[i] !in s.pipes || Pristine(s, newFds[i]))
  }

  lemma ReadyIsAway(s: State, newFds: seq<PipeId>, i: nat)
    requires Isolated(s) && Enabled(s, InstallFds(newFds)) && Ready(s, newFds, i)
    ensures Away(Apply(s, InstallFds(newFds)), i)
  {
    ApartStays(s, InstallFds(newFds), i);
    forall t | t in s.tasks && Attached(s.tasks[t]) ensures s.tasks[t].pipe in s.pipes { assert OnPipe(s, t); }
  }

  /** The slots known to be out of use on untouched pipes after a step: those ready when a refresh installs its pipes,
      and those `get_idle` takes out of circulation from then on. */
  ghost function NowReady(s: State, step: Step, ready: iset<nat>): iset<nat>
    requires s.core.Valid() && Enabled(s, step)
  {
    if step.InstallFds? then iset i: nat | Ready(s, step.newFds, i)
    else if step.Check? && !s.core.Pickable(s.tasks[step.t].idx) then ready + iset{s.tasks[step.t].idx}
    else ready
  }

  /** The slots the step puts back are queued already or known to be ready; new slots are ready. */
  ghost predicate Prepared(s: State, step: Step, ready: iset<nat>)
    requires s.core.Valid() && Enabled(s, step)
  {
    && (step.PushRevived? ==> forall i :: i in s.reaper.revived ==> i in s.core.queue || i in ready)
    && (step.Grow? && Grows(s) ==> forall i :: i in Grown(s) ==> i in ready)
  }

  ghost predicate PreparedRun(s: State, run: seq<Step>, ready: iset<nat>)
    requires s.core.Valid() && ValidRun(s, run)
    decreases |run|
  {
    run == [] || (Prepared(s, run[0], ready) && PreparedRun(Apply(s, run[0]), run[1..], NowReady(s, run[0], ready)))
  }

  ghost predicate Kept(s: State, ready: iset<nat>) {
    RevivesKnown(s) && forall i: nat :: i in ready && Ahead(s, i) ==> Away(s, i)
  }

  lemma KeptStep(s: State, step: Step, ready: iset<nat>)
    requires Isolated(s) && Enabled(s, step) && Kept(s, ready)
    ensures Kept(Apply(s, step), NowReady(s, step, ready))
  {
    var r := Apply(s, step);
    KnownStays(s, step);
    forall i: nat | i in NowReady(s, step, ready) && Ahead(r, i) ensures Away(r, i) {
      if step.InstallFds? {
        ReadyIsAway(s, step.newFds, i);
      } else if i in ready {
        AheadBefore(s, step, i);
        AwayStays(s, step, i);
      } else {
        RetiredIsAway(s, step.t);
      }
    }
  }

  lemma PreparedStepClean(s: State, step: Step, ready: iset<nat>)
    requires Isolated(s) && Enabled(s, step) && Kept(s, ready) && Prepared(s, step, ready)
    ensures CleanPipes(s, step)
  {
    if step.PushRevived? {
      forall i | i in s.reaper.revived && i !in s.core.queue ensures Away(s, i) { assert Ahead(s, i); }
    } else if step.Grow? && Grows(s) {
      forall i | i in Grown(s) ensures Away(s, i) { assert Ahead(s, i); }
    }
  }

  /** A run whose refreshes put back slots that are queued already or known to be ready is clean, however requests,
      workers and the reaper interleave. */
  lemma {:induction false} PreparedIsClean(s: State, run: seq<Step>, ready: iset<nat>)
    requires Isolated(s) && ValidRun(s, run) && Kept(s, ready) && PreparedRun(s, run, ready)
    ensures CleanPipesRun(s, run)
    decreases |run|
  {
    if run != [] {
      PreparedStepClean(s, run[0], ready);
      StepIsolatedIff(s, run[0]);
      KeptStep(s, run[0], ready);
      PreparedIsClean(Apply(s, run[0]), run[1..], NowReady(s, run[0], ready));
    }
  }

  /** Isolation from what callers establish: if every slot a refresh puts back is queued already, was out of use on a
      new or untouched pipe when the refresh installed its pipes, or was taken out of circulation by `get_idle` since,
      every state of the run is isolated. */
  lemma PreparedIsIsolated(quota: seq<nat>, run: seq<Step>)
    requires ValidRun(Init(quota, false), run) && PreparedRun(Init(quota, false), run, iset{})
    ensures IsolatedThroughout(Init(quota, false), run) && CleanPipesRun(Init(quota, false), run)
  {
    InitIsolated(quota);
    PreparedIsClean(Init(quota, false), run, iset{});
    IsolationIff(quota, run);
  }
}
