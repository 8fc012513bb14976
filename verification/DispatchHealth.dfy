/**
 Which slots can be picked, from the history alone: a slot is pickable in a state exactly when nobody flagged it since
 the reaper last reset it and it has served fewer requests since then than its quota.
 */
module DispatchHealth {
  import opened Dispatch

  /** The reaper clears the slot's flag and count. */
  predicate Resets(s: State, step: Step, i: nat) { step.Scan? && s.reaper.Scanning? && s.reaper.at == i }

  /** A request that holds the slot records that it was answered. */
  predicate Serves(s: State, step: Step, i: nat) {
    step.RecordServed? && step.t in s.tasks && s.tasks[step.t].Decoded? && s.tasks[step.t].idx == i
  }

  /** The slot's worker is given up: its request failed, was cancelled or could not be written, a channel-mode request
      asked for it, or the reaper retires it for its quota. */
  predicate GivesUp(s: State, step: Step, i: nat) {
    match step
    case Poison(t) => t in s.tasks && s.tasks[t].Reading? && s.tasks[t].idx == i
    case SendFails(t, _) => t in s.tasks && s.tasks[t].Armed? && s.tasks[t].idx == i
    case DropUnarmed(t, mark) => mark && t in s.tasks && s.tasks[t].Claimed? && s.tasks[t].idx == i
    case MarkOverQuota(k) => k == i
    case _ => false
  }

  /** The requests served on the slot since its last reset, `n` of them before the run. */
  function ServedSince(s: State, run: seq<Step>, i: nat, n: nat): nat
    requires s.core.Valid() && ValidRun(s, run)
    decreases |run|
  {
    if run == [] then n
    else
      var next := if Resets(s, run[0], i) then 0 else if Serves(s, run[0], i) then n + 1 else n;
      ServedSince(Apply(s, run[0]), run[1..], i, next)
  }

  /** The slot was given up since its last reset, or before the run if `was`. */
  predicate GivenUpSince(s: State, run: seq<Step>, i: nat, was: bool)
    requires s.core.Valid() && ValidRun(s, run)
    decreases |run|
  {
    if run == [] then was
    else
      var next := !Resets(s, run[0], i) && (was || GivesUp(s, run[0], i));
      GivenUpSince(Apply(s, run[0]), run[1..], i, next)
  }

  lemma HealthByTask(s: State, step: Step, i: nat)
    requires s.core.Valid() && Enabled(s, step) && !OfPool(step) && i < s.core.Cap()
    ensures var r := Apply(s, step).core;
            && r.Cap() == s.core.Cap() && r.quota == s.core.quota
            && r.served[i] == (if Serves(s, step, i) then s.core.served[i] + 1 else s.core.served[i])
            && r.unhealthy[i] == (s.core.unhealthy[i] || GivesUp(s, step, i))
  {
  }

  lemma HealthByPool(s: State, step: Step, i: nat)
    requires s.core.Valid() && Enabled(s, step) && OfPool(step) && i < s.core.Cap()
    ensures var r := Apply(s, step).core;
            && r.Cap() == s.core.Cap() && r.quota == s.core.quota
            && r.served[i] == (if Resets(s, step, i) then 0 else s.core.served[i])
            && r.unhealthy[i] == (!Resets(s, step, i) && (s.core.unhealthy[i] || GivesUp(s, step, i)))
  {
  }

  lemma {:induction false} HealthIsHistory(s: State, run: seq<Step>, i: nat)
    requires s.core.Valid() && ValidRun(s, run) && i < s.core.Cap()
    ensures var r := After(s, run).core;
            && r.Cap() == s.core.Cap() && r.quota == s.core.quota
            && r.served[i] == ServedSince(s, run, i, s.core.served[i])
            && r.unhealthy[i] == GivenUpSince(s, run, i, s.core.unhealthy[i])
    decreases |run|
  {
    if run != [] {
      if OfPool(run[0]) { HealthByPool(s, run[0], i); } else { HealthByTask(s, run[0], i); }
      HealthIsHistory(Apply(s, run[0]), run[1..], i);
    }
  }

  /** From start-up in either mode, after any run: a slot can be picked if and only if it is tracked, was not given up
      since its last reset and, unless its quota is zero, has served fewer requests since then than its quota. */
  lemma PickableIff(quota: seq<nat>, channels: bool, run: seq<Step>, i: nat)
    requires ValidRun(Init(quota, channels), run)
    ensures var o := Init(quota, channels);
            After(o, run).core.Pickable(i) <==>
            && i < |quota| && !GivenUpSince(o, run, i, false)
            && (quota[i] == 0 || ServedSince(o, run, i, 0) < quota[i])
  {
    var o := Init(quota, channels);
    if i < |quota| {
      HealthIsHistory(o, run, i);
    } else {
      CapStays(o, run);
    }
  }

  /** Every await can fail: a call that waits for its permit can time out or be cancelled, a write can fail with or
      without having sent something, and a request that reads can be cancelled or meet the end of the pipe or a decode
      error; in channel mode a request can be dropped, flagged or not. */
  lemma AwaitsCanFail(s: State, t: Tid)
    requires s.core.Valid() && t in s.tasks
    ensures s.tasks[t].Waiting? ==> Enabled(s, StopWaiting(t)) && Apply(s, StopWaiting(t)).tasks[t] == Ended
    ensures s.tasks[t].Armed? && s.tasks[t].pipe in s.pipes ==>
              forall partial ::
                Enabled(s, SendFails(t, partial)) && Apply(s, SendFails(t, partial)).tasks[t] == Ended &&
                GivesUp(s, SendFails(t, partial), s.tasks[t].idx)
    ensures s.tasks[t].Reading? ==>
              Enabled(s, Poison(t)) && Apply(s, Poison(t)).tasks[t] == Ended && GivesUp(s, Poison(t), s.tasks[t].idx)
    ensures s.tasks[t].Claimed? && s.channels ==>
              forall mark ::
                Enabled(s, DropUnarmed(t, mark)) && (GivesUp(s, DropUnarmed(t, mark), s.tasks[t].idx) <==> mark)
  {
  }

  lemma {:induction false} CapStays(s: State, run: seq<Step>)
    requires s.core.Valid() && ValidRun(s, run)
    ensures After(s, run).core.Cap() == s.core.Cap()
    decreases |run|
  {
    if run != [] { CapStays(Apply(s, run[0]), run[1..]); }
  }
}
