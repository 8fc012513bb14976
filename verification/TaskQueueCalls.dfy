/**
 What single calls of the job queue can expect in every interleaving: a cleared job is never delivered, a pop that does
 not wait never does, and a woken pop that finds nothing goes back to its deadline check.
 */
module TaskQueueCalls {
  import opened Util
  import opened TaskQueue
  import opened TaskQueueOrder

  // ------------------------------------------------------------------ cleared jobs

  ghost predicate Dropped(s: State, n: Name, job: Job) {
    n in s.channels && (job, false) in s.channels[n].taken
  }

  lemma DroppedStays(s: State, step: Step, n: Name, job: Job)
    requires Enabled(s, step) && Dropped(s, n, job)
    ensures Dropped(Apply(s, step), n, job)
  {
  }

  lemma {:induction false} DroppedForGood(s: State, run: seq<Step>, n: Name, job: Job)
    requires ValidRun(s, run) && Dropped(s, n, job)
    ensures Dropped(After(s, run), n, job)
    decreases |run|
  {
    if run != [] {
      DroppedStays(s, run[0], n, job);
      DroppedForGood(Apply(s, run[0]), run[1..], n, job);
    }
  }

  /** A job removed by a clear was not removed by a pop of whatever channel. */
  lemma DroppedNotTaken(s: State, n: Name, m: Name, job: Job)
    requires ChannelsProper(s) && UniqueIds(s) && Dropped(s, n, job)
    ensures !TakenFrom(s, m, job)
  {
    var a := s.channels[n];
    var i :| 0 <= i < |a.taken| && a.taken[i] == (job, false);
    assert a.accepted[i] == Jobs(a.taken)[i] == job;
    if m in s.channels {
      var b := s.channels[m];
      forall j | 0 <= j < |b.taken| ensures b.taken[j] != (job, true) {
        assert b.accepted[j] == Jobs(b.taken)[j] == b.taken[j].0;
        if m != n { assert job.id in Ids(a) && b.taken[j].0.id in Ids(b); }
      }
    }
  }

  lemma ClearDrops(s: State, name: Name, job: Job)
    requires name in s.channels && job in s.channels[name].queue
    ensures Dropped(Apply(s, Clear(name)), name, job)
  {
    var q := s.channels[name].queue;
    var i :| 0 <= i < |q| && q[i] == job;
    assert MarkCleared(q)[i] == (job, false);
  }

  /** Whatever is queued when a channel is cleared, no call ever gets it, however the run goes on. */
  lemma ClearedNeverDelivered(maxChannels: nat, capacity: nat, run: seq<Step>, name: Name, job: Job,
                              more: seq<Step>, t: Tid)
    requires ValidRun(Init(maxChannels, capacity), run)
    requires var s := After(Init(maxChannels, capacity), run);
             && name in s.channels && job in s.channels[name].queue
             && ValidRun(Apply(s, Clear(name)), more)
    ensures var r := After(Apply(After(Init(maxChannels, capacity), run), Clear(name)), more);
            t in r.calls ==> Delivered(r.calls[t]) != Some(job)
  {
    var s := After(Init(maxChannels, capacity), run);
    InitInv(maxChannels, capacity);
    AlwaysInv(Init(maxChannels, capacity), run);
    InvStep(s, Clear(name));
    AlwaysInv(Apply(s, Clear(name)), more);
    ClearDrops(s, name, job);
    DroppedForGood(Apply(s, Clear(name)), more, name, job);
    var r := After(Apply(s, Clear(name)), more);
    forall m ensures !TakenFrom(r, m, job) { DroppedNotTaken(r, name, m, job); }
  }

  // ------------------------------------------------------------------ pops that do not wait

  /** A pop without a wait, up to its answer. */
  predicate Prompt(c: Call) {
    || ((c.Looking? || c.Missing? || c.Creating? || c.Has?) && c.op == Pop(false))
    || c.Counting?
    || (c.Done? && c.reply.Popped?)
  }

  lemma PromptStays(s: State, step: Step, t: Tid)
    requires Enabled(s, step) && t in s.calls && Prompt(s.calls[t])
    ensures t in Apply(s, step).calls && Prompt(Apply(s, step).calls[t])
  {
  }

  lemma {:induction false} PromptAlong(s: State, run: seq<Step>, t: Tid)
    requires ValidRun(s, run) && t in s.calls && Prompt(s.calls[t])
    ensures t in After(s, run).calls && Prompt(After(s, run).calls[t])
    decreases |run|
  {
    if run != [] {
      PromptStays(s, run[0], t);
      PromptAlong(Apply(s, run[0]), run[1..], t);
    }
  }

  /** A pop with no wait is never in the slow path, in any continuation of any state it starts in. */
  lemma NoWaitNeverParks(s: State, t: Tid, name: Name, run: seq<Step>)
    requires t !in s.calls && ValidRun(Apply(s, Start(t, name, Pop(false))), run)
    ensures var r := After(Apply(s, Start(t, name, Pop(false))), run);
            t in r.calls && forall n :: !LongPolling(r.calls[t], n)
  {
    PromptAlong(Apply(s, Start(t, name, Pop(false))), run, t);
  }

  // ------------------------------------------------------------------ pops that wait

  /** Finding nothing, a pop that does not wait answers at once and a waiting one goes on: to its deadline check from
      the first look and from a wake-up, where it can time out or arm again, and to its registration once armed. */
  lemma EmptyHanded(s: State, t: Tid)
    requires Enabled(s, TryPop(t)) && s.channels[s.calls[t].name].queue == []
    ensures var c, r := s.calls[t], Apply(s, TryPop(t));
            && r == s.(calls := s.calls[t := r.calls[t]])
            && (c.Has? && !c.op.wait ==> r.calls[t] == Done(Popped(None)))
            && ((c.Has? && c.op.wait) || c.Woken? ==>
                  && r.calls[t] == LoopTop(c.name) && Enabled(r, Timeout(t)) && Enabled(r, Arm(t))
                  && Apply(r, Timeout(t)).calls[t] == Done(Popped(None)))
            && (c.Armed? ==> r.calls[t] == Polling(c.name) && Enabled(r, Poll(t)))
  {
  }
}
