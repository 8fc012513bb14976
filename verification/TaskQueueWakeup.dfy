/**
 No lost wake-up: with one long-polling consumer on a channel, no interleaving with pushes,
 zero-wait pops, clears and cancellations leaves a job queued, every push notified, and the
 consumer parked.  With two consumers one interleaving strands a consumer for good.
 */
module TaskQueueWakeup {
  import opened Util
  import opened TaskQueue

  /** At most one pop is in its slow path on the channel. */
  ghost predicate Solo(s: State, name: Name) {
    forall t, u :: t in s.calls && u in s.calls && LongPolling(s.calls[t], name) && LongPolling(s.calls[u], name) ==>
      t == u
  }

  ghost predicate OwesNotify(s: State, t: Tid, name: Name) {
    t in s.calls && s.calls[t].Enqueued? && s.calls[t].name == name
  }

  /** Some push has enqueued and not notified yet. */
  ghost predicate NotifyPending(s: State, name: Name) { exists t :: OwesNotify(s, t, name) }

  ghost predicate Backlog(s: State, name: Name) { name in s.channels && s.channels[name].queue != [] }

  /** The consumer is parked behind a job and no push has yet to announce one. */
  ghost predicate Unannounced(s: State, t: Tid, name: Name) {
    Waiter(s, t, name) && Backlog(s, name) && !NotifyPending(s, name)
  }

  /** A backlog behind a consumer that is past its re-check has a notification on the way. */
  ghost predicate Announced(s: State, name: Name) {
    Backlog(s, name) ==>
      forall t :: t in s.calls ==>
        && (s.calls[t] == Parked(name) ==> NotifyPending(s, name))
        && (s.calls[t] == Polling(name) ==> NotifyPending(s, name) || s.channels[name].permit)
  }

  /** A pending notification stays pending until its own notify step. */
  lemma PendingStays(s: State, step: Step, name: Name)
    requires Enabled(s, step) && NotifyPending(s, name) && !step.NotifyOne?
    ensures NotifyPending(Apply(s, step), name)
  {
    var t :| OwesNotify(s, t, name);
    assert OwesNotify(Apply(s, step), t, name);
  }

  lemma AnnouncedNotify(s: State, step: Step, name: Name)
    requires Announced(s, name) && Solo(s, name) && Enabled(s, step) && step.NotifyOne?
    ensures Announced(Apply(s, step), name)
  {
    var r := Apply(s, step);
    if s.calls[step.t].name != name && NotifyPending(s, name) {
      var t :| OwesNotify(s, t, name);
      assert OwesNotify(r, t, name);
    }
  }

  lemma AnnouncedEnqueue(s: State, step: Step, name: Name)
    requires Announced(s, name) && Enabled(s, step) && step.Enqueue?
    ensures Announced(Apply(s, step), name)
  {
    var r := Apply(s, step);
    if s.calls[step.t].name == name && r.calls[step.t].Enqueued? {
      assert OwesNotify(r, step.t, name);
    } else if NotifyPending(s, name) {
      PendingStays(s, step, name);
    }
  }

  lemma AnnouncedStep(s: State, step: Step, name: Name)
    requires Announced(s, name) && Solo(s, name) && Enabled(s, step)
    ensures Announced(Apply(s, step), name)
  {
    if step.NotifyOne? {
      AnnouncedNotify(s, step, name);
    } else if step.Enqueue? {
      AnnouncedEnqueue(s, step, name);
    } else if NotifyPending(s, name) {
      PendingStays(s, step, name);
    }
  }

  ghost predicate SoloThroughout(s: State, run: seq<Step>, name: Name)
    requires ValidRun(s, run)
    decreases |run|
  {
    Solo(s, name) && (run == [] || SoloThroughout(Apply(s, run[0]), run[1..], name))
  }

  lemma {:induction false} AlwaysAnnounced(s: State, run: seq<Step>, name: Name)
    requires ValidRun(s, run) && Announced(s, name) && SoloThroughout(s, run, name)
    ensures Announced(After(s, run), name)
    decreases |run|
  {
    if run != [] {
      AnnouncedStep(s, run[0], name);
      assert SoloThroughout(Apply(s, run[0]), run[1..], name);
      AlwaysAnnounced(Apply(s, run[0]), run[1..], name);
    }
  }

  /** No interleaving with a single long-poller on the channel reaches a lost wake-up. */
  lemma NoLostWakeup(maxChannels: nat, capacity: nat, run: seq<Step>, name: Name, t: Tid)
    requires ValidRun(Init(maxChannels, capacity), run) && SoloThroughout(Init(maxChannels, capacity), run, name)
    ensures !Unannounced(After(Init(maxChannels, capacity), run), t, name)
  {
    AlwaysAnnounced(Init(maxChannels, capacity), run, name);
  }

  // ------------------------------------------------------------------ stranded consumers

  /** A call that will neither take a job of the channel nor signal on it. */
  predicate Settled(c: Call, name: Name) {
    c.Done? || c.name != name || c.Parked? || c.Counting? || c.Notified?
  }

  /** The consumer is parked behind a job, no permit is stored, and no other call will take the job or wake anyone. */
  ghost predicate Stranded(s: State, t: Tid, name: Name) {
    && Waiter(s, t, name) && Backlog(s, name) && !s.channels[name].permit
    && forall u :: u in s.calls ==> Settled(s.calls[u], name)
  }

  /** A new call on the channel, a clear, or the end of the consumer's own wait. */
  predicate Disturbs(step: Step, t: Tid, name: Name) {
    || (step.Start? && step.name == name) || step == Clear(name)
    || (step.Timeout? && step.t == t) || (step.CancelPop? && step.t == t)
  }

  /** A step changes its own call and, through a signal, a waiter. */
  lemma OtherCalls(s: State, step: Step, u: Tid)
    requires Enabled(s, step) && u in s.calls && (step.Clear? || u != step.t)
    ensures u in Apply(s, step).calls
    ensures Apply(s, step).calls[u] == s.calls[u] ||
            ((step.NotifyOne? || (step.CancelPop? && s.calls[step.t].Woken?)) &&
             s.calls[u] == Parked(s.calls[step.t].name))
  {
  }

  lemma StrandedOwn(s: State, step: Step, t: Tid, name: Name)
    requires Stranded(s, t, name) && Enabled(s, step) && !Disturbs(step, t, name)
    ensures Apply(s, step).channels.Keys >= s.channels.Keys && Apply(s, step).channels[name] == s.channels[name]
    ensures !step.Clear? ==> step.t in Apply(s, step).calls && Settled(Apply(s, step).calls[step.t], name) &&
                             (step.t == t ==> Apply(s, step).calls[t] == s.calls[t])
  {
  }

  lemma StrandedStep(s: State, step: Step, t: Tid, name: Name)
    requires Stranded(s, t, name) && Enabled(s, step) && !Disturbs(step, t, name)
    ensures Stranded(Apply(s, step), t, name) && Apply(s, step).channels[name] == s.channels[name]
  {
    var r := Apply(s, step);
    StrandedOwn(s, step, t, name);
    CallsFrom(s, step);
    forall u | u in r.calls ensures Settled(r.calls[u], name) {
      if step.Clear? || u != step.t { OtherCalls(s, step, u); }
    }
    if step.Clear? || t != step.t { OtherCalls(s, step, t); }
  }

  lemma CallsFrom(s: State, step: Step)
    requires Enabled(s, step)
    ensures forall u :: u in Apply(s, step).calls ==> u in s.calls || (!step.Clear? && u == step.t)
  {
  }

  /** Left alone, a stranded consumer stays stranded and its job stays queued in every continuation. */
  lemma {:induction false} StrandedForever(s: State, run: seq<Step>, t: Tid, name: Name)
    requires Stranded(s, t, name) && ValidRun(s, run) && forall i :: 0 <= i < |run| ==> !Disturbs(run[i], t, name)
    ensures Stranded(After(s, run), t, name) && After(s, run).channels[name] == s.channels[name]
    decreases |run|
  {
    if run != [] {
      StrandedStep(s, run[0], t, name);
      StrandedForever(Apply(s, run[0]), run[1..], t, name);
    }
  }

  predicate Pushing(c: Call, name: Name) {
    && !c.Done? && c.name == name
    && (|| c.Numbered? || c.Enqueued?
        || ((c.Looking? || c.Missing? || c.Creating? || c.Has?) && c.op.Push?))
  }

  /** Nothing on the channel can still signal. */
  ghost predicate Silent(s: State, name: Name) {
    && (name in s.channels ==> !s.channels[name].permit)
    && forall u :: u in s.calls ==> !Pushing(s.calls[u], name) && s.calls[u] != Woken(name)
  }

  lemma SilentOwn(s: State, step: Step, name: Name)
    requires Silent(s, name) && Enabled(s, step) && !(step.Start? && step.name == name && step.op.Push?)
    ensures name in Apply(s, step).channels ==> !Apply(s, step).channels[name].permit
    ensures !step.Clear? ==> step.t in Apply(s, step).calls && !Pushing(Apply(s, step).calls[step.t], name) &&
                             Apply(s, step).calls[step.t] != Woken(name)
  {
  }

  lemma SilentStep(s: State, step: Step, t: Tid, name: Name)
    requires Silent(s, name) && Waiter(s, t, name) && Enabled(s, step)
    requires !(step.Start? && step.name == name && step.op.Push?)
    requires !(step.Timeout? && step.t == t) && !(step.CancelPop? && step.t == t)
    ensures Silent(Apply(s, step), name) && Waiter(Apply(s, step), t, name)
  {
    var r := Apply(s, step);
    SilentOwn(s, step, name);
    CallsFrom(s, step);
    forall u | u in r.calls ensures !Pushing(r.calls[u], name) && r.calls[u] != Woken(name) {
      if step.Clear? || u != step.t { OtherSilent(s, step, u, name); }
    }
    if step.Clear? || t != step.t { OtherSilent(s, step, t, name); }
  }

  lemma OtherSilent(s: State, step: Step, u: Tid, name: Name)
    requires Silent(s, name) && Enabled(s, step) && u in s.calls && (step.Clear? || u != step.t)
    ensures u in Apply(s, step).calls && !Pushing(Apply(s, step).calls[u], name) &&
            Apply(s, step).calls[u] != Woken(name)
    ensures s.calls[u] == Parked(name) ==> Apply(s, step).calls[u] == s.calls[u]
  {
    OtherCalls(s, step, u);
  }

  /** Whatever other pops and clears do, only a new push, its timeout or its cancellation ends the wait. */
  lemma {:induction false} ParkedUntilPush(s: State, run: seq<Step>, t: Tid, name: Name)
    requires Silent(s, name) && Waiter(s, t, name) && ValidRun(s, run)
    requires forall i :: 0 <= i < |run| ==>
               && !(run[i].Start? && run[i].name == name && run[i].op.Push?)
               && !(run[i].Timeout? && run[i].t == t) && !(run[i].CancelPop? && run[i].t == t)
    ensures Waiter(After(s, run), t, name)
    decreases |run|
  {
    if run != [] {
      SilentStep(s, run[0], t, name);
      ParkedUntilPush(Apply(s, run[0]), run[1..], t, name);
    }
  }

  // ------------------------------------------------------------------ two consumers

  ghost predicate Closed(inv: iset<State>) {
    forall s, step :: s in inv && Enabled(s, step) ==> Apply(s, step) in inv
  }

  ghost predicate Reaches(s: State, r: State) {
    forall inv: iset<State> :: s in inv && Closed(inv) ==> r in inv
  }

  lemma Go(o: State, s: State, step: Step, r: State)
    requires Reaches(o, s) && Enabled(s, step) && Apply(s, step) == r
    ensures Reaches(o, r)
  {
  }

  ghost predicate RunLeads(s: State, r: State) { exists run :: ValidRun(s, run) && After(s, run) == r }

  lemma {:induction false} RunAppend(s: State, run: seq<Step>, step: Step)
    requires ValidRun(s, run) && Enabled(After(s, run), step)
    ensures ValidRun(s, run + [step]) && After(s, run + [step]) == Apply(After(s, run), step)
    decreases |run|
  {
    if run == [] {
      assert run + [step] == [step] && [step][1..] == [];
    } else {
      RunAppend(Apply(s, run[0]), run[1..], step);
      assert (run + [step])[1..] == run[1..] + [step];
    }
  }

  lemma ReachedByRun(s: State, r: State)
    requires Reaches(s, r)
    ensures RunLeads(s, r)
  {
    var inv := iset x: State | RunLeads(s, x);
    assert s in inv by { assert ValidRun(s, []); }
    forall x, step | x in inv && Enabled(x, step) ensures Apply(x, step) in inv {
      var run :| ValidRun(s, run) && After(s, run) == x;
      RunAppend(s, run, step);
      assert ValidRun(s, run + [step]);
    }
    assert r in inv;
  }

  const NAME: Name := "c"

  /** `t` looks, finds nothing, and is about to poll its notification. */
  lemma GetReady(o: State, s: State, t: Tid) returns (r: State)
    requires Reaches(o, s) && t in s.calls && s.calls[t] == Has(NAME, Pop(true))
    requires NAME in s.channels && s.channels[NAME].queue == []
    ensures Reaches(o, r) && r == s.(calls := s.calls[t := Polling(NAME)])
  {
    var s1 := s.(calls := s.calls[t := LoopTop(NAME)]);
    Go(o, s, TryPop(t), s1);
    var s2 := s.(calls := s1.calls[t := Armed(NAME)]);
    Go(o, s1, Arm(t), s2);
    r := s.(calls := s2.calls[t := Polling(NAME)]);
    Go(o, s2, TryPop(t), r);
    assert r.calls == s.calls[t := Polling(NAME)];
  }

  lemma FindChannel(o: State, s: State, t: Tid, op: Op) returns (r: State)
    requires Reaches(o, s) && t !in s.calls && NAME in s.channels
    ensures Reaches(o, r) && r == s.(calls := s.calls[t := Has(NAME, op)])
  {
    var s1 := s.(calls := s.calls[t := Looking(NAME, op)]);
    Go(o, s, Start(t, NAME, op), s1);
    r := s.(calls := s1.calls[t := Has(NAME, op)]);
    Go(o, s1, Lookup(t), r);
    assert r.calls == s.calls[t := Has(NAME, op)];
  }

  /** A whole push while nobody is registered: the job is queued and the permit stored. */
  lemma PushUnheard(o: State, s: State, t: Tid) returns (r: State)
    requires Reaches(o, s) && t !in s.calls && NAME in s.channels && |s.channels[NAME].queue| < s.capacity
    requires forall u :: u in s.calls ==> s.calls[u] != Parked(NAME)
    ensures Reaches(o, r) && NAME in r.channels && |r.channels[NAME].queue| == |s.channels[NAME].queue| + 1
    ensures r.channels[NAME].permit && r.capacity == s.capacity
    ensures t in r.calls && r.calls[t].Done? && r.calls == s.calls[t := r.calls[t]]
  {
    var s1 := FindChannel(o, s, t, Push([]));
    var s2 := Apply(s1, TakeId(t));
    Go(o, s1, TakeId(t), s2);
    var s3 := Apply(s2, Enqueue(t));
    Go(o, s2, Enqueue(t), s3);
    var s4 := Apply(s3, NotifyOne(t, None));
    Go(o, s3, NotifyOne(t, None), s4);
    r := Apply(s4, CountPush(t));
    Go(o, s4, CountPush(t), r);
    assert r.calls == s.calls[t := r.calls[t]];
  }

  /** Two consumers re-check an empty queue, two jobs arrive, and the one stored permit serves the
      first consumer only: the second parks on the other job and is stranded. */
  lemma TwoPollersLoseWakeup() returns (run: seq<Step>)
    ensures ValidRun(Init(1, 2), run) && Stranded(After(Init(1, 2), run), 2, NAME)
  {
    var o := Init(1, 2);
    var s := FirstPoller(o);
    s := FindChannel(o, s, 2, Pop(true));
    s := GetReady(o, s, 2);
    s := PushUnheard(o, s, 3);
    s := PushUnheard(o, s, 4);
    var r := ServeFirst(o, s);
    ReachedByRun(o, r);
    run :| ValidRun(o, run) && After(o, run) == r;
  }

  lemma ServeFirst(o: State, s: State) returns (r: State)
    requires Reaches(o, s) && 1 in s.calls && 2 in s.calls && s.calls[1] == Polling(NAME) && s.calls[2] == Polling(NAME)
    requires NAME in s.channels && s.channels[NAME].permit && |s.channels[NAME].queue| == 2
    ensures Reaches(o, r) && Waiter(r, 2, NAME) && Backlog(r, NAME) && !r.channels[NAME].permit
    ensures 1 in r.calls && r.calls[1].Counting? && r.calls == s.calls[1 := r.calls[1]][2 := Parked(NAME)]
  {
    var s1 := Apply(s, Poll(1));
    Go(o, s, Poll(1), s1);
    var s2 := Apply(s1, TryPop(1));
    Go(o, s1, TryPop(1), s2);
    r := Apply(s2, Poll(2));
    Go(o, s2, Poll(2), r);
    assert |r.channels[NAME].queue| == 1;
  }

  lemma FirstPoller(o: State) returns (r: State)
    requires o == Init(1, 2)
    ensures Reaches(o, r) && r == o.(channels := map[NAME := NewChan], calls := map[1 := Polling(NAME)])
  {
    var op := Pop(true);
    var s1 := o.(calls := map[1 := Looking(NAME, op)]);
    Go(o, o, Start(1, NAME, op), s1);
    var s2 := o.(calls := map[1 := Missing(NAME, op)]);
    Go(o, s1, Lookup(1), s2);
    var s3 := o.(calls := map[1 := Creating(NAME, op)]);
    Go(o, s2, CheckCap(1), s3);
    var s4 := o.(channels := map[NAME := NewChan], calls := map[1 := Has(NAME, op)]);
    Go(o, s3, Insert(1), s4);
    r := GetReady(o, s4, 1);
  }
}
