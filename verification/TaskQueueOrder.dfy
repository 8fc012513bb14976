/**
 What every interleaving of the job queue keeps: per-channel FIFO and capacity, globally unique
 ids with each job delivered at most once, counters that balance, and a bounded channel map.
 */
module TaskQueueOrder {
  import opened Util
  import opened TaskQueue

  // ------------------------------------------------------------------ FIFO and capacity

  function Jobs(taken: seq<(Job, bool)>): seq<Job> { seq(|taken|, i requires 0 <= i < |taken| => taken[i].0) }

  /** What was enqueued is what was removed, in that order, followed by what is queued. */
  ghost predicate Fifo(ch: Chan) { ch.accepted == Jobs(ch.taken) + ch.queue }

  ghost predicate ChannelsProper(s: State) {
    forall n :: n in s.channels ==> Fifo(s.channels[n]) && |s.channels[n].queue| <= s.capacity
  }

  lemma JobsJoin(a: seq<(Job, bool)>, b: seq<(Job, bool)>)
    ensures Jobs(a + b) == Jobs(a) + Jobs(b)
  {
  }

  lemma FifoEnqueue(ch: Chan, job: Job)
    requires Fifo(ch)
    ensures Fifo(ch.(queue := ch.queue + [job], accepted := ch.accepted + [job]))
  {
  }

  lemma FifoPop(ch: Chan)
    requires Fifo(ch) && ch.queue != []
    ensures Fifo(ch.(queue := ch.queue[1..], taken := ch.taken + [(ch.queue[0], true)]))
  {
    JobsJoin(ch.taken, [(ch.queue[0], true)]);
    assert Jobs([(ch.queue[0], true)]) == [ch.queue[0]];
    assert ch.queue == [ch.queue[0]] + ch.queue[1..];
  }

  lemma FifoClear(ch: Chan)
    requires Fifo(ch)
    ensures Fifo(ch.(queue := [], taken := ch.taken + MarkCleared(ch.queue)))
  {
    JobsJoin(ch.taken, MarkCleared(ch.queue));
    assert Jobs(MarkCleared(ch.queue)) == ch.queue;
  }

  lemma ChannelsStep(s: State, step: Step)
    requires ChannelsProper(s) && Enabled(s, step)
    ensures ChannelsProper(Apply(s, step))
  {
    match step
    case Enqueue(t) =>
      FifoEnqueue(s.channels[s.calls[t].name], Job(s.calls[t].id, s.calls[t].payload));
    case TryPop(t) =>
      if s.channels[s.calls[t].name].queue != [] { FifoPop(s.channels[s.calls[t].name]); }
    case Clear(name) =>
      if name in s.channels { FifoClear(s.channels[name]); }
    case _ =>
  }

  // ------------------------------------------------------------------ counters

  ghost function Queued(s: State): int {
    Sum(map n | n in s.channels :: |s.channels[n].queue|)
  }

  lemma QueuedAfter(s: State, n: Name, ch: Chan)
    ensures Queued(SetChan(s, n, ch)) == Queued(s) + |ch.queue| - if n in s.channels then |s.channels[n].queue| else 0
  {
    var m := map k | k in s.channels :: |s.channels[k].queue|;
    var r := SetChan(s, n, ch);
    SumUpdate(m, n, |ch.queue|);
    assert (map k | k in r.channels :: |r.channels[k].queue|) == m[n := |ch.queue|];
  }

  predicate Drew(c: Call) { c.Numbered? || c.Enqueued? || c.Notified? }
  predicate Uncounted(c: Call) { c.Enqueued? || c.Notified? }
  predicate Counts(c: Call) { c.Counting? }
  predicate Creates(c: Call) { c.Creating? }

  /** The calls in a phase. */
  ghost function In(calls: map<Tid, Call>, p: Call -> bool): set<Tid> { set t | t in calls && p(calls[t]) }

  lemma InAfter(calls: map<Tid, Call>, p: Call -> bool, t: Tid, c: Call)
    ensures |In(calls[t := c], p)| == |In(calls, p)| + One(p(c)) - One(t in calls && p(calls[t]))
  {
    assert In(calls[t := c], p) == if p(c) then In(calls, p) + {t} else In(calls, p) - {t};
    assert t in In(calls, p) <==> t in calls && p(calls[t]);
  }

  /** A step changes the call it belongs to and at most wakes one waiter. */
  lemma CallsStep(s: State, step: Step)
    requires Enabled(s, step) && !step.Clear?
    ensures var r := Apply(s, step);
            && step.t in r.calls
            && (|| r.calls == s.calls[step.t := r.calls[step.t]]
                || ((step.NotifyOne? || step.CancelPop?) && step.w.Some? &&
                    Waiter(s, step.w.value, s.calls[step.t].name) &&
                    r.calls == s.calls[step.w.value := Woken(s.calls[step.t].name)][step.t := r.calls[step.t]]))
  {
  }

  lemma InStep(s: State, step: Step, p: Call -> bool)
    requires Enabled(s, step) && !step.Clear?
    requires forall n :: !p(Parked(n)) && !p(Woken(n))
    ensures step.t in Apply(s, step).calls
    ensures |In(Apply(s, step).calls, p)| ==
            |In(s.calls, p)| + One(p(Apply(s, step).calls[step.t])) - One(step.t in s.calls && p(s.calls[step.t]))
  {
    var r := Apply(s, step);
    CallsStep(s, step);
    if r.calls == s.calls[step.t := r.calls[step.t]] {
      InAfter(s.calls, p, step.t, r.calls[step.t]);
    } else {
      var mid := s.calls[step.w.value := Woken(s.calls[step.t].name)];
      InAfter(s.calls, p, step.w.value, Woken(s.calls[step.t].name));
      InAfter(mid, p, step.t, r.calls[step.t]);
    }
  }

  ghost predicate Balanced(s: State) {
    && s.nextId == 1 + s.pushed + s.rejected + |In(s.calls, Drew)|
    && s.tally.enqueued == s.pushed + |In(s.calls, Uncounted)|
    && s.tally.popped == s.popped + |In(s.calls, Counts)|
    && s.tally.enqueued == s.tally.popped + s.tally.cleared + Queued(s)
  }

  lemma QueuedStep(s: State, step: Step)
    requires Enabled(s, step)
    ensures var r := Apply(s, step);
            r.tally.enqueued - r.tally.popped - r.tally.cleared - Queued(r) ==
            s.tally.enqueued - s.tally.popped - s.tally.cleared - Queued(s)
  {
    var r := Apply(s, step);
    if r.channels == s.channels {
      assert Queued(r) == Queued(s);
    } else {
      var n := if step.Clear? then step.name else s.calls[step.t].name;
      assert r.channels == s.channels[n := r.channels[n]];
      QueuedAfter(s, n, r.channels[n]);
      assert Queued(r) == Queued(SetChan(s, n, r.channels[n]));
    }
  }

  lemma DrawnStep(s: State, step: Step)
    requires Enabled(s, step) && s.nextId == 1 + s.pushed + s.rejected + |In(s.calls, Drew)|
    ensures var r := Apply(s, step); r.nextId == 1 + r.pushed + r.rejected + |In(r.calls, Drew)|
  {
    if !step.Clear? { InStep(s, step, Drew); }
  }

  lemma EnqueuedStep(s: State, step: Step)
    requires Enabled(s, step) && s.tally.enqueued == s.pushed + |In(s.calls, Uncounted)|
    ensures var r := Apply(s, step); r.tally.enqueued == r.pushed + |In(r.calls, Uncounted)|
  {
    if !step.Clear? { InStep(s, step, Uncounted); }
  }

  lemma PoppedStep(s: State, step: Step)
    requires Enabled(s, step) && s.tally.popped == s.popped + |In(s.calls, Counts)|
    ensures var r := Apply(s, step); r.tally.popped == r.popped + |In(r.calls, Counts)|
  {
    if !step.Clear? { InStep(s, step, Counts); }
  }

  lemma BalancedStep(s: State, step: Step)
    requires Balanced(s) && Enabled(s, step)
    ensures Balanced(Apply(s, step))
  {
    QueuedStep(s, step);
    DrawnStep(s, step);
    EnqueuedStep(s, step);
    PoppedStep(s, step);
  }

  // ------------------------------------------------------------------ ids and delivery

  ghost function Ids(ch: Chan): set<nat> { set j | j in ch.accepted :: j.id }

  ghost predicate IdsDistinct(jobs: seq<Job>) {
    forall i, j :: 0 <= i < j < |jobs| ==> jobs[i].id != jobs[j].id
  }

  /** Ids are below the counter, distinct within a channel, across channels and from ids still in hand. */
  ghost predicate UniqueIds(s: State) {
    && (forall n :: n in s.channels ==> IdsDistinct(s.channels[n].accepted))
    && (forall n, i :: n in s.channels && i in Ids(s.channels[n]) ==> i < s.nextId)
    && (forall n, m :: n in s.channels && m in s.channels && n != m ==> Ids(s.channels[n]) !! Ids(s.channels[m]))
    && (forall t :: t in s.calls && s.calls[t].Numbered? ==> s.calls[t].id < s.nextId)
    && (forall t, n :: t in s.calls && s.calls[t].Numbered? && n in s.channels ==> s.calls[t].id !in Ids(s.channels[n]))
    && (forall t, u :: t in s.calls && u in s.calls && t != u && s.calls[t].Numbered? && s.calls[u].Numbered? ==>
          s.calls[t].id != s.calls[u].id)
  }

  lemma IdsEnqueue(ch: Chan, job: Job)
    ensures Ids(ch.(queue := ch.queue + [job], accepted := ch.accepted + [job])) == Ids(ch) + {job.id}
    ensures IdsDistinct(ch.accepted) && job.id !in Ids(ch) ==> IdsDistinct(ch.accepted + [job])
  {
    var a := ch.accepted + [job];
    var r := ch.(queue := ch.queue + [job], accepted := a);
    forall i ensures i in Ids(r) <==> i in Ids(ch) + {job.id} {
      if i in Ids(ch) { var j :| j in ch.accepted && j.id == i; assert j in a; }
      assert job in a;
    }
    forall i | 0 <= i < |ch.accepted| ensures ch.accepted[i].id in Ids(ch) { assert ch.accepted[i] in ch.accepted; }
  }

  /** Outside enqueue, a channel's history of accepted jobs stays as it is. */
  lemma AcceptedStep(s: State, step: Step, n: Name)
    requires Enabled(s, step) && !step.Enqueue? && n in Apply(s, step).channels
    ensures Apply(s, step).channels[n].accepted == if n in s.channels then s.channels[n].accepted else []
  {
  }

  lemma HistorySame(s: State, step: Step)
    requires Enabled(s, step) && !step.Enqueue?
    ensures var r := Apply(s, step);
            forall n :: n in r.channels ==>
              && r.channels[n].accepted == (if n in s.channels then s.channels[n].accepted else [])
              && Ids(r.channels[n]) == if n in s.channels then Ids(s.channels[n]) else {}
  {
    forall n | n in Apply(s, step).channels
      ensures Apply(s, step).channels[n].accepted == if n in s.channels then s.channels[n].accepted else []
    {
      AcceptedStep(s, step, n);
    }
  }

  /** Ids in hand are those of before, except one that is drawn fresh. */
  lemma NumberedStep(s: State, step: Step)
    requires Enabled(s, step) && !step.Enqueue?
    ensures var r := Apply(s, step);
            && s.nextId <= r.nextId
            && (forall t :: t in r.calls && r.calls[t].Numbered? ==>
                  (step == TakeId(t) && r.calls[t].id == s.nextId < r.nextId) ||
                    (t in s.calls && s.calls[t] == r.calls[t]))
  {
  }

  lemma UniqueFrom(s: State, r: State, fresh': Option<Tid>)
    requires UniqueIds(s) && s.nextId <= r.nextId
    requires forall n :: n in r.channels ==>
               && r.channels[n].accepted == (if n in s.channels then s.channels[n].accepted else [])
               && Ids(r.channels[n]) == if n in s.channels then Ids(s.channels[n]) else {}
    requires forall t :: t in r.calls && r.calls[t].Numbered? ==>
               (fresh' == Some(t) && r.calls[t].id == s.nextId < r.nextId) || (t in s.calls && s.calls[t] == r.calls[t])
    ensures UniqueIds(r)
  {
  }

  lemma UniqueQuiet(s: State, step: Step)
    requires UniqueIds(s) && Enabled(s, step) && !step.Enqueue?
    ensures UniqueIds(Apply(s, step))
  {
    HistorySame(s, step);
    NumberedStep(s, step);
    UniqueFrom(s, Apply(s, step), if step.TakeId? then Some(step.t) else None);
  }

  lemma UniqueAdd(s: State, r: State, t: Tid, name: Name, job: Job)
    requires UniqueIds(s) && t in s.calls && s.calls[t].Numbered? && s.calls[t].id == job.id && name in s.channels
    requires r.nextId == s.nextId && r.channels.Keys == s.channels.Keys
    requires forall n :: n in s.channels && n != name ==> r.channels[n] == s.channels[n]
    requires Ids(r.channels[name]) == Ids(s.channels[name]) + {job.id} && IdsDistinct(r.channels[name].accepted)
    requires forall u :: u in r.calls && r.calls[u].Numbered? ==> u != t && u in s.calls && s.calls[u] == r.calls[u]
    ensures UniqueIds(r)
  {
  }

  lemma UniqueEnqueue(s: State, t: Tid)
    requires UniqueIds(s) && Enabled(s, Enqueue(t))
    ensures UniqueIds(Apply(s, Enqueue(t)))
  {
    var r := Apply(s, Enqueue(t));
    var Numbered(name, payload, id) := s.calls[t];
    assert r.calls == s.calls[t := r.calls[t]] && !r.calls[t].Numbered?;
    if r.channels == s.channels {
      UniqueFrom(s, r, None);
    } else {
      IdsEnqueue(s.channels[name], Job(id, payload));
      UniqueAdd(s, r, t, name, Job(id, payload));
    }
  }

  lemma UniqueStep(s: State, step: Step)
    requires UniqueIds(s) && Enabled(s, step)
    ensures UniqueIds(Apply(s, step))
  {
    if step.Enqueue? { UniqueEnqueue(s, step.t); } else { UniqueQuiet(s, step); }
  }

  function Delivered(c: Call): Option<Job> {
    match c
    case Counting(_, job) => Some(job)
    case Done(Popped(job)) => job
    case _ => None
  }

  ghost predicate TakenFrom(s: State, n: Name, job: Job) {
    n in s.channels && (job, true) in s.channels[n].taken
  }

  /** Every delivered job was taken from some channel by a pop, and no two calls got the same one. */
  ghost predicate DeliveredOnce(s: State) {
    && (forall t :: t in s.calls && Delivered(s.calls[t]).Some? ==>
        exists n :: TakenFrom(s, n, Delivered(s.calls[t]).value))
    && (forall t, u :: t in s.calls && u in s.calls && t != u &&
                       Delivered(s.calls[t]).Some? && Delivered(s.calls[u]).Some? ==>
          Delivered(s.calls[t]).value.id != Delivered(s.calls[u]).value.id)
  }

  /** The job at the head of a queue has an id that no removed job has. */
  lemma HeadIsNew(s: State, n: Name, m: Name, job: Job)
    requires ChannelsProper(s) && UniqueIds(s) && n in s.channels && s.channels[n].queue != [] && TakenFrom(s, m, job)
    ensures job.id != s.channels[n].queue[0].id
  {
    var a, b := s.channels[n], s.channels[m];
    var i :| 0 <= i < |b.taken| && b.taken[i] == (job, true);
    assert b.accepted[i] == Jobs(b.taken)[i] == job;
    assert a.accepted[|a.taken|] == a.queue[0];
    if m != n {
      assert job in b.accepted && a.queue[0] in a.accepted;
      assert job.id in Ids(b) && a.queue[0].id in Ids(a);
    }
  }

  lemma TakenStays(s: State, step: Step, n: Name, job: Job)
    requires Enabled(s, step) && TakenFrom(s, n, job)
    ensures TakenFrom(Apply(s, step), n, job)
  {
  }

  /** Only a successful pop delivers, and it delivers the head of its channel's queue. */
  lemma DeliveredStep(s: State, step: Step, t: Tid)
    requires Enabled(s, step) && t in Apply(s, step).calls && Delivered(Apply(s, step).calls[t]).Some?
    ensures || (t in s.calls && Delivered(s.calls[t]) == Delivered(Apply(s, step).calls[t]))
            || (step == TryPop(t) && s.channels[s.calls[t].name].queue != [] &&
                Delivered(Apply(s, step).calls[t]).value == s.channels[s.calls[t].name].queue[0] &&
                TakenFrom(Apply(s, step), s.calls[t].name, Delivered(Apply(s, step).calls[t]).value))
  {
  }

  lemma DeliveredOnceStep(s: State, step: Step)
    requires ChannelsProper(s) && UniqueIds(s) && DeliveredOnce(s) && Enabled(s, step)
    ensures DeliveredOnce(Apply(s, step))
  {
    var r := Apply(s, step);
    forall t | t in r.calls && Delivered(r.calls[t]).Some?
      ensures exists n :: TakenFrom(r, n, Delivered(r.calls[t]).value)
    {
      DeliveredStep(s, step, t);
      if t in s.calls && Delivered(s.calls[t]) == Delivered(r.calls[t]) {
        var n :| TakenFrom(s, n, Delivered(s.calls[t]).value);
        TakenStays(s, step, n, Delivered(s.calls[t]).value);
      }
    }
    forall t, u | t in r.calls && u in r.calls && t != u && Delivered(r.calls[t]).Some? && Delivered(r.calls[u]).Some?
      ensures Delivered(r.calls[t]).value.id != Delivered(r.calls[u]).value.id
    {
      DeliveredStep(s, step, t);
      DeliveredStep(s, step, u);
      if step == TryPop(t) { NewDiffers(s, step, t, u); }
      if step == TryPop(u) { NewDiffers(s, step, u, t); }
    }
  }

  lemma NewDiffers(s: State, step: Step, t: Tid, u: Tid)
    requires ChannelsProper(s) && UniqueIds(s) && DeliveredOnce(s) && Enabled(s, step) && step == TryPop(t) && t != u
    requires u in s.calls && Delivered(s.calls[u]).Some? && s.channels[s.calls[t].name].queue != []
    ensures Delivered(s.calls[u]).value.id != s.channels[s.calls[t].name].queue[0].id
  {
    var n :| TakenFrom(s, n, Delivered(s.calls[u]).value);
    HeadIsNew(s, s.calls[t].name, n, Delivered(s.calls[u]).value);
  }

  // ------------------------------------------------------------------ whole runs

  ghost predicate Inv(s: State) {
    ChannelsProper(s) && Balanced(s) && UniqueIds(s) && DeliveredOnce(s)
  }

  lemma InvStep(s: State, step: Step)
    requires Inv(s) && Enabled(s, step)
    ensures Inv(Apply(s, step))
  {
    ChannelsStep(s, step);
    BalancedStep(s, step);
    UniqueStep(s, step);
    DeliveredOnceStep(s, step);
  }

  lemma ConstantsStep(s: State, step: Step)
    requires Enabled(s, step)
    ensures Apply(s, step).capacity == s.capacity && Apply(s, step).maxChannels == s.maxChannels
  {
  }

  lemma {:induction false} AlwaysInv(s: State, run: seq<Step>)
    requires Inv(s) && ValidRun(s, run)
    ensures Inv(After(s, run)) && After(s, run).capacity == s.capacity && After(s, run).maxChannels == s.maxChannels
    decreases |run|
  {
    if run != [] {
      InvStep(s, run[0]);
      ConstantsStep(s, run[0]);
      AlwaysInv(Apply(s, run[0]), run[1..]);
    }
  }

  lemma InitInv(maxChannels: nat, capacity: nat)
    ensures Inv(Init(maxChannels, capacity))
  {
    var s := Init(maxChannels, capacity);
    assert (map n | n in s.channels :: |s.channels[n].queue|) == map[];
    assert In(s.calls, Drew) == {} && In(s.calls, Uncounted) == {} && In(s.calls, Counts) == {};
  }

  /** In every interleaving: each channel removes jobs in the order they were enqueued, never holds more
      than its capacity, all ids ever enqueued differ, and no two pops return the same job. */
  lemma FifoUniqueDelivery(maxChannels: nat, capacity: nat, run: seq<Step>)
    requires ValidRun(Init(maxChannels, capacity), run)
    ensures var s := After(Init(maxChannels, capacity), run);
            && (forall n :: n in s.channels ==>
                  && Jobs(s.channels[n].taken) <= s.channels[n].accepted
                  && s.channels[n].accepted == Jobs(s.channels[n].taken) + s.channels[n].queue
                  && |s.channels[n].queue| <= capacity
                  && IdsDistinct(s.channels[n].accepted))
            && (forall n, m :: n in s.channels && m in s.channels && n != m ==>
                Ids(s.channels[n]) !! Ids(s.channels[m]))
            && DeliveredOnce(s)
  {
    InitInv(maxChannels, capacity);
    AlwaysInv(Init(maxChannels, capacity), run);
  }

  /** No call is between drawing an id and being counted. */
  ghost predicate Quiescent(s: State) {
    forall t :: t in s.calls ==> s.calls[t].Done?
  }

  /** At quiescence every id is accounted for as pushed or rejected, and every pushed job as popped,
      cleared or still queued. */
  lemma CountersBalance(maxChannels: nat, capacity: nat, run: seq<Step>)
    requires ValidRun(Init(maxChannels, capacity), run)
    requires Quiescent(After(Init(maxChannels, capacity), run))
    ensures var s := After(Init(maxChannels, capacity), run);
            s.nextId - 1 == s.pushed + s.rejected && s.pushed == s.popped + s.tally.cleared + Queued(s)
  {
    InitInv(maxChannels, capacity);
    AlwaysInv(Init(maxChannels, capacity), run);
    var s := After(Init(maxChannels, capacity), run);
    assert In(s.calls, Drew) == {} && In(s.calls, Uncounted) == {} && In(s.calls, Counts) == {};
  }

  // ------------------------------------------------------------------ the channel cap

  predicate Active(c: Call) { !c.Done? }

  /** At most `k` calls are in progress in every state of the run. */
  ghost predicate BusyAtMost(s: State, run: seq<Step>, k: nat)
    requires ValidRun(s, run)
    decreases |run|
  {
    |In(s.calls, Active)| <= k && (run == [] || BusyAtMost(Apply(s, run[0]), run[1..], k))
  }

  /** Channels that exist or are about to. */
  ghost predicate Capped(s: State, k: nat) {
    |s.channels| + |In(s.calls, Creates)| <= s.maxChannels - 1 + k
  }

  lemma CreatorsActive(calls: map<Tid, Call>)
    ensures |In(calls, Creates)| <= |In(calls, Active)|
  {
    var a, b := In(calls, Creates), In(calls, Active);
    assert a <= b;
    assert b == a + (b - a) && a !! (b - a);
  }

  /** Only an insert adds a channel, and its caller stops creating. */
  lemma ChannelsAdded(s: State, step: Step)
    requires Enabled(s, step)
    ensures var r := Apply(s, step);
            if step.Insert?
            then |r.channels| <= |s.channels| + 1 && s.calls[step.t].Creating? && !Creates(r.calls[step.t])
            else |r.channels| == |s.channels|
  {
    var r := Apply(s, step);
    if step.Insert? {
      assert r.channels.Keys <= s.channels.Keys + {s.calls[step.t].name};
      if s.calls[step.t].name !in s.channels { assert r.channels.Keys == s.channels.Keys + {s.calls[step.t].name}; }
    } else {
      assert r.channels.Keys == s.channels.Keys;
    }
  }

  /** A call starts creating only below the cap. */
  lemma CreatingBelowCap(s: State, step: Step)
    requires Enabled(s, step) && !step.Clear?
    ensures step.t in Apply(s, step).calls
    ensures Creates(Apply(s, step).calls[step.t]) && !(step.t in s.calls && Creates(s.calls[step.t])) ==>
              |s.channels| < s.maxChannels
  {
  }

  lemma CappedStep(s: State, step: Step, k: nat)
    requires Capped(s, k) && Enabled(s, step) && |In(Apply(s, step).calls, Active)| <= k
    ensures Capped(Apply(s, step), k)
  {
    CreatorsActive(Apply(s, step).calls);
    ChannelsAdded(s, step);
    ConstantsStep(s, step);
    if !step.Clear? {
      InStep(s, step, Creates);
      CreatingBelowCap(s, step);
    }
  }

  /** With at most `k` calls in progress at any time, the channel map never exceeds the cap by more
      than `k - 1`, however the racy checks interleave. */
  lemma {:induction false} ChannelCap(s: State, run: seq<Step>, k: nat)
    requires Capped(s, k) && ValidRun(s, run) && BusyAtMost(s, run, k)
    ensures Capped(After(s, run), k) && |After(s, run).channels| <= s.maxChannels - 1 + k
    decreases |run|
  {
    if run != [] {
      assert BusyAtMost(Apply(s, run[0]), run[1..], k);
      CappedStep(s, run[0], k);
      ChannelCap(Apply(s, run[0]), run[1..], k);
    }
  }

  lemma ChannelCapFromStart(maxChannels: nat, capacity: nat, run: seq<Step>, k: nat)
    requires ValidRun(Init(maxChannels, capacity), run) && k >= 1 && BusyAtMost(Init(maxChannels, capacity), run, k)
    ensures |After(Init(maxChannels, capacity), run).channels| <= maxChannels - 1 + k
  {
    var s := Init(maxChannels, capacity);
    assert In(s.calls, Creates) == {};
    ChannelCap(s, run, k);
  }
}
