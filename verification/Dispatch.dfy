/**
 The worker dispatch protocol as a transition system.

 A request future runs `get_idle` (acquire a permit, pop a slot index, check its health),
 talks to the worker behind that slot over a pair of pipes and gives the slot back through
 an RAII guard; a reaper task concurrently runs `refresh_fds`.  Every atomic action of the
 source is one `Step`; a run is any sequence of enabled steps.
 */
module Dispatch {

  type Tid = nat
  type PipeId = nat

  // ------------------------------------------------------------------ shared fields

  /** The fields of `ThreadDispatch` that the hot path and the reaper both touch.  `quota[i]` is
      the staggered request quota of slot `i`, 0 when recycling is off. */
  datatype Core = Core(permits: nat, queue: seq<nat>, unhealthy: seq<bool>, served: seq<nat>, quota: seq<nat>) {
    predicate Valid() {
      |unhealthy| == |served| == |quota|
    }

    /** The number of slots for which health is tracked. */
    function Cap(): nat { |unhealthy| }

    predicate OverQuota(i: nat)
      requires Valid() && i < Cap()
    {
      quota[i] > 0 && served[i] >= quota[i]
    }

    /** A slot that `get_idle` refuses and that `refresh_fds` means to revive. */
    predicate Flagged(i: nat)
      requires Valid() && i < Cap()
    {
      unhealthy[i] || OverQuota(i)
    }

    predicate Pickable(i: nat)
      requires Valid()
    {
      i < Cap() && !unhealthy[i] && !OverQuota(i)
    }

    function MarkUnhealthy(i: nat): (r: Core)
      requires Valid()
      ensures r.Valid() && r.Cap() == Cap()
    {
      if i < Cap() then this.(unhealthy := unhealthy[i := true]) else this
    }

    function RecordServed(i: nat): (r: Core)
      requires Valid()
      ensures r.Valid() && r.Cap() == Cap()
    {
      if i < Cap() then this.(served := served[i := served[i] + 1]) else this
    }

    /** The two swaps `refresh_fds` performs on one slot. */
    function ResetSlot(i: nat): (r: Core)
      requires Valid() && i < Cap()
      ensures r.Valid() && r.Cap() == Cap()
    {
      this.(unhealthy := unhealthy[i := false], served := served[i := 0])
    }

    function Push(i: nat): Core { this.(queue := queue + [i]) }

    function AddPermits(k: nat): Core { this.(permits := permits + k) }

    /** Queue every revived slot that is not queued already. */
    function PushMissing(revived: seq<nat>): (r: Core)
      ensures r == this.(queue := r.queue)
      decreases |revived|
    {
      if revived == [] then this
      else
        var rest := PushMissing(revived[..|revived| - 1]);
        if revived[|revived| - 1] in rest.queue then rest else rest.Push(revived[|revived| - 1])
    }
  }

  function MaxSkips(cap: nat): nat { 2 * (if cap == 0 then 1 else cap) }

  // ------------------------------------------------------------------ pipes and workers

  /** One piece of a response, tagged with the request that caused it. */
  datatype Chunk = Chunk(owner: Tid, num: nat, last: bool)

  datatype Worker = Idle | Serving(owner: Tid, emitted: nat)

  /** A command/response pipe pair with the worker at its far end. */
  datatype Pipe = Pipe(inbox: seq<Tid>, worker: Worker, outbox: seq<Chunk>)

  const EmptyPipe: Pipe := Pipe([], Idle, [])

  // ------------------------------------------------------------------ request futures

  datatype Task =
    | Waiting(skips: nat)                                  // awaiting a permit in get_idle
    | Acquired(skips: nat)                                 // permit forgotten, nothing popped yet
    | Popped(idx: nat, skips: nat)                         // index popped, health not checked yet
    | Restoring                                            // queue was empty, permit to be restored
    | Claimed(idx: nat)                                    // get_idle returned; guard not armed
    | Armed(idx: nat, pipe: PipeId)                        // fds read, guard armed
    | Reading(idx: nat, pipe: PipeId, got: seq<Chunk>)     // request written, decoding the response
    | Decoded(idx: nat, got: seq<Chunk>)                   // response complete, not recorded yet
    | Completed(idx: nat, got: seq<Chunk>)                 // guard drop is about to return the slot
    | Returned(got: seq<Chunk>)                            // slot pushed, permit owed
    | Finished(got: seq<Chunk>)
    | Ended                                                // no worker, or the guard poisoned its slot

  predicate Holding(x: Task) {
    x.Popped? || x.Claimed? || x.Armed? || x.Reading? || x.Decoded? || x.Completed?
  }

  predicate Attached(x: Task) { x.Armed? || x.Reading? }

  /** A call between its permit and its pop, or a return between its push and its permit. */
  predicate Owes(x: Task) { x.Acquired? || x.Returned? }

  /** A task whose consumed permit has not met its fate yet. */
  predicate Undecided(x: Task) { x.Acquired? || x.Popped? || x.Restoring? }

  // ------------------------------------------------------------------ reaper

  datatype Reaper =
    | Resting
    | Scanning(prevLen: nat, newLen: nat, at: nat, revived: seq<nat>)
    | Owing(count: nat, prevLen: nat, newLen: nat)          // revived slots queued, permits owed
    | Growing(prevLen: nat, newLen: nat)                   // about to run the scale-up branch
    | GrownOwing(count: nat)
    | Dead                                                 // the reaper panicked

  function ReaperOwes(r: Reaper): nat {
    match r
    case Owing(count, _, _) => count
    case GrownOwing(count) => count
    case _ => 0
  }

  function Revived(r: Reaper): seq<nat> { if r.Scanning? then r.revived else [] }

  // ------------------------------------------------------------------ state

  /** What became of the permits that `get_idle` consumed. */
  datatype Tally = Tally(consumed: nat, handedOut: nat, restored: nat, retired: nat)

  datatype State = State(
    core: Core,
    tasks: map<Tid, Task>,
    reaper: Reaper,
    fds: seq<PipeId>,
    pipes: map<PipeId, Pipe>,
    channels: bool,
    tally: Tally)

  function Slots(n: nat): seq<nat> { seq(n, i => i) }

  /** `ThreadDispatch::new` and `spawn_channel_workers`: every slot idle, one permit each.  Channel mode
      starts without fds. */
  function Init(quota: seq<nat>, channels: bool): (s: State)
    ensures s.core.Valid()
  {
    var n := |quota|;
    var fds := if channels then [] else Slots(n);
    State(
      Core(n, Slots(n), seq(n, i => false), seq(n, i => 0), quota),
      map[], Resting,
      fds,
      map p | p in fds :: EmptyPipe,
      channels,
      Tally(0, 0, 0, 0))
  }

  datatype Step =
    | Arrive(t: Tid)
    | Acquire(t: Tid)
    | StopWaiting(t: Tid)                    // timeout or cancellation while awaiting the permit
    | Pop(t: Tid)
    | Restore(t: Tid)
    | Check(t: Tid)
    | Arm(t: Tid)
    | Send(t: Tid)
    | SendFails(t: Tid, partial: bool)
    | Read(t: Tid)
    | Poison(t: Tid)                         // cancellation, EOF or decode error while reading
    | ChannelReply(t: Tid)
    | DropUnarmed(t: Tid, mark: bool)        // channel-mode cancellation or failure
    | RecordServed(t: Tid)
    | PushBack(t: Tid)
    | AddPermit(t: Tid)
    | WorkerTake(p: PipeId)
    | WorkerEmit(p: PipeId, last: bool)
    | MarkOverQuota(i: nat)                  // reaper, before refresh_fds
    | InstallFds(newFds: seq<PipeId>)
    | Scan
    | PushRevived
    | AddRevivedPermits
    | Grow
    | AddGrownPermits

  /** The pool hands out its current pipes: a slot keeps its pipe pair or gets a brand-new one.  In channel mode
      the pool registers dummies, which may all be equal. */
  predicate FdsFromPool(s: State, newFds: seq<PipeId>) {
    s.channels ||
    (&& (forall i :: 0 <= i < |newFds| ==> (i < |s.fds| && newFds[i] == s.fds[i]) || newFds[i] !in s.pipes)
     && (forall i, j :: 0 <= i < j < |newFds| ==> newFds[i] != newFds[j]))
  }

  function ScanEnd(s: State): nat
    requires s.reaper.Scanning?
  {
    if s.reaper.newLen < s.core.Cap() then s.reaper.newLen else s.core.Cap()
  }

  /** Steps of workers and of the reaper. */
  predicate OfPool(step: Step) {
    || step.WorkerTake? || step.WorkerEmit? || step.MarkOverQuota? || step.InstallFds? || step.Scan?
    || step.PushRevived? || step.AddRevivedPermits? || step.Grow? || step.AddGrownPermits?
  }

  predicate TaskEnabled(s: State, step: Step)
    requires s.core.Valid() && !OfPool(step)
  {
    match step
    case Arrive(t) => t !in s.tasks
    case Acquire(t) => t in s.tasks && s.tasks[t].Waiting? && s.core.permits > 0
    case StopWaiting(t) => t in s.tasks && s.tasks[t].Waiting?
    case Pop(t) => t in s.tasks && s.tasks[t].Acquired?
    case Restore(t) => t in s.tasks && s.tasks[t].Restoring?
    case Check(t) => t in s.tasks && s.tasks[t].Popped?
    case Arm(t) =>
      t in s.tasks && s.tasks[t].Claimed? && !s.channels &&
      s.tasks[t].idx < |s.fds| && s.fds[s.tasks[t].idx] in s.pipes
    case Send(t) => t in s.tasks && s.tasks[t].Armed? && s.tasks[t].pipe in s.pipes
    case SendFails(t, partial) => t in s.tasks && s.tasks[t].Armed? && s.tasks[t].pipe in s.pipes
    case Read(t) =>
      t in s.tasks && s.tasks[t].Reading? && s.tasks[t].pipe in s.pipes &&
      s.pipes[s.tasks[t].pipe].outbox != []
    case Poison(t) => t in s.tasks && s.tasks[t].Reading?
    case ChannelReply(t) => t in s.tasks && s.tasks[t].Claimed? && s.channels
    case DropUnarmed(t, mark) =>
      t in s.tasks && s.tasks[t].Claimed? && (s.channels || (s.tasks[t].idx >= |s.fds| && !mark))
    case RecordServed(t) => t in s.tasks && s.tasks[t].Decoded?
    case PushBack(t) => t in s.tasks && s.tasks[t].Completed?
    case AddPermit(t) => t in s.tasks && s.tasks[t].Returned?
  }

  predicate PoolEnabled(s: State, step: Step)
    requires s.core.Valid() && OfPool(step)
  {
    match step
    case WorkerTake(p) => p in s.pipes && s.pipes[p].worker.Idle? && s.pipes[p].inbox != []
    case WorkerEmit(p, last) => p in s.pipes && s.pipes[p].worker.Serving?
    case MarkOverQuota(i) => s.reaper.Resting? && i < s.core.Cap() && !s.core.unhealthy[i] && s.core.OverQuota(i)
    case InstallFds(newFds) => s.reaper.Resting? && FdsFromPool(s, newFds)
    case Scan => s.reaper.Scanning? && s.reaper.at < ScanEnd(s)
    case PushRevived => s.reaper.Scanning? && s.reaper.at >= ScanEnd(s)
    case AddRevivedPermits => s.reaper.Owing?
    case Grow => s.reaper.Growing?
    case AddGrownPermits => s.reaper.GrownOwing?
  }

  predicate Enabled(s: State, step: Step)
    requires s.core.Valid()
  {
    if OfPool(step) then PoolEnabled(s, step) else TaskEnabled(s, step)
  }

  function Set(s: State, t: Tid, x: Task): State { s.(tasks := s.tasks[t := x]) }

  /** The guard of an armed, uncompleted request is dropped: flag the slot, do not return it. */
  function PoisonSlot(s: State, t: Tid, idx: nat): (r: State)
    requires s.core.Valid()
    ensures r.core.Valid()
  {
    Set(s, t, Ended).(core := s.core.MarkUnhealthy(idx))
  }

  function ApplyPool(s: State, step: Step): (r: State)
    requires s.core.Valid() && OfPool(step) && PoolEnabled(s, step)
    ensures r.core.Valid()
  {
    match step
    case WorkerTake(p) =>
      var q := s.pipes[p];
      s.(pipes := s.pipes[p := Pipe(q.inbox[1..], Serving(q.inbox[0], 0), q.outbox)])
    case WorkerEmit(p, last) =>
      var Pipe(inbox, Serving(owner, k), outbox) := s.pipes[p];
      var worker := if last then Idle else Serving(owner, k + 1);
      s.(pipes := s.pipes[p := Pipe(inbox, worker, outbox + [Chunk(owner, k, last)])])
    case MarkOverQuota(i) => s.(core := s.core.MarkUnhealthy(i))
    case InstallFds(newFds) =>
      s.(fds := newFds,
         pipes := s.pipes + (map p | p in newFds && p !in s.pipes :: EmptyPipe),
         reaper := Scanning(|s.fds|, |newFds|, 0, []))
    case Scan =>
      var Scanning(prevLen, newLen, i, revived) := s.reaper;
      var back := i < prevLen && s.core.Flagged(i);
      s.(core := s.core.ResetSlot(i),
         reaper := Scanning(prevLen, newLen, i + 1, if back then revived + [i] else revived))
    case PushRevived =>
      var Scanning(prevLen, newLen, _, revived) := s.reaper;
      s.(core := s.core.PushMissing(revived), reaper := Owing(|revived|, prevLen, newLen))
    case AddRevivedPermits =>
      s.(core := s.core.AddPermits(s.reaper.count), reaper := Growing(s.reaper.prevLen, s.reaper.newLen))
    case Grow =>
      var Growing(prevLen, newLen) := s.reaper;
      if newLen <= prevLen then s.(reaper := Resting)
      else if prevLen > s.core.Cap() then s.(reaper := Dead)
      else
        var grown := Grown(s);
        s.(core := s.core.(queue := s.core.queue + grown), reaper := GrownOwing(|grown|))
    case AddGrownPermits => s.(core := s.core.AddPermits(s.reaper.count), reaper := Resting)
  }

  function ApplyTask(s: State, step: Step): (r: State)
    requires s.core.Valid() && !OfPool(step) && TaskEnabled(s, step)
    ensures r.core.Valid()
  {
    match step
    case Arrive(t) => Set(s, t, Waiting(0))
    case Acquire(t) =>
      Set(s, t, Acquired(s.tasks[t].skips)).(
        core := s.core.(permits := s.core.permits - 1),
        tally := s.tally.(consumed := s.tally.consumed + 1))
    case StopWaiting(t) => Set(s, t, Ended)
    case Pop(t) =>
      if s.core.queue == [] then Set(s, t, Restoring)
      else
        var last := |s.core.queue| - 1;
        Set(s, t, Popped(s.core.queue[last], s.tasks[t].skips)).(core := s.core.(queue := s.core.queue[..last]))
    case Restore(t) =>
      Set(s, t, Ended).(core := s.core.AddPermits(1), tally := s.tally.(restored := s.tally.restored + 1))
    case Check(t) =>
      var Popped(idx, skips) := s.tasks[t];
      if s.core.Pickable(idx) then
        Set(s, t, Claimed(idx)).(tally := s.tally.(handedOut := s.tally.handedOut + 1))
      else
        Set(s, t, if skips + 1 >= MaxSkips(s.core.Cap()) then Ended else Waiting(skips + 1)).(
          tally := s.tally.(retired := s.tally.retired + 1))
    case Arm(t) => Set(s, t, Armed(s.tasks[t].idx, s.fds[s.tasks[t].idx]))
    case Send(t) =>
      var Armed(idx, p) := s.tasks[t];
      Set(s, t, Reading(idx, p, [])).(pipes := s.pipes[p := s.pipes[p].(inbox := s.pipes[p].inbox + [t])])
    case SendFails(t, partial) =>
      var Armed(idx, p) := s.tasks[t];
      var r := PoisonSlot(s, t, idx);
      if partial then r.(pipes := s.pipes[p := s.pipes[p].(inbox := s.pipes[p].inbox + [t])]) else r
    case Read(t) =>
      var Reading(idx, p, got) := s.tasks[t];
      var c := s.pipes[p].outbox[0];
      Set(s, t, if c.last then Decoded(idx, got + [c]) else Reading(idx, p, got + [c])).(
        pipes := s.pipes[p := s.pipes[p].(outbox := s.pipes[p].outbox[1..])])
    case Poison(t) => PoisonSlot(s, t, s.tasks[t].idx)
    case ChannelReply(t) => Set(s, t, Decoded(s.tasks[t].idx, []))
    case DropUnarmed(t, mark) =>
      var idx := s.tasks[t].idx;
      Set(s, t, Completed(idx, [])).(core := if mark then s.core.MarkUnhealthy(idx) else s.core)
    case RecordServed(t) =>
      var Decoded(idx, got) := s.tasks[t];
      Set(s, t, Completed(idx, got)).(core := s.core.RecordServed(idx))
    case PushBack(t) =>
      var Completed(idx, got) := s.tasks[t];
      Set(s, t, Returned(got)).(core := s.core.Push(idx))
    case AddPermit(t) => Set(s, t, Finished(s.tasks[t].got)).(core := s.core.AddPermits(1))
  }

  function Apply(s: State, step: Step): (r: State)
    requires s.core.Valid() && Enabled(s, step)
    ensures r.core.Valid()
  {
    if OfPool(step) then ApplyPool(s, step) else ApplyTask(s, step)
  }

  /** The slots the scale-up branch queues: those past the old length, capped by health tracking. */
  function Grown(s: State): seq<nat>
    requires s.reaper.Growing? && s.reaper.prevLen < s.reaper.newLen && s.reaper.prevLen <= s.core.Cap()
  {
    var lo := s.reaper.prevLen;
    var hi := if s.reaper.newLen < s.core.Cap() then s.reaper.newLen else s.core.Cap();
    seq(hi - lo, k requires 0 <= k < hi - lo => lo + k)
  }

  // ------------------------------------------------------------------ runs

  /** Every step of `run` is enabled when its turn comes. */
  predicate ValidRun(s: State, run: seq<Step>)
    requires s.core.Valid()
    decreases |run|
  {
    run == [] || (Enabled(s, run[0]) && ValidRun(Apply(s, run[0]), run[1..]))
  }

  function After(s: State, run: seq<Step>): (r: State)
    requires s.core.Valid() && ValidRun(s, run)
    ensures r.core.Valid()
    decreases |run|
  {
    if run == [] then s else After(Apply(s, run[0]), run[1..])
  }
}
