/**
 Response isolation in pipe mode.  With cancellation, write failure or decode failure at any
 await, an idle slot's pipe is empty and every decoded response is, chunk for chunk, the answer to
 the request that read it - along exactly those runs in which a slot that a refresh queues is held
 by nobody and has an untouched pipe.  Slots that the refresh finds queued already do no harm.
 */
module DispatchIsolation {
  import opened Util
  import opened Dispatch
  import opened DispatchCover
  import opened DispatchExact
  import opened DispatchExclusive

  /** Nothing was ever written to the pipe and no request uses it. */
  ghost predicate Pristine(s: State, p: PipeId) {
    && p in s.pipes && s.pipes[p] == EmptyPipe
    && forall t :: t in s.tasks && Attached(s.tasks[t]) ==> s.tasks[t].pipe != p
  }

  ghost predicate SlotPristine(s: State, i: nat) { i < |s.fds| ==> Pristine(s, s.fds[i]) }

  /** The first chunks of the answer to `t`, its last one not among them. */
  ghost predicate Partial(t: Tid, got: seq<Chunk>) {
    forall j :: 0 <= j < |got| ==> got[j] == Chunk(t, j, false)
  }

  /** The whole answer to `t`: its chunks, in order, each once, up to and including the last. */
  ghost predicate Whole(t: Tid, got: seq<Chunk>) {
    got != [] && forall j :: 0 <= j < |got| ==> got[j] == Chunk(t, j, j == |got| - 1)
  }

  /** What is in the pipe of a request that has read `got`: its request, or the rest of its answer. */
  ghost predicate Coherent(q: Pipe, t: Tid, got: seq<Chunk>) {
    && Partial(t, got)
    && (|| (q == Pipe([t], Idle, []) && got == [])
        || (q.inbox == [] && q.worker == Serving(t, |got + q.outbox|) && Partial(t, got + q.outbox))
        || (q.inbox == [] && q.worker == Idle && q.outbox != [] && Whole(t, got + q.outbox)))
  }

  ghost predicate Wired(s: State) {
    && NoDup(s.fds)
    && forall i :: 0 <= i < |s.fds| ==> s.fds[i] in s.pipes
  }

  /** Slots at rest: queued, or held by a request that is not on the pipe. */
  ghost predicate RestPristine(s: State) {
    && (forall i :: i in s.core.queue ==> SlotPristine(s, i))
    && (forall t :: t in s.tasks && Holding(s.tasks[t]) && !Attached(s.tasks[t]) ==> SlotPristine(s, s.tasks[t].idx))
  }

  ghost predicate OnPipe(s: State, t: Tid)
    requires t in s.tasks && Attached(s.tasks[t])
  {
    && s.tasks[t].pipe in s.pipes
    && (if s.tasks[t].Armed? then s.pipes[s.tasks[t].pipe] == EmptyPipe
        else Coherent(s.pipes[s.tasks[t].pipe], t, s.tasks[t].got))
    && (s.tasks[t].idx < |s.fds| && s.fds[s.tasks[t].idx] != s.tasks[t].pipe ==> Pristine(s, s.fds[s.tasks[t].idx]))
  }

  ghost predicate PipesProper(s: State) {
    && (forall t :: t in s.tasks && Attached(s.tasks[t]) ==> OnPipe(s, t))
    && (forall t, u :: t in s.tasks && u in s.tasks && t != u && Attached(s.tasks[t]) && Attached(s.tasks[u]) ==>
          s.tasks[t].pipe != s.tasks[u].pipe)
  }

  ghost predicate Answered(x: Task) { x.Decoded? || x.Completed? || x.Returned? || x.Finished? }

  ghost predicate AnswersProper(s: State) {
    forall t :: t in s.tasks && Answered(s.tasks[t]) && s.tasks[t].got != [] ==> Whole(t, s.tasks[t].got)
  }

  ghost predicate Isolated(s: State) {
    Exclusive(s) && !s.channels && Wired(s) && RestPristine(s) && PipesProper(s) && AnswersProper(s)
  }

  /** The step queues only slots that nobody holds, on pristine pipes, and grows by slots that are not queued either. */
  ghost predicate CleanPipes(s: State, step: Step)
    requires s.core.Valid() && Enabled(s, step)
  {
    match step
    case PushRevived => forall i :: i in s.reaper.revived && i !in s.core.queue ==> !Held(s, i) && SlotPristine(s, i)
    case Grow => Grows(s) ==> forall i :: i in Grown(s) ==> i !in s.core.queue && !Held(s, i) && SlotPristine(s, i)
    case _ => true
  }

  /** Steps of a request future that leave every pipe and every attachment alone. */
  predicate OffPipe(step: Step) {
    step.Arrive? || step.Acquire? || step.StopWaiting? || step.Pop? || step.Restore? || step.Check? ||
    step.ChannelReply? || step.DropUnarmed? || step.RecordServed? || step.PushBack? || step.AddPermit?
  }

  lemma PristineSame(s: State, r: State)
    requires s.pipes == r.pipes && s.fds == r.fds
    requires forall t :: t in r.tasks && Attached(r.tasks[t]) ==>
               t in s.tasks && Attached(s.tasks[t]) && r.tasks[t].pipe == s.tasks[t].pipe
    ensures forall p :: Pristine(s, p) ==> Pristine(r, p)
    ensures forall i :: SlotPristine(s, i) ==> SlotPristine(r, i)
  {
  }

  lemma OffPipeFrame(s: State, step: Step)
    requires s.core.Valid() && Enabled(s, step) && OffPipe(step)
    ensures var r := Apply(s, step);
            r.pipes == s.pipes && r.fds == s.fds && r.channels == s.channels && step.t in r.tasks &&
            !Attached(r.tasks[step.t]) && !(step.t in s.tasks && Attached(s.tasks[step.t]))
    ensures AnswersProper(s) && !s.channels ==> AnswersProper(Apply(s, step))
  {
  }

  lemma OffPipeKeepsIsolated(s: State, step: Step)
    requires Isolated(s) && Enabled(s, step) && OffPipe(step)
    ensures Isolated(Apply(s, step))
  {
    OffPipeFrame(s, step);
    TaskMovesSlot(s, step);
    RestAfterOffPipe(s, Apply(s, step), step.t);
    TaskKeepsExclusive(s, step);
  }

  lemma RestAfterOffPipe(s: State, r: State, t: Tid)
    requires Isolated(s) && SlotMove(s, r, t) && s.pipes == r.pipes && s.fds == r.fds
    requires !Attached(r.tasks[t]) && !(t in s.tasks && Attached(s.tasks[t]))
    ensures RestPristine(r) && PipesProper(r)
  {
    PristineSame(s, r);
    if s.core.queue != [] { assert s.core.queue[|s.core.queue| - 1] in s.core.queue; }
  }

  /** The pipe a request works on, or will once it is armed. */
  ghost predicate Works(s: State, t: Tid, p: PipeId) {
    && t in s.tasks && Holding(s.tasks[t])
    && (|| (Attached(s.tasks[t]) && s.tasks[t].pipe == p)
        || (s.tasks[t].Claimed? && s.tasks[t].idx < |s.fds| && s.fds[s.tasks[t].idx] == p))
  }

  /** `t` moves and at most the pipe it works on changes. */
  ghost predicate PipeMove(s: State, r: State, t: Tid, p: PipeId)
    requires t in s.tasks && Holding(s.tasks[t])
  {
    && r.core.queue == s.core.queue && r.reaper == s.reaper && r.fds == s.fds && r.channels == s.channels
    && t in r.tasks && r.tasks == s.tasks[t := r.tasks[t]]
    && p in s.pipes && p in r.pipes && r.pipes == s.pipes[p := r.pipes[p]]
    && (Attached(r.tasks[t]) ==> r.tasks[t].pipe == p && r.tasks[t].idx == s.tasks[t].idx)
    && (Holding(r.tasks[t]) ==> r.tasks[t].idx == s.tasks[t].idx)
  }

  lemma PristineExcept(s: State, r: State, p: PipeId)
    requires forall q :: q in s.pipes && q != p ==> q in r.pipes && r.pipes[q] == s.pipes[q]
    requires forall u :: u in r.tasks && Attached(r.tasks[u]) && r.tasks[u].pipe != p ==>
               u in s.tasks && Attached(s.tasks[u]) && r.tasks[u].pipe == s.tasks[u].pipe
    ensures forall q :: q != p && Pristine(s, q) ==> Pristine(r, q)
  {
  }

  /** No resting slot and no other request is on the pipe `t` works on. */
  lemma PipeUnshared(s: State, t: Tid, p: PipeId, i: nat)
    requires Isolated(s) && Works(s, t, p) && i < |s.fds| && i != s.tasks[t].idx && Pristine(s, s.fds[i])
    ensures s.fds[i] != p
  {
  }

  lemma OthersUndisturbed(s: State, r: State, t: Tid, p: PipeId)
    requires Isolated(s) && Works(s, t, p) && PipeMove(s, r, t, p)
    ensures forall i :: i in s.core.queue ==> SlotPristine(r, i)
    ensures forall u :: u in s.tasks && u != t && Holding(s.tasks[u]) && !Attached(s.tasks[u]) ==>
            SlotPristine(r, s.tasks[u].idx)
    ensures forall u :: u in s.tasks && u != t && Attached(s.tasks[u]) ==> s.tasks[u].pipe != p && OnPipe(r, u)
  {
    PristineExcept(s, r, p);
    forall i | i in s.core.queue ensures SlotPristine(r, i) {
      if i < |s.fds| { PipeUnshared(s, t, p, i); }
    }
    forall u | u in s.tasks && u != t && Holding(s.tasks[u]) && !Attached(s.tasks[u])
      ensures SlotPristine(r, s.tasks[u].idx)
    {
      if s.tasks[u].idx < |s.fds| { PipeUnshared(s, t, p, s.tasks[u].idx); }
    }
    forall u | u in s.tasks && u != t && Attached(s.tasks[u]) ensures s.tasks[u].pipe != p && OnPipe(r, u) {
      var i := s.tasks[u].idx;
      if s.tasks[t].Claimed? { assert Pristine(s, p); }
      if i < |s.fds| && s.fds[i] != s.tasks[u].pipe { PipeUnshared(s, t, p, i); }
    }
  }

  /** If `t` itself ends up in order, so does everyone else. */
  lemma PipeMoveKeepsIsolated(s: State, r: State, t: Tid, p: PipeId)
    requires Isolated(s) && Works(s, t, p) && PipeMove(s, r, t, p) && Exclusive(r)
    requires Attached(r.tasks[t]) ==> OnPipe(r, t)
    requires Holding(r.tasks[t]) && !Attached(r.tasks[t]) ==> SlotPristine(r, s.tasks[t].idx)
    requires Answered(r.tasks[t]) && r.tasks[t].got != [] ==> Whole(t, r.tasks[t].got)
    ensures Isolated(r)
  {
    OthersUndisturbed(s, r, t, p);
  }

  lemma ArmKeepsIsolated(s: State, t: Tid)
    requires Isolated(s) && Enabled(s, Arm(t))
    ensures Isolated(Apply(s, Arm(t)))
  {
    TaskKeepsExclusive(s, Arm(t));
    PipeMoveKeepsIsolated(s, Apply(s, Arm(t)), t, s.fds[s.tasks[t].idx]);
  }

  lemma SlotOfPipe(s: State, r: State, t: Tid, p: PipeId)
    requires Isolated(s) && Works(s, t, p) && Attached(s.tasks[t]) && PipeMove(s, r, t, p)
    ensures var i := s.tasks[t].idx; i < |s.fds| && s.fds[i] != p ==> Pristine(r, s.fds[i])
  {
    assert OnPipe(s, t);
    PristineExcept(s, r, p);
  }

  lemma SendKeepsIsolated(s: State, t: Tid)
    requires Isolated(s) && Enabled(s, Send(t))
    ensures Isolated(Apply(s, Send(t)))
  {
    var r := Apply(s, Send(t));
    var p := s.tasks[t].pipe;
    TaskKeepsExclusive(s, Send(t));
    assert OnPipe(s, t);
    SlotOfPipe(s, r, t, p);
    assert r.pipes[p] == Pipe([t], Idle, []);
    PipeMoveKeepsIsolated(s, r, t, p);
  }

  lemma SendFailsKeepsIsolated(s: State, t: Tid, partial: bool)
    requires Isolated(s) && Enabled(s, SendFails(t, partial))
    ensures Isolated(Apply(s, SendFails(t, partial)))
  {
    var r := Apply(s, SendFails(t, partial));
    var p := s.tasks[t].pipe;
    TaskKeepsExclusive(s, SendFails(t, partial));
    assert OnPipe(s, t);
    if !partial { assert r.pipes == s.pipes[p := s.pipes[p]]; }
    PipeMoveKeepsIsolated(s, r, t, p);
  }

  lemma PoisonKeepsIsolated(s: State, t: Tid)
    requires Isolated(s) && Enabled(s, Poison(t))
    ensures Isolated(Apply(s, Poison(t)))
  {
    var r := Apply(s, Poison(t));
    var p := s.tasks[t].pipe;
    TaskKeepsExclusive(s, Poison(t));
    assert OnPipe(s, t);
    assert r.pipes == s.pipes[p := s.pipes[p]];
    PipeMoveKeepsIsolated(s, r, t, p);
  }

  /** The chunk a request reads next is the next chunk of its own answer. */
  lemma ReadsOwnAnswer(s: State, t: Tid)
    requires Isolated(s) && Enabled(s, Read(t))
    ensures var x := s.tasks[t];
            var c := s.pipes[x.pipe].outbox[0];
            c.owner == t && c.num == |x.got| &&
            (if c.last then Whole(t, x.got + [c]) && s.pipes[x.pipe] == Pipe([], Idle, [c])
             else Coherent(s.pipes[x.pipe].(outbox := s.pipes[x.pipe].outbox[1..]), t, x.got + [c]))
  {
    assert OnPipe(s, t);
    var x := s.tasks[t];
    var q := s.pipes[x.pipe];
    var c := q.outbox[0];
    var all := x.got + q.outbox;
    assert all[|x.got|] == c;
    assert all == (x.got + [c]) + q.outbox[1..];
    if c.last {
      assert |all| == |x.got| + 1;
      assert q.outbox == [c];
    } else {
      assert Partial(t, x.got + [c]);
    }
  }

  lemma ReadKeepsIsolated(s: State, t: Tid)
    requires Isolated(s) && Enabled(s, Read(t))
    ensures Isolated(Apply(s, Read(t)))
  {
    var r := Apply(s, Read(t));
    var p := s.tasks[t].pipe;
    TaskKeepsExclusive(s, Read(t));
    assert OnPipe(s, t);
    ReadsOwnAnswer(s, t);
    SlotOfPipe(s, r, t, p);
    PipeMoveKeepsIsolated(s, r, t, p);
  }

  lemma WorkerCoherent(q: Pipe, t: Tid, got: seq<Chunk>)
    requires Coherent(q, t, got)
    ensures q.worker.Idle? && q.inbox != [] ==> Coherent(Pipe(q.inbox[1..], Serving(q.inbox[0], 0), q.outbox), t, got)
    ensures q.worker.Serving? ==>
              var k := q.worker.emitted;
              && Coherent(Pipe(q.inbox, Serving(t, k + 1), q.outbox + [Chunk(t, k, false)]), t, got)
              && Coherent(Pipe(q.inbox, Idle, q.outbox + [Chunk(t, k, true)]), t, got)
  {
    assert got + [] == got;
    if q.worker.Serving? {
      var k := q.worker.emitted;
      assert got + (q.outbox + [Chunk(t, k, false)]) == (got + q.outbox) + [Chunk(t, k, false)];
      assert got + (q.outbox + [Chunk(t, k, true)]) == (got + q.outbox) + [Chunk(t, k, true)];
    }
  }

  /** A worker's step changes its own pipe only, as `WorkerCoherent` has it. */
  lemma WorkerFrame(s: State, step: Step)
    requires s.core.Valid() && Enabled(s, step) && (step.WorkerTake? || step.WorkerEmit?)
    ensures var r := Apply(s, step);
            && r.core == s.core && r.tasks == s.tasks && r.fds == s.fds && r.reaper == s.reaper &&
               r.channels == s.channels
            && s.pipes[step.p] != EmptyPipe && step.p in r.pipes && r.pipes == s.pipes[step.p := r.pipes[step.p]]
    ensures forall t, got :: Coherent(s.pipes[step.p], t, got) ==> Coherent(Apply(s, step).pipes[step.p], t, got)
  {
    forall t, got | Coherent(s.pipes[step.p], t, got) ensures Coherent(Apply(s, step).pipes[step.p], t, got) {
      WorkerCoherent(s.pipes[step.p], t, got);
    }
  }

  lemma WorkerKeepsIsolated(s: State, step: Step)
    requires Isolated(s) && Enabled(s, step) && (step.WorkerTake? || step.WorkerEmit?)
    ensures Isolated(Apply(s, step))
  {
    QuietKeepsExclusive(s, step);
    WorkerFrame(s, step);
    PipeStepKeepsIsolated(s, Apply(s, step), step.p);
  }

  lemma PipeStepKeepsIsolated(s: State, r: State, p: PipeId)
    requires Isolated(s) && Exclusive(r)
    requires r.core == s.core && r.tasks == s.tasks && r.fds == s.fds && r.reaper == s.reaper &&
             r.channels == s.channels
    requires p in s.pipes && s.pipes[p] != EmptyPipe && p in r.pipes && r.pipes == s.pipes[p := r.pipes[p]]
    requires forall t, got :: Coherent(s.pipes[p], t, got) ==> Coherent(r.pipes[p], t, got)
    ensures Isolated(r)
  {
    PristineExcept(s, r, p);
    assert !Pristine(s, p);
    forall t | t in s.tasks && Attached(s.tasks[t]) ensures OnPipe(r, t) { assert OnPipe(s, t); }
  }

  lemma InstallKeepsIsolated(s: State, newFds: seq<PipeId>)
    requires Isolated(s) && Enabled(s, InstallFds(newFds))
    ensures Isolated(Apply(s, InstallFds(newFds)))
  {
    var r := Apply(s, InstallFds(newFds));
    QuietKeepsExclusive(s, InstallFds(newFds));
    forall t | t in s.tasks && Attached(s.tasks[t]) ensures s.tasks[t].pipe in s.pipes { assert OnPipe(s, t); }
    forall p | Pristine(s, p) || (p in newFds && p !in s.pipes) ensures Pristine(r, p) {
    }
    forall i | SlotPristine(s, i) ensures SlotPristine(r, i) {
    }
    forall t | t in s.tasks && Attached(s.tasks[t]) ensures OnPipe(r, t) { assert OnPipe(s, t); }
  }

  /** Steps of the reaper that touch no pipe: isolation afterwards is exclusiveness and resting slots. */
  lemma SamePipes(s: State, r: State)
    requires Isolated(s) && s.pipes == r.pipes && s.fds == r.fds && s.tasks == r.tasks && s.channels == r.channels
    ensures forall i :: SlotPristine(s, i) <==> SlotPristine(r, i)
    ensures Isolated(r) <==> Exclusive(r) && RestPristine(r)
  {
    PristineSame(s, r);
    PristineSame(r, s);
    forall t | t in s.tasks && Attached(s.tasks[t]) ensures OnPipe(r, t) { assert OnPipe(s, t); }
  }

  lemma ReaperFrame(s: State, step: Step)
    requires s.core.Valid() && Enabled(s, step)
    requires step.MarkOverQuota? || step.PushRevived? || step.AddRevivedPermits? || step.AddGrownPermits? ||
             step.Scan? || step.Grow?
    ensures var r := Apply(s, step);
            r.pipes == s.pipes && r.fds == s.fds && r.tasks == s.tasks && r.channels == s.channels
  {
  }

  lemma QuietKeepsIsolated(s: State, step: Step)
    requires Isolated(s) && Enabled(s, step)
    requires step.MarkOverQuota? || step.AddRevivedPermits? || step.AddGrownPermits? || step.Scan?
    ensures Isolated(Apply(s, step))
  {
    ReaperFrame(s, step);
    SamePipes(s, Apply(s, step));
    QuietKeepsExclusive(s, step);
  }

  lemma PushIsolatedIff(s: State)
    requires Isolated(s) && Enabled(s, PushRevived)
    ensures Isolated(Apply(s, PushRevived)) <==> CleanPipes(s, PushRevived)
  {
    ReaperFrame(s, PushRevived);
    SamePipes(s, Apply(s, PushRevived));
    PushExclusiveIff(s);
    PushMissingMeaning(s.core, s.reaper.revived);
  }

  lemma GrowIsolatedIff(s: State)
    requires Isolated(s) && Enabled(s, Grow)
    ensures Isolated(Apply(s, Grow)) <==> CleanPipes(s, Grow)
  {
    ReaperFrame(s, Grow);
    SamePipes(s, Apply(s, Grow));
    GrowExclusiveIff(s);
  }

  /** From an isolated state any step keeps isolation if and only if the slots it queues are unheld and clean. */
  lemma StepIsolatedIff(s: State, step: Step)
    requires Isolated(s) && Enabled(s, step)
    ensures Isolated(Apply(s, step)) <==> CleanPipes(s, step)
  {
    if OffPipe(step) { OffPipeKeepsIsolated(s, step); }
    else if step.Arm? { ArmKeepsIsolated(s, step.t); }
    else if step.Send? { SendKeepsIsolated(s, step.t); }
    else if step.SendFails? { SendFailsKeepsIsolated(s, step.t, step.partial); }
    else if step.Poison? { PoisonKeepsIsolated(s, step.t); }
    else if step.Read? { ReadKeepsIsolated(s, step.t); }
    else if step.WorkerTake? || step.WorkerEmit? { WorkerKeepsIsolated(s, step); }
    else if step.InstallFds? { InstallKeepsIsolated(s, step.newFds); }
    else if step.PushRevived? { PushIsolatedIff(s); }
    else if step.Grow? { GrowIsolatedIff(s); }
    else { QuietKeepsIsolated(s, step); }
  }

  // ------------------------------------------------------------------ whole runs

  ghost predicate CleanPipesRun(s: State, run: seq<Step>)
    requires s.core.Valid() && ValidRun(s, run)
    decreases |run|
  {
    run == [] || (CleanPipes(s, run[0]) && CleanPipesRun(Apply(s, run[0]), run[1..]))
  }

  ghost predicate IsolatedThroughout(s: State, run: seq<Step>)
    requires s.core.Valid() && ValidRun(s, run)
    decreases |run|
  {
    Isolated(s) && (run == [] || IsolatedThroughout(Apply(s, run[0]), run[1..]))
  }

  lemma InitIsolated(quota: seq<nat>)
    ensures Isolated(Init(quota, false))
  {
    InitExact(quota, false);
    ExactIsExclusive(Init(quota, false));
  }

  lemma {:induction false} RunIsolatedIff(s: State, run: seq<Step>)
    requires Isolated(s) && ValidRun(s, run)
    ensures IsolatedThroughout(s, run) <==> CleanPipesRun(s, run)
    ensures CleanPipesRun(s, run) ==> Isolated(After(s, run))
    decreases |run|
  {
    if run != [] {
      StepIsolatedIff(s, run[0]);
      if CleanPipes(s, run[0]) {
        RunIsolatedIff(Apply(s, run[0]), run[1..]);
      } else {
        assert !IsolatedThroughout(Apply(s, run[0]), run[1..]);
      }
    }
  }

  /** Isolation, and with it one holder per slot, holds in every state of a pipe-mode run if and only if
      every slot that a refresh queues is unheld and on a pristine pipe when it is queued. */
  lemma IsolationIff(quota: seq<nat>, run: seq<Step>)
    requires ValidRun(Init(quota, false), run)
    ensures IsolatedThroughout(Init(quota, false), run) <==> CleanPipesRun(Init(quota, false), run)
  {
    InitIsolated(quota);
    RunIsolatedIff(Init(quota, false), run);
  }

  /** What a client sees along such a run: idle slots have empty pipes, and a finished request that
      read anything read exactly its own answer. */
  lemma ResponsesBelong(quota: seq<nat>, run: seq<Step>)
    requires ValidRun(Init(quota, false), run) && CleanPipesRun(Init(quota, false), run)
    ensures var s := After(Init(quota, false), run);
            && (forall i :: i in s.core.queue && i < |s.fds| ==> s.fds[i] in s.pipes && s.pipes[s.fds[i]] == EmptyPipe)
            && (forall t :: t in s.tasks && s.tasks[t].Reading? ==> Partial(t, s.tasks[t].got))
            && (forall t :: t in s.tasks && s.tasks[t].Finished? && s.tasks[t].got != [] ==> Whole(t, s.tasks[t].got))
  {
    InitIsolated(quota);
    RunIsolatedIff(Init(quota, false), run);
    var s := After(Init(quota, false), run);
    forall t | t in s.tasks && s.tasks[t].Reading? ensures Partial(t, s.tasks[t].got) { assert OnPipe(s, t); }
    forall i | i in s.core.queue && i < |s.fds| ensures s.fds[i] in s.pipes && s.pipes[s.fds[i]] == EmptyPipe {
      assert SlotPristine(s, i);
    }
  }
}
