/**
 Two runs of the dispatch protocol in which a refresh puts back a slot that was not clean: one
 ends with two requests holding the same worker, the other with a request that reads another
 request's answer.  They show that the conditions in DispatchExact and DispatchIsolation are needed.
 */
module DispatchRuns {
  import opened Dispatch
  import opened DispatchCover
  import opened DispatchExact
  import opened DispatchIsolation

  lemma {:induction false} RunAppend(s: State, run: seq<Step>, step: Step)
    requires s.core.Valid() && ValidRun(s, run) && Enabled(After(s, run), step)
    ensures ValidRun(s, run + [step]) && After(s, run + [step]) == Apply(After(s, run), step)
    decreases |run|
  {
    if run == [] {
      assert run + [step] == [step] && [step][1..] == [];
    } else {
      RunAppend(Apply(s, run[0]), run[1..], step);
      RunCons(s, run[0], run[1..] + [step]);
      assert run + [step] == [run[0]] + (run[1..] + [step]);
    }
  }

  lemma RunCons(s: State, step: Step, rest: seq<Step>)
    requires s.core.Valid() && Enabled(s, step) && ValidRun(Apply(s, step), rest)
    ensures ValidRun(s, [step] + rest) && After(s, [step] + rest) == After(Apply(s, step), rest)
  {
    assert ([step] + rest)[1..] == rest;
  }

  ghost predicate Closed(inv: iset<State>) {
    && (forall s :: s in inv ==> s.core.Valid())
    && (forall s, step :: s in inv && Enabled(s, step) ==> Apply(s, step) in inv)
  }

  /** `r` belongs to everything that holds `s` and is closed under the protocol's steps. */
  ghost predicate Reaches(s: State, r: State) {
    forall inv: iset<State> :: s in inv && Closed(inv) ==> r in inv
  }

  lemma Go(s: State, r: State, step: Step, next: State)
    requires r.core.Valid() && Reaches(s, r) && Enabled(r, step) && Apply(r, step) == next
    ensures Reaches(s, next)
  {
  }

  ghost predicate RunLeads(s: State, x: State)
    requires s.core.Valid()
  {
    exists run :: ValidRun(s, run) && After(s, run) == x
  }

  /** What is reached in this sense is reached by a run. */
  lemma ReachedByRun(s: State, r: State)
    requires s.core.Valid() && Reaches(s, r)
    ensures exists run :: ValidRun(s, run) && After(s, run) == r
  {
    var inv := iset x: State | RunLeads(s, x);
    assert s in inv by { assert ValidRun(s, []); }
    forall x, step | x in inv && Enabled(x, step) ensures Apply(x, step) in inv {
      var run :| ValidRun(s, run) && After(s, run) == x;
      RunAppend(s, run, step);
      assert ValidRun(s, run + [step]);
    }
    assert r in inv;
  }

  lemma PopBack(s: State, t: Tid)
    requires s.core.Valid() && s.core.queue != [] && t in s.tasks && s.tasks[t] == Acquired(0)
    ensures Apply(s, Pop(t)) ==
            s.(tasks := s.tasks[t := Popped(s.core.queue[|s.core.queue| - 1], 0)],
               core := s.core.(queue := s.core.queue[..|s.core.queue| - 1]))
  {
  }

  /** `t` arrives and acquires a permit. */
  lemma ArriveAndAcquire(o: State, s: State, t: Tid) returns (r: State)
    requires Reaches(o, s) && s.core.Valid() && s.core.permits > 0 && t !in s.tasks
    ensures Reaches(o, r)
    ensures r == s.(core := s.core.(permits := s.core.permits - 1), tasks := s.tasks[t := Acquired(0)],
                    tally := r.tally)
  {
    var r1 := s.(tasks := s.tasks[t := Waiting(0)]);
    Go(o, s, Arrive(t), r1);
    r := s.(tasks := r1.tasks[t := Acquired(0)], core := s.core.(permits := s.core.permits - 1),
            tally := s.tally.(consumed := s.tally.consumed + 1));
    Go(o, r1, Acquire(t), r);
    assert r.tasks == s.tasks[t := Acquired(0)];
  }

  /** `t` arrives when slot 0 is at the back of the queue and claims it. */
  lemma Claim(o: State, s: State, t: Tid) returns (r: State)
    requires Reaches(o, s) && s.core.Valid() && s.core.permits > 0 && s.core.Pickable(0) && t !in s.tasks
    requires s.core.queue != [] && s.core.queue[|s.core.queue| - 1] == 0
    ensures Reaches(o, r)
    ensures r == s.(core := s.core.(permits := s.core.permits - 1, queue := s.core.queue[..|s.core.queue| - 1]),
                    tasks := s.tasks[t := Claimed(0)], tally := r.tally)
  {
    var r2 := ArriveAndAcquire(o, s, t);
    var popped := r2.core.(queue := r2.core.queue[..|r2.core.queue| - 1]);
    var r3 := r2.(tasks := r2.tasks[t := Popped(0, 0)], core := popped);
    PopBack(r2, t);
    Go(o, r2, Pop(t), r3);
    r := r3.(tasks := r3.tasks[t := Claimed(0)], tally := r3.tally.(handedOut := r3.tally.handedOut + 1));
    Go(o, r3, Check(t), r);
    assert r.tasks == s.tasks[t := Claimed(0)];
  }

  /** `t` arms its guard on slot 0's pipe and writes its request. */
  lemma ArmAndSend(o: State, s: State, t: Tid) returns (r: State)
    requires Reaches(o, s) && s.core.Valid() && t in s.tasks && s.tasks[t] == Claimed(0)
    requires !s.channels && s.fds == [0] && 0 in s.pipes
    ensures Reaches(o, r)
    ensures r == s.(tasks := s.tasks[t := Reading(0, 0, [])],
                    pipes := s.pipes[0 := s.pipes[0].(inbox := s.pipes[0].inbox + [t])])
  {
    var r1 := s.(tasks := s.tasks[t := Armed(0, 0)]);
    Go(o, s, Arm(t), r1);
    r := Apply(r1, Send(t));
    Go(o, r1, Send(t), r);
    assert r.tasks == s.tasks[t := Reading(0, 0, [])];
  }

  /** The idle worker behind slot 0 takes its one request and answers with a single chunk. */
  lemma Answer(o: State, s: State, t: Tid) returns (r: State)
    requires Reaches(o, s) && s.core.Valid() && 0 in s.pipes && s.pipes[0] == Pipe([t], Idle, [])
    ensures Reaches(o, r)
    ensures r == s.(pipes := s.pipes[0 := Pipe([], Idle, [Chunk(t, 0, true)])])
  {
    var r1 := s.(pipes := s.pipes[0 := Pipe([], Serving(t, 0), [])]);
    assert [t][1..] == [];
    Go(o, s, WorkerTake(0), r1);
    r := r1.(pipes := r1.pipes[0 := Pipe([], Idle, [Chunk(t, 0, true)])]);
    assert [] + [Chunk(t, 0, true)] == [Chunk(t, 0, true)];
    Go(o, r1, WorkerEmit(0, true), r);
    assert r.pipes == s.pipes[0 := Pipe([], Idle, [Chunk(t, 0, true)])];
  }

  lemma ReadOnly(o: State, s: State, t: Tid, c: Chunk) returns (r: State)
    requires Reaches(o, s) && s.core.Valid() && t in s.tasks && s.tasks[t] == Reading(0, 0, [])
    requires 0 in s.pipes && s.pipes[0].outbox == [c] && c.last
    ensures Reaches(o, r)
    ensures r == s.(tasks := s.tasks[t := Decoded(0, [c])], pipes := s.pipes[0 := s.pipes[0].(outbox := [])])
  {
    assert [c][1..] == [] && [] + [c] == [c];
    r := s.(tasks := s.tasks[t := Decoded(0, [c])], pipes := s.pipes[0 := s.pipes[0].(outbox := [])]);
    Go(o, s, Read(t), r);
  }

  lemma KeepFds(o: State, s: State) returns (r: State)
    requires Reaches(o, s) && s.core.Valid() && s.fds == [0] && 0 in s.pipes && s.reaper == Resting
    ensures Reaches(o, r) && r == s.(reaper := Scanning(1, 1, 0, []))
  {
    r := s.(reaper := Scanning(1, 1, 0, []));
    assert s.pipes + (map p | p in [0] && p !in s.pipes :: EmptyPipe) == s.pipes;
    Go(o, s, InstallFds([0]), r);
  }

  lemma ScanOnly(o: State, s: State) returns (r: State)
    requires Reaches(o, s) && s.core.Valid() && s.core.Cap() == 1 && s.core.Flagged(0)
    requires s.reaper == Scanning(1, 1, 0, [])
    ensures Reaches(o, r)
    ensures r == s.(core := s.core.(unhealthy := [false], served := [0]), reaper := Scanning(1, 1, 1, [0]))
  {
    assert s.core.ResetSlot(0) == s.core.(unhealthy := [false], served := [0]);
    assert [] + [0] == [0];
    r := s.(core := s.core.(unhealthy := [false], served := [0]), reaper := Scanning(1, 1, 1, [0]));
    Go(o, s, Scan, r);
  }

  /** Slot 0 is the only one, flagged, and the scan is about to look at it: finish the refresh. */
  lemma Revive(o: State, s: State) returns (r: State)
    requires Reaches(o, s) && s.core.Valid() && s.core.Cap() == 1 && s.core.Flagged(0) && s.core.queue == []
    requires s.reaper == Scanning(1, 1, 0, [])
    ensures Reaches(o, r)
    ensures r == s.(core := Core(s.core.permits + 1, [0], [false], [0], s.core.quota), reaper := Resting)
  {
    var r1 := ScanOnly(o, s);
    PushMissingAll(r1.core, [0]);
    assert r1.core.queue + [0] == [0];
    var r2 := s.(core := r1.core.(queue := [0]), reaper := Owing(1, 1, 1));
    Go(o, r1, PushRevived, r2);
    var r3 := r2.(core := r2.core.AddPermits(1), reaper := Growing(1, 1));
    Go(o, r2, AddRevivedPermits, r3);
    r := r3.(reaper := Resting);
    Go(o, r3, Grow, r);
  }

  lemma GiveBack(o: State, s: State, t: Tid) returns (r: State)
    requires Reaches(o, s) && s.core.Valid() && t in s.tasks && s.tasks[t].Completed?
    ensures Reaches(o, r)
    ensures r == s.(core := s.core.Push(s.tasks[t].idx).AddPermits(1), tasks := s.tasks[t := Finished(s.tasks[t].got)])
  {
    var r1 := s.(core := s.core.Push(s.tasks[t].idx), tasks := s.tasks[t := Returned(s.tasks[t].got)]);
    Go(o, s, PushBack(t), r1);
    r := r1.(core := r1.core.AddPermits(1), tasks := r1.tasks[t := Finished(s.tasks[t].got)]);
    Go(o, r1, AddPermit(t), r);
    assert r.tasks == s.tasks[t := Finished(s.tasks[t].got)];
  }

  lemma InitOne(q: nat)
    ensures var s := Init([q], false);
            s == State(Core(1, [0], [false], [0], [q]), map[], Resting, [0], map[0 := EmptyPipe], false,
                       Tally(0, 0, 0, 0))
    ensures Reaches(Init([q], false), Init([q], false))
  {
    assert Slots(1) == [0];
  }

  /** From the start, request 0 is answered: its slot is out of the queue and its guard still holds it. */
  lemma FirstAnswered(q: nat) returns (s: State)
    ensures Reaches(Init([q], false), s) && s.core == Core(0, [], [false], [0], [q]) && s.reaper == Resting
    ensures s.tasks == map[0 := Reading(0, 0, [])] && s.fds == [0] && !s.channels
    ensures s.pipes == map[0 := Pipe([], Idle, [Chunk(0, 0, true)])]
  {
    InitOne(q);
    var o := Init([q], false);
    s := Claim(o, o, 0);
    assert o.core.queue[..0] == [];
    s := ArmAndSend(o, s, 0);
    assert [] + [0] == [0];
    s := Answer(o, s, 0);
  }

  /** Request 0 has its answer recorded, so its slot is over quota, and has not returned it yet when the refresh revives
      the slot; then it returns it. */
  lemma RevivedWhileHeld(o: State) returns (s: State)
    requires o == Init([1], false)
    ensures Reaches(o, s) && s.core == Core(2, [0, 0], [false], [0], [1]) && s.tasks.Keys == {0}
  {
    s := FirstAnswered(1);
    s := ReadOnly(o, s, 0, Chunk(0, 0, true));
    var r := s.(core := Core(0, [], [false], [1], [1]), tasks := s.tasks[0 := Completed(0, [Chunk(0, 0, true)])]);
    Go(o, s, RecordServed(0), r);
    s := KeepFds(o, r);
    s := Revive(o, s);
    s := GiveBack(o, s, 0);
  }

  /** Afterwards requests 1 and 2 hold the same worker at once. */
  lemma TwoHolders() returns (run: seq<Step>)
    ensures ValidRun(Init([1], false), run)
    ensures var s := After(Init([1], false), run);
            1 in s.tasks && 2 in s.tasks && s.tasks[1] == Claimed(0) && s.tasks[2] == Claimed(0)
  {
    var o := Init([1], false);
    var s := RevivedWhileHeld(o);
    s := Claim(o, s, 1);
    assert [0, 0][..1] == [0];
    s := Claim(o, s, 2);
    ReachedByRun(o, s);
    run :| ValidRun(o, run) && After(o, run) == s;
  }

  /** Request 0 is cancelled after `refresh_fds` took its snapshot of the pipes and before it scanned
      the slot: the slot comes back on the old pipe and request 1 reads the answer to request 0. */
  lemma CrossTalk() returns (run: seq<Step>)
    ensures ValidRun(Init([0], false), run)
    ensures var s := After(Init([0], false), run);
            1 in s.tasks && s.tasks[1] == Decoded(0, [Chunk(0, 0, true)])
  {
    var o := Init([0], false);
    var s := FirstAnswered(0);
    s := KeepFds(o, s);
    var r := s.(core := Core(0, [], [true], [0], [0]), tasks := s.tasks[0 := Ended]);
    Go(o, s, Poison(0), r);
    s := Revive(o, r);
    s := Claim(o, s, 1);
    s := ArmAndSend(o, s, 1);
    s := ReadOnly(o, s, 1, Chunk(0, 0, true));
    ReachedByRun(o, s);
    run :| ValidRun(o, run) && After(o, run) == s;
  }

  /** Request 0 brings its slot to its quota and returns it. */
  lemma FirstReturned(o: State) returns (s: State)
    requires o == Init([1], false)
    ensures Reaches(o, s) && s.core == Core(1, [0], [false], [1], [1]) && s.reaper == Resting && s.fds == [0] &&
            !s.channels
    ensures s.pipes == map[0 := EmptyPipe] && s.tasks == map[0 := Finished([Chunk(0, 0, true)])]
  {
    s := FirstAnswered(1);
    s := ReadOnly(o, s, 0, Chunk(0, 0, true));
    var r := s.(core := Core(0, [], [false], [1], [1]), tasks := s.tasks[0 := Completed(0, [Chunk(0, 0, true)])]);
    Go(o, s, RecordServed(0), r);
    s := GiveBack(o, r, 0);
    assert s.core == Core(1, [0], [false], [1], [1]);
  }

  /** A refresh over the one slot, which is flagged and queued: nothing is pushed and a permit is added. */
  lemma ReviveQueued(o: State, s: State) returns (r: State)
    requires Reaches(o, s) && s.core.Valid() && s.core.Cap() == 1 && s.core.Flagged(0) && s.core.queue == [0]
    requires s.reaper == Scanning(1, 1, 0, [])
    ensures Reaches(o, r)
    ensures r == s.(core := Core(s.core.permits + 1, [0], [false], [0], s.core.quota), reaper := Resting)
  {
    var r1 := ScanOnly(o, s);
    assert r1.core.PushMissing([0]) == r1.core by { assert [0][..0] == []; }
    var r2 := r1.(reaper := Owing(1, 1, 1));
    Go(o, r1, PushRevived, r2);
    var r3 := r2.(core := r2.core.AddPermits(1), reaper := Growing(1, 1));
    Go(o, r2, AddRevivedPermits, r3);
    r := r3.(reaper := Resting);
    Go(o, r3, Grow, r);
  }

  /** Ordinary recycling: request 0 brings its slot to its quota and returns it, and the next refresh finds it queued.
      The refresh pushes nothing and owes a permit all the same: permits and queue no longer match, and every response
      is still isolated. */
  lemma QueuedRevival() returns (run: seq<Step>)
    ensures ValidRun(Init([1], false), run)
    ensures var s := After(Init([1], false), run);
            Isolated(s) && !Exact(s) && s.core.queue == [0] && s.core.permits == 2 && s.reaper == Resting
  {
    var o := Init([1], false);
    var s := FirstReturned(o);
    s := KeepFds(o, s);
    s := ReviveQueued(o, s);
    AloneIsolated(s);
    ReachedByRun(o, s);
    run :| ValidRun(o, run) && After(o, run) == s;
  }

  /** One idle slot on an empty pipe, and one request that read its whole answer. */
  lemma AloneIsolated(s: State)
    requires s.core == Core(2, [0], [false], [0], [1]) && s.reaper == Resting && s.fds == [0] && !s.channels
    requires s.pipes == map[0 := EmptyPipe] && s.tasks == map[0 := Finished([Chunk(0, 0, true)])]
    ensures Isolated(s) && !Exact(s)
  {
    assert Owers(s.tasks) == {};
  }
}
