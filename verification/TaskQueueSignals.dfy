/**
 Wake-ups with any number of long-polling consumers.  The queue is bounded by the signals on their
 way exactly until a signal is absorbed by an already stored permit while the bound is tight; as
 long as it holds, a consumer parked behind a job has help coming.
 */
module TaskQueueSignals {
  import opened Util
  import opened TaskQueue
  import opened TaskQueueOrder
  import opened TaskQueueWakeup

  /** A push that owes its notify, or a pop that was woken and has not looked yet. */
  predicate Helps(c: Call, name: Name) { (c.Enqueued? || c.Woken?) && c.name == name }

  function HelpsOn(name: Name): Call -> bool { (c: Call) => Helps(c, name) }

  ghost function Helpers(s: State, name: Name): set<Tid> { In(s.calls, HelpsOn(name)) }

  /** Signals on their way: helpers and the stored permit. */
  ghost function Help(s: State, name: Name): nat
    requires name in s.channels
  {
    |Helpers(s, name)| + One(s.channels[name].permit)
  }

  ghost predicate Bounded(s: State, name: Name) {
    name in s.channels ==> |s.channels[name].queue| <= Help(s, name)
  }

  /** A permit is stored only while nobody is registered. */
  ghost predicate PermitAlone(s: State, name: Name) {
    name in s.channels && s.channels[name].permit ==> forall t :: t in s.calls ==> s.calls[t] != Parked(name)
  }

  /** The step calls `notify_one` on the channel: a push, or a woken pop that is dropped. */
  predicate Signals(s: State, step: Step, name: Name)
    requires Enabled(s, step)
  {
    (step.NotifyOne? || (step.CancelPop? && s.calls[step.t].Woken?)) && s.calls[step.t].name == name
  }

  /** The signal finds no waiter and a permit already stored. */
  predicate Absorbed(s: State, step: Step, name: Name)
    requires Enabled(s, step)
  {
    Signals(s, step, name) && step.w.None? && s.channels[name].permit
  }

  // ------------------------------------------------------------------ one step

  lemma HelpersAfter(s: State, step: Step, name: Name)
    requires Enabled(s, step) && !step.Clear?
    ensures var r := Apply(s, step);
            && step.t in r.calls
            && |Helpers(r, name)| == |Helpers(s, name)| + One(Helps(r.calls[step.t], name))
                                     - One(step.t in s.calls && Helps(s.calls[step.t], name))
                                     + One(Signals(s, step, name) && step.w.Some?)
  {
    var r := Apply(s, step);
    var p := HelpsOn(name);
    if (step.NotifyOne? || (step.CancelPop? && s.calls[step.t].Woken?)) && step.w.Some? {
      var n := s.calls[step.t].name;
      var mid := s.calls[step.w.value := Woken(n)];
      assert r.calls == mid[step.t := r.calls[step.t]];
      InAfter(s.calls, p, step.w.value, Woken(n));
      InAfter(mid, p, step.t, r.calls[step.t]);
    } else {
      assert r.calls == s.calls[step.t := r.calls[step.t]];
      InAfter(s.calls, p, step.t, r.calls[step.t]);
    }
  }

  /** How a step moves the queue, the permit and its own call together. */
  lemma BalanceAfter(s: State, step: Step, name: Name)
    requires Enabled(s, step) && !step.Clear? && name in s.channels
    ensures var r := Apply(s, step);
            && name in r.channels && step.t in r.calls
            && var gained := One(Helps(r.calls[step.t], name)) - One(step.t in s.calls && Helps(s.calls[step.t], name))
                             + One(Signals(s, step, name) && step.w.Some?)
                             + One(r.channels[name].permit) - One(s.channels[name].permit);
               if Absorbed(s, step, name) then r.channels[name].queue == s.channels[name].queue && gained == -1
               else |r.channels[name].queue| - |s.channels[name].queue| <= gained || r.channels[name].queue == []
  {
  }

  /** From a bounded state any step of anyone keeps the bound if and only if it is not a signal that an already
      stored permit absorbs while the bound is tight. */
  lemma BoundStepIff(s: State, step: Step, name: Name)
    requires Bounded(s, name) && Enabled(s, step)
    ensures Bounded(Apply(s, step), name) <==>
            !(name in s.channels && Absorbed(s, step, name) && |s.channels[name].queue| == Help(s, name))
  {
    var r := Apply(s, step);
    if !step.Clear? {
      HelpersAfter(s, step, name);
      if name in s.channels { BalanceAfter(s, step, name); }
    } else if name in s.channels {
      assert Helpers(r, name) == Helpers(s, name);
    }
  }

  lemma PermitAloneStep(s: State, step: Step, name: Name)
    requires PermitAlone(s, name) && Enabled(s, step)
    ensures PermitAlone(Apply(s, step), name)
  {
  }

  // ------------------------------------------------------------------ whole runs

  /** No signal of the run is absorbed while the bound is tight. */
  ghost predicate NoTightLoss(s: State, run: seq<Step>, name: Name)
    requires ValidRun(s, run)
    decreases |run|
  {
    run == [] ||
    (&& !(name in s.channels && Absorbed(s, run[0], name) && |s.channels[name].queue| == Help(s, name))
     && NoTightLoss(Apply(s, run[0]), run[1..], name))
  }

  ghost predicate BoundedThroughout(s: State, run: seq<Step>, name: Name)
    requires ValidRun(s, run)
    decreases |run|
  {
    Bounded(s, name) && (run == [] || BoundedThroughout(Apply(s, run[0]), run[1..], name))
  }

  lemma {:induction false} RunBoundIff(s: State, run: seq<Step>, name: Name)
    requires ValidRun(s, run) && Bounded(s, name)
    ensures BoundedThroughout(s, run, name) <==> NoTightLoss(s, run, name)
    ensures NoTightLoss(s, run, name) ==> Bounded(After(s, run), name)
    decreases |run|
  {
    if run != [] {
      BoundStepIff(s, run[0], name);
      if Bounded(Apply(s, run[0]), name) {
        RunBoundIff(Apply(s, run[0]), run[1..], name);
      } else {
        assert !BoundedThroughout(Apply(s, run[0]), run[1..], name);
      }
    }
  }

  lemma {:induction false} AlwaysPermitAlone(s: State, run: seq<Step>, name: Name)
    requires ValidRun(s, run) && PermitAlone(s, name)
    ensures PermitAlone(After(s, run), name)
    decreases |run|
  {
    if run != [] {
      PermitAloneStep(s, run[0], name);
      AlwaysPermitAlone(Apply(s, run[0]), run[1..], name);
    }
  }

  lemma HelpIsThere(s: State, name: Name, t: Tid)
    requires Bounded(s, name) && PermitAlone(s, name) && Waiter(s, t, name) && Backlog(s, name)
    ensures exists u :: u in s.calls && Helps(s.calls[u], name)
  {
    var u :| u in Helpers(s, name);
    assert Helps(s.calls[u], name);
  }

  /** With any number of consumers: along a run without such a loss, a consumer parked behind a job always has a
      woken pop or an owed notify ahead of it. */
  lemma NoLossNoLostWakeup(maxChannels: nat, capacity: nat, run: seq<Step>, name: Name, t: Tid)
    requires ValidRun(Init(maxChannels, capacity), run) && NoTightLoss(Init(maxChannels, capacity), run, name)
    ensures var s := After(Init(maxChannels, capacity), run);
            Waiter(s, t, name) && Backlog(s, name) ==> exists u :: u in s.calls && Helps(s.calls[u], name)
  {
    var o := Init(maxChannels, capacity);
    RunBoundIff(o, run, name);
    AlwaysPermitAlone(o, run, name);
    var s := After(o, run);
    if Waiter(s, t, name) && Backlog(s, name) { HelpIsThere(s, name, t); }
  }

  // ------------------------------------------------------------------ the step that loses a wake-up

  ghost predicate SomeoneParked(s: State, name: Name) { exists t :: Waiter(s, t, name) }

  /** Somebody is parked behind a job and no help is on its way. */
  ghost predicate Helpless(s: State, name: Name) {
    && SomeoneParked(s, name) && Backlog(s, name)
    && forall u :: u in s.calls ==> !Helps(s.calls[u], name)
  }

  /** A pop parks behind a job with no permit stored and no help on its way. */
  ghost predicate ParksInVain(s: State, step: Step, name: Name)
    requires Enabled(s, step)
  {
    && step.Poll? && s.calls[step.t].name == name && !s.channels[name].permit && Backlog(s, name)
    && forall u :: u in s.calls ==> !Helps(s.calls[u], name)
  }

  /** The last help takes one job and leaves more behind a parked consumer. */
  ghost predicate LeavesMore(s: State, step: Step, name: Name)
    requires Enabled(s, step)
  {
    && step.TryPop? && s.calls[step.t] == Woken(name) && |s.channels[name].queue| >= 2 && SomeoneParked(s, name)
    && forall u :: u in s.calls && u != step.t ==> !Helps(s.calls[u], name)
  }

  lemma ParkedAfter(s: State, step: Step, name: Name, t: Tid)
    requires Enabled(s, step) && Waiter(Apply(s, step), t, name)
    ensures Waiter(s, t, name) || (step == Poll(t) && s.calls[t].name == name && !s.channels[name].permit)
  {
  }

  lemma LossNeeds(s: State, step: Step, name: Name)
    requires PermitAlone(s, name) && Enabled(s, step) && !Helpless(s, name) && Helpless(Apply(s, step), name)
    ensures ParksInVain(s, step, name) || LeavesMore(s, step, name)
  {
    var r := Apply(s, step);
    var t :| Waiter(r, t, name);
    ParkedAfter(s, step, name, t);
    if Waiter(s, t, name) { HelperLeaves(s, step, name, t); } else { HelpersStay(s, step, name); }
  }

  /** Parking changes nobody's help. */
  lemma HelpersStay(s: State, step: Step, name: Name)
    requires Enabled(s, step) && step.Poll? && s.calls[step.t].name == name && !s.channels[name].permit
    ensures forall u :: u in s.calls && u != step.t ==>
              u in Apply(s, step).calls && Apply(s, step).calls[u] == s.calls[u]
    ensures Apply(s, step).channels == s.channels
  {
  }

  /** A helper goes on helping until its own step. */
  lemma OthersHelp(s: State, step: Step, name: Name, u: Tid)
    requires Enabled(s, step) && u in s.calls && Helps(s.calls[u], name) && (step.Clear? || step.t != u)
    ensures u in Apply(s, step).calls && Apply(s, step).calls[u] == s.calls[u]
  {
  }

  /** A backlog begins with an enqueue, which owes its notify. */
  lemma BacklogBegins(s: State, step: Step, name: Name)
    requires Enabled(s, step) && !Backlog(s, name) && Backlog(Apply(s, step), name)
    ensures step.Enqueue? && step.t in Apply(s, step).calls && Helps(Apply(s, step).calls[step.t], name)
  {
  }

  /** While somebody is parked, a helper's own step hands its help on unless it takes a job. */
  lemma HelpHandedOn(s: State, step: Step, name: Name, t: Tid)
    requires Enabled(s, step) && !step.Clear? && step.t in s.calls && Helps(s.calls[step.t], name) && Waiter(s, t, name)
    ensures || (exists u :: u in Apply(s, step).calls && Helps(Apply(s, step).calls[u], name))
            || (step.TryPop? && s.calls[step.t] == Woken(name) &&
                (Backlog(Apply(s, step), name) ==> |s.channels[name].queue| >= 2))
  {
    var r := Apply(s, step);
    if step.NotifyOne? || step.CancelPop? {
      assert step.w.value in r.calls && Helps(r.calls[step.w.value], name);
    }
  }

  lemma HelperLeaves(s: State, step: Step, name: Name, t: Tid)
    requires Enabled(s, step) && !Helpless(s, name) && Waiter(s, t, name)
    requires Waiter(Apply(s, step), t, name) && Helpless(Apply(s, step), name)
    ensures LeavesMore(s, step, name)
  {
    if !Backlog(s, name) {
      BacklogBegins(s, step, name);
    } else {
      forall u | u in s.calls && Helps(s.calls[u], name) ensures !step.Clear? && u == step.t {
        if step.Clear? || u != step.t { OthersHelp(s, step, name, u); }
      }
      HelpHandedOn(s, step, name, t);
    }
  }

  lemma LossSuffices(s: State, step: Step, name: Name)
    requires PermitAlone(s, name) && Enabled(s, step) && (ParksInVain(s, step, name) || LeavesMore(s, step, name))
    ensures Helpless(Apply(s, step), name)
  {
    var r := Apply(s, step);
    if ParksInVain(s, step, name) {
      assert Waiter(r, step.t, name);
    } else {
      var t :| Waiter(s, t, name);
      assert Waiter(r, t, name);
    }
  }

  /** Exactly two steps lose a wake-up: a pop that parks behind a job with neither permit nor help, and the last
      help that takes one job of several while somebody is parked. */
  lemma LossIff(s: State, step: Step, name: Name)
    requires PermitAlone(s, name) && Enabled(s, step) && !Helpless(s, name)
    ensures Helpless(Apply(s, step), name) <==> ParksInVain(s, step, name) || LeavesMore(s, step, name)
  {
    if Helpless(Apply(s, step), name) { LossNeeds(s, step, name); }
    if ParksInVain(s, step, name) || LeavesMore(s, step, name) { LossSuffices(s, step, name); }
  }

  ghost predicate NoLosingStep(s: State, run: seq<Step>, name: Name)
    requires ValidRun(s, run)
    decreases |run|
  {
    run == [] ||
    (&& !ParksInVain(s, run[0], name) && !LeavesMore(s, run[0], name)
     && NoLosingStep(Apply(s, run[0]), run[1..], name))
  }

  ghost predicate NeverHelpless(s: State, run: seq<Step>, name: Name)
    requires ValidRun(s, run)
    decreases |run|
  {
    !Helpless(s, name) && (run == [] || NeverHelpless(Apply(s, run[0]), run[1..], name))
  }

  lemma {:induction false} NeverHelplessIff(s: State, run: seq<Step>, name: Name)
    requires ValidRun(s, run) && PermitAlone(s, name) && !Helpless(s, name)
    ensures NeverHelpless(s, run, name) <==> NoLosingStep(s, run, name)
    decreases |run|
  {
    if run != [] {
      LossIff(s, run[0], name);
      PermitAloneStep(s, run[0], name);
      if !Helpless(Apply(s, run[0]), name) {
        NeverHelplessIff(Apply(s, run[0]), run[1..], name);
      } else {
        assert !NeverHelpless(Apply(s, run[0]), run[1..], name);
      }
    }
  }

  /** From an empty queue, with any number of consumers, no wake-up is lost along a run if and only if it has neither
      of those steps. */
  lemma LostWakeupIff(maxChannels: nat, capacity: nat, run: seq<Step>, name: Name)
    requires ValidRun(Init(maxChannels, capacity), run)
    ensures NeverHelpless(Init(maxChannels, capacity), run, name) <==>
            NoLosingStep(Init(maxChannels, capacity), run, name)
  {
    NeverHelplessIff(Init(maxChannels, capacity), run, name);
  }
}
