/**
 The in-process task queue as a transition system: `channel_or_create` with its racy cap check,
 `push` (id, enqueue, notify, count), the long-polling `pop` over a `Notify`, and `clear`.
 */
module TaskQueue {
  import opened Util

  type Name = string
  type Tid = nat
  type Payload = seq<byte>

  datatype Job = Job(id: nat, payload: Payload)

  /** `permit` is the one notification a `Notify` stores.  `accepted` and `taken` are the channel's
      history: every job enqueued, and every job removed with a flag for "by a pop". */
  datatype Chan = Chan(queue: seq<Job>, permit: bool, accepted: seq<Job>, taken: seq<(Job, bool)>)

  const NewChan: Chan := Chan([], false, [], [])

  datatype Op = Push(payload: Payload) | Pop(wait: bool)

  datatype Reply = Pushed(id: nat) | Full | TooManyChannels | Popped(job: Option<Job>)

  datatype Call =
    | Looking(name: Name, op: Op)                        // channel_or_create, fast path
    | Missing(name: Name, op: Op)                        // not found, cap not checked
    | Creating(name: Name, op: Op)                       // under the cap, not inserted
    | Has(name: Name, op: Op)                            // holds the channel
    | Numbered(name: Name, payload: Payload, id: nat)    // push: id drawn
    | Enqueued(name: Name, id: nat)                      // push: notify_one owed
    | Notified(name: Name, id: nat)                      // push: total_pushed owed
    | LoopTop(name: Name)                                // pop: before the deadline check
    | Armed(name: Name)                                  // pop: notified() created
    | Polling(name: Name)                                // pop: re-check found nothing, not polled yet
    | Parked(name: Name)                                 // pop: registered waiter
    | Woken(name: Name)                                  // pop: notified
    | Counting(name: Name, job: Job)                     // pop: total_popped owed
    | Done(reply: Reply)

  /** A pop that has entered its slow path. */
  predicate LongPolling(c: Call, name: Name) {
    (c.LoopTop? || c.Armed? || c.Polling? || c.Parked? || c.Woken?) && c.name == name
  }

  datatype Tally = Tally(enqueued: nat, popped: nat, cleared: nat)

  datatype State = State(
    channels: map<Name, Chan>, calls: map<Tid, Call>,
    nextId: nat, pushed: nat, popped: nat, rejected: nat,
    maxChannels: nat, capacity: nat, tally: Tally)

  function Init(maxChannels: nat, capacity: nat): State {
    State(map[], map[], 1, 0, 0, 0, maxChannels, capacity, Tally(0, 0, 0))
  }

  datatype Step =
    | Start(t: Tid, name: Name, op: Op)
    | Lookup(t: Tid)
    | CheckCap(t: Tid)
    | Insert(t: Tid)
    | TakeId(t: Tid)
    | Enqueue(t: Tid)
    | NotifyOne(t: Tid, w: Option<Tid>)      // w: the waiter that wakes, None to store a permit
    | CountPush(t: Tid)
    | TryPop(t: Tid)
    | Arm(t: Tid)
    | Poll(t: Tid)
    | Timeout(t: Tid)
    | CancelPop(t: Tid, w: Option<Tid>)      // the pop future is dropped while suspended
    | CountPop(t: Tid)
    | Clear(name: Name)

  predicate Waiter(s: State, w: Tid, name: Name) { w in s.calls && s.calls[w] == Parked(name) }

  /** Who a notification goes to: some waiter if there is one. */
  predicate Target(s: State, name: Name, w: Option<Tid>) {
    match w
    case Some(u) => Waiter(s, u, name)
    case None => forall u :: u in s.calls ==> s.calls[u] != Parked(name)
  }

  predicate Enabled(s: State, step: Step) {
    match step
    case Start(t, _, _) => t !in s.calls
    case Lookup(t) => t in s.calls && s.calls[t].Looking?
    case CheckCap(t) => t in s.calls && s.calls[t].Missing?
    case Insert(t) => t in s.calls && s.calls[t].Creating?
    case TakeId(t) => t in s.calls && s.calls[t].Has? && s.calls[t].op.Push?
    case Enqueue(t) => t in s.calls && s.calls[t].Numbered? && s.calls[t].name in s.channels
    case NotifyOne(t, w) =>
      t in s.calls && s.calls[t].Enqueued? && s.calls[t].name in s.channels && Target(s, s.calls[t].name, w)
    case CountPush(t) => t in s.calls && s.calls[t].Notified?
    case TryPop(t) =>
      t in s.calls && ((s.calls[t].Has? && s.calls[t].op.Pop?) || s.calls[t].Armed? || s.calls[t].Woken?) &&
      s.calls[t].name in s.channels
    case Arm(t) => t in s.calls && s.calls[t].LoopTop?
    case Poll(t) => t in s.calls && s.calls[t].Polling? && s.calls[t].name in s.channels
    case Timeout(t) => t in s.calls && (s.calls[t].LoopTop? || s.calls[t].Parked?)
    case CancelPop(t, w) =>
      t in s.calls && (s.calls[t].Parked? || s.calls[t].Woken?) && s.calls[t].name in s.channels &&
      (s.calls[t].Woken? ==> Target(s, s.calls[t].name, w))
    case CountPop(t) => t in s.calls && s.calls[t].Counting?
    case Clear(name) => true
  }

  function SetCall(s: State, t: Tid, c: Call): State { s.(calls := s.calls[t := c]) }

  function SetChan(s: State, name: Name, ch: Chan): State { s.(channels := s.channels[name := ch]) }

  /** `notify_one`: wake the chosen waiter, or store the permit. */
  function Signal(s: State, name: Name, w: Option<Tid>): State
    requires name in s.channels
  {
    match w
    case Some(u) => SetCall(s, u, Woken(name))
    case None => SetChan(s, name, s.channels[name].(permit := true))
  }

  function WhenEmpty(c: Call): Call
    requires (c.Has? && c.op.Pop?) || c.Armed? || c.Woken?
  {
    match c
    case Has(name, op) => if op.wait then LoopTop(name) else Done(Popped(None))
    case Armed(name) => Polling(name)
    case Woken(name) => LoopTop(name)
  }

  function MarkCleared(queue: seq<Job>): seq<(Job, bool)> {
    seq(|queue|, i requires 0 <= i < |queue| => (queue[i], false))
  }

  function Apply(s: State, step: Step): State
    requires Enabled(s, step)
  {
    match step
    case Start(t, name, op) => SetCall(s, t, Looking(name, op))
    case Lookup(t) =>
      var Looking(name, op) := s.calls[t];
      SetCall(s, t, if name in s.channels then Has(name, op) else Missing(name, op))
    case CheckCap(t) =>
      var Missing(name, op) := s.calls[t];
      SetCall(s, t,
        if |s.channels| < s.maxChannels then Creating(name, op)
        else Done(if op.Push? then TooManyChannels else Popped(None)))
    case Insert(t) =>
      var Creating(name, op) := s.calls[t];
      var r := SetCall(s, t, Has(name, op));
      if name in s.channels then r else SetChan(r, name, NewChan)
    case TakeId(t) =>
      var Has(name, op) := s.calls[t];
      SetCall(s, t, Numbered(name, op.payload, s.nextId)).(nextId := s.nextId + 1)
    case Enqueue(t) =>
      var Numbered(name, payload, id) := s.calls[t];
      var ch := s.channels[name];
      if |ch.queue| >= s.capacity then SetCall(s, t, Done(Full)).(rejected := s.rejected + 1)
      else
        var job := Job(id, payload);
        SetChan(SetCall(s, t, Enqueued(name, id)), name,
                ch.(queue := ch.queue + [job], accepted := ch.accepted + [job])).(
          tally := s.tally.(enqueued := s.tally.enqueued + 1))
    case NotifyOne(t, w) =>
      var Enqueued(name, id) := s.calls[t];
      SetCall(Signal(s, name, w), t, Notified(name, id))
    case CountPush(t) => SetCall(s, t, Done(Pushed(s.calls[t].id))).(pushed := s.pushed + 1)
    case TryPop(t) =>
      var name := s.calls[t].name;
      var ch := s.channels[name];
      if ch.queue == [] then SetCall(s, t, WhenEmpty(s.calls[t]))
      else
        var job := ch.queue[0];
        SetChan(SetCall(s, t, Counting(name, job)), name,
                ch.(queue := ch.queue[1..], taken := ch.taken + [(job, true)])).(
          tally := s.tally.(popped := s.tally.popped + 1))
    case Arm(t) => SetCall(s, t, Armed(s.calls[t].name))
    case Poll(t) =>
      var name := s.calls[t].name;
      if s.channels[name].permit
      then SetChan(SetCall(s, t, Woken(name)), name, s.channels[name].(permit := false))
      else SetCall(s, t, Parked(name))
    case Timeout(t) => SetCall(s, t, Done(Popped(None)))
    case CancelPop(t, w) =>
      var r := if s.calls[t].Woken? then Signal(s, s.calls[t].name, w) else s;
      SetCall(r, t, Done(Popped(None)))
    case CountPop(t) => SetCall(s, t, Done(Popped(Some(s.calls[t].job)))).(popped := s.popped + 1)
    case Clear(name) =>
      if name !in s.channels then s
      else
        var ch := s.channels[name];
        SetChan(s, name, ch.(queue := [], taken := ch.taken + MarkCleared(ch.queue))).(
          tally := s.tally.(cleared := s.tally.cleared + |ch.queue|))
  }

  predicate ValidRun(s: State, run: seq<Step>)
    decreases |run|
  {
    run == [] || (Enabled(s, run[0]) && ValidRun(Apply(s, run[0]), run[1..]))
  }

  function After(s: State, run: seq<Step>): State
    requires ValidRun(s, run)
    decreases |run|
  {
    if run == [] then s else After(Apply(s, run[0]), run[1..])
  }
}
