/**
 The job queue as an object, its calls uninterrupted, specified by functions on its contents;
 an uninterrupted call is a run of the transition system in TaskQueue.
 */
module TaskQueueObject {
  import opened Util
  import opened TaskQueue
  import opened TaskQueueWakeup

  datatype Store = Store(queues: map<Name, seq<Job>>, nextId: nat, pushed: nat, popped: nat, rejected: nat,
                         maxChannels: nat, capacity: nat)

  /** `channel_or_create`, or None when the cap refuses it. */
  function WithChannel(st: Store, name: Name): Option<Store> {
    if name in st.queues then Some(st)
    else if |st.queues| >= st.maxChannels then None
    else Some(st.(queues := st.queues[name := []]))
  }

  function PushNow(st: Store, name: Name, payload: Payload): (Store, Reply) {
    match WithChannel(st, name)
    case None => (st, TooManyChannels)
    case Some(c) =>
      if |c.queues[name]| >= c.capacity then (c.(nextId := c.nextId + 1, rejected := c.rejected + 1), Full)
      else
        (c.(queues := c.queues[name := c.queues[name] + [Job(c.nextId, payload)]], nextId := c.nextId + 1,
            pushed := c.pushed + 1),
         Pushed(c.nextId))
  }

  /** `pop` with a zero wait. */
  function PopNow(st: Store, name: Name): (Store, Reply) {
    match WithChannel(st, name)
    case None => (st, Popped(None))
    case Some(c) =>
      if c.queues[name] == [] then (c, Popped(None))
      else (c.(queues := c.queues[name := c.queues[name][1..]], popped := c.popped + 1),
            Popped(Some(c.queues[name][0])))
  }

  function ClearNow(st: Store, name: Name): (Store, nat) {
    if name in st.queues then (st.(queues := st.queues[name := []]), |st.queues[name]|) else (st, 0)
  }

  class Queue {
    var queues: map<Name, seq<Job>>
    var nextId: nat
    var pushed: nat
    var popped: nat
    var rejected: nat
    const maxChannels: nat
    const capacity: nat

    ghost function View(): Store
      reads this
    {
      Store(queues, nextId, pushed, popped, rejected, maxChannels, capacity)
    }

    constructor (maxChannels: nat, capacity: nat)
      ensures View() == Store(map[], 1, 0, 0, 0, maxChannels, capacity)
    {
      this.maxChannels, this.capacity := maxChannels, capacity;
      queues, nextId, pushed, popped, rejected := map[], 1, 0, 0, 0;
    }

    method ChannelOrCreate(name: Name) returns (ok: bool)
      modifies this`queues
      ensures ok <==> WithChannel(old(View()), name).Some?
      ensures View() == if ok then WithChannel(old(View()), name).value else old(View())
    {
      if name in queues { return true; }
      if |queues| >= maxChannels { return false; }
      queues := queues[name := []];
      ok := true;
    }

    method PushJob(name: Name, payload: Payload) returns (r: Reply)
      modifies this
      ensures (View(), r) == PushNow(old(View()), name, payload)
    {
      var ok := ChannelOrCreate(name);
      if !ok { return TooManyChannels; }
      var id := nextId;
      nextId := nextId + 1;
      if |queues[name]| >= capacity {
        rejected := rejected + 1;
        return Full;
      }
      queues := queues[name := queues[name] + [Job(id, payload)]];
      pushed := pushed + 1;
      r := Pushed(id);
    }

    method PopJob(name: Name) returns (r: Reply)
      modifies this
      ensures (View(), r) == PopNow(old(View()), name)
    {
      var ok := ChannelOrCreate(name);
      if !ok || queues[name] == [] { return Popped(None); }
      r := Popped(Some(queues[name][0]));
      queues := queues[name := queues[name][1..]];
      popped := popped + 1;
    }

    method Size(name: Name) returns (n: nat)
      ensures n == if name in queues then |queues[name]| else 0
    {
      n := if name in queues then |queues[name]| else 0;
    }

    method ClearChannel(name: Name) returns (n: nat)
      modifies this`queues
      ensures (View(), n) == ClearNow(old(View()), name)
    {
      if name in queues {
        n := |queues[name]|;
        queues := queues[name := []];
      } else {
        n := 0;
      }
    }
  }

  // ------------------------------------------------------------------ what the calls mean

  /** Push `payloads` in order, then pop as often. */
  function PushAll(st: Store, name: Name, payloads: seq<Payload>): Store
    decreases |payloads|
  {
    if payloads == [] then st
    else PushNow(PushAll(st, name, payloads[..|payloads| - 1]), name, payloads[|payloads| - 1]).0
  }

  function PopAll(st: Store, name: Name, n: nat): seq<Reply>
    decreases n
  {
    if n == 0 then [] else [PopNow(st, name).1] + PopAll(PopNow(st, name).0, name, n - 1)
  }

  /** The jobs that pushing `payloads` makes when the first id is `id`. */
  function Numbering(id: nat, payloads: seq<Payload>): seq<Job> {
    seq(|payloads|, i requires 0 <= i < |payloads| => Job(id + i, payloads[i]))
  }

  function Replies(jobs: seq<Job>): seq<Reply> { seq(|jobs|, i requires 0 <= i < |jobs| => Popped(Some(jobs[i]))) }

  lemma {:induction false} PushAllQueue(st: Store, name: Name, payloads: seq<Payload>)
    requires name in st.queues && |st.queues[name]| + |payloads| <= st.capacity
    ensures var r := PushAll(st, name, payloads);
            && name in r.queues && r.capacity == st.capacity && r.nextId == st.nextId + |payloads|
            && r.queues[name] == st.queues[name] + Numbering(st.nextId, payloads)
    decreases |payloads|
  {
    if payloads != [] {
      PushAllQueue(st, name, payloads[..|payloads| - 1]);
    }
  }

  lemma {:induction false} PopAllQueue(st: Store, name: Name, n: nat)
    requires name in st.queues && n <= |st.queues[name]|
    ensures PopAll(st, name, n) == Replies(st.queues[name][..n])
    decreases n
  {
    if n > 0 {
      PopAllQueue(PopNow(st, name).0, name, n - 1);
    }
  }

  /** Jobs pushed on an empty channel with room come back in order, with consecutive ids and the payloads
      they were pushed with. */
  lemma PushedComeBack(st: Store, name: Name, payloads: seq<Payload>)
    requires name in st.queues && st.queues[name] == [] && |payloads| <= st.capacity
    ensures PopAll(PushAll(st, name, payloads), name, |payloads|) == Replies(Numbering(st.nextId, payloads))
  {
    PushAllQueue(st, name, payloads);
    var jobs := Numbering(st.nextId, payloads);
    assert [] + jobs == jobs && jobs[..|payloads|] == jobs;
    PopAllQueue(PushAll(st, name, payloads), name, |payloads|);
  }

  /** A clear empties its own channel and nothing else: the other channels, the channels there are, the ids and the
      counters stay, and the result is the number of jobs dropped. */
  lemma ClearMeaning(st: Store, name: Name)
    ensures var (r, n) := ClearNow(st, name);
            && r == st.(queues := r.queues) && r.queues.Keys == st.queues.Keys
            && (name in st.queues ==> r.queues[name] == [] && n == |st.queues[name]|)
            && (name !in st.queues ==> n == 0)
            && forall c :: c in st.queues && c != name ==> r.queues[c] == st.queues[c]
  {
  }

  /** Right after a clear a pop finds nothing on that channel, and on any other what it would have found before. */
  lemma PopAfterClear(st: Store, name: Name, other: Name)
    ensures PopNow(ClearNow(st, name).0, name).1 == Popped(None)
    ensures other != name ==> PopNow(ClearNow(st, name).0, other).1 == PopNow(st, other).1
  {
    ClearMeaning(st, name);
    var r := ClearNow(st, name).0;
    assert |r.queues| == |r.queues.Keys| && |st.queues| == |st.queues.Keys|;
  }

  /** A push or a pop touches no channel but its own. */
  lemma OwnChannelOnly(st: Store, name: Name, payload: Payload, other: Name)
    requires other != name
    ensures var (pushed, popped) := (PushNow(st, name, payload).0.queues, PopNow(st, name).0.queues);
            && (other in pushed <==> other in st.queues) && (other in popped <==> other in st.queues)
            && (other in st.queues ==> pushed[other] == popped[other] == st.queues[other])
  {
  }

  // ------------------------------------------------------------------ uninterrupted calls are runs

  ghost function Project(s: State): Store {
    Store(map n | n in s.channels :: s.channels[n].queue, s.nextId, s.pushed, s.popped, s.rejected, s.maxChannels,
          s.capacity)
  }

  lemma ProjectSize(s: State)
    ensures |Project(s).queues| == |s.channels|
  {
    assert Project(s).queues.Keys == s.channels.Keys;
  }

  /** A missing channel is created, or refused at the cap. */
  lemma CreateIsRun(o: State, s: State, t: Tid, name: Name, op: Op) returns (r: State)
    requires Reaches(o, s) && t in s.calls && s.calls[t] == Missing(name, op) && name !in s.channels
    ensures Reaches(o, r) && t in r.calls && r.calls == s.calls[t := r.calls[t]]
    ensures if |s.channels| < s.maxChannels
            then Project(r) == Project(s).(queues := Project(s).queues[name := []]) && r.calls[t] == Has(name, op) &&
              name in r.channels
            else Project(r) == Project(s) && r.calls[t] == Done(if op.Push? then TooManyChannels else Popped(None))
  {
    r := Apply(s, CheckCap(t));
    Go(o, s, CheckCap(t), r);
    if |s.channels| < s.maxChannels {
      var s3 := r;
      r := Apply(s3, Insert(t));
      Go(o, s3, Insert(t), r);
      assert Project(r).queues == Project(s).queues[name := []];
    }
    assert r.calls == s.calls[t := r.calls[t]];
  }

  /** `channel_or_create` as steps. */
  lemma FindIsRun(o: State, s: State, t: Tid, name: Name, op: Op) returns (r: State)
    requires Reaches(o, s) && t !in s.calls
    ensures Reaches(o, r) && t in r.calls && r.calls == s.calls[t := r.calls[t]]
    ensures match WithChannel(Project(s), name)
            case Some(c) => Project(r) == c && r.calls[t] == Has(name, op) && name in r.channels
            case None =>
              Project(r) == Project(s) && r.calls[t] == Done(if op.Push? then TooManyChannels else Popped(None))
  {
    ProjectSize(s);
    var s1 := Apply(s, Start(t, name, op));
    Go(o, s, Start(t, name, op), s1);
    var s2 := Apply(s1, Lookup(t));
    Go(o, s1, Lookup(t), s2);
    assert s2.calls == s.calls[t := s2.calls[t]];
    if name in s.channels {
      r := s2;
    } else {
      r := CreateIsRun(o, s2, t, name, op);
    }
  }

  lemma ProjectSet(s: State, name: Name, ch: Chan)
    ensures Project(SetChan(s, name, ch)) == Project(s).(queues := Project(s).queues[name := ch.queue])
  {
    assert Project(SetChan(s, name, ch)).queues == Project(s).queues[name := ch.queue];
  }

  /** A clear is a run of one step with the effect and result of ClearNow, whatever calls are in progress. */
  lemma ClearIsRun(o: State, s: State, name: Name) returns (r: State)
    requires Reaches(o, s)
    ensures Reaches(o, r) && r.calls == s.calls
    ensures (Project(r), r.tally.cleared - s.tally.cleared) == ClearNow(Project(s), name)
  {
    r := Apply(s, Clear(name));
    Go(o, s, Clear(name), r);
    if name in s.channels { ProjectSet(s, name, r.channels[name]); }
  }

  /** Somebody the notification wakes, or None when nobody is parked. */
  lemma PickTarget(s: State, name: Name) returns (w: Option<Tid>)
    ensures Target(s, name, w)
  {
    if u :| Waiter(s, u, name) {
      w := Some(u);
    } else {
      w := None;
      assert forall u :: u in s.calls ==> !Waiter(s, u, name);
    }
  }

  /** An uninterrupted push is a run with the effect and reply of PushNow, whoever is parked. */
  lemma PushIsRun(o: State, s: State, t: Tid, name: Name, payload: Payload) returns (r: State)
    requires Reaches(o, s) && t !in s.calls
    ensures Reaches(o, r) && t in r.calls && r.calls[t].Done?
    ensures (Project(r), r.calls[t].reply) == PushNow(Project(s), name, payload)
  {
    var s1 := FindIsRun(o, s, t, name, Push(payload));
    r := s1;
    if s1.calls[t].Has? {
      var s2 := Apply(s1, TakeId(t));
      Go(o, s1, TakeId(t), s2);
      r := EnqueueIsRun(o, s2, t);
    }
  }

  /** The signal of a push changes no queue and, when somebody is parked, wakes one of them. */
  lemma NotifyIsRun(o: State, s: State, t: Tid) returns (r: State)
    requires Reaches(o, s) && t in s.calls && s.calls[t].Enqueued? && s.calls[t].name in s.channels
    ensures Reaches(o, r) && t in r.calls && r.calls[t] == Notified(s.calls[t].name, s.calls[t].id) &&
            Project(r) == Project(s)
    ensures (exists u :: Waiter(s, u, s.calls[t].name)) ==>
              exists u :: Waiter(s, u, s.calls[t].name) && u in r.calls && r.calls[u] == Woken(s.calls[t].name)
  {
    var name := s.calls[t].name;
    var w := PickTarget(s, name);
    r := Apply(s, NotifyOne(t, w));
    Go(o, s, NotifyOne(t, w), r);
    if w.Some? {
      assert Waiter(s, w.value, name) && r.calls[w.value] == Woken(name);
    } else {
      ProjectSet(s, name, r.channels[name]);
      assert Project(s).queues[name := r.channels[name].queue] == Project(s).queues;
    }
  }

  lemma EnqueueIsRun(o: State, s: State, t: Tid) returns (r: State)
    requires Reaches(o, s) && t in s.calls && s.calls[t].Numbered? && s.calls[t].name in s.channels
    ensures Reaches(o, r) && t in r.calls && r.calls[t].Done?
    ensures var Numbered(name, payload, id) := s.calls[t];
            var p := Project(s);
            if |p.queues[name]| >= p.capacity
            then Project(r) == p.(rejected := p.rejected + 1) && r.calls[t] == Done(Full)
            else Project(r) == p.(queues := p.queues[name := p.queues[name] + [Job(id, payload)]],
                                  pushed := p.pushed + 1) &&
                 r.calls[t] == Done(Pushed(id))
  {
    var Numbered(name, payload, id) := s.calls[t];
    var s1 := Apply(s, Enqueue(t));
    Go(o, s, Enqueue(t), s1);
    r := s1;
    if s1.calls[t].Enqueued? {
      ProjectSet(s, name, s1.channels[name]);
      var s2 := NotifyIsRun(o, s1, t);
      r := Apply(s2, CountPush(t));
      Go(o, s2, CountPush(t), r);
    }
  }

  /** An uninterrupted pop is a run with the effect and reply of PopNow, whether it waits or not: with nobody to wake
      it, a waiting one runs into its deadline. */
  lemma PopIsRun(o: State, s: State, t: Tid, name: Name, wait: bool) returns (r: State)
    requires Reaches(o, s) && t !in s.calls
    ensures Reaches(o, r) && t in r.calls && r.calls[t].Done?
    ensures (Project(r), r.calls[t].reply) == PopNow(Project(s), name)
  {
    var s1 := FindIsRun(o, s, t, name, Pop(wait));
    r := s1;
    if s1.calls[t].Has? {
      var s2 := Apply(s1, TryPop(t));
      Go(o, s1, TryPop(t), s2);
      r := s2;
      if s2.calls[t].Counting? {
        ProjectSet(s1, name, s2.channels[name]);
        r := Apply(s2, CountPop(t));
        Go(o, s2, CountPop(t), r);
      } else if s2.calls[t].LoopTop? {
        r := Apply(s2, Timeout(t));
        Go(o, s2, Timeout(t), r);
      }
    }
  }
}
