/**
 `ThreadDispatch` as the object it is: fields updated in place by `get_idle`, `return_idle` and
 `refresh_fds`.  Each method is specified by a function on `Core`; the lemmas say what those
 functions mean and that an uninterrupted call is a run of the transition system in Dispatch.
 */
module ThreadDispatchObject {
  import opened Util
  import opened Dispatch
  import opened DispatchRuns

  // ------------------------------------------------------------------ specification functions

  /** An uninterrupted `get_idle` that has skipped `skipped` slots so far. */
  function GetIdleFrom(c: Core, skipped: nat): (Core, Option<nat>)
    requires c.Valid()
    decreases |c.queue|
  {
    if c.permits == 0 || c.queue == [] then (c, None)
    else
      var last := |c.queue| - 1;
      var c' := c.(permits := c.permits - 1, queue := c.queue[..last]);
      if c.Pickable(c.queue[last]) then (c', Some(c.queue[last]))
      else if skipped + 1 >= MaxSkips(c.Cap()) then (c', None)
      else GetIdleFrom(c', skipped + 1)
  }

  /** The flagged slots below `n`, in order. */
  function FlaggedBelow(c: Core, n: nat): seq<nat>
    requires c.Valid() && n <= c.Cap()
  {
    if n == 0 then [] else FlaggedBelow(c, n - 1) + if c.Flagged(n - 1) then [n - 1] else []
  }

  /** The slots a refresh revives: flagged, known before and known after. */
  function Revivable(c: Core, prevLen: nat, newLen: nat): seq<nat>
    requires c.Valid()
  {
    FlaggedBelow(c, Min(prevLen, Min(newLen, c.Cap())))
  }

  function Span(lo: nat, hi: nat): seq<nat> {
    if lo < hi then seq(hi - lo, k requires 0 <= k < hi - lo => lo + k) else []
  }

  /** The first `n` slots reset. */
  function ResetBelow(c: Core, n: nat): (r: Core)
    requires c.Valid() && n <= c.Cap()
    ensures r.Valid() && r.Cap() == c.Cap()
  {
    if n == 0 then c else ResetBelow(c, n - 1).ResetSlot(n - 1)
  }

  /** The whole of `refresh_fds`, for the slots it reset, revived and added. */
  function Refreshed(c: Core, prevLen: nat, newLen: nat): Core
    requires c.Valid() && (newLen > prevLen ==> prevLen <= c.Cap())
  {
    var n := Min(newLen, c.Cap());
    var revived := Revivable(c, prevLen, newLen);
    var grown := Span(prevLen, n);
    var r := ResetBelow(c, n).PushMissing(revived).AddPermits(|revived|);
    r.(queue := r.queue + grown, permits := r.permits + |grown|)
  }

  // ------------------------------------------------------------------ the object

  class ThreadDispatch {
    var permits: nat
    var queue: seq<nat>
    var fds: seq<PipeId>
    const unhealthy: array<bool>
    const served: array<nat>
    const quota: seq<nat>

    ghost predicate Valid()
      reads this
    {
      unhealthy.Length == served.Length == |quota|
    }

    ghost function View(): Core
      reads this, unhealthy, served
    {
      Core(permits, queue, unhealthy[..], served[..], quota)
    }

    constructor (fds: seq<PipeId>, quota: seq<nat>)
      requires |fds| == |quota|
      ensures Valid() && fresh(unhealthy) && fresh(served)
      ensures View() == Init(quota, false).core && this.fds == fds
    {
      var n := |quota|;
      this.fds := fds;
      this.quota := quota;
      permits := n;
      queue := Slots(n);
      unhealthy := new bool[n](i => false);
      served := new nat[n](i => 0);
      new;
      assert unhealthy[..] == seq(n, i => false);
      assert served[..] == seq(n, i => 0);
    }

    /** `spawn_channel_workers`: no fds. */
    constructor Channels(quota: seq<nat>)
      ensures Valid() && fresh(unhealthy) && fresh(served)
      ensures View() == Init(quota, true).core && fds == Init(quota, true).fds
    {
      var n := |quota|;
      fds := [];
      this.quota := quota;
      permits := n;
      queue := Slots(n);
      unhealthy := new bool[n](i => false);
      served := new nat[n](i => 0);
      new;
      assert unhealthy[..] == seq(n, i => false);
      assert served[..] == seq(n, i => 0);
    }

    method MarkUnhealthy(idx: nat)
      requires Valid()
      modifies unhealthy
      ensures View() == old(View()).MarkUnhealthy(idx)
    {
      if idx < unhealthy.Length { unhealthy[idx] := true; }
    }

    method RecordServed(idx: nat)
      requires Valid()
      modifies served
      ensures View() == old(View()).RecordServed(idx)
    {
      if idx < served.Length { served[idx] := served[idx] + 1; }
    }

    method IsPickable(idx: nat) returns (ok: bool)
      requires Valid()
      ensures ok == View().Pickable(idx)
    {
      if idx >= unhealthy.Length { return false; }
      if unhealthy[idx] { return false; }
      if quota[idx] > 0 && served[idx] >= quota[idx] { return false; }
      return true;
    }

    /** The healthy slots past their quota, each once, in increasing order. */
    method OverQuotaIndices() returns (out: seq<nat>)
      requires Valid()
      ensures forall j, k :: 0 <= j < k < |out| ==> out[j] < out[k]
      ensures forall i: nat :: i in out <==> i < unhealthy.Length && !unhealthy[i] && View().OverQuota(i)
    {
      out := [];
      var idx := 0;
      while idx < served.Length
        invariant 0 <= idx <= served.Length
        invariant forall j, k :: 0 <= j < k < |out| ==> out[j] < out[k]
        invariant forall i: nat :: i in out <==> i < idx && !unhealthy[i] && View().OverQuota(i)
      {
        assert forall j :: 0 <= j < |out| ==> out[j] in out;
        if !unhealthy[idx] && quota[idx] > 0 && served[idx] >= quota[idx] { out := out + [idx]; }
        idx := idx + 1;
      }
    }

    /** Nobody else runs meanwhile, so an empty semaphore means the wait times out. */
    method GetIdle() returns (r: Option<nat>)
      requires Valid()
      modifies this`permits, this`queue
      ensures (View(), r) == GetIdleFrom(old(View()), 0)
    {
      var maxSkips := 2 * (if unhealthy.Length == 0 then 1 else unhealthy.Length);
      var skipped := 0;
      ghost var goal := GetIdleFrom(View(), 0);
      while true
        invariant skipped < maxSkips
        invariant unhealthy[..] == old(unhealthy[..]) && served[..] == old(served[..])
        invariant GetIdleFrom(View(), skipped) == goal
        decreases |queue|
      {
        if permits == 0 { return None; }
        permits := permits - 1;
        if queue == [] {
          permits := permits + 1;
          return None;
        }
        var idx := queue[|queue| - 1];
        queue := queue[..|queue| - 1];
        var ok := IsPickable(idx);
        if ok { return Some(idx); }
        skipped := skipped + 1;
        if skipped >= maxSkips { return None; }
      }
    }

    method ReturnIdle(idx: nat)
      requires Valid()
      modifies this`permits, this`queue
      ensures View() == old(View()).Push(idx).AddPermits(1)
    {
      queue := queue + [idx];
      permits := permits + 1;
    }

    /** The scan of `refresh_fds`: clear flags and counters, collect the slots to revive. */
    method ResetSlots(prevLen: nat, newLen: nat) returns (revived: seq<nat>)
      requires Valid()
      modifies unhealthy, served
      ensures View() == ResetBelow(old(View()), Min(newLen, unhealthy.Length))
      ensures revived == Revivable(old(View()), prevLen, newLen)
    {
      var n := Min(newLen, unhealthy.Length);
      ghost var c := View();
      revived := [];
      var i := 0;
      while i < n
        invariant 0 <= i <= n
        invariant View() == ResetBelow(c, i)
        invariant revived == FlaggedBelow(c, Min(prevLen, i))
      {
        FlaggedNext(c, prevLen, i);
        ResetBelowMeaning(c, i);
        var wasFlagged := ResetOne(i);
        if i < prevLen && wasFlagged { revived := revived + [i]; } else { assert revived + [] == revived; }
        i := i + 1;
      }
    }

    /** The two swaps on one slot. */
    method ResetOne(i: nat) returns (wasFlagged: bool)
      requires Valid() && i < unhealthy.Length
      modifies unhealthy, served
      ensures View() == old(View()).ResetSlot(i) && wasFlagged == old(View()).Flagged(i)
    {
      wasFlagged := unhealthy[i] || (quota[i] > 0 && served[i] >= quota[i]);
      unhealthy[i] := false;
      served[i] := 0;
    }

    method QueueRevived(revived: seq<nat>)
      requires Valid()
      modifies this`permits, this`queue
      ensures View() == old(View()).PushMissing(revived).AddPermits(|revived|)
    {
      ghost var c := View();
      var k := 0;
      while k < |revived|
        invariant 0 <= k <= |revived|
        invariant permits == old(permits) && queue == c.PushMissing(revived[..k]).queue
      {
        assert revived[..k + 1][..k] == revived[..k];
        if revived[k] !in queue { queue := queue + [revived[k]]; }
        k := k + 1;
      }
      assert revived[..k] == revived;
      permits := permits + |revived|;
    }

    /** `ok` is false when the growth arithmetic underflows and the reaper panics. */
    method RefreshFds(newFds: seq<PipeId>) returns (ok: bool)
      requires Valid()
      modifies this`permits, this`queue, this`fds, unhealthy, served
      ensures fds == newFds
      ensures ok <==> (|newFds| > |old(fds)| ==> |old(fds)| <= unhealthy.Length)
      ensures ok ==> View() == Refreshed(old(View()), |old(fds)|, |newFds|)
    {
      var prevLen := |fds|;
      fds := newFds;
      var newLen := |fds|;
      var revived := ResetSlots(prevLen, newLen);
      QueueRevived(revived);
      if newLen > prevLen {
        if prevLen > unhealthy.Length { return false; }
        queue := queue + Span(prevLen, Min(newLen, unhealthy.Length));
        permits := permits + (Min(newLen, unhealthy.Length) - prevLen);
      } else {
        assert queue + [] == queue;
      }
      ok := true;
    }
  }

  /** What a dropping guard sends to its worker. */
  datatype Signal = ShutdownByte(fd: int) | Kill(pid: int)

  /** A poisoned slot is flagged and not returned. */
  function Dropped(c: Core, i: nat, poisoned: bool): Core
    requires c.Valid()
  {
    if poisoned then c.MarkUnhealthy(i) else c.Push(i).AddPermits(1)
  }

  /** The RAII guard: it returns its slot, or flags it when it is armed and the request did not complete. */
  class IdleGuard {
    const td: ThreadDispatch
    var idx: Option<nat>
    var poison: Option<int>     // the command fd, when armed
    var pid: int
    var completed: bool

    constructor (td: ThreadDispatch, idx: nat)
      ensures this.td == td && this.idx == Some(idx) && poison == None && pid == 0 && !completed
    {
      this.td, this.idx, poison, pid, completed := td, Some(idx), None, 0, false;
    }

    method ArmPoison(cmdFd: int, pid: int)
      modifies this`poison, this`pid
      ensures poison == Some(cmdFd) && this.pid == pid
    {
      poison := Some(cmdFd);
      this.pid := pid;
    }

    method MarkCompleted()
      modifies this`completed
      ensures completed
    {
      completed := true;
    }

    /** A poisoned worker is told to exit, and killed when its process is known.  Dropping twice does nothing more. */
    method Drop() returns (sent: seq<Signal>)
      requires td.Valid()
      modifies this`idx, td`permits, td`queue, td.unhealthy
      ensures idx == None
      ensures td.View() ==
              match old(idx)
              case None => old(td.View())
              case Some(i) => Dropped(old(td.View()), i, poison.Some? && !completed)
      ensures sent == if old(idx).Some? && poison.Some? && !completed
                      then [ShutdownByte(poison.value)] + (if pid > 0 then [Kill(pid)] else [])
                      else []
    {
      sent := [];
      match idx {
        case None =>
        case Some(i) =>
          idx := None;
          if poison.Some? && !completed {
            td.MarkUnhealthy(i);
            sent := [ShutdownByte(poison.value)];
            if pid > 0 { sent := sent + [Kill(pid)]; }
          } else {
            td.ReturnIdle(i);
          }
      }
    }
  }

  // ------------------------------------------------------------------ what the functions mean

  /** `k` slots were passed over at the back of the queue, and what was behind them was handed out or nothing was. */
  ghost predicate PassedOver(c: Core, skipped: nat, c': Core, r: Option<nat>, k: nat)
    requires c.Valid()
  {
    && k <= |c.queue| && k <= c.permits && skipped + k <= 2 * Max(c.Cap(), 1)
    && (forall j :: |c.queue| - k <= j < |c.queue| ==> !c.Pickable(c.queue[j]))
    && match r
       case Some(i) =>
         && k < |c.queue| && k < c.permits && skipped + k < 2 * Max(c.Cap(), 1) 
         && i == c.queue[|c.queue| - k - 1] && c.Pickable(i)
         && c' == c.(queue := c.queue[..|c.queue| - k - 1], permits := c.permits - k - 1)
       case None =>
         && c' == c.(queue := c.queue[..|c.queue| - k], permits := c.permits - k)
         && (k == c.permits || k == |c.queue| || skipped + k == 2 * Max(c.Cap(), 1))
  }

  lemma PassOne(c: Core, skipped: nat, c': Core, r: Option<nat>, k: nat)
    requires c.Valid() && c.permits > 0 && c.queue != [] && !c.Pickable(c.queue[|c.queue| - 1])
    requires PassedOver(TakeBack(c), skipped + 1, c', r, k)
    ensures PassedOver(c, skipped, c', r, k + 1)
  {
    var last := |c.queue| - 1;
    SliceTwice(c.queue, last, last - k);
    if k < last { SliceTwice(c.queue, last, last - k - 1); }
    forall j | |c.queue| - k - 1 <= j < |c.queue| ensures !c.Pickable(c.queue[j]) {
      if j < last { assert c.queue[..last][j] == c.queue[j]; }
    }
  }

  /** The calls that end at once: nothing to take, the last slot taken, or the allowance spent. */
  lemma PassEnd(c: Core, skipped: nat)
    requires c.Valid() && skipped < MaxSkips(c.Cap())
    ensures c.permits == 0 || c.queue == [] ==> PassedOver(c, skipped, c, None, 0)
    ensures c.permits > 0 && c.queue != [] ==>
              var last := |c.queue| - 1;
              && (c.Pickable(c.queue[last]) ==> PassedOver(c, skipped, TakeBack(c), Some(c.queue[last]), 0))
              && (!c.Pickable(c.queue[last]) && skipped + 1 == MaxSkips(c.Cap()) ==>
                  PassedOver(c, skipped, TakeBack(c), None, 1))
  {
    assert c.queue[..|c.queue|] == c.queue;
  }

  function TakeBack(c: Core): Core
    requires c.queue != [] && c.permits > 0
  {
    c.(permits := c.permits - 1, queue := c.queue[..|c.queue| - 1])
  }

  lemma {:induction false} GetIdleResult(c: Core, skipped: nat, c': Core, r: Option<nat>) returns (k: nat)
    requires c.Valid() && skipped < MaxSkips(c.Cap()) && GetIdleFrom(c, skipped) == (c', r)
    ensures PassedOver(c, skipped, c', r, k)
    decreases |c.queue|
  {
    PassEnd(c, skipped);
    if c.permits == 0 || c.queue == [] || c.Pickable(c.queue[|c.queue| - 1]) {
      k := 0;
    } else if skipped + 1 >= MaxSkips(c.Cap()) {
      k := 1;
    } else {
      var passed := GetIdleResult(TakeBack(c), skipped + 1, c', r);
      PassOne(c, skipped, c', r, passed);
      k := passed + 1;
    }
  }

  /** Last in, first out: the slot handed out is the last queued one that can be picked; every slot
      behind it is taken out with its permit, and at most the allowance of them. */
  lemma GetIdleMeaning(c: Core, skipped: nat) returns (k: nat)
    requires c.Valid() && skipped < MaxSkips(c.Cap())
    ensures var (c', r) := GetIdleFrom(c, skipped); PassedOver(c, skipped, c', r, k)
  {
    k := GetIdleResult(c, skipped, GetIdleFrom(c, skipped).0, GetIdleFrom(c, skipped).1);
  }

  /** Slot `j` of the queue is the one to hand out: the last that can be picked, within reach of the permits and of
      the allowance of two skips per worker. */
  ghost predicate InReach(c: Core, j: nat)
    requires c.Valid()
  {
    && j < |c.queue| && c.Pickable(c.queue[j])
    && (forall k :: j < k < |c.queue| ==> !c.Pickable(c.queue[k]))
    && |c.queue| - j <= c.permits && |c.queue| - j <= 2 * Max(c.Cap(), 1)
  }

  lemma PassedOverIff(c: Core, c': Core, r: Option<nat>, k: nat, j: nat)
    requires c.Valid() && PassedOver(c, 0, c', r, k)
    ensures InReach(c, j) <==> r.Some? && j == |c.queue| - k - 1
    ensures r.Some? ==> j == |c.queue| - k - 1 ==>
              c' == c.(queue := c.queue[..j], permits := c.permits - (|c.queue| - j)) && r.value == c.queue[j]
  {
  }

  /** A call hands out a worker if and only if there is such a slot, and then that one; it and the slots behind it
      leave the queue with their permits. */
  lemma GetIdleIff(c: Core)
    requires c.Valid()
    ensures GetIdleFrom(c, 0).1.Some? <==> exists j: nat :: InReach(c, j)
    ensures forall j: nat :: InReach(c, j) ==>
              GetIdleFrom(c, 0) ==
              (c.(queue := c.queue[..j], permits := c.permits - (|c.queue| - j)), Some(c.queue[j]))
  {
    var k := GetIdleMeaning(c, 0);
    var (c', r) := GetIdleFrom(c, 0);
    forall j: nat { PassedOverIff(c, c', r, k, j); }
    if r.Some? { assert InReach(c, |c.queue| - k - 1); }
  }

  /** A queue without duplicates over tracked slots, with a permit for each, never disappoints a call while any of its
      slots can be picked. */
  lemma PickableIsFound(c: Core)
    requires c.Valid() && NoDup(c.queue) && (forall i :: i in c.queue ==> i < c.Cap()) && |c.queue| <= c.permits
    ensures GetIdleFrom(c, 0).1.Some? <==> exists i :: i in c.queue && c.Pickable(i)
  {
    NoDupBelow(c.queue, c.Cap());
    GetIdleIff(c);
    if j: nat :| InReach(c, j) { assert c.queue[j] in c.queue; }
    if i :| i in c.queue && c.Pickable(i) {
      var j := LastPickable(c, |c.queue|);
      assert InReach(c, j);
    }
  }

  lemma {:induction false} LastPickable(c: Core, n: nat) returns (j: nat)
    requires c.Valid() && n <= |c.queue| && exists k :: 0 <= k < n && c.Pickable(c.queue[k])
    ensures j < n && c.Pickable(c.queue[j]) && forall k :: j < k < n ==> !c.Pickable(c.queue[k])
  {
    if c.Pickable(c.queue[n - 1]) { j := n - 1; } else { j := LastPickable(c, n - 1); }
  }

  lemma SliceTwice<T>(s: seq<T>, n: nat, m: nat)
    requires m <= n <= |s|
    ensures s[..n][..m] == s[..m]
  {
  }

  lemma {:induction false} FlaggedBelowMeaning(c: Core, n: nat)
    requires c.Valid() && n <= c.Cap()
    ensures NoDup(FlaggedBelow(c, n))
    ensures forall i: nat :: i in FlaggedBelow(c, n) <==> i < n && c.Flagged(i)
  {
    if n > 0 {
      FlaggedBelowMeaning(c, n - 1);
      NoDupJoin(FlaggedBelow(c, n - 1), if c.Flagged(n - 1) then [n - 1] else []);
    }
  }

  ghost predicate Increasing(s: seq<nat>) { forall j, k :: 0 <= j < k < |s| ==> s[j] < s[k] }

  lemma {:induction false} FlaggedIncreasing(c: Core, n: nat)
    requires c.Valid() && n <= c.Cap()
    ensures Increasing(FlaggedBelow(c, n)) && forall i :: i in FlaggedBelow(c, n) ==> i < n
  {
    if n > 0 {
      var rest := FlaggedBelow(c, n - 1);
      FlaggedIncreasing(c, n - 1);
      assert forall j :: 0 <= j < |rest| ==> rest[j] in rest;
    }
  }

  /** What pushing appends: the slots that were missing, in their order. */
  lemma {:induction false} PushMissingAppends(c: Core, revived: seq<nat>) returns (back: seq<nat>)
    requires Increasing(revived)
    ensures c.PushMissing(revived).queue == c.queue + back && Increasing(back)
    ensures forall i :: i in back <==> i in revived && i !in c.queue
    decreases |revived|
  {
    if revived == [] {
      back := [];
    } else {
      var k := |revived| - 1;
      back := PushMissingAppends(c, revived[..k]);
      forall j | 0 <= j < |back| ensures back[j] < revived[k] { assert back[j] in revived[..k]; }
      assert revived[k] !in revived[..k];
      if revived[k] !in c.queue {
        Join3(c.queue, back, [revived[k]]);
        back := back + [revived[k]];
      }
    }
  }

  /** A tracked slot out of service: unhealthy, or past a quota that is not zero. */
  predicate Retired(c: Core, i: nat)
    requires c.Valid()
  {
    i < c.Cap() && (c.unhealthy[i] || (c.quota[i] > 0 && c.served[i] >= c.quota[i]))
  }

  lemma FlaggedSize(c: Core, n: nat)
    requires c.Valid() && n <= c.Cap()
    ensures |FlaggedBelow(c, n)| == |set i: nat | i < n && Retired(c, i)|
    ensures forall i: nat :: i in FlaggedBelow(c, n) <==> i < n && Retired(c, i)
  {
    var flagged := FlaggedBelow(c, n);
    FlaggedBelowMeaning(c, n);
    NoDupSet(flagged);
    assert Members(flagged) == set i: nat | i < n && Retired(c, i);
  }

  /** After a refresh no slot below the new length is flagged and the others are as before.  The queue is the old one,
      then the flagged slots known before and after that were missing from it, in order, then the new slots, in order;
      a permit is added for every slot revived, missing or not, and for every new one. */
  lemma RefreshMeaning(c: Core, prevLen: nat, newLen: nat) returns (back: seq<nat>)
    requires c.Valid() && (newLen > prevLen ==> prevLen <= c.Cap())
    ensures var r, n := Refreshed(c, prevLen, newLen), Min(newLen, c.Cap());
            && r.Valid() && r.quota == c.quota && r.Cap() == c.Cap()
            && (forall i: nat :: i < c.Cap() ==> r.unhealthy[i] == (i >= newLen && c.unhealthy[i]))
            && (forall i: nat :: i < c.Cap() ==> r.served[i] == if i >= newLen then c.served[i] else 0)
            && Increasing(back)
            && (forall i: nat :: i in back <==> i < prevLen && i < n && Retired(c, i) && i !in c.queue)
            && r.queue == c.queue + back + seq(Max(n - prevLen, 0), k => prevLen + k)
            && r.permits == c.permits + |set i: nat | i < Min(prevLen, n) && Retired(c, i)| + Max(n - prevLen, 0)
  {
    var n := Min(newLen, c.Cap());
    var revived := Revivable(c, prevLen, newLen);
    ResetBelowMeaning(c, n);
    FlaggedIncreasing(c, Min(prevLen, n));
    FlaggedSize(c, Min(prevLen, n));
    back := PushMissingAppends(ResetBelow(c, n), revived);
    assert Span(prevLen, n) == seq(Max(n - prevLen, 0), k => prevLen + k);
  }

  // ------------------------------------------------------------------ uninterrupted calls are runs

  /** A dropping guard is a run: one step when the request was still reading, and the two steps of `return_idle` when
      it had completed. */
  lemma DropIsRun(o: State, s: State, t: Tid) returns (r: State)
    requires Reaches(o, s) && s.core.Valid() && t in s.tasks && (s.tasks[t].Reading? || s.tasks[t].Completed?)
    ensures Reaches(o, r) && r.core == Dropped(s.core, s.tasks[t].idx, s.tasks[t].Reading?)
    ensures t in r.tasks && r == s.(core := r.core, tasks := s.tasks[t := r.tasks[t]])
  {
    if s.tasks[t].Reading? {
      r := Apply(s, Poison(t));
      Go(o, s, Poison(t), r);
    } else {
      r := GiveBack(o, s, t);
    }
  }

  function MarkAll(c: Core, idxs: seq<nat>): (r: Core)
    requires c.Valid()
    ensures r.Valid() && r.Cap() == c.Cap()
  {
    if idxs == [] then c else MarkAll(c, idxs[..|idxs| - 1]).MarkUnhealthy(idxs[|idxs| - 1])
  }

  lemma {:induction false} MarkAllMeaning(c: Core, idxs: seq<nat>)
    requires c.Valid()
    ensures var r := MarkAll(c, idxs);
            && r == c.(unhealthy := r.unhealthy)
            && forall i: nat :: i < c.Cap() ==> (r.unhealthy[i] <==> c.unhealthy[i] || i in idxs)
    decreases |idxs|
  {
    if idxs != [] {
      var k := |idxs| - 1;
      MarkAllMeaning(c, idxs[..k]);
      assert idxs == idxs[..k] + [idxs[k]];
    }
  }

  /** The reaper flagging what `over_quota_indices` reported is a run. */
  lemma {:induction false} MarkingIsRun(o: State, s: State, idxs: seq<nat>) returns (r: State)
    requires Reaches(o, s) && s.core.Valid() && s.reaper.Resting? && NoDup(idxs)
    requires forall i :: i in idxs ==> i < s.core.Cap() && !s.core.unhealthy[i] && s.core.OverQuota(i)
    ensures Reaches(o, r) && r == s.(core := MarkAll(s.core, idxs))
    decreases |idxs|
  {
    if idxs == [] {
      r := s;
    } else {
      var k := |idxs| - 1;
      NoDupPop(idxs);
      assert forall i :: i in idxs[..k] ==> i in idxs;
      var m := MarkingIsRun(o, s, idxs[..k]);
      MarkAllMeaning(s.core, idxs[..k]);
      assert idxs[k] in idxs && idxs[k] !in idxs[..k];
      r := Apply(m, MarkOverQuota(idxs[k]));
      Go(o, m, MarkOverQuota(idxs[k]), r);
    }
  }

  /** `t` acquires a permit and pops the back of the queue. */
  lemma AcquireAndPop(o: State, s: State, t: Tid) returns (r: State)
    requires Reaches(o, s) && s.core.Valid() && t in s.tasks && s.tasks[t].Waiting?
    requires s.core.permits > 0 && s.core.queue != []
    ensures Reaches(o, r)
    ensures var last := |s.core.queue| - 1;
            r == s.(core := s.core.(permits := s.core.permits - 1, queue := s.core.queue[..last]),
                    tasks := s.tasks[t := Popped(s.core.queue[last], s.tasks[t].skips)], tally := r.tally)
  {
    var r1 := s.(tasks := s.tasks[t := Acquired(s.tasks[t].skips)], core := s.core.(permits := s.core.permits - 1),
                 tally := s.tally.(consumed := s.tally.consumed + 1));
    Go(o, s, Acquire(t), r1);
    r := Apply(r1, Pop(t));
    Go(o, r1, Pop(t), r);
    assert r.tasks == s.tasks[t := r.tasks[t]];
  }

  lemma EmptyHanded(o: State, s: State, t: Tid) returns (r: State)
    requires Reaches(o, s) && s.core.Valid() && t in s.tasks && s.tasks[t].Waiting?
    requires s.core.permits == 0 || s.core.queue == []
    ensures Reaches(o, r) && r == s.(tasks := s.tasks[t := Ended], tally := r.tally)
  {
    if s.core.permits == 0 {
      r := s.(tasks := s.tasks[t := Ended]);
      Go(o, s, StopWaiting(t), r);
    } else {
      var r1 := s.(tasks := s.tasks[t := Acquired(s.tasks[t].skips)], core := s.core.(permits := s.core.permits - 1),
                   tally := s.tally.(consumed := s.tally.consumed + 1));
      Go(o, s, Acquire(t), r1);
      var r2 := r1.(tasks := r1.tasks[t := Restoring]);
      Go(o, r1, Pop(t), r2);
      r := r2.(tasks := r2.tasks[t := Ended], core := s.core, tally := r2.tally.(restored := r2.tally.restored + 1));
      Go(o, r2, Restore(t), r);
      assert r.tasks == s.tasks[t := Ended];
    }
  }

  /** An uninterrupted `get_idle` is a run, with the effect and the result of GetIdleFrom. */
  lemma {:induction false} GetIdleIsRun(o: State, s: State, t: Tid) returns (r: State)
    requires Reaches(o, s) && s.core.Valid() && t in s.tasks && s.tasks[t].Waiting?
    ensures Reaches(o, r)
    ensures var (c, got) := GetIdleFrom(s.core, s.tasks[t].skips);
            r == s.(core := c, tasks := s.tasks[t := if got.Some? then Claimed(got.value) else Ended], tally := r.tally)
    decreases |s.core.queue|
  {
    if s.core.permits == 0 || s.core.queue == [] {
      r := EmptyHanded(o, s, t);
    } else {
      var r1 := AcquireAndPop(o, s, t);
      var Popped(idx, skips) := r1.tasks[t];
      var r2 := Apply(r1, Check(t));
      Go(o, r1, Check(t), r2);
      assert r2.tasks == s.tasks[t := r2.tasks[t]];
      if s.core.Pickable(idx) || skips + 1 >= MaxSkips(s.core.Cap()) {
        r := r2;
      } else {
        r := GetIdleIsRun(o, r2, t);
        assert r.tasks == s.tasks[t := r.tasks[t]];
      }
    }
  }

  /** Resetting clears flags and counts below the bound and touches nothing else. */
  lemma {:induction false} ResetBelowMeaning(c: Core, n: nat)
    requires c.Valid() && n <= c.Cap()
    ensures var r := ResetBelow(c, n);
            && r == c.(unhealthy := r.unhealthy, served := r.served)
            && forall i :: 0 <= i < c.Cap() ==> r.unhealthy[i] == (i >= n && c.unhealthy[i]) &&
                                                r.served[i] == if i >= n then c.served[i] else 0
    decreases n
  {
    if n > 0 { ResetBelowMeaning(c, n - 1); }
  }

  /** The state of a refresh that has scanned the slots below `i`. */
  ghost function Scanned(s: State, i: nat): State
    requires s.core.Valid() && s.reaper.Scanning? && i <= s.core.Cap()
  {
    s.(core := ResetBelow(s.core, i),
       reaper := s.reaper.(at := i, revived := FlaggedBelow(s.core, Min(s.reaper.prevLen, i))))
  }

  lemma FlaggedNext(c: Core, prevLen: nat, i: nat)
    requires c.Valid() && i < c.Cap()
    ensures FlaggedBelow(c, Min(prevLen, i + 1)) ==
            FlaggedBelow(c, Min(prevLen, i)) + if i < prevLen && c.Flagged(i) then [i] else []
  {
    var revived := FlaggedBelow(c, Min(prevLen, i));
    assert revived + [] == revived;
  }

  /** The scan of one slot, from any contents of the shared fields. */
  lemma ScanOne(s: State, q: State, c: Core, revived: seq<nat>, i: nat)
    requires s.reaper.Scanning? && c.Valid() && i < c.Cap() && i < s.reaper.newLen
    requires q == s.(core := c, reaper := s.reaper.(at := i, revived := revived))
    ensures Enabled(q, Scan)
    ensures var back := if i < s.reaper.prevLen && c.Flagged(i) then [i] else [];
            Apply(q, Scan) == s.(core := c.ResetSlot(i), reaper := s.reaper.(at := i + 1, revived := revived + back))
  {
    assert revived + [] == revived;
  }

  lemma ScanNext(s: State, q: State, r: State, i: nat)
    requires s.core.Valid() && s.reaper.Scanning? && i < s.core.Cap() && i < s.reaper.newLen
    requires q == Scanned(s, i) && r == Scanned(s, i + 1)
    ensures q.core.Valid() && Enabled(q, Scan) && Apply(q, Scan) == r
  {
    ResetBelowMeaning(s.core, i);
    FlaggedNext(s.core, s.reaper.prevLen, i);
    ScanOne(s, q, ResetBelow(s.core, i), FlaggedBelow(s.core, Min(s.reaper.prevLen, i)), i);
  }

  lemma {:induction false} ScanIsRun(o: State, s: State, i: nat, r: State)
    requires Reaches(o, s) && s.core.Valid() && s.reaper.Scanning? && s.reaper.at == 0 && s.reaper.revived == []
    requires i <= s.reaper.newLen && i <= s.core.Cap() && r == Scanned(s, i)
    ensures Reaches(o, r)
    decreases i
  {
    if i == 0 {
      assert r == s;
    } else {
      var q := Scanned(s, i - 1);
      ScanIsRun(o, s, i - 1, q);
      ScanNext(s, q, r, i - 1);
      Go(o, q, Scan, r);
    }
  }

  /** An uninterrupted `refresh_fds` is a run, with the effect of Refreshed. */
  lemma RefreshIsRun(o: State, s: State, newFds: seq<PipeId>) returns (r: State)
    requires Reaches(o, s) && s.core.Valid() && s.reaper.Resting? && FdsFromPool(s, newFds)
    requires |newFds| > |s.fds| ==> |s.fds| <= s.core.Cap()
    ensures Reaches(o, r)
    ensures r.core == Refreshed(s.core, |s.fds|, |newFds|) && r.reaper == Resting && r.tasks == s.tasks &&
            r.fds == newFds
  {
    var r1 := Apply(s, InstallFds(newFds));
    Go(o, s, InstallFds(newFds), r1);
    var n := Min(|newFds|, s.core.Cap());
    var r2 := Scanned(r1, n);
    ScanIsRun(o, r1, n, r2);
    r := FinishRefresh(o, r2);
    var revived := Revivable(s.core, |s.fds|, |newFds|);
    assert r2.reaper.revived == revived;
  }

  lemma FinishRefresh(o: State, s: State) returns (r: State)
    requires Reaches(o, s) && s.core.Valid() && s.reaper.Scanning? && s.reaper.at == Min(s.reaper.newLen, s.core.Cap())
    requires s.reaper.newLen > s.reaper.prevLen ==> s.reaper.prevLen <= s.core.Cap()
    ensures Reaches(o, r)
    ensures var grown := Span(s.reaper.prevLen, Min(s.reaper.newLen, s.core.Cap()));
            var c := s.core.PushMissing(s.reaper.revived).AddPermits(|s.reaper.revived|);
            r == s.(core := c.(queue := c.queue + grown, permits := c.permits + |grown|), reaper := Resting)
  {
    var Scanning(prevLen, newLen, _, revived) := s.reaper;
    var grown := Span(prevLen, Min(newLen, s.core.Cap()));
    var r1 := s.(core := s.core.PushMissing(revived), reaper := Owing(|revived|, prevLen, newLen));
    Go(o, s, PushRevived, r1);
    var r2 := r1.(core := r1.core.AddPermits(|revived|), reaper := Growing(prevLen, newLen));
    Go(o, r1, AddRevivedPermits, r2);
    if newLen <= prevLen {
      r := r2.(reaper := Resting);
      assert r2.core.queue + [] == r2.core.queue;
      Go(o, r2, Grow, r);
    } else {
      assert Grown(r2) == grown;
      var r3 := r2.(core := r2.core.(queue := r2.core.queue + grown), reaper := GrownOwing(|grown|));
      Go(o, r2, Grow, r3);
      r := r3.(core := r3.core.AddPermits(|grown|), reaper := Resting);
      Go(o, r3, AddGrownPermits, r);
    }
  }
}
