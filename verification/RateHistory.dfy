/**
 What the guard's counters mean and what it decides, from the history of calls alone: the requests and errors of an
 address since its window began, its recorded attempts since they were last forgotten, when a block begins and how
 long it lasts.  Times are nanoseconds.
 */
module RateHistory {
  import opened Util
  import opened RateGuard

  // ------------------------------------------------------------------ events

  predicate Tracked(s: State, ip: Address) { ip in s.profiles }

  /** The first check or attempt of an address there is room for. */
  predicate Admits(c: Config, s: State, e: Event, ip: Address) {
    (e.Check? || e.Sqli?) && e.ip == ip && !Tracked(s, ip) && |s.profiles| < c.maxProfiles
  }

  /** A check that comes later than a window's length after the address's window began. */
  predicate Outlives(c: Config, s: State, e: Event, ip: Address) {
    && e.Check? && e.ip == ip && Tracked(s, ip)
    && var length := Min(c.windowSeconds * 1_000_000_000, 0xFFFF_FFFF_FFFF_FFFF);
       0 < length < e.now - s.profiles[ip].windowStart
  }

  /** A window of the address begins. */
  predicate Begins(c: Config, s: State, e: Event, ip: Address) { Admits(c, s, e, ip) || Outlives(c, s, e, ip) }

  /** The address is under a block that has not run out. */
  predicate Barred(s: State, ip: Address, now: nat) {
    Tracked(s, ip) && s.profiles[ip].blocked && now < s.profiles[ip].until
  }

  /** A check that is counted: no block turns it away first. */
  predicate Counted(s: State, e: Event, ip: Address) { e.Check? && e.ip == ip && !Barred(s, ip, e.now) }

  /** The recorded attempts of the address are forgotten: it is new, somebody unblocks it, or its window ends after its
      block has run out. */
  predicate Forgets(c: Config, s: State, e: Event, ip: Address) {
    || Admits(c, s, e, ip)
    || (e == Unblock(ip) && Tracked(s, ip))
    || (Outlives(c, s, e, ip) && s.profiles[ip].until != 0 && s.profiles[ip].until <= e.now)
  }

  // ------------------------------------------------------------------ counts since an event

  /** The failed requests of the address from event `k` on. */
  function ErrorsSince(es: seq<Event>, k: nat, ip: Address): nat
    decreases |es|
  {
    if |es| <= k then 0
    else ErrorsSince(es[..|es| - 1], k, ip) + One(es[|es| - 1] == Completed(ip, true))
  }

  /** Its counted checks from event `k` on. */
  function ChecksSince(c: Config, es: seq<Event>, k: nat, ip: Address): nat
    decreases |es|
  {
    if |es| <= k then 0
    else
      var before := es[..|es| - 1];
      ChecksSince(c, before, k, ip) + One(Counted(After(c, Start(), before), es[|es| - 1], ip))
  }

  /** Its recorded attempts from event `k` on. */
  function AttemptsSince(es: seq<Event>, k: nat, ip: Address): nat
    decreases |es|
  {
    if |es| <= k then 0
    else AttemptsSince(es[..|es| - 1], k, ip) + One(es[|es| - 1].Sqli? && es[|es| - 1].ip == ip)
  }

  /** Event `k` is the last that satisfies the property of a state and the event it meets. */
  ghost predicate LastSuch(c: Config, es: seq<Event>, k: nat, p: (State, Event) -> bool) {
    && k < |es| && p(After(c, Start(), es[..k]), es[k])
    && forall j :: k < j < |es| ==> !p(After(c, Start(), es[..j]), es[j])
  }

  ghost predicate WindowBegan(c: Config, es: seq<Event>, k: nat, ip: Address) {
    LastSuch(c, es, k, (s, e) => Begins(c, s, e, ip))
  }

  ghost predicate LastForgot(c: Config, es: seq<Event>, k: nat, ip: Address) {
    LastSuch(c, es, k, (s, e) => Forgets(c, s, e, ip))
  }

  lemma LastSuchStep(c: Config, es: seq<Event>, k: nat, p: (State, Event) -> bool)
    requires es != []
    ensures p(After(c, Start(), es[..|es| - 1]), es[|es| - 1]) ==> LastSuch(c, es, |es| - 1, p)
    ensures !p(After(c, Start(), es[..|es| - 1]), es[|es| - 1]) && LastSuch(c, es[..|es| - 1], k, p) ==>
              LastSuch(c, es, k, p)
  {
    var rest, n := es[..|es| - 1], |es| - 1;
    if !p(After(c, Start(), rest), es[n]) && LastSuch(c, rest, k, p) {
      assert rest[..k] == es[..k] && rest[k] == es[k];
      forall j | k < j < |es| ensures !p(After(c, Start(), es[..j]), es[j]) {
        if j < n { assert rest[..j] == es[..j] && rest[j] == es[j]; }
      }
    }
  }

  // ------------------------------------------------------------------ the counters are those counts

  lemma WindowStep(c: Config, s: State, e: Event, ip: Address)
    requires Inv(s) && Timely(s, e) && Tracked(Apply(c, s, e), ip)
    ensures var p := Apply(c, s, e).profiles[ip];
            if Begins(c, s, e, ip)
            then p.windowStart == e.now && p.errors == 0 && p.requests == One(Counted(s, e, ip))
            else
              && Tracked(s, ip) && p.windowStart == s.profiles[ip].windowStart
              && p.errors == s.profiles[ip].errors + One(e == Completed(ip, true))
              && p.requests == s.profiles[ip].requests + One(Counted(s, e, ip))
  {
  }

  lemma AttemptStep(c: Config, s: State, e: Event, ip: Address)
    requires Inv(s) && Timely(s, e) && Tracked(Apply(c, s, e), ip)
    ensures Apply(c, s, e).profiles[ip].sqli ==
            (if Forgets(c, s, e, ip) then 0 else if Tracked(s, ip) then s.profiles[ip].sqli else 0)
            + One(e.Sqli? && e.ip == ip)
    ensures Tracked(s, ip) || Forgets(c, s, e, ip)
  {
  }

  /** In every run, a tracked address's window began with some check or attempt, at its time; since then its errors are
      the failed requests reported for it, and its requests the checks that no block turned away. */
  lemma {:induction false} WindowCounts(c: Config, es: seq<Event>, ip: Address) returns (k: nat)
    requires Run(c, Start(), es) && Tracked(After(c, Start(), es), ip)
    ensures WindowBegan(c, es, k, ip) && (es[k].Check? || es[k].Sqli?)
    ensures var p := After(c, Start(), es).profiles[ip];
            && p.windowStart == es[k].now
            && p.errors == ErrorsSince(es, k, ip)
            && p.requests == ChecksSince(c, es, k, ip)
    decreases |es|
  {
    var n := |es| - 1;
    var rest, e := es[..n], es[n];
    var s := After(c, Start(), rest);
    AlwaysInv(c, rest);
    WindowStep(c, s, e, ip);
    if Begins(c, s, e, ip) {
      k := n;
    } else {
      k := WindowCounts(c, rest, ip);
      assert rest[k] == es[k];
    }
    LastSuchStep(c, es, k, (s, e) => Begins(c, s, e, ip));
  }

  /** In every run, the attempts held against a tracked address are those recorded since they were last forgotten. */
  lemma {:induction false} AttemptCounts(c: Config, es: seq<Event>, ip: Address) returns (k: nat)
    requires Run(c, Start(), es) && Tracked(After(c, Start(), es), ip)
    ensures LastForgot(c, es, k, ip)
    ensures After(c, Start(), es).profiles[ip].sqli == AttemptsSince(es, k, ip)
    decreases |es|
  {
    var n := |es| - 1;
    var rest, e := es[..n], es[n];
    var s := After(c, Start(), rest);
    AlwaysInv(c, rest);
    AttemptStep(c, s, e, ip);
    if Forgets(c, s, e, ip) {
      k := n;
    } else {
      k := AttemptCounts(c, rest, ip);
    }
    LastSuchStep(c, es, k, (s, e) => Forgets(c, s, e, ip));
  }

  // ------------------------------------------------------------------ what a check decides

  /** More than ten requests, and more than the limit allows for the time since `start`, of at least a millisecond. */
  predicate Flood(c: Config, n: nat, start: nat, now: nat) {
    c.maxRps > 0 && n > 10 && n * 1_000_000_000 > c.maxRps * Max(now - start, 1_000_000)
  }

  predicate Scan(c: Config, n: nat, errors: nat) { n > 0 && n >= c.scanMin && errors as real / n as real > c.scanRate }

  lemma FreeCheck(c: Config, s: State, ip: Address, now: nat)
    requires Inv(s) && Timely(s, Check(ip, now)) && !Barred(s, ip, now)
    requires Tracked(s, ip) || |s.profiles| < c.maxProfiles
    ensures var s' := Apply(c, s, Check(ip, now));
            && Tracked(s', ip)
            && var p := s'.profiles[ip];
               var flood, scan := Flood(c, p.requests, p.windowStart, now), Scan(c, p.requests, p.errors);
               && (Allowed(c, s, Check(ip, now)) <==> !flood && !scan)
               && (p.blocked <==> scan && !flood)
               && (p.blocked ==> p.until == Min(now + 300 * 1_000_000_000, 0xFFFF_FFFF_FFFF_FFFF))
  {
    var p := Apply(c, s, Check(ip, now)).profiles[ip];
    assert TooFast(c, p, now) <==> Flood(c, p.requests, p.windowStart, now);
    assert Scanning(c, p) <==> Scan(c, p.requests, p.errors);
  }

  /** What a check of an address without a block in force decides, in any run: with the checks and errors of its window
      up to and including this one, it is allowed unless they are a flood or a scan; a scan that is no flood blocks the
      address for five minutes. */
  lemma CheckDecides(c: Config, es: seq<Event>, ip: Address, now: nat) returns (k: nat)
    requires Run(c, Start(), es + [Check(ip, now)]) && !Barred(After(c, Start(), es), ip, now)
    requires Tracked(After(c, Start(), es), ip) || |After(c, Start(), es).profiles| < c.maxProfiles
    ensures var all := es + [Check(ip, now)];
            && WindowBegan(c, all, k, ip) && (all[k].Check? || all[k].Sqli?)
            && var n, errors := ChecksSince(c, all, k, ip), ErrorsSince(all, k, ip);
               var flood, scan := Flood(c, n, all[k].now, now), Scan(c, n, errors);
               && (Allowed(c, After(c, Start(), es), Check(ip, now)) <==> !flood && !scan)
               && Tracked(After(c, Start(), all), ip)
               && var p := After(c, Start(), all).profiles[ip];
                  && (p.blocked <==> scan && !flood)
                  && (p.blocked ==> p.until == Min(now + 300 * 1_000_000_000, 0xFFFF_FFFF_FFFF_FFFF))
  {
    var all := es + [Check(ip, now)];
    assert all[..|all| - 1] == es;
    AlwaysInv(c, es);
    FreeCheck(c, After(c, Start(), es), ip, now);
    k := WindowCounts(c, all, ip);
  }

  /** Whenever a check of an address is allowed that is or becomes tracked, the checks counted in its window, this one
      included, are at most ten or fit under the limit for the time the window has lasted (at least a millisecond). */
  lemma RateBound(c: Config, es: seq<Event>, ip: Address, now: nat) returns (k: nat)
    requires c.maxRps > 0 && Run(c, Start(), es + [Check(ip, now)])
    requires Tracked(After(c, Start(), es), ip) || |After(c, Start(), es).profiles| < c.maxProfiles
    requires Allowed(c, After(c, Start(), es), Check(ip, now))
    ensures var all := es + [Check(ip, now)];
            && WindowBegan(c, all, k, ip) && (all[k].Check? || all[k].Sqli?)
            && var n := ChecksSince(c, all, k, ip);
               n <= 10 || n * 1_000_000_000 <= c.maxRps * Max(now - all[k].now, 1_000_000)
  {
    assert (es + [Check(ip, now)])[..|es|] == es;
    if Barred(After(c, Start(), es), ip, now) { BlockLasts(c, es, ip, now); }
    k := CheckDecides(c, es, ip, now);
  }

  /** An address that is not tracked and for which there is no room is let through and stays untracked. */
  lemma NoRoom(c: Config, s: State, ip: Address, now: nat)
    requires !Tracked(s, ip) && |s.profiles| >= c.maxProfiles
    ensures Allowed(c, s, Check(ip, now)) && Apply(c, s, Check(ip, now)).profiles == s.profiles
    ensures Apply(c, s, Sqli(ip, now)).profiles == s.profiles
  {
  }

  // ------------------------------------------------------------------ attempts

  lemma AttemptBlocks(c: Config, s: State, ip: Address, now: nat)
    requires Tracked(s, ip) || |s.profiles| < c.maxProfiles
    ensures var s' := Apply(c, s, Sqli(ip, now));
            && Tracked(s', ip)
            && var p := s'.profiles[ip];
               if p.sqli >= c.sqliThreshold
               then p.blocked && p.until == Min(now + 600 * 1_000_000_000, 0xFFFF_FFFF_FFFF_FFFF)
               else if Tracked(s, ip) then p.blocked == s.profiles[ip].blocked && p.until == s.profiles[ip].until
               else !p.blocked && p.until == 0
  {
  }

  /** What a recorded attempt does, in any run: once the attempts since they were last forgotten, this one included,
      reach the threshold, the address is blocked for ten minutes from now; before that its block is as it was. */
  lemma AttemptDecides(c: Config, es: seq<Event>, ip: Address, now: nat) returns (k: nat)
    requires Run(c, Start(), es + [Sqli(ip, now)])
    requires Tracked(After(c, Start(), es), ip) || |After(c, Start(), es).profiles| < c.maxProfiles
    ensures var all := es + [Sqli(ip, now)];
            var s, s' := After(c, Start(), es), After(c, Start(), all);
            && LastForgot(c, all, k, ip) && Tracked(s', ip)
            && var p := s'.profiles[ip];
               if AttemptsSince(all, k, ip) >= c.sqliThreshold
               then p.blocked && p.until == Min(now + 600 * 1_000_000_000, 0xFFFF_FFFF_FFFF_FFFF)
               else if Tracked(s, ip) then p.blocked == s.profiles[ip].blocked && p.until == s.profiles[ip].until
               else !p.blocked && p.until == 0
  {
    var all := es + [Sqli(ip, now)];
    assert all[..|all| - 1] == es;
    AttemptBlocks(c, After(c, Start(), es), ip, now);
    k := AttemptCounts(c, all, ip);
  }

  // ------------------------------------------------------------------ how a block ends

  /** An unblocked address has no block in force at any time, and no attempt is held against it. */
  lemma UnblockFrees(c: Config, s: State, ip: Address, now: nat)
    ensures !Barred(Apply(c, s, Unblock(ip)), ip, now)
    ensures Tracked(s, ip) ==> Tracked(Apply(c, s, Unblock(ip)), ip) && Apply(c, s, Unblock(ip)).profiles[ip].sqli == 0
  {
  }

  /** The first check after an unblock is decided by the window alone. */
  lemma UnblockedCheck(c: Config, es: seq<Event>, ip: Address, now: nat) returns (k: nat)
    requires Run(c, Start(), es + [Unblock(ip)] + [Check(ip, now)]) && Tracked(After(c, Start(), es), ip)
    ensures var all := es + [Unblock(ip)] + [Check(ip, now)];
            && WindowBegan(c, all, k, ip) && (all[k].Check? || all[k].Sqli?)
            && var n, errors := ChecksSince(c, all, k, ip), ErrorsSince(all, k, ip);
               Allowed(c, After(c, Start(), es + [Unblock(ip)]), Check(ip, now)) <==>
               !Flood(c, n, all[k].now, now) && !Scan(c, n, errors)
  {
    var freed := es + [Unblock(ip)];
    assert freed[..|freed| - 1] == es;
    UnblockFrees(c, After(c, Start(), es), ip, now);
    k := CheckDecides(c, freed, ip, now);
  }

  /** A check of a tracked address is refused for a block exactly while the block lasts: before the deadline always, and
      from the deadline on only as the window says. */
  lemma BlockLasts(c: Config, es: seq<Event>, ip: Address, now: nat)
    requires Run(c, Start(), es + [Check(ip, now)]) && Tracked(After(c, Start(), es), ip)
    requires After(c, Start(), es).profiles[ip].blocked
    ensures Barred(After(c, Start(), es), ip, now) <==> now < After(c, Start(), es).profiles[ip].until
    ensures Barred(After(c, Start(), es), ip, now) ==> !Allowed(c, After(c, Start(), es), Check(ip, now))
  {
    var all := es + [Check(ip, now)];
    assert all[..|all| - 1] == es;
    AlwaysInv(c, es);
    BlockStep(c, After(c, Start(), es), Check(ip, now), ip, After(c, Start(), es).profiles[ip].until);
  }
}
