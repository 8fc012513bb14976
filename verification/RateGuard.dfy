/**
 The per-address request guard: a rate window, error-rate scanning and block deadlines, over whole
 runs of calls under a clock that never goes back.  Each call is one step.  Times are nanoseconds
 since the guard started, rates are exact.
 */
module RateGuard {
  import opened Util

  type Address = nat

  const SECOND: nat := 1_000_000_000
  const MILLISECOND: nat := 1_000_000
  const SCAN_BLOCK: nat := 300 * SECOND
  const SQLI_BLOCK: nat := 600 * SECOND
  const MAX_TIME: nat := 0xFFFF_FFFF_FFFF_FFFF

  datatype Config = Config(maxRps: nat, sqliThreshold: nat, scanRate: real, scanMin: nat, windowSeconds: nat,
                           maxProfiles: nat)

  datatype Profile = Profile(requests: nat, errors: nat, sqli: nat, windowStart: nat, blocked: bool, until: nat)

  function NewProfile(now: nat): Profile { Profile(0, 0, 0, now, false, 0) }

  function Add(a: nat, b: nat): nat { Min(a + b, MAX_TIME) }

  function Since(now: nat, start: nat): nat { if now < start then 0 else now - start }

  function WindowNs(c: Config): nat { Min(c.windowSeconds * SECOND, MAX_TIME) }

  predicate Rolls(c: Config, p: Profile, now: nat) {
    WindowNs(c) > 0 && Since(now, p.windowStart) > WindowNs(c)
  }

  // ------------------------------------------------------------------ one evaluation

  function Rollover(c: Config, p: Profile, now: nat): Profile {
    if !Rolls(c, p, now) then p
    else if p.until != 0 && p.until <= now then Profile(0, 0, 0, now, false, 0)
    else p.(requests := 0, errors := 0, windowStart := now)
  }

  predicate Held(p: Profile, now: nat) { p.blocked && p.until != 0 && now < p.until }

  function ClearExpired(p: Profile): Profile {
    if p.blocked then p.(blocked := false, until := 0) else p
  }

  function Elapsed(p: Profile, now: nat): nat { Max(Since(now, p.windowStart), MILLISECOND) }

  /** More than ten requests, arriving faster than the limit. */
  predicate TooFast(c: Config, p: Profile, now: nat) {
    c.maxRps > 0 && p.requests > 10 && p.requests * SECOND > c.maxRps * Elapsed(p, now)
  }

  predicate Scanning(c: Config, p: Profile) {
    p.requests > 0 && p.requests >= c.scanMin && p.errors as real / p.requests as real > c.scanRate
  }

  datatype Outcome = Outcome(profile: Profile, allowed: bool)

  function Evaluate(c: Config, p: Profile, now: nat): Outcome {
    var rolled := Rollover(c, p, now);
    if Held(rolled, now) then Outcome(rolled, false)
    else
      var cleared := ClearExpired(rolled);
      var counted := cleared.(requests := cleared.requests + 1);
      if TooFast(c, counted, now) then Outcome(counted, false)
      else if Scanning(c, counted) then Outcome(counted.(blocked := true, until := Add(now, SCAN_BLOCK)), false)
      else Outcome(counted, true)
  }

  // ------------------------------------------------------------------ the guard

  datatype State = State(profiles: map<Address, Profile>, refused: nat, clock: nat)

  datatype Event =
    | Check(ip: Address, now: nat)
    | Completed(ip: Address, wasError: bool)
    | Sqli(ip: Address, now: nat)
    | Unblock(ip: Address)

  function Start(): State { State(map[], 0, 0) }

  predicate Full(c: Config, s: State, ip: Address) { |s.profiles| >= c.maxProfiles && ip !in s.profiles }

  function Found(s: State, ip: Address, now: nat): Profile {
    if ip in s.profiles then s.profiles[ip] else NewProfile(now)
  }

  function CountAttempt(c: Config, p: Profile, now: nat): Profile {
    var p := p.(sqli := p.sqli + 1);
    if p.sqli >= c.sqliThreshold then p.(blocked := true, until := Add(now, SQLI_BLOCK)) else p
  }

  predicate Allowed(c: Config, s: State, e: Event) {
    e.Check? && (Full(c, s, e.ip) || Evaluate(c, Found(s, e.ip, e.now), e.now).allowed)
  }

  predicate Refused(c: Config, s: State, e: Event) { e.Check? && !Allowed(c, s, e) }

  function Apply(c: Config, s: State, e: Event): State {
    match e
    case Check(ip, now) =>
      if Full(c, s, ip) then s.(clock := now)
      else
        State(s.profiles[ip := Evaluate(c, Found(s, ip, now), now).profile],
              s.refused + (if Refused(c, s, e) then 1 else 0), now)
    case Completed(ip, wasError) =>
      if wasError && ip in s.profiles
      then s.(profiles := s.profiles[ip := s.profiles[ip].(errors := s.profiles[ip].errors + 1)])
      else s
    case Sqli(ip, now) =>
      if Full(c, s, ip) then s.(clock := now)
      else State(s.profiles[ip := CountAttempt(c, Found(s, ip, now), now)], s.refused, now)
    case Unblock(ip) =>
      if ip in s.profiles
      then s.(profiles := s.profiles[ip := s.profiles[ip].(blocked := false, until := 0, sqli := 0)])
      else s
  }

  /** The clock does not go back. */
  predicate Timely(s: State, e: Event) { (e.Check? || e.Sqli?) ==> s.clock <= e.now }

  ghost predicate Run(c: Config, s: State, es: seq<Event>)
    decreases |es|
  {
    es == [] || (Run(c, s, es[..|es| - 1]) && Timely(After(c, s, es[..|es| - 1]), es[|es| - 1]))
  }

  function After(c: Config, s: State, es: seq<Event>): State
    decreases |es|
  {
    if es == [] then s else Apply(c, After(c, s, es[..|es| - 1]), es[|es| - 1])
  }

  // ------------------------------------------------------------------ deadlines

  ghost predicate ProfileOk(p: Profile, clock: nat) {
    p.windowStart <= clock && p.until <= Add(clock, SQLI_BLOCK) && (p.blocked <==> p.until != 0)
  }

  ghost predicate Inv(s: State) {
    forall ip :: ip in s.profiles ==> ProfileOk(s.profiles[ip], s.clock)
  }

  lemma InvStep(c: Config, s: State, e: Event)
    requires Inv(s) && Timely(s, e)
    ensures Inv(Apply(c, s, e))
  {
  }

  lemma {:induction false} AlwaysInv(c: Config, es: seq<Event>)
    requires Run(c, Start(), es)
    ensures Inv(After(c, Start(), es))
    decreases |es|
  {
    if es != [] {
      AlwaysInv(c, es[..|es| - 1]);
      InvStep(c, After(c, Start(), es[..|es| - 1]), es[|es| - 1]);
    }
  }

  /** The address is under a block lasting at least until `d`. */
  ghost predicate BlockedUntil(s: State, ip: Address, d: nat) {
    ip in s.profiles && s.profiles[ip].blocked && s.profiles[ip].until >= d > 0
  }

  lemma BlockStep(c: Config, s: State, e: Event, ip: Address, d: nat)
    requires Inv(s) && Timely(s, e) && BlockedUntil(s, ip, d) && e != Unblock(ip)
    ensures BlockedUntil(Apply(c, s, e), ip, d) || Apply(c, s, e).clock >= d
    ensures e.Check? && e.ip == ip && e.now < d ==> Refused(c, s, e)
  {
  }

  lemma ClockStep(c: Config, s: State, e: Event)
    requires Timely(s, e)
    ensures s.clock <= Apply(c, s, e).clock
    ensures e.Check? || e.Sqli? ==> Apply(c, s, e).clock == e.now
  {
  }

  /** Once an address is blocked until `d`, and until somebody unblocks it, every later state before `d` still has
      it blocked until at least `d`, whatever windows roll over in between. */
  lemma {:induction false} DeadlineNeverEarlier(c: Config, s: State, es: seq<Event>, ip: Address, d: nat)
    requires Inv(s) && BlockedUntil(s, ip, d) && Run(c, s, es) && Unblock(ip) !in es
    ensures Inv(After(c, s, es))
    ensures BlockedUntil(After(c, s, es), ip, d) || After(c, s, es).clock >= d
    decreases |es|
  {
    if es != [] {
      var rest, e := es[..|es| - 1], es[|es| - 1];
      DeadlineNeverEarlier(c, s, rest, ip, d);
      var m := After(c, s, rest);
      InvStep(c, m, e);
      ClockStep(c, m, e);
      if BlockedUntil(m, ip, d) { BlockStep(c, m, e, ip, d); }
    }
  }

  /** Every check of a blocked address before its deadline is refused, however the run went on in between. */
  lemma RefusedUntilDeadline(c: Config, es: seq<Event>, more: seq<Event>, ip: Address, d: nat, now: nat)
    requires Run(c, Start(), es) && BlockedUntil(After(c, Start(), es), ip, d)
    requires Run(c, After(c, Start(), es), more) && Unblock(ip) !in more
    requires After(c, After(c, Start(), es), more).clock <= now < d
    ensures Refused(c, After(c, After(c, Start(), es), more), Check(ip, now))
  {
    AlwaysInv(c, es);
    var s := After(c, Start(), es);
    DeadlineNeverEarlier(c, s, more, ip, d);
    BlockStep(c, After(c, s, more), Check(ip, now), ip, d);
  }

  /** The address's counters in the window a check at `now` falls into, before the check counts itself. */
  function InForce(c: Config, s: State, ip: Address, now: nat): Profile {
    if ip in s.profiles && !Rolls(c, s.profiles[ip], now) then s.profiles[ip] else NewProfile(now)
  }

  /** A block begins exactly when an attempt brings the count to the threshold, or when a check that is not too fast
      finds, itself included, enough requests in the window and too many errors among them. */
  lemma BlockBegins(c: Config, s: State, e: Event, ip: Address)
    requires Inv(s) && Timely(s, e) && !(ip in s.profiles && s.profiles[ip].blocked)
    ensures var s' := Apply(c, s, e);
            (ip in s'.profiles && s'.profiles[ip].blocked)
            <==> (&& (e.Sqli? || e.Check?) && e.ip == ip && !Full(c, s, ip)
                  && if e.Sqli? then Found(s, ip, e.now).sqli + 1 >= c.sqliThreshold
                     else
                       var w := InForce(c, s, ip, e.now);
                       var n := w.requests + 1;
                       && n >= c.scanMin && w.errors as real / n as real > c.scanRate
                       && !(c.maxRps > 0 && n > 10 && n * SECOND > c.maxRps * Max(e.now - w.windowStart, MILLISECOND)))
  {
    if e.Check? && e.ip == ip {
      var w := InForce(c, s, ip, e.now);
      var counted := w.(requests := w.requests + 1);
      assert Elapsed(counted, e.now) == Max(e.now - w.windowStart, MILLISECOND);
      assert TooFast(c, counted, e.now) <==>
             c.maxRps > 0 && counted.requests > 10 && counted.requests * SECOND > c.maxRps * Elapsed(counted, e.now);
    }
  }

  // ------------------------------------------------------------------ the rate window

  /** The windows themselves are no longer than configured. */
  lemma WindowLength(c: Config, s: State, ip: Address, now: nat)
    requires Inv(s) && Timely(s, Check(ip, now)) && WindowNs(c) > 0 && !Full(c, s, ip)
    ensures now - Apply(c, s, Check(ip, now)).profiles[ip].windowStart <= WindowNs(c)
  {
  }

  // ------------------------------------------------------------------ well-behaved addresses

  /** The address never had an error or a recorded attempt. */
  ghost predicate Innocent(es: seq<Event>, ip: Address) {
    forall k :: 0 <= k < |es| ==> !(es[k].ip == ip && (es[k].Sqli? || (es[k].Completed? && es[k].wasError)))
  }

  lemma CleanStep(c: Config, s: State, e: Event, ip: Address)
    requires c.scanRate >= 0.0
    requires ip in s.profiles ==> !s.profiles[ip].blocked && s.profiles[ip].errors == 0
    requires !(e.ip == ip && (e.Sqli? || (e.Completed? && e.wasError)))
    ensures var s' := Apply(c, s, e);
            ip in s'.profiles ==> !s'.profiles[ip].blocked && s'.profiles[ip].errors == 0
  {
  }

  lemma {:induction false} StaysClean(c: Config, es: seq<Event>, ip: Address)
    requires c.scanRate >= 0.0 && Innocent(es, ip)
    ensures var s := After(c, Start(), es); ip in s.profiles ==> !s.profiles[ip].blocked && s.profiles[ip].errors == 0
    decreases |es|
  {
    if es != [] {
      StaysClean(c, es[..|es| - 1], ip);
      CleanStep(c, After(c, Start(), es[..|es| - 1]), es[|es| - 1], ip);
    }
  }

  lemma CleanEvaluate(c: Config, p: Profile, now: nat)
    requires c.scanRate >= 0.0 && !p.blocked && p.errors == 0
    ensures var q := Rollover(c, p, now);
            Evaluate(c, p, now).allowed <==> !TooFast(c, q.(requests := q.requests + 1), now)
  {
    var q := Rollover(c, p, now);
    var counted := q.(requests := q.requests + 1);
    assert 0 as real / counted.requests as real == 0.0;
    assert !Scanning(c, counted);
  }

  /** An address without errors or attempts is refused exactly when it goes too fast in its window; its first ten
      requests of a window never are. */
  lemma InnocentIff(c: Config, es: seq<Event>, ip: Address, now: nat)
    requires c.scanRate >= 0.0 && Innocent(es, ip)
    ensures var s := After(c, Start(), es);
            var p := Rollover(c, Found(s, ip, now), now);
            Allowed(c, s, Check(ip, now)) <==> Full(c, s, ip) || !TooFast(c, p.(requests := p.requests + 1), now)
  {
    StaysClean(c, es, ip);
    CleanEvaluate(c, Found(After(c, Start(), es), ip, now), now);
  }

  // ------------------------------------------------------------------ totals

  function Refusals(c: Config, es: seq<Event>): nat
    decreases |es|
  {
    if es == [] then 0
    else Refusals(c, es[..|es| - 1])
         + if Refused(c, After(c, Start(), es[..|es| - 1]), es[|es| - 1]) then 1 else 0
  }

  /** The counter of blocked requests is the number of refused checks, and the tracked addresses stay under the cap. */
  lemma {:induction false} TotalsAndCap(c: Config, es: seq<Event>)
    ensures After(c, Start(), es).refused == Refusals(c, es)
    ensures |After(c, Start(), es).profiles| <= c.maxProfiles
    decreases |es|
  {
    if es != [] {
      TotalsAndCap(c, es[..|es| - 1]);
      CapStep(c, After(c, Start(), es[..|es| - 1]), es[|es| - 1]);
    }
  }

  lemma CapStep(c: Config, s: State, e: Event)
    requires |s.profiles| <= c.maxProfiles
    ensures |Apply(c, s, e).profiles| <= c.maxProfiles
    ensures Apply(c, s, e).refused == s.refused + if Refused(c, s, e) then 1 else 0
  {
    var s' := Apply(c, s, e);
    if e.ip in s.profiles {
      assert s'.profiles.Keys == s.profiles.Keys;
    } else if s'.profiles != s.profiles {
      assert s'.profiles.Keys == s.profiles.Keys + {e.ip};
    }
  }

  // ------------------------------------------------------------------ the guard as an object

  class BehaviourGuard {
    const config: Config
    var profiles: map<Address, Profile>
    var totalBlocked: nat
    ghost var clock: nat

    ghost function View(): State
      reads this
    {
      State(profiles, totalBlocked, clock)
    }

    constructor (c: Config)
      ensures config == c && View() == Start()
    {
      config := c;
      profiles, totalBlocked, clock := map[], 0, 0;
    }

    /** The evaluation of one profile, step by step. */
    method EvaluateProfile(ip: Address, now: nat) returns (allowed: bool)
      requires ip in profiles
      modifies this`profiles, this`totalBlocked
      ensures var o := Evaluate(config, old(profiles)[ip], now);
              && allowed == o.allowed
              && profiles == old(profiles)[ip := o.profile]
              && totalBlocked == old(totalBlocked) + if allowed then 0 else 1
    {
      var p := profiles[ip];
      var windowNs := Min(config.windowSeconds * SECOND, MAX_TIME);
      if windowNs > 0 && Since(now, p.windowStart) > windowNs {
        p := p.(windowStart := now);
        p := p.(requests := 0, errors := 0);
        if p.until != 0 && p.until <= now {
          p := p.(blocked := false, until := 0, sqli := 0);
        }
      }
      if p.blocked {
        if p.until != 0 && now < p.until {
          profiles := profiles[ip := p];
          totalBlocked := totalBlocked + 1;
          return false;
        }
        p := p.(blocked := false, until := 0);
      }
      var count := p.requests + 1;
      p := p.(requests := count);
      if config.maxRps > 0 && count > 10 {
        var elapsed := Max(Since(now, p.windowStart), MILLISECOND);
        if count * SECOND > config.maxRps * elapsed {
          profiles := profiles[ip := p];
          totalBlocked := totalBlocked + 1;
          return false;
        }
      }
      if count >= config.scanMin && p.errors as real / count as real > config.scanRate {
        p := p.(blocked := true, until := Add(now, SCAN_BLOCK));
        profiles := profiles[ip := p];
        totalBlocked := totalBlocked + 1;
        return false;
      }
      profiles := profiles[ip := p];
      allowed := true;
    }

    method CheckRequest(ip: Address, now: nat) returns (allowed: bool)
      modifies this
      ensures View() == Apply(config, old(View()), Check(ip, now))
      ensures allowed <==> Allowed(config, old(View()), Check(ip, now))
    {
      clock := now;
      if |profiles| >= config.maxProfiles && ip !in profiles { return true; }
      if ip !in profiles { profiles := profiles[ip := NewProfile(now)]; }
      allowed := EvaluateProfile(ip, now);
    }

    method RecordRequest(ip: Address, wasError: bool)
      modifies this`profiles
      ensures View() == Apply(config, old(View()), Completed(ip, wasError))
    {
      if !wasError { return; }
      if ip in profiles {
        profiles := profiles[ip := profiles[ip].(errors := profiles[ip].errors + 1)];
      }
    }

    method RecordSqliAttempt(ip: Address, now: nat)
      modifies this`profiles, this`clock
      ensures View() == Apply(config, old(View()), Sqli(ip, now))
    {
      clock := now;
      if |profiles| >= config.maxProfiles && ip !in profiles { return; }
      if ip !in profiles { profiles := profiles[ip := NewProfile(now)]; }
      var p := profiles[ip];
      var attempts := p.sqli + 1;
      p := p.(sqli := attempts);
      if attempts >= config.sqliThreshold {
        p := p.(blocked := true, until := Add(now, SQLI_BLOCK));
      }
      profiles := profiles[ip := p];
    }

    method UnblockIp(ip: Address) returns (found: bool)
      modifies this`profiles
      ensures View() == Apply(config, old(View()), Unblock(ip))
      ensures found <==> ip in old(profiles)
    {
      found := ip in profiles;
      if found {
        var p := profiles[ip];
        p := p.(blocked := false);
        p := p.(until := 0);
        p := p.(sqli := 0);
        profiles := profiles[ip := p];
      }
    }
  }
}
