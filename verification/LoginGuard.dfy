/** The wizard's login lockout per client address. */
module LoginGuard {
  import opened Wrappers
  import opened KeyedTable

  datatype LoginRecord = LoginRecord(failures: nat, firstFail: int, lockedAt: Option<int>, lockoutDur: int)

  datatype Op = Fail | Check | Reset

  datatype Reply = Failed(locked: bool) | Checked(locked: bool, remaining: int) | Cleared

  datatype Config = Config(maxAttempts: int, window: nat, lockoutDuration: nat)

  function AfterFailure(cfg: Config, r: Option<LoginRecord>, now: int): LoginRecord {
    var base := if r.None? || now - r.value.firstFail > cfg.window then LoginRecord(0, now, None, 0) else r.value;
    var counted := base.(failures := base.failures + 1);
    if counted.failures >= cfg.maxAttempts then counted.(lockedAt := Some(now), lockoutDur := cfg.lockoutDuration)
    else counted
  }

  function Remaining(r: LoginRecord, now: int): int
    requires r.lockedAt.Some?
  {
    r.lockoutDur - (now - r.lockedAt.value)
  }

  function Step(cfg: Config, r: Option<LoginRecord>, op: Op, now: int): (Option<LoginRecord>, Reply) {
    match op
    case Fail =>
      var next := AfterFailure(cfg, r, now);
      (Some(next), Failed(next.failures >= cfg.maxAttempts))
    case Check =>
      if r.None? || r.value.lockedAt.None? then (r, Checked(false, 0))
      else if Remaining(r.value, now) <= 0 then (None, Checked(false, 0))
      else (r, Checked(true, Remaining(r.value, now)))
    case Reset => (None, Cleared)
  }

  function Stale(cfg: Config, r: LoginRecord, now: int): bool {
    if r.lockedAt.Some? then now - r.lockedAt.value > r.lockoutDur else now - r.firstFail > cfg.window
  }

  function Sound(cfg: Config, r: LoginRecord, now: int): bool {
    r.firstFail <= now &&
    (r.lockedAt.Some? ==> r.firstFail <= r.lockedAt.value <= now && r.lockoutDur == cfg.lockoutDuration)
  }

  function Guard(cfg: Config): Discipline<Op, LoginRecord, Reply> {
    Discipline(
      (r: Option<LoginRecord>, op: Op, now: int) => Step(cfg, r, op, now),
      (r: LoginRecord, now: int) => Stale(cfg, r, now),
      (r: LoginRecord, now: int) => Sound(cfg, r, now))
  }

  /** A sweep drops exactly the records of locks that are over and, of addresses that are not locked, those whose
      window since the first failure is over. */
  lemma SweptIff(cfg: Config, t: map<string, LoginRecord>, ip: string, now: int)
    requires ip in t
    ensures var r, swept := t[ip], Apply(Guard(cfg), t, Cleanup(now));
            && (r.lockedAt.Some? ==> (ip !in swept <==> r.lockedAt.value + r.lockoutDur < now))
            && (r.lockedAt.None? ==> (ip !in swept <==> r.firstFail + cfg.window < now))
            && (ip in swept ==> swept[ip] == r)
  {
  }

  class LoginGuard {
    const cfg: Config
    var attempts: map<string, LoginRecord>

    constructor (cfg: Config)
      ensures this.cfg == cfg && attempts == map[]
    {
      this.cfg, attempts := cfg, map[];
    }

    method RecordFailure(ip: string, now: int) returns (locked: bool)
      modifies this
      ensures attempts == Apply(Guard(cfg), old(attempts), Call(ip, Fail, now))
      ensures Failed(locked) == Step(cfg, Get(old(attempts), ip), Fail, now).1
    {
      var rec: LoginRecord;
      if ip !in attempts || now - attempts[ip].firstFail > cfg.window {
        rec := LoginRecord(0, now, None, 0);
      } else {
        rec := attempts[ip];
      }
      rec := rec.(failures := rec.failures + 1);
      locked := rec.failures >= cfg.maxAttempts;
      if locked {
        rec := rec.(lockedAt := Some(now), lockoutDur := cfg.lockoutDuration);
      }
      attempts := attempts[ip := rec];
    }

    method IsLockedOut(ip: string, now: int) returns (locked: bool, remaining: int)
      modifies this
      ensures attempts == Apply(Guard(cfg), old(attempts), Call(ip, Check, now))
      ensures Checked(locked, remaining) == Step(cfg, Get(old(attempts), ip), Check, now).1
    {
      if ip !in attempts || attempts[ip].lockedAt.None? {
        assert attempts == Put(attempts, ip, Get(attempts, ip));
        return false, 0;
      }
      remaining := attempts[ip].lockoutDur - (now - attempts[ip].lockedAt.value);
      if remaining <= 0 {
        attempts := attempts - {ip};
        return false, 0;
      }
      assert attempts == Put(attempts, ip, Get(attempts, ip));
      locked := true;
    }

    method ResetIP(ip: string, now: int)
      modifies this
      ensures attempts == Apply(Guard(cfg), old(attempts), Call(ip, Reset, now))
    {
      attempts := attempts - {ip};
    }

    method CleanUp(now: int)
      modifies this
      ensures attempts == Apply(Guard(cfg), old(attempts), Cleanup(now))
    {
      var kept, left := attempts, attempts.Keys;
      while left != {}
        invariant left <= attempts.Keys && attempts == old(attempts)
        invariant kept == map k | k in attempts && (k in left || !Stale(cfg, attempts[k], now)) :: attempts[k]
        decreases left
      {
        var ip :| ip in left;
        left := left - {ip};
        var rec := attempts[ip];
        if rec.lockedAt.Some? {
          if now - rec.lockedAt.value > rec.lockoutDur {
            kept := kept - {ip};
          }
        } else if now - rec.firstFail > cfg.window {
          kept := kept - {ip};
        }
      }
      attempts := kept;
    }
  }

  // ---------- what a lock takes ----------

  function FailsSince(calls: seq<Timed<Op>>, start: nat): nat
    requires start <= |calls|
    decreases |calls|
  {
    if start == |calls| then 0
    else
      var n := |calls| - 1;
      if calls[n].op.Fail? then FailsSince(calls[..n], start) + 1 else FailsSince(calls[..n], start)
  }

  /** Since `start` nothing was reset, and no failure came later than the window allows. */
  ghost predicate SameWindow(calls: seq<Timed<Op>>, start: nat, until: int) {
    forall i: nat :: start <= i < |calls| ==> !calls[i].op.Reset? && (calls[i].op.Fail? ==> calls[i].now <= until)
  }

  /** The failure at `start` found no record, or one whose window had passed. */
  predicate OpensWindow(cfg: Config, calls: seq<Timed<Op>>, start: nat)
    requires start < |calls|
  {
    var r := Solo(Guard(cfg), calls[..start]);
    calls[start].op.Fail? && (r.None? || calls[start].now - r.value.firstFail > cfg.window)
  }

  /** The record counts the failures of the window that the failure at `start` opened. */
  ghost predicate CountsFrom(cfg: Config, r: LoginRecord, calls: seq<Timed<Op>>, start: nat) {
    && start < |calls| && calls[start] == Timed(Fail, r.firstFail) && OpensWindow(cfg, calls, start)
    && r.failures == FailsSince(calls, start) && SameWindow(calls, start, r.firstFail + cfg.window)
  }

  lemma OneMoreCall(cfg: Config, r: LoginRecord, calls: seq<Timed<Op>>, start: nat, next: Timed<Op>)
    requires CountsFrom(cfg, r, calls, start) && !next.op.Reset?
    requires next.op.Fail? ==> next.now <= r.firstFail + cfg.window
    ensures FailsSince(calls + [next], start) == r.failures + if next.op.Fail? then 1 else 0
    ensures SameWindow(calls + [next], start, r.firstFail + cfg.window) && OpensWindow(cfg, calls + [next], start)
  {
    assert (calls + [next])[..|calls|] == calls && (calls + [next])[..start] == calls[..start];
  }

  lemma FirstFailure(calls: seq<Timed<Op>>, now: int)
    ensures FailsSince(calls + [Timed(Fail, now)], |calls|) == 1
  {
    assert (calls + [Timed(Fail, now)])[..|calls|] == calls;
  }

  lemma StepCounts(
      cfg: Config, r: Option<LoginRecord>, calls: seq<Timed<Op>>, start: nat, next: Timed<Op>) returns (start': nat)
    requires r == Solo(Guard(cfg), calls) && (r.Some? ==> CountsFrom(cfg, r.value, calls, start))
    ensures var r' := Step(cfg, r, next.op, next.now).0; r'.Some? ==> CountsFrom(cfg, r'.value, calls + [next], start')
  {
    start' := start;
    if next.op.Fail? && (r.None? || next.now - r.value.firstFail > cfg.window) {
      start' := |calls|;
      FirstFailure(calls, next.now);
      assert (calls + [next])[..|calls|] == calls;
    } else if r.Some? && !next.op.Reset? {
      OneMoreCall(cfg, r.value, calls, start, next);
    }
  }

  lemma {:induction false} RecordMeaning(cfg: Config, calls: seq<Timed<Op>>) returns (start: nat)
    ensures var r := Solo(Guard(cfg), calls); r.Some? ==> CountsFrom(cfg, r.value, calls, start)
  {
    start := 0;
    if calls != [] {
      var n := |calls| - 1;
      var before := RecordMeaning(cfg, calls[..n]);
      SoloSnoc(Guard(cfg), calls[..n], calls[n].op, calls[n].now);
      assert calls[..n] + [calls[n]] == calls;
      start := StepCounts(cfg, Solo(Guard(cfg), calls[..n]), calls[..n], before, calls[n]);
    }
  }

  /** A failure locks the address if and only if it is at least the maxAttempts-th since the failure that opened
      its window; between the two nothing was reset and no failure came later than the window allows. */
  lemma LocksIff(cfg: Config, calls: seq<Timed<Op>>, t: int) returns (start: nat)
    ensures var failed := calls + [Timed(Fail, t)];
            && start < |failed| && OpensWindow(cfg, failed, start) && t <= failed[start].now + cfg.window
            && SameWindow(failed, start, failed[start].now + cfg.window)
            && (SoloAnswers(Guard(cfg), failed)[|calls|].locked <==> FailsSince(failed, start) >= cfg.maxAttempts)
  {
    start := RecordMeaning(cfg, calls + [Timed(Fail, t)]);
    SoloSnoc(Guard(cfg), calls, Fail, t);
  }

  // ---------- how long a lock lasts ----------

  /** Cleanups, other addresses, and checks of this one. */
  predicate LeavesAlone(e: Event<Op>, ip: string) {
    e.Cleanup? || e.key != ip || e.op.Check?
  }

  ghost predicate AllLeaveAlone(events: seq<Event<Op>>, ip: string) {
    forall i :: 0 <= i < |events| ==> LeavesAlone(events[i], ip)
  }

  /** The lock set at t is on record, or it is over and gone. */
  predicate LockKept(cfg: Config, r: Option<LoginRecord>, t: int, now: int) {
    if r.Some? then r.value.lockedAt == Some(t) && r.value.lockoutDur == cfg.lockoutDuration
    else t + cfg.lockoutDuration <= now
  }

  lemma LockSet(cfg: Config, r: Option<LoginRecord>, t: int)
    requires Step(cfg, r, Fail, t).1.locked
    ensures LockKept(cfg, Step(cfg, r, Fail, t).0, t, t)
  {
  }

  lemma LockStays(cfg: Config, table: map<string, LoginRecord>, e: Event<Op>, ip: string, t: int)
    requires LeavesAlone(e, ip) && LockKept(cfg, Get(table, ip), t, e.now)
    ensures LockKept(cfg, Get(Apply(Guard(cfg), table, e), ip), t, e.now)
  {
  }

  lemma {:induction false} LockOverRuns(
      cfg: Config, before: seq<Event<Op>>, ip: string, t: int, after: seq<Event<Op>>, now: int)
    requires Step(cfg, Get(Run(Guard(cfg), before), ip), Fail, t).1.locked && t <= now
    requires Ordered(after) && Before(after, now) && (after != [] ==> t <= after[0].now) && AllLeaveAlone(after, ip)
    ensures LockKept(cfg, Get(Run(Guard(cfg), before + [Call(ip, Fail, t)] + after), ip), t, now)
    decreases |after|
  {
    var start := before + [Call(ip, Fail, t)];
    if after == [] {
      assert start + after == start;
      RunSnoc(Guard(cfg), before, Call(ip, Fail, t));
      LockSet(cfg, Get(Run(Guard(cfg), before), ip), t);
    } else {
      var shorter, e := after[..|after| - 1], after[|after| - 1];
      assert start + after == start + shorter + [e];
      LockOverRuns(cfg, before, ip, t, shorter, e.now);
      RunSnoc(Guard(cfg), start + shorter, e);
      LockStays(cfg, Run(Guard(cfg), start + shorter), e, ip, t);
    }
  }

  /** A lock lasts exactly the configured time from the failure that set it: after any number of checks, cleanups
      and calls of other addresses, a check says locked if and only if that time is not over. */
  lemma LockLasts(cfg: Config, before: seq<Event<Op>>, ip: string, t: int, after: seq<Event<Op>>, now: int)
    requires Step(cfg, Get(Run(Guard(cfg), before), ip), Fail, t).1.locked && t <= now
    requires Ordered(after) && Before(after, now) && (after != [] ==> t <= after[0].now) && AllLeaveAlone(after, ip)
    ensures Step(cfg, Get(Run(Guard(cfg), before + [Call(ip, Fail, t)] + after), ip), Check, now).1
         == if now < t + cfg.lockoutDuration then Checked(true, t + cfg.lockoutDuration - now) else Checked(false, 0)
  {
    LockOverRuns(cfg, before, ip, t, after, now);
  }

  // ---------- when cleanup is unobservable ----------

  lemma GuardIsLawful(cfg: Config)
    requires cfg.lockoutDuration >= cfg.window
    ensures Lawful(Guard(cfg))
  {
    var d := Guard(cfg);
    forall r, op, t | Sane(d, r, t)
      ensures Sane(d, d.step(r, op, t).0, t)
    {
    }
    forall r, op, t | d.inv(r, t) && d.stale(r, t)
      ensures StepForgets(d, r, op, t)
    {
    }
  }

  ghost predicate CleanupUnobservable(cfg: Config) {
    forall events, k :: Ordered(events) ==> UnobservableIn(cfg, events, k)
  }

  predicate UnobservableIn(cfg: Config, events: seq<Event<Op>>, k: string) {
    AnswersTo(Guard(cfg), events, k) == SoloAnswers(Guard(cfg), CallsOf(events, k))
  }

  function Fails(k: string, n: nat): seq<Event<Op>> {
    if n == 0 then [] else Fails(k, n - 1) + [Call(k, Fail, 0)]
  }

  function FailedTimes(cfg: Config, n: nat): LoginRecord {
    LoginRecord(n, 0, if n >= cfg.maxAttempts then Some(0) else None,
      if n >= cfg.maxAttempts then cfg.lockoutDuration else 0)
  }

  lemma {:induction false} FailsAtZero(k: string, n: nat)
    ensures |Fails(k, n)| == n && forall i :: 0 <= i < n ==> Fails(k, n)[i].now == 0
  {
    if n > 0 {
      FailsAtZero(k, n - 1);
    }
  }

  lemma OneMoreFailure(cfg: Config, n: nat)
    requires 0 < n
    ensures Step(cfg, if n == 1 then None else Some(FailedTimes(cfg, n - 1)), Fail, 0).0 == Some(FailedTimes(cfg, n))
  {
  }

  function RecordAfter(cfg: Config, n: nat): Option<LoginRecord> {
    if n == 0 then None else Some(FailedTimes(cfg, n))
  }

  lemma {:induction false} TableAfterFails(cfg: Config, k: string, n: nat)
    ensures Get(Run(Guard(cfg), Fails(k, n)), k) == RecordAfter(cfg, n)
  {
    if n > 0 {
      TableAfterFails(cfg, k, n - 1);
      RunSnoc(Guard(cfg), Fails(k, n - 1), Call(k, Fail, 0));
      OneMoreFailure(cfg, n);
    }
  }

  lemma {:induction false} AloneAfterFails(cfg: Config, k: string, n: nat)
    ensures Solo(Guard(cfg), CallsOf(Fails(k, n), k)) == RecordAfter(cfg, n)
  {
    if n > 0 {
      var d, init := Guard(cfg), Fails(k, n - 1);
      AloneAfterFails(cfg, k, n - 1);
      CallsSnoc(d, init, Call(k, Fail, 0), k);
      SoloSnoc(d, CallsOf(init, k), Fail, 0);
      OneMoreFailure(cfg, n);
    }
  }

  lemma SweptAway(cfg: Config, k: string)
    requires 2 <= cfg.maxAttempts
    ensures var events := Fails(k, cfg.maxAttempts) + [Cleanup(cfg.lockoutDuration + 1)];
            && Get(Run(Guard(cfg), events), k) == None
            && Solo(Guard(cfg), CallsOf(events, k)) == Some(FailedTimes(cfg, cfg.maxAttempts))
  {
    TableAfterFails(cfg, k, cfg.maxAttempts);
    AloneAfterFails(cfg, k, cfg.maxAttempts);
    RunSnoc(Guard(cfg), Fails(k, cfg.maxAttempts), Cleanup(cfg.lockoutDuration + 1));
    CallsSnoc(Guard(cfg), Fails(k, cfg.maxAttempts), Cleanup(cfg.lockoutDuration + 1), k);
  }

  /** With a lockout shorter than the window, a cleanup between the end of a lock and the end of the window
      erases failures that the guard would still have counted. */
  lemma ShortLockoutShows(cfg: Config, k: string)
    requires cfg.lockoutDuration < cfg.window && 2 <= cfg.maxAttempts
    ensures var late := cfg.lockoutDuration + 1;
            !UnobservableIn(cfg, Fails(k, cfg.maxAttempts) + [Cleanup(late)] + [Call(k, Fail, late)], k)
  {
    var d, t := Guard(cfg), cfg.lockoutDuration + 1;
    var swept := Fails(k, cfg.maxAttempts) + [Cleanup(t)];
    SweptAway(cfg, k);
    CallsSnoc(d, swept, Call(k, Fail, t), k);
    SoloSnoc(d, CallsOf(swept, k), Fail, t);
    assert Step(cfg, None, Fail, t).1 == Failed(false);
    assert Step(cfg, Some(FailedTimes(cfg, cfg.maxAttempts)), Fail, t).1 == Failed(true);
    LastsDiffer(AnswersTo(d, swept, k), Failed(false), SoloAnswers(d, CallsOf(swept, k)), Failed(true));
  }

  lemma LastsDiffer(a: seq<Reply>, x: Reply, b: seq<Reply>, y: Reply)
    requires x != y
    ensures a + [x] != b + [y]
  {
    assert (a + [x])[|a|] == x && (b + [y])[|b|] == y;
  }

  /** For every guard that tolerates at least one failure: cleanups are invisible in all runs if and only if
      a lock lasts at least as long as the window in which failures are counted. */
  lemma CleanupUnobservableIff(cfg: Config)
    requires 2 <= cfg.maxAttempts
    ensures CleanupUnobservable(cfg) <==> cfg.lockoutDuration >= cfg.window
  {
    if cfg.lockoutDuration >= cfg.window {
      LongLockoutHides(cfg);
    } else {
      var t := cfg.lockoutDuration + 1;
      FailsAtZero("", cfg.maxAttempts);
      ShortLockoutShows(cfg, "");
      assert Ordered(Fails("", cfg.maxAttempts) + [Cleanup(t)] + [Call("", Fail, t)]);
    }
  }

  lemma LongLockoutHides(cfg: Config)
    requires cfg.lockoutDuration >= cfg.window
    ensures CleanupUnobservable(cfg)
  {
    GuardIsLawful(cfg);
    forall events, k | Ordered(events)
      ensures UnobservableIn(cfg, events, k)
    {
      AnswersAreSolo(Guard(cfg), events, k);
    }
  }
}
