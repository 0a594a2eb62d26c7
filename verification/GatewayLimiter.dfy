/** The gateway's two rate limiters. Both keep a count and the time of the last admitted request per
    client, so a client's chain of admissions ends only after a whole quiet window. */
module GatewayLimiter {
  import opened Wrappers
  import opened KeyedTable
  import opened Windows
  import opened Clock
  import opened RequestRuns

  datatype IpRecord = IpRecord(count: nat, lastSeen: int)

  /** What endpointBucket.allow returns; RateLimiter.Allow returns the first field only. */
  datatype Decision = Decision(allowed: bool, retryAfter: int)

  function Expired(r: IpRecord, window: int, now: int): bool {
    now - r.lastSeen > window
  }

  function Next(limit: int, window: int, r: Option<IpRecord>, now: int): Option<IpRecord> {
    if r.None? || Expired(r.value, window, now) then Some(IpRecord(1, now))
    else if r.value.count >= limit then r
    else Some(IpRecord(r.value.count + 1, now))
  }

  function Allows(limit: int, window: int, r: Option<IpRecord>, now: int): bool {
    r.None? || Expired(r.value, window, now) || r.value.count < limit
  }

  function Decide(limit: int, window: nat, r: Option<IpRecord>, now: int): Decision {
    if Allows(limit, window, r, now) then Decision(true, WholeSeconds(window))
    else
      var remaining := window - (now - r.value.lastSeen);
      Decision(false, WholeSeconds(remaining) + 1)
  }

  function Endpoint(limit: int, window: nat): Discipline<Request, IpRecord, Decision> {
    Discipline(
      (r: Option<IpRecord>, _: Request, now: int) => (Next(limit, window, r, now), Decide(limit, window, r, now)),
      (r: IpRecord, now: int) => Expired(r, window, now),
      (r: IpRecord, now: int) => true)
  }

  function Global(limit: int, window: nat): Discipline<Request, IpRecord, bool> {
    Discipline(
      (r: Option<IpRecord>, _: Request, now: int) => (Next(limit, window, r, now), Allows(limit, window, r, now)),
      (r: IpRecord, now: int) => Expired(r, window, now),
      (r: IpRecord, now: int) => true)
  }

  lemma EndpointIsLawful(limit: int, window: nat)
    ensures Lawful(Endpoint(limit, window))
  {
    var d := Endpoint(limit, window);
    forall r, op, t | d.stale(r, t)
      ensures StepForgets(d, r, op, t)
    {
    }
  }

  lemma GlobalIsLawful(limit: int, window: nat)
    ensures Lawful(Global(limit, window))
  {
    var d := Global(limit, window);
    forall r, op, t | d.stale(r, t)
      ensures StepForgets(d, r, op, t)
    {
    }
  }

  /** What goes with an admission is the window in whole seconds. */
  lemma AdviceOnAdmission(limit: int, window: nat, r: Option<IpRecord>, now: int)
    requires Allows(limit, window, r, now)
    ensures var d := Decide(limit, window, r, now);
            d.allowed && d.retryAfter * 1_000_000_000 <= window < (d.retryAfter + 1) * 1_000_000_000
  {
  }

  /** A sweep drops exactly the records whose quiet window is over, in both limiters. */
  lemma SweptIff(limit: int, window: nat, t: map<string, IpRecord>, ip: string, now: int)
    requires ip in t
    ensures var swept := Apply(Global(limit, window), t, Cleanup(now));
            && (ip !in swept <==> t[ip].lastSeen + window < now) && (ip in swept ==> swept[ip] == t[ip])
            && Apply(Endpoint(limit, window), t, Cleanup(now)) == swept
  {
  }

  // ---------- one client's history ----------

  function Record(limit: int, window: nat, calls: Calls): Option<IpRecord> {
    Solo(Global(limit, window), calls)
  }

  /** The times of the admitted calls. */
  function Admitted(limit: int, window: nat, calls: Calls): seq<int> {
    if calls == [] then []
    else
      var init, now := calls[..|calls| - 1], calls[|calls| - 1].now;
      if Allows(limit, window, Record(limit, window, init), now) then Admitted(limit, window, init) + [now]
      else Admitted(limit, window, init)
  }

  predicate Follows(a: seq<int>, j: nat, window: int)
    requires j + 1 < |a|
  {
    a[j + 1] - a[j] <= window
  }

  ghost predicate ClosedGaps(a: seq<int>, from: nat, window: int) {
    forall j: nat :: from <= j && j + 1 < |a| ==> Follows(a, j, window)
  }

  /** The record holds the length and the end of the last chain of admissions. */
  ghost predicate EndsChain(r: Option<IpRecord>, a: seq<int>, max: nat, window: int) {
    if r.None? then a == []
    else
      var n := r.value.count;
      && 1 <= n <= max && n <= |a| && a[|a| - 1] == r.value.lastSeen
      && ClosedGaps(a, |a| - n, window)
      && (n < |a| ==> !Follows(a, |a| - n - 1, window))
  }

  /** An independent account of the decision: refuse exactly when the last `max` admissions follow each
      other, and this request follows them, without a quiet window in between. */
  ghost predicate Blocked(a: seq<int>, max: nat, window: int, now: int) {
    0 < max <= |a| && now - a[|a| - 1] <= window && ClosedGaps(a, |a| - max, window)
  }

  lemma AllowsIffNotBlocked(limit: int, window: nat, r: Option<IpRecord>, a: seq<int>, now: int)
    requires EndsChain(r, a, Effective(limit), window)
    ensures Allows(limit, window, r, now) <==> !Blocked(a, Effective(limit), window, now)
  {
  }

  lemma ChainGrows(limit: int, window: nat, r: Option<IpRecord>, a: seq<int>, now: int)
    requires EndsChain(r, a, Effective(limit), window) && Allows(limit, window, r, now)
    ensures EndsChain(Next(limit, window, r, now), a + [now], Effective(limit), window)
  {
    var b := a + [now];
    var n := Next(limit, window, r, now).value.count;
    forall j: nat | |b| - n - 1 <= j && j + 1 < |b|
      ensures j + 1 < |a| ==> Follows(b, j, window) == Follows(a, j, window)
    {
    }
  }

  lemma SpreadGrows(limit: int, window: nat, r: Option<IpRecord>, a: seq<int>, now: int)
    requires EndsChain(r, a, Effective(limit), window) && Allows(limit, window, r, now)
    requires Sorted(a) && Spread(a, Effective(limit), window) && (a != [] ==> a[|a| - 1] <= now)
    ensures Spread(a + [now], Effective(limit), window)
  {
    var max, b := Effective(limit), a + [now];
    forall i: nat | i + max < |b|
      ensures b[i] + window < b[i + max]
    {
      if i + max < |a| {
        assert a[i] + window < a[i + max];
      } else if Expired(r.value, window, now) {
        assert a[i] <= a[|a| - 1];
      } else {
        var j := |a| - r.value.count - 1;
        assert a[i] <= a[j] && !Follows(a, j, window) && a[j + 1] <= a[|a| - 1];
      }
    }
  }

  lemma RecordNext(limit: int, window: nat, calls: Calls)
    requires calls != []
    ensures var n := |calls| - 1;
            Record(limit, window, calls) == Next(limit, window, Record(limit, window, calls[..n]), calls[n].now)
  {
  }

  ghost predicate SoundHistory(limit: int, window: nat, r: Option<IpRecord>, a: seq<int>, now: int) {
    && EndsChain(r, a, Effective(limit), window)
    && Sorted(a) && Spread(a, Effective(limit), window)
    && (a != [] ==> a[|a| - 1] <= now)
  }

  lemma {:induction false} History(limit: int, window: nat, calls: Calls, now: int)
    requires InOrder(calls, now)
    ensures SoundHistory(limit, window, Record(limit, window, calls), Admitted(limit, window, calls), now)
  {
    if calls != [] {
      var init, t := calls[..|calls| - 1], calls[|calls| - 1].now;
      History(limit, window, init, t);
      RecordNext(limit, window, calls);
      HistoryGrows(limit, window, Record(limit, window, init), Admitted(limit, window, init), t, now);
    }
  }

  lemma HistoryGrows(limit: int, window: nat, r: Option<IpRecord>, a: seq<int>, t: int, now: int)
    requires SoundHistory(limit, window, r, a, t) && t <= now
    ensures SoundHistory(limit, window, Next(limit, window, r, t),
              if Allows(limit, window, r, t) then a + [t] else a, now)
  {
    if Allows(limit, window, r, t) {
      ChainGrows(limit, window, r, a, t);
      SpreadGrows(limit, window, r, a, t);
    }
  }

  /** Limiter bound: no closed interval of one window's length sees more than the effective limit of
      admissions of a client, anywhere in the run. */
  lemma AtMostLimitPerWindow(limit: int, window: nat, calls: Calls, lo: int, now: int)
    requires InOrder(calls, now)
    ensures CountIn(Admitted(limit, window, calls), lo, lo + window) <= Effective(limit)
  {
    History(limit, window, calls, now);
    SpreadBoundsCount(Admitted(limit, window, calls), Effective(limit), window, lo);
  }

  /** And it refuses no more than it has to. */
  lemma RefusedIffBlocked(limit: int, window: nat, calls: Calls, now: int)
    requires InOrder(calls, now)
    ensures Allows(limit, window, Record(limit, window, calls), now)
       <==> !Blocked(Admitted(limit, window, calls), Effective(limit), window, now)
  {
    History(limit, window, calls, now);
    AllowsIffNotBlocked(limit, window, Record(limit, window, calls), Admitted(limit, window, calls), now);
  }

  // ---------- Retry-After ----------

  lemma {:induction false} EndpointRecord(limit: int, window: nat, calls: Calls)
    ensures Solo(Endpoint(limit, window), calls) == Record(limit, window, calls)
  {
    if calls != [] {
      EndpointRecord(limit, window, calls[..|calls| - 1]);
    }
  }

  lemma WaitIsEnough(remaining: nat)
    ensures remaining < (WholeSeconds(remaining) + 1) * SECOND <= remaining + SECOND
  {
  }

  /** The decision on a further call is the last answer of the longer run. */
  lemma NextAnswer(limit: int, window: nat, calls: Calls, now: int)
    ensures var more := calls + [Timed(Request, now)];
            && SoloAnswers(Endpoint(limit, window), more)[|calls|]
              == Decide(limit, window, Record(limit, window, calls), now)
            && Record(limit, window, more) == Next(limit, window, Record(limit, window, calls), now)
  {
    var more := calls + [Timed(Request, now)];
    assert more[..|calls|] == calls;
    EndpointRecord(limit, window, calls);
    RecordNext(limit, window, more);
  }

  /** A refused client that waits as told is admitted next, and the advice overshoots the end of the quiet
      window by at most one second. */
  lemma RetryAfterSuffices(limit: int, window: nat, calls: Calls, now: int)
    requires var more := calls + [Timed(Request, now)];
             !SoloAnswers(Endpoint(limit, window), more)[|calls|].allowed
    ensures var more := calls + [Timed(Request, now)];
            var later := now + SoloAnswers(Endpoint(limit, window), more)[|calls|].retryAfter * SECOND;
            && SoloAnswers(Endpoint(limit, window), more + [Timed(Request, later)])[|more|].allowed
            && Record(limit, window, calls).Some?
            && var quiet := Record(limit, window, calls).value.lastSeen + window; quiet < later <= quiet + SECOND
  {
    var r := Record(limit, window, calls);
    NextAnswer(limit, window, calls, now);
    var more := calls + [Timed(Request, now)];
    WaitIsEnough(window - (now - r.value.lastSeen));
    NextAnswer(limit, window, more, now + Decide(limit, window, r, now).retryAfter * SECOND);
  }

  // ---------- the shared table ----------

  predicate Permits(d: Decision) {
    d.allowed
  }

  lemma {:induction false} GlobalAlone(limit: int, window: nat, calls: Calls)
    ensures AdmittedAlone(Global(limit, window), Passes, calls) == Admitted(limit, window, calls)
  {
    if calls != [] {
      GlobalAlone(limit, window, calls[..|calls| - 1]);
    }
  }

  lemma {:induction false} EndpointAlone(limit: int, window: nat, calls: Calls)
    ensures AdmittedAlone(Endpoint(limit, window), Permits, calls) == Admitted(limit, window, calls)
  {
    if calls != [] {
      EndpointAlone(limit, window, calls[..|calls| - 1]);
      EndpointRecord(limit, window, calls[..|calls| - 1]);
    }
  }

  /** The bound over whole runs of the global limiter's table, with every client's requests and the cleanups
      mixed in. */
  lemma SharedRunBound(limit: int, window: nat, events: seq<Event<Request>>, k: string, lo: int)
    requires Ordered(events)
    ensures CountIn(AdmittedIn(Global(limit, window), Passes, events, k), lo, lo + window) <= Effective(limit)
  {
    var now := LastIsLatest(events);
    GlobalIsLawful(limit, window);
    SharedIsAlone(Global(limit, window), Passes, events, k);
    GlobalAlone(limit, window, CallsOf(events, k));
    CallsInOrder(events, k, now);
    AtMostLimitPerWindow(limit, window, CallsOf(events, k), lo, now);
  }

  /** The same over whole runs of an endpoint bucket's table. */
  lemma BucketRunBound(limit: int, window: nat, events: seq<Event<Request>>, k: string, lo: int)
    requires Ordered(events)
    ensures CountIn(AdmittedIn(Endpoint(limit, window), Permits, events, k), lo, lo + window) <= Effective(limit)
  {
    var now := LastIsLatest(events);
    EndpointIsLawful(limit, window);
    SharedIsAlone(Endpoint(limit, window), Permits, events, k);
    EndpointAlone(limit, window, CallsOf(events, k));
    CallsInOrder(events, k, now);
    AtMostLimitPerWindow(limit, window, CallsOf(events, k), lo, now);
  }

  // ---------- the objects ----------

  class RateLimiter {
    const limit: int
    const window: nat
    var records: map<string, IpRecord>

    constructor (limit: int, window: nat)
      ensures this.limit == limit && this.window == window && records == map[]
    {
      this.limit, this.window, records := limit, window, map[];
    }

    method Allow(ip: string, now: int) returns (ok: bool)
      modifies this
      ensures records == Apply(Global(limit, window), old(records), Call(ip, Request, now))
      ensures ok == Allows(limit, window, Get(old(records), ip), now)
    {
      if ip !in records || now - records[ip].lastSeen > window {
        records := records[ip := IpRecord(1, now)];
        return true;
      }
      if records[ip].count >= limit {
        assert records == records[ip := records[ip]];
        return false;
      }
      records := records[ip := IpRecord(records[ip].count + 1, now)];
      ok := true;
    }

    method CleanUp(now: int)
      modifies this
      ensures records == Apply(Global(limit, window), old(records), Cleanup(now))
    {
      records := SweepExpired(records, window, now);
    }
  }

  class EndpointBucket {
    const limit: int
    const window: nat
    var records: map<string, IpRecord>

    constructor (limit: int, window: nat)
      ensures this.limit == limit && this.window == window && records == map[]
    {
      this.limit, this.window, records := limit, window, map[];
    }

    method Allow(ip: string, now: int) returns (allowed: bool, retryAfter: int)
      modifies this
      ensures records == Apply(Endpoint(limit, window), old(records), Call(ip, Request, now))
      ensures Decision(allowed, retryAfter) == Decide(limit, window, Get(old(records), ip), now)
    {
      if ip !in records || now - records[ip].lastSeen > window {
        records := records[ip := IpRecord(1, now)];
        return true, WholeSeconds(window);
      }
      if records[ip].count >= limit {
        var remaining := window - (now - records[ip].lastSeen);
        assert records == records[ip := records[ip]];
        return false, WholeSeconds(remaining) + 1;
      }
      records := records[ip := IpRecord(records[ip].count + 1, now)];
      return true, WholeSeconds(window);
    }

    method CleanUp(now: int)
      modifies this
      ensures records == Apply(Endpoint(limit, window), old(records), Cleanup(now))
    {
      records := SweepExpired(records, window, now);
    }
  }

  /** Both cleanup loops: visit the keys in any order and delete the expired ones. */
  method SweepExpired(records: map<string, IpRecord>, window: nat, now: int) returns (kept: map<string, IpRecord>)
    ensures kept == map k | k in records && !Expired(records[k], window, now) :: records[k]
  {
    kept := records;
    var left := records.Keys;
    while left != {}
      invariant left <= records.Keys
      invariant kept == map k | k in records && (k in left || !Expired(records[k], window, now)) :: records[k]
      decreases left
    {
      var ip :| ip in left;
      left := left - {ip};
      if now - records[ip].lastSeen > window {
        kept := kept - {ip};
      }
    }
  }
}
