/** The wizard's rate limiter counts every request of a fixed window, refused ones included. Two adjacent
    windows can meet inside one interval, so its bound differs from the gateway's. */
module WizardLimiter {
  import opened Wrappers
  import opened KeyedTable
  import opened Windows
  import opened RequestRuns

  datatype IpRecord = IpRecord(count: nat, windowAt: int)

  function Expired(r: IpRecord, window: int, now: int): bool {
    now - r.windowAt > window
  }

  function Next(window: int, r: Option<IpRecord>, now: int): Option<IpRecord> {
    if r.None? || Expired(r.value, window, now) then Some(IpRecord(1, now))
    else Some(r.value.(count := r.value.count + 1))
  }

  function Allows(limit: int, window: int, r: Option<IpRecord>, now: int): bool {
    r.None? || Expired(r.value, window, now) || r.value.count + 1 <= limit
  }

  function Fixed(limit: int, window: nat): Discipline<Request, IpRecord, bool> {
    Discipline(
      (r: Option<IpRecord>, _: Request, now: int) => (Next(window, r, now), Allows(limit, window, r, now)),
      (r: IpRecord, now: int) => Expired(r, window, now),
      (r: IpRecord, now: int) => true)
  }

  lemma FixedIsLawful(limit: int, window: nat)
    ensures Lawful(Fixed(limit, window))
  {
    var d := Fixed(limit, window);
    forall r, op, t | d.stale(r, t)
      ensures StepForgets(d, r, op, t)
    {
    }
  }

  /** A sweep drops exactly the records whose window is over. */
  lemma SweptIff(limit: int, window: nat, t: map<string, IpRecord>, ip: string, now: int)
    requires ip in t
    ensures var swept := Apply(Fixed(limit, window), t, Cleanup(now));
            (ip !in swept <==> t[ip].windowAt + window < now) && (ip in swept ==> swept[ip] == t[ip])
  {
  }

  class RateLimiter {
    const limit: int
    const window: nat
    var requests: map<string, IpRecord>

    constructor (limit: int, window: nat)
      ensures this.limit == limit && this.window == window && requests == map[]
    {
      this.limit, this.window, requests := limit, window, map[];
    }

    method Allow(ip: string, now: int) returns (ok: bool)
      modifies this
      ensures requests == Apply(Fixed(limit, window), old(requests), Call(ip, Request, now))
      ensures ok == Allows(limit, window, Get(old(requests), ip), now)
    {
      if ip !in requests || now - requests[ip].windowAt > window {
        requests := requests[ip := IpRecord(1, now)];
        return true;
      }
      var count := requests[ip].count + 1;
      requests := requests[ip := requests[ip].(count := count)];
      ok := count <= limit;
    }

    method CleanUp(now: int)
      modifies this
      ensures requests == Apply(Fixed(limit, window), old(requests), Cleanup(now))
    {
      var cutoff := now - window;
      var kept, left := requests, requests.Keys;
      while left != {}
        invariant left <= requests.Keys && requests == old(requests)
        invariant kept == map k | k in requests && (k in left || !Expired(requests[k], window, now)) :: requests[k]
        decreases left
      {
        var ip :| ip in left;
        left := left - {ip};
        if requests[ip].windowAt < cutoff {
          kept := kept - {ip};
        }
      }
      requests := kept;
    }
  }

  // ---------- one client's history ----------

  function Record(window: nat, calls: Calls): Option<IpRecord> {
    if calls == [] then None
    else Next(window, Record(window, calls[..|calls| - 1]), calls[|calls| - 1].now)
  }

  lemma {:induction false} RecordIsSolo(limit: int, window: nat, calls: Calls)
    ensures Solo(Fixed(limit, window), calls) == Record(window, calls)
  {
    if calls != [] {
      RecordIsSolo(limit, window, calls[..|calls| - 1]);
    }
  }

  function Admitted(limit: int, window: nat, calls: Calls): seq<int> {
    if calls == [] then []
    else
      var init, now := calls[..|calls| - 1], calls[|calls| - 1].now;
      if Allows(limit, window, Record(window, init), now) then Admitted(limit, window, init) + [now]
      else Admitted(limit, window, init)
  }

  ghost predicate AllWithin(calls: Calls, from: nat, until: int) {
    forall i: nat :: from <= i < |calls| ==> calls[i].now <= until
  }

  /** The record describes the window that the request number `start` opened. */
  ghost predicate WindowFrom(r: IpRecord, calls: Calls, start: nat, window: nat) {
    && start < |calls| && r.windowAt == calls[start].now && r.count == |calls| - start
    && AllWithin(calls, start, calls[start].now + window)
  }

  lemma {:induction false} RecordMeaning(window: nat, calls: Calls, now: int)
    requires InOrder(calls, now) && calls != []
    ensures var r := Record(window, calls);
            r.Some? && r.value.count <= |calls| && WindowFrom(r.value, calls, |calls| - r.value.count, window)
  {
    var n := |calls| - 1;
    if n > 0 {
      RecordMeaning(window, calls[..n], calls[n].now);
    }
  }

  /** A request is refused exactly when it falls into the window opened by an earlier request and at least
      the effective limit of requests came from that one on. */
  lemma RefusedIff(limit: int, window: nat, calls: Calls, now: int)
    requires InOrder(calls, now) && calls != []
    ensures var r := Record(window, calls);
            && r.Some? && r.value.count <= |calls|
            && var start := |calls| - r.value.count;
            && WindowFrom(r.value, calls, start, window)
            && (!Allows(limit, window, r, now)
              <==> now <= calls[start].now + window && |calls| - start >= Effective(limit))
  {
    RecordMeaning(window, calls, now);
  }

  // ---------- the bound ----------

  ghost predicate EarlierWindows(a: seq<int>, upTo: int, max: nat, before: int) {
    forall j: nat :: j + max <= upTo && j < |a| ==> a[j] < before
  }

  /** The current window's admissions are the last ones; all but `max` of those before it lie more than a
      window back. */
  ghost predicate SoundHistory(r: Option<IpRecord>, a: seq<int>, max: nat, window: nat, now: int) {
    && 0 < max && Sorted(a) && Spread(a, 2 * max - 1, window) && (a != [] ==> a[|a| - 1] <= now)
    && if r.None? then a == []
       else
         var m := if r.value.count < max then r.value.count else max;
         && 1 <= m <= |a| && a[|a| - m] == r.value.windowAt
         && EarlierWindows(a, |a| - m, max, r.value.windowAt - window)
  }

  lemma WindowFills(limit: int, window: nat, r: Option<IpRecord>, a: seq<int>, t: int)
    requires SoundHistory(r, a, Effective(limit), window, t)
    requires r.Some? && !Expired(r.value, window, t) && r.value.count < Effective(limit)
    ensures SoundHistory(Next(window, r, t), a + [t], Effective(limit), window, t)
  {
    var max, b := Effective(limit), a + [t];
    forall i: nat | i + (2 * max - 1) < |b|
      ensures b[i] + window < b[i + (2 * max - 1)]
    {
      if i + (2 * max - 1) == |a| {
        assert a[i] < r.value.windowAt - window;
      } else {
        assert a[i] + window < a[i + (2 * max - 1)];
      }
    }
    assert EarlierWindows(b, |a| - r.value.count, max, r.value.windowAt - window);
  }

  /** When a window has run out, all but `max` of the admissions lie more than a window back. */
  lemma WindowIsOver(r: Option<IpRecord>, a: seq<int>, max: nat, window: nat, t: int)
    requires SoundHistory(r, a, max, window, t) && (r.None? || Expired(r.value, window, t))
    ensures EarlierWindows(a, |a|, max, t - window)
  {
    if r.Some? {
      var m := if r.value.count < max then r.value.count else max;
      forall j: nat | j + max <= |a| && j < |a|
        ensures a[j] < t - window
      {
        assert a[j] <= a[|a| - m];
      }
    }
  }

  lemma SpreadGrows(a: seq<int>, max: nat, window: nat, t: int)
    requires 0 < max && Spread(a, 2 * max - 1, window) && EarlierWindows(a, |a|, max, t - window)
    ensures Spread(a + [t], 2 * max - 1, window) && EarlierWindows(a + [t], |a|, max, t - window)
  {
    var b := a + [t];
    forall i: nat | i + (2 * max - 1) < |b|
      ensures b[i] + window < b[i + (2 * max - 1)]
    {
      if i + (2 * max - 1) < |a| {
        assert a[i] + window < a[i + (2 * max - 1)];
      } else {
        assert a[i] < t - window;
      }
    }
  }

  lemma WindowOpens(limit: int, window: nat, r: Option<IpRecord>, a: seq<int>, t: int)
    requires SoundHistory(r, a, Effective(limit), window, t)
    requires r.None? || Expired(r.value, window, t)
    ensures SoundHistory(Next(window, r, t), a + [t], Effective(limit), window, t)
  {
    WindowIsOver(r, a, Effective(limit), window, t);
    SpreadGrows(a, Effective(limit), window, t);
  }

  lemma HistoryGrows(limit: int, window: nat, r: Option<IpRecord>, a: seq<int>, t: int, now: int)
    requires SoundHistory(r, a, Effective(limit), window, t) && t <= now
    ensures SoundHistory(Next(window, r, t), if Allows(limit, window, r, t) then a + [t] else a,
              Effective(limit), window, now)
  {
    if r.None? || Expired(r.value, window, t) {
      WindowOpens(limit, window, r, a, t);
    } else if r.value.count < Effective(limit) {
      WindowFills(limit, window, r, a, t);
    }
  }

  lemma {:induction false} History(limit: int, window: nat, calls: Calls, now: int)
    requires InOrder(calls, now)
    ensures SoundHistory(Record(window, calls), Admitted(limit, window, calls), Effective(limit), window, now)
  {
    if calls != [] {
      var init, t := calls[..|calls| - 1], calls[|calls| - 1].now;
      History(limit, window, init, t);
      HistoryGrows(limit, window, Record(window, init), Admitted(limit, window, init), t, now);
    }
  }

  /** No closed interval of one window's length sees 2 * limit admissions of a client. */
  lemma FewerThanTwiceLimit(limit: int, window: nat, calls: Calls, lo: int, now: int)
    requires InOrder(calls, now)
    ensures CountIn(Admitted(limit, window, calls), lo, lo + window) <= 2 * Effective(limit) - 1
  {
    History(limit, window, calls, now);
    SpreadBoundsCount(Admitted(limit, window, calls), 2 * Effective(limit) - 1, window, lo);
  }

  // ---------- the shared table ----------

  lemma {:induction false} FixedAlone(limit: int, window: nat, calls: Calls)
    ensures AdmittedAlone(Fixed(limit, window), Passes, calls) == Admitted(limit, window, calls)
  {
    if calls != [] {
      FixedAlone(limit, window, calls[..|calls| - 1]);
      RecordIsSolo(limit, window, calls[..|calls| - 1]);
    }
  }

  /** The bound over whole runs of the shared table, with every client's requests and the cleanups mixed in. */
  lemma SharedRunBound(limit: int, window: nat, events: seq<Event<Request>>, k: string, lo: int)
    requires Ordered(events)
    ensures CountIn(AdmittedIn(Fixed(limit, window), Passes, events, k), lo, lo + window) <= 2 * Effective(limit) - 1
  {
    var now := LastIsLatest(events);
    FixedIsLawful(limit, window);
    SharedIsAlone(Fixed(limit, window), Passes, events, k);
    FixedAlone(limit, window, CallsOf(events, k));
    CallsInOrder(events, k, now);
    FewerThanTwiceLimit(limit, window, CallsOf(events, k), lo, now);
  }

  // ---------- the bound is reached ----------

  function Burst(t: int, k: nat): Calls {
    if k == 0 then [] else Burst(t, k - 1) + [Timed(Request, t)]
  }

  /** After `calls` the record is `r`, and `tally` admissions fell between `lo` and `hi`. */
  predicate Reached(limit: int, window: nat, calls: Calls, r: Option<IpRecord>, tally: nat, lo: int, hi: int) {
    Record(window, calls) == r && CountIn(Admitted(limit, window, calls), lo, hi) == tally
  }

  lemma OneMoreAdmitted(
      limit: int, window: nat, calls: Calls, r: Option<IpRecord>, tally: nat, lo: int, hi: int, t: int)
    requires Reached(limit, window, calls, r, tally, lo, hi) && Allows(limit, window, r, t)
    ensures Reached(limit, window, calls + [Timed(Request, t)], Next(window, r, t),
              if lo <= t <= hi then tally + 1 else tally, lo, hi)
  {
    var more := calls + [Timed(Request, t)];
    assert more[..|calls|] == calls;
    var a := Admitted(limit, window, calls);
    assert (a + [t])[..|a|] == a;
  }

  lemma {:induction false} BurstIsAdmitted(
      limit: int, window: nat, calls: Calls, r: IpRecord, tally: nat, lo: int, hi: int, t: int, k: nat)
    requires Reached(limit, window, calls, Some(r), tally, lo, hi)
    requires !Expired(r, window, t) && r.count + k <= limit && lo <= t <= hi
    ensures Reached(limit, window, calls + Burst(t, k), Some(r.(count := r.count + k)), tally + k, lo, hi)
  {
    if k == 0 {
      assert calls + Burst(t, k) == calls;
    } else {
      BurstIsAdmitted(limit, window, calls, r, tally, lo, hi, t, k - 1);
      assert calls + Burst(t, k) == calls + Burst(t, k - 1) + [Timed(Request, t)];
      OneMoreAdmitted(limit, window, calls + Burst(t, k - 1), Some(r.(count := r.count + k - 1)), tally + k - 1, lo, hi,
        t);
    }
  }

  /** Idle until the window is about to close, then spend two windows' allowances in a row. */
  function Straddle(limit: nat, window: nat): Calls
    requires 1 <= limit
  {
    [Timed(Request, 0)] + Burst(window, limit - 1) + [Timed(Request, window + 1)] + Burst(window + 1, limit - 1)
  }

  lemma FirstWindowFills(limit: nat, w: nat)
    requires 1 <= limit && 1 <= w
    ensures Reached(limit, w, [Timed(Request, 0)] + Burst(w, limit - 1), Some(IpRecord(limit, 0)), limit - 1, w, w + w)
  {
    var first := [Timed(Request, 0)];
    OneMoreAdmitted(limit, w, [], None, 0, w, w + w, 0);
    assert [] + first == first;
    BurstIsAdmitted(limit, w, first, IpRecord(1, 0), 0, w, w + w, w, limit - 1);
  }

  lemma SecondWindowFills(limit: nat, w: nat, calls: Calls)
    requires 1 <= limit && 1 <= w && Reached(limit, w, calls, Some(IpRecord(limit, 0)), limit - 1, w, w + w)
    ensures Reached(limit, w, calls + [Timed(Request, w + 1)] + Burst(w + 1, limit - 1), Some(IpRecord(limit, w + 1)),
              2 * limit - 1, w, w + w)
  {
    OneMoreAdmitted(limit, w, calls, Some(IpRecord(limit, 0)), limit - 1, w, w + w, w + 1);
    BurstIsAdmitted(limit, w, calls + [Timed(Request, w + 1)], IpRecord(1, w + 1), limit, w, w + w, w + 1, limit - 1);
  }

  /** The bound cannot be improved: for every limit and window some run admits one less than twice the limit. */
  lemma BoundIsReached(limit: nat, window: nat)
    requires 1 <= limit && 1 <= window
    ensures CountIn(Admitted(limit, window, Straddle(limit, window)), window, window + window) == 2 * limit - 1
  {
    FirstWindowFills(limit, window);
    SecondWindowFills(limit, window, [Timed(Request, 0)] + Burst(window, limit - 1));
  }
}
