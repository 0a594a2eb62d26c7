/** Requests against a limiter: when they were admitted in a run shared by all clients, and when for a client
    alone. */
module RequestRuns {
  import opened Wrappers
  import opened KeyedTable

  datatype Request = Request

  type Calls = seq<Timed<Request>>

  /** A configured limit below one still lets the first request of a quiet client through. */
  function Effective(limit: int): nat {
    if limit < 1 then 1 else limit
  }

  ghost predicate InOrder(calls: Calls, now: int) {
    (forall i, j :: 0 <= i < j < |calls| ==> calls[i].now <= calls[j].now) &&
    (forall i :: 0 <= i < |calls| ==> calls[i].now <= now)
  }

  lemma {:induction false} CallsInOrder(events: seq<Event<Request>>, k: string, now: int)
    requires Ordered(events) && Before(events, now)
    ensures InOrder(CallsOf(events, k), now)
  {
    if events != [] {
      var e := events[|events| - 1];
      CallsInOrder(events[..|events| - 1], k, e.now);
    }
  }

  /** The answer of a limiter that only says yes or no. */
  predicate Passes(ok: bool) {
    ok
  }

  /** When a client's requests were admitted in a run shared with everybody else and with cleanups. */
  function AdmittedIn<R, A>(
      d: Discipline<Request, R, A>, admits: A -> bool, events: seq<Event<Request>>, k: string): seq<int> {
    if events == [] then []
    else
      var init, e := events[..|events| - 1], events[|events| - 1];
      var before := AdmittedIn(d, admits, init, k);
      if e.Call? && e.key == k && admits(d.step(Get(Run(d, init), k), e.op, e.now).1) then before + [e.now] else before
  }

  /** When they would have been admitted for the client alone. */
  function AdmittedAlone<R, A>(d: Discipline<Request, R, A>, admits: A -> bool, calls: Calls): seq<int> {
    if calls == [] then []
    else
      var init, call := calls[..|calls| - 1], calls[|calls| - 1];
      var before := AdmittedAlone(d, admits, init);
      if admits(d.step(Solo(d, init), call.op, call.now).1) then before + [call.now] else before
  }

  lemma AloneSnoc<R, A>(d: Discipline<Request, R, A>, admits: A -> bool, calls: Calls, now: int)
    ensures AdmittedAlone(d, admits, calls + [Timed(Request, now)]) ==
            if admits(d.step(Solo(d, calls), Request, now).1) then AdmittedAlone(d, admits, calls) + [now]
            else AdmittedAlone(d, admits, calls)
  {
    assert (calls + [Timed(Request, now)])[..|calls|] == calls;
  }

  lemma SameAnswer<R(!new), A(!new)>(d: Discipline<Request, R, A>, events: seq<Event<Request>>, k: string, now: int)
    requires Lawful(d) && Ordered(events) && Before(events, now)
    ensures d.step(Get(Run(d, events), k), Request, now).1 == d.step(Solo(d, CallsOf(events, k)), Request, now).1
  {
    TableTracksSolo(d, events, k, now);
    CoversStep(d, Solo(d, CallsOf(events, k)), Get(Run(d, events), k), Request, now);
  }

  lemma SharedSnoc<R, A>(
      d: Discipline<Request, R, A>, admits: A -> bool, init: seq<Event<Request>>, k: string, now: int)
    ensures AdmittedIn(d, admits, init + [Call(k, Request, now)], k) ==
            if admits(d.step(Get(Run(d, init), k), Request, now).1) then AdmittedIn(d, admits, init, k) + [now]
            else AdmittedIn(d, admits, init, k)
  {
    assert (init + [Call(k, Request, now)])[..|init|] == init;
  }

  lemma OwnRequest<R(!new), A(!new)>(
      d: Discipline<Request, R, A>, admits: A -> bool, init: seq<Event<Request>>, k: string, now: int)
    requires Lawful(d) && Ordered(init) && Before(init, now)
    requires AdmittedIn(d, admits, init, k) == AdmittedAlone(d, admits, CallsOf(init, k))
    ensures var events := init + [Call(k, Request, now)];
            AdmittedIn(d, admits, events, k) == AdmittedAlone(d, admits, CallsOf(events, k))
  {
    SharedSnoc(d, admits, init, k, now);
    SameAnswer(d, init, k, now);
    CallsSnoc(d, init, Call(k, Request, now), k);
    AloneSnoc(d, admits, CallsOf(init, k), now);
  }

  lemma OtherEvent<R(!new), A(!new)>(
      d: Discipline<Request, R, A>, admits: A -> bool, init: seq<Event<Request>>, e: Event<Request>, k: string)
    requires e.Call? ==> e.key != k
    ensures AdmittedIn(d, admits, init + [e], k) == AdmittedIn(d, admits, init, k)
    ensures CallsOf(init + [e], k) == CallsOf(init, k)
  {
    assert (init + [e])[..|init|] == init;
    CallsSnoc(d, init, e, k);
  }

  lemma OnlyRequest(op: Request)
    ensures op == Request
  {
    match op
    case Request =>
  }

  /** Neither the other clients nor the cleanups change when a client is admitted. */
  lemma {:induction false} SharedIsAlone<R(!new), A(!new)>(
      d: Discipline<Request, R, A>, admits: A -> bool, events: seq<Event<Request>>, k: string)
    requires Lawful(d) && Ordered(events)
    ensures AdmittedIn(d, admits, events, k) == AdmittedAlone(d, admits, CallsOf(events, k))
  {
    if events != [] {
      var init, e := events[..|events| - 1], events[|events| - 1];
      SharedIsAlone(d, admits, init, k);
      assert init + [e] == events;
      if e.Call? && e.key == k {
        OnlyRequest(e.op);
        OwnRequest(d, admits, init, k, e.now);
      } else {
        OtherEvent(d, admits, init, e, k);
      }
    }
  }

  /** The time of the last event, which none of the others exceeds. */
  lemma LastIsLatest(events: seq<Event<Request>>) returns (now: int)
    requires Ordered(events)
    ensures Before(events, now)
  {
    now := if events == [] then 0 else events[|events| - 1].now;
  }
}
