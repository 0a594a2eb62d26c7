/** Tables with one record per client and a background cleanup, the shape shared by the rate limiters and
    the login guard. A discipline says how an operation treats its client's record and which records the
    cleanup may drop. */
module KeyedTable {
  import opened Wrappers

  datatype Discipline<!Op, !R, !A> = Discipline(
    step: (Option<R>, Op, int) -> (Option<R>, A),
    stale: (R, int) -> bool,
    inv: (R, int) -> bool)

  datatype Event<Op> = Call(key: string, op: Op, now: int) | Cleanup(now: int)

  datatype Timed<Op> = Timed(op: Op, now: int)

  // ---------- the table ----------

  function Get<R>(t: map<string, R>, k: string): Option<R> {
    if k in t then Some(t[k]) else None
  }

  function Put<R>(t: map<string, R>, k: string, r: Option<R>): map<string, R> {
    if r.Some? then t[k := r.value] else t - {k}
  }

  function Sweep<Op, R, A>(d: Discipline<Op, R, A>, t: map<string, R>, now: int): map<string, R> {
    map k | k in t && !d.stale(t[k], now) :: t[k]
  }

  function Apply<Op, R, A>(d: Discipline<Op, R, A>, t: map<string, R>, e: Event<Op>): map<string, R> {
    match e
    case Call(k, op, now) => Put(t, k, d.step(Get(t, k), op, now).0)
    case Cleanup(now) => Sweep(d, t, now)
  }

  function Run<Op, R, A>(d: Discipline<Op, R, A>, events: seq<Event<Op>>): map<string, R> {
    if events == [] then map[]
    else Apply(d, Run(d, events[..|events| - 1]), events[|events| - 1])
  }

  /** The answers one client gets in a run shared with everybody else. */
  function AnswersTo<Op, R, A>(d: Discipline<Op, R, A>, events: seq<Event<Op>>, k: string): seq<A> {
    if events == [] then []
    else
      var init, e := events[..|events| - 1], events[|events| - 1];
      AnswersTo(d, init, k) +
      if e.Call? && e.key == k then [d.step(Get(Run(d, init), k), e.op, e.now).1] else []
  }

  // ---------- one client alone, without any cleanup ----------

  function CallsOf<Op>(events: seq<Event<Op>>, k: string): seq<Timed<Op>> {
    if events == [] then []
    else
      var e := events[|events| - 1];
      CallsOf(events[..|events| - 1], k) + if e.Call? && e.key == k then [Timed(e.op, e.now)] else []
  }

  function Solo<Op, R, A>(d: Discipline<Op, R, A>, calls: seq<Timed<Op>>): Option<R> {
    if calls == [] then None
    else
      var call := calls[|calls| - 1];
      d.step(Solo(d, calls[..|calls| - 1]), call.op, call.now).0
  }

  function SoloAnswers<Op, R, A>(d: Discipline<Op, R, A>, calls: seq<Timed<Op>>): (r: seq<A>)
    ensures |r| == |calls|
  {
    if calls == [] then []
    else
      var init, call := calls[..|calls| - 1], calls[|calls| - 1];
      SoloAnswers(d, init) + [d.step(Solo(d, init), call.op, call.now).1]
  }

  lemma RunSnoc<Op, R, A>(d: Discipline<Op, R, A>, events: seq<Event<Op>>, e: Event<Op>)
    ensures Run(d, events + [e]) == Apply(d, Run(d, events), e)
  {
    assert (events + [e])[..|events|] == events;
  }

  lemma CallsSnoc<Op, R, A>(d: Discipline<Op, R, A>, events: seq<Event<Op>>, e: Event<Op>, k: string)
    ensures CallsOf(events + [e], k)
         == if e.Call? && e.key == k then CallsOf(events, k) + [Timed(e.op, e.now)] else CallsOf(events, k)
    ensures e.Call? && e.key == k ==>
              AnswersTo(d, events + [e], k) == AnswersTo(d, events, k) + [d.step(Get(Run(d, events), k), e.op, e.now).1]
  {
    assert (events + [e])[..|events|] == events;
  }

  lemma SoloSnoc<Op, R, A>(d: Discipline<Op, R, A>, calls: seq<Timed<Op>>, op: Op, now: int)
    ensures var step := d.step(Solo(d, calls), op, now);
            && Solo(d, calls + [Timed(op, now)]) == step.0
            && SoloAnswers(d, calls + [Timed(op, now)]) == SoloAnswers(d, calls) + [step.1]
  {
    assert (calls + [Timed(op, now)])[..|calls|] == calls;
  }

  // ---------- what makes cleanup unobservable ----------

  /** `b` is `a`, or `a` is a stale record that was dropped. */
  ghost predicate Covers<Op, R, A>(d: Discipline<Op, R, A>, a: Option<R>, b: Option<R>, now: int) {
    a == b || (b.None? && a.Some? && d.stale(a.value, now))
  }

  ghost predicate Sane<Op, R, A>(d: Discipline<Op, R, A>, a: Option<R>, now: int) {
    a.Some? ==> d.inv(a.value, now)
  }

  /** The step treats a stale record like a missing one. */
  ghost predicate StepForgets<Op, R, A>(d: Discipline<Op, R, A>, r: R, op: Op, now: int) {
    var x, y := d.step(Some(r), op, now), d.step(None, op, now);
    x.1 == y.1 && Covers(d, x.0, y.0, now)
  }

  ghost predicate Lawful<Op(!new), R(!new), A(!new)>(d: Discipline<Op, R, A>) {
    && (forall r, t, t' :: d.stale(r, t) && t <= t' ==> d.stale(r, t'))
    && (forall r, t, t' :: d.inv(r, t) && t <= t' ==> d.inv(r, t'))
    && (forall r, op, t :: Sane(d, r, t) ==> Sane(d, d.step(r, op, t).0, t))
    && (forall r, op, t :: d.inv(r, t) && d.stale(r, t) ==> StepForgets(d, r, op, t))
  }

  ghost predicate Ordered<Op>(events: seq<Event<Op>>) {
    forall i, j :: 0 <= i < j < |events| ==> events[i].now <= events[j].now
  }

  ghost predicate Before<Op>(events: seq<Event<Op>>, now: int) {
    forall i :: 0 <= i < |events| ==> events[i].now <= now
  }

  lemma CoversStep<Op(!new), R(!new), A(!new)>(d: Discipline<Op, R, A>, a: Option<R>, b: Option<R>, op: Op, now: int)
    requires Lawful(d) && Covers(d, a, b, now) && Sane(d, a, now)
    ensures d.step(a, op, now).1 == d.step(b, op, now).1
    ensures Covers(d, d.step(a, op, now).0, d.step(b, op, now).0, now) && Sane(d, d.step(a, op, now).0, now)
  {
    if a != b {
      assert StepForgets(d, a.value, op, now);
    }
  }

  lemma CoversSweep<Op(!new), R(!new), A(!new)>(
      d: Discipline<Op, R, A>, a: Option<R>, t: map<string, R>, k: string, now: int)
    requires Covers(d, a, Get(t, k), now)
    ensures Covers(d, a, Get(Sweep(d, t, now), k), now)
  {
  }

  lemma CoversLater<Op(!new), R(!new), A(!new)>(
      d: Discipline<Op, R, A>, a: Option<R>, b: Option<R>, now: int, later: int)
    requires Lawful(d) && Covers(d, a, b, now) && Sane(d, a, now) && now <= later
    ensures Covers(d, a, b, later) && Sane(d, a, later)
  {
  }

  /** The table holds the client's record, up to dropped stale ones, and has answered as the client alone. */
  ghost predicate Tracks<Op, R, A>(d: Discipline<Op, R, A>, events: seq<Event<Op>>, k: string, now: int) {
    && Covers(d, Solo(d, CallsOf(events, k)), Get(Run(d, events), k), now)
    && Sane(d, Solo(d, CallsOf(events, k)), now)
    && AnswersTo(d, events, k) == SoloAnswers(d, CallsOf(events, k))
  }

  lemma TracksLater<Op(!new), R(!new), A(!new)>(
      d: Discipline<Op, R, A>, events: seq<Event<Op>>, k: string, now: int, later: int)
    requires Lawful(d) && Tracks(d, events, k, now) && now <= later
    ensures Tracks(d, events, k, later)
  {
    CoversLater(d, Solo(d, CallsOf(events, k)), Get(Run(d, events), k), now, later);
  }

  lemma OwnCallTracked<Op(!new), R(!new), A(!new)>(d: Discipline<Op, R, A>, init: seq<Event<Op>>, e: Event<Op>)
    requires Lawful(d) && e.Call? && Tracks(d, init, e.key, e.now)
    ensures Tracks(d, init + [e], e.key, e.now)
  {
    var calls, t := CallsOf(init, e.key), Run(d, init);
    RunSnoc(d, init, e);
    CallsSnoc(d, init, e, e.key);
    SoloSnoc(d, calls, e.op, e.now);
    CoversStep(d, Solo(d, calls), Get(t, e.key), e.op, e.now);
  }

  lemma OtherCallTracked<Op(!new), R(!new), A(!new)>(
      d: Discipline<Op, R, A>, init: seq<Event<Op>>, e: Event<Op>, k: string)
    requires e.Call? && e.key != k && Tracks(d, init, k, e.now)
    ensures Tracks(d, init + [e], k, e.now)
  {
    RunSnoc(d, init, e);
    CallsSnoc(d, init, e, k);
    assert (init + [e])[..|init|] == init;
  }

  lemma CleanupTracked<Op(!new), R(!new), A(!new)>(
      d: Discipline<Op, R, A>, init: seq<Event<Op>>, e: Event<Op>, k: string)
    requires e.Cleanup? && Tracks(d, init, k, e.now)
    ensures Tracks(d, init + [e], k, e.now)
  {
    RunSnoc(d, init, e);
    CallsSnoc(d, init, e, k);
    CoversSweep(d, Solo(d, CallsOf(init, k)), Run(d, init), k, e.now);
    assert (init + [e])[..|init|] == init;
  }

  lemma {:induction false} TableTracksSolo<Op(!new), R(!new), A(!new)>(
      d: Discipline<Op, R, A>, events: seq<Event<Op>>, k: string, now: int)
    requires Lawful(d) && Ordered(events) && Before(events, now)
    ensures Tracks(d, events, k, now)
  {
    if events != [] {
      var init, e := events[..|events| - 1], events[|events| - 1];
      TableTracksSolo(d, init, k, e.now);
      assert init + [e] == events;
      if e.Cleanup? {
        CleanupTracked(d, init, e, k);
      } else if e.key != k {
        OtherCallTracked(d, init, e, k);
      } else {
        OwnCallTracked(d, init, e);
      }
      TracksLater(d, events, k, e.now, now);
    }
  }

  /** A client's answers are those of the client alone with its own calls: neither cleanups, wherever they
      happen, nor the calls of other clients can be observed. */
  lemma AnswersAreSolo<Op(!new), R(!new), A(!new)>(d: Discipline<Op, R, A>, events: seq<Event<Op>>, k: string)
    requires Lawful(d) && Ordered(events)
    ensures AnswersTo(d, events, k) == SoloAnswers(d, CallsOf(events, k))
  {
    var now := if events == [] then 0 else events[|events| - 1].now;
    TableTracksSolo(d, events, k, now);
  }

  /** Two runs with the same calls of a client give it the same answers. */
  lemma CleanupIsInvisible<Op(!new), R(!new), A(!new)>(
      d: Discipline<Op, R, A>, run: seq<Event<Op>>, run': seq<Event<Op>>, k: string)
    requires Lawful(d) && Ordered(run) && Ordered(run') && CallsOf(run, k) == CallsOf(run', k)
    ensures AnswersTo(d, run, k) == AnswersTo(d, run', k)
  {
    AnswersAreSolo(d, run, k);
    AnswersAreSolo(d, run', k);
  }
}
