/** What reloads from Redis make the record of an address forget, exactly. */
module BanGap {
  import opened Wrappers
  import opened Clock
  import opened BruteForce
  import opened BanRuns
  import Redis

  predicate GapAt(cfg: Config, events: seq<Event>, ip: string, i: nat)
    requires 0 < cfg.threshold && i < |events|
  {
    var w := Run(cfg, events[..i]);
    Handles(cfg, w, events[i], ip) && events[i].outcome.Authenticated? && LiveSlot(w, ip, events[i].now)
  }

  /** Redis keeps a ban's record until up to a second after the reloaded ban has ended. A success of the
      address that falls into this gap is forgotten when the record is reloaded again. */
  ghost predicate NoSuccessInGap(cfg: Config, events: seq<Event>, ip: string)
    requires 0 < cfg.threshold
  {
    forall i: nat :: i < |events| ==> !GapAt(cfg, events, ip, i)
  }

  // ---------- what each event means for a record ----------

  /** The lookup of an event finds nothing and creates the record, or finds it in Redis alone and reloads it; then
      its success slips past a live Redis record, or its failure writes one. */
  datatype Mark = Mark(created: bool, reloaded: bool, slipped: bool, written: bool)

  predicate WritesRecord(cfg: Config, looked: World, ip: string)
    requires 0 < cfg.threshold
  {
    0 <= StrikesAfterFailure(looked, ip) && Persists(cfg, StrikesAfterFailure(looked, ip))
  }

  function MarkOf(cfg: Config, w: World, e: Event, ip: string): Mark
    requires 0 < cfg.threshold
  {
    var handled := Handles(cfg, w, e, ip);
    Mark(Looks(e, ip) && !Known(w, ip, e.now),
      Looks(e, ip) && ip !in w.strikes && LiveSlot(w, ip, e.now),
      handled && e.outcome.Authenticated? && LiveSlot(w, ip, e.now),
      handled && e.outcome.Failed? && WritesRecord(cfg, LookStep(cfg, w, ip, e.now), ip))
  }

  function Marks(cfg: Config, events: seq<Event>, ip: string): (r: seq<Mark>)
    requires 0 < cfg.threshold
    ensures |r| == |events|
  {
    if events == [] then []
    else
      var n := |events| - 1;
      Marks(cfg, events[..n], ip) + [MarkOf(cfg, Run(cfg, events[..n]), events[n], ip)]
  }

  /** A success has slipped past the record, which has been neither reloaded nor written since. */
  predicate Owing(ms: seq<Mark>) {
    ms != [] &&
    var n := |ms| - 1;
    ms[n].slipped || (Owing(ms[..n]) && !ms[n].created && !ms[n].reloaded && !ms[n].written)
  }

  /** Since the record was created, it was reloaded while a success was owing. */
  predicate ReloadedOwing(ms: seq<Mark>) {
    ms != [] &&
    var n := |ms| - 1;
    !ms[n].created && (ReloadedOwing(ms[..n]) || (ms[n].reloaded && Owing(ms[..n])))
  }

  lemma MarksSnoc(ms: seq<Mark>, m: Mark)
    ensures Owing(ms + [m]) <==> m.slipped || (Owing(ms) && !m.created && !m.reloaded && !m.written)
    ensures ReloadedOwing(ms + [m]) <==> !m.created && (ReloadedOwing(ms) || (m.reloaded && Owing(ms)))
  {
    assert (ms + [m])[..|ms|] == ms;
  }

  /** By the lookup at the end of the run, a reload has made the record forget a success. */
  predicate Forgotten(cfg: Config, events: seq<Event>, ip: string)
    requires 0 < cfg.threshold
  {
    var ms := Marks(cfg, events, ip);
    ReloadedOwing(ms) || (ip !in Run(cfg, events).strikes && Owing(ms))
  }

  // ---------- the history's counters follow the marks ----------

  predicate Tracks(h: History, owing: bool, forgot: bool, live: bool) {
    (live ==> (0 < h.pending <==> owing)) && (0 < h.forgotten <==> forgot)
  }

  /** A failure that writes nothing past a live record leaves the record ahead. */
  lemma UnwrittenStaysAhead(cfg: Config, looked: World, ip: string, now: int, v: int, pending: int, bound: nat)
    requires 0 < cfg.threshold && Ready(cfg, looked, ip, now, v, pending, bound) && LiveSlot(looked, ip, now)
    requires !WritesRecord(cfg, looked, ip)
    ensures 1 < pending
  {
    if pending == 0 {
      PersistsGrows(cfg, v);
    }
  }

  lemma FailureTracks(cfg: Config, looked: World, h: History, e: Event, v: int, bound: nat, owing: bool, forgot: bool)
    requires 0 < cfg.threshold && e.Request? && e.outcome.Failed?
             && Ready(cfg, looked, e.ip, e.now, v, h.pending, bound)
    requires Tracks(h, owing, forgot, LiveSlot(looked, e.ip, e.now))
    ensures Tracks(AfterOutcome(cfg, looked, h, e.outcome, e.ip, e.now),
              owing && !WritesRecord(cfg, looked, e.ip), forgot, LiveSlot(Concluded(cfg, looked, e), e.ip, e.now))
  {
    if !WritesRecord(cfg, looked, e.ip) {
      StruckShows(cfg, looked, e.ip, e.outcome.reason, e.now, v, bound);
      NothingWritten(cfg, looked, e.ip, e.outcome.reason, e.now);
      if LiveSlot(looked, e.ip, e.now) {
        UnwrittenStaysAhead(cfg, looked, e.ip, e.now, v, h.pending, bound);
      }
    }
  }

  lemma SuccessTracks(cfg: Config, looked: World, h: History, e: Event, v: int, bound: nat, owing: bool, forgot: bool)
    requires 0 < cfg.threshold && e.Request? && e.outcome.Authenticated?
    requires Ready(cfg, looked, e.ip, e.now, v, h.pending, bound)
    requires Tracks(h, owing, forgot, LiveSlot(looked, e.ip, e.now))
    ensures Tracks(AfterOutcome(cfg, looked, h, e.outcome, e.ip, e.now), owing || LiveSlot(looked, e.ip, e.now), forgot,
              LiveSlot(Concluded(cfg, looked, e), e.ip, e.now))
  {
  }

  predicate OwingAfter(cfg: Config, looked: World, e: Event, owing: bool)
    requires 0 < cfg.threshold && e.Request?
  {
    match e.outcome
    case Untouched => owing
    case Failed(_) => owing && !WritesRecord(cfg, looked, e.ip)
    case Authenticated => owing || LiveSlot(looked, e.ip, e.now)
  }

  lemma OutcomeTracks(cfg: Config, looked: World, h: History, e: Event, v: int, bound: nat, owing: bool, forgot: bool)
    requires 0 < cfg.threshold && e.Request? && Ready(cfg, looked, e.ip, e.now, v, h.pending, bound)
    requires Tracks(h, owing, forgot, LiveSlot(looked, e.ip, e.now))
    ensures Tracks(AfterOutcome(cfg, looked, h, e.outcome, e.ip, e.now), OwingAfter(cfg, looked, e, owing), forgot,
              LiveSlot(Concluded(cfg, looked, e), e.ip, e.now))
  {
    match e.outcome
    case Untouched =>
    case Failed(_) => FailureTracks(cfg, looked, h, e, v, bound, owing, forgot);
    case Authenticated => SuccessTracks(cfg, looked, h, e, v, bound, owing, forgot);
  }

  /** The lookup alone. */
  function LookMark(w: World, ip: string, now: int): Mark {
    Mark(!Known(w, ip, now), ip !in w.strikes && LiveSlot(w, ip, now), false, false)
  }

  lemma LookTracks(
      cfg: Config, w: World, h: History, ms: seq<Mark>, ip: string, now: Instant, v: int, bound: nat, n: nat)
    requires 0 < cfg.threshold && Shows(cfg, w, ip, now, v, h.pending, bound) && 0 <= h.forgotten
    requires Tracks(h, Owing(ms), ReloadedOwing(ms), LiveSlot(w, ip, now))
    ensures var after := ms + [LookMark(w, ip, now)];
            Tracks(AfterLook(w, h, ip, now, n), Owing(after), ReloadedOwing(after),
              LiveSlot(LookStep(cfg, w, ip, now), ip, now))
  {
    MarksSnoc(ms, LookMark(w, ip, now));
  }

  lemma RefusedMark(cfg: Config, w: World, e: Event)
    requires 0 < cfg.threshold && Refuses(cfg, w, e)
    ensures MarkOf(cfg, w, e, e.ip) == LookMark(w, e.ip, e.now)
  {
  }

  lemma PassedMark(cfg: Config, w: World, e: Event, ms: seq<Mark>)
    requires 0 < cfg.threshold && e.Request? && !e.exempt && !Refuses(cfg, w, e)
    ensures var looked := LookStep(cfg, w, e.ip, e.now);
            var after, all := ms + [LookMark(w, e.ip, e.now)], ms + [MarkOf(cfg, w, e, e.ip)];
            && (Owing(all) <==> OwingAfter(cfg, looked, e, Owing(after)))
            && (ReloadedOwing(all) <==> ReloadedOwing(after))
  {
    MarksSnoc(ms, LookMark(w, e.ip, e.now));
    MarksSnoc(ms, MarkOf(cfg, w, e, e.ip));
  }

  lemma UnrelatedMark(cfg: Config, w: World, e: Event, ip: string, ms: seq<Mark>)
    requires 0 < cfg.threshold && !Looks(e, ip)
    ensures var all := ms + [MarkOf(cfg, w, e, ip)];
            (Owing(all) <==> Owing(ms)) && (ReloadedOwing(all) <==> ReloadedOwing(ms))
    ensures LiveSlot(Apply(cfg, w, e), ip, e.now) ==> LiveSlot(w, ip, e.now)
  {
    MarksSnoc(ms, MarkOf(cfg, w, e, ip));
    UnrelatedSame(cfg, w, e, ip);
  }

  ghost predicate Tracked(cfg: Config, w: World, h: History, ms: seq<Mark>, ip: string, now: int) {
    Tracks(h, Owing(ms), ReloadedOwing(ms), LiveSlot(w, ip, now))
  }

  lemma PassedTracked(cfg: Config, w: World, h: History, e: Event, ms: seq<Mark>, v: int, bound: nat, n: nat)
    requires 0 < cfg.threshold && e.Request? && !e.exempt && !Refuses(cfg, w, e)
    requires Shows(cfg, w, e.ip, e.now, v, h.pending, bound) && 0 <= h.forgotten && Tracked(cfg, w, h, ms, e.ip, e.now)
    ensures Tracked(cfg, Apply(cfg, w, e), NextHistory(cfg, w, h, e, e.ip, n), ms + [MarkOf(cfg, w, e, e.ip)],
              e.ip, e.now)
  {
    var looked, h' := LookStep(cfg, w, e.ip, e.now), AfterLook(w, h, e.ip, e.now, n);
    var after := ms + [LookMark(w, e.ip, e.now)];
    LookTracks(cfg, w, h, ms, e.ip, e.now, v, bound, n);
    LookShows(cfg, w, h, e.ip, e.now, v, bound, n);
    LookedUp(cfg, w, e);
    PassedStep(cfg, w, h, e, n);
    PassedMark(cfg, w, e, ms);
    OutcomeTracks(cfg, looked, h', e, ValueAfterLook(w, e.ip, e.now, v, h.pending), bound, Owing(after),
      ReloadedOwing(after));
  }

  lemma EventTracked(cfg: Config, w: World, h: History, e: Event, ip: string, ms: seq<Mark>, v: int, bound: nat, n: nat)
    requires 0 < cfg.threshold && Shows(cfg, w, ip, e.now, v, h.pending, bound) && 0 <= h.forgotten
    requires Tracked(cfg, w, h, ms, ip, e.now)
    ensures Tracked(cfg, Apply(cfg, w, e), NextHistory(cfg, w, h, e, ip, n), ms + [MarkOf(cfg, w, e, ip)], ip, e.now)
  {
    if !Looks(e, ip) {
      UnrelatedMark(cfg, w, e, ip, ms);
      UnrelatedStep(cfg, w, h, e, ip, v, n);
    } else if Refuses(cfg, w, e) {
      LookTracks(cfg, w, h, ms, ip, e.now, v, bound, n);
      RefusedStep(cfg, w, h, e, n);
      RefusedMark(cfg, w, e);
    } else {
      PassedTracked(cfg, w, h, e, ms, v, bound, n);
    }
  }

  lemma MarksOfSnoc(cfg: Config, events: seq<Event>, e: Event, ip: string)
    requires 0 < cfg.threshold
    ensures Marks(cfg, events + [e], ip) == Marks(cfg, events, ip) + [MarkOf(cfg, Run(cfg, events), e, ip)]
  {
    assert (events + [e])[..|events|] == events;
  }

  lemma TrackedLater(cfg: Config, w: World, h: History, ms: seq<Mark>, ip: string, now: int, later: int)
    requires Tracked(cfg, w, h, ms, ip, now) && now <= later
    ensures Tracked(cfg, w, h, ms, ip, later)
  {
  }

  /** Over every run: what is pending, and what was forgotten, is positive exactly when the marks say so. */
  lemma {:induction false} MarksTrack(cfg: Config, events: seq<Event>, ip: string, now: Instant)
    requires Fits(cfg, events) && Ordered(events, now)
    ensures Tracked(cfg, Run(cfg, events), HistoryOf(cfg, events, ip), Marks(cfg, events, ip), ip, now)
  {
    if events != [] {
      var n := |events| - 1;
      var init, e := events[..n], events[n];
      assert events == init + [e];
      MarksTrack(cfg, init, ip, e.now);
      AlwaysShows(cfg, init, ip, e.now);
      HistorySnoc(cfg, init, e, ip);
      MarksOfSnoc(cfg, init, e, ip);
      var w, h := Run(cfg, init), HistoryOf(cfg, init, ip);
      EventTracked(cfg, w, h, e, ip, Marks(cfg, init, ip), Net(cfg, init, ip, h), n, n);
      TrackedLater(cfg, Run(cfg, events), HistoryOf(cfg, events, ip), Marks(cfg, events, ip), ip, e.now, now);
    }
  }

  // ---------- what earns a ban ----------

  /** Whenever an address is banned, its record shows at least the threshold, and the equation for strikes holds for
      it, with the successes that this very lookup forgets when it reloads the record. Something was forgotten
      exactly when a success slipped past the Redis record and the next thing to touch the record was a reload. */
  lemma BanIsEarnedByFailures(cfg: Config, events: seq<Event>, ip: string, now: Instant)
    requires Fits(cfg, events) && Ordered(events, now)
    requires AnswerOf(Consulted(cfg, Run(cfg, events), ip, now), now).banned
    ensures var h := AfterLook(Run(cfg, events), HistoryOf(cfg, events, ip), ip, now, |events|);
            var strikes := Consulted(cfg, Run(cfg, events), ip, now).value.strikes;
            && CreatedAt(cfg, events, ip, h.since) && 0 <= h.forgotten && cfg.threshold <= strikes
            && strikes == Balance(cfg, events, ip) - Balance(cfg, events[..h.since], ip) + h.forgotten
            && (0 < h.forgotten <==> Forgotten(cfg, events, ip))
  {
    var w, h := Run(cfg, events), HistoryOf(cfg, events, ip);
    AlwaysShows(cfg, events, ip, now);
    RecordWasCreated(cfg, events, ip, now);
    MarksTrack(cfg, events, ip, now);
    if ip !in w.strikes {
      FoundWhileLive(cfg, w, ip, now, Net(cfg, events, ip, h), h.pending, |events|);
    }
  }

  lemma MarkIsGap(cfg: Config, events: seq<Event>, ip: string)
    requires 0 < cfg.threshold && events != []
    ensures var n := |events| - 1;
            MarkOf(cfg, Run(cfg, events[..n]), events[n], ip).slipped <==> GapAt(cfg, events, ip, n)
  {
  }

  lemma GapInit(cfg: Config, events: seq<Event>, ip: string)
    requires 0 < cfg.threshold && events != [] && NoSuccessInGap(cfg, events, ip)
    ensures var n := |events| - 1; NoSuccessInGap(cfg, events[..n], ip) && !GapAt(cfg, events, ip, n)
  {
    var n := |events| - 1;
    forall i: nat | i < n
      ensures !GapAt(cfg, events[..n], ip, i)
    {
      assert events[..n][..i] == events[..i];
      assert !GapAt(cfg, events, ip, i);
    }
  }

  lemma {:induction false} NothingForgotten(cfg: Config, events: seq<Event>, ip: string)
    requires 0 < cfg.threshold && NoSuccessInGap(cfg, events, ip)
    ensures !Owing(Marks(cfg, events, ip)) && !ReloadedOwing(Marks(cfg, events, ip))
  {
    if events != [] {
      var n := |events| - 1;
      GapInit(cfg, events, ip);
      NothingForgotten(cfg, events[..n], ip);
      MarkIsGap(cfg, events, ip);
      MarksSnoc(Marks(cfg, events[..n], ip), MarkOf(cfg, Run(cfg, events[..n]), events[n], ip));
    }
  }

  /** Without a success in the gap nothing is forgotten: the strikes of a banned address are exactly its failures
      minus its successes since its record was created, and reach the threshold. */
  lemma BanIsEarnedSinceCreation(cfg: Config, events: seq<Event>, ip: string, now: Instant)
    requires Fits(cfg, events) && Ordered(events, now) && NoSuccessInGap(cfg, events, ip)
    requires AnswerOf(Consulted(cfg, Run(cfg, events), ip, now), now).banned
    ensures var since := HistoryOf(cfg, events, ip).since;
            && CreatedAt(cfg, events, ip, since)
            && cfg.threshold <= Consulted(cfg, Run(cfg, events), ip, now).value.strikes
               == Balance(cfg, events, ip) - Balance(cfg, events[..since], ip)
  {
    BanIsEarnedByFailures(cfg, events, ip, now);
    NothingForgotten(cfg, events, ip);
    var w, h := Run(cfg, events), HistoryOf(cfg, events, ip);
    AlwaysShows(cfg, events, ip, now);
    if ip !in w.strikes {
      FoundWhileLive(cfg, w, ip, now, Net(cfg, events, ip, h), h.pending, |events|);
    }
  }

  // ---------- the gap ----------

  /** A ban's Redis record does not outlive the ban in memory. */
  predicate SlotIsCovered(w: World, ip: string, now: int) {
    LiveSlot(w, ip, now) ==>
      var slot := w.redis[Key(ip)];
      ip in w.strikes && w.strikes[ip].bannedAt.Some? && slot.expiresAt.Some?
        && slot.expiresAt.value <= End(w.strikes[ip])
  }

  lemma FailIsCovered(cfg: Config, w: World, ip: string, reason: string, now: Instant)
    requires 0 < cfg.threshold && 0 < cfg.baseBan && !LiveSlot(w, ip, now)
    ensures SlotIsCovered(FailStep(cfg, w, ip, reason, now), ip, now)
  {
    var hit := FailStep(cfg, w, ip, reason, now).strikes[ip];
    if hit.strikes >= cfg.threshold {
      EscalationIsMonotone(cfg, 0, hit.strikes);
    }
  }

  lemma OtherIsCovered(cfg: Config, w: World, e: Event, ip: string)
    requires 0 < cfg.threshold && !e.Restart? && SlotIsCovered(w, ip, e.now)
    requires e.Request? ==> e.ip != ip || e.exempt
    ensures SlotIsCovered(Apply(cfg, w, e), ip, e.now)
  {
    UnrelatedSame(cfg, w, e, ip);
    if LiveSlot(w, ip, e.now) {
      BanHolds(cfg, w, e, ip);
    }
  }

  lemma OwnIsCovered(cfg: Config, w: World, e: Event)
    requires 0 < cfg.threshold && 0 < cfg.baseBan && e.Request? && !e.exempt && SlotIsCovered(w, e.ip, e.now)
    ensures SlotIsCovered(Apply(cfg, w, e), e.ip, e.now)
  {
    if LiveSlot(w, e.ip, e.now) {
      BanHolds(cfg, w, e, e.ip);
      SlotHolds(cfg, w, e, e.ip);
    } else if !Refuses(cfg, w, e) && e.outcome.Failed? {
      FailIsCovered(cfg, LookStep(cfg, w, e.ip, e.now), e.ip, e.outcome.reason, e.now);
    }
  }

  ghost predicate NoRestart(events: seq<Event>) {
    forall i :: 0 <= i < |events| ==> !events[i].Restart?
  }

  lemma {:induction false} AlwaysCovered(cfg: Config, events: seq<Event>, ip: string, now: Instant)
    requires 0 < cfg.threshold && 0 < cfg.baseBan && Ordered(events, now) && NoRestart(events)
    ensures SlotIsCovered(Run(cfg, events), ip, now)
  {
    if events != [] {
      var n := |events| - 1;
      var w, e := Run(cfg, events[..n]), events[n];
      AlwaysCovered(cfg, events[..n], ip, e.now);
      if e.Request? && e.ip == ip && !e.exempt {
        OwnIsCovered(cfg, w, e);
      } else {
        OtherIsCovered(cfg, w, e, ip);
      }
    }
  }

  /** Without restarts there is no gap to fall into, so a ban is always earned by failures. */
  lemma NoRestartNoGap(cfg: Config, events: seq<Event>, ip: string, now: Instant)
    requires 0 < cfg.threshold && 0 < cfg.baseBan && Ordered(events, now) && NoRestart(events)
    ensures NoSuccessInGap(cfg, events, ip)
  {
    forall i: nat | i < |events|
      ensures !GapAt(cfg, events, ip, i)
    {
      AlwaysCovered(cfg, events[..i], ip, events[i].now);
    }
  }

  function Tick(tenths: nat): Instant
    requires tenths < 100
  {
    tenths * (SECOND / 10)
  }

  const GAP_CONFIG := Config(3, SECOND, true)

  function Fail(ip: string, reason: string, tenths: nat): Event
    requires tenths < 100
  {
    Request(ip, false, Failed(reason), Tick(tenths))
  }

  function Success(ip: string, tenths: nat): Event
    requires tenths < 100
  {
    Request(ip, false, Authenticated, Tick(tenths))
  }

  /** Three failures, a restart, two successes inside the gap, another restart, and one more failure. */
  function GapRun(ip: string, reason: string): seq<Event> {
    [Fail(ip, reason, 5), Fail(ip, reason, 5), Fail(ip, reason, 5), Restart(Tick(6)),
     Success(ip, 11), Success(ip, 11), Restart(Tick(12)), Fail(ip, reason, 13)]
  }

  function GapBan(reason: string): Entry {
    Entry(3, Some(Tick(5)), SECOND, reason)
  }

  function GapStore(ip: string, ban: Entry): Redis.Store
    requires Storable(ban)
  {
    map[Key(ip) := Redis.Slot(EncodeBan(ban), Some(Tick(15)))]
  }

  function GapWorld(ip: string, reason: string, n: nat): World
    requires n <= 7
  {
    var ban := GapBan(reason);
    if n == 0 then World(map[], map[])
    else if n < 3 then World(map[ip := Entry(n, None, 0, reason)], map[])
    else if n == 3 then World(map[ip := ban], GapStore(ip, ban))
    else if n == 4 || n == 7 then World(map[], GapStore(ip, ban))
    else World(map[ip := Entry(7 - n, Some(0), SECOND, reason)], GapStore(ip, ban))
  }

  function GapBalance(n: nat): int
    requires n <= 8
  {
    if n <= 3 then n else if n == 4 then 3 else if n == 5 then 2 else if n < 8 then 1 else 2
  }

  /** A request that finds an entry without a running ban. */
  lemma StepWithEntry(cfg: Config, w: World, e: Event, found: Entry)
    requires 0 < cfg.threshold && e.Request? && !e.exempt && Consulted(cfg, w, e.ip, e.now) == Some(found)
    requires !Active(found, e.now)
    ensures Delta(cfg, w, e, e.ip) == Weight(e.outcome)
    ensures var looked := World(w.strikes[e.ip := found], w.redis);
            && (e.outcome.Failed? ==> Apply(cfg, w, e) == FailStep(cfg, looked, e.ip, e.outcome.reason, e.now))
            && (e.outcome.Authenticated? ==> Apply(cfg, w, e) == DecrementStep(cfg, looked, e.ip))
  {
  }

  lemma FirstFailure(ip: string, reason: string)
    ensures Apply(GAP_CONFIG, World(map[], map[]), Fail(ip, reason, 5))
            == World(map[ip := Entry(1, None, 0, reason)], map[])
    ensures Delta(GAP_CONFIG, World(map[], map[]), Fail(ip, reason, 5), ip) == 1
  {
    assert Consulted(GAP_CONFIG, World(map[], map[]), ip, Tick(5)) == None;
  }

  lemma SecondFailure(ip: string, reason: string)
    ensures var w := World(map[ip := Entry(1, None, 0, reason)], map[]);
            && Apply(GAP_CONFIG, w, Fail(ip, reason, 5)) == World(map[ip := Entry(2, None, 0, reason)], map[])
            && Delta(GAP_CONFIG, w, Fail(ip, reason, 5), ip) == 1
  {
    var found := Entry(1, None, 0, reason);
    StepWithEntry(GAP_CONFIG, World(map[ip := found], map[]), Fail(ip, reason, 5), found);
  }

  lemma ThirdFailure(ip: string, reason: string)
    ensures var w := World(map[ip := Entry(2, None, 0, reason)], map[]);
            && Apply(GAP_CONFIG, w, Fail(ip, reason, 5))
              == World(map[ip := GapBan(reason)], GapStore(ip, GapBan(reason)))
            && Delta(GAP_CONFIG, w, Fail(ip, reason, 5), ip) == 1
  {
    var found := Entry(2, None, 0, reason);
    assert EscalatedDuration(GAP_CONFIG, 3) == SECOND;
    StepWithEntry(GAP_CONFIG, World(map[ip := found], map[]), Fail(ip, reason, 5), found);
  }

  lemma ReloadedBan(ip: string, ban: Entry, now: Instant)
    requires Storable(ban) && Unix(ban.bannedAt.value) == 0 && ban.duration == SECOND && now < Tick(15)
    ensures Consulted(GAP_CONFIG, World(map[], GapStore(ip, ban)), ip, now) == Some(ban.(bannedAt := Some(0)))
  {
    DecodeOfEncode(ban);
    FetchedWhileLive(GAP_CONFIG, World(map[], GapStore(ip, ban)), ip, GapStore(ip, ban)[Key(ip)], now);
  }

  lemma DecrementTakesOne(cfg: Config, w: World, ip: string, found: Entry)
    requires 1 < found.strikes
    ensures DecrementStep(cfg, World(w.strikes[ip := found], w.redis), ip)
         == World(w.strikes[ip := found.(strikes := found.strikes - 1)], w.redis)
  {
    assert w.strikes[ip := found][ip := found.(strikes := found.strikes - 1)]
      == w.strikes[ip := found.(strikes := found.strikes - 1)];
  }

  lemma SuccessTakesOne(ip: string, w: World, found: Entry)
    requires Consulted(GAP_CONFIG, w, ip, Tick(11)) == Some(found) && found.bannedAt == Some(0)
             && found.duration == SECOND
    requires 1 < found.strikes
    ensures Apply(GAP_CONFIG, w, Success(ip, 11))
            == World(w.strikes[ip := found.(strikes := found.strikes - 1)], w.redis)
    ensures Delta(GAP_CONFIG, w, Success(ip, 11), ip) == -1
  {
    StepWithEntry(GAP_CONFIG, w, Success(ip, 11), found);
    DecrementTakesOne(GAP_CONFIG, w, ip, found);
  }

  lemma GapSuccess(ip: string, reason: string, n: nat)
    requires n == 4 || n == 5
    ensures Apply(GAP_CONFIG, GapWorld(ip, reason, n), Success(ip, 11)) == GapWorld(ip, reason, n + 1)
    ensures Delta(GAP_CONFIG, GapWorld(ip, reason, n), Success(ip, 11), ip) == -1
  {
    if n == 4 {
      ReloadedBan(ip, GapBan(reason), Tick(11));
    }
    SuccessTakesOne(ip, GapWorld(ip, reason, n), Entry(7 - n, Some(0), SECOND, reason));
  }

  lemma LastFailure(ip: string, w: World, found: Entry)
    requires Consulted(GAP_CONFIG, w, ip, Tick(13)) == Some(found) && found.bannedAt == Some(0)
             && found.duration == SECOND
    requires found.strikes == 3
    ensures Delta(GAP_CONFIG, w, Fail(ip, found.reason, 13), ip) == 1
    ensures var after := Apply(GAP_CONFIG, w, Fail(ip, found.reason, 13));
            AnswerOf(Consulted(GAP_CONFIG, after, ip, Tick(13)), Tick(13)).banned
  {
    StepWithEntry(GAP_CONFIG, w, Fail(ip, found.reason, 13), found);
    EscalationIsMonotone(GAP_CONFIG, 0, 4);
  }

  lemma EarlyGapStep(ip: string, reason: string, n: nat)
    requires n < 3
    ensures Apply(GAP_CONFIG, GapWorld(ip, reason, n), Fail(ip, reason, 5)) == GapWorld(ip, reason, n + 1)
    ensures Delta(GAP_CONFIG, GapWorld(ip, reason, n), Fail(ip, reason, 5), ip) == 1
  {
    match n
    case 0 => FirstFailure(ip, reason);
    case 1 => SecondFailure(ip, reason);
    case _ => ThirdFailure(ip, reason);
  }

  lemma GapRestart(ip: string, w: World, tenths: nat)
    requires tenths < 100
    ensures Apply(GAP_CONFIG, w, Restart(Tick(tenths))) == World(map[], w.redis)
    ensures Delta(GAP_CONFIG, w, Restart(Tick(tenths)), ip) == 0
  {
  }

  lemma GapStep(ip: string, reason: string, n: nat)
    requires n < 7
    ensures Apply(GAP_CONFIG, GapWorld(ip, reason, n), GapRun(ip, reason)[n]) == GapWorld(ip, reason, n + 1)
    ensures Delta(GAP_CONFIG, GapWorld(ip, reason, n), GapRun(ip, reason)[n], ip) == GapBalance(n + 1) - GapBalance(n)
  {
    if n < 3 {
      EarlyGapStep(ip, reason, n);
    } else if n == 3 || n == 6 {
      GapRestart(ip, GapWorld(ip, reason, n), if n == 3 then 6 else 12);
    } else {
      GapSuccess(ip, reason, n);
    }
  }

  lemma {:induction false} GapPrefix(ip: string, reason: string, n: nat)
    requires n <= 7
    ensures Run(GAP_CONFIG, GapRun(ip, reason)[..n]) == GapWorld(ip, reason, n)
    ensures Balance(GAP_CONFIG, GapRun(ip, reason)[..n], ip) == GapBalance(n)
  {
    if n > 0 {
      GapPrefix(ip, reason, n - 1);
      GapStep(ip, reason, n - 1);
      assert GapRun(ip, reason)[..n][..n - 1] == GapRun(ip, reason)[..n - 1];
    }
  }

  lemma GapLast(ip: string, reason: string)
    ensures var w, e := GapWorld(ip, reason, 7), Fail(ip, reason, 13);
            && Delta(GAP_CONFIG, w, e, ip) == 1
            && AnswerOf(Consulted(GAP_CONFIG, Apply(GAP_CONFIG, w, e), ip, Tick(13)), Tick(13)).banned
  {
    ReloadedBan(ip, GapBan(reason), Tick(13));
    LastFailure(ip, GapWorld(ip, reason, 7), Entry(3, Some(0), SECOND, reason));
  }

  lemma GapIsSnoc(ip: string, reason: string)
    ensures GapRun(ip, reason) == GapRun(ip, reason)[..7] + [Fail(ip, reason, 13)]
  {
  }

  lemma GapEndsBanned(ip: string, reason: string)
    ensures AnswerOf(Consulted(GAP_CONFIG, Run(GAP_CONFIG, GapRun(ip, reason)), ip, Tick(13)), Tick(13)).banned
  {
    GapIsSnoc(ip, reason);
    GapPrefix(ip, reason, 7);
    GapLast(ip, reason);
    SnocBoth(GAP_CONFIG, GapRun(ip, reason)[..7], Fail(ip, reason, 13), ip);
  }

  lemma GapEndBalance(ip: string, reason: string)
    ensures Balance(GAP_CONFIG, GapRun(ip, reason), ip) == 2
  {
    GapIsSnoc(ip, reason);
    GapPrefix(ip, reason, 7);
    GapLast(ip, reason);
    SnocBoth(GAP_CONFIG, GapRun(ip, reason)[..7], Fail(ip, reason, 13), ip);
  }

  lemma SnocBoth(cfg: Config, events: seq<Event>, e: Event, ip: string)
    requires 0 < cfg.threshold
    ensures Run(cfg, events + [e]) == Apply(cfg, Run(cfg, events), e)
    ensures Balance(cfg, events + [e], ip) == Balance(cfg, events, ip) + Delta(cfg, Run(cfg, events), e, ip)
  {
    assert (events + [e])[..|events|] == events;
  }

  lemma GapIsRegular(ip: string, reason: string)
    ensures Fits(GAP_CONFIG, GapRun(ip, reason)) && Ordered(GapRun(ip, reason), Tick(13))
  {
  }

  lemma GapNeverBelow(ip: string, reason: string, since: nat)
    requires since < 8
    ensures 0 <= Balance(GAP_CONFIG, GapRun(ip, reason)[..since], ip)
  {
    GapPrefix(ip, reason, since);
  }

  /** Since no moment of the run have failures exceeded successes by n. */
  ghost predicate NeverExceeds(cfg: Config, events: seq<Event>, ip: string, n: int)
    requires 0 < cfg.threshold
  {
    forall since: nat :: since <= |events| ==> Balance(cfg, events, ip) - Balance(cfg, events[..since], ip) < n
  }

  lemma NotExceeding(cfg: Config, events: seq<Event>, ip: string, n: int)
    requires 0 < cfg.threshold && 0 < n && Balance(cfg, events, ip) < n
    requires forall since: nat :: since < |events| ==> 0 <= Balance(cfg, events[..since], ip)
    ensures NeverExceeds(cfg, events, ip, n)
  {
    assert events[..|events|] == events;
  }

  lemma GapNotExceeded(ip: string, reason: string)
    ensures NeverExceeds(GAP_CONFIG, GapRun(ip, reason), ip, GAP_CONFIG.threshold)
  {
    var events := GapRun(ip, reason);
    GapEndBalance(ip, reason);
    forall since: nat | since < |events|
      ensures 0 <= Balance(GAP_CONFIG, events[..since], ip)
    {
      GapNeverBelow(ip, reason, since);
    }
    NotExceeding(GAP_CONFIG, events, ip, GAP_CONFIG.threshold);
  }

  /** The gap is real: this run ends banned, yet since no moment of it, the creation of the record included,
      have failures exceeded successes by the threshold. */
  lemma SuccessesInGapAreForgotten(ip: string, reason: string)
    ensures Fits(GAP_CONFIG, GapRun(ip, reason)) && Ordered(GapRun(ip, reason), Tick(13))
    ensures AnswerOf(Consulted(GAP_CONFIG, Run(GAP_CONFIG, GapRun(ip, reason)), ip, Tick(13)), Tick(13)).banned
    ensures NeverExceeds(GAP_CONFIG, GapRun(ip, reason), ip, GAP_CONFIG.threshold)
  {
    GapIsRegular(ip, reason);
    GapEndsBanned(ip, reason);
    GapNotExceeded(ip, reason);
  }
}
