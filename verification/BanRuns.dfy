/** Requests handled one at a time by the guard, the rate limits and authentication, mixed with cleanups
    and restarts. */
module BanRuns {
  import opened Wrappers
  import opened Clock
  import opened BruteForce
  import opened Decimal
  import Redis
  import Sequences

  /** What happens to a request the guard lets through: an exempt path or an endpoint limit touches no
      strikes, a denied rate limit or failed authentication adds one, a success takes one away. */
  datatype Outcome = Untouched | Failed(reason: string) | Authenticated

  datatype Event =
    | Request(ip: string, exempt: bool, outcome: Outcome, now: Instant)
    | CleanUp(now: Instant)
    | Restart(now: Instant)

  predicate Refuses(cfg: Config, w: World, e: Event) {
    e.Request? && !e.exempt && AnswerOf(Consulted(cfg, w, e.ip, e.now), e.now).banned
  }

  /** The request makes the guard look the address up. */
  predicate Looks(e: Event, ip: string) {
    e.Request? && !e.exempt && e.ip == ip
  }

  predicate Handles(cfg: Config, w: World, e: Event, ip: string) {
    Looks(e, ip) && !Refuses(cfg, w, e)
  }

  /** What a request the guard lets through leaves behind. */
  function Concluded(cfg: Config, looked: World, e: Event): World
    requires 0 < cfg.threshold && e.Request?
  {
    match e.outcome
    case Untouched => looked
    case Failed(reason) => FailStep(cfg, looked, e.ip, reason, e.now)
    case Authenticated => DecrementStep(cfg, looked, e.ip)
  }

  function Apply(cfg: Config, w: World, e: Event): World
    requires 0 < cfg.threshold
  {
    match e
    case CleanUp(now) => CleanupStep(w, now)
    case Restart(_) => w.(strikes := map[])
    case Request(ip, exempt, _, now) =>
      if exempt then w
      else
        var looked := LookStep(cfg, w, ip, now);
        if Refuses(cfg, w, e) then looked else Concluded(cfg, looked, e)
  }

  function Run(cfg: Config, events: seq<Event>): World
    requires 0 < cfg.threshold
  {
    if events == [] then World(map[], map[])
    else Apply(cfg, Run(cfg, events[..|events| - 1]), events[|events| - 1])
  }

  lemma RunSnoc(cfg: Config, events: seq<Event>, e: Event)
    requires 0 < cfg.threshold
    ensures Run(cfg, events + [e]) == Apply(cfg, Run(cfg, events), e)
  {
    assert (events + [e])[..|events|] == events;
  }

  /** A cleanup in the course of a run takes exactly the entries whose ban has ended before. */
  lemma CleanUpForgets(cfg: Config, events: seq<Event>, ip: string, now: Instant)
    requires 0 < cfg.threshold && ip in Run(cfg, events).strikes
    ensures var e, after := Run(cfg, events).strikes[ip], Run(cfg, events + [CleanUp(now)]);
            && (ip !in after.strikes <==> e.bannedAt.Some? && e.bannedAt.value + e.duration < now)
            && (ip in after.strikes ==> after.strikes[ip] == e)
  {
    RunSnoc(cfg, events, CleanUp(now));
    SweptIff(Run(cfg, events), ip, now);
  }

  // ---------- what an address does not notice ----------

  /** The address keeps its entry or loses it, and keeps its Redis slot. */
  predicate SameFor(w: World, w': World, ip: string) {
    && (ip in w'.strikes ==> ip in w.strikes && w'.strikes[ip] == w.strikes[ip])
    && (Key(ip) in w'.redis <==> Key(ip) in w.redis)
    && (Key(ip) in w.redis ==> w'.redis[Key(ip)] == w.redis[Key(ip)])
  }

  lemma UnrelatedSame(cfg: Config, w: World, e: Event, ip: string)
    requires 0 < cfg.threshold && !Looks(e, ip)
    ensures SameFor(w, Apply(cfg, w, e), ip)
  {
    if e.Request? {
      OtherAddressSame(cfg, w, e, ip);
    }
  }

  lemma OtherAddressSame(cfg: Config, w: World, e: Event, ip: string)
    requires 0 < cfg.threshold && e.Request? && (e.exempt || e.ip != ip)
    ensures SameFor(w, Apply(cfg, w, e), ip)
  {
    if !e.exempt {
      var looked := LookStep(cfg, w, e.ip, e.now);
      assert SameFor(w, looked, ip);
      ConclusionSame(cfg, looked, e, ip);
    }
  }

  lemma ConclusionSame(cfg: Config, looked: World, e: Event, ip: string)
    requires 0 < cfg.threshold && e.Request? && e.ip != ip
    ensures SameFor(looked, Concluded(cfg, looked, e), ip)
  {
    Sequences.PrefixCancels(PREFIX, e.ip, ip);
  }

  // ---------- a ban is sticky and ends on time ----------

  lemma BanHolds(cfg: Config, w: World, e: Event, ip: string)
    requires 0 < cfg.threshold && ip in w.strikes && Active(w.strikes[ip], e.now) && !e.Restart?
    ensures ip in Apply(cfg, w, e).strikes && Apply(cfg, w, e).strikes[ip] == w.strikes[ip]
    ensures e.Request? && e.ip == ip && !e.exempt ==> Refuses(cfg, w, e)
  {
  }

  function RunFrom(cfg: Config, w: World, events: seq<Event>): World
    requires 0 < cfg.threshold
  {
    if events == [] then w
    else Apply(cfg, RunFrom(cfg, w, events[..|events| - 1]), events[|events| - 1])
  }

  ghost predicate During(events: seq<Event>, end: int) {
    forall i :: 0 <= i < |events| ==> !events[i].Restart? && events[i].now < end
  }

  /** While a ban runs, nothing that happens touches its entry and every non-exempt request of the address
      is refused; so the address is banned at a later instant exactly when that lies before the ban's end. */
  lemma {:induction false} BanEndsExactly(cfg: Config, w: World, ip: string, events: seq<Event>, now: Instant)
    requires 0 < cfg.threshold && ip in w.strikes && w.strikes[ip].bannedAt.Some?
    requires During(events, End(w.strikes[ip]))
    ensures var w' := RunFrom(cfg, w, events);
            && ip in w'.strikes && w'.strikes[ip] == w.strikes[ip]
            && (AnswerOf(Consulted(cfg, w', ip, now), now).banned <==> now < End(w.strikes[ip]))
    ensures forall i :: 0 <= i < |events| && events[i].Request? && events[i].ip == ip && !events[i].exempt ==>
              Refuses(cfg, RunFrom(cfg, w, events[..i]), events[i])
  {
    if events != [] {
      var n := |events| - 1;
      BanEndsExactly(cfg, w, ip, events[..n], now);
      BanHolds(cfg, RunFrom(cfg, w, events[..n]), events[n], ip);
      forall i | 0 <= i < n && events[i].Request? && events[i].ip == ip && !events[i].exempt
        ensures Refuses(cfg, RunFrom(cfg, w, events[..i]), events[i])
      {
        assert events[..n][..i] == events[..i] && events[..n][i] == events[i];
      }
    }
  }

  // ---------- bans across a restart ----------

  /** The ban stands in Redis as it was written. */
  predicate Persisted(w: World, ip: string, e: Entry) {
    && Storable(e) && Key(ip) in w.redis
    && w.redis[Key(ip)] == Redis.Slot(EncodeBan(e), Some(e.bannedAt.value + WholeSeconds(e.duration) * SECOND))
  }

  lemma BanIsPersisted(cfg: Config, w: World, ip: string, reason: string, now: Instant)
    requires 0 < cfg.threshold && cfg.withRedis && WholeSeconds(cfg.baseBan) > 0
    requires var w' := FailStep(cfg, w, ip, reason, now);
             w'.strikes[ip].strikes >= cfg.threshold && Storable(w'.strikes[ip])
    ensures var w' := FailStep(cfg, w, ip, reason, now); Persisted(w', ip, w'.strikes[ip])
  {
    var e := FailStep(cfg, w, ip, reason, now).strikes[ip];
    EscalationIsMonotone(cfg, 0, e.strikes);
    DivMonotone(cfg.baseBan, e.duration, SECOND);
  }

  lemma SlotHolds(cfg: Config, w: World, e: Event, ip: string)
    requires 0 < cfg.threshold && ip in w.strikes && Active(w.strikes[ip], e.now) && !e.Restart?
    ensures Key(ip) in w.redis ==>
            Key(ip) in Apply(cfg, w, e).redis && Apply(cfg, w, e).redis[Key(ip)] == w.redis[Key(ip)]
  {
    if e.Request? {
      Sequences.PrefixCancels(PREFIX, e.ip, ip);
    }
  }

  lemma TruncationIsShort(e: Entry)
    requires Storable(e)
    ensures var cut := Truncated(e);
            && End(e) - 2 * SECOND < End(cut) <= End(e)
            && (e.duration % SECOND == 0 ==> End(e) - SECOND < End(cut))
            && End(cut) <= e.bannedAt.value + WholeSeconds(e.duration) * SECOND
  {
  }

  lemma FetchedWhileLive(cfg: Config, w: World, ip: string, slot: Redis.Slot, now: Instant)
    requires cfg.withRedis && Key(ip) in w.redis && w.redis[Key(ip)] == slot && slot.value != ""
    ensures Fetched(cfg, w, ip, now) == if Redis.Live(slot, now) then DecodeBan(slot.value) else None
  {
  }

  lemma ReloadedAnswer(cfg: Config, w: World, ip: string, e: Entry, now: Instant)
    requires cfg.withRedis && ip !in w.strikes && Persisted(w, ip, e)
    ensures AnswerOf(Consulted(cfg, w, ip, now), now).banned <==> now < End(Truncated(e))
  {
    var slot := Redis.Slot(EncodeBan(e), Some(e.bannedAt.value + WholeSeconds(e.duration) * SECOND));
    DecodeOfEncode(e);
    FetchedWhileLive(cfg, w, ip, slot, now);
    AnswerOfReloaded(Consulted(cfg, w, ip, now), e, slot, now);
  }

  lemma AnswerOfReloaded(found: Option<Entry>, e: Entry, slot: Redis.Slot, now: Instant)
    requires Storable(e) && slot.expiresAt == Some(e.bannedAt.value + WholeSeconds(e.duration) * SECOND)
    requires found == if Redis.Live(slot, now) then Some(Truncated(e)) else None
    ensures AnswerOf(found, now).banned <==> now < End(Truncated(e))
  {
    TruncationIsShort(e);
  }

  predicate Restarted(events: seq<Event>) {
    exists i :: 0 <= i < |events| && events[i].Restart?
  }

  ghost predicate Until(events: seq<Event>, end: int) {
    forall i :: 0 <= i < |events| ==> events[i].now < end
  }

  /** The ban stands in Redis, and memory has it too: as it was set, or after a restart cut to seconds or not yet
      reloaded. */
  predicate Kept(w: World, ip: string, ban: Entry, restarted: bool) {
    && Persisted(w, ip, ban)
    && (ip !in w.strikes ==> restarted)
    && (ip in w.strikes ==> w.strikes[ip] == if restarted then Truncated(ban) else ban)
  }

  lemma KeptAnswer(cfg: Config, w: World, ip: string, ban: Entry, restarted: bool, now: Instant)
    requires cfg.withRedis && Kept(w, ip, ban, restarted)
    ensures AnswerOf(Consulted(cfg, w, ip, now), now).banned
            <==> now < if restarted then End(Truncated(ban)) else End(ban)
  {
    if ip !in w.strikes {
      ReloadedAnswer(cfg, w, ip, ban, now);
    }
  }

  lemma KeptByLook(cfg: Config, w: World, ip: string, ban: Entry, restarted: bool, now: Instant)
    requires cfg.withRedis && Kept(w, ip, ban, restarted) && now < End(Truncated(ban))
    ensures Kept(LookStep(cfg, w, ip, now), ip, ban, restarted)
  {
    if ip !in w.strikes {
      TruncationIsShort(ban);
      DecodeOfEncode(ban);
      FetchedWhileLive(cfg, w, ip, w.redis[Key(ip)], now);
    }
  }

  lemma KeptByOthers(cfg: Config, w: World, e: Event, ip: string, ban: Entry, restarted: bool)
    requires 0 < cfg.threshold && Kept(w, ip, ban, restarted) && e.now < End(Truncated(ban))
    requires !e.Restart? && !Looks(e, ip)
    ensures Kept(Apply(cfg, w, e), ip, ban, restarted)
  {
    TruncationIsShort(ban);
    UnrelatedSame(cfg, w, e, ip);
    if ip in w.strikes {
      BanHolds(cfg, w, e, ip);
    }
  }

  lemma KeptStep(cfg: Config, w: World, e: Event, ip: string, ban: Entry, restarted: bool)
    requires 0 < cfg.threshold && cfg.withRedis && Kept(w, ip, ban, restarted) && e.now < End(Truncated(ban))
    ensures Kept(Apply(cfg, w, e), ip, ban, restarted || e.Restart?)
    ensures Looks(e, ip) ==> Refuses(cfg, w, e)
  {
    if Looks(e, ip) {
      TruncationIsShort(ban);
      KeptAnswer(cfg, w, ip, ban, restarted, e.now);
      KeptByLook(cfg, w, ip, ban, restarted, e.now);
    } else if !e.Restart? {
      KeptByOthers(cfg, w, e, ip, ban, restarted);
    }
  }

  lemma {:induction false} KeptOverRuns(cfg: Config, w: World, ip: string, events: seq<Event>)
    requires 0 < cfg.threshold && cfg.withRedis && ip in w.strikes && Persisted(w, ip, w.strikes[ip])
    requires Until(events, End(Truncated(w.strikes[ip])))
    ensures Kept(RunFrom(cfg, w, events), ip, w.strikes[ip], Restarted(events))
  {
    if events != [] {
      var n := |events| - 1;
      KeptOverRuns(cfg, w, ip, events[..n]);
      assert Restarted(events) <==> Restarted(events[..n]) || events[n].Restart?;
      KeptStep(cfg, RunFrom(cfg, w, events[..n]), events[n], ip, w.strikes[ip], Restarted(events[..n]));
    }
  }

  /** A ban written to Redis outlives any mix of requests, cleanups and restarts: every request of the address
      before the end is refused, and at any later instant it is banned exactly until the end. After a restart
      that end is earlier by less than two seconds, by less than one when the ban's length is whole seconds. */
  lemma BanSurvivesRestarts(cfg: Config, w: World, ip: string, events: seq<Event>, now: Instant)
    requires 0 < cfg.threshold && cfg.withRedis && ip in w.strikes && Persisted(w, ip, w.strikes[ip])
    requires Until(events, End(Truncated(w.strikes[ip])))
    ensures var ban := w.strikes[ip];
            && (AnswerOf(Consulted(cfg, RunFrom(cfg, w, events), ip, now), now).banned
                <==> now < if Restarted(events) then End(Truncated(ban)) else End(ban))
            && End(ban) - 2 * SECOND < End(Truncated(ban)) <= End(ban)
            && (ban.duration % SECOND == 0 ==> End(ban) - SECOND < End(Truncated(ban)))
    ensures forall i :: 0 <= i < |events| && Looks(events[i], ip) ==>
            Refuses(cfg, RunFrom(cfg, w, events[..i]), events[i])
  {
    var ban := w.strikes[ip];
    KeptOverRuns(cfg, w, ip, events);
    TruncationIsShort(ban);
    KeptAnswer(cfg, RunFrom(cfg, w, events), ip, ban, Restarted(events), now);
    forall i | 0 <= i < |events| && Looks(events[i], ip)
      ensures Refuses(cfg, RunFrom(cfg, w, events[..i]), events[i])
    {
      KeptOverRuns(cfg, w, ip, events[..i]);
      KeptStep(cfg, RunFrom(cfg, w, events[..i]), events[i], ip, ban, Restarted(events[..i]));
    }
  }

  // ---------- what a ban takes ----------

  /** Failures minus successes of the address among the requests the guard let through. */
  function Balance(cfg: Config, events: seq<Event>, ip: string): int
    requires 0 < cfg.threshold
  {
    if events == [] then 0
    else
      var init, e := events[..|events| - 1], events[|events| - 1];
      Balance(cfg, init, ip) + if Handles(cfg, Run(cfg, init), e, ip) then Weight(e.outcome) else 0
  }

  function Weight(o: Outcome): int {
    match o
    case Untouched => 0
    case Failed(_) => 1
    case Authenticated => -1
  }

  function Delta(cfg: Config, w: World, e: Event, ip: string): int {
    if Handles(cfg, w, e, ip) then Weight(e.outcome) else 0
  }

  predicate LiveSlot(w: World, ip: string, now: int) {
    Key(ip) in w.redis && Redis.Live(w.redis[Key(ip)], now)
  }

  /** The ban is written to Redis: SET fails for a positive time to live below a second. */
  predicate Persists(cfg: Config, strikes: nat)
    requires 0 < cfg.threshold
  {
    var length := EscalatedDuration(cfg, strikes);
    cfg.withRedis && strikes >= cfg.threshold && (length == 0 || length >= SECOND)
  }

  // ---------- the history of a record ----------

  /** Since when the record of an address, in memory or in Redis, exists; by how much the live Redis record is
      ahead of the strikes in memory; and how many successes reloads from Redis have made the record forget. */
  datatype History = History(since: nat, pending: int, forgotten: int)

  function AfterLook(w: World, h: History, ip: string, now: int, n: nat): History {
    if ip in w.strikes then h
    else if LiveSlot(w, ip, now) then History(h.since, 0, h.forgotten + h.pending)
    else History(n, 0, 0)
  }

  function StrikesAfterFailure(w: World, ip: string): int {
    if ip in w.strikes then w.strikes[ip].strikes + 1 else 1
  }

  function AfterOutcome(cfg: Config, w: World, h: History, o: Outcome, ip: string, now: Instant): History
    requires 0 < cfg.threshold
  {
    match o
    case Untouched => h
    case Authenticated => if LiveSlot(w, ip, now) then h.(pending := h.pending + 1) else h
    case Failed(_) =>
      var strikes := StrikesAfterFailure(w, ip);
      if 0 <= strikes && Persists(cfg, strikes) then h.(pending := 0)
      else if LiveSlot(w, ip, now) then h.(pending := h.pending - 1)
      else h
  }

  function NextHistory(cfg: Config, w: World, h: History, e: Event, ip: string, n: nat): History
    requires 0 < cfg.threshold
  {
    if !Looks(e, ip) then h
    else
      var looked := AfterLook(w, h, ip, e.now, n);
      if Refuses(cfg, w, e) then looked
      else AfterOutcome(cfg, LookStep(cfg, w, ip, e.now), looked, e.outcome, ip, e.now)
  }

  function HistoryOf(cfg: Config, events: seq<Event>, ip: string): (h: History)
    requires 0 < cfg.threshold
    ensures h.since <= |events|
  {
    if events == [] then History(0, 0, 0)
    else
      var n := |events| - 1;
      NextHistory(cfg, Run(cfg, events[..n]), HistoryOf(cfg, events[..n], ip), events[n], ip, n)
  }

  /** Failures minus successes since the record exists, and the forgotten successes on top. */
  function Net(cfg: Config, events: seq<Event>, ip: string, h: History): int
    requires 0 < cfg.threshold && h.since <= |events|
  {
    Balance(cfg, events, ip) - Balance(cfg, events[..h.since], ip) + h.forgotten
  }

  // ---------- what memory and Redis show ----------

  predicate EntryShows(cfg: Config, e: Entry, now: int, v: int, bound: nat) {
    0 < e.strikes == v <= bound && (Active(e, now) ==> v >= cfg.threshold)
  }

  predicate Encodes(ban: Entry, val: string, k: int) {
    Storable(ban) && EncodeBan(ban) == val && ban.strikes == k
  }

  /** The text in Redis is that of a ban with k strikes. */
  ghost predicate Recorded(val: string, k: int) {
    exists ban :: Encodes(ban, val, k)
  }

  ghost predicate SlotShows(cfg: Config, val: string, k: int, bound: nat)
    requires 0 < cfg.threshold
  {
    cfg.threshold <= k <= bound && Persists(cfg, k) && Recorded(val, k)
  }

  /** Memory shows v strikes, if it has an entry, and a live Redis record shows the pending ones more. */
  ghost predicate Shows(cfg: Config, w: World, ip: string, now: int, v: int, pending: int, bound: nat)
    requires 0 < cfg.threshold
  {
    && (ip in w.strikes ==> EntryShows(cfg, w.strikes[ip], now, v, bound))
    && (LiveSlot(w, ip, now) ==>
      cfg.withRedis && 0 <= pending && SlotShows(cfg, w.redis[Key(ip)].value, v + pending, bound))
  }

  lemma ShowsLater(cfg: Config, w: World, ip: string, now: int, later: int, v: int, pending: int, bound: nat, more: nat)
    requires 0 < cfg.threshold && Shows(cfg, w, ip, now, v, pending, bound) && now <= later && bound <= more
    ensures Shows(cfg, w, ip, later, v, pending, more)
  {
  }

  lemma RecordDecodes(val: string, k: int)
    requires Recorded(val, k)
    ensures val != "" && DecodeBan(val).Some? && DecodeBan(val).value.strikes == k
  {
    var ban :| Encodes(ban, val, k);
    DecodeOfEncode(ban);
  }

  lemma FoundWhileLive(cfg: Config, w: World, ip: string, now: Instant, v: int, pending: int, bound: nat)
    requires 0 < cfg.threshold && Shows(cfg, w, ip, now, v, pending, bound) && ip !in w.strikes
    ensures Fetched(cfg, w, ip, now).Some? <==> LiveSlot(w, ip, now)
    ensures LiveSlot(w, ip, now) ==> Fetched(cfg, w, ip, now).value.strikes == v + pending
  {
    if LiveSlot(w, ip, now) {
      RecordDecodes(w.redis[Key(ip)].value, v + pending);
      FetchedWhileLive(cfg, w, ip, w.redis[Key(ip)], now);
    }
  }

  function ValueAfterLook(w: World, ip: string, now: int, v: int, pending: int): int {
    if ip in w.strikes then v else if LiveSlot(w, ip, now) then v + pending else 0
  }

  lemma LookShows(cfg: Config, w: World, h: History, ip: string, now: Instant, v: int, bound: nat, n: nat)
    requires 0 < cfg.threshold && Shows(cfg, w, ip, now, v, h.pending, bound)
    ensures Shows(cfg, LookStep(cfg, w, ip, now), ip, now, ValueAfterLook(w, ip, now, v, h.pending),
              AfterLook(w, h, ip, now, n).pending, bound)
    ensures var looked := LookStep(cfg, w, ip, now);
            ip !in looked.strikes ==> !LiveSlot(looked, ip, now) && ValueAfterLook(w, ip, now, v, h.pending) == 0
  {
    if ip !in w.strikes {
      FoundWhileLive(cfg, w, ip, now, v, h.pending, bound);
    }
  }

  lemma PersistsGrows(cfg: Config, k: nat)
    requires 0 < cfg.threshold && Persists(cfg, k)
    ensures Persists(cfg, k + 1)
  {
    EscalationIsMonotone(cfg, k, k + 1);
    if EscalatedDuration(cfg, k) == 0 {
      assert cfg.baseBan == 0;
    }
  }

  /** Durations and counters fit the source's 64-bit integers. */
  predicate Fits(cfg: Config, events: seq<Event>) {
    0 < cfg.threshold && (cfg.withRedis ==> 48 * cfg.baseBan <= INT64_MAX && |events| < INT64_MAX)
  }

  lemma BanIsWritten(cfg: Config, w: World, ip: string, reason: string, now: Instant)
    requires 0 < cfg.threshold && 48 * cfg.baseBan <= INT64_MAX
    requires var hit := FailStep(cfg, w, ip, reason, now).strikes[ip];
             0 <= hit.strikes <= INT64_MAX && Persists(cfg, hit.strikes)
    ensures var w' := FailStep(cfg, w, ip, reason, now);
            && Key(ip) in w'.redis
            && SlotShows(cfg, w'.redis[Key(ip)].value, w'.strikes[ip].strikes, w'.strikes[ip].strikes)
  {
    var hit := FailStep(cfg, w, ip, reason, now).strikes[ip];
    EscalationIsMonotone(cfg, 0, hit.strikes);
    assert Encodes(hit, FailStep(cfg, w, ip, reason, now).redis[Key(ip)].value, hit.strikes);
  }

  lemma StruckShows(cfg: Config, w: World, ip: string, reason: string, now: Instant, v: int, bound: nat)
    requires 0 < cfg.threshold && (if ip in w.strikes then EntryShows(cfg, w.strikes[ip], now, v, bound) else v == 0)
    requires ip in w.strikes ==> !Active(w.strikes[ip], now)
    ensures EntryShows(cfg, FailStep(cfg, w, ip, reason, now).strikes[ip], now, v + 1, bound + 1)
    ensures StrikesAfterFailure(w, ip) == v + 1
  {
  }

  lemma NothingWritten(cfg: Config, w: World, ip: string, reason: string, now: Instant)
    requires 0 < cfg.threshold
    requires var hit := FailStep(cfg, w, ip, reason, now).strikes[ip]; 0 <= hit.strikes && !Persists(cfg, hit.strikes)
    ensures FailStep(cfg, w, ip, reason, now).redis == w.redis
  {
  }

  lemma FailureShows(cfg: Config, w: World, h: History, ip: string, reason: string, now: Instant, v: int, bound: nat)
    requires 0 < cfg.threshold && Shows(cfg, w, ip, now, v, h.pending, bound)
    requires cfg.withRedis ==> 48 * cfg.baseBan <= INT64_MAX && bound < INT64_MAX
    requires ip in w.strikes ==> !Active(w.strikes[ip], now)
    requires ip !in w.strikes ==> v == 0 && !LiveSlot(w, ip, now)
    ensures Shows(cfg, FailStep(cfg, w, ip, reason, now), ip, now, v + 1,
              AfterOutcome(cfg, w, h, Failed(reason), ip, now).pending, bound + 1)
  {
    StruckShows(cfg, w, ip, reason, now, v, bound);
    FailurePending(cfg, w, h, ip, reason, now, v);
    if Persists(cfg, v + 1) {
      WrittenFailure(cfg, w, ip, reason, now, v, bound);
    } else {
      UnwrittenFailure(cfg, w, ip, reason, now, v, h.pending, bound);
    }
  }

  lemma WrittenFailure(cfg: Config, w: World, ip: string, reason: string, now: Instant, v: int, bound: nat)
    requires 0 < cfg.threshold && 0 <= v && Persists(cfg, v + 1) && StrikesAfterFailure(w, ip) == v + 1
    requires EntryShows(cfg, FailStep(cfg, w, ip, reason, now).strikes[ip], now, v + 1, bound + 1)
    requires 48 * cfg.baseBan <= INT64_MAX && bound < INT64_MAX
    ensures Shows(cfg, FailStep(cfg, w, ip, reason, now), ip, now, v + 1, 0, bound + 1)
  {
    BanIsWritten(cfg, w, ip, reason, now);
    WrittenShows(cfg, FailStep(cfg, w, ip, reason, now), ip, now, v + 1, bound + 1);
  }

  lemma UnwrittenFailure(
      cfg: Config, w: World, ip: string, reason: string, now: Instant, v: int, pending: int, bound: nat)
    requires 0 < cfg.threshold && Shows(cfg, w, ip, now, v, pending, bound)
             && (ip !in w.strikes ==> v == 0 && !LiveSlot(w, ip, now))
    requires EntryShows(cfg, FailStep(cfg, w, ip, reason, now).strikes[ip], now, v + 1, bound + 1)
             && !Persists(cfg, v + 1)
    ensures Shows(cfg, FailStep(cfg, w, ip, reason, now), ip, now, v + 1,
              if LiveSlot(w, ip, now) then pending - 1 else pending, bound + 1)
  {
    NothingWritten(cfg, w, ip, reason, now);
    UnwrittenShows(cfg, w, FailStep(cfg, w, ip, reason, now), ip, now, v, pending, bound);
  }

  lemma FailurePending(cfg: Config, w: World, h: History, ip: string, reason: string, now: Instant, v: int)
    requires 0 < cfg.threshold && StrikesAfterFailure(w, ip) == v + 1 && 0 <= v
    ensures AfterOutcome(cfg, w, h, Failed(reason), ip, now).pending ==
            if Persists(cfg, v + 1) then 0 else if LiveSlot(w, ip, now) then h.pending - 1 else h.pending
  {
  }

  lemma WrittenShows(cfg: Config, w: World, ip: string, now: int, v: int, bound: nat)
    requires 0 < cfg.threshold && cfg.withRedis && ip in w.strikes && EntryShows(cfg, w.strikes[ip], now, v, bound)
    requires Key(ip) in w.redis && SlotShows(cfg, w.redis[Key(ip)].value, v, v)
    ensures Shows(cfg, w, ip, now, v, 0, bound)
  {
  }

  /** A failure that writes no record, with a live record ahead of memory. */
  lemma UnwrittenShows(cfg: Config, w: World, w': World, ip: string, now: int, v: int, pending: int, bound: nat)
    requires 0 < cfg.threshold && Shows(cfg, w, ip, now, v, pending, bound)
             && (ip !in w.strikes ==> v == 0 && !LiveSlot(w, ip, now))
    requires ip in w'.strikes && EntryShows(cfg, w'.strikes[ip], now, v + 1, bound + 1) && w'.redis == w.redis
             && !Persists(cfg, v + 1)
    ensures Shows(cfg, w', ip, now, v + 1, if LiveSlot(w, ip, now) then pending - 1 else pending, bound + 1)
  {
    if LiveSlot(w, ip, now) && pending == 0 {
      PersistsGrows(cfg, v);
    }
  }

  lemma SuccessShows(cfg: Config, w: World, h: History, ip: string, now: Instant, v: int, bound: nat)
    requires 0 < cfg.threshold && Shows(cfg, w, ip, now, v, h.pending, bound)
    requires ip in w.strikes && !Active(w.strikes[ip], now)
    ensures Shows(cfg, DecrementStep(cfg, w, ip), ip, now, v - 1,
              AfterOutcome(cfg, w, h, Authenticated, ip, now).pending, bound)
  {
    if w.strikes[ip].strikes <= 1 {
      LastSuccessShows(cfg, w, ip, now, v, AfterOutcome(cfg, w, h, Authenticated, ip, now).pending, bound);
    } else {
      EarlySuccessShows(cfg, w, ip, now, v, h.pending, bound);
    }
  }

  lemma LastSuccessShows(cfg: Config, w: World, ip: string, now: Instant, v: int, pending: int, bound: nat)
    requires 0 < cfg.threshold && ip in w.strikes && w.strikes[ip].strikes <= 1
             && (LiveSlot(w, ip, now) ==> cfg.withRedis)
    ensures Shows(cfg, DecrementStep(cfg, w, ip), ip, now, v - 1, pending, bound)
  {
    LastStrikeGone(cfg, w, ip, now);
    NothingShows(cfg, DecrementStep(cfg, w, ip), ip, now, v - 1, pending, bound);
  }

  lemma EarlySuccessShows(cfg: Config, w: World, ip: string, now: Instant, v: int, pending: int, bound: nat)
    requires 0 < cfg.threshold && Shows(cfg, w, ip, now, v, pending, bound)
    requires ip in w.strikes && 1 < w.strikes[ip].strikes && !Active(w.strikes[ip], now)
    ensures Shows(cfg, DecrementStep(cfg, w, ip), ip, now, v - 1,
              if LiveSlot(w, ip, now) then pending + 1 else pending, bound)
  {
    StrikeTaken(cfg, w, ip, now, v, bound);
    TakenShows(cfg, w, DecrementStep(cfg, w, ip), ip, now, v, pending, bound);
  }

  /** A success that leaves strikes, with a live record ahead of memory. */
  lemma TakenShows(cfg: Config, w: World, w': World, ip: string, now: int, v: int, pending: int, bound: nat)
    requires 0 < cfg.threshold && Shows(cfg, w, ip, now, v, pending, bound)
    requires ip in w'.strikes && EntryShows(cfg, w'.strikes[ip], now, v - 1, bound) && w'.redis == w.redis
    ensures Shows(cfg, w', ip, now, v - 1, if LiveSlot(w, ip, now) then pending + 1 else pending, bound)
  {
  }

  lemma NothingShows(cfg: Config, w: World, ip: string, now: int, v: int, pending: int, bound: nat)
    requires 0 < cfg.threshold && !Known(w, ip, now)
    ensures Shows(cfg, w, ip, now, v, pending, bound)
  {
  }

  lemma LastStrikeGone(cfg: Config, w: World, ip: string, now: Instant)
    requires ip in w.strikes && w.strikes[ip].strikes <= 1 && (LiveSlot(w, ip, now) ==> cfg.withRedis)
    ensures ip !in DecrementStep(cfg, w, ip).strikes && !LiveSlot(DecrementStep(cfg, w, ip), ip, now)
  {
  }

  lemma StrikeTaken(cfg: Config, w: World, ip: string, now: Instant, v: int, bound: nat)
    requires ip in w.strikes && 1 < w.strikes[ip].strikes && EntryShows(cfg, w.strikes[ip], now, v, bound)
             && !Active(w.strikes[ip], now)
    ensures var w' := DecrementStep(cfg, w, ip);
            ip in w'.strikes && EntryShows(cfg, w'.strikes[ip], now, v - 1, bound) && w'.redis == w.redis
  {
  }

  lemma UnrelatedShows(cfg: Config, w: World, e: Event, ip: string, v: int, pending: int, bound: nat)
    requires 0 < cfg.threshold && !Looks(e, ip) && Shows(cfg, w, ip, e.now, v, pending, bound)
    ensures Shows(cfg, Apply(cfg, w, e), ip, e.now, v, pending, bound)
  {
    UnrelatedSame(cfg, w, e, ip);
  }

  function ValueAfter(cfg: Config, w: World, h: History, e: Event, ip: string, v: int): int {
    (if Looks(e, ip) then ValueAfterLook(w, ip, e.now, v, h.pending) else v) + Delta(cfg, w, e, ip)
  }

  /** The event leaves memory and Redis showing what the new history and value say. */
  ghost predicate EventShown(cfg: Config, w: World, h: History, e: Event, ip: string, v: int, bound: nat, n: nat)
    requires 0 < cfg.threshold
  {
    Shows(cfg, Apply(cfg, w, e), ip, e.now, ValueAfter(cfg, w, h, e, ip, v), NextHistory(cfg, w, h, e, ip, n).pending,
      bound + 1)
  }

  /** A looked-up address that is not banned, before its request is concluded. */
  ghost predicate Ready(cfg: Config, looked: World, ip: string, now: int, v: int, pending: int, bound: nat)
    requires 0 < cfg.threshold
  {
    && Shows(cfg, looked, ip, now, v, pending, bound)
    && (if ip in looked.strikes then !Active(looked.strikes[ip], now) else v == 0 && !LiveSlot(looked, ip, now))
  }

  lemma FailedShows(cfg: Config, looked: World, h: History, e: Event, v: int, bound: nat)
    requires 0 < cfg.threshold && e.Request? && e.outcome.Failed?
             && Ready(cfg, looked, e.ip, e.now, v, h.pending, bound)
    requires cfg.withRedis ==> 48 * cfg.baseBan <= INT64_MAX && bound < INT64_MAX
    ensures Shows(cfg, Concluded(cfg, looked, e), e.ip, e.now, v + 1,
              AfterOutcome(cfg, looked, h, e.outcome, e.ip, e.now).pending, bound + 1)
  {
    FailureShows(cfg, looked, h, e.ip, e.outcome.reason, e.now, v, bound);
  }

  lemma KnownSuccessShows(cfg: Config, w: World, h: History, ip: string, now: Instant, v: int, bound: nat)
    requires 0 < cfg.threshold && Shows(cfg, w, ip, now, v, h.pending, bound)
    requires ip in w.strikes && !Active(w.strikes[ip], now)
    ensures Shows(cfg, DecrementStep(cfg, w, ip), ip, now, v - 1,
              AfterOutcome(cfg, w, h, Authenticated, ip, now).pending, bound + 1)
  {
    SuccessShows(cfg, w, h, ip, now, v, bound);
    ShowsLater(cfg, DecrementStep(cfg, w, ip), ip, now, now, v - 1,
      AfterOutcome(cfg, w, h, Authenticated, ip, now).pending, bound, bound + 1);
  }

  lemma UnknownSuccessShows(cfg: Config, w: World, ip: string, now: Instant, v: int, pending: int, bound: nat)
    requires 0 < cfg.threshold && !Known(w, ip, now)
    ensures Shows(cfg, DecrementStep(cfg, w, ip), ip, now, v, pending, bound)
  {
    NothingShows(cfg, w, ip, now, v, pending, bound);
  }

  lemma AuthenticatedShows(cfg: Config, looked: World, h: History, e: Event, v: int, bound: nat)
    requires 0 < cfg.threshold && e.Request? && e.outcome.Authenticated?
             && Ready(cfg, looked, e.ip, e.now, v, h.pending, bound)
    ensures Shows(cfg, Concluded(cfg, looked, e), e.ip, e.now, v - 1,
              AfterOutcome(cfg, looked, h, e.outcome, e.ip, e.now).pending, bound + 1)
  {
    var pending := AfterOutcome(cfg, looked, h, Authenticated, e.ip, e.now).pending;
    if e.ip in looked.strikes {
      KnownSuccessShows(cfg, looked, h, e.ip, e.now, v, bound);
    } else {
      UnknownSuccessShows(cfg, looked, e.ip, e.now, v - 1, pending, bound + 1);
    }
  }

  lemma RequestShows(cfg: Config, looked: World, h: History, e: Event, v: int, bound: nat)
    requires 0 < cfg.threshold && e.Request? && Ready(cfg, looked, e.ip, e.now, v, h.pending, bound)
    requires cfg.withRedis ==> 48 * cfg.baseBan <= INT64_MAX && bound < INT64_MAX
    ensures Shows(cfg, Concluded(cfg, looked, e), e.ip, e.now, v + Weight(e.outcome),
              AfterOutcome(cfg, looked, h, e.outcome, e.ip, e.now).pending, bound + 1)
  {
    match e.outcome
    case Untouched => ShowsLater(cfg, looked, e.ip, e.now, e.now, v, h.pending, bound, bound + 1);
    case Failed(_) => FailedShows(cfg, looked, h, e, v, bound);
    case Authenticated => AuthenticatedShows(cfg, looked, h, e, v, bound);
  }

  lemma PassedStep(cfg: Config, w: World, h: History, e: Event, n: nat)
    requires 0 < cfg.threshold && e.Request? && !e.exempt && !Refuses(cfg, w, e)
    ensures var looked := LookStep(cfg, w, e.ip, e.now);
            && Apply(cfg, w, e) == Concluded(cfg, looked, e) && Delta(cfg, w, e, e.ip) == Weight(e.outcome)
            && NextHistory(cfg, w, h, e, e.ip, n)
              == AfterOutcome(cfg, looked, AfterLook(w, h, e.ip, e.now, n), e.outcome, e.ip, e.now)
  {
  }

  lemma PassedShown(cfg: Config, w: World, h: History, e: Event, v: int, bound: nat, n: nat)
    requires 0 < cfg.threshold && e.Request? && !e.exempt && !Refuses(cfg, w, e)
    requires Shows(cfg, w, e.ip, e.now, v, h.pending, bound)
    requires cfg.withRedis ==> 48 * cfg.baseBan <= INT64_MAX && bound < INT64_MAX
    ensures EventShown(cfg, w, h, e, e.ip, v, bound, n)
  {
    var looked, h' := LookStep(cfg, w, e.ip, e.now), AfterLook(w, h, e.ip, e.now, n);
    LookShows(cfg, w, h, e.ip, e.now, v, bound, n);
    LookedUp(cfg, w, e);
    PassedStep(cfg, w, h, e, n);
    RequestShows(cfg, looked, h', e, ValueAfterLook(w, e.ip, e.now, v, h.pending), bound);
  }

  lemma RefusedStep(cfg: Config, w: World, h: History, e: Event, n: nat)
    requires 0 < cfg.threshold && Refuses(cfg, w, e)
    ensures Apply(cfg, w, e) == LookStep(cfg, w, e.ip, e.now) && Delta(cfg, w, e, e.ip) == 0
    ensures NextHistory(cfg, w, h, e, e.ip, n) == AfterLook(w, h, e.ip, e.now, n)
  {
  }

  lemma RefusedShown(cfg: Config, w: World, h: History, e: Event, v: int, bound: nat, n: nat)
    requires 0 < cfg.threshold && Refuses(cfg, w, e) && Shows(cfg, w, e.ip, e.now, v, h.pending, bound)
    ensures EventShown(cfg, w, h, e, e.ip, v, bound, n)
  {
    LookShows(cfg, w, h, e.ip, e.now, v, bound, n);
    RefusedStep(cfg, w, h, e, n);
    ShowsLater(cfg, Apply(cfg, w, e), e.ip, e.now, e.now, ValueAfterLook(w, e.ip, e.now, v, h.pending),
      NextHistory(cfg, w, h, e, e.ip, n).pending, bound, bound + 1);
  }

  lemma UnrelatedShown(cfg: Config, w: World, h: History, e: Event, ip: string, v: int, bound: nat, n: nat)
    requires 0 < cfg.threshold && !Looks(e, ip) && Shows(cfg, w, ip, e.now, v, h.pending, bound)
    ensures EventShown(cfg, w, h, e, ip, v, bound, n)
  {
    UnrelatedShows(cfg, w, e, ip, v, h.pending, bound);
    ShowsLater(cfg, Apply(cfg, w, e), ip, e.now, e.now, v, h.pending, bound, bound + 1);
    UnrelatedStep(cfg, w, h, e, ip, v, n);
  }

  lemma UnrelatedStep(cfg: Config, w: World, h: History, e: Event, ip: string, v: int, n: nat)
    requires 0 < cfg.threshold && !Looks(e, ip)
    ensures NextHistory(cfg, w, h, e, ip, n) == h && ValueAfter(cfg, w, h, e, ip, v) == v
  {
  }

  lemma EventShows(cfg: Config, w: World, h: History, e: Event, ip: string, v: int, bound: nat, n: nat)
    requires 0 < cfg.threshold && Shows(cfg, w, ip, e.now, v, h.pending, bound)
    requires cfg.withRedis ==> 48 * cfg.baseBan <= INT64_MAX && bound < INT64_MAX
    ensures EventShown(cfg, w, h, e, ip, v, bound, n)
  {
    if !Looks(e, ip) {
      UnrelatedShown(cfg, w, h, e, ip, v, bound, n);
    } else if Refuses(cfg, w, e) {
      RefusedShown(cfg, w, h, e, v, bound, n);
    } else {
      PassedShown(cfg, w, h, e, v, bound, n);
    }
  }

  /** What the guard has found stands in memory, and is an active ban exactly when the request is refused. */
  lemma LookedUp(cfg: Config, w: World, e: Event)
    requires e.Request? && !e.exempt
    ensures var looked := LookStep(cfg, w, e.ip, e.now);
            Refuses(cfg, w, e) <==> e.ip in looked.strikes && Active(looked.strikes[e.ip], e.now)
  {
  }

  // ---------- the net value follows the events ----------

  lemma NetSame(cfg: Config, events: seq<Event>, e: Event, ip: string, h: History, h': History)
    requires 0 < cfg.threshold && h.since <= |events| && h'.since == h.since
    ensures Net(cfg, events + [e], ip, h')
            == Net(cfg, events, ip, h) + Delta(cfg, Run(cfg, events), e, ip) + h'.forgotten - h.forgotten
  {
    var all := events + [e];
    assert all[..|events|] == events && all[..h.since] == events[..h.since];
  }

  lemma NetFresh(cfg: Config, events: seq<Event>, e: Event, ip: string, h: History)
    requires 0 < cfg.threshold && h.since == |events| && h.forgotten == 0
    ensures Net(cfg, events + [e], ip, h) == Delta(cfg, Run(cfg, events), e, ip)
  {
    assert (events + [e])[..|events|] == events;
  }

  lemma HistorySnoc(cfg: Config, events: seq<Event>, e: Event, ip: string)
    requires 0 < cfg.threshold
    ensures Run(cfg, events + [e]) == Apply(cfg, Run(cfg, events), e)
    ensures HistoryOf(cfg, events + [e], ip)
            == NextHistory(cfg, Run(cfg, events), HistoryOf(cfg, events, ip), e, ip, |events|)
  {
    assert (events + [e])[..|events|] == events;
  }

  /** The outcome of a request changes neither the creation nor what was forgotten. */
  lemma OutcomeKeeps(cfg: Config, w: World, h: History, e: Event, ip: string, n: nat)
    requires 0 < cfg.threshold
    ensures var h' := NextHistory(cfg, w, h, e, ip, n);
            var looked := if Looks(e, ip) then AfterLook(w, h, ip, e.now, n) else h;
            h'.since == looked.since && h'.forgotten == looked.forgotten
  {
  }

  lemma NetSnoc(cfg: Config, events: seq<Event>, e: Event, ip: string)
    requires 0 < cfg.threshold
    ensures var h := HistoryOf(cfg, events, ip);
            Net(cfg, events + [e], ip, HistoryOf(cfg, events + [e], ip))
              == ValueAfter(cfg, Run(cfg, events), h, e, ip, Net(cfg, events, ip, h))
  {
    var w, h := Run(cfg, events), HistoryOf(cfg, events, ip);
    HistorySnoc(cfg, events, e, ip);
    OutcomeKeeps(cfg, w, h, e, ip, |events|);
    NetOfNext(cfg, events, e, ip, w, h, NextHistory(cfg, w, h, e, ip, |events|));
  }

  lemma NetOfNext(cfg: Config, events: seq<Event>, e: Event, ip: string, w: World, h: History, h': History)
    requires 0 < cfg.threshold && w == Run(cfg, events) && h.since <= |events|
    requires var looked := if Looks(e, ip) then AfterLook(w, h, ip, e.now, |events|) else h;
             h'.since == looked.since && h'.forgotten == looked.forgotten
    ensures Net(cfg, events + [e], ip, h') == ValueAfter(cfg, w, h, e, ip, Net(cfg, events, ip, h))
  {
    if Looks(e, ip) && ip !in w.strikes && !LiveSlot(w, ip, e.now) {
      NetFresh(cfg, events, e, ip, h');
    } else {
      NetSame(cfg, events, e, ip, h, h');
    }
  }

  ghost predicate Ordered(events: seq<Event>, now: int) {
    (forall i, j :: 0 <= i < j < |events| ==> events[i].now <= events[j].now) &&
    (forall i :: 0 <= i < |events| ==> events[i].now <= now)
  }

  ghost predicate Accounted(cfg: Config, events: seq<Event>, ip: string, now: int)
    requires 0 < cfg.threshold
  {
    var h := HistoryOf(cfg, events, ip);
    Shows(cfg, Run(cfg, events), ip, now, Net(cfg, events, ip, h), h.pending, |events|) && 0 <= h.forgotten
  }

  lemma ForgottenGrows(cfg: Config, w: World, h: History, e: Event, ip: string, v: int, bound: nat, n: nat)
    requires 0 < cfg.threshold && Shows(cfg, w, ip, e.now, v, h.pending, bound) && 0 <= h.forgotten
    ensures 0 <= NextHistory(cfg, w, h, e, ip, n).forgotten
  {
    OutcomeKeeps(cfg, w, h, e, ip, n);
    if Looks(e, ip) && ip !in w.strikes {
      FoundWhileLive(cfg, w, ip, e.now, v, h.pending, bound);
    }
  }

  lemma AccountedSnoc(cfg: Config, events: seq<Event>, e: Event, ip: string)
    requires Fits(cfg, events + [e]) && Accounted(cfg, events, ip, e.now)
    ensures Accounted(cfg, events + [e], ip, e.now)
  {
    var w, h := Run(cfg, events), HistoryOf(cfg, events, ip);
    var v := Net(cfg, events, ip, h);
    EventShows(cfg, w, h, e, ip, v, |events|, |events|);
    ForgottenGrows(cfg, w, h, e, ip, v, |events|, |events|);
    NetSnoc(cfg, events, e, ip);
    HistorySnoc(cfg, events, e, ip);
  }

  lemma AccountedLater(cfg: Config, events: seq<Event>, ip: string, now: int, later: int)
    requires 0 < cfg.threshold && Accounted(cfg, events, ip, now) && now <= later
    ensures Accounted(cfg, events, ip, later)
  {
    var h := HistoryOf(cfg, events, ip);
    ShowsLater(cfg, Run(cfg, events), ip, now, later, Net(cfg, events, ip, h), h.pending, |events|, |events|);
  }

  lemma {:induction false} AlwaysShows(cfg: Config, events: seq<Event>, ip: string, now: Instant)
    requires Fits(cfg, events) && Ordered(events, now)
    ensures Accounted(cfg, events, ip, now)
  {
    if events != [] {
      var n := |events| - 1;
      var init, e := events[..n], events[n];
      assert events == init + [e];
      AlwaysShows(cfg, init, ip, e.now);
      AccountedSnoc(cfg, init, e, ip);
      AccountedLater(cfg, events, ip, e.now, now);
    }
  }

  // ---------- since when a record exists ----------

  predicate Known(w: World, ip: string, now: int) {
    ip in w.strikes || LiveSlot(w, ip, now)
  }

  predicate FoundAt(cfg: Config, events: seq<Event>, ip: string, i: nat)
    requires 0 < cfg.threshold && i < |events|
  {
    Known(Run(cfg, events[..i]), ip, events[i].now)
  }

  /** The lookup at `since` found nothing in memory or Redis, and every later one found a record. */
  ghost predicate CreatedAt(cfg: Config, events: seq<Event>, ip: string, since: nat)
    requires 0 < cfg.threshold
  {
    && since < |events| && Looks(events[since], ip) && !FoundAt(cfg, events, ip, since)
    && forall j: nat :: since < j < |events| && Looks(events[j], ip) ==> FoundAt(cfg, events, ip, j)
  }

  ghost predicate NeverLooked(events: seq<Event>, ip: string) {
    forall i :: 0 <= i < |events| ==> !Looks(events[i], ip)
  }

  lemma {:induction false} NothingUnlooked(cfg: Config, events: seq<Event>, ip: string)
    requires 0 < cfg.threshold && NeverLooked(events, ip)
    ensures ip !in Run(cfg, events).strikes && Key(ip) !in Run(cfg, events).redis
  {
    if events != [] {
      var n := |events| - 1;
      NothingUnlooked(cfg, events[..n], ip);
      UnrelatedSame(cfg, Run(cfg, events[..n]), events[n], ip);
    }
  }

  lemma CreatedEarlier(cfg: Config, events: seq<Event>, e: Event, ip: string, since: nat)
    requires 0 < cfg.threshold && CreatedAt(cfg, events, ip, since)
    requires Looks(e, ip) ==> Known(Run(cfg, events), ip, e.now)
    ensures CreatedAt(cfg, events + [e], ip, since)
  {
    var all := events + [e];
    forall j: nat | j < |all|
      ensures all[..j] == if j < |events| then events[..j] else events
    {
    }
    assert FoundAt(cfg, all, ip, since) == FoundAt(cfg, events, ip, since);
    forall j: nat | since < j < |all| && Looks(all[j], ip)
      ensures FoundAt(cfg, all, ip, j)
    {
      if j < |events| {
        assert FoundAt(cfg, events, ip, j);
      }
    }
  }

  lemma CreatedNow(cfg: Config, events: seq<Event>, e: Event, ip: string)
    requires 0 < cfg.threshold && Looks(e, ip) && !Known(Run(cfg, events), ip, e.now)
    ensures CreatedAt(cfg, events + [e], ip, |events|)
  {
    assert (events + [e])[..|events|] == events;
  }

  lemma SinceSnoc(cfg: Config, events: seq<Event>, e: Event, ip: string)
    requires 0 < cfg.threshold
    requires NeverLooked(events, ip) || CreatedAt(cfg, events, ip, HistoryOf(cfg, events, ip).since)
    ensures NeverLooked(events + [e], ip) || CreatedAt(cfg, events + [e], ip, HistoryOf(cfg, events + [e], ip).since)
  {
    var w, h := Run(cfg, events), HistoryOf(cfg, events, ip);
    HistorySnoc(cfg, events, e, ip);
    OutcomeKeeps(cfg, w, h, e, ip, |events|);
    if NeverLooked(events, ip) {
      NothingUnlooked(cfg, events, ip);
    }
    if Looks(e, ip) && !Known(w, ip, e.now) {
      CreatedNow(cfg, events, e, ip);
    } else if !NeverLooked(events, ip) {
      CreatedEarlier(cfg, events, e, ip, h.since);
    }
  }

  lemma {:induction false} SinceIsCreation(cfg: Config, events: seq<Event>, ip: string)
    requires 0 < cfg.threshold
    ensures NeverLooked(events, ip) || CreatedAt(cfg, events, ip, HistoryOf(cfg, events, ip).since)
  {
    if events != [] {
      var n := |events| - 1;
      SinceIsCreation(cfg, events[..n], ip);
      SinceSnoc(cfg, events[..n], events[n], ip);
      assert events == events[..n] + [events[n]];
    }
  }

  lemma RecordWasCreated(cfg: Config, events: seq<Event>, ip: string, now: Instant)
    requires 0 < cfg.threshold && Consulted(cfg, Run(cfg, events), ip, now).Some?
    ensures CreatedAt(cfg, events, ip, HistoryOf(cfg, events, ip).since)
  {
    SinceIsCreation(cfg, events, ip);
    if NeverLooked(events, ip) {
      NothingUnlooked(cfg, events, ip);
    }
  }

  // ---------- what a ban takes, exactly ----------

  /** The strikes of an address are its failures minus its successes since its record was created, plus the
      successes that reloads from Redis have forgotten, over every run of requests, cleanups and restarts. */
  lemma StrikesAreExact(cfg: Config, events: seq<Event>, ip: string, now: Instant)
    requires Fits(cfg, events) && Ordered(events, now) && ip in Run(cfg, events).strikes
    ensures var h := HistoryOf(cfg, events, ip);
            && CreatedAt(cfg, events, ip, h.since) && 0 <= h.forgotten
            && Run(cfg, events).strikes[ip].strikes
               == Balance(cfg, events, ip) - Balance(cfg, events[..h.since], ip) + h.forgotten
  {
    AlwaysShows(cfg, events, ip, now);
    RecordWasCreated(cfg, events, ip, now);
  }
}
