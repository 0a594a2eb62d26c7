/** What revocation guarantees over every run of revocations, checks, cleanups and restarts. */
module RevocationRuns {
  import opened Wrappers
  import opened Clock
  import opened Revocation
  import Redis
  import Sequences
  import Token

  datatype Event =
    | Revoke(subject: string, reason: string, now: Instant)
    | Check(subject: string, issuedAt: int, now: Instant)
    | CleanUp(now: Instant)
    | Restart(now: Instant)

  function Apply(cfg: Config, w: World, e: Event): World {
    match e
    case Revoke(subject, reason, now) => RevokeStep(cfg, w, subject, reason, now)
    case Check(subject, _, now) => CheckStep(cfg, w, subject, now)
    case CleanUp(now) => CleanupStep(w, now)
    case Restart(_) => w.(entries := map[])
  }

  function Run(cfg: Config, events: seq<Event>): World {
    if events == [] then World(map[], map[])
    else Apply(cfg, Run(cfg, events[..|events| - 1]), events[|events| - 1])
  }

  lemma RunSnoc(cfg: Config, events: seq<Event>, e: Event)
    ensures Run(cfg, events + [e]) == Apply(cfg, Run(cfg, events), e)
  {
    assert (events + [e])[..|events|] == events;
  }

  function Asked(cfg: Config, events: seq<Event>, subject: string, issuedAt: int, now: Instant): Verdict {
    VerdictOf(Consulted(cfg, Run(cfg, events), subject, now), issuedAt)
  }

  ghost predicate Ordered(events: seq<Event>, now: Instant) {
    (forall i, j :: 0 <= i < j < |events| ==> events[i].now <= events[j].now) &&
    (forall i :: 0 <= i < |events| ==> events[i].now <= now)
  }

  // ---------- refusals have a reason ----------

  predicate RevokedAtSecond(e: Event, subject: string, second: int) {
    e.Revoke? && e.subject == subject && Unix(e.now) == second
  }

  ghost predicate Happened(events: seq<Event>, subject: string, second: int) {
    exists i :: 0 <= i < |events| && RevokedAtSecond(events[i], subject, second)
  }

  /** Whatever memory and Redis say about the subject stems from a revocation in the run. */
  ghost predicate Justified(w: World, events: seq<Event>, subject: string) {
    MemoryJustified(w, events, subject) && RedisJustified(w, events, subject)
  }

  ghost predicate MemoryJustified(w: World, events: seq<Event>, subject: string) {
    subject in w.entries ==> Happened(events, subject, Unix(w.entries[subject].revokedAt))
  }

  ghost predicate RedisJustified(w: World, events: seq<Event>, subject: string) {
    Key(subject) in w.redis ==>
      var val := DecodeValue(w.redis[Key(subject)].value);
      val.Some? && Happened(events, subject, val.value.0)
  }

  lemma HappenedLater(events: seq<Event>, e: Event, subject: string, second: int)
    ensures Happened(events, subject, second) ==> Happened(events + [e], subject, second)
    ensures RevokedAtSecond(e, subject, second) ==> Happened(events + [e], subject, second)
  {
    assert (events + [e])[|events|] == e;
    if Happened(events, subject, second) {
      var i :| 0 <= i < |events| && RevokedAtSecond(events[i], subject, second);
      assert (events + [e])[i] == events[i];
    }
  }

  lemma JustifiedLater(w: World, events: seq<Event>, e: Event, subject: string)
    requires Justified(w, events, subject)
    ensures Justified(w, events + [e], subject)
  {
    if subject in w.entries {
      HappenedLater(events, e, subject, Unix(w.entries[subject].revokedAt));
    }
    if Key(subject) in w.redis {
      HappenedLater(events, e, subject, DecodeValue(w.redis[Key(subject)].value).value.0);
    }
  }

  lemma RevokeOther(cfg: Config, w: World, e: Event, subject: string)
    requires e.Revoke? && e.subject != subject
    ensures var w' := Apply(cfg, w, e);
            && (subject in w'.entries <==> subject in w.entries)
            && (subject in w.entries ==> w'.entries[subject] == w.entries[subject])
            && (Key(subject) in w'.redis <==> Key(subject) in w.redis)
            && (Key(subject) in w.redis ==> w'.redis[Key(subject)] == w.redis[Key(subject)])
  {
    Sequences.PrefixCancels(PREFIX, e.subject, subject);
  }

  /** A revocation leaves the subject as it was, or writes its own second in memory and, where it reaches
      Redis, there too. */
  lemma RevokeOwn(cfg: Config, w: World, e: Event)
    requires e.Revoke?
    ensures var w' := Apply(cfg, w, e);
            && (w' == w || (e.subject in w'.entries && w'.entries[e.subject].revokedAt == e.now))
            && (Key(e.subject) in w'.redis ==>
                  (Key(e.subject) in w.redis && w'.redis[Key(e.subject)] == w.redis[Key(e.subject)])
                  || w'.redis[Key(e.subject)].value == EncodeValue(e.now, e.reason))
  {
  }

  lemma RevokeJustifies(cfg: Config, w: World, events: seq<Event>, e: Event, subject: string)
    requires Justified(w, events + [e], subject) && e.Revoke?
    ensures Justified(Apply(cfg, w, e), events + [e], subject)
  {
    if e.subject == subject {
      HappenedLater(events, e, subject, Unix(e.now));
      RevokeOwn(cfg, w, e);
      DecodeOfEncode(e.now, e.reason);
    } else {
      RevokeOther(cfg, w, e, subject);
    }
  }

  lemma OtherJustifies(cfg: Config, w: World, events: seq<Event>, e: Event, subject: string)
    requires Justified(w, events, subject) && !e.Revoke?
    ensures Justified(Apply(cfg, w, e), events, subject)
  {
  }

  lemma {:induction false} RunIsJustified(cfg: Config, events: seq<Event>, subject: string)
    ensures Justified(Run(cfg, events), events, subject)
  {
    if events != [] {
      var init, e := events[..|events| - 1], events[|events| - 1];
      assert events == init + [e];
      RunIsJustified(cfg, init, subject);
      JustifiedLater(Run(cfg, init), init, e, subject);
      if e.Revoke? {
        RevokeJustifies(cfg, Run(cfg, init), init, e, subject);
      } else {
        OtherJustifies(cfg, Run(cfg, init), events, e, subject);
      }
    }
  }

  /** A token is only ever refused because of a revocation of its subject at or after its issue second. */
  lemma RefusedHasReason(cfg: Config, events: seq<Event>, subject: string, issuedAt: int, now: Instant)
    requires Asked(cfg, events, subject, issuedAt, now).revoked
    ensures exists second :: Happened(events, subject, second) && issuedAt <= second
  {
    RunIsJustified(cfg, events, subject);
    var e := Consulted(cfg, Run(cfg, events), subject, now).value;
    assert Happened(events, subject, Unix(e.revokedAt));
  }

  // ---------- revocations last ----------

  /** Nothing recorded about the subject lies in the future. */
  predicate Past(w: World, subject: string, now: int) {
    (subject in w.entries ==> w.entries[subject].revokedAt <= now) &&
    (Key(subject) in w.redis ==>
       DecodeValue(w.redis[Key(subject)].value).Some?
         && DecodeValue(w.redis[Key(subject)].value).value.0 * SECOND <= now)
  }

  lemma RevokeStaysPast(cfg: Config, w: World, e: Event, subject: string)
    requires e.Revoke? && Past(w, subject, e.now)
    ensures Past(Apply(cfg, w, e), subject, e.now)
  {
    if e.subject == subject {
      RevokeOwn(cfg, w, e);
      DecodeOfEncode(e.now, e.reason);
      UnixMonotone(e.now, e.now);
    } else {
      RevokeOther(cfg, w, e, subject);
    }
  }

  lemma StaysPast(cfg: Config, w: World, e: Event, subject: string)
    requires Past(w, subject, e.now)
    ensures Past(Apply(cfg, w, e), subject, e.now)
  {
    if e.Revoke? {
      RevokeStaysPast(cfg, w, e, subject);
    }
  }

  lemma {:induction false} RunStaysPast(cfg: Config, events: seq<Event>, subject: string, now: Instant)
    requires Ordered(events, now)
    ensures Past(Run(cfg, events), subject, now)
  {
    if events != [] {
      var init, e := events[..|events| - 1], events[|events| - 1];
      RunStaysPast(cfg, init, subject, e.now);
      StaysPast(cfg, Run(cfg, init), e, subject);
    }
  }

  predicate SlotCovers(slot: Redis.Slot, second: int, until: int) {
    && DecodeValue(slot.value).Some? && DecodeValue(slot.value).value.0 >= second
    && (slot.expiresAt.Some? ==> slot.expiresAt.value >= until)
  }

  /** The revocation of `subject` at `at` is still on record. */
  predicate InForce(cfg: Config, w: World, subject: string, at: Instant, now: int) {
    && (subject in w.entries ==> Unix(w.entries[subject].revokedAt) >= Unix(at))
    && if cfg.withRedis
       then Key(subject) in w.redis
         && SlotCovers(w.redis[Key(subject)], Unix(at), at + WholeSeconds(cfg.maxTTL) * SECOND)
       else now > at + cfg.maxTTL || (subject in w.entries && w.entries[subject].expiresAt >= at + cfg.maxTTL)
  }

  lemma RevokePutsInForce(cfg: Config, w: World, e: Event)
    requires e.Revoke? && Past(w, e.subject, e.now) && (cfg.withRedis ==> WholeSeconds(cfg.maxTTL) > 0)
    ensures InForce(cfg, Apply(cfg, w, e), e.subject, e.now, e.now)
  {
    DecodeOfEncode(e.now, e.reason);
  }

  lemma RevokeKeepsForce(cfg: Config, w: World, e: Event, subject: string, at: Instant)
    requires e.Revoke? && Past(w, e.subject, e.now) && (cfg.withRedis ==> WholeSeconds(cfg.maxTTL) > 0)
    requires at <= e.now && InForce(cfg, w, subject, at, e.now)
    ensures InForce(cfg, Apply(cfg, w, e), subject, at, e.now)
  {
    if e.subject == subject {
      RevokePutsInForce(cfg, w, e);
      UnixMonotone(at, e.now);
    } else {
      Sequences.PrefixCancels(PREFIX, e.subject, subject);
    }
  }

  lemma OtherKeepsForce(cfg: Config, w: World, e: Event, subject: string, at: Instant)
    requires !e.Revoke? && at <= e.now && InForce(cfg, w, subject, at, e.now)
    requires e.Restart? ==> cfg.withRedis
    ensures InForce(cfg, Apply(cfg, w, e), subject, at, e.now)
  {
  }

  ghost predicate NoRestart(events: seq<Event>) {
    forall i :: 0 <= i < |events| ==> !events[i].Restart?
  }

  lemma OrderedInit(events: seq<Event>, e: Event, now: Instant)
    requires Ordered(events + [e], now)
    ensures Ordered(events, e.now) && e.now <= now
  {
    var all := events + [e];
    assert all[|events|] == e;
    assert forall i :: 0 <= i < |events| ==> all[i] == events[i];
  }

  lemma ForceLater(cfg: Config, w: World, subject: string, at: Instant, now: int, later: int)
    requires InForce(cfg, w, subject, at, now) && now <= later
    ensures InForce(cfg, w, subject, at, later)
  {
  }

  lemma {:induction false} ForceLasts(cfg: Config, before: seq<Event>, revoke: Event, after: seq<Event>, now: Instant)
    requires revoke.Revoke? && (cfg.withRedis ==> WholeSeconds(cfg.maxTTL) > 0)
    requires Ordered(before + [revoke] + after, now)
    requires cfg.withRedis || NoRestart(after)
    ensures InForce(cfg, Run(cfg, before + [revoke] + after), revoke.subject, revoke.now, now)
    decreases |after|
  {
    var start := before + [revoke];
    if after == [] {
      assert start + after == start;
      OrderedInit(before, revoke, now);
      RunSnoc(cfg, before, revoke);
      RunStaysPast(cfg, before, revoke.subject, revoke.now);
      RevokePutsInForce(cfg, Run(cfg, before), revoke);
      ForceLater(cfg, Run(cfg, start), revoke.subject, revoke.now, revoke.now, now);
    } else {
      var shorter, e := after[..|after| - 1], after[|after| - 1];
      var init := start + shorter;
      assert start + after == init + [e];
      OrderedInit(init, e, now);
      assert init[|before|] == revoke;
      ForceLasts(cfg, before, revoke, shorter, e.now);
      RunSnoc(cfg, init, e);
      if e.Revoke? {
        RunStaysPast(cfg, init, e.subject, e.now);
        RevokeKeepsForce(cfg, Run(cfg, init), e, revoke.subject, revoke.now);
      } else {
        OtherKeepsForce(cfg, Run(cfg, init), e, revoke.subject, revoke.now);
      }
      ForceLater(cfg, Run(cfg, init + [e]), revoke.subject, revoke.now, e.now, now);
    }
  }

  lemma ForceRefuses(cfg: Config, w: World, subject: string, at: Instant, issuedAt: int, now: Instant)
    requires InForce(cfg, w, subject, at, now) && issuedAt <= Unix(at)
    requires now < at + WholeSeconds(cfg.maxTTL) * SECOND
    ensures VerdictOf(Consulted(cfg, w, subject, now), issuedAt).revoked
  {
    if subject !in w.entries {
      var slot := w.redis[Key(subject)];
      assert Redis.Live(slot, now);
      assert slot.value != "";
    }
  }

  /** Revocation safety: after a revocation, a token of the subject issued no later than that second is
      refused at every instant before its expiry, whatever revocations, checks, cleanups and, with Redis,
      restarts lie in between. The lifetime bound is the one token creation enforces. */
  lemma RevokedStaysRefused(
      cfg: Config, before: seq<Event>, revoke: Event, after: seq<Event>, claims: Token.Claims, now: Instant)
    requires revoke.Revoke? && Ordered(before + [revoke] + after, now)
    requires cfg.withRedis || NoRestart(after)
    requires claims.sub == revoke.subject && claims.iat <= Unix(revoke.now)
    requires claims.exp <= claims.iat + WholeSeconds(cfg.maxTTL) && Unix(now) < claims.exp
    ensures Asked(cfg, before + [revoke] + after, claims.sub, claims.iat, now).revoked
  {
    assert (before + [revoke] + after)[|before|] == revoke;
    UnixMonotone(revoke.now, now);
    ForceLasts(cfg, before, revoke, after, now);
    ForceRefuses(cfg, Run(cfg, before + [revoke] + after), revoke.subject, revoke.now, claims.iat, now);
  }

  /** A check that finds the revocation in Redis after a restart brings it back into memory, where it stays until a
      sweep: the subject is then refused however late it comes, although the record lapses. */
  lemma CheckBringsBack(cfg: Config, subject: string, reason: string, at: Instant, restart: Instant, check: Instant,
                        now: Instant)
    requires cfg.withRedis && at <= restart <= check < at + WholeSeconds(cfg.maxTTL) * SECOND && check <= now
    ensures var events := [Revoke(subject, reason, at), Restart(restart), Check(subject, 0, check)];
            Asked(cfg, events, subject, Unix(at), now) == Verdict(true, reason)
  {
    var a, b, c := Revoke(subject, reason, at), Restart(restart), Check(subject, 0, check);
    RunSnoc(cfg, [], a);
    RunSnoc(cfg, [a], b);
    RunSnoc(cfg, [a, b], c);
    assert [] + [a] == [a] && [a] + [b] == [a, b] && [a, b] + [c] == [a, b, c];
    var empty := World(map[], map[]);
    ReasonOutlivesRestart(cfg, empty, subject, reason, at, check);
    var restarted := RevokeStep(cfg, empty, subject, reason, at).(entries := map[]);
    CheckRemembers(cfg, restarted, subject, check, restarted.redis, now);
  }

  // ---------- when refusal ends, exactly ----------

  /** The instant at which Redis drops the record of a revocation. */
  function RecordEnd(cfg: Config, at: Instant): int {
    at + WholeSeconds(cfg.maxTTL) * SECOND
  }

  ghost predicate AlwaysRefused(cfg: Config, before: seq<Event>, revoke: Event, issuedAt: int, now: Instant)
    requires revoke.Revoke?
  {
    forall after :: Ordered(before + [revoke] + after, now) ==>
      Asked(cfg, before + [revoke] + after, revoke.subject, issuedAt, now).revoked
  }

  lemma RevokeWritesRecord(cfg: Config, w: World, e: Event)
    requires e.Revoke? && Past(w, e.subject, e.now) && cfg.withRedis && WholeSeconds(cfg.maxTTL) > 0
    ensures var w' := Apply(cfg, w, e);
            Key(e.subject) in w'.redis && w'.redis[Key(e.subject)].expiresAt == Some(RecordEnd(cfg, e.now))
  {
  }

  lemma NothingLeft(cfg: Config, w: World, subject: string, issuedAt: int, now: Instant)
    requires subject !in w.entries && Key(subject) in w.redis && !Redis.Live(w.redis[Key(subject)], now)
    ensures !VerdictOf(Consulted(cfg, w, subject, now), issuedAt).revoked
  {
    assert Redis.Get(w.redis, Key(subject), now) == None;
  }

  lemma RevocationOnRecord(cfg: Config, before: seq<Event>, revoke: Event, now: Instant)
    requires revoke.Revoke? && cfg.withRedis && WholeSeconds(cfg.maxTTL) > 0 && Ordered(before + [revoke], now)
    ensures var w := Run(cfg, before + [revoke]);
            Key(revoke.subject) in w.redis && w.redis[Key(revoke.subject)].expiresAt == Some(RecordEnd(cfg, revoke.now))
  {
    OrderedInit(before, revoke, now);
    RunStaysPast(cfg, before, revoke.subject, revoke.now);
    RunSnoc(cfg, before, revoke);
    RevokeWritesRecord(cfg, Run(cfg, before), revoke);
  }

  lemma RestartLeavesRedis(cfg: Config, events: seq<Event>, subject: string, issuedAt: int, end: int, now: Instant)
    requires Key(subject) in Run(cfg, events).redis && Run(cfg, events).redis[Key(subject)].expiresAt == Some(end)
             && end <= now
    ensures !Asked(cfg, events + [Restart(now)], subject, issuedAt, now).revoked
  {
    RunSnoc(cfg, events, Restart(now));
    NothingLeft(cfg, Run(cfg, events + [Restart(now)]), subject, issuedAt, now);
  }

  lemma OrderedSnoc(events: seq<Event>, e: Event)
    requires Ordered(events, e.now)
    ensures Ordered(events + [e], e.now)
  {
  }

  /** A restart after the record's end leaves nothing of the revocation. */
  lemma RestartForgets(cfg: Config, before: seq<Event>, revoke: Event, issuedAt: int, now: Instant)
    requires revoke.Revoke? && cfg.withRedis && WholeSeconds(cfg.maxTTL) > 0
    requires Ordered(before + [revoke], now) && RecordEnd(cfg, revoke.now) <= now
    ensures Ordered(before + [revoke] + [Restart(now)], now)
    ensures !Asked(cfg, before + [revoke] + [Restart(now)], revoke.subject, issuedAt, now).revoked
  {
    RevocationOnRecord(cfg, before, revoke, now);
    RestartLeavesRedis(cfg, before + [revoke], revoke.subject, issuedAt, RecordEnd(cfg, revoke.now), now);
    OrderedSnoc(before + [revoke], Restart(now));
  }

  /** With Redis, a token issued no later than the revocation is refused however the run goes on if and only if
      the record's whole seconds of maxTTL have not passed. */
  lemma AlwaysRefusedIff(cfg: Config, before: seq<Event>, revoke: Event, issuedAt: int, now: Instant)
    requires revoke.Revoke? && cfg.withRedis && WholeSeconds(cfg.maxTTL) > 0
    requires Ordered(before + [revoke], now) && issuedAt <= Unix(revoke.now)
    ensures AlwaysRefused(cfg, before, revoke, issuedAt, now) <==> now < RecordEnd(cfg, revoke.now)
  {
    if now < RecordEnd(cfg, revoke.now) {
      forall after | Ordered(before + [revoke] + after, now)
        ensures Asked(cfg, before + [revoke] + after, revoke.subject, issuedAt, now).revoked
      {
        ForceLasts(cfg, before, revoke, after, now);
        ForceRefuses(cfg, Run(cfg, before + [revoke] + after), revoke.subject, revoke.now, issuedAt, now);
      }
    } else {
      RestartForgets(cfg, before, revoke, issuedAt, now);
    }
  }

  ghost predicate AlwaysRefusedInMemory(cfg: Config, before: seq<Event>, revoke: Event, issuedAt: int, now: Instant)
    requires revoke.Revoke?
  {
    forall after :: NoRestart(after) && Ordered(before + [revoke] + after, now) ==>
      Asked(cfg, before + [revoke] + after, revoke.subject, issuedAt, now).revoked
  }

  lemma MemoryRefuses(cfg: Config, w: World, subject: string, at: Instant, issuedAt: int, now: Instant)
    requires !cfg.withRedis && InForce(cfg, w, subject, at, now) && issuedAt <= Unix(at) && now <= at + cfg.maxTTL
    ensures VerdictOf(Consulted(cfg, w, subject, now), issuedAt).revoked
  {
  }

  lemma RevocationInMemory(cfg: Config, before: seq<Event>, revoke: Event, now: Instant)
    requires revoke.Revoke? && Ordered(before + [revoke], now)
    ensures var w := Run(cfg, before + [revoke]);
            revoke.subject in w.entries && w.entries[revoke.subject].expiresAt == revoke.now + cfg.maxTTL
  {
    OrderedInit(before, revoke, now);
    RunStaysPast(cfg, before, revoke.subject, revoke.now);
    RunSnoc(cfg, before, revoke);
  }

  lemma SweepForgets(cfg: Config, events: seq<Event>, subject: string, issuedAt: int, now: Instant)
    requires !cfg.withRedis && subject in Run(cfg, events).entries && Run(cfg, events).entries[subject].expiresAt < now
    ensures !Asked(cfg, events + [CleanUp(now)], subject, issuedAt, now).revoked
  {
    RunSnoc(cfg, events, CleanUp(now));
  }

  /** Without Redis, a token issued no later than the revocation is refused in every run without restarts if and
      only if maxTTL has not passed, to the nanosecond. */
  lemma AlwaysRefusedInMemoryIff(cfg: Config, before: seq<Event>, revoke: Event, issuedAt: int, now: Instant)
    requires revoke.Revoke? && !cfg.withRedis
    requires Ordered(before + [revoke], now) && issuedAt <= Unix(revoke.now)
    ensures AlwaysRefusedInMemory(cfg, before, revoke, issuedAt, now) <==> now <= revoke.now + cfg.maxTTL
  {
    if now <= revoke.now + cfg.maxTTL {
      forall after | NoRestart(after) && Ordered(before + [revoke] + after, now)
        ensures Asked(cfg, before + [revoke] + after, revoke.subject, issuedAt, now).revoked
      {
        ForceLasts(cfg, before, revoke, after, now);
        MemoryRefuses(cfg, Run(cfg, before + [revoke] + after), revoke.subject, revoke.now, issuedAt, now);
      }
    } else {
      var after := [CleanUp(now)];
      RevocationInMemory(cfg, before, revoke, now);
      SweepForgets(cfg, before + [revoke], revoke.subject, issuedAt, now);
      OrderedSnoc(before + [revoke], CleanUp(now));
      assert NoRestart(after);
    }
  }

  // ---------- tokens at the gateway ----------

  datatype Outcome = RejectInvalid | RejectRevoked | RejectScope | Allow(claims: Token.Claims)

  /** AuthRequiredWithGuard's decision on a token. */
  function Authenticate(
      s: Token.Scheme, cfg: Config, w: World, requiredScope: string, token: string, now: Instant): Outcome {
    var claims := Token.Validate(s, token, now);
    if claims.None? then RejectInvalid
    else if VerdictOf(Consulted(cfg, w, claims.value.sub, now), claims.value.iat).revoked then RejectRevoked
    else if requiredScope != "" && claims.value.scope != requiredScope && claims.value.scope != "admin" then RejectScope
    else Allow(claims.value)
  }

  /** What becomes of a signed token, in the order of the checks: it is invalid without a subject or a scope or more
      than half a minute after its expiry, then revoked, then short of the scope the route asks for. A route that
      asks for none takes every scope, and the scope "admin" is enough for every route. */
  lemma AuthenticateOfSigned(
      s: Token.Scheme, cfg: Config, w: World, requiredScope: string, c: Token.Claims, now: Instant)
    requires Token.Lawful(s)
    ensures var got := Authenticate(s, cfg, w, requiredScope, Token.Signed(s, c), now);
            var valid := c.sub != "" && c.scope != "" && Unix(now) <= c.exp + 30;
            var revoked := exists e :: Consulted(cfg, w, c.sub, now) == Some(e) && c.iat <= Unix(e.revokedAt);
            var permitted := requiredScope == "" || c.scope == requiredScope || c.scope == "admin";
            && (got == RejectInvalid <==> !valid)
            && (got == RejectRevoked <==> valid && revoked)
            && (got == RejectScope <==> valid && !revoked && !permitted)
            && (got == Allow(c) <==> valid && !revoked && permitted)
  {
    Token.ValidateOfSigned(s, c, now);
    var e := Consulted(cfg, w, c.sub, now);
    assert e.Some? ==> e == Some(e.value);
  }

  /** Nothing but a token that carries its own mac is let through, with the claims of its payload, and these meet
      the same conditions. */
  lemma AllowedIsSigned(
      s: Token.Scheme, cfg: Config, w: World, requiredScope: string, token: string, now: Instant)
    requires Authenticate(s, cfg, w, requiredScope, token, now).Allow?
    ensures var c := Authenticate(s, cfg, w, requiredScope, token, now).claims;
            && c.sub != "" && c.scope != "" && Unix(now) <= c.exp + 30
            && (requiredScope == "" || c.scope == requiredScope || c.scope == "admin")
            && exists payload :: Token.Carries(s, token, payload) && s.unmarshal(payload) == Some(c)
  {
    Token.AcceptedIsSigned(s, token, now);
  }

  /** A token the gateway issued before a revocation of its subject is not admitted again before it expires. */
  lemma RevokedTokenNotAdmitted(
      s: Token.Scheme, cfg: Config, before: seq<Event>, revoke: Event, after: seq<Event>,
      scope: string, ttl: nat, issued: Instant, requiredScope: string, now: Instant)
    requires Token.Lawful(s) && revoke.Revoke? && Ordered(before + [revoke] + after, now)
    requires cfg.withRedis || NoRestart(after)
    requires Token.CreateWithTTL(s, cfg.maxTTL, revoke.subject, scope, ttl, issued).Issued?
    requires issued <= revoke.now && Unix(now) < Unix(issued) + WholeSeconds(ttl)
    ensures var token := Token.CreateWithTTL(s, cfg.maxTTL, revoke.subject, scope, ttl, issued).token;
            Authenticate(s, cfg, Run(cfg, before + [revoke] + after), requiredScope, token, now) == RejectRevoked
  {
    var claims := Token.ClaimsFor(revoke.subject, scope, ttl, issued);
    Token.ValidateOfSigned(s, claims, now);
    UnixMonotone(issued, revoke.now);
    UnixMonotone(ttl, cfg.maxTTL);
    RevokedStaysRefused(cfg, before, revoke, after, claims, now);
  }

  ghost predicate NeverAdmitted(
      s: Token.Scheme, cfg: Config, before: seq<Event>, revoke: Event, token: string, now: Instant)
  {
    forall after :: Ordered(before + [revoke] + after, now) ==>
      !Authenticate(s, cfg, Run(cfg, before + [revoke] + after), "", token, now).Allow?
  }

  /** With Redis, a token the gateway issued before a revocation of its subject is kept out of every run if and
      only if the record has not lapsed or the validator's skew after the token's expiry is over. A token of
      full lifetime issued in the second of its revocation can thus come back at its very expiry. */
  lemma NeverAdmittedIff(
      s: Token.Scheme, cfg: Config, before: seq<Event>, revoke: Event, scope: string, ttl: nat, issued: Instant,
      now: Instant)
    requires Token.Lawful(s) && revoke.Revoke? && cfg.withRedis && WholeSeconds(cfg.maxTTL) > 0
    requires Token.CreateWithTTL(s, cfg.maxTTL, revoke.subject, scope, ttl, issued).Issued?
    requires issued <= revoke.now && Ordered(before + [revoke], now)
    ensures var token := Token.CreateWithTTL(s, cfg.maxTTL, revoke.subject, scope, ttl, issued).token;
            NeverAdmitted(s, cfg, before, revoke, token, now) <==>
            now < RecordEnd(cfg, revoke.now) || Unix(now) > Unix(issued) + WholeSeconds(ttl) + Token.CLOCK_SKEW
  {
    var claims := Token.ClaimsFor(revoke.subject, scope, ttl, issued);
    var token := Token.Signed(s, claims);
    Token.ValidateOfSigned(s, claims, now);
    UnixMonotone(issued, revoke.now);
    AlwaysRefusedIff(cfg, before, revoke, claims.iat, now);
    if Token.Validate(s, token, now).Some? {
      if now < RecordEnd(cfg, revoke.now) {
        assert NeverAdmitted(s, cfg, before, revoke, token, now);
      } else {
        RestartForgets(cfg, before, revoke, claims.iat, now);
        assert Authenticate(s, cfg, Run(cfg, before + [revoke] + [Restart(now)]), "", token, now).Allow?;
      }
    }
  }

  /** The gap is real without a restart too, at the token's expiry and before any skew: a token of full lifetime
      issued in the second of its revocation is admitted again once the record has lapsed and been swept. */
  lemma ExpiryOutlivesRevocation(s: Token.Scheme, subject: string, reason: string, seconds: nat, at: Instant)
    requires Token.Lawful(s) && subject != "" && 0 < seconds
    requires at + seconds * SECOND + 1 < 0x8000_0000_0000_0000
    ensures var cfg := Config(seconds * SECOND, true);
            var now: Instant := at + seconds * SECOND + 1;
            var token := Token.Signed(s, Token.ClaimsFor(subject, "proxy", cfg.maxTTL, at));
            && Token.CreateWithTTL(s, cfg.maxTTL, subject, "proxy", cfg.maxTTL, at) == Token.Issued(token)
            && (at % SECOND < SECOND - 1 ==> Unix(now) == Unix(at) + seconds)
            && var w := Run(cfg, [Revoke(subject, reason, at)] + [CleanUp(now)]);
               Authenticate(s, cfg, w, "proxy", token, now).Allow?
  {
    var cfg := Config(seconds * SECOND, true);
    var now: Instant := at + seconds * SECOND + 1;
    var claims := Token.ClaimsFor(subject, "proxy", cfg.maxTTL, at);
    assert WholeSeconds(cfg.maxTTL) == seconds;
    assert Unix(now) <= Unix(at) + seconds + 1;
    Token.ValidateOfSigned(s, claims, now);
    var first := [Revoke(subject, reason, at)];
    RunSnoc(cfg, [], Revoke(subject, reason, at));
    assert [] + first == first;
    RunSnoc(cfg, first, CleanUp(now));
    var w := Run(cfg, first + [CleanUp(now)]);
    assert subject !in w.entries;
    assert Redis.Get(w.redis, Key(subject), now) == None;
  }
}
