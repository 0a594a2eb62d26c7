/** Token revocation: an in-memory list in front of Redis, with background cleanup and restarts. A Redis
    lookup and the cache fill that follows it count as one step, and Redis commands succeed. */
module Revocation {
  import opened Wrappers
  import opened Text
  import opened Decimal
  import opened Clock
  import Redis

  datatype Entry = Entry(revokedAt: int, expiresAt: int, reason: string)

  datatype Config = Config(maxTTL: nat, withRedis: bool)

  datatype World = World(entries: map<string, Entry>, redis: Redis.Store)

  datatype Verdict = Verdict(revoked: bool, reason: string)

  const PREFIX := "safepaw:revoke:"

  function Key(subject: string): string {
    PREFIX + subject
  }

  // ---------- the value stored in Redis ----------

  function EncodeValue(now: Instant, reason: string): string {
    Print(Unix(now)) + "|" + reason
  }

  /** SplitN(val, "|", 2) and ParseInt: the revocation second and the reason. */
  function DecodeValue(val: string): Option<(int, string)> {
    var i := IndexOfChar(val, '|');
    if i < 0 || ParseInt64(val[..i]).None? then None
    else Some((ParseInt64(val[..i]).value, val[i + 1..]))
  }

  lemma DecodeOfEncode(now: Instant, reason: string)
    ensures DecodeValue(EncodeValue(now, reason)) == Some((Unix(now), reason))
  {
    var digits := Print(Unix(now));
    var val := EncodeValue(now, reason);
    IndexAfterPrefix(digits, '|', reason);
    assert val == digits + ['|'] + reason && val[..|digits|] == digits && val[|digits| + 1..] == reason;
    ParseOfPrint(Unix(now));
  }

  // ---------- the operations ----------

  function RevokeStep(cfg: Config, w: World, subject: string, reason: string, now: Instant): World {
    if subject in w.entries && w.entries[subject].revokedAt > now then w
    else World(w.entries[subject := Entry(now, now + cfg.maxTTL, reason)],
      if cfg.withRedis then Redis.Set(w.redis, Key(subject), EncodeValue(now, reason), cfg.maxTTL, now) else w.redis)
  }

  /** What checkRedis finds and caches. */
  function Fetched(cfg: Config, w: World, subject: string, now: Instant): Option<Entry> {
    var val := Redis.Get(w.redis, Key(subject), now);
    if !cfg.withRedis || val.None? || val.value == "" || DecodeValue(val.value).None? then None
    else
      var (second, reason) := DecodeValue(val.value).value;
      Some(Entry(second * SECOND, now + cfg.maxTTL, reason))
  }

  /** The entry a check consults: the cached one, else the one Redis still holds. */
  function Consulted(cfg: Config, w: World, subject: string, now: Instant): Option<Entry> {
    if subject in w.entries then Some(w.entries[subject]) else Fetched(cfg, w, subject, now)
  }

  function VerdictOf(e: Option<Entry>, issuedAt: int): Verdict {
    if e.Some? && issuedAt <= Unix(e.value.revokedAt) then Verdict(true, e.value.reason) else Verdict(false, "")
  }

  function CheckStep(cfg: Config, w: World, subject: string, now: Instant): World {
    var e := Consulted(cfg, w, subject, now);
    if e.Some? then w.(entries := w.entries[subject := e.value]) else w
  }

  function CleanupStep(w: World, now: Instant): World {
    w.(entries := map s | s in w.entries && now <= w.entries[s].expiresAt :: w.entries[s])
  }

  // ---------- what the steps mean ----------

  /** The answer to a token of the subject right after a revocation: the later of two revocations stands, in whatever
      order they arrive, with its own reason. */
  lemma RevokedFor(cfg: Config, w: World, subject: string, reason: string, at: Instant, issuedAt: int, now: Instant)
    ensures var w' := RevokeStep(cfg, w, subject, reason, at);
            var older := subject in w.entries && at < w.entries[subject].revokedAt;
            && (older ==> w' == w)
            && (!older ==> VerdictOf(Consulted(cfg, w', subject, now), issuedAt)
                           == if issuedAt <= Unix(at) then Verdict(true, reason) else Verdict(false, ""))
            && (!cfg.withRedis ==> w'.redis == w.redis)
  {
  }

  /** With Redis the reason outlives a restart as long as the record does. */
  lemma ReasonOutlivesRestart(cfg: Config, w: World, subject: string, reason: string, at: Instant, now: Instant)
    requires cfg.withRedis && at <= now < at + WholeSeconds(cfg.maxTTL) * SECOND
    requires subject in w.entries ==> w.entries[subject].revokedAt <= at
    ensures var restarted := RevokeStep(cfg, w, subject, reason, at).(entries := map[]);
            && "safepaw:revoke:" + subject in restarted.redis
            && VerdictOf(Consulted(cfg, restarted, subject, now), Unix(at)) == Verdict(true, reason)
  {
    DecodeOfEncode(at, reason);
    UnixMonotone(at, now);
  }

  /** What a check has found it keeps in memory, also when Redis drops the record the moment after. */
  lemma CheckRemembers(cfg: Config, w: World, subject: string, now: Instant, redis: Redis.Store, later: Instant)
    requires Consulted(cfg, w, subject, now).Some?
    ensures Consulted(cfg, CheckStep(cfg, w, subject, now).(redis := redis), subject, later)
            == Consulted(cfg, w, subject, now)
  {
  }

  /** A sweep drops exactly the entries past their expiry, and leaves Redis alone. */
  lemma SweptIff(w: World, subject: string, now: Instant)
    requires subject in w.entries
    ensures var swept := CleanupStep(w, now);
            && (subject !in swept.entries <==> w.entries[subject].expiresAt < now) && swept.redis == w.redis
            && (subject in swept.entries ==> swept.entries[subject] == w.entries[subject])
  {
  }

  // ---------- the object ----------

  class RevocationList {
    const cfg: Config
    var entries: map<string, Entry>
    var redis: Redis.Store

    function View(): World
      reads this
    {
      World(entries, redis)
    }

    constructor (cfg: Config, redis: Redis.Store)
      ensures this.cfg == cfg && View() == World(map[], redis)
    {
      this.cfg, this.entries, this.redis := cfg, map[], redis;
    }

    method Revoke(subject: string, reason: string, now: Instant)
      modifies this
      ensures View() == RevokeStep(cfg, old(View()), subject, reason, now)
    {
      if subject in entries && entries[subject].revokedAt > now {
        return;
      }
      entries := entries[subject := Entry(now, now + cfg.maxTTL, reason)];
      if cfg.withRedis {
        redis := Redis.Set(redis, PREFIX + subject, Print(Unix(now)) + "|" + reason, cfg.maxTTL, now);
      }
    }

    method IsRevoked(subject: string, issuedAt: int, now: Instant) returns (revoked: bool, reason: string)
      modifies this
      ensures View() == CheckStep(cfg, old(View()), subject, now)
      ensures Verdict(revoked, reason) == VerdictOf(Consulted(cfg, old(View()), subject, now), issuedAt)
    {
      if subject in entries {
        assert entries == entries[subject := entries[subject]];
        if issuedAt <= Unix(entries[subject].revokedAt) {
          return true, entries[subject].reason;
        }
        return false, "";
      }
      if cfg.withRedis {
        revoked, reason := CheckRedis(subject, issuedAt, now);
        if revoked {
          return;
        }
      }
      return false, "";
    }

    method CheckRedis(subject: string, issuedAt: int, now: Instant) returns (revoked: bool, reason: string)
      requires cfg.withRedis && subject !in entries
      modifies this
      ensures View() == CheckStep(cfg, old(View()), subject, now)
      ensures Verdict(revoked, if revoked then reason else "")
              == VerdictOf(Consulted(cfg, old(View()), subject, now), issuedAt)
    {
      var val := Redis.Get(redis, PREFIX + subject, now);
      if val.None? || val.value == "" {
        return false, "";
      }
      var i := IndexOfChar(val.value, '|');
      if i < 0 {
        return false, "";
      }
      var revokedAt := ParseInt64(val.value[..i]);
      if revokedAt.None? {
        return false, "";
      }
      reason := val.value[i + 1..];
      entries := entries[subject := Entry(revokedAt.value * SECOND, now + cfg.maxTTL, reason)];
      revoked := issuedAt <= revokedAt.value;
    }

    method CleanUp(now: Instant)
      modifies this
      ensures View() == CleanupStep(old(View()), now)
    {
      var kept, left := entries, entries.Keys;
      while left != {}
        invariant left <= entries.Keys && View() == old(View())
        invariant kept == map s | s in entries && (s in left || now <= entries[s].expiresAt) :: entries[s]
        decreases left
      {
        var s :| s in left;
        left := left - {s};
        if now > entries[s].expiresAt {
          kept := kept - {s};
        }
      }
      entries := kept;
    }
  }
}
