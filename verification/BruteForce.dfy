/** The brute-force guard: strikes per address, bans that escalate, and bans kept in Redis across restarts. */
module BruteForce {
  import opened Wrappers
  import opened Text
  import opened Decimal
  import opened Clock
  import Redis
  import Sequences

  datatype Entry = Entry(strikes: int, bannedAt: Option<int>, duration: nat, reason: string)

  datatype Config = Config(threshold: nat, baseBan: nat, withRedis: bool)

  datatype World = World(strikes: map<string, Entry>, redis: Redis.Store)

  datatype Answer = Answer(banned: bool, reason: string, remaining: int)

  const PREFIX := "safepaw:ban:"

  function Key(ip: string): string {
    PREFIX + ip
  }

  // ---------- ban lengths ----------

  function EscalatedDuration(cfg: Config, strikes: nat): nat
    requires 0 < cfg.threshold
  {
    var bans := strikes / cfg.threshold;
    if bans <= 1 then cfg.baseBan
    else if bans == 2 then cfg.baseBan * 3
    else if bans == 3 then cfg.baseBan * 12
    else cfg.baseBan * 48
  }

  lemma DivMonotone(a: nat, b: nat, d: nat)
    requires 0 < d && a <= b
    ensures a / d <= b / d
  {
    var q, r := a / d, b / d;
    assert a == q * d + a % d && b == r * d + b % d;
    assert r < q ==> (r + 1) * d <= q * d;
  }

  lemma EscalationIsMonotone(cfg: Config, few: nat, many: nat)
    requires 0 < cfg.threshold && few <= many
    ensures cfg.baseBan <= EscalatedDuration(cfg, few) <= EscalatedDuration(cfg, many) <= 48 * cfg.baseBan
  {
    DivMonotone(few, many, cfg.threshold);
  }

  /** Below twice the threshold a ban has the base length, below three times the threshold three times that,
      below four times twelve times that, and from there on 48 times. */
  lemma EscalationRanges(cfg: Config, strikes: nat)
    requires 0 < cfg.threshold
    ensures var d, t := EscalatedDuration(cfg, strikes), cfg.threshold;
            && (strikes < 2 * t ==> d == cfg.baseBan) && (2 * t <= strikes < 3 * t ==> d == 3 * cfg.baseBan)
            && (3 * t <= strikes < 4 * t ==> d == 12 * cfg.baseBan) && (4 * t <= strikes ==> d == 48 * cfg.baseBan)
  {
    var bans := strikes / cfg.threshold;
    assert strikes == bans * cfg.threshold + strikes % cfg.threshold;
    if bans <= 1 {
      AtMostTimes(bans, 1, cfg.threshold);
    } else if bans <= 3 {
      assert bans == 2 || bans == 3;
    } else {
      AtMostTimes(4, bans, cfg.threshold);
    }
  }

  lemma AtMostTimes(a: nat, b: nat, t: nat)
    requires a <= b
    ensures a * t <= b * t
  {
  }

  /** The length of an address's n-th ban if nothing takes strikes away: with the threshold reached, every further
      failure after a ban has run out bans again. */
  function BanLength(cfg: Config, n: nat): nat
    requires 0 < cfg.threshold && 1 <= n
  {
    EscalatedDuration(cfg, cfg.threshold + n - 1)
  }

  /** What the source's header announces for the n-th ban. */
  function Announced(cfg: Config, n: nat): nat
    requires 1 <= n
  {
    if n == 1 then cfg.baseBan else if n == 2 then 3 * cfg.baseBan else if n == 3 then 12 * cfg.baseBan
      else 48 * cfg.baseBan
  }

  /** The n-th ban is longer than the first exactly when n exceeds the threshold, that is, when the strikes have
      reached twice the threshold. */
  lemma LongerThanFirstIff(cfg: Config, n: nat)
    requires 0 < cfg.threshold && 0 < cfg.baseBan && 1 <= n
    ensures BanLength(cfg, 1) == cfg.baseBan
    ensures BanLength(cfg, n) > BanLength(cfg, 1) <==> (cfg.threshold + n - 1) / cfg.threshold >= 2
    ensures (cfg.threshold + n - 1) / cfg.threshold >= 2 <==> cfg.threshold < n
  {
    var strikes := cfg.threshold + n - 1;
    EscalationRanges(cfg, cfg.threshold);
    EscalationRanges(cfg, strikes);
    var bans := strikes / cfg.threshold;
    assert strikes == bans * cfg.threshold + strikes % cfg.threshold;
    if bans <= 1 {
      AtMostTimes(bans, 1, cfg.threshold);
    } else {
      AtMostTimes(2, bans, cfg.threshold);
    }
  }

  ghost predicate AsAnnounced(cfg: Config)
    requires 0 < cfg.threshold
  {
    forall n: nat :: 1 <= n ==> BanLength(cfg, n) == Announced(cfg, n)
  }

  /** The announced escalation of 1, 3, 12 and 48 base lengths is kept exactly with a threshold of one. */
  lemma AsAnnouncedIff(cfg: Config)
    requires 0 < cfg.threshold && 0 < cfg.baseBan
    ensures AsAnnounced(cfg) <==> cfg.threshold == 1
  {
    if cfg.threshold == 1 {
      forall n: nat | 1 <= n
        ensures BanLength(cfg, n) == Announced(cfg, n)
      {
        EscalationRanges(cfg, n);
      }
    } else {
      LongerThanFirstIff(cfg, 2);
      assert BanLength(cfg, 2) != Announced(cfg, 2);
    }
  }

  // ---------- bans as text ----------

  function EncodeBan(e: Entry): string
    requires e.bannedAt.Some? && 0 <= e.bannedAt.value
  {
    Print(e.strikes) + "|" + (Print(Unix(e.bannedAt.value)) + "|" + (Print(WholeSeconds(e.duration)) + "|" + e.reason))
  }

  /** The text before and after the first bar. */
  function Cut(s: string): Option<(string, string)> {
    var i := IndexOfChar(s, '|');
    if i < 0 then None else Some((s[..i], s[i + 1..]))
  }

  /** SplitN(val, "|", 4), None for fewer parts. */
  function Fields(val: string): Option<(string, string, string, string)> {
    var a := Cut(val);
    if a.None? then None
    else
      var b := Cut(a.value.1);
      if b.None? then None
      else
        var c := Cut(b.value.1);
        if c.None? then None else Some((a.value.0, b.value.0, c.value.0, c.value.1))
  }

  /** loadBan's three number conversions ignore their errors. */
  function DecodeBan(val: string): Option<Entry> {
    var f := Fields(val);
    if f.None? then None
    else
      var seconds := ParseInt64Lenient(f.value.2);
      Some(Entry(ParseInt64Lenient(f.value.0), Some(ParseInt64Lenient(f.value.1) * SECOND),
        if seconds < 0 then 0 else seconds * SECOND, f.value.3))
  }

  lemma CutNumber(n: int, rest: string)
    requires INT64_MIN <= n <= INT64_MAX
    ensures Cut(Print(n) + "|" + rest) == Some((Print(n), rest)) && ParseInt64Lenient(Print(n)) == n
  {
    var p := Print(n);
    IndexAfterPrefix(p, '|', rest);
    assert p + "|" + rest == p + ['|'] + rest;
    assert (p + "|" + rest)[..|p|] == p && (p + "|" + rest)[|p| + 1..] == rest;
    ParseOfPrint(n);
    LenientAgrees(p);
  }

  predicate Storable(e: Entry) {
    e.bannedAt.Some? && 0 <= e.bannedAt.value <= INT64_MAX && 0 <= e.strikes <= INT64_MAX && e.duration <= INT64_MAX
  }

  /** What comes back from Redis: strikes and reason unchanged, time and length cut to whole seconds. */
  function Truncated(e: Entry): Entry
    requires Storable(e)
  {
    e.(bannedAt := Some(Unix(e.bannedAt.value) * SECOND), duration := WholeSeconds(e.duration) * SECOND)
  }

  lemma FieldsOfEncode(e: Entry)
    requires Storable(e)
    ensures Fields(EncodeBan(e))
         == Some((Print(e.strikes), Print(Unix(e.bannedAt.value)), Print(WholeSeconds(e.duration)), e.reason))
  {
    var third := Print(WholeSeconds(e.duration)) + "|" + e.reason;
    var second := Print(Unix(e.bannedAt.value)) + "|" + third;
    CutNumber(e.strikes, second);
    CutNumber(Unix(e.bannedAt.value), third);
    CutNumber(WholeSeconds(e.duration), e.reason);
  }

  lemma DecodeOfEncode(e: Entry)
    requires Storable(e)
    ensures DecodeBan(EncodeBan(e)) == Some(Truncated(e)) && EncodeBan(e) != ""
  {
    FieldsOfEncode(e);
    CutNumber(e.strikes, "");
    CutNumber(Unix(e.bannedAt.value), "");
    CutNumber(WholeSeconds(e.duration), "");
  }

  // ---------- the operations ----------

  function End(e: Entry): int
    requires e.bannedAt.Some?
  {
    e.bannedAt.value + e.duration
  }

  predicate Active(e: Entry, now: int) {
    e.bannedAt.Some? && now < End(e)
  }

  function Fetched(cfg: Config, w: World, ip: string, now: Instant): Option<Entry> {
    var val := Redis.Get(w.redis, Key(ip), now);
    if !cfg.withRedis || val.None? || val.value == "" then None else DecodeBan(val.value)
  }

  function Consulted(cfg: Config, w: World, ip: string, now: Instant): Option<Entry> {
    if ip in w.strikes then Some(w.strikes[ip]) else Fetched(cfg, w, ip, now)
  }

  /** IsBanned, which also caches what Redis holds. */
  function LookStep(cfg: Config, w: World, ip: string, now: Instant): World {
    var e := Consulted(cfg, w, ip, now);
    if e.Some? then w.(strikes := w.strikes[ip := e.value]) else w
  }

  function AnswerOf(e: Option<Entry>, now: Instant): Answer {
    if e.Some? && Active(e.value, now) then Answer(true, e.value.reason, End(e.value) - now) else Answer(false, "", 0)
  }

  /** The entry after one more strike. */
  function Struck(cfg: Config, e: Option<Entry>, reason: string, now: Instant): Entry
    requires 0 < cfg.threshold
  {
    var base := if e.Some? then e.value else Entry(0, None, 0, "");
    var hit := base.(strikes := base.strikes + 1, reason := reason);
    if hit.strikes >= cfg.threshold then hit.(bannedAt := Some(now), duration := EscalatedDuration(cfg, hit.strikes))
    else hit
  }

  function FailStep(cfg: Config, w: World, ip: string, reason: string, now: Instant): World
    requires 0 < cfg.threshold
  {
    var hit := Struck(cfg, if ip in w.strikes then Some(w.strikes[ip]) else None, reason, now);
    World(w.strikes[ip := hit],
      if cfg.withRedis && hit.strikes >= cfg.threshold
      then Redis.Set(w.redis, Key(ip), EncodeBan(hit), hit.duration, now) else w.redis)
  }

  function DecrementStep(cfg: Config, w: World, ip: string): World {
    if ip !in w.strikes then w
    else
      var e := w.strikes[ip].(strikes := w.strikes[ip].strikes - 1);
      if e.strikes <= 0
      then World(w.strikes - {ip}, if cfg.withRedis then Redis.Del(w.redis, Key(ip)) else w.redis)
      else w.(strikes := w.strikes[ip := e])
  }

  function ResetStep(cfg: Config, w: World, ip: string): World {
    World(w.strikes - {ip}, if cfg.withRedis then Redis.Del(w.redis, Key(ip)) else w.redis)
  }

  predicate Lapsed(e: Entry, now: int) {
    e.bannedAt.Some? && now - e.bannedAt.value > e.duration
  }

  function CleanupStep(w: World, now: Instant): World {
    w.(strikes := map ip | ip in w.strikes && !Lapsed(w.strikes[ip], now) :: w.strikes[ip])
  }

  /** The address after failures at the given times, with nothing in between. */
  function Failures(cfg: Config, ip: string, reason: string, times: seq<Instant>): World
    requires 0 < cfg.threshold
  {
    if times == [] then World(map[], map[])
    else FailStep(cfg, Failures(cfg, ip, reason, times[..|times| - 1]), ip, reason, times[|times| - 1])
  }

  lemma {:induction false} EveryFailureCounts(cfg: Config, ip: string, reason: string, times: seq<Instant>)
    requires 0 < cfg.threshold && times != []
    ensures var w := Failures(cfg, ip, reason, times); ip in w.strikes && w.strikes[ip].strikes == |times|
  {
    var init := times[..|times| - 1];
    if init != [] {
      EveryFailureCounts(cfg, ip, reason, init);
    }
  }

  /** The failure number threshold + n - 1 bans for the n-th time, for the length given above. */
  lemma NthBan(cfg: Config, ip: string, reason: string, times: seq<Instant>, n: nat)
    requires 0 < cfg.threshold && 1 <= n && |times| == cfg.threshold + n - 1
    ensures var w := Failures(cfg, ip, reason, times);
            && ip in w.strikes && w.strikes[ip].bannedAt == Some(times[|times| - 1])
              && w.strikes[ip].duration == BanLength(cfg, n)
  {
    EveryFailureCounts(cfg, ip, reason, times);
  }

  /** A failure that reaches the threshold bans for the length its strikes call for: until then the answer is yes, with
      the reason of this failure and the time that is left, and from then on no. */
  lemma BanAnswer(cfg: Config, w: World, ip: string, reason: string, now: Instant, later: Instant)
    requires 0 < cfg.threshold && (ip in w.strikes ==> 0 <= w.strikes[ip].strikes)
    requires cfg.threshold <= (if ip in w.strikes then w.strikes[ip].strikes else 0) + 1
    ensures var strikes := (if ip in w.strikes then w.strikes[ip].strikes else 0) + 1;
            var end := now + EscalatedDuration(cfg, strikes);
            var answer := AnswerOf(Consulted(cfg, FailStep(cfg, w, ip, reason, now), ip, later), later);
            && (later < end ==> answer == Answer(true, reason, end - later))
            && (end <= later ==> answer == Answer(false, "", 0))
  {
  }

  /** Without Redis nothing is written to it or deleted from it. */
  lemma WithoutRedis(cfg: Config, w: World, ip: string, reason: string, now: Instant)
    requires 0 < cfg.threshold && !cfg.withRedis
    ensures FailStep(cfg, w, ip, reason, now).redis == DecrementStep(cfg, w, ip).redis == ResetStep(cfg, w, ip).redis
            == LookStep(cfg, w, ip, now).redis == w.redis
  {
  }

  /** A sweep takes exactly the entries whose ban has ended before. */
  lemma SweptIff(w: World, ip: string, now: Instant)
    requires ip in w.strikes
    ensures var e, swept := w.strikes[ip], CleanupStep(w, now);
            && (ip !in swept.strikes <==> e.bannedAt.Some? && e.bannedAt.value + e.duration < now)
            && (ip in swept.strikes ==> swept.strikes[ip] == e) && swept.redis == w.redis
  {
  }

  /** The sweep of a ban that has run out takes the strikes with it, so the next failure is the first again. */
  lemma SweepForgetsStrikes(cfg: Config, w: World, ip: string, reason: string, now: Instant)
    requires 0 < cfg.threshold && ip in w.strikes && Lapsed(w.strikes[ip], now)
    ensures FailStep(cfg, CleanupStep(w, now), ip, reason, now).strikes[ip].strikes == 1
  {
  }

  /** A success undoes a failure that did not ban: the strikes are as before, and an address without an entry
      has none again. */
  lemma SuccessUndoesFailure(cfg: Config, w: World, ip: string, reason: string, now: Instant)
    requires 0 < cfg.threshold && (ip in w.strikes ==> 0 < w.strikes[ip].strikes)
    requires FailStep(cfg, w, ip, reason, now).strikes[ip].strikes < cfg.threshold
    ensures var after := DecrementStep(cfg, FailStep(cfg, w, ip, reason, now), ip);
            if ip in w.strikes then after == w.(strikes := w.strikes[ip := w.strikes[ip].(reason := reason)])
            else after.strikes == w.strikes && (after.redis == w.redis || after.redis == Redis.Del(w.redis, Key(ip)))
  {
  }

  /** After a reset nothing is known about the address, in memory or in Redis. */
  lemma ResetForgets(cfg: Config, w: World, ip: string, now: Instant)
    ensures Consulted(cfg, ResetStep(cfg, w, ip), ip, now) == None
  {
    assert Fetched(cfg, ResetStep(cfg, w, ip), ip, now) == None;
  }

  /** Nobody else is affected by a reset. */
  lemma ResetSparesOthers(cfg: Config, w: World, ip: string, other: string, now: Instant)
    requires other != ip
    ensures Consulted(cfg, ResetStep(cfg, w, ip), other, now) == Consulted(cfg, w, other, now)
  {
    Sequences.PrefixCancels(PREFIX, ip, other);
    var key, after := Key(other), ResetStep(cfg, w, ip);
    assert key in after.redis <==> key in w.redis;
    assert Redis.Get(after.redis, key, now) == Redis.Get(w.redis, key, now);
  }

  // ---------- the object ----------

  class BruteForceGuard {
    const cfg: Config
    var strikes: map<string, Entry>
    var redis: Redis.Store

    function View(): World
      reads this
    {
      World(strikes, redis)
    }

    constructor (cfg: Config, redis: Redis.Store)
      ensures this.cfg == cfg && View() == World(map[], redis)
    {
      this.cfg, this.strikes, this.redis := cfg, map[], redis;
    }

    method RecordFailure(ip: string, reason: string, now: Instant) returns (banned: bool)
      requires 0 < cfg.threshold
      modifies this
      ensures View() == FailStep(cfg, old(View()), ip, reason, now)
      ensures banned <==> strikes[ip].strikes >= cfg.threshold
    {
      var entry := if ip in strikes then strikes[ip] else Entry(0, None, 0, "");
      entry := entry.(strikes := entry.strikes + 1, reason := reason);
      banned := entry.strikes >= cfg.threshold;
      if banned {
        entry := entry.(duration := EscalatedDuration(cfg, entry.strikes), bannedAt := Some(now));
        if cfg.withRedis {
          redis := Redis.Set(redis, PREFIX + ip, EncodeBan(entry), entry.duration, now);
        }
      }
      strikes := strikes[ip := entry];
    }

    method IsBanned(ip: string, now: Instant) returns (banned: bool, reason: string, remaining: int)
      modifies this
      ensures View() == LookStep(cfg, old(View()), ip, now)
      ensures Answer(banned, reason, remaining) == AnswerOf(Consulted(cfg, old(View()), ip, now), now)
    {
      var found := Consult(ip, now);
      if found.None? || found.value.bannedAt.None? {
        return false, "", 0;
      }
      remaining := found.value.duration - (now - found.value.bannedAt.value);
      if remaining <= 0 {
        return false, "", 0;
      }
      return true, found.value.reason, remaining;
    }

    method Consult(ip: string, now: Instant) returns (found: Option<Entry>)
      modifies this
      ensures View() == LookStep(cfg, old(View()), ip, now)
      ensures found == Consulted(cfg, old(View()), ip, now)
    {
      if ip in strikes {
        assert strikes == strikes[ip := strikes[ip]];
        return Some(strikes[ip]);
      }
      found := LoadBan(ip, now);
      if found.Some? {
        strikes := strikes[ip := found.value];
      }
    }

    method LoadBan(ip: string, now: Instant) returns (e: Option<Entry>)
      ensures e == Fetched(cfg, View(), ip, now)
    {
      if !cfg.withRedis {
        return None;
      }
      var val := Redis.Get(redis, PREFIX + ip, now);
      if val.None? || val.value == "" {
        return None;
      }
      e := DecodeBan(val.value);
    }

    method Decrement(ip: string)
      modifies this
      ensures View() == DecrementStep(cfg, old(View()), ip)
    {
      if ip !in strikes {
        return;
      }
      var entry := strikes[ip].(strikes := strikes[ip].strikes - 1);
      strikes := strikes[ip := entry];
      if entry.strikes <= 0 {
        strikes := strikes - {ip};
        if cfg.withRedis {
          redis := Redis.Del(redis, PREFIX + ip);
        }
      }
    }

    method Reset(ip: string)
      modifies this
      ensures View() == ResetStep(cfg, old(View()), ip)
    {
      strikes := strikes - {ip};
      if cfg.withRedis {
        redis := Redis.Del(redis, PREFIX + ip);
      }
    }

    method CleanUp(now: Instant)
      modifies this
      ensures View() == CleanupStep(old(View()), now)
    {
      var kept, left := strikes, strikes.Keys;
      while left != {}
        invariant left <= strikes.Keys && View() == old(View())
        invariant kept == map ip | ip in strikes && (ip in left || !Lapsed(strikes[ip], now)) :: strikes[ip]
        decreases left
      {
        var ip :| ip in left;
        left := left - {ip};
        if strikes[ip].bannedAt.Some? && now - strikes[ip].bannedAt.value > strikes[ip].duration {
          kept := kept - {ip};
        }
      }
      strikes := kept;
    }
  }
}
