/** The in-memory receipt ledger: a ring buffer that stands for the tail of an unbounded log. */
module ReceiptLedger {
  import opened Wrappers
  import opened Receipts
  import opened Sequences
  import HashChain
  import opened LedgerFile

  const DEFAULT_SIZE := 10000

  /** An empty string, a zero number or a zero time means "no filter". */
  datatype LedgerQuery = LedgerQuery(
    requestID: string, sessionID: string, subject: string, action: string,
    sinceSeq: nat, since: int, limit: int)

  predicate Matches(q: LedgerQuery, e: Receipt) {
    && (q.sinceSeq > 0 ==> e.number > q.sinceSeq)
    && (q.since != 0 ==> e.timestamp >= q.since)
    && (q.requestID != "" ==> e.requestID == q.requestID)
    && (q.sessionID != "" ==> e.sessionID == q.sessionID)
    && (q.subject != "" ==> e.subject == q.subject)
    && (q.action != "" ==> e.action == q.action)
  }

  function Matching(q: LedgerQuery, s: seq<Receipt>): seq<Receipt> {
    if s == [] then []
    else Matching(q, s[..|s| - 1]) + if Matches(q, s[|s| - 1]) then [s[|s| - 1]] else []
  }

  /** The oldest matches, cut off at the limit when there is one. */
  function QueryResult(q: LedgerQuery, tail: seq<Receipt>): seq<Receipt> {
    var all := Matching(q, tail);
    if 0 < q.limit < |all| then all[..q.limit] else all
  }

  /** The n newest entries, all of them when n is not positive. */
  function Newest(tail: seq<Receipt>, n: int): seq<Receipt> {
    if n <= 0 then tail else Last(tail, n)
  }

  lemma NewestClamped(tail: seq<Receipt>, n: int)
    ensures Newest(tail, n) == Last(tail, if n <= 0 || n > |tail| then |tail| else n)
  {
  }

  // ---------- the ring as a sequence ----------

  /** `a % m` for the only operands the ring has. */
  function Wrap(a: nat, m: nat): nat
    requires 0 < m && a < 2 * m
  {
    if a < m then a else a - m
  }

  lemma WrapIsModulo(a: nat, m: nat)
    requires 0 < m && a < 2 * m
    ensures Wrap(a, m) == a % m
  {
    if m <= a {
      assert a == m * 1 + (a - m);
    }
  }

  predicate RingShape(size: nat, head: nat, count: nat) {
    head < size && count <= size && (count < size ==> head == count)
  }

  /** Where the i-th oldest entry sits. */
  function RingIndex(size: nat, head: nat, count: nat, i: nat): (r: nat)
    requires RingShape(size, head, count) && i < count
    ensures r < size
  {
    Wrap((if count == size then head else 0) + i, size)
  }

  /** The position k entries back from the head, wrapping around. */
  function RecentStart(size: nat, head: nat, k: nat): (r: nat)
    requires head < size && k <= size
    ensures r < size || (k == 0 && r == head)
  {
    if head < k then head - k + size else head - k
  }

  /** Reading from `start` onwards, wrapping around, yields `s`. */
  ghost predicate ReadsAs(buf: seq<Receipt>, start: nat, s: seq<Receipt>) {
    start < |buf| && |s| <= |buf| && forall i: nat :: i < |s| ==> buf[Wrap(start + i, |buf|)] == s[i]
  }

  /** Writing at the head leaves the other entries where they are and puts the new one last. */
  lemma RingAdvances(size: nat, head: nat, count: nat, i: nat)
    requires RingShape(size, head, count)
    requires i < if count < size then count + 1 else count
    ensures var head', count' := Wrap(head + 1, size), if count < size then count + 1 else count;
            RingShape(size, head', count') &&
            var r := RingIndex(size, head', count', i);
            if i + 1 == count' then r == head
            else r != head && r == RingIndex(size, head, count, if count < size then i else i + 1)
  {
  }

  predicate HoldsAt(buf: seq<Receipt>, head: nat, count: nat, tail: seq<Receipt>, i: nat)
    requires RingShape(|buf|, head, count) && |tail| == count && i < count
  {
    buf[RingIndex(|buf|, head, count, i)] == tail[i]
  }

  /** The ring, read from its oldest entry, is the sequence. */
  ghost predicate Holds(buf: seq<Receipt>, head: nat, count: nat, tail: seq<Receipt>)
    requires RingShape(|buf|, head, count) && |tail| == count
  {
    forall i: nat :: i < count ==> HoldsAt(buf, head, count, tail, i)
  }

  /** The ring is the tail of the log. */
  ghost predicate Represents(buf: seq<Receipt>, head: nat, count: nat, log: seq<Receipt>) {
    && RingShape(|buf|, head, count)
    && |Last(log, |buf|)| == count
    && Holds(buf, head, count, Last(log, |buf|))
  }

  ghost predicate NumberedFromOne(log: seq<Receipt>) {
    forall i :: 0 <= i < |log| ==> log[i].number == i + 1
  }

  function Pushed(tail: seq<Receipt>, size: nat, e: Receipt): seq<Receipt>
    requires |tail| <= size && 0 < size
  {
    if |tail| < size then tail + [e] else tail[1..] + [e]
  }

  lemma TailAdvances(log: seq<Receipt>, size: nat, e: Receipt)
    requires 0 < size
    ensures Last(log + [e], size) == Pushed(Last(log, size), size, e)
  {
  }

  lemma PutHoldsAt(buf: seq<Receipt>, head: nat, count: nat, tail: seq<Receipt>, e: Receipt, i: nat)
    requires RingShape(|buf|, head, count) && |tail| == count && Holds(buf, head, count, tail)
    requires i < |Pushed(tail, |buf|, e)|
    ensures var head', count' := Wrap(head + 1, |buf|), if count < |buf| then count + 1 else count;
            RingShape(|buf|, head', count') && HoldsAt(buf[head := e], head', count', Pushed(tail, |buf|, e), i)
  {
    var count' := if count < |buf| then count + 1 else count;
    RingAdvances(|buf|, head, count, i);
    if i + 1 < count' {
      assert HoldsAt(buf, head, count, tail, if count < |buf| then i else i + 1);
    }
  }

  lemma PutHolds(buf: seq<Receipt>, head: nat, count: nat, tail: seq<Receipt>, e: Receipt)
    requires RingShape(|buf|, head, count) && |tail| == count && Holds(buf, head, count, tail)
    ensures var head', count' := Wrap(head + 1, |buf|), if count < |buf| then count + 1 else count;
            RingShape(|buf|, head', count') && Holds(buf[head := e], head', count', Pushed(tail, |buf|, e))
  {
    var buf', head' := buf[head := e], Wrap(head + 1, |buf|);
    var count' := if count < |buf| then count + 1 else count;
    PutHoldsAt(buf, head, count, tail, e, count' - 1);
    forall i: nat | i < count'
      ensures HoldsAt(buf', head', count', Pushed(tail, |buf|, e), i)
    {
      PutHoldsAt(buf, head, count, tail, e, i);
    }
  }

  lemma PutKeepsTail(buf: seq<Receipt>, head: nat, count: nat, log: seq<Receipt>, e: Receipt)
    requires Represents(buf, head, count, log)
    ensures Represents(buf[head := e], Wrap(head + 1, |buf|), if count < |buf| then count + 1 else count, log + [e])
  {
    var tail := Last(log, |buf|);
    TailAdvances(log, |buf|, e);
    PutHolds(buf, head, count, tail, e);
  }

  /** The source's remainder, for operands below twice the size. */
  method Modulo(a: nat, m: nat) returns (r: nat)
    requires 0 < m && a < 2 * m
    ensures r == Wrap(a, m)
  {
    WrapIsModulo(a, m);
    r := a % m;
  }

  // ---------- the ledger together with its file ----------

  datatype Backend = Backend(codec: HashChain.Codec, snap: Snapshot)

  datatype LedgerState = LedgerState(log: seq<Receipt>, file: Option<Backend>)

  function AppendStep(s: LedgerState, r: Receipt, now: int, how: Rotation, diskOk: bool): LedgerState {
    var e := Stamp(r, |s.log| + 1, now);
    LedgerState(s.log + [e],
      if s.file.None? then None
      else Some(s.file.value.(snap := WriteStep(s.file.value.codec, s.file.value.snap, e, how, diskOk))))
  }

  class Ledger {
    const entries: array<Receipt>
    const fileBackend: LedgerFile?
    var head: nat
    var count: nat
    var lastSeq: nat
    /** every receipt ever appended */
    ghost var log: seq<Receipt>

    ghost predicate Valid()
      reads this, entries
    {
      Represents(entries[..], head, count, log) && lastSeq == |log| && NumberedFromOne(log)
    }

    ghost function Footprint(): set<object>
    {
      if fileBackend == null then {this, entries} else {this, entries, fileBackend, fileBackend.disk}
    }

    ghost predicate Ready()
      reads Footprint()
    {
      Valid() && (fileBackend != null ==> fileBackend.Valid())
    }

    ghost function State(): LedgerState
      reads Footprint()
    {
      LedgerState(log, if fileBackend == null then None else Some(Backend(fileBackend.codec, fileBackend.Snap())))
    }

    /** What the ring stands for. */
    ghost function Tail(): seq<Receipt>
      reads this
    {
      Last(log, entries.Length)
    }

    constructor (size: int, backend: LedgerFile?)
      ensures Valid() && log == [] && fresh(entries) && fileBackend == backend
      ensures entries.Length == if size <= 0 then 10000 else size
    {
      var n := if size <= 0 then DEFAULT_SIZE else size;
      var none := Receipt(0, 0, "", "", "", "", "", "", 0, "");
      entries := new Receipt[n](i => none);
      fileBackend := backend;
      head, count, lastSeq := 0, 0, 0;
      log := [];
      new;
      assert Last<Receipt>([], entries.Length) == [];
    }

    /** `now` is the clock, `how` and `diskOk` the outcomes of the file backend's system calls. */
    method Append(r: Receipt, now: int, how: Rotation, diskOk: bool) returns (number: nat)
      requires Ready()
      modifies Footprint()
      ensures Ready() && number == |log|
      ensures State() == AppendStep(old(State()), r, now, how, diskOk)
      ensures log == old(log) + [Stamp(r, number, now)]
      ensures fileBackend != null ==>
                fileBackend.Snap()
                == WriteStep(fileBackend.codec, old(fileBackend.Snap()), Stamp(r, number, now), how, diskOk)
    {
      lastSeq := lastSeq + 1;
      number := lastSeq;
      var e := r.(number := lastSeq);
      if e.timestamp == 0 {
        e := e.(timestamp := now);
      }
      if |e.summary| > MAX_SUMMARY {
        e := e.(summary := e.summary[..MAX_SUMMARY]);
      }
      PutLocked(e);
      if fileBackend != null {
        var _ := fileBackend.WriteEntry(e, how, diskOk);
      }
    }

    /** The part of Append that runs under the lock. */
    method PutLocked(e: Receipt)
      requires Represents(entries[..], head, count, log)
      modifies `head, `count, `log, entries
      ensures Represents(entries[..], head, count, log) && log == old(log) + [e]
    {
      PutKeepsTail(entries[..], head, count, log, e);
      ghost var buf := entries[..][head := e];
      entries[head] := e;
      assert entries[..] == buf;
      var next := Modulo(head + 1, entries.Length);
      head, count := next, if count < entries.Length then count + 1 else count;
      log := log + [e];
    }

    method Query(q: LedgerQuery) returns (results: seq<Receipt>)
      requires Valid()
      ensures results == QueryResult(q, Tail())
    {
      if count == 0 {
        return [];
      }
      var start := if count == entries.Length then head else 0;
      var limit := if q.limit <= 0 || q.limit > count then count else q.limit;
      OldestFrom(entries[..], head, count, log);
      results := Scan(q, start, limit, entries[..], Tail());
      MatchingShort(q, Tail());
    }

    method Recent(n: int) returns (results: seq<Receipt>)
      requires Valid()
      ensures results == Newest(Tail(), n)
    {
      if count == 0 {
        return [];
      }
      var k := if n <= 0 || n > count then count else n;
      var start := RecentStart(entries.Length, head, k);
      NewestFrom(entries[..], head, count, log, k);
      results := Copy(start, k, entries[..], Last(Tail(), k));
      NewestClamped(Tail(), n);
    }

    /** Query's loop over the ring, from its oldest entry. */
    method Scan(q: LedgerQuery, start: nat, limit: nat, ghost buf: seq<Receipt>, ghost held: seq<Receipt>)
      returns (results: seq<Receipt>)
      requires buf == entries[..] && |held| == count && ReadsAs(buf, start, held)
      ensures results == if |Matching(q, held)| <= limit then Matching(q, held) else Matching(q, held)[..limit]
    {
      results := [];
      var i := 0;
      while i < count && |results| < limit
        invariant i <= count
        invariant results == Matching(q, held[..i]) && |results| <= limit
      {
        var at := Modulo(start + i, entries.Length);
        var e := entries[at];
        assert e == buf[Wrap(start + i, |buf|)] == held[i];
        assert held[..i + 1][..i] == held[..i];
        if Matches(q, e) {
          results := results + [e];
        }
        i := i + 1;
      }
      MatchingPrefix(q, held, i);
      assert held[..|held|] == held;
    }

    /** Recent's loop. */
    method Copy(start: nat, k: nat, ghost buf: seq<Receipt>, ghost newest: seq<Receipt>) returns (results: seq<Receipt>)
      requires buf == entries[..] && |newest| == k && ReadsAs(buf, start, newest)
      ensures results == newest
    {
      results := [];
      var i := 0;
      while i < k
        invariant i <= k && results == newest[..i]
      {
        var at := Modulo(start + i, entries.Length);
        var e := entries[at];
        assert e == buf[Wrap(start + i, |buf|)] == newest[i];
        results := results + [e];
        i := i + 1;
      }
    }
  }

  lemma NewestIndex(size: nat, head: nat, count: nat, k: nat, i: nat)
    requires RingShape(size, head, count) && i < k <= count
    ensures RingIndex(size, head, count, count - k + i) == Wrap(RecentStart(size, head, k) + i, size)
  {
  }

  /** Counting k back from the write position reaches the k newest entries. */
  lemma NewestAt(buf: seq<Receipt>, head: nat, count: nat, log: seq<Receipt>, k: nat, i: nat)
    requires Represents(buf, head, count, log) && i < k <= count
    ensures var start := RecentStart(|buf|, head, k);
            buf[Wrap(start + i, |buf|)] == Last(Last(log, |buf|), k)[i]
  {
    var tail := Last(log, |buf|);
    NewestIndex(|buf|, head, count, k, i);
    assert HoldsAt(buf, head, count, tail, count - k + i);
    assert Last(tail, k)[i] == tail[count - k + i];
  }

  lemma OldestFrom(buf: seq<Receipt>, head: nat, count: nat, log: seq<Receipt>)
    requires Represents(buf, head, count, log)
    ensures ReadsAs(buf, if count == |buf| then head else 0, Last(log, |buf|))
  {
    forall i: nat | i < count
      ensures buf[Wrap((if count == |buf| then head else 0) + i, |buf|)] == Last(log, |buf|)[i]
    {
      assert HoldsAt(buf, head, count, Last(log, |buf|), i);
    }
  }

  lemma NewestFrom(buf: seq<Receipt>, head: nat, count: nat, log: seq<Receipt>, k: nat)
    requires Represents(buf, head, count, log) && 0 < k <= count
    ensures |Last(Last(log, |buf|), k)| == k
    ensures ReadsAs(buf, RecentStart(|buf|, head, k), Last(Last(log, |buf|), k))
  {
    forall i: nat | i < k
      ensures var start := RecentStart(|buf|, head, k);
              buf[Wrap(start + i, |buf|)] == Last(Last(log, |buf|), k)[i]
    {
      NewestAt(buf, head, count, log, k, i);
    }
  }

  /** A query finds exactly the entries of the tail that satisfy every filter. */
  lemma {:induction false} MatchingIsFilter(q: LedgerQuery, s: seq<Receipt>, e: Receipt)
    ensures e in Matching(q, s) <==> e in s && Matches(q, e)
  {
    if s != [] {
      var n := |s| - 1;
      MatchingIsFilter(q, s[..n], e);
      assert e in s <==> e in s[..n] || e == s[n];
    }
  }

  /** Filter by filter: what a query returns is in the ring, is newer than the number asked after and no older than
      the time, and has the request, the session, the subject and the action asked for, wherever one is given; and
      without a limit everything of that kind is returned. */
  lemma QueryFilters(q: LedgerQuery, tail: seq<Receipt>, e: Receipt)
    ensures var wanted :=
              && e in tail && (q.sinceSeq == 0 || e.number > q.sinceSeq) && (q.since == 0 || e.timestamp >= q.since)
              && (q.requestID == "" || e.requestID == q.requestID) && (q.sessionID == "" || e.sessionID == q.sessionID)
              && (q.subject == "" || e.subject == q.subject) && (q.action == "" || e.action == q.action);
            && (e in QueryResult(q, tail) ==> wanted)
            && (q.limit <= 0 || |tail| <= q.limit ==> wanted ==> e in QueryResult(q, tail))
  {
    MatchingIsFilter(q, tail, e);
    MatchingShort(q, tail);
  }

  lemma {:induction false} MatchingPrefix(q: LedgerQuery, s: seq<Receipt>, i: nat)
    requires i <= |s|
    ensures Matching(q, s[..i]) <= Matching(q, s)
  {
    if i < |s| {
      var n := |s| - 1;
      assert s[..n][..i] == s[..i];
      MatchingPrefix(q, s[..n], i);
    } else {
      assert s[..i] == s;
    }
  }

  lemma {:induction false} MatchingShort(q: LedgerQuery, s: seq<Receipt>)
    ensures |Matching(q, s)| <= |s|
  {
    if s != [] {
      MatchingShort(q, s[..|s| - 1]);
    }
  }
}
