/** Reading the ledger page by page: each request asks for entries after the last number of
    the previous page, until a page comes back empty. */
module Paging {
  import opened Receipts
  import opened ReceiptLedger
  import Sequences

  predicate Positive(tail: seq<Receipt>) {
    forall i :: 0 <= i < |tail| ==> tail[i].number > 0
  }

  predicate Increasing(tail: seq<Receipt>) {
    forall i, j :: 0 <= i < j < |tail| ==> tail[i].number < tail[j].number
  }

  function Newer(q: LedgerQuery, since: nat): LedgerQuery {
    q.(sinceSeq := since)
  }

  /** Every page but the last: all of the matches, or as many as the limit. */
  function PageThrough(q: LedgerQuery, tail: seq<Receipt>): seq<Receipt>
    requires Positive(tail)
    decreases |Matching(q, tail)|
  {
    var page := QueryResult(q, tail);
    if page == [] then []
    else
      PageShrinks(q, tail);
      page + PageThrough(Newer(q, page[|page| - 1].number), tail)
  }

  // ---------- matches as a subsequence ----------

  lemma {:induction false} MatchesOnly(q: LedgerQuery, s: seq<Receipt>)
    requires Positive(s)
    ensures forall i :: 0 <= i < |Matching(q, s)| ==>
            Matches(q, Matching(q, s)[i]) && Matching(q, s)[i].number > q.sinceSeq
  {
    if s != [] {
      MatchesOnly(q, s[..|s| - 1]);
    }
  }

  /** Raising the lower bound filters the matches further. */
  lemma {:induction false} NewerFilters(q: LedgerQuery, s: seq<Receipt>, since: nat)
    requires q.sinceSeq <= since && 0 < since
    ensures Matching(Newer(q, since), s) == Above(Matching(q, s), since)
  {
    if s != [] {
      var n := |s| - 1;
      NewerFilters(q, s[..n], since);
      var m := Matching(q, s[..n]);
      if Matches(q, s[n]) {
        assert (m + [s[n]])[..|m|] == m;
      } else {
        assert m + [] == m;
      }
    }
  }

  function Above(s: seq<Receipt>, since: nat): seq<Receipt> {
    if s == [] then []
    else Above(s[..|s| - 1], since) + if s[|s| - 1].number > since then [s[|s| - 1]] else []
  }

  lemma {:induction false} AboveLength(s: seq<Receipt>, since: nat, k: nat)
    requires k < |s| && s[k].number <= since
    ensures |Above(s, since)| < |s|
  {
    var n := |s| - 1;
    if k < n {
      AboveLength(s[..n], since, k);
    } else {
      AboveAtMost(s[..n], since);
    }
  }

  lemma {:induction false} AboveAtMost(s: seq<Receipt>, since: nat)
    ensures |Above(s, since)| <= |s|
  {
    if s != [] {
      AboveAtMost(s[..|s| - 1], since);
    }
  }

  lemma PageShrinks(q: LedgerQuery, tail: seq<Receipt>)
    requires Positive(tail) && QueryResult(q, tail) != []
    ensures var page := QueryResult(q, tail);
            |Matching(Newer(q, page[|page| - 1].number), tail)| < |Matching(q, tail)|
  {
    var m, page := Matching(q, tail), QueryResult(q, tail);
    var k := |page| - 1;
    MatchesOnly(q, tail);
    assert page[k] == m[k];
    NewerFilters(q, tail, m[k].number);
    AboveLength(m, m[k].number, k);
  }

  // ---------- numbers in order ----------

  lemma {:induction false} MatchingIncreasing(q: LedgerQuery, s: seq<Receipt>)
    requires Increasing(s)
    ensures Increasing(Matching(q, s))
    ensures s != [] ==> forall i :: 0 <= i < |Matching(q, s)| ==> Matching(q, s)[i].number <= s[|s| - 1].number
  {
    if s != [] {
      var n := |s| - 1;
      MatchingIncreasing(q, s[..n]);
    }
  }

  lemma {:induction false} AboveOfIncreasing(m: seq<Receipt>, k: nat)
    requires Increasing(m) && k < |m|
    ensures Above(m, m[k].number) == m[k + 1..]
  {
    var n := |m| - 1;
    if k == n {
      NothingAbove(m, m[k].number);
    } else {
      AboveOfIncreasing(m[..n], k);
      assert m[k + 1..] == m[..n][k + 1..] + [m[n]];
    }
  }

  lemma {:induction false} NothingAbove(m: seq<Receipt>, since: nat)
    requires forall i :: 0 <= i < |m| ==> m[i].number <= since
    ensures Above(m, since) == []
  {
    if m != [] {
      NothingAbove(m[..|m| - 1], since);
    }
  }

  /** What is left to visit after a page. */
  lemma RestOfMatches(q: LedgerQuery, tail: seq<Receipt>)
    requires Positive(tail) && Increasing(tail) && QueryResult(q, tail) != []
    ensures var page := QueryResult(q, tail);
            Matching(q, tail) == page + Matching(Newer(q, page[|page| - 1].number), tail)
  {
    var m, page := Matching(q, tail), QueryResult(q, tail);
    var k := |page| - 1;
    assert page == m[..k + 1] && m == m[..k + 1] + m[k + 1..];
    MatchesOnly(q, tail);
    MatchingIncreasing(q, tail);
    NewerFilters(q, tail, m[k].number);
    AboveOfIncreasing(m, k);
  }

  /** While numbers increase along the ring, paging visits every retained match exactly once, in order. */
  lemma {:induction false} PagingVisitsAll(q: LedgerQuery, tail: seq<Receipt>)
    requires Positive(tail) && Increasing(tail)
    ensures PageThrough(q, tail) == Matching(q, tail)
    decreases |Matching(q, tail)|
  {
    var page := QueryResult(q, tail);
    if page != [] {
      PageShrinks(q, tail);
      PagingVisitsAll(Newer(q, page[|page| - 1].number), tail);
      RestOfMatches(q, tail);
    }
  }

  /** In the sequential ledger they do. */
  lemma LedgerTailIsIncreasing(log: seq<Receipt>, size: nat)
    requires NumberedFromOne(log)
    ensures Positive(Sequences.Last(log, size)) && Increasing(Sequences.Last(log, size))
  {
  }

  // ---------- pages read while the ledger grows ----------

  /** The log at each read: it only grows, and the numbers are those of sequential appends. */
  ghost predicate Growing(logs: seq<seq<Receipt>>) {
    && (forall i :: 0 <= i < |logs| ==> NumberedFromOne(logs[i]))
    && (forall i :: 0 < i < |logs| ==> logs[i - 1] <= logs[i])
  }

  function PageAt(q: LedgerQuery, since: nat, log: seq<Receipt>, size: nat): seq<Receipt> {
    QueryResult(Newer(q, since), Sequences.Last(log, size))
  }

  function NextCursor(since: nat, page: seq<Receipt>): nat {
    if page == [] then since else page[|page| - 1].number
  }

  /** The number the next read asks after: the last one seen, or the query's own lower bound. */
  function Cursor(q: LedgerQuery, logs: seq<seq<Receipt>>, size: nat): nat {
    if logs == [] then q.sinceSeq
    else
      var n := |logs| - 1;
      var since := Cursor(q, logs[..n], size);
      NextCursor(since, PageAt(q, since, logs[n], size))
  }

  /** Everything the reads return, each from the ring as it is at that moment. */
  function Visited(q: LedgerQuery, logs: seq<seq<Receipt>>, size: nat): seq<Receipt> {
    if logs == [] then []
    else
      var n := |logs| - 1;
      Visited(q, logs[..n], size) + PageAt(q, Cursor(q, logs[..n], size), logs[n], size)
  }

  /** What is visited so far is in order and below the cursor, comes from the log and matches. */
  ghost predicate InOrder(q: LedgerQuery, visited: seq<Receipt>, cursor: nat, log: seq<Receipt>) {
    && Increasing(visited)
    && (forall i :: 0 <= i < |visited| ==> visited[i].number <= cursor && Matches(q, visited[i]) && visited[i] in log)
    && (cursor == q.sinceSeq || cursor <= |log|)
  }

  /** No match that the ring still holds has been passed over. */
  ghost predicate NonePassed(q: LedgerQuery, visited: seq<Receipt>, cursor: nat, tail: seq<Receipt>) {
    forall e :: e in tail && Matches(q, e) && e.number <= cursor ==> e in visited
  }

  /** The page has as many entries as the limit allows, so there may be more. */
  predicate Full(q: LedgerQuery, page: seq<Receipt>) {
    0 < q.limit <= |page|
  }

  ghost predicate HasAll(q: LedgerQuery, visited: seq<Receipt>, tail: seq<Receipt>) {
    forall e :: e in tail && Matches(q, e) ==> e in visited
  }

  predicate Retained(log: seq<Receipt>, size: nat, e: Receipt) {
    0 < e.number <= |log| < e.number + size && log[e.number - 1] == e
  }

  lemma TailIsRetained(log: seq<Receipt>, size: nat, e: Receipt)
    requires NumberedFromOne(log) && e in Sequences.Last(log, size)
    ensures Retained(log, size, e)
  {
    var tail := Sequences.Last(log, size);
    var i :| 0 <= i < |tail| && tail[i] == e;
    assert e == log[|log| - |tail| + i];
  }

  lemma RetainedIsInTail(log: seq<Receipt>, size: nat, e: Receipt)
    requires Retained(log, size, e)
    ensures e in Sequences.Last(log, size)
  {
    var tail := Sequences.Last(log, size);
    assert tail[e.number - 1 - (|log| - |tail|)] == e;
  }

  lemma TailEntry(log: seq<Receipt>, size: nat, e: Receipt)
    requires NumberedFromOne(log)
    ensures e in Sequences.Last(log, size) <==> Retained(log, size, e)
  {
    if e in Sequences.Last(log, size) {
      TailIsRetained(log, size, e);
    }
    if Retained(log, size, e) {
      RetainedIsInTail(log, size, e);
    }
  }

  /** An entry the ring still holds was in it at every earlier read that came after its append. */
  lemma StillThere(log: seq<Receipt>, grown: seq<Receipt>, size: nat, e: Receipt)
    requires NumberedFromOne(log) && NumberedFromOne(grown) && log <= grown
    requires e in Sequences.Last(grown, size) && e.number <= |log|
    ensures e in Sequences.Last(log, size)
  {
    TailEntry(grown, size, e);
    TailEntry(log, size, e);
  }

  /** A page is in order, new, matching and taken from the ring. */
  lemma PageIsNew(q: LedgerQuery, since: nat, tail: seq<Receipt>)
    requires Positive(tail) && Increasing(tail) && q.sinceSeq <= since
    ensures var page := QueryResult(Newer(q, since), tail);
            && Increasing(page)
            && forall i :: 0 <= i < |page| ==> page[i].number > since && Matches(q, page[i]) && page[i] in tail
  {
    var m := Matching(Newer(q, since), tail);
    MatchingIncreasing(Newer(q, since), tail);
    MatchesOnly(Newer(q, since), tail);
    forall i | 0 <= i < |m|
      ensures m[i] in tail && Matches(q, m[i])
    {
      MatchingIsFilter(Newer(q, since), tail, m[i]);
    }
  }

  /** A page holds every match above the cursor up to its own last number, and every one when it is not full. */
  lemma PageIsComplete(q: LedgerQuery, since: nat, tail: seq<Receipt>, e: Receipt)
    requires Positive(tail) && Increasing(tail) && q.sinceSeq <= since
    requires e in tail && Matches(q, e) && e.number > since
    ensures var page := QueryResult(Newer(q, since), tail);
            && page != []
            && (e.number <= page[|page| - 1].number ==> e in page)
            && (!Full(q, page) ==> e in page)
  {
    var m, page := Matching(Newer(q, since), tail), QueryResult(Newer(q, since), tail);
    MatchingIncreasing(Newer(q, since), tail);
    MatchingIsFilter(Newer(q, since), tail, e);
    var i :| 0 <= i < |m| && m[i] == e;
    assert i < |page| ==> page[i] == e;
  }

  lemma OrderConcat(a: seq<Receipt>, since: nat, b: seq<Receipt>)
    requires Increasing(a) && Increasing(b)
    requires forall i :: 0 <= i < |a| ==> a[i].number <= since
    requires forall i :: 0 <= i < |b| ==> since < b[i].number
    ensures Increasing(a + b) && since <= NextCursor(since, b)
    ensures forall i :: 0 <= i < |a + b| ==> (a + b)[i].number <= NextCursor(since, b)
  {
  }

  lemma ReadKeepsOrder(
      q: LedgerQuery, visited: seq<Receipt>, since: nat, earlier: seq<Receipt>, log: seq<Receipt>, size: nat)
    requires NumberedFromOne(log) && earlier <= log && q.sinceSeq <= since && InOrder(q, visited, since, earlier)
    ensures var page := PageAt(q, since, log, size);
            since <= NextCursor(since, page) && InOrder(q, visited + page, NextCursor(since, page), log)
  {
    var tail, page := Sequences.Last(log, size), PageAt(q, since, log, size);
    LedgerTailIsIncreasing(log, size);
    PageIsNew(q, since, tail);
    OrderConcat(visited, since, page);
    if page != [] {
      TailEntry(log, size, page[|page| - 1]);
    }
    var all := visited + page;
    forall i | 0 <= i < |all|
      ensures Matches(q, all[i]) && all[i] in log
    {
      if i < |visited| {
        assert all[i] == visited[i] && visited[i] in earlier;
      } else {
        assert all[i] == page[i - |visited|];
        TailEntry(log, size, all[i]);
      }
    }
  }

  lemma ReadPassesNot(q: LedgerQuery, visited: seq<Receipt>, since: nat, earlier: seq<Receipt>, log: seq<Receipt>,
                      size: nat, e: Receipt)
    requires NumberedFromOne(earlier) && NumberedFromOne(log) && earlier <= log && q.sinceSeq <= since
    requires InOrder(q, visited, since, earlier) && NonePassed(q, visited, since, Sequences.Last(earlier, size))
    requires e in Sequences.Last(log, size) && Matches(q, e)
    ensures var page := PageAt(q, since, log, size);
            e.number <= NextCursor(since, page) || !Full(q, page) ==> e in visited || e in page
  {
    LedgerTailIsIncreasing(log, size);
    TailEntry(log, size, e);
    if e.number > since {
      PageIsComplete(q, since, Sequences.Last(log, size), e);
    } else {
      StillThere(earlier, log, size, e);
    }
  }

  lemma ReadPassesNone(
      q: LedgerQuery, visited: seq<Receipt>, since: nat, earlier: seq<Receipt>, log: seq<Receipt>, size: nat)
    requires NumberedFromOne(earlier) && NumberedFromOne(log) && earlier <= log && q.sinceSeq <= since
    requires InOrder(q, visited, since, earlier) && NonePassed(q, visited, since, Sequences.Last(earlier, size))
    ensures var page := PageAt(q, since, log, size);
            && NonePassed(q, visited + page, NextCursor(since, page), Sequences.Last(log, size))
            && (!Full(q, page) ==> HasAll(q, visited + page, Sequences.Last(log, size)))
  {
    forall e | e in Sequences.Last(log, size) && Matches(q, e)
      ensures var page := PageAt(q, since, log, size);
              e.number <= NextCursor(since, page) || !Full(q, page) ==> e in visited + page
    {
      ReadPassesNot(q, visited, since, earlier, log, size, e);
    }
  }

  /** What holds after every read. */
  ghost predicate ReadSoFar(q: LedgerQuery, visited: seq<Receipt>, cursor: nat, log: seq<Receipt>, size: nat) {
    q.sinceSeq <= cursor && InOrder(q, visited, cursor, log)
      && NonePassed(q, visited, cursor, Sequences.Last(log, size))
  }

  lemma OneRead(q: LedgerQuery, visited: seq<Receipt>, since: nat, earlier: seq<Receipt>, log: seq<Receipt>, size: nat)
    requires NumberedFromOne(earlier) && NumberedFromOne(log) && earlier <= log
    requires ReadSoFar(q, visited, since, earlier, size)
    ensures var page := PageAt(q, since, log, size);
            && ReadSoFar(q, visited + page, NextCursor(since, page), log, size)
            && (!Full(q, page) ==> HasAll(q, visited + page, Sequences.Last(log, size)))
  {
    ReadKeepsOrder(q, visited, since, earlier, log, size);
    ReadPassesNone(q, visited, since, earlier, log, size);
  }

  lemma NothingRead(q: LedgerQuery, size: nat)
    ensures NumberedFromOne([]) && ReadSoFar(q, [], q.sinceSeq, [], size)
  {
  }

  /** The page of the last read. */
  function LastPage(q: LedgerQuery, logs: seq<seq<Receipt>>, size: nat): seq<Receipt>
    requires logs != []
  {
    var n := |logs| - 1;
    PageAt(q, Cursor(q, logs[..n], size), logs[n], size)
  }

  /** The log at the last read, empty before any. */
  function LogNow(logs: seq<seq<Receipt>>): seq<Receipt> {
    if logs == [] then [] else logs[|logs| - 1]
  }

  lemma GrowingInit(logs: seq<seq<Receipt>>)
    requires Growing(logs) && logs != []
    ensures var init := logs[..|logs| - 1];
            Growing(init) && NumberedFromOne(LogNow(init)) && NumberedFromOne(LogNow(logs))
              && LogNow(init) <= LogNow(logs)
  {
  }

  lemma {:induction false} ReadsKeep(q: LedgerQuery, logs: seq<seq<Receipt>>, size: nat)
    requires Growing(logs)
    ensures ReadSoFar(q, Visited(q, logs, size), Cursor(q, logs, size), LogNow(logs), size)
    ensures logs != [] && !Full(q, LastPage(q, logs, size)) ==>
              HasAll(q, Visited(q, logs, size), Sequences.Last(LogNow(logs), size))
    decreases |logs|
  {
    if logs == [] {
      NothingRead(q, size);
    } else {
      var init := logs[..|logs| - 1];
      GrowingInit(logs);
      ReadsKeep(q, init, size);
      OneRead(q, Visited(q, init, size), Cursor(q, init, size), LogNow(init), LogNow(logs), size);
    }
  }

  lemma {:induction false} AboveIsFilter(s: seq<Receipt>, since: nat, e: Receipt)
    ensures e in Above(s, since) <==> e in s && e.number > since
  {
    if s != [] {
      var n := |s| - 1;
      AboveIsFilter(s[..n], since, e);
      assert e in s <==> e in s[..n] || e == s[n];
    }
  }

  lemma {:induction false} AboveIncreasing(s: seq<Receipt>, since: nat)
    requires Increasing(s)
    ensures Increasing(Above(s, since))
  {
    if s != [] {
      var n := |s| - 1;
      AboveIncreasing(s[..n], since);
      forall i | 0 <= i < |Above(s[..n], since)|
        ensures Above(s[..n], since)[i].number < s[n].number
      {
        AboveIsFilter(s[..n], since, Above(s[..n], since)[i]);
      }
    }
  }

  ghost predicate SameMembers(a: seq<Receipt>, b: seq<Receipt>) {
    forall e :: e in a <==> e in b
  }

  lemma SameLast(a: seq<Receipt>, b: seq<Receipt>)
    requires Increasing(a) && Increasing(b) && a != [] && SameMembers(a, b)
    ensures b != [] && a[|a| - 1] == b[|b| - 1] && SameMembers(a[..|a| - 1], b[..|b| - 1])
  {
    var x := a[|a| - 1];
    assert x in a && x in b;
    var y := b[|b| - 1];
    assert y in b && y in a;
    assert x == y;
    var a', b' := a[..|a| - 1], b[..|b| - 1];
    forall e
      ensures e in a' <==> e in b'
    {
      assert e in a <==> e in a' || e == x;
      assert e in b <==> e in b' || e == x;
    }
  }

  lemma {:induction false} MembersDetermine(a: seq<Receipt>, b: seq<Receipt>)
    requires Increasing(a) && Increasing(b) && SameMembers(a, b)
    ensures a == b
  {
    assert b != [] ==> b[0] in b;
    if a != [] {
      SameLast(a, b);
      MembersDetermine(a[..|a| - 1], b[..|b| - 1]);
    }
  }

  /** The number of the newest entry the ring has let go of. */
  function Evicted(log: seq<Receipt>, size: nat): nat {
    if |log| <= size then 0 else |log| - size
  }

  lemma RetainedMembers(q: LedgerQuery, visited: seq<Receipt>, cursor: nat, log: seq<Receipt>, size: nat)
    requires NumberedFromOne(log) && InOrder(q, visited, cursor, log) && HasAll(q, visited, Sequences.Last(log, size))
    ensures SameMembers(Above(visited, Evicted(log, size)), Matching(q, Sequences.Last(log, size)))
  {
    forall e
      ensures e in Above(visited, Evicted(log, size)) <==> e in Matching(q, Sequences.Last(log, size))
    {
      AboveIsFilter(visited, Evicted(log, size), e);
      MatchingIsFilter(q, Sequences.Last(log, size), e);
      TailEntry(log, size, e);
      assert e in visited ==> e in log && Matches(q, e);
    }
  }

  /** Paging while the ledger grows and evicts: nothing is returned twice or out of order, everything returned is a
      match, and once a page is not full, what the reads returned, without what has been evicted since, is exactly
      the matches still retained. */
  lemma LivePaging(q: LedgerQuery, logs: seq<seq<Receipt>>, size: nat)
    requires Growing(logs) && logs != []
    ensures var visited, log := Visited(q, logs, size), LogNow(logs);
            && Increasing(visited) && (forall e :: e in visited ==> e in Matching(q, log))
            && (!Full(q, LastPage(q, logs, size)) ==>
                  Above(visited, Evicted(log, size)) == Matching(q, Sequences.Last(log, size)))
  {
    var visited, log := Visited(q, logs, size), LogNow(logs);
    ReadsKeep(q, logs, size);
    forall e | e in visited
      ensures e in Matching(q, log)
    {
      MatchingIsFilter(q, log, e);
    }
    if !Full(q, LastPage(q, logs, size)) {
      GrowingInit(logs);
      RetainedMembers(q, visited, Cursor(q, logs, size), log, size);
      AboveIncreasing(visited, Evicted(log, size));
      LedgerTailIsIncreasing(log, size);
      MatchingIncreasing(q, Sequences.Last(log, size));
      MembersDetermine(Above(visited, Evicted(log, size)), Matching(q, Sequences.Last(log, size)));
    }
  }

  // ---------- and when they do not ----------

  function Everything(limit: int): LedgerQuery {
    LedgerQuery("", "", "", "", 0, 0, limit)
  }

  lemma {:induction false} EverythingMatches(limit: int, s: seq<Receipt>)
    ensures Matching(Everything(limit), s) == s
  {
    if s != [] {
      EverythingMatches(limit, s[..|s| - 1]);
    }
  }

  lemma {:induction false} PagesAbove(q: LedgerQuery, tail: seq<Receipt>)
    requires Positive(tail)
    ensures forall i :: 0 <= i < |PageThrough(q, tail)| ==> PageThrough(q, tail)[i].number > q.sinceSeq
    decreases |Matching(q, tail)|
  {
    var page := QueryResult(q, tail);
    MatchesOnly(q, tail);
    if page != [] {
      PageShrinks(q, tail);
      PagesAbove(Newer(q, page[|page| - 1].number), tail);
    }
  }

  /** A page that ends just before a smaller number hides it for good. */
  lemma PagingMissesInversion(tail: seq<Receipt>, i: nat)
    requires Positive(tail) && i + 1 < |tail| && tail[i + 1].number <= tail[i].number
    ensures PageThrough(Everything(i + 1), tail) != tail
  {
    var q := Everything(i + 1);
    EverythingMatches(i + 1, tail);
    assert QueryResult(q, tail) == tail[..i + 1];
    var rest := PageThrough(Newer(q, tail[i].number), tail);
    PagesAbove(Newer(q, tail[i].number), tail);
    assert PageThrough(q, tail) == tail[..i + 1] + rest;
    SmallerIsMissing(tail, i, rest);
  }

  lemma SmallerIsMissing(tail: seq<Receipt>, i: nat, rest: seq<Receipt>)
    requires i + 1 < |tail| && tail[i + 1].number <= tail[i].number
    requires rest != [] ==> rest[0].number > tail[i].number
    ensures tail[..i + 1] + rest != tail
  {
    var all := tail[..i + 1] + rest;
    assert |all| == |tail| ==> all[i + 1] == rest[0];
  }

  lemma {:induction false} FindInversion(tail: seq<Receipt>) returns (i: nat)
    requires !Increasing(tail)
    ensures i + 1 < |tail| && tail[i + 1].number <= tail[i].number
  {
    var n := |tail| - 1;
    if !Increasing(tail[..n]) {
      i := FindInversion(tail[..n]);
    } else {
      i := n - 1;
    }
  }

  ghost predicate PagingIsComplete(tail: seq<Receipt>)
    requires Positive(tail)
  {
    forall limit: int :: limit > 0 ==> PageThrough(Everything(limit), tail) == tail
  }

  /** The doc comment of Query promises results in number order. Paging depends on it: it is complete
      for every page size exactly when the numbers increase along the ring. */
  lemma PagingCompleteIff(tail: seq<Receipt>)
    requires Positive(tail)
    ensures PagingIsComplete(tail) <==> Increasing(tail)
  {
    if Increasing(tail) {
      forall limit: int | limit > 0
        ensures PageThrough(Everything(limit), tail) == tail
      {
        PagingVisitsAll(Everything(limit), tail);
        EverythingMatches(limit, tail);
      }
    } else {
      var i := FindInversion(tail);
      PagingMissesInversion(tail, i);
    }
  }
}
