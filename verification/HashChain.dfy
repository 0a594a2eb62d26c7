/** The hash chain inside one ledger file: verification, recovery of the last hash,
    and what an equal last hash proves about two files. */
module HashChain {
  import opened Wrappers
  import opened Receipts
  import opened Text

  type Hash = string

  const GENESIS: Hash := "0000000000000000000000000000000000000000000000000000000000000000"

  datatype PersistentEntry = PersistentEntry(receipt: Receipt, prevHash: Hash)

  /** JSON and SHA-256 are parameters: every result below holds for all of them. */
  datatype Codec = Codec(
    marshal: PersistentEntry -> Option<string>,
    unmarshal: string -> Option<PersistentEntry>,
    sha256Hex: string -> Hash)

  /** What is used of encoding/json: a marshalled entry is one non-empty line from which
      its chain field and sequence number come back. */
  ghost predicate Lawful(c: Codec) {
    forall e :: c.marshal(e).Some? ==> LawfulLine(c, e, c.marshal(e).value)
  }

  predicate LawfulLine(c: Codec, e: PersistentEntry, line: string) {
    IsEntryLine(line) && c.unmarshal(line).Some?
    && c.unmarshal(line).value.prevHash == e.prevHash
    && c.unmarshal(line).value.receipt.number == e.receipt.number
  }

  predicate IsEntryLine(line: string) {
    line != "" && '\n' !in line && '\r' !in line
  }

  function NonEmpty(lines: seq<string>): seq<string> {
    if lines == [] then []
    else NonEmpty(lines[..|lines| - 1]) + NonEmptyLine(lines[|lines| - 1])
  }

  function NonEmptyLine(line: string): seq<string> {
    if line == "" then [] else [line]
  }

  lemma NonEmptyNext(lines: seq<string>, i: nat)
    requires i < |lines|
    ensures NonEmpty(lines[..i + 1]) == if lines[i] == "" then NonEmpty(lines[..i])
            else NonEmpty(lines[..i]) + [lines[i]]
  {
    assert lines[..i + 1][..i] == lines[..i];
    assert NonEmpty(lines[..i]) + [] == NonEmpty(lines[..i]);
  }

  lemma {:induction false} NonEmptyPrefix(lines: seq<string>, i: nat)
    requires i <= |lines|
    ensures NonEmpty(lines[..i]) <= NonEmpty(lines)
  {
    if i < |lines| {
      var n := |lines| - 1;
      assert lines[..n][..i] == lines[..i];
      NonEmptyPrefix(lines[..n], i);
    } else {
      assert lines[..i] == lines;
    }
  }

  /** The lines the verifier looks at. */
  function EntryLines(data: string): seq<string> {
    NonEmpty(ScanLines(data))
  }

  function HeadHash(c: Codec, prev: Hash, lines: seq<string>): Hash {
    if lines == [] then prev else c.sha256Hex(lines[|lines| - 1])
  }

  predicate Links(c: Codec, line: string, prev: Hash) {
    c.unmarshal(line).Some? && c.unmarshal(line).value.prevHash == prev
  }

  /** Every line names the hash of its predecessor, the first one `prev`. */
  predicate Chained(c: Codec, prev: Hash, lines: seq<string>) {
    lines == [] ||
    var n := |lines| - 1;
    Chained(c, prev, lines[..n]) && Links(c, lines[n], HeadHash(c, prev, lines[..n]))
  }

  lemma {:induction false} ChainedPrefix(c: Codec, prev: Hash, lines: seq<string>, n: nat)
    requires n <= |lines| && Chained(c, prev, lines)
    ensures Chained(c, prev, lines[..n])
  {
    if n < |lines| {
      var m := |lines| - 1;
      assert lines[..m][..n] == lines[..n];
      ChainedPrefix(c, prev, lines[..m], n);
    } else {
      assert lines[..n] == lines;
    }
  }

  lemma ChainedSnoc(c: Codec, prev: Hash, lines: seq<string>, line: string)
    ensures Chained(c, prev, lines + [line]) <==> Chained(c, prev, lines) && Links(c, line, HeadHash(c, prev, lines))
  {
    assert (lines + [line])[..|lines|] == lines;
  }

  predicate LinksAt(c: Codec, prev: Hash, lines: seq<string>, i: nat)
    requires i < |lines|
  {
    Links(c, lines[i], HeadHash(c, prev, lines[..i]))
  }

  /** The same, line by line. */
  lemma {:induction false} ChainedPointwise(c: Codec, prev: Hash, lines: seq<string>)
    ensures Chained(c, prev, lines) <==> forall i: nat :: i < |lines| ==> LinksAt(c, prev, lines, i)
  {
    if lines != [] {
      var n := |lines| - 1;
      var init := lines[..n];
      ChainedPointwise(c, prev, init);
      forall i: nat | i < n
        ensures LinksAt(c, prev, init, i) <==> LinksAt(c, prev, lines, i)
      {
        assert init[..i] == lines[..i];
      }
      assert LinksAt(c, prev, lines, n) <==> Links(c, lines[n], HeadHash(c, prev, init));
    }
  }

  /** Two chains laid end to end form one chain exactly when the second starts from the
      last hash of the first. */
  lemma {:induction false} ChainedConcat(c: Codec, prev: Hash, a: seq<string>, b: seq<string>)
    ensures Chained(c, prev, a + b) <==> Chained(c, prev, a) && Chained(c, HeadHash(c, prev, a), b)
    ensures HeadHash(c, prev, a + b) == HeadHash(c, HeadHash(c, prev, a), b)
  {
    if b == [] {
      assert a + b == a;
    } else {
      var n := |b| - 1;
      assert a + b == (a + b[..n]) + [b[n]] && b == b[..n] + [b[n]];
      ChainedConcat(c, prev, a, b[..n]);
      ChainedSnoc(c, prev, a + b[..n], b[n]);
      ChainedSnoc(c, HeadHash(c, prev, a), b[..n], b[n]);
    }
  }

  // ---------- the two loops over a file ----------

  /** What the verifier promises: a chained file is accepted with its number of entries,
      and otherwise `count` entries precede the first one that does not link. */
  predicate VerdictFor(c: Codec, entries: seq<string>, count: nat, ok: bool) {
    count <= |entries| && Chained(c, GENESIS, entries[..count]) &&
    if ok then count == |entries| else count < |entries| && !Chained(c, GENESIS, entries[..count + 1])
  }

  /** So the verdict is positive exactly for chained files, and it is unique. */
  lemma VerdictIsExact(c: Codec, entries: seq<string>, count: nat, ok: bool)
    requires VerdictFor(c, entries, count, ok)
    ensures ok <==> Chained(c, GENESIS, entries)
    ensures forall n: nat :: n <= |entries| ==> (Chained(c, GENESIS, entries[..n]) <==> n <= count)
  {
    assert entries[..|entries|] == entries;
    forall n: nat | n <= |entries|
      ensures Chained(c, GENESIS, entries[..n]) <==> n <= count
    {
      if n <= count {
        assert entries[..count][..n] == entries[..n];
        ChainedPrefix(c, GENESIS, entries[..count], n);
      } else if Chained(c, GENESIS, entries[..n]) {
        assert entries[..n][..count + 1] == entries[..count + 1];
        ChainedPrefix(c, GENESIS, entries[..n], count + 1);
      }
    }
  }

  method VerifyLedgerFile(c: Codec, data: string) returns (count: nat, ok: bool)
    ensures VerdictFor(c, EntryLines(data), count, ok)
  {
    var lines := ScanLines(data);
    count := 0;
    var prevHash := GENESIS;
    var i := 0;
    while i < |lines|
      invariant i <= |lines|
      invariant Verified(c, NonEmpty(lines[..i]), count, prevHash)
    {
      var line := lines[i];
      ghost var seen := NonEmpty(lines[..i]);
      NonEmptyNext(lines, i);
      i := i + 1;
      if line != "" {
        count := count + 1;
        var entry := c.unmarshal(line);
        if entry.None? || entry.value.prevHash != prevHash {
          NonEmptyPrefix(lines, i);
          BadEntry(c, EntryLines(data), seen, line);
          return count - 1, false;
        }
        GoodEntry(c, seen, line, count - 1, prevHash);
        prevHash := c.sha256Hex(line);
      }
    }
    assert lines[..i] == lines;
    assert EntryLines(data)[..count] == EntryLines(data);
    ok := true;
  }

  /** The verifier's loop invariant: `entries` were read, all of them chained. */
  predicate Verified(c: Codec, entries: seq<string>, count: nat, prevHash: Hash) {
    count == |entries| && Chained(c, GENESIS, entries) && prevHash == HeadHash(c, GENESIS, entries)
  }

  lemma GoodEntry(c: Codec, seen: seq<string>, line: string, count: nat, prevHash: Hash)
    requires Verified(c, seen, count, prevHash) && Links(c, line, prevHash)
    ensures Verified(c, seen + [line], count + 1, c.sha256Hex(line))
  {
    ChainedSnoc(c, GENESIS, seen, line);
  }

  lemma BadEntry(c: Codec, entries: seq<string>, seen: seq<string>, line: string)
    requires seen + [line] <= entries
    requires Chained(c, GENESIS, seen) && !Links(c, line, HeadHash(c, GENESIS, seen))
    ensures VerdictFor(c, entries, |seen|, false)
  {
    assert entries[..|seen|] == seen;
    assert entries[..|seen| + 1] == seen + [line];
    ChainedSnoc(c, GENESIS, seen, line);
  }

  lemma NonEmptySnoc(lines: seq<string>, l: string)
    ensures NonEmpty(lines + [l]) == NonEmpty(lines) + NonEmptyLine(l)
  {
    assert (lines + [l])[..|lines|] == lines;
  }

  lemma {:induction false} NonEmptyConcat(a: seq<string>, b: seq<string>)
    ensures NonEmpty(a + b) == NonEmpty(a) + NonEmpty(b)
  {
    if b == [] {
      assert a + b == a;
    } else {
      var init, l := b[..|b| - 1], b[|b| - 1];
      assert a + b == (a + init) + [l] && b == init + [l];
      NonEmptyConcat(a, init);
      NonEmptySnoc(a + init, l);
      NonEmptySnoc(init, l);
    }
  }

  lemma EmptyAmong(a: seq<string>, b: seq<string>)
    ensures NonEmpty(a + [""] + b) == NonEmpty(a + b) == NonEmpty(a) + NonEmpty(b)
  {
    NonEmptyConcat(a + [""], b);
    NonEmptySnoc(a, "");
    NonEmptyConcat(a, b);
  }

  lemma DropCRsAmong(a: seq<string>, b: seq<string>)
    ensures DropCRs(a + [""] + b) == DropCRs(a) + [""] + DropCRs(b) && DropCRs(a + b) == DropCRs(a) + DropCRs(b)
  {
  }

  /** An empty line anywhere in a file is no entry and changes nothing about the others. */
  lemma EmptyLineIsNoEntry(a: seq<string>, b: seq<string>)
    requires forall l :: l in a + b ==> '\n' !in l
    ensures EntryLines(Unlines(a + [""] + b)) == EntryLines(Unlines(a + b))
            == NonEmpty(DropCRs(a)) + NonEmpty(DropCRs(b))
  {
    assert forall l :: l in a + [""] + b ==> l == "" || l in a + b;
    ScanOfUnlines(a + [""] + b);
    ScanOfUnlines(a + b);
    DropCRsAmong(a, b);
    EmptyAmong(DropCRs(a), DropCRs(b));
  }

  /** The hash a reopened ledger continues from. */
  method ReadLastHash(c: Codec, data: string) returns (h: Hash)
    ensures h == HeadHash(c, GENESIS, EntryLines(data))
  {
    var lines := ScanLines(data);
    var lastLine: Option<string> := None;
    var i := 0;
    while i < |lines|
      invariant i <= |lines|
      invariant var seen := NonEmpty(lines[..i]);
                lastLine == if seen == [] then None else Some(seen[|seen| - 1])
    {
      NonEmptyNext(lines, i);
      if lines[i] != "" {
        lastLine := Some(lines[i]);
      }
      i := i + 1;
    }
    assert lines[..i] == lines;
    if lastLine.None? {
      return GENESIS;
    }
    h := c.sha256Hex(lastLine.value);
  }

  // ---------- tamper evidence ----------

  datatype Evidence = Identical | Collision(x: string, y: string) | GenesisPreimage(x: string)

  predicate Supports(e: Evidence, c: Codec, a: seq<string>, b: seq<string>) {
    match e
    case Identical => a == b
    case Collision(x, y) => x in a && y in b && x != y && c.sha256Hex(x) == c.sha256Hex(y)
    case GenesisPreimage(x) => (x in a || x in b) && c.sha256Hex(x) == GENESIS
  }

  lemma SupportsExtends(e: Evidence, c: Codec, a: seq<string>, b: seq<string>)
    requires a != [] && b != [] && a[|a| - 1] == b[|b| - 1]
    requires Supports(e, c, a[..|a| - 1], b[..|b| - 1])
    ensures Supports(e, c, a, b)
  {
    assert a == a[..|a| - 1] + [a[|a| - 1]] && b == b[..|b| - 1] + [b[|b| - 1]];
  }

  /** Given two files that verify and end in the same hash, either they hold the same
      entries or the comparison hands over a concrete break of the hash function. */
  function Compare(c: Codec, a: seq<string>, b: seq<string>): (e: Evidence)
    requires Chained(c, GENESIS, a) && Chained(c, GENESIS, b)
    requires HeadHash(c, GENESIS, a) == HeadHash(c, GENESIS, b)
    ensures Supports(e, c, a, b)
  {
    if a == [] && b == [] then Identical
    else if a == [] then GenesisPreimage(b[|b| - 1])
    else if b == [] then GenesisPreimage(a[|a| - 1])
    else
      var m, n := |a| - 1, |b| - 1;
      if a[m] != b[n] then Collision(a[m], b[n])
      else
        var e := Compare(c, a[..m], b[..n]);
        SupportsExtends(e, c, a, b);
        e
  }

  /** Tamper evidence over file contents, using exactly what the verifier accepts. */
  lemma TamperEvidence(c: Codec, fileA: string, fileB: string)
    requires Chained(c, GENESIS, EntryLines(fileA)) && Chained(c, GENESIS, EntryLines(fileB))
    requires HeadHash(c, GENESIS, EntryLines(fileA)) == HeadHash(c, GENESIS, EntryLines(fileB))
    ensures || EntryLines(fileA) == EntryLines(fileB)
            || (exists x, y ::
                  x in EntryLines(fileA) && y in EntryLines(fileB) && x != y && c.sha256Hex(x) == c.sha256Hex(y))
            || (exists x :: (x in EntryLines(fileA) || x in EntryLines(fileB)) && c.sha256Hex(x) == GENESIS)
  {
    var e := Compare(c, EntryLines(fileA), EntryLines(fileB));
  }
}
