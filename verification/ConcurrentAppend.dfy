/** Appends by any number of threads. An append takes its number, writes the ring and writes the file in
    three separate atomic actions, so the actions of different appends interleave freely. */
module ConcurrentAppend {
  import opened Wrappers
  import opened Receipts
  import opened HashChain
  import opened LedgerFile
  import opened ReceiptLedger
  import Sequences
  import LedgerRuns
  import Paging

  /** Where a thread is inside Append: before it, holding a number, or stored in the ring. */
  datatype Pc = Idle | Numbered(e: Receipt) | Stored(e: Receipt)

  /** The ring as Ledger holds it; `log` is every receipt ever stored in it, in the order of the stores. */
  datatype State = State(
    lastSeq: nat,
    threads: seq<Pc>,
    entries: seq<Receipt>,
    head: nat,
    count: nat,
    log: seq<Receipt>,
    fileSteps: seq<LedgerRuns.Step>,
    failed: seq<Receipt>)

  datatype Action =
    | TakeNumber(t: nat, r: Receipt, now: int)
    | WriteRing(t: nat)
    | WriteFile(t: nat, how: Rotation, diskOk: bool)

  const BLANK := Receipt(0, 0, "", "", "", "", "", "", 0, "")

  /** A new process opens the file that an earlier run left behind; numbers start again at zero. */
  function Start(prior: seq<LedgerRuns.Step>, threads: nat, size: nat): State {
    State(0, seq(threads, _ => Idle), seq(size, _ => BLANK), 0, 0, [], prior + [LedgerRuns.Reopen], [])
  }

  predicate Enabled(s: State, a: Action) {
    a.t < |s.threads| && s.head < |s.entries| &&
    match a
    case TakeNumber(t, _, _) => s.threads[t].Idle?
    case WriteRing(t) => s.threads[t].Numbered?
    case WriteFile(t, _, _) => s.threads[t].Stored?
  }

  function Next(c: Codec, s: State, a: Action): State
    requires Enabled(s, a)
  {
    match a
    case TakeNumber(t, r, now) =>
      var n := s.lastSeq + 1;
      s.(lastSeq := n, threads := s.threads[t := Numbered(Stamp(r, n, now))])
    case WriteRing(t) =>
      var e := s.threads[t].e;
      s.(entries := s.entries[s.head := e], head := Wrap(s.head + 1, |s.entries|),
      count := if s.count < |s.entries| then s.count + 1 else s.count,
      log := s.log + [e], threads := s.threads[t := Stored(e)])
    case WriteFile(t, how, diskOk) =>
      var e := s.threads[t].e;
      var step := LedgerRuns.Write(e, how, diskOk);
      var written := LedgerRuns.Added(c, LedgerRuns.Run(c, s.fileSteps), step).Some?;
      s.(fileSteps := s.fileSteps + [step],
      failed := if written then s.failed else s.failed + [e],
      threads := s.threads[t := Idle])
  }

  predicate Follows(c: Codec, s: State, a: Action, s': State) {
    Enabled(s, a) && s' == Next(c, s, a)
  }

  /** The states of some interleaving of one process that opens what the earlier run `prior` left. */
  predicate Execution(c: Codec, prior: seq<LedgerRuns.Step>, states: seq<State>, actions: seq<Action>) {
    && |states| == |actions| + 1 && 0 < |states[0].entries|
    && states[0] == Start(prior, |states[0].threads|, |states[0].entries|)
    && forall i :: 0 <= i < |actions| ==> Follows(c, states[i], actions[i], states[i + 1])
  }

  lemma ExecutionPrefix(c: Codec, prior: seq<LedgerRuns.Step>, states: seq<State>, actions: seq<Action>)
    requires Execution(c, prior, states, actions) && actions != []
    ensures var n := |actions| - 1;
            Execution(c, prior, states[..n + 1], actions[..n]) && Follows(c, states[n], actions[n], states[n + 1])
  {
  }

  // ---------- where a number is ----------

  function One(b: bool): nat {
    if b then 1 else 0
  }

  /** How often number k occurs among receipts, in file lines, and in the hands of threads. */
  function Count(s: seq<Receipt>, k: nat): nat {
    if s == [] then 0 else Count(s[..|s| - 1], k) + One(s[|s| - 1].number == k)
  }

  function HasNumber(c: Codec, line: string, k: nat): bool {
    c.unmarshal(line).Some? && c.unmarshal(line).value.receipt.number == k
  }

  function CountLines(c: Codec, lines: seq<string>, k: nat): nat {
    if lines == [] then 0
    else CountLines(c, lines[..|lines| - 1], k) + One(HasNumber(c, lines[|lines| - 1], k))
  }

  function CountNumbered(threads: seq<Pc>, k: nat): nat {
    if threads == [] then 0
    else One(threads[0].Numbered? && threads[0].e.number == k) + CountNumbered(threads[1..], k)
  }

  function CountStored(threads: seq<Pc>, k: nat): nat {
    if threads == [] then 0
    else One(threads[0].Stored? && threads[0].e.number == k) + CountStored(threads[1..], k)
  }

  lemma {:induction false} ThreadMoves(threads: seq<Pc>, t: nat, pc: Pc, k: nat)
    requires t < |threads|
    ensures CountNumbered(threads[t := pc], k) + One(threads[t].Numbered? && threads[t].e.number == k)
         == CountNumbered(threads, k) + One(pc.Numbered? && pc.e.number == k)
    ensures CountStored(threads[t := pc], k) + One(threads[t].Stored? && threads[t].e.number == k)
         == CountStored(threads, k) + One(pc.Stored? && pc.e.number == k)
  {
    var moved := threads[t := pc];
    if t == 0 {
      assert moved[1..] == threads[1..];
    } else {
      assert moved[1..] == threads[1..][t - 1 := pc];
      ThreadMoves(threads[1..], t - 1, pc, k);
    }
  }

  lemma CountSnoc(s: seq<Receipt>, e: Receipt, k: nat)
    ensures Count(s + [e], k) == Count(s, k) + One(e.number == k)
  {
    assert (s + [e])[..|s|] == s;
  }

  predicate Quiescent(s: State) {
    forall t :: 0 <= t < |s.threads| ==> s.threads[t].Idle?
  }

  lemma {:induction false} NobodyHolds(threads: seq<Pc>, k: nat)
    requires forall t :: 0 <= t < |threads| ==> threads[t].Idle?
    ensures CountNumbered(threads, k) == 0 && CountStored(threads, k) == 0
  {
    if threads != [] {
      NobodyHolds(threads[1..], k);
    }
  }

  // ---------- the invariant ----------

  function FileLines(c: Codec, s: State): seq<string> {
    LedgerRuns.Written(c, s.fileSteps)
  }

  /** Number k, if taken, is in exactly one place on each leg of its way; the file holds the earlier lines too. */
  predicate Accounted(c: Codec, s: State, k: nat, earlier: nat) {
    && One(1 <= k <= s.lastSeq) == Count(s.log, k) + CountNumbered(s.threads, k)
    && earlier + Count(s.log, k)
       == CountLines(c, FileLines(c, s), k) + CountStored(s.threads, k) + Count(s.failed, k)
  }

  /** How often the lines of an earlier run carry number k. */
  function Earlier(c: Codec, prior: seq<LedgerRuns.Step>, k: nat): nat {
    CountLines(c, LedgerRuns.Written(c, prior), k)
  }

  /** What the ring stands for. */
  function Tail(s: State): seq<Receipt> {
    Sequences.Last(s.log, |s.entries|)
  }

  ghost predicate RingIsTail(s: State) {
    Represents(s.entries, s.head, s.count, s.log)
  }

  lemma StartIsAccounted(c: Codec, prior: seq<LedgerRuns.Step>, threads: nat, size: nat, k: nat)
    ensures Accounted(c, Start(prior, threads, size), k, Earlier(c, prior, k))
  {
    NobodyHolds(Start(prior, threads, size).threads, k);
    LedgerRuns.RunSnoc(c, prior, LedgerRuns.Reopen);
  }

  /** One more write leaves one more line with the receipt's number, unless it fails. */
  lemma WriteCounts(c: Codec, steps: seq<LedgerRuns.Step>, e: Receipt, how: Rotation, diskOk: bool, k: nat)
    requires Lawful(c)
    ensures var step := LedgerRuns.Write(e, how, diskOk);
            var written := LedgerRuns.Added(c, LedgerRuns.Run(c, steps), step).Some?;
            CountLines(c, LedgerRuns.Written(c, steps + [step]), k)
              == CountLines(c, LedgerRuns.Written(c, steps), k) + One(written && e.number == k)
  {
    var step := LedgerRuns.Write(e, how, diskOk);
    var s := LedgerRuns.Run(c, steps);
    LedgerRuns.RunSnoc(c, steps, step);
    var line := LedgerRuns.Added(c, s, step);
    if line.Some? {
      var before := LedgerRuns.Written(c, steps);
      assert LawfulLine(c, PersistentEntry(e, BeforeWrite(s, how).prevHash), line.value);
      assert (before + [line.value])[..|before|] == before;
    }
  }

  /** No append opens the file again. */
  lemma StepNoReopen(c: Codec, s: State, a: Action)
    requires Enabled(s, a) && !LedgerRuns.OpenedBare(c, s.fileSteps)
    ensures !LedgerRuns.OpenedBare(c, Next(c, s, a).fileSteps)
  {
    if a.WriteFile? {
      var steps := s.fileSteps + [LedgerRuns.Write(s.threads[a.t].e, a.how, a.diskOk)];
      LedgerRuns.OpenedBareSnoc(c, steps);
      assert steps[..|s.fileSteps|] == s.fileSteps;
    }
  }

  lemma TakeNumberKeeps(c: Codec, s: State, a: Action, k: nat, earlier: nat)
    requires Accounted(c, s, k, earlier) && Enabled(s, a) && a.TakeNumber?
    ensures Accounted(c, Next(c, s, a), k, earlier)
  {
    ThreadMoves(s.threads, a.t, Numbered(Stamp(a.r, s.lastSeq + 1, a.now)), k);
  }

  lemma WriteRingKeeps(c: Codec, s: State, a: Action, k: nat, earlier: nat)
    requires Accounted(c, s, k, earlier) && Enabled(s, a) && a.WriteRing?
    ensures Accounted(c, Next(c, s, a), k, earlier)
  {
    var e, s' := s.threads[a.t].e, Next(c, s, a);
    StoreMovesRing(c, s, a);
    assert s'.threads == s.threads[a.t := Stored(e)] && s'.fileSteps == s.fileSteps && s'.failed == s.failed;
    ThreadMoves(s.threads, a.t, Stored(e), k);
    CountSnoc(s.log, e, k);
  }

  predicate LineAdded(c: Codec, s: State, a: Action)
    requires Enabled(s, a) && a.WriteFile?
  {
    LedgerRuns.Added(c, LedgerRuns.Run(c, s.fileSteps), LedgerRuns.Write(s.threads[a.t].e, a.how, a.diskOk)).Some?
  }

  lemma FileGains(c: Codec, s: State, a: Action, k: nat)
    requires Lawful(c) && Enabled(s, a) && a.WriteFile?
    ensures CountLines(c, FileLines(c, Next(c, s, a)), k)
         == CountLines(c, FileLines(c, s), k) + One(LineAdded(c, s, a) && s.threads[a.t].e.number == k)
  {
    var e := s.threads[a.t].e;
    assert Next(c, s, a).fileSteps == s.fileSteps + [LedgerRuns.Write(e, a.how, a.diskOk)];
    WriteCounts(c, s.fileSteps, e, a.how, a.diskOk, k);
  }

  lemma FailedGains(c: Codec, s: State, a: Action, k: nat)
    requires Enabled(s, a) && a.WriteFile?
    ensures Count(Next(c, s, a).failed, k)
            == Count(s.failed, k) + One(!LineAdded(c, s, a) && s.threads[a.t].e.number == k)
  {
    CountSnoc(s.failed, s.threads[a.t].e, k);
  }

  lemma ThreadRests(c: Codec, s: State, a: Action, k: nat)
    requires Enabled(s, a) && a.WriteFile?
    ensures Next(c, s, a).log == s.log && Next(c, s, a).lastSeq == s.lastSeq
    ensures CountNumbered(Next(c, s, a).threads, k) == CountNumbered(s.threads, k)
    ensures CountStored(s.threads, k) == CountStored(Next(c, s, a).threads, k) + One(s.threads[a.t].e.number == k)
  {
    ThreadMoves(s.threads, a.t, Idle, k);
  }

  lemma WriteFileKeeps(c: Codec, s: State, a: Action, k: nat, earlier: nat)
    requires Lawful(c) && Accounted(c, s, k, earlier) && Enabled(s, a) && a.WriteFile?
    ensures Accounted(c, Next(c, s, a), k, earlier)
  {
    FileGains(c, s, a, k);
    FailedGains(c, s, a, k);
    ThreadRests(c, s, a, k);
  }

  lemma NextKeeps(c: Codec, s: State, a: Action, k: nat, earlier: nat)
    requires Lawful(c) && Accounted(c, s, k, earlier) && Enabled(s, a)
    ensures Accounted(c, Next(c, s, a), k, earlier)
  {
    match a
    case TakeNumber(_, _, _) => TakeNumberKeeps(c, s, a, k, earlier);
    case WriteRing(_) => WriteRingKeeps(c, s, a, k, earlier);
    case WriteFile(_, _, _) => WriteFileKeeps(c, s, a, k, earlier);
  }

  lemma StoreMovesRing(c: Codec, s: State, a: Action)
    requires Enabled(s, a)
    ensures var s' := Next(c, s, a);
            if a.WriteRing? then
              && s'.entries == s.entries[s.head := s.threads[a.t].e] && s'.head == Wrap(s.head + 1, |s.entries|)
              && s'.count == (if s.count < |s.entries| then s.count + 1 else s.count)
              && s'.log == s.log + [s.threads[a.t].e]
            else s'.entries == s.entries && s'.head == s.head && s'.count == s.count && s'.log == s.log
  {
  }

  lemma SameRing(s: State, s': State)
    requires RingIsTail(s) && s'.entries == s.entries && s'.head == s.head && s'.count == s.count && s'.log == s.log
    ensures RingIsTail(s')
  {
  }

  /** Only the store moves the ring, and it moves it as a sequential append does. */
  lemma RingKeeps(c: Codec, s: State, a: Action)
    requires RingIsTail(s) && Enabled(s, a)
    ensures RingIsTail(Next(c, s, a)) && |Next(c, s, a).entries| == |s.entries|
  {
    StoreMovesRing(c, s, a);
    if a.WriteRing? {
      PutKeepsTail(s.entries, s.head, s.count, s.log, s.threads[a.t].e);
    } else {
      SameRing(s, Next(c, s, a));
    }
  }

  lemma {:induction false} ExecutionKeeps(
      c: Codec, prior: seq<LedgerRuns.Step>, states: seq<State>, actions: seq<Action>, k: nat)
    requires Lawful(c) && Execution(c, prior, states, actions)
    ensures Accounted(c, states[|actions|], k, Earlier(c, prior, k))
    decreases |actions|
  {
    if actions == [] {
      StartIsAccounted(c, prior, |states[0].threads|, |states[0].entries|, k);
    } else {
      var n := |actions| - 1;
      ExecutionPrefix(c, prior, states, actions);
      ExecutionKeeps(c, prior, states[..n + 1], actions[..n], k);
      NextKeeps(c, states[n], actions[n], k, Earlier(c, prior, k));
    }
  }

  lemma StartRing(prior: seq<LedgerRuns.Step>, threads: nat, size: nat)
    requires 0 < size
    ensures RingIsTail(Start(prior, threads, size))
  {
  }

  lemma {:induction false} ExecutionKeepsRing(
      c: Codec, prior: seq<LedgerRuns.Step>, states: seq<State>, actions: seq<Action>)
    requires Execution(c, prior, states, actions)
    ensures RingIsTail(states[|actions|]) && |states[|actions|].entries| == |states[0].entries|
    decreases |actions|
  {
    if actions == [] {
      StartRing(prior, |states[0].threads|, |states[0].entries|);
    } else {
      var n := |actions| - 1;
      ExecutionPrefix(c, prior, states, actions);
      ExecutionKeepsRing(c, prior, states[..n + 1], actions[..n]);
      RingKeeps(c, states[n], actions[n]);
    }
  }

  lemma {:induction false} ExecutionNeverReopens(
      c: Codec, prior: seq<LedgerRuns.Step>, states: seq<State>, actions: seq<Action>)
    requires Execution(c, prior, states, actions) && !LedgerRuns.OpenedBare(c, prior + [LedgerRuns.Reopen])
    ensures !LedgerRuns.OpenedBare(c, states[|actions|].fileSteps)
    decreases |actions|
  {
    if actions != [] {
      var n := |actions| - 1;
      ExecutionPrefix(c, prior, states, actions);
      ExecutionNeverReopens(c, prior, states[..n + 1], actions[..n]);
      StepNoReopen(c, states[n], actions[n]);
    }
  }

  /** At every moment of every interleaving, over whatever earlier runs left: each number 1..lastSeq, and no other,
      has been stored in the ring once or is still held by one thread; each stored number adds one line to the
      file, is on its way there, or is lost to a failed write; the ring holds the last stores, as many as fit, in
      the order they were made; and the whole file is one chain unless the ledger was ever opened bare. */
  lemma EveryNumberOnce(
      c: Codec, prior: seq<LedgerRuns.Step>, states: seq<State>, actions: seq<Action>, k: nat)
    requires Lawful(c) && Execution(c, prior, states, actions)
    ensures var s := states[|actions|];
            && Accounted(c, s, k, Earlier(c, prior, k)) && RingIsTail(s) && |s.entries| == |states[0].entries|
            && (!LedgerRuns.OpenedBare(c, prior + [LedgerRuns.Reopen]) ==> Chained(c, GENESIS, FileLines(c, s)))
  {
    ExecutionKeeps(c, prior, states, actions, k);
    ExecutionKeepsRing(c, prior, states, actions);
    if !LedgerRuns.OpenedBare(c, prior + [LedgerRuns.Reopen]) {
      ExecutionNeverReopens(c, prior, states, actions);
      LedgerRuns.ChainOverRuns(c, states[|actions|].fileSteps);
      LedgerRuns.DiskHoldsWritten(c, states[|actions|].fileSteps);
    }
  }

  /** All threads are done and every file write of this process succeeded. */
  predicate Settled(states: seq<State>, actions: seq<Action>) {
    |states| == |actions| + 1 && Quiescent(states[|actions|]) && states[|actions|].failed == []
  }

  /** Then each of 1..lastSeq was stored exactly once and has one line more in the file than before, the file
      verifies as before, and the ring holds the last min(lastSeq, size) stores. */
  lemma QuiescentLedger(
      c: Codec, prior: seq<LedgerRuns.Step>, states: seq<State>, actions: seq<Action>, k: nat)
    requires Lawful(c) && Execution(c, prior, states, actions) && Settled(states, actions)
    ensures var s := states[|actions|];
            var once := One(1 <= k <= s.lastSeq);
            && Count(s.log, k) == once && CountLines(c, FileLines(c, s), k) == Earlier(c, prior, k) + once
            && (!LedgerRuns.OpenedBare(c, prior + [LedgerRuns.Reopen]) ==> Chained(c, GENESIS, FileLines(c, s)))
            && RingIsTail(s) && |s.log| == s.lastSeq
            && s.count == if s.lastSeq < |s.entries| then s.lastSeq else |s.entries|
  {
    EveryNumberOnce(c, prior, states, actions, k);
    NobodyHolds(states[|actions|].threads, k);
    EveryStoreNumbered(c, prior, states, actions);
  }

  lemma {:induction false} NoneCarries(c: Codec, lines: seq<string>, k: nat)
    ensures CountLines(c, lines, k) == 0 <==> forall l :: l in lines ==> !HasNumber(c, l, k)
  {
    if lines != [] {
      var n := |lines| - 1;
      NoneCarries(c, lines[..n], k);
      assert lines == lines[..n] + [lines[n]];
    }
  }

  /** A number this process gave out is in the file exactly once if and only if no earlier line carries it. */
  lemma OnceInFileIff(c: Codec, prior: seq<LedgerRuns.Step>, states: seq<State>, actions: seq<Action>, k: nat)
    requires Lawful(c) && Execution(c, prior, states, actions) && Settled(states, actions)
    requires 1 <= k <= states[|actions|].lastSeq
    ensures CountLines(c, FileLines(c, states[|actions|]), k) == 1
       <==> forall l :: l in LedgerRuns.Written(c, prior) ==> !HasNumber(c, l, k)
  {
    QuiescentLedger(c, prior, states, actions, k);
    NoneCarries(c, LedgerRuns.Written(c, prior), k);
  }

  /** How many threads hold a number they have not stored yet. */
  function Holding(threads: seq<Pc>): nat {
    if threads == [] then 0 else One(threads[0].Numbered?) + Holding(threads[1..])
  }

  lemma {:induction false} HoldingMoves(threads: seq<Pc>, t: nat, pc: Pc)
    requires t < |threads|
    ensures Holding(threads[t := pc]) + One(threads[t].Numbered?) == Holding(threads) + One(pc.Numbered?)
  {
    var moved := threads[t := pc];
    if t == 0 {
      assert moved[1..] == threads[1..];
    } else {
      assert moved[1..] == threads[1..][t - 1 := pc];
      HoldingMoves(threads[1..], t - 1, pc);
    }
  }

  lemma {:induction false} NobodyHolding(threads: seq<Pc>)
    requires forall t :: 0 <= t < |threads| ==> threads[t].Idle?
    ensures Holding(threads) == 0
  {
    if threads != [] {
      NobodyHolding(threads[1..]);
    }
  }

  lemma HoldingStep(c: Codec, s: State, a: Action)
    requires Enabled(s, a) && s.lastSeq == |s.log| + Holding(s.threads)
    ensures Next(c, s, a).lastSeq == |Next(c, s, a).log| + Holding(Next(c, s, a).threads)
  {
    HoldingMoves(s.threads, a.t, Next(c, s, a).threads[a.t]);
  }

  /** Every number taken has been stored or is held. */
  lemma {:induction false} StoredOrHeld(
      c: Codec, prior: seq<LedgerRuns.Step>, states: seq<State>, actions: seq<Action>)
    requires Execution(c, prior, states, actions)
    ensures var s := states[|actions|]; s.lastSeq == |s.log| + Holding(s.threads)
    decreases |actions|
  {
    if actions == [] {
      NobodyHolding(states[0].threads);
    } else {
      var n := |actions| - 1;
      ExecutionPrefix(c, prior, states, actions);
      StoredOrHeld(c, prior, states[..n + 1], actions[..n]);
      HoldingStep(c, states[n], actions[n]);
    }
  }

  lemma EveryStoreNumbered(c: Codec, prior: seq<LedgerRuns.Step>, states: seq<State>, actions: seq<Action>)
    requires Execution(c, prior, states, actions) && Quiescent(states[|actions|])
    ensures |states[|actions|].log| == states[|actions|].lastSeq
  {
    StoredOrHeld(c, prior, states, actions);
    NobodyHolding(states[|actions|].threads);
  }

  // ---------- numbers over many processes ----------

  /** The life of one process that has come to rest. */
  datatype Process = Process(states: seq<State>, actions: seq<Action>)

  function LastNumber(p: Process): nat {
    if p.states == [] then 0 else p.states[|p.states| - 1].lastSeq
  }

  /** What the processes did to the file, one after another. */
  function FileRun(ps: seq<Process>): seq<LedgerRuns.Step> {
    if ps == [] || ps[|ps| - 1].states == [] then []
    else var states := ps[|ps| - 1].states; states[|states| - 1].fileSteps
  }

  /** Each process opens the file the one before it left, ends with all threads done, and loses no write. */
  predicate Lifetimes(c: Codec, ps: seq<Process>) {
    ps == [] ||
    var n := |ps| - 1;
    && Lifetimes(c, ps[..n]) && Execution(c, FileRun(ps[..n]), ps[n].states, ps[n].actions)
    && Settled(ps[n].states, ps[n].actions)
  }

  /** How many of the processes got as far as number k. */
  function Reached(ps: seq<Process>, k: nat): nat {
    if ps == [] then 0 else Reached(ps[..|ps| - 1], k) + One(1 <= k <= LastNumber(ps[|ps| - 1]))
  }

  /** The file carries a number once for every process that got as far. */
  lemma {:induction false} NumbersRestart(c: Codec, ps: seq<Process>, k: nat)
    requires Lawful(c) && Lifetimes(c, ps)
    ensures CountLines(c, LedgerRuns.Written(c, FileRun(ps)), k) == Reached(ps, k)
  {
    if ps != [] {
      var n := |ps| - 1;
      NumbersRestart(c, ps[..n], k);
      QuiescentLedger(c, FileRun(ps[..n]), ps[n].states, ps[n].actions, k);
    }
  }

  predicate Appended(ps: seq<Process>, i: nat)
    requires i < |ps|
  {
    0 < LastNumber(ps[i])
  }

  ghost predicate TwoAppended(ps: seq<Process>) {
    exists i, j :: 0 <= i < j < |ps| && Appended(ps, i) && Appended(ps, j)
  }

  ghost predicate OneAppended(ps: seq<Process>) {
    exists i :: 0 <= i < |ps| && Appended(ps, i)
  }

  lemma {:induction false} ReachedFirst(ps: seq<Process>, k: nat)
    ensures 1 <= k && 0 < Reached(ps, k) ==> OneAppended(ps)
    ensures OneAppended(ps) <==> 1 <= Reached(ps, 1)
  {
    if ps != [] {
      var n := |ps| - 1;
      ReachedFirst(ps[..n], k);
      assert forall i :: 0 <= i < n ==> Appended(ps, i) == Appended(ps[..n], i);
      assert Appended(ps, n) <==> 0 < LastNumber(ps[n]);
    }
  }

  lemma {:induction false} ReachedTwice(ps: seq<Process>, k: nat)
    ensures 1 < Reached(ps, k) ==> TwoAppended(ps)
    ensures TwoAppended(ps) ==> 1 < Reached(ps, 1)
  {
    if ps != [] {
      var n := |ps| - 1;
      ReachedTwice(ps[..n], k);
      ReachedFirst(ps[..n], k);
      assert forall i :: 0 <= i < n ==> Appended(ps, i) == Appended(ps[..n], i);
      assert Appended(ps, n) <==> 0 < LastNumber(ps[n]);
    }
  }

  ghost predicate NumbersAreUnique(c: Codec, lines: seq<string>) {
    forall k: nat :: CountLines(c, lines, k) <= 1
  }

  /** The comment on the ledger promises numbers that are never reset. In the file they are: each process begins
      again at 1, so its numbers are unique if and only if no second process has appended anything. */
  lemma NumbersAreUniqueIff(c: Codec, ps: seq<Process>)
    requires Lawful(c) && Lifetimes(c, ps)
    ensures NumbersAreUnique(c, LedgerRuns.Written(c, FileRun(ps))) <==> !TwoAppended(ps)
  {
    var lines := LedgerRuns.Written(c, FileRun(ps));
    forall k: nat
      ensures CountLines(c, lines, k) <= 1 || TwoAppended(ps)
    {
      NumbersRestart(c, ps, k);
      ReachedTwice(ps, k);
    }
    NumbersRestart(c, ps, 1);
    ReachedTwice(ps, 1);
  }

  /** One process that appends one receipt and stops. */
  function OneAppend(c: Codec, prior: seq<LedgerRuns.Step>, r: Receipt): (p: Process) {
    var s0 := Start(prior, 1, 1);
    var s1 := Next(c, s0, TakeNumber(0, r, 1));
    var s2 := Next(c, s1, WriteRing(0));
    Process([s0, s1, s2, Next(c, s2, WriteFile(0, Rotated, true))],
      [TakeNumber(0, r, 1), WriteRing(0), WriteFile(0, Rotated, true)])
  }

  lemma OneAppendRuns(c: Codec, prior: seq<LedgerRuns.Step>, r: Receipt)
    ensures var p := OneAppend(c, prior, r); Execution(c, prior, p.states, p.actions)
  {
    var p := OneAppend(c, prior, r);
    forall i | 0 <= i < |p.actions|
      ensures Follows(c, p.states[i], p.actions[i], p.states[i + 1])
    {
    }
  }

  lemma OpenWrites(c: Codec, s: Snapshot, e: Receipt)
    requires LedgerRuns.AlwaysMarshals(c, e) && s.open
    ensures LedgerRuns.Added(c, s, LedgerRuns.Write(e, Rotated, true)).Some?
  {
  }

  lemma FirstWriteSucceeds(c: Codec, prior: seq<LedgerRuns.Step>, e: Receipt)
    requires LedgerRuns.AlwaysMarshals(c, e)
    ensures var s := LedgerRuns.Run(c, prior + [LedgerRuns.Reopen]);
            LedgerRuns.Added(c, s, LedgerRuns.Write(e, Rotated, true)).Some?
  {
    LedgerRuns.RunSnoc(c, prior, LedgerRuns.Reopen);
    OpenWrites(c, LedgerRuns.Run(c, prior + [LedgerRuns.Reopen]), e);
  }

  lemma OneAppendSettles(c: Codec, prior: seq<LedgerRuns.Step>, r: Receipt)
    requires LedgerRuns.AlwaysMarshals(c, Stamp(r, 1, 1))
    ensures var p := OneAppend(c, prior, r); Settled(p.states, p.actions) && LastNumber(p) == 1
  {
    FirstWriteSucceeds(c, prior, Stamp(r, 1, 1));
  }

  lemma AppendOnce(c: Codec, prior: seq<LedgerRuns.Step>, r: Receipt) returns (p: Process)
    requires LedgerRuns.AlwaysMarshals(c, Stamp(r, 1, 1))
    ensures Execution(c, prior, p.states, p.actions) && Settled(p.states, p.actions) && LastNumber(p) == 1
  {
    p := OneAppend(c, prior, r);
    OneAppendRuns(c, prior, r);
    OneAppendSettles(c, prior, r);
  }

  lemma FirstProcess(c: Codec, p: Process)
    requires Execution(c, [], p.states, p.actions) && Settled(p.states, p.actions)
    ensures Lifetimes(c, [p])
  {
    var none := [p][..0];
    assert none == [] && FileRun(none) == [] && Lifetimes(c, none);
  }

  lemma SecondProcess(c: Codec, p: Process, q: Process)
    requires Lifetimes(c, [p]) && Execution(c, FileRun([p]), q.states, q.actions) && Settled(q.states, q.actions)
    ensures Lifetimes(c, [p, q])
  {
    assert [p, q][..1] == [p];
  }

  lemma ReachedByTwo(p: Process, q: Process, k: nat)
    requires 1 <= k <= LastNumber(p) && k <= LastNumber(q)
    ensures Reached([p, q], k) == 2
  {
    var none := [p][..0];
    assert none == [] && Reached(none, k) == 0;
    assert [p, q][..1] == [p] && Reached([p], k) == 1;
  }

  /** One append, a restart and one append more: number 1 is in the file twice. */
  lemma NumberOneTwice(c: Codec, r: Receipt) returns (first: Process, second: Process)
    requires Lawful(c) && LedgerRuns.AlwaysMarshals(c, Stamp(r, 1, 1))
    ensures Lifetimes(c, [first, second]) && LastNumber(first) == LastNumber(second) == 1
    ensures CountLines(c, LedgerRuns.Written(c, FileRun([first, second])), 1) == 2
  {
    first := AppendOnce(c, [], r);
    FirstProcess(c, first);
    second := AppendOnce(c, FileRun([first]), r);
    SecondProcess(c, first, second);
    ReachedByTwo(first, second, 1);
    NumbersRestart(c, [first, second], 1);
  }

  /** The order may differ from the numbering: in any ring of two or more places two threads suffice, and then the
      promise of ordered queries, and with it complete paging, is gone. */
  lemma RingOrderMayDiffer(c: Codec, prior: seq<LedgerRuns.Step>, r: Receipt, size: nat)
    returns (states: seq<State>, actions: seq<Action>)
    requires 2 <= size
    ensures Execution(c, prior, states, actions) && |states[|actions|].entries| == size && |states[0].threads| == 2
    ensures var ring := Tail(states[|actions|]);
            !Paging.Increasing(ring) && Paging.Positive(ring) && !Paging.PagingIsComplete(ring)
  {
    actions := [TakeNumber(0, r, 1), TakeNumber(1, r, 1), WriteRing(1), WriteRing(0)];
    var s0 := Start(prior, 2, size);
    var s1 := Next(c, s0, actions[0]);
    var s2 := Next(c, s1, actions[1]);
    var s3 := Next(c, s2, actions[2]);
    var s4 := Next(c, s3, actions[3]);
    states := [s0, s1, s2, s3, s4];
    assert Execution(c, prior, states, actions);
    assert Tail(s4) == [Stamp(r, 2, 1), Stamp(r, 1, 1)];
    assert Tail(s4)[0].number == 2 && Tail(s4)[1].number == 1;
    Paging.PagingCompleteIff(Tail(s4));
    assert states[|actions|] == s4;
  }
}
