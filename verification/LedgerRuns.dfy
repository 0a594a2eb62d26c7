/** What holds of the ledger files after every sequence of operations. */
module LedgerRuns {
  import opened Wrappers
  import opened Receipts
  import opened Text
  import opened HashChain
  import opened LedgerFile

  datatype Step = Write(r: Receipt, how: Rotation, diskOk: bool) | Close | Reopen

  const Fresh: Snapshot := Snapshot([], None, GENESIS, 0, false)

  function Apply(c: Codec, s: Snapshot, step: Step): Snapshot {
    match step
    case Write(r, how, diskOk) => WriteStep(c, s, r, how, diskOk)
    case Close => s.(open := false)
    case Reopen => OpenStep(c, s)
  }

  function Run(c: Codec, steps: seq<Step>): Snapshot {
    if steps == [] then Fresh
    else Apply(c, Run(c, steps[..|steps| - 1]), steps[|steps| - 1])
  }

  /** The line a step adds, if it is a write that succeeds. */
  function Added(c: Codec, s: Snapshot, step: Step): Option<string> {
    match step
    case Write(r, how, diskOk) => LineWritten(c, s, r, how, diskOk)
    case _ => None
  }

  /** The lines whose writes reported success, in order. */
  function Written(c: Codec, steps: seq<Step>): seq<string> {
    if steps == [] then []
    else
      var init := steps[..|steps| - 1];
      Written(c, init) + AsSeq(Added(c, Run(c, init), steps[|steps| - 1]))
  }

  function AsSeq(line: Option<string>): seq<string> {
    if line.Some? then [line.value] else []
  }

  // ---------- file contents as lines ----------

  function SegmentLines(segments: seq<string>): seq<string> {
    if segments == [] then []
    else SegmentLines(segments[..|segments| - 1]) + EntryLines(segments[|segments| - 1])
  }

  /** The rotated segments followed by the current file. */
  function AllLines(s: Snapshot): seq<string> {
    SegmentLines(s.rotated) + EntryLines(CurrentData(s))
  }

  /** A file that holds whole entry lines and nothing else. */
  predicate Clean(data: string) {
    data == Unlines(ScanLines(data)) && forall l :: l in ScanLines(data) ==> IsEntryLine(l)
  }

  lemma {:induction false} NonEmptyOfEntries(lines: seq<string>)
    requires forall l :: l in lines ==> IsEntryLine(l)
    ensures NonEmpty(lines) == lines
  {
    if lines != [] {
      var n := |lines| - 1;
      NonEmptyOfEntries(lines[..n]);
      assert lines[n] in lines;
      assert lines == lines[..n] + [lines[n]];
    }
  }

  lemma CleanEntries(data: string)
    requires Clean(data)
    ensures EntryLines(data) == ScanLines(data)
    ensures data == "" <==> EntryLines(data) == []
  {
    NonEmptyOfEntries(ScanLines(data));
  }

  lemma ScanOfEntries(lines: seq<string>)
    requires forall l :: l in lines ==> IsEntryLine(l)
    ensures ScanLines(Unlines(lines)) == lines
  {
    ScanOfUnlines(lines);
    forall i | 0 <= i < |lines|
      ensures DropCRs(lines)[i] == lines[i]
    {
      assert lines[i] in lines;
      assert lines[i][|lines[i]| - 1] in lines[i];
    }
  }

  lemma CleanConcat(a: string, b: string)
    requires Clean(a) && Clean(b)
    ensures Clean(a + b) && EntryLines(a + b) == EntryLines(a) + EntryLines(b)
  {
    var la, lb := ScanLines(a), ScanLines(b);
    UnlinesConcat(la, lb);
    ScanOfEntries(la + lb);
    CleanEntries(a);
    CleanEntries(b);
    CleanEntries(a + b);
  }

  lemma LineAsFile(line: string)
    requires IsEntryLine(line)
    ensures Clean(line + "\n") && EntryLines(line + "\n") == [line]
  {
    assert Unlines([line]) == line + "\n" by {
      assert line + "\n" + "" == line + "\n";
    }
    ScanOfEntries([line]);
    CleanEntries(line + "\n");
  }

  lemma CleanAppend(data: string, line: string)
    requires Clean(data) && IsEntryLine(line)
    ensures Clean(data + line + "\n") && EntryLines(data + line + "\n") == EntryLines(data) + [line]
  {
    assert data + line + "\n" == data + (line + "\n");
    LineAsFile(line);
    CleanConcat(data, line + "\n");
  }

  // ---------- what every step keeps ----------

  ghost predicate Sound(s: Snapshot) {
    && (forall i :: 0 <= i < |s.rotated| ==> Clean(s.rotated[i]))
    && Clean(CurrentData(s))
    && (s.open ==> s.current.Some? && s.size == |s.current.value|)
  }

  lemma RotateKeeps(s: Snapshot, how: Rotation)
    requires Sound(s)
    ensures Sound(RotateStep(s, how))
    ensures AllLines(RotateStep(s, how)) == AllLines(s)
  {
    var s' := RotateStep(s, how);
    if s'.rotated != s.rotated {
      assert s'.rotated[..|s.rotated|] == s.rotated;
      assert AllLines(s') == SegmentLines(s'.rotated) + [];
    }
  }

  lemma BeforeWriteKeeps(s: Snapshot, how: Rotation)
    requires Sound(s)
    ensures Sound(BeforeWrite(s, how))
    ensures AllLines(BeforeWrite(s, how)) == AllLines(s)
    ensures BeforeWrite(s, how).prevHash == s.prevHash
    ensures CurrentData(s) == "" ==> CurrentData(BeforeWrite(s, how)) == ""
  {
    RotateKeeps(s, how);
  }

  lemma LineAdded(s: Snapshot, s': Snapshot, line: string)
    requires Sound(s) && IsEntryLine(line)
    requires s'.rotated == s.rotated && s'.current == Some(CurrentData(s) + line + "\n")
    ensures Clean(CurrentData(s')) && AllLines(s') == AllLines(s) + [line]
  {
    CleanAppend(CurrentData(s), line);
  }

  lemma WriteKeeps(c: Codec, s: Snapshot, r: Receipt, how: Rotation, diskOk: bool)
    requires Lawful(c) && Sound(s)
    ensures var s', line := WriteStep(c, s, r, how, diskOk), LineWritten(c, s, r, how, diskOk);
            Sound(s') && AllLines(s') == if line.Some? then AllLines(s) + [line.value] else AllLines(s)
  {
    var s' := BeforeWrite(s, how);
    BeforeWriteKeeps(s, how);
    var line := LineWritten(c, s, r, how, diskOk);
    if line.Some? {
      assert LawfulLine(c, PersistentEntry(r, s'.prevHash), line.value);
      LineAdded(s', WriteStep(c, s, r, how, diskOk), line.value);
    }
  }

  lemma ApplyKeeps(c: Codec, s: Snapshot, step: Step)
    requires Lawful(c) && Sound(s)
    ensures Sound(Apply(c, s, step))
    ensures var line := Added(c, s, step);
            AllLines(Apply(c, s, step)) == if line.Some? then AllLines(s) + [line.value] else AllLines(s)
  {
    match step
    case Write(r, how, diskOk) =>
      WriteKeeps(c, s, r, how, diskOk);
    case Close =>
    case Reopen =>
  }

  /** On disk there is exactly what was reported as written, across every rotation and restart. */
  lemma {:induction false} DiskHoldsWritten(c: Codec, steps: seq<Step>)
    requires Lawful(c)
    ensures Sound(Run(c, steps))
    ensures AllLines(Run(c, steps)) == Written(c, steps)
  {
    if steps != [] {
      var n := |steps| - 1;
      DiskHoldsWritten(c, steps[..n]);
      ApplyKeeps(c, Run(c, steps[..n]), steps[n]);
    }
  }

  // ---------- when the chain is intact ----------

  /** The guard under which opening restarts the chain from the genesis hash although
      entries exist: the file at the ledger's path is absent or empty. */
  predicate OpensBare(s: Snapshot) {
    CurrentData(s) == "" && AllLines(s) != []
  }

  predicate BareAt(c: Codec, steps: seq<Step>, i: nat)
    requires i < |steps|
  {
    steps[i].Reopen? && OpensBare(Run(c, steps[..i]))
  }

  predicate WritesAt(c: Codec, steps: seq<Step>, i: nat)
    requires i < |steps|
  {
    Added(c, Run(c, steps[..i]), steps[i]).Some?
  }

  ghost predicate OpenedBare(c: Codec, steps: seq<Step>) {
    exists i: nat :: i < |steps| && BareAt(c, steps, i)
  }

  ghost predicate WroteAfterBareOpen(c: Codec, steps: seq<Step>) {
    exists j: nat :: j < |steps| && OpenedBare(c, steps[..j]) && WritesAt(c, steps, j)
  }

  ghost predicate NoGenesisLine(c: Codec, lines: seq<string>) {
    forall l :: l in lines ==> c.sha256Hex(l) != GENESIS
  }

  /** The in-memory hash is that of the last line on disk. */
  predicate Linked(c: Codec, s: Snapshot) {
    s.prevHash == HeadHash(c, GENESIS, AllLines(s))
  }

  lemma WriteLinks(c: Codec, s: Snapshot, step: Step)
    requires Lawful(c) && Sound(s) && Added(c, s, step).Some?
    ensures var line := Added(c, s, step).value;
            c.unmarshal(line).Some? && c.unmarshal(line).value.prevHash == s.prevHash
            && Apply(c, s, step).prevHash == c.sha256Hex(line)
  {
    BeforeWriteKeeps(s, step.how);
    assert LawfulLine(c, PersistentEntry(step.r, s.prevHash), Added(c, s, step).value);
  }

  lemma LinkedStep(c: Codec, s: Snapshot, step: Step)
    requires Lawful(c) && Sound(s) && Linked(c, s) && Chained(c, GENESIS, AllLines(s))
    requires step.Reopen? ==> !OpensBare(s)
    ensures var s' := Apply(c, s, step); Linked(c, s') && Chained(c, GENESIS, AllLines(s'))
  {
    ApplyKeeps(c, s, step);
    var lines := AllLines(s);
    match step
    case Write(r, how, diskOk) =>
      BeforeWriteKeeps(s, how);
      if Added(c, s, step).Some? {
        WriteLinks(c, s, step);
        ChainedSnoc(c, GENESIS, lines, Added(c, s, step).value);
      }
    case Close =>
    case Reopen =>
      CleanEntries(CurrentData(s));
      var own := EntryLines(CurrentData(s));
      if own != [] {
        assert lines[|lines| - 1] == own[|own| - 1];
      }
  }

  /** After a bare open the memory holds the genesis hash and the current file is empty
      until something is written. */
  predicate Orphaned(s: Snapshot) {
    OpensBare(s) && s.prevHash == GENESIS
  }

  lemma OrphanedStep(c: Codec, s: Snapshot, step: Step)
    requires Lawful(c) && Sound(s) && Orphaned(s) && NoGenesisLine(c, AllLines(s))
    requires Chained(c, GENESIS, AllLines(s))
    ensures var s' := Apply(c, s, step);
            if Added(c, s, step).Some? then !Chained(c, GENESIS, AllLines(s'))
              else Orphaned(s') && AllLines(s') == AllLines(s)
  {
    ApplyKeeps(c, s, step);
    var lines := AllLines(s);
    if Added(c, s, step).Some? {
      WriteLinks(c, s, step);
      ChainedSnoc(c, GENESIS, lines, Added(c, s, step).value);
      assert lines[|lines| - 1] in lines;
    } else if step.Write? {
      BeforeWriteKeeps(s, step.how);
    }
  }

  lemma OpenedBareSnoc(c: Codec, steps: seq<Step>)
    requires steps != []
    ensures var n := |steps| - 1;
            OpenedBare(c, steps) <==> OpenedBare(c, steps[..n]) || BareAt(c, steps, n)
  {
    var n := |steps| - 1;
    forall i: nat | i < n
      ensures BareAt(c, steps, i) <==> BareAt(c, steps[..n], i)
    {
      assert steps[..n][..i] == steps[..i];
    }
  }

  lemma WroteSnoc(c: Codec, steps: seq<Step>)
    requires steps != []
    ensures var n := |steps| - 1;
            (WroteAfterBareOpen(c, steps)
             <==> WroteAfterBareOpen(c, steps[..n]) || (OpenedBare(c, steps[..n]) && WritesAt(c, steps, n)))
  {
    var n := |steps| - 1;
    forall j: nat | j < n
      ensures OpenedBare(c, steps[..j]) == OpenedBare(c, steps[..n][..j])
      ensures WritesAt(c, steps, j) <==> WritesAt(c, steps[..n], j)
    {
      assert steps[..n][..j] == steps[..j];
    }
  }

  lemma WroteNeedsBareOpen(c: Codec, steps: seq<Step>)
    ensures WroteAfterBareOpen(c, steps) ==> OpenedBare(c, steps)
  {
    if WroteAfterBareOpen(c, steps) {
      var j: nat :| j < |steps| && OpenedBare(c, steps[..j]) && WritesAt(c, steps, j);
      var i: nat :| i < j && BareAt(c, steps[..j], i);
      assert steps[..j][..i] == steps[..i];
      assert BareAt(c, steps, i);
    }
  }

  /** The three phases a run goes through. */
  datatype Phase = Intact | Orphan | Broken

  ghost function PhaseOf(c: Codec, steps: seq<Step>): Phase {
    if !OpenedBare(c, steps) then Intact
    else if !WroteAfterBareOpen(c, steps) then Orphan
    else Broken
  }

  ghost predicate InPhase(c: Codec, phase: Phase, s: Snapshot) {
    match phase
    case Intact => Linked(c, s) && Chained(c, GENESIS, AllLines(s))
    case Orphan => Orphaned(s) && Chained(c, GENESIS, AllLines(s))
    case Broken => !Chained(c, GENESIS, AllLines(s))
  }

  ghost function NextPhase(c: Codec, phase: Phase, s: Snapshot, step: Step): Phase {
    match phase
    case Intact => if step.Reopen? && OpensBare(s) then Orphan else Intact
    case Orphan => if Added(c, s, step).Some? then Broken else Orphan
    case Broken => Broken
  }

  lemma PhaseSnoc(c: Codec, steps: seq<Step>)
    requires steps != []
    ensures var n := |steps| - 1;
            PhaseOf(c, steps) == NextPhase(c, PhaseOf(c, steps[..n]), Run(c, steps[..n]), steps[n])
  {
    OpenedBareSnoc(c, steps);
    WroteSnoc(c, steps);
    WroteNeedsBareOpen(c, steps[..|steps| - 1]);
  }

  lemma BrokenStep(c: Codec, s: Snapshot, step: Step)
    requires Lawful(c) && Sound(s) && !Chained(c, GENESIS, AllLines(s))
    ensures !Chained(c, GENESIS, AllLines(Apply(c, s, step)))
  {
    ApplyKeeps(c, s, step);
    if Added(c, s, step).Some? {
      ChainedSnoc(c, GENESIS, AllLines(s), Added(c, s, step).value);
    }
  }

  lemma BareOpenOrphans(c: Codec, s: Snapshot)
    requires Lawful(c) && Sound(s) && OpensBare(s)
    ensures Orphaned(OpenStep(c, s)) && AllLines(OpenStep(c, s)) == AllLines(s)
  {
    ApplyKeeps(c, s, Reopen);
  }

  lemma IntactStep(c: Codec, s: Snapshot, step: Step)
    requires Lawful(c) && Sound(s) && InPhase(c, Intact, s)
    ensures InPhase(c, NextPhase(c, Intact, s, step), Apply(c, s, step))
  {
    if step.Reopen? && OpensBare(s) {
      BareOpenOrphans(c, s);
    } else {
      LinkedStep(c, s, step);
    }
  }

  lemma PhaseStep(c: Codec, phase: Phase, s: Snapshot, step: Step)
    requires Lawful(c) && Sound(s) && NoGenesisLine(c, AllLines(s)) && InPhase(c, phase, s)
    ensures InPhase(c, NextPhase(c, phase, s, step), Apply(c, s, step))
  {
    match phase
    case Broken => BrokenStep(c, s, step);
    case Orphan => OrphanedStep(c, s, step);
    case Intact => IntactStep(c, s, step);
  }

  lemma {:induction false} PhasesFollow(c: Codec, steps: seq<Step>)
    requires Lawful(c) && NoGenesisLine(c, Written(c, steps))
    ensures InPhase(c, PhaseOf(c, steps), Run(c, steps))
  {
    if steps != [] {
      var n := |steps| - 1;
      DiskHoldsWritten(c, steps[..n]);
      PhasesFollow(c, steps[..n]);
      PhaseSnoc(c, steps);
      PhaseStep(c, PhaseOf(c, steps[..n]), Run(c, steps[..n]), steps[n]);
    }
  }

  /** Chain over whole runs, exactly: the rotated segments followed by the current file form one
      chain from genesis if and only if nothing was written after the ledger was opened over an
      absent or empty current file while entries existed. */
  lemma ChainIntactIff(c: Codec, steps: seq<Step>)
    requires Lawful(c) && NoGenesisLine(c, Written(c, steps))
    ensures Chained(c, GENESIS, Written(c, steps)) <==> !WroteAfterBareOpen(c, steps)
  {
    DiskHoldsWritten(c, steps);
    PhasesFollow(c, steps);
    WroteNeedsBareOpen(c, steps);
  }

  /** Without such an opening no assumption on the hash is needed, and the memory stays in step
      with the disk. */
  lemma {:induction false} ChainOverRuns(c: Codec, steps: seq<Step>)
    requires Lawful(c) && !OpenedBare(c, steps)
    ensures Chained(c, GENESIS, AllLines(Run(c, steps))) && Linked(c, Run(c, steps))
  {
    if steps != [] {
      var n := |steps| - 1;
      OpenedBareSnoc(c, steps);
      ChainOverRuns(c, steps[..n]);
      DiskHoldsWritten(c, steps[..n]);
      LinkedStep(c, Run(c, steps[..n]), steps[n]);
    }
  }

  // ---------- what the verifier says of the files ----------

  function Concatenated(segments: seq<string>): string {
    if segments == [] then ""
    else Concatenated(segments[..|segments| - 1]) + segments[|segments| - 1]
  }

  lemma OneMoreSegment(init: seq<string>, last: string)
    requires Clean(Concatenated(init)) && EntryLines(Concatenated(init)) == SegmentLines(init) && Clean(last)
    ensures Clean(Concatenated(init + [last])) && EntryLines(Concatenated(init + [last])) == SegmentLines(init + [last])
  {
    assert (init + [last])[..|init|] == init;
    CleanConcat(Concatenated(init), last);
  }

  lemma {:induction false} ConcatenatedLines(segments: seq<string>)
    requires forall i :: 0 <= i < |segments| ==> Clean(segments[i])
    ensures Clean(Concatenated(segments)) && EntryLines(Concatenated(segments)) == SegmentLines(segments)
  {
    if segments != [] {
      var n := |segments| - 1;
      var init := segments[..n];
      assert Clean(segments[n]) && segments == init + [segments[n]];
      ConcatenatedLines(init);
      OneMoreSegment(init, segments[n]);
    }
  }

  /** Verifying all files laid end to end accepts, with exactly the number of entries written. */
  lemma WholeLedgerVerifies(c: Codec, steps: seq<Step>, count: nat, ok: bool)
    requires Lawful(c) && !OpenedBare(c, steps)
    requires var s := Run(c, steps);
             VerdictFor(c, EntryLines(Concatenated(s.rotated) + CurrentData(s)), count, ok)
    ensures ok && count == |Written(c, steps)|
  {
    var s := Run(c, steps);
    DiskHoldsWritten(c, steps);
    ChainOverRuns(c, steps);
    ConcatenatedLines(s.rotated);
    CleanConcat(Concatenated(s.rotated), CurrentData(s));
    VerdictIsExact(c, Written(c, steps), count, ok);
  }

  /** The current file verified on its own, as VerifyLedgerFile does: after a rotation it is
      accepted only if it is empty or the hash carried over happens to be the genesis hash. */
  lemma CurrentFileAloneIff(c: Codec, steps: seq<Step>, count: nat, ok: bool)
    requires Lawful(c) && !OpenedBare(c, steps)
    requires VerdictFor(c, EntryLines(CurrentData(Run(c, steps))), count, ok)
    ensures var s := Run(c, steps);
            ok <==> EntryLines(CurrentData(s)) == [] || HeadHash(c, GENESIS, SegmentLines(s.rotated)) == GENESIS
  {
    var s := Run(c, steps);
    var carried, own := HeadHash(c, GENESIS, SegmentLines(s.rotated)), EntryLines(CurrentData(s));
    ChainOverRuns(c, steps);
    ChainedConcat(c, GENESIS, SegmentLines(s.rotated), own);
    VerdictIsExact(c, own, count, ok);
    if own != [] {
      FirstLink(c, carried, own);
      if Chained(c, GENESIS, own) {
        FirstLink(c, GENESIS, own);
      }
    }
  }

  lemma FirstLink(c: Codec, prev: Hash, lines: seq<string>)
    requires lines != [] && Chained(c, prev, lines)
    ensures Links(c, lines[0], prev)
  {
    ChainedPrefix(c, prev, lines, 1);
    assert lines[..1] == [lines[0]] && lines[..1][..0] == [];
  }

  // ---------- a rotation that breaks the chain ----------

  /** Full files whose rotation fails after the rename leave no current file behind, and no line is lost. */
  lemma RotationStrands(c: Codec, steps: seq<Step>, r: Receipt)
    requires Lawful(c) && Run(c, steps).open && Run(c, steps).size >= MAX_FILE_SIZE
    ensures var stranded := steps + [Write(r, NewFileFails, true)];
            Run(c, stranded).current == None && Written(c, stranded) == Written(c, steps)
  {
    RunSnoc(c, steps, Write(r, NewFileFails, true));
  }

  lemma ReopenOrphans(c: Codec, steps: seq<Step>)
    requires Lawful(c) && Run(c, steps).current == None && Written(c, steps) != []
    ensures var reopened := steps + [Reopen];
            && Orphaned(Run(c, reopened)) && Written(c, reopened) == Written(c, steps)
            && Run(c, reopened).open && Run(c, reopened).size == 0
  {
    DiskHoldsWritten(c, steps);
    RunSnoc(c, steps, Reopen);
    BareOpenOrphans(c, Run(c, steps));
  }

  lemma OrphanWriteBreaks(c: Codec, steps: seq<Step>, r: Receipt, how: Rotation)
    requires Lawful(c) && Orphaned(Run(c, steps)) && Run(c, steps).open && Run(c, steps).size == 0
    requires NoGenesisLine(c, Written(c, steps)) && c.marshal(PersistentEntry(r, GENESIS)).Some?
    ensures !Chained(c, GENESIS, Written(c, steps + [Write(r, how, true)]))
  {
    var s, step := Run(c, steps), Write(r, how, true);
    DiskHoldsWritten(c, steps);
    DiskHoldsWritten(c, steps + [step]);
    RunSnoc(c, steps, step);
    assert Added(c, s, step).Some?;
    if Chained(c, GENESIS, AllLines(s)) {
      OrphanedStep(c, s, step);
    } else {
      BrokenStep(c, s, step);
    }
  }

  /** Whatever was written before: once the file is full, a rotation that renames it but cannot create its
      successor, a restart, and one more write leave lines that no longer form a chain. */
  lemma FailedRotationBreaksChain(c: Codec, steps: seq<Step>, r: Receipt, next: Receipt, how: Rotation)
    requires Lawful(c) && NoGenesisLine(c, Written(c, steps))
    requires Run(c, steps).open && Run(c, steps).size >= MAX_FILE_SIZE && Written(c, steps) != []
    requires c.marshal(PersistentEntry(next, GENESIS)).Some?
    ensures !Chained(c, GENESIS,
              Written(c, steps + [Write(r, NewFileFails, true)] + [Reopen] + [Write(next, how, true)]))
  {
    var stranded := steps + [Write(r, NewFileFails, true)];
    RotationStrands(c, steps, r);
    ReopenOrphans(c, stranded);
    OrphanWriteBreaks(c, stranded + [Reopen], next, how);
  }

  // ---------- a rotation that loses lines ----------

  predicate NoReopen(steps: seq<Step>) {
    forall i :: 0 <= i < |steps| ==> !steps[i].Reopen?
  }

  lemma ClosedStep(c: Codec, steps: seq<Step>, step: Step)
    requires !Run(c, steps).open && !step.Reopen?
    ensures !Run(c, steps + [step]).open && Written(c, steps + [step]) == Written(c, steps)
  {
    RunSnoc(c, steps, step);
  }

  lemma {:induction false} ClosedStaysClosed(c: Codec, steps: seq<Step>, more: seq<Step>)
    requires !Run(c, steps).open && NoReopen(more)
    ensures !Run(c, steps + more).open && Written(c, steps + more) == Written(c, steps)
  {
    if more == [] {
      assert steps + more == steps;
    } else {
      var n := |more| - 1;
      var init := steps + more[..n];
      assert steps + more == init + [more[n]];
      ClosedStaysClosed(c, steps, more[..n]);
      ClosedStep(c, init, more[n]);
    }
  }

  /** Nothing that happens before the next opening adds a line. */
  ghost predicate LosesEverything(c: Codec, steps: seq<Step>) {
    forall more :: NoReopen(more) ==> Written(c, steps + more) == Written(c, steps)
  }

  lemma OpenCanWrite(c: Codec, steps: seq<Step>, r: Receipt)
    requires AlwaysMarshals(c, r) && Run(c, steps).open
    ensures |Written(c, steps + [Write(r, Rotated, true)])| == |Written(c, steps)| + 1
  {
    RunSnoc(c, steps, Write(r, Rotated, true));
  }

  lemma ClosedLosesEverything(c: Codec, steps: seq<Step>)
    requires !Run(c, steps).open
    ensures LosesEverything(c, steps)
  {
    forall more | NoReopen(more)
      ensures Written(c, steps + more) == Written(c, steps)
    {
      ClosedStaysClosed(c, steps, more);
    }
  }

  lemma LosesEverythingIff(c: Codec, steps: seq<Step>, r: Receipt)
    requires AlwaysMarshals(c, r)
    ensures LosesEverything(c, steps) <==> !Run(c, steps).open
  {
    if Run(c, steps).open {
      OpenCanWrite(c, steps, r);
      var more := [Write(r, Rotated, true)];
      assert NoReopen(more);
    } else {
      ClosedLosesEverything(c, steps);
    }
  }

  /** The rotation leaves a file to write to. */
  predicate LeavesFile(how: Rotation) {
    how.Rotated? || how == RenameFails(true)
  }

  /** A write that fails on the disk, or a receipt that cannot be marshalled, leaves the lines and the hash alone. */
  lemma FailedWriteLeaves(c: Codec, s: Snapshot, r: Receipt, how: Rotation, diskOk: bool)
    requires Lawful(c) && Sound(s) && (!diskOk || c.marshal(PersistentEntry(r, s.prevHash)).None?)
    ensures var s' := WriteStep(c, s, r, how, diskOk); AllLines(s') == AllLines(s) && s'.prevHash == s.prevHash
  {
    BeforeWriteKeeps(s, how);
  }

  /** A write that reports success has added one line, which holds the receipt's number and the hash of the line
      before. */
  lemma WrittenLine(c: Codec, s: Snapshot, r: Receipt, how: Rotation, diskOk: bool)
    requires Lawful(c) && Sound(s) && LineWritten(c, s, r, how, diskOk).Some?
    ensures var s', line := WriteStep(c, s, r, how, diskOk), LineWritten(c, s, r, how, diskOk).value;
            && AllLines(s') == AllLines(s) + [line] && s'.prevHash == c.sha256Hex(line)
            && c.unmarshal(line).Some? && c.unmarshal(line).value.prevHash == s.prevHash
            && c.unmarshal(line).value.receipt.number == r.number
  {
    WriteKeeps(c, s, r, how, diskOk);
    BeforeWriteKeeps(s, how);
    assert LawfulLine(c, PersistentEntry(r, s.prevHash), LineWritten(c, s, r, how, diskOk).value);
  }

  /** After a successful rotation the full file is the newest segment, as it was, and the current file holds the new
      line alone. */
  lemma FreshAfterRotation(c: Codec, s: Snapshot, r: Receipt)
    requires Lawful(c) && Sound(s) && s.open && s.size >= 100 * 1024 * 1024
    requires c.marshal(PersistentEntry(r, s.prevHash)).Some?
    ensures var s', line := WriteStep(c, s, r, Rotated, true), c.marshal(PersistentEntry(r, s.prevHash)).value;
            && s'.rotated == s.rotated + [CurrentData(s)] && s'.open
            && CurrentData(s') == line + "\n" && s'.size == |line| + 1 && EntryLines(line + "\n") == [line]
  {
    var line := c.marshal(PersistentEntry(r, s.prevHash)).value;
    assert LawfulLine(c, PersistentEntry(r, s.prevHash), line);
    LineAsFile(line);
    WriteAfterRotation(c, s, r);
  }

  lemma WriteAfterRotation(c: Codec, s: Snapshot, r: Receipt)
    requires s.open && s.size >= 100 * 1024 * 1024 && c.marshal(PersistentEntry(r, s.prevHash)).Some?
    ensures var s', line := WriteStep(c, s, r, Rotated, true), c.marshal(PersistentEntry(r, s.prevHash)).value;
            && s'.rotated == s.rotated + [CurrentData(s)] && s'.open
            && CurrentData(s') == line + "\n" && s'.size == |line| + 1
  {
    assert "" + c.marshal(PersistentEntry(r, s.prevHash)).value == c.marshal(PersistentEntry(r, s.prevHash)).value;
  }

  ghost predicate SegmentsFull(s: Snapshot) {
    forall i :: 0 <= i < |s.rotated| ==> |s.rotated[i]| >= 100 * 1024 * 1024
  }

  lemma RotatesWhenFull(s: Snapshot, how: Rotation)
    requires SegmentsFull(s) && (s.open ==> s.current.Some? && s.size == |s.current.value|)
    ensures SegmentsFull(BeforeWrite(s, how))
  {
  }

  lemma StepKeepsFull(c: Codec, s: Snapshot, step: Step)
    requires SegmentsFull(s) && (s.open ==> s.current.Some? && s.size == |s.current.value|)
    ensures SegmentsFull(Apply(c, s, step))
  {
    if step.Write? {
      RotatesWhenFull(s, step.how);
    }
  }

  /** Over every run no file is rotated before it has reached 100 MiB. */
  lemma {:induction false} OnlyFullFilesRotate(c: Codec, steps: seq<Step>)
    requires Lawful(c)
    ensures SegmentsFull(Run(c, steps))
  {
    if steps != [] {
      var n := |steps| - 1;
      OnlyFullFilesRotate(c, steps[..n]);
      DiskHoldsWritten(c, steps[..n]);
      StepKeepsFull(c, Run(c, steps[..n]), steps[n]);
    }
  }

  /** A closed ledger writes nothing until it is opened again. */
  lemma CloseLosesEverything(c: Codec, steps: seq<Step>)
    ensures LosesEverything(c, steps + [Close])
  {
    RunSnoc(c, steps, Close);
    ClosedLosesEverything(c, steps + [Close]);
  }

  /** Below 100 MiB no write rotates: how a rotation would turn out does not matter, and the line is appended. */
  lemma SmallFileStays(c: Codec, steps: seq<Step>, r: Receipt, how: Rotation, how': Rotation)
    requires Run(c, steps).size < 100 * 1024 * 1024
    ensures Run(c, steps + [Write(r, how, true)]) == Run(c, steps + [Write(r, how', true)])
    ensures Run(c, steps + [Write(r, how, true)]).rotated == Run(c, steps).rotated
    ensures Run(c, steps).open && AlwaysMarshals(c, r) ==>
              |Written(c, steps + [Write(r, how, true)])| == |Written(c, steps)| + 1
  {
    RunSnoc(c, steps, Write(r, how, true));
    RunSnoc(c, steps, Write(r, how', true));
  }

  /** A comment of the rotation promises to go on with the current file rather than lose data. For a full file
      that holds exactly when the new file, or after a failed rename the old one, could be opened: then the line
      is kept, and otherwise it is lost together with every later one until the ledger is opened again. */
  lemma RotationLosesLinesIff(c: Codec, steps: seq<Step>, r: Receipt, how: Rotation)
    requires Run(c, steps).open && Run(c, steps).size >= 100 * 1024 * 1024 && AlwaysMarshals(c, r)
    ensures var after := steps + [Write(r, how, true)];
            && (|Written(c, after)| == |Written(c, steps)| + 1 <==> LeavesFile(how))
            && (LosesEverything(c, after) <==> !LeavesFile(how))
  {
    RunSnoc(c, steps, Write(r, how, true));
    LosesEverythingIff(c, steps + [Write(r, how, true)], r);
  }

  function Writes(r: Receipt, n: nat): seq<Step> {
    if n == 0 then [Reopen] else Writes(r, n - 1) + [Write(r, Rotated, true)]
  }

  ghost predicate AlwaysMarshals(c: Codec, r: Receipt) {
    forall h: Hash :: c.marshal(PersistentEntry(r, h)).Some?
  }

  /** Not yet full, open, and every write so far on disk. */
  predicate Filling(c: Codec, r: Receipt, n: nat) {
    var s := Run(c, Writes(r, n));
    s.open && n <= s.size < MAX_FILE_SIZE && |Written(c, Writes(r, n))| == n
  }

  lemma OneMoreWrite(c: Codec, r: Receipt, n: nat)
    requires Lawful(c) && AlwaysMarshals(c, r) && Filling(c, r, n)
    ensures var s, s' := Run(c, Writes(r, n)), Run(c, Writes(r, n + 1));
            s'.open && s.size < s'.size && |Written(c, Writes(r, n + 1))| == n + 1
  {
    var s := Run(c, Writes(r, n));
    RunSnoc(c, Writes(r, n), Write(r, Rotated, true));
    assert LawfulLine(c, PersistentEntry(r, s.prevHash), c.marshal(PersistentEntry(r, s.prevHash)).value);
  }

  /** Ordinary writes of any receipt fill the file, so the run above is one the gateway can make. */
  lemma {:induction false} WritesFillFile(c: Codec, r: Receipt, n: nat) returns (m: nat)
    requires Lawful(c) && AlwaysMarshals(c, r) && Filling(c, r, n)
    ensures var s := Run(c, Writes(r, m)); s.open && s.size >= MAX_FILE_SIZE && Written(c, Writes(r, m)) != []
    decreases MAX_FILE_SIZE - Run(c, Writes(r, n)).size
  {
    OneMoreWrite(c, r, n);
    if Run(c, Writes(r, n + 1)).size >= MAX_FILE_SIZE {
      m := n + 1;
    } else {
      m := WritesFillFile(c, r, n + 1);
    }
  }

  lemma WritesStart(c: Codec, r: Receipt)
    ensures Filling(c, r, 0)
  {
    RunSnoc(c, [], Reopen);
    assert [] + [Reopen] == Writes(r, 0);
  }

  /** A complete run from an empty directory, with receipts of any size, that breaks the chain. */
  lemma OrdinaryWritesCanBreak(c: Codec, r: Receipt) returns (m: nat)
    requires Lawful(c) && AlwaysMarshals(c, r)
    ensures NoGenesisLine(c, Written(c, Writes(r, m))) ==>
              !Chained(c, GENESIS,
                Written(c, Writes(r, m) + [Write(r, NewFileFails, true)] + [Reopen] + [Write(r, Rotated, true)]))
  {
    WritesStart(c, r);
    m := WritesFillFile(c, r, 0);
    if NoGenesisLine(c, Written(c, Writes(r, m))) {
      FailedRotationBreaksChain(c, Writes(r, m), r, r, Rotated);
    }
  }

  lemma RunSnoc(c: Codec, steps: seq<Step>, step: Step)
    ensures Run(c, steps + [step]) == Apply(c, Run(c, steps), step)
    ensures var line := Added(c, Run(c, steps), step);
            Written(c, steps + [step]) == if line.Some? then Written(c, steps) + [line.value] else Written(c, steps)
  {
    assert (steps + [step])[..|steps|] == steps;
  }
}
