/** The reader that watches the backend's stream for tool activity and writes receipts about it. Each read is
    scanned together with the last bytes before it. */
module LedgerReader {
  import opened Sequences
  import opened Receipts
  import opened LedgerFile
  import opened ReceiptLedger
  import opened TypeTags

  const MAX_CARRYOVER := 4096

  // ---------- what one window of the stream yields ----------

  datatype Patterns = Patterns(toolUse: string -> bool, toolResult: string -> bool, text: string -> bool)

  function SourcePatterns(): Patterns {
    Patterns(s => HasTag("tool_use", s), s => HasTag("tool_result", s),
      s => HasTag("text", s) || HasTag("content_block_start", s))
  }

  /** Who the stream belongs to, and what the two extracting patterns find in a window. */
  datatype Origin = Origin(
    requestID: string, sessionID: string, subject: string,
    toolName: string -> string, toolID: string -> string)

  function CallReceipt(o: Origin, window: string, now: int): Receipt {
    var name := o.toolName(window);
    Receipt(0, now, o.requestID, o.sessionID, o.subject, "tool_call", name, "", 0,
      (if name != "" then name else "tool_call") + " id=" + o.toolID(window))
  }

  function ResultReceipt(o: Origin, window: string, now: int): Receipt {
    Receipt(0, now, o.requestID, o.sessionID, o.subject, "tool_result", "", "", 0, "result id=" + o.toolID(window))
  }

  function TextReceipt(o: Origin, now: int): Receipt {
    Receipt(0, now, o.requestID, o.sessionID, o.subject, "agent_text", "", "", 0, "")
  }

  function Traced(p: Patterns, o: Origin, window: string, now: int): seq<Receipt> {
    (if p.toolUse(window) then [CallReceipt(o, window, now)] else []) +
    (if p.toolResult(window) then [ResultReceipt(o, window, now)] else []) +
    (if p.text(window) && !p.toolUse(window) then [TextReceipt(o, now)] else [])
  }

  // ---------- what the ledger makes of it ----------

  /** The ledger after the receipts; `outcome(i)` is what happens to the i-th on its way to the file. */
  function Recorded(s: LedgerState, rs: seq<Receipt>, now: int, outcome: nat -> (Rotation, bool)): LedgerState {
    if rs == [] then s
    else
      var n := |rs| - 1;
      AppendStep(Recorded(s, rs[..n], now, outcome), rs[n], now, outcome(n).0, outcome(n).1)
  }

  lemma RecordedSnoc(s: LedgerState, rs: seq<Receipt>, r: Receipt, now: int, outcome: nat -> (Rotation, bool))
    ensures Recorded(s, rs + [r], now, outcome)
         == AppendStep(Recorded(s, rs, now, outcome), r, now, outcome(|rs|).0, outcome(|rs|).1)
  {
    assert (rs + [r])[..|rs|] == rs;
  }

  /** The last 4096 bytes of a stream, or all of a shorter one. */
  function Carried(stream: string): string {
    Last(stream, MAX_CARRYOVER)
  }

  function Prepended(carryover: string, chunk: string): (data: string)
    ensures data == carryover + chunk
  {
    if |carryover| > 0 then carryover + chunk else chunk
  }

  lemma CarriedAdvances(stream: string, chunk: string)
    ensures Carried(Carried(stream) + chunk) == Carried(stream + chunk)
    ensures |chunk| == 0 ==> Carried(stream + chunk) == Carried(stream)
  {
    assert |chunk| == 0 ==> stream + chunk == stream;
  }

  // ---------- the object ----------

  class LedgerReader {
    const ledger: Ledger
    const patterns: Patterns
    const origin: Origin
    var carryover: string
    /** what the backend's next reads will return */
    var source: seq<string>
    /** the bytes returned so far */
    ghost var stream: string

    ghost predicate Valid()
      reads this
    {
      this as object !in ledger.Footprint() && carryover == Carried(stream)
    }

    constructor (source: seq<string>, ledger: Ledger, patterns: Patterns, origin: Origin)
      ensures Valid() && this.source == source && this.ledger == ledger && stream == ""
      ensures this.patterns == patterns && this.origin == origin
    {
      this.source, this.ledger, this.patterns, this.origin := source, ledger, patterns, origin;
      carryover, stream := "", "";
    }

    /** The bytes come through unchanged, and the ledger gets what their window yields. */
    method Read(now: int, outcome: nat -> (Rotation, bool)) returns (chunk: string)
      requires Valid() && ledger.Ready() && source != []
      modifies this, ledger.Footprint()
      ensures Valid() && ledger.Ready()
      ensures chunk == old(source[0]) && source == old(source[1..]) && stream == old(stream) + chunk
      ensures ledger.State() == ScanStep(old(ledger.State()), old(carryover), chunk, now, outcome)
    {
      chunk := NextChunk();
      Scan(chunk, now, outcome);
      CarriedAdvances(old(stream), chunk);
    }

    method NextChunk() returns (chunk: string)
      requires source != []
      modifies `source, `stream
      ensures chunk == old(source[0]) && source == old(source[1..]) && stream == old(stream) + chunk
    {
      chunk := source[0];
      source := source[1..];
      stream := stream + chunk;
    }

    ghost function ScanStep(
        s: LedgerState, before: string, chunk: string, now: int, outcome: nat -> (Rotation, bool)): LedgerState {
      if |chunk| > 0 then Recorded(s, Traced(patterns, origin, before + chunk, now), now, outcome) else s
    }

    method Scan(chunk: string, now: int, outcome: nat -> (Rotation, bool))
      requires this as object !in ledger.Footprint() && ledger.Ready()
      modifies `carryover, ledger.Footprint()
      ensures ledger.Ready()
      ensures carryover == if |chunk| > 0 then Carried(old(carryover) + chunk) else old(carryover)
      ensures ledger.State() == ScanStep(old(ledger.State()), old(carryover), chunk, now, outcome)
    {
      if |chunk| > 0 {
        ProcessChunk(chunk, now, outcome);
      }
    }

    method ProcessChunk(chunk: string, now: int, outcome: nat -> (Rotation, bool))
      requires this as object !in ledger.Footprint() && ledger.Ready()
      modifies `carryover, ledger.Footprint()
      ensures ledger.Ready()
      ensures carryover == Carried(old(carryover) + chunk)
      ensures ledger.State()
              == Recorded(old(ledger.State()), Traced(patterns, origin, old(carryover) + chunk, now), now, outcome)
    {
      var data := Prepended(carryover, chunk);
      carryover := Carried(data);
      RecordAll(data, now, outcome);
    }

    /** The three checks at the end of processChunk. */
    method RecordAll(data: string, now: int, outcome: nat -> (Rotation, bool))
      requires this as object !in ledger.Footprint() && ledger.Ready()
      modifies ledger.Footprint()
      ensures ledger.Ready()
      ensures ledger.State() == Recorded(old(ledger.State()), Traced(patterns, origin, data, now), now, outcome)
    {
      ghost var before := ledger.State();
      ghost var calls := if patterns.toolUse(data) then [CallReceipt(origin, data, now)] else [];
      ghost var results := if patterns.toolResult(data) then [ResultReceipt(origin, data, now)] else [];
      var n := RecordIf(patterns.toolUse(data), before, [], CallReceipt(origin, data, now), now, 0, outcome);
      n := RecordIf(patterns.toolResult(data), before, [] + calls, ResultReceipt(origin, data, now), now, n, outcome);
      n := RecordIf(patterns.text(data) && !patterns.toolUse(data), before, [] + calls + results,
        TextReceipt(origin, now), now, n, outcome);
      assert [] + calls == calls;
    }

    method RecordIf(found: bool, ghost before: LedgerState, ghost done: seq<Receipt>, r: Receipt, now: int, n: nat,
                    outcome: nat -> (Rotation, bool)) returns (n': nat)
      requires ledger.Ready() && n == |done| && ledger.State() == Recorded(before, done, now, outcome)
      modifies ledger.Footprint()
      ensures ledger.Ready() && n' == |done| + if found then 1 else 0
      ensures ledger.State() == Recorded(before, done + if found then [r] else [], now, outcome)
    {
      n' := n;
      if found {
        RecordedSnoc(before, done, r, now, outcome);
        var _ := ledger.Append(r, now, outcome(n).0, outcome(n).1);
        n' := n + 1;
      } else {
        assert done + [] == done;
      }
    }
  }

  // ---------- detection does not depend on the reads ----------

  /** The bytes that are scanned when the k-th read returns. */
  function Window(chunks: seq<string>, k: nat): string
    requires k < |chunks|
  {
    Carried(Flatten(chunks[..k])) + chunks[k]
  }

  predicate DetectedAt(p: string -> bool, chunks: seq<string>, k: nat)
    requires k < |chunks|
  {
    chunks[k] != "" && p(Window(chunks, k))
  }

  ghost predicate Detected(p: string -> bool, chunks: seq<string>) {
    exists k: nat :: k < |chunks| && DetectedAt(p, chunks, k)
  }

  predicate MatchWithin(p: string -> bool, stream: string, i: nat, j: nat)
    requires i <= j <= |stream|
  {
    p(stream[i..j])
  }

  predicate ShortMatchAt(p: string -> bool, stream: string, i: nat, j: nat)
    requires i <= j <= |stream|
  {
    j - i <= 4097 && MatchWithin(p, stream, i, j)
  }

  /** The stream has a match of at most 4097 bytes, one more than the carryover holds. */
  ghost predicate HasShortMatch(p: string -> bool, stream: string) {
    exists i: nat, j: nat :: i <= j <= |stream| && ShortMatchAt(p, stream, i, j)
  }

  lemma MatchWidens(p: string -> bool, stream: string, i: nat, j: nat, i': nat, j': nat)
    requires Unanchored(p) && i' <= i <= j <= j' <= |stream| && MatchWithin(p, stream, i, j)
    ensures MatchWithin(p, stream, i', j')
  {
    assert stream[i'..j'] == stream[i'..i] + stream[i..j] + stream[j..j'];
  }

  lemma FlattenPrefix(chunks: seq<string>, k: nat)
    requires k < |chunks|
    ensures Flatten(chunks[..k + 1]) == Flatten(chunks[..k]) + chunks[k]
  {
    assert chunks[..k + 1] == chunks[..k] + [chunks[k]];
    FlattenSnoc(chunks[..k], chunks[k]);
  }

  lemma FlattenSplit(chunks: seq<string>, k: nat)
    requires k <= |chunks|
    ensures Flatten(chunks) == Flatten(chunks[..k]) + Flatten(chunks[k..])
  {
    assert chunks == chunks[..k] + chunks[k..];
    FlattenConcat(chunks[..k], chunks[k..]);
  }

  function WindowStart(chunks: seq<string>, k: nat): nat
    requires k < |chunks|
  {
    var from := |Flatten(chunks[..k])|;
    if from <= MAX_CARRYOVER then 0 else from - MAX_CARRYOVER
  }

  function WindowEnd(chunks: seq<string>, k: nat): nat
    requires k < |chunks|
  {
    |Flatten(chunks[..k])| + |chunks[k]|
  }

  /** A window is the read together with what lies up to 4096 bytes before it. */
  lemma WindowInStream(chunks: seq<string>, k: nat)
    requires k < |chunks|
    ensures WindowStart(chunks, k) <= WindowEnd(chunks, k) <= |Flatten(chunks)|
    ensures Window(chunks, k) == Flatten(chunks)[WindowStart(chunks, k)..WindowEnd(chunks, k)]
  {
    FlattenPrefix(chunks, k);
    FlattenSplit(chunks, k + 1);
  }

  /** The read that brings the n-th byte. */
  lemma {:induction false} ReadOf(chunks: seq<string>, n: nat) returns (k: nat)
    requires n < |Flatten(chunks)|
    ensures k < |chunks| && |Flatten(chunks[..k])| <= n < WindowEnd(chunks, k)
    decreases |chunks|
  {
    var last := |chunks| - 1;
    FlattenPrefix(chunks, last);
    assert chunks[..last + 1] == chunks;
    if n < |Flatten(chunks[..last])| {
      k := ReadOf(chunks[..last], n);
      assert chunks[..last][..k] == chunks[..k];
    } else {
      k := last;
    }
  }

  lemma ShortMatchIsDetected(p: string -> bool, chunks: seq<string>, i: nat, j: nat)
    requires Unanchored(p) && i <= j <= |Flatten(chunks)| && ShortMatchAt(p, Flatten(chunks), i, j)
    ensures Detected(p, chunks)
  {
    assert i < j;
    var k := ReadOf(chunks, j - 1);
    WindowInStream(chunks, k);
    MatchWidens(p, Flatten(chunks), i, j, WindowStart(chunks, k), WindowEnd(chunks, k));
    assert DetectedAt(p, chunks, k);
  }

  /** Nothing is recorded about a stream without a match. */
  lemma DetectedIsInStream(p: string -> bool, chunks: seq<string>)
    requires Unanchored(p) && Detected(p, chunks)
    ensures p(Flatten(chunks))
  {
    var k: nat :| k < |chunks| && DetectedAt(p, chunks, k);
    var stream := Flatten(chunks);
    WindowInStream(chunks, k);
    MatchWidens(p, stream, WindowStart(chunks, k), WindowEnd(chunks, k), 0, |stream|);
    assert stream[0..|stream|] == stream;
  }

  function OneByOne(stream: string): seq<string> {
    if stream == "" then [] else OneByOne(stream[..|stream| - 1]) + [[stream[|stream| - 1]]]
  }

  lemma {:induction false} OneByOneSplits(stream: string)
    ensures Flatten(OneByOne(stream)) == stream
    ensures forall c :: c in OneByOne(stream) ==> |c| == 1
  {
    if stream != "" {
      var n := |stream| - 1;
      OneByOneSplits(stream[..n]);
      FlattenSnoc(OneByOne(stream[..n]), [stream[n]]);
      assert stream[..n] + [stream[n]] == stream;
    }
  }

  ghost predicate DetectedHoweverRead(p: string -> bool, stream: string) {
    forall chunks :: Flatten(chunks) == stream ==> Detected(p, chunks)
  }

  lemma DetectedByteByByte(p: string -> bool, stream: string)
    requires Detected(p, OneByOne(stream))
    ensures HasShortMatch(p, stream)
  {
    var chunks := OneByOne(stream);
    OneByOneSplits(stream);
    var k: nat :| k < |chunks| && DetectedAt(p, chunks, k);
    WindowInStream(chunks, k);
    assert ShortMatchAt(p, stream, WindowStart(chunks, k), WindowEnd(chunks, k));
  }

  /** A match is certain to be noticed, however the network cuts the stream into reads, exactly when the
      stream has one of at most 4097 bytes; one byte more and reading byte by byte misses it. */
  lemma DetectionIsChunkProof(p: string -> bool, stream: string)
    requires Unanchored(p)
    ensures DetectedHoweverRead(p, stream) <==> HasShortMatch(p, stream)
  {
    if DetectedHoweverRead(p, stream) {
      OneByOneSplits(stream);
      DetectedByteByByte(p, stream);
    }
    if HasShortMatch(p, stream) {
      var i: nat, j: nat :| i <= j <= |stream| && ShortMatchAt(p, stream, i, j);
      forall chunks | Flatten(chunks) == stream
        ensures Detected(p, chunks)
      {
        ShortMatchIsDetected(p, chunks, i, j);
      }
    }
  }

  lemma SourcePatternsAreUnanchored()
    ensures var p := SourcePatterns(); Unanchored(p.toolUse) && Unanchored(p.toolResult) && Unanchored(p.text)
  {
    TagIsUnanchored("tool_use");
    TagIsUnanchored("tool_result");
    TagIsUnanchored("text");
    TagIsUnanchored("content_block_start");
    EitherIsUnanchored(s => HasTag("text", s), s => HasTag("content_block_start", s));
  }

  // ---------- what the receipts of a window say ----------

  function Actions(rs: seq<Receipt>): seq<string> {
    seq(|rs|, i requires 0 <= i < |rs| => rs[i].action)
  }

  /** Whose receipt it is, and that it has no number, risk or duration of its own. */
  predicate BelongsTo(r: Receipt, o: Origin, now: int) {
    && r.requestID == o.requestID && r.sessionID == o.sessionID && r.subject == o.subject
    && r.timestamp == now && r.risk == "" && r.durationMs == 0
  }

  /** What the receipt says of the tool: a call names it and begins its summary with it, or with "tool_call" where no
      name was found; a result gives the identifier alone; text gives nothing. */
  predicate Describes(r: Receipt, o: Origin, window: string) {
    && (r.action == "tool_call" ==>
          && r.tool == o.toolName(window)
          && r.summary == (if r.tool == "" then "tool_call" else r.tool) + " id=" + o.toolID(window))
    && (r.action == "tool_result" ==> r.tool == "" && r.summary == "result id=" + o.toolID(window))
    && (r.action == "agent_text" ==> r.tool == "" && r.summary == "")
  }

  /** Under the source's patterns a window yields a call for a "tool_use" tag, then a result for a "tool_result" tag,
      and text for a "text" or "content_block_start" tag unless there is a call; each receipt belongs to the
      stream's request, session and subject. */
  lemma SourceWindow(o: Origin, window: string, now: int)
    ensures var rs := Traced(SourcePatterns(), o, window, now);
            var call, result := HasTag("tool_use", window), HasTag("tool_result", window);
            var text := HasTag("text", window) || HasTag("content_block_start", window);
            && Actions(rs) == (if call then ["tool_call"] else []) + (if result then ["tool_result"] else [])
                              + (if text && !call then ["agent_text"] else [])
            && forall r :: r in rs ==> BelongsTo(r, o, now) && Describes(r, o, window)
  {
    var p := SourcePatterns();
    ActionsConcat(if p.toolUse(window) then [CallReceipt(o, window, now)] else [],
      if p.toolResult(window) then [ResultReceipt(o, window, now)] else [],
      if p.text(window) && !p.toolUse(window) then [TextReceipt(o, now)] else []);
    ReceiptsBelong(p, o, window, now);
  }

  lemma ActionsConcat(a: seq<Receipt>, b: seq<Receipt>, c: seq<Receipt>)
    ensures Actions(a + b + c) == Actions(a) + Actions(b) + Actions(c)
  {
  }

  lemma ReceiptsBelong(p: Patterns, o: Origin, window: string, now: int)
    ensures forall r :: r in Traced(p, o, window, now) ==> BelongsTo(r, o, now) && Describes(r, o, window)
  {
    assert Describes(CallReceipt(o, window, now), o, window);
    assert Describes(ResultReceipt(o, window, now), o, window);
    assert Describes(TextReceipt(o, now), o, window);
  }

  // ---------- receipts over a whole stream ----------

  /** Every receipt about the stream, the k-th read happening at `clock(k)`. */
  function Trace(p: Patterns, o: Origin, chunks: seq<string>, clock: nat -> int): seq<Receipt> {
    if chunks == [] then []
    else
      var n := |chunks| - 1;
      Trace(p, o, chunks[..n], clock) + if chunks[n] == "" then [] else Traced(p, o, Window(chunks, n), clock(n))
  }

  ghost predicate HasAction(rs: seq<Receipt>, action: string) {
    exists i :: 0 <= i < |rs| && rs[i].action == action
  }

  lemma HasActionConcat(a: seq<Receipt>, b: seq<Receipt>, action: string)
    ensures HasAction(a + b, action) <==> HasAction(a, action) || HasAction(b, action)
  {
    if HasAction(a, action) {
      var i :| 0 <= i < |a| && a[i].action == action;
      assert (a + b)[i].action == action;
    }
    if HasAction(b, action) {
      var i :| 0 <= i < |b| && b[i].action == action;
      assert (a + b)[|a| + i].action == action;
    }
  }

  predicate IsTraceAction(action: string) {
    action == "tool_call" || action == "tool_result" || action == "agent_text"
  }

  /** When a window yields the action: text counts only where no tool is called. */
  function PatternOf(p: Patterns, action: string): string -> bool {
    if action == "tool_call" then p.toolUse
    else if action == "tool_result" then p.toolResult
    else window => p.text(window) && !p.toolUse(window)
  }

  lemma TracedHasAction(p: Patterns, o: Origin, window: string, now: int, action: string)
    requires IsTraceAction(action)
    ensures HasAction(Traced(p, o, window, now), action) <==> PatternOf(p, action)(window)
  {
    var rs := Traced(p, o, window, now);
    if p.toolUse(window) {
      assert rs[0].action == "tool_call";
    }
    if p.toolResult(window) {
      assert rs[if p.toolUse(window) then 1 else 0].action == "tool_result";
    }
    if p.text(window) && !p.toolUse(window) {
      assert rs[if p.toolResult(window) then 1 else 0].action == "agent_text";
    }
  }

  lemma DetectedSnoc(p: string -> bool, chunks: seq<string>)
    requires chunks != []
    ensures Detected(p, chunks) <==> Detected(p, chunks[..|chunks| - 1]) || DetectedAt(p, chunks, |chunks| - 1)
  {
    var n := |chunks| - 1;
    forall k: nat | k < n
      ensures DetectedAt(p, chunks, k) <==> DetectedAt(p, chunks[..n], k)
    {
      assert chunks[..n][..k] == chunks[..k];
    }
    if Detected(p, chunks[..n]) {
      var k: nat :| k < n && DetectedAt(p, chunks[..n], k);
      assert DetectedAt(p, chunks, k);
    }
  }

  /** A stream gets a receipt for a tool call, a tool result or agent text exactly when some window shows one. */
  lemma {:induction false} TraceHasAction(
      p: Patterns, o: Origin, chunks: seq<string>, clock: nat -> int, action: string)
    requires IsTraceAction(action)
    ensures HasAction(Trace(p, o, chunks, clock), action) <==> Detected(PatternOf(p, action), chunks)
  {
    if chunks != [] {
      var n := |chunks| - 1;
      TraceHasAction(p, o, chunks[..n], clock, action);
      DetectedSnoc(PatternOf(p, action), chunks);
      var added := if chunks[n] == "" then [] else Traced(p, o, Window(chunks, n), clock(n));
      HasActionConcat(Trace(p, o, chunks[..n], clock), added, action);
      if chunks[n] != "" {
        TracedHasAction(p, o, Window(chunks, n), clock(n), action);
      }
    }
  }

  // ---------- a whole stream through the reader ----------

  /** The ledger after the reads of a stream; the k-th read happens at `clock(k)`, and `outcome(k)` says what
      happens to its receipts on their way to the file. */
  function StateAfter(
      s: LedgerState, p: Patterns, o: Origin, chunks: seq<string>, clock: nat -> int,
      outcome: nat -> (nat -> (Rotation, bool))): LedgerState
  {
    if chunks == [] then s
    else
      var n := |chunks| - 1;
      var before := StateAfter(s, p, o, chunks[..n], clock, outcome);
      if chunks[n] == "" then before
        else Recorded(before, Traced(p, o, Window(chunks, n), clock(n)), clock(n), outcome(n))
  }

  lemma StateAfterNext(
      s: LedgerState, p: Patterns, o: Origin, chunks: seq<string>, clock: nat -> int,
      outcome: nat -> (nat -> (Rotation, bool)), i: nat)
    requires i < |chunks|
    ensures StateAfter(s, p, o, chunks[..i + 1], clock, outcome) ==
            var before := StateAfter(s, p, o, chunks[..i], clock, outcome);
            if chunks[i] == "" then before
            else Recorded(before, Traced(p, o, Carried(Flatten(chunks[..i])) + chunks[i], clock(i)), clock(i),
              outcome(i))
  {
    assert chunks[..i + 1][..i] == chunks[..i];
  }

  lemma TakeNext(chunks: seq<string>, i: nat)
    requires i < |chunks|
    ensures chunks[..i + 1] == chunks[..i] + [chunks[i]] && chunks[..|chunks|] == chunks
  {
  }

  lemma DropNext(chunks: seq<string>, i: nat)
    requires i < |chunks|
    ensures chunks[i..] != [] && chunks[i..][0] == chunks[i] && chunks[i..][1..] == chunks[i + 1..]
  {
  }

  /** The first i reads of the stream are done. */
  ghost predicate Progress(
      reader: LedgerReader, before: LedgerState, chunks: seq<string>, i: nat, clock: nat -> int,
      outcome: nat -> (nat -> (Rotation, bool)))
    requires i <= |chunks|
    reads reader, reader.ledger.Footprint()
  {
    && reader.source == chunks[i..] && reader.stream == Flatten(chunks[..i])
    && reader.ledger.State() == StateAfter(before, reader.patterns, reader.origin, chunks[..i], clock, outcome)
  }

  method ReadNth(
      reader: LedgerReader, ghost before: LedgerState, ghost chunks: seq<string>, i: nat, clock: nat -> int,
      outcome: nat -> (nat -> (Rotation, bool))) returns (chunk: string)
    requires reader.Valid() && reader.ledger.Ready()
    requires i < |chunks| && Progress(reader, before, chunks, i, clock, outcome)
    modifies reader, reader.ledger.Footprint()
    ensures reader.Valid() && reader.ledger.Ready()
    ensures chunk == chunks[i] && Progress(reader, before, chunks, i + 1, clock, outcome)
  {
    DropNext(chunks, i);
    FlattenPrefix(chunks, i);
    StateAfterNext(before, reader.patterns, reader.origin, chunks, clock, outcome, i);
    chunk := reader.Read(clock(i), outcome(i));
  }

  /** The proxy's loop: it reads until the backend's stream ends, and passes on what it reads. */
  method TraceStream(reader: LedgerReader, clock: nat -> int, outcome: nat -> (nat -> (Rotation, bool)))
    returns (out: seq<string>)
    requires reader.Valid() && reader.ledger.Ready() && reader.stream == ""
    modifies reader, reader.ledger.Footprint()
    ensures reader.Valid() && reader.ledger.Ready()
    ensures out == old(reader.source) && reader.stream == Flatten(out)
    ensures reader.ledger.State()
            == StateAfter(old(reader.ledger.State()), reader.patterns, reader.origin, out, clock, outcome)
  {
    ghost var chunks, before := reader.source, reader.ledger.State();
    assert chunks[..0] == [] && chunks[0..] == chunks && chunks[..|chunks|] == chunks;
    out := ReadAll(reader, before, chunks, |reader.source|, clock, outcome);
  }

  method ReadAll(
      reader: LedgerReader, ghost before: LedgerState, ghost chunks: seq<string>, n: nat, clock: nat -> int,
      outcome: nat -> (nat -> (Rotation, bool))) returns (out: seq<string>)
    requires reader.Valid() && reader.ledger.Ready() && n == |chunks|
             && Progress(reader, before, chunks, 0, clock, outcome)
    modifies reader, reader.ledger.Footprint()
    ensures reader.Valid() && reader.ledger.Ready()
    ensures out == chunks && Progress(reader, before, chunks, n, clock, outcome)
  {
    out := [];
    var i := 0;
    while i < n
      invariant reader.Valid() && reader.ledger.Ready() && i <= n == |chunks|
      invariant out == chunks[..i] && Progress(reader, before, chunks, i, clock, outcome)
    {
      var chunk := ReadNth(reader, before, chunks, i, clock, outcome);
      TakeNext(chunks, i);
      out := out + [chunk];
      i := i + 1;
    }
  }

  // ---------- the receipts in the ledger ----------

  ghost predicate SameActions(a: seq<Receipt>, b: seq<Receipt>) {
    |a| == |b| && forall i :: 0 <= i < |a| ==> a[i].action == b[i].action
  }

  /** The ledger's log has grown by receipts with these actions. */
  ghost predicate Grown(before: seq<Receipt>, after: seq<Receipt>, rs: seq<Receipt>) {
    before <= after && SameActions(after[|before|..], rs)
  }

  lemma GrownTwice(a: seq<Receipt>, b: seq<Receipt>, c: seq<Receipt>, rs: seq<Receipt>, more: seq<Receipt>)
    requires Grown(a, b, rs) && Grown(b, c, more)
    ensures Grown(a, c, rs + more)
  {
    assert c[|a|..] == b[|a|..] + c[|b|..];
  }

  lemma {:induction false} RecordedGrows(s: LedgerState, rs: seq<Receipt>, now: int, outcome: nat -> (Rotation, bool))
    ensures Grown(s.log, Recorded(s, rs, now, outcome).log, rs)
  {
    if rs != [] {
      var n := |rs| - 1;
      var before := Recorded(s, rs[..n], now, outcome);
      RecordedGrows(s, rs[..n], now, outcome);
      var after := AppendStep(before, rs[n], now, outcome(n).0, outcome(n).1);
      assert Grown(before.log, after.log, [rs[n]]);
      GrownTwice(s.log, before.log, after.log, rs[..n], [rs[n]]);
      assert rs[..n] + [rs[n]] == rs;
    }
  }

  lemma {:induction false} StreamGrows(
      s: LedgerState, p: Patterns, o: Origin, chunks: seq<string>, clock: nat -> int,
      outcome: nat -> (nat -> (Rotation, bool)))
    ensures Grown(s.log, StateAfter(s, p, o, chunks, clock, outcome).log, Trace(p, o, chunks, clock))
  {
    if chunks != [] {
      var n := |chunks| - 1;
      var before := StateAfter(s, p, o, chunks[..n], clock, outcome);
      StreamGrows(s, p, o, chunks[..n], clock, outcome);
      if chunks[n] != "" {
        var rs := Traced(p, o, Window(chunks, n), clock(n));
        RecordedGrows(before, rs, clock(n), outcome(n));
        GrownTwice(s.log, before.log, StateAfter(s, p, o, chunks, clock, outcome).log, Trace(p, o, chunks[..n], clock),
          rs);
      } else {
        assert Trace(p, o, chunks[..n], clock) + [] == Trace(p, o, chunks[..n], clock);
      }
    }
  }

  lemma SameActionsHave(a: seq<Receipt>, b: seq<Receipt>, action: string)
    requires SameActions(a, b)
    ensures HasAction(a, action) <==> HasAction(b, action)
  {
    if HasAction(a, action) {
      var i :| 0 <= i < |a| && a[i].action == action;
      assert b[i].action == action;
    }
    if HasAction(b, action) {
      var i :| 0 <= i < |b| && b[i].action == action;
      assert a[i].action == action;
    }
  }

  /** After a whole stream the ledger has gained a receipt of an action if and only if some read's window calls
      for one; so for tool calls and results a match of at most 4097 bytes is enough, however the stream is cut. */
  lemma StreamLeavesAction(
      s: LedgerState, p: Patterns, o: Origin, chunks: seq<string>, clock: nat -> int,
      outcome: nat -> (nat -> (Rotation, bool)), action: string)
    requires IsTraceAction(action)
    ensures var after := StateAfter(s, p, o, chunks, clock, outcome).log;
            && s.log <= after
            && (HasAction(after[|s.log|..], action) <==> Detected(PatternOf(p, action), chunks))
            && (Unanchored(PatternOf(p, action)) && HasShortMatch(PatternOf(p, action), Flatten(chunks)) ==>
                  HasAction(after[|s.log|..], action))
  {
    var after := StateAfter(s, p, o, chunks, clock, outcome).log;
    StreamGrows(s, p, o, chunks, clock, outcome);
    TraceHasAction(p, o, chunks, clock, action);
    SameActionsHave(after[|s.log|..], Trace(p, o, chunks, clock), action);
    if Unanchored(PatternOf(p, action)) {
      DetectionIsChunkProof(PatternOf(p, action), Flatten(chunks));
    }
  }
}
