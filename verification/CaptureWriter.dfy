/** The response scanner: it holds a text response back until it is complete, scans it, and lets it through,
    or gives up holding back when it is not text or grows too large. */
module CaptureWriter {
  import opened Wrappers
  import opened Sequences
  import Decimal

  // ---------- the response writer underneath ----------

  type Headers = map<string, string>

  datatype Head = Head(status: int, headers: Headers)

  /** The headers still to be sent, the head once it is sent, and the body so far. */
  datatype Client = Client(headers: Headers, sent: Option<Head>, body: string)

  /** Only the first header counts. */
  function SendHead(c: Client, status: int): Client {
    if c.sent.Some? then c else c.(sent := Some(Head(status, c.headers)))
  }

  /** A body without a header makes it 200. */
  function SendBody(c: Client, b: string): Client {
    var open := SendHead(c, 200);
    open.(body := open.body + b)
  }

  class ResponseWriter {
    var headers: Headers
    var sent: Option<Head>
    var body: string

    function View(): Client
      reads this
    {
      Client(headers, sent, body)
    }

    constructor (headers: Headers)
      ensures View() == Client(headers, None, "")
    {
      this.headers, sent, body := headers, None, "";
    }

    method Set(key: string, value: string)
      modifies `headers
      ensures headers == old(headers)[key := value]
    {
      headers := headers[key := value];
    }

    method WriteHeader(status: int)
      modifies `sent
      ensures View() == SendHead(old(View()), status)
    {
      if sent.None? {
        sent := Some(Head(status, headers));
      }
    }

    method Write(b: string)
      modifies `sent, `body
      ensures View() == SendBody(old(View()), b)
    {
      WriteHeader(200);
      body := body + b;
    }
  }

  // ---------- what is scanned ----------

  datatype Risk = NoRisk | Low | Medium | High

  function RiskText(r: Risk): string {
    match r
    case NoRisk => "none"
    case Low => "low"
    case Medium => "medium"
    case High => "high"
  }

  datatype Scanner = Scanner(risk: string -> Risk, sanitize: string -> string)

  predicate Contains(s: string, part: string) {
    part <= s || (s != "" && Contains(s[1..], part))
  }

  function LowerChar(c: char): char {
    if 'A' <= c <= 'Z' then (c as int + 32) as char else c
  }

  function ToLower(s: string): string {
    seq(|s|, i requires 0 <= i < |s| => LowerChar(s[i]))
  }

  predicate IsScannable(contentType: string) {
    var ct := ToLower(contentType);
    !Contains(ct, "html") && (Contains(ct, "json") || Contains(ct, "text/"))
  }

  lemma {:induction false} ContainsWithin(a: string, part: string, b: string)
    ensures Contains(a + part + b, part)
  {
    if a != "" {
      ContainsWithin(a[1..], part, b);
      assert (a + part + b)[1..] == a[1..] + part + b;
    } else {
      assert part <= a + part + b;
    }
  }

  lemma {:induction false} ContainedSomewhere(s: string, part: string) returns (a: string, b: string)
    requires Contains(s, part)
    ensures s == a + part + b
  {
    if part <= s {
      a, b := "", s[|part|..];
    } else {
      var rest;
      rest, b := ContainedSomewhere(s[1..], part);
      a := [s[0]] + rest;
    }
  }

  /** A letter of either case for a small letter, and itself for any other character. */
  predicate SameLetter(x: char, w: char) {
    x == w || ('a' <= w <= 'z' && x as int == w as int - 32)
  }

  predicate MentionedAt(contentType: string, word: string, i: nat) {
    i + |word| <= |contentType| && forall j :: 0 <= j < |word| ==> SameLetter(contentType[i + j], word[j])
  }

  /** The word stands somewhere in the content type, in letters of any case. */
  ghost predicate Mentions(contentType: string, word: string) {
    exists i: nat :: MentionedAt(contentType, word, i)
  }

  /** No capitals. */
  predicate IsLower(word: string) {
    forall j :: 0 <= j < |word| ==> !('A' <= word[j] <= 'Z')
  }

  lemma MentionedAtIff(contentType: string, word: string, i: nat)
    requires IsLower(word) && i + |word| <= |contentType|
    ensures MentionedAt(contentType, word, i) <==> ToLower(contentType)[i..i + |word|] == word
  {
    var part := ToLower(contentType)[i..i + |word|];
    assert forall j :: 0 <= j < |word| ==> part[j] == LowerChar(contentType[i + j]);
    if part == word {
      forall j | 0 <= j < |word|
        ensures SameLetter(contentType[i + j], word[j])
      {
        assert part[j] == word[j];
      }
    }
  }

  lemma MentionsIff(contentType: string, word: string)
    requires IsLower(word)
    ensures Contains(ToLower(contentType), word) <==> Mentions(contentType, word)
  {
    var ct := ToLower(contentType);
    if Contains(ct, word) {
      var a, b := ContainedSomewhere(ct, word);
      assert ct[|a|..|a| + |word|] == word;
      MentionedAtIff(contentType, word, |a|);
    }
    if Mentions(contentType, word) {
      var i: nat :| MentionedAt(contentType, word, i);
      MentionedAtIff(contentType, word, i);
      assert ct == ct[..i] + word + ct[i + |word|..];
      ContainsWithin(ct[..i], word, ct[i + |word|..]);
    }
  }

  /** JSON and text are scanned, HTML never, whatever the case of the letters and the parameters around. */
  lemma ScannableIff(contentType: string)
    ensures IsScannable(contentType) <==>
            !Mentions(contentType, "html") && (Mentions(contentType, "json") || Mentions(contentType, "text/"))
  {
    MentionsIff(contentType, "html");
    MentionsIff(contentType, "json");
    MentionsIff(contentType, "text/");
  }

  function ContentType(h: Headers): string {
    if "Content-Type" in h then h["Content-Type"] else ""
  }

  // ---------- the capturing writer as a state machine ----------

  datatype Capture = Capture(statusCode: int, headerWritten: bool, buf: string, passthrough: bool, contentType: string)

  datatype World = World(capture: Capture, client: Client)

  function Fresh(h: Headers): World {
    World(Capture(0, false, "", false, ""), Client(h, None, ""))
  }

  function HeaderStep(w: World, status: int): World {
    var c := w.capture.(statusCode := status, contentType := ContentType(w.client.headers));
    if IsScannable(c.contentType) then w.(capture := c)
    else World(c.(passthrough := true, headerWritten := true), SendHead(w.client, status))
  }

  function FlushStep(w: World): World {
    var client := if w.capture.headerWritten then w.client else SendHead(w.client, w.capture.statusCode);
    World(w.capture.(passthrough := true, headerWritten := true, buf := ""),
      if |w.capture.buf| > 0 then SendBody(client, w.capture.buf) else client)
  }

  function WriteStep(maxScan: int, w: World, b: string): World {
    var w := if w.capture.statusCode == 0 then HeaderStep(w, 200) else w;
    if w.capture.passthrough then w.(client := SendBody(w.client, b))
    else if |w.capture.buf| + |b| > maxScan then
      var flushed := FlushStep(w);
      flushed.(client := SendBody(flushed.client, b))
    else w.(capture := w.capture.(buf := w.capture.buf + b))
  }

  predicate ShouldScan(c: Capture) {
    !c.passthrough && |c.buf| > 0
  }

  /** The body that replaces a scanned one. */
  function Cleaned(sc: Scanner, body: string): string {
    if sc.risk(body) == High then sc.sanitize(body) else body
  }

  function ScannedHeaders(sc: Scanner, h: Headers, body: string): Headers {
    h["X-SafePaw-Output-Risk" := RiskText(sc.risk(body))]["Content-Length" := Decimal.Print(|Cleaned(sc, body)|)]
  }

  function FinishStep(sc: Scanner, w: World): World {
    if !ShouldScan(w.capture) then w
    else
      var client := w.client.(headers := ScannedHeaders(sc, w.client.headers, w.capture.buf));
      var open := if w.capture.headerWritten then client else SendHead(client, w.capture.statusCode);
      w.(client := SendBody(open, Cleaned(sc, w.capture.buf)))
  }

  // ---------- the object ----------

  class CapturingWriter {
    const client: ResponseWriter
    const maxScan: int
    var statusCode: int
    var headerWritten: bool
    var buf: string
    var passthrough: bool
    var contentType: string

    function View(): World
      reads this, client
    {
      World(Capture(statusCode, headerWritten, buf, passthrough, contentType), client.View())
    }

    constructor (client: ResponseWriter, maxScan: int)
      ensures this.client == client && this.maxScan == maxScan
      ensures View().capture == Fresh(client.headers).capture
    {
      this.client, this.maxScan := client, maxScan;
      statusCode, headerWritten, buf, passthrough, contentType := 0, false, "", false, "";
    }

    method WriteHeader(status: int)
      modifies this, client
      ensures View() == HeaderStep(old(View()), status)
    {
      statusCode := status;
      contentType := if "Content-Type" in client.headers then client.headers["Content-Type"] else "";
      if !IsScannable(contentType) {
        passthrough := true;
        headerWritten := true;
        client.WriteHeader(status);
      }
    }

    method Write(b: string)
      modifies this, client
      ensures View() == WriteStep(maxScan, old(View()), b)
    {
      if statusCode == 0 {
        WriteHeader(200);
      }
      if passthrough {
        client.Write(b);
        return;
      }
      if |buf| + |b| > maxScan {
        Flush();
        client.Write(b);
        return;
      }
      buf := buf + b;
    }

    method Flush()
      modifies this, client
      ensures View() == FlushStep(old(View()))
    {
      passthrough := true;
      if !headerWritten {
        headerWritten := true;
        client.WriteHeader(statusCode);
      }
      if |buf| > 0 {
        client.Write(buf);
        buf := "";
      }
    }

    /** What OutputScanner does once the handler has returned. */
    method Finish(sc: Scanner)
      modifies client
      ensures View() == FinishStep(sc, old(View()))
    {
      if passthrough || |buf| == 0 {
        return;
      }
      var body := buf;
      var risk := sc.risk(body);
      if risk == High {
        body := sc.sanitize(body);
      }
      client.Set("X-SafePaw-Output-Risk", RiskText(risk));
      client.Set("Content-Length", Decimal.Print(|body|));
      if !headerWritten {
        client.WriteHeader(statusCode);
      }
      client.Write(body);
    }
  }

  /** A handler that sets at most one status and then writes its body piece by piece, behind the scanner. The
      server completes a response that has no header yet. */
  method OutputScanner(client: ResponseWriter, maxScan: int, sc: Scanner, status: Option<int>, chunks: seq<string>)
    requires client.sent == None && client.body == ""
    modifies client
    ensures client.View() == Served(maxScan, sc, old(client.headers), status, chunks)
  {
    var cw := new CapturingWriter(client, maxScan);
    if status.Some? {
      cw.WriteHeader(status.value);
    }
    var i := 0;
    while i < |chunks|
      invariant i <= |chunks| && cw.client == client && cw.maxScan == maxScan
      invariant cw.View() == Written(maxScan, Opened(old(client.headers), status), chunks[..i])
    {
      assert chunks[..i + 1][..i] == chunks[..i];
      cw.Write(chunks[i]);
      i := i + 1;
    }
    assert chunks[..i] == chunks;
    cw.Finish(sc);
    client.WriteHeader(200);
  }

  function Opened(h: Headers, status: Option<int>): World {
    if status.Some? then HeaderStep(Fresh(h), status.value) else Fresh(h)
  }

  function Written(maxScan: int, w: World, chunks: seq<string>): World {
    if chunks == [] then w
    else WriteStep(maxScan, Written(maxScan, w, chunks[..|chunks| - 1]), chunks[|chunks| - 1])
  }

  function Served(maxScan: int, sc: Scanner, h: Headers, status: Option<int>, chunks: seq<string>): Client {
    SendHead(FinishStep(sc, Written(maxScan, Opened(h, status), chunks)).client, 200)
  }

  // ---------- the response depends on the whole body only ----------

  predicate PassesThrough(maxScan: int, h: Headers, total: string, wrote: bool) {
    !IsScannable(ContentType(h)) || (wrote && |total| > maxScan)
  }

  /** Where the writer stands after a header and a body of any shape. */
  function After(maxScan: int, h: Headers, status: int, total: string, wrote: bool): World {
    var ct := ContentType(h);
    if PassesThrough(maxScan, h, total, wrote)
    then World(Capture(status, true, "", true, ct), Client(h, Some(Head(status, h)), total))
    else World(Capture(status, false, total, false, ct), Client(h, None, ""))
  }

  lemma WritePasses(maxScan: int, h: Headers, status: int, total: string, wrote: bool, b: string)
    requires status != 0 && PassesThrough(maxScan, h, total, wrote)
    ensures WriteStep(maxScan, After(maxScan, h, status, total, wrote), b) == After(maxScan, h, status, total + b, true)
  {
  }

  lemma WriteHolds(maxScan: int, h: Headers, status: int, total: string, wrote: bool, b: string)
    requires status != 0 && !PassesThrough(maxScan, h, total, wrote) && |total| + |b| <= maxScan
    ensures WriteStep(maxScan, After(maxScan, h, status, total, wrote), b) == After(maxScan, h, status, total + b, true)
  {
  }

  lemma WriteOverflows(maxScan: int, h: Headers, status: int, total: string, wrote: bool, b: string)
    requires status != 0 && !PassesThrough(maxScan, h, total, wrote) && |total| + |b| > maxScan
    ensures WriteStep(maxScan, After(maxScan, h, status, total, wrote), b) == After(maxScan, h, status, total + b, true)
  {
    assert "" + b == b && "" + total == total;
    assert total == "" ==> total + b == b;
  }

  lemma WriteExtends(maxScan: int, h: Headers, status: int, total: string, wrote: bool, b: string)
    requires status != 0
    ensures WriteStep(maxScan, After(maxScan, h, status, total, wrote), b) == After(maxScan, h, status, total + b, true)
  {
    if PassesThrough(maxScan, h, total, wrote) {
      WritePasses(maxScan, h, status, total, wrote, b);
    } else if |total| + |b| <= maxScan {
      WriteHolds(maxScan, h, status, total, wrote, b);
    } else {
      WriteOverflows(maxScan, h, status, total, wrote, b);
    }
  }

  lemma {:induction false} WrittenIsAfter(maxScan: int, h: Headers, status: int, chunks: seq<string>)
    requires status != 0
    ensures Written(maxScan, Opened(h, Some(status)), chunks)
            == After(maxScan, h, status, Flatten(chunks), chunks != [])
  {
    if chunks != [] {
      var n := |chunks| - 1;
      WrittenIsAfter(maxScan, h, status, chunks[..n]);
      assert n == 0 ==> chunks[..n] == [] && Flatten(chunks[..n]) == "";
      FlattenSnoc(chunks[..n], chunks[n]);
      assert chunks[..n] + [chunks[n]] == chunks;
      WriteExtends(maxScan, h, status, Flatten(chunks[..n]), n != 0, chunks[n]);
    }
  }

  /** Writing without a header first is writing after a 200. */
  lemma {:induction false} ImplicitStatus(maxScan: int, h: Headers, chunks: seq<string>)
    requires chunks != []
    ensures Written(maxScan, Opened(h, None), chunks) == Written(maxScan, Opened(h, Some(200)), chunks)
  {
    if |chunks| > 1 {
      ImplicitStatus(maxScan, h, chunks[..|chunks| - 1]);
    } else {
      assert chunks[..0] == [];
    }
  }

  /** What the client should get for a whole body. */
  function Response(maxScan: int, sc: Scanner, h: Headers, status: int, total: string): Client {
    if !IsScannable(ContentType(h)) || |total| > maxScan then Client(h, Some(Head(status, h)), total)
    else
      var scanned := ScannedHeaders(sc, h, total);
      Client(scanned, Some(Head(status, scanned)), Cleaned(sc, total))
  }

  lemma AfterFinishes(maxScan: int, sc: Scanner, h: Headers, status: int, total: string)
    requires total != ""
    ensures SendHead(FinishStep(sc, After(maxScan, h, status, total, true)).client, 200)
            == Response(maxScan, sc, h, status, total)
  {
    assert "" + Cleaned(sc, total) == Cleaned(sc, total);
  }

  /** For every way of cutting a non-empty body into writes the client gets one header with the handler's
      status and the same response: the body as it is, or its cleaned form when it was scanned. */
  lemma ResponseIsChunkProof(maxScan: int, sc: Scanner, h: Headers, status: Option<int>, chunks: seq<string>)
    requires Flatten(chunks) != "" && status != Some(0)
    ensures Served(maxScan, sc, h, status, chunks)
         == Response(maxScan, sc, h, if status.Some? then status.value else 200, Flatten(chunks))
  {
    var s := if status.Some? then status.value else 200;
    if status.None? {
      ImplicitStatus(maxScan, h, chunks);
    }
    WrittenIsAfter(maxScan, h, s, chunks);
    AfterFinishes(maxScan, sc, h, s, Flatten(chunks));
  }

  /** The text of the risk header. */
  predicate Announces(text: string, r: Risk) {
    match r
    case NoRisk => text == "none"
    case Low => text == "low"
    case Medium => text == "medium"
    case High => text == "high"
  }

  /** What a client gets of a text response within the limit, however it is written: sanitized when its risk is high,
      as it is at every lower risk, under the handler's status, with its risk and its length announced and every
      other header as the handler set it. */
  lemma ScannedResponse(maxScan: int, sc: Scanner, h: Headers, status: Option<int>, chunks: seq<string>)
    requires status != Some(0) && "Content-Type" in h && IsScannable(h["Content-Type"])
    requires Flatten(chunks) != "" && |Flatten(chunks)| <= maxScan
    ensures var got, total := Served(maxScan, sc, h, status, chunks), Flatten(chunks);
            && (sc.risk(total).High? ==> got.body == sc.sanitize(total))
            && (!sc.risk(total).High? ==> got.body == total)
            && got.sent.Some? && got.sent.value.status == (if status.Some? then status.value else 200)
            && var sent := got.sent.value.headers;
               && "X-SafePaw-Output-Risk" in sent && Announces(sent["X-SafePaw-Output-Risk"], sc.risk(total))
               && "Content-Length" in sent && sent["Content-Length"] == Decimal.Print(|got.body|)
               && forall k :: k != "X-SafePaw-Output-Risk" && k != "Content-Length" ==>
                    (k in sent <==> k in h) && (k in h ==> sent[k] == h[k])
  {
    ResponseIsChunkProof(maxScan, sc, h, status, chunks);
  }

  /** Any other response comes through as the handler wrote it. */
  lemma UnscannedResponse(maxScan: int, sc: Scanner, h: Headers, status: Option<int>, chunks: seq<string>)
    requires status != Some(0) && Flatten(chunks) != ""
    requires ("Content-Type" in h ==> !IsScannable(h["Content-Type"])) || |Flatten(chunks)| > maxScan
    ensures Served(maxScan, sc, h, status, chunks)
            == Client(h, Some(Head(if status.Some? then status.value else 200, h)), Flatten(chunks))
  {
    ResponseIsChunkProof(maxScan, sc, h, status, chunks);
  }

  /** The length announced for a scanned body is that of the body sent, cleaned or not. */
  lemma ContentLengthIsBody(maxScan: int, sc: Scanner, h: Headers, status: int, total: string)
    requires IsScannable(ContentType(h)) && |total| <= maxScan
    requires |Cleaned(sc, total)| <= Decimal.INT64_MAX
    ensures var got := Response(maxScan, sc, h, status, total);
            && got.sent.Some? && "Content-Length" in got.sent.value.headers
            && Decimal.ParseInt64(got.sent.value.headers["Content-Length"]) == Some(|got.body|)
  {
    Decimal.ParseOfPrint(|Cleaned(sc, total)|);
  }

  /** No more than the limit is ever held back. */
  lemma BufferIsBounded(maxScan: int, h: Headers, status: Option<int>, chunks: seq<string>)
    requires status != Some(0)
    ensures var held := Written(maxScan, Opened(h, status), chunks).capture.buf; held == "" || |held| <= maxScan
  {
    if status.None? && chunks != [] {
      ImplicitStatus(maxScan, h, chunks);
    }
    if status.Some? || chunks != [] {
      WrittenIsAfter(maxScan, h, if status.Some? then status.value else 200, chunks);
    }
  }

  /** An empty body is never scanned, and then nobody sends the handler's status. */
  lemma StatusArrivesIff(maxScan: int, sc: Scanner, h: Headers, status: int, chunks: seq<string>)
    requires status != 0
    ensures var got := Served(maxScan, sc, h, Some(status), chunks);
            && got.sent.Some?
            && (got.sent.value.status == status <==>
                status == 200 || Flatten(chunks) != "" || !IsScannable(ContentType(h)) || (chunks != [] && maxScan < 0))
  {
    WrittenIsAfter(maxScan, h, status, chunks);
    if Flatten(chunks) != "" {
      AfterFinishes(maxScan, sc, h, status, Flatten(chunks));
    }
  }
}
