/** The .env reader and writer of the wizard's configuration API. */
module EnvFile {
  import opened Wrappers
  import opened Text
  import opened EnvCodec

  type Env = map<string, string>

  // ---------- one line ----------

  /** The key of an assignment line; None for blank lines, comments and lines
      without a key, which both reader and writer step over. */
  function LineKey(line: string): Option<string> {
    var t := Trim(line, Unicode);
    if t == "" || t[0] == '#' || IndexOfChar(t, '=') <= 0 then None
    else Some(Trim(t[..IndexOfChar(t, '=')], Unicode))
  }

  function LineValue(line: string): string
    requires LineKey(line).Some?
  {
    var t := Trim(line, Unicode);
    Unquote(Trim(t[IndexOfChar(t, '=') + 1..], Unicode))
  }

  lemma KeyIsNotEmpty(line: string)
    requires LineKey(line).Some?
    ensures LineKey(line).value != ""
  {
    var t := Trim(line, Unicode);
    TrimIsTrimmed(line, Unicode);
    var k := t[..IndexOfChar(t, '=')];
    var a, b := TrimPadding(k, Unicode);
    assert k[0] == t[0];
    assert Trim(k, Unicode) == "" ==> AllSpace(a + b, Unicode) && k == a + b;
  }

  lemma LineIgnoresCR(line: string)
    ensures LineKey(DropCR(line)) == LineKey(line)
    ensures LineKey(line).Some? ==> LineValue(DropCR(line)) == LineValue(line)
  {
    if line != "" && line[|line| - 1] == '\r' {
      assert line == DropCR(line) + ['\r'];
      TrimDropsTrailing(DropCR(line), '\r', Unicode);
    }
  }

  /** Blank lines, comments, and lines with nothing before their equals sign define nothing; no others do. */
  lemma DefinesNothingIff(line: string)
    ensures LineKey(line).None? <==>
            var t := Trim(line, Unicode); t == "" || t[0] == '#' || '=' !in t || t[0] == '='
  {
  }

  predicate WellFormedKey(k: string) {
    k != "" && k[0] != '#' && Trimmed(k, Unicode) && '=' !in k && '\n' !in k
  }

  function Assignment(k: string, v: string): string {
    k + "=" + EscapeEnvValue(v)
  }

  lemma SplitsAtEquals(line: string, k: string, rest: string)
    requires WellFormedKey(k)
    requires Trim(line, Unicode) == k + "=" + rest
    ensures LineKey(line) == Some(k)
    ensures LineValue(line) == Unquote(Trim(rest, Unicode))
  {
    var t := Trim(line, Unicode);
    IndexAfterPrefix(k, '=', rest);
    assert t == k + ['='] + rest && t[..|k|] == k && t[|k| + 1..] == rest;
    TrimFixesTrimmed(k, Unicode);
  }

  /** Space around an assignment, its key and its value does not matter; one pair of quotes is taken off. */
  lemma PaddedAssignmentParses(a: string, k: string, b: string, c: string, v: string, d: string)
    requires WellFormedKey(k) && v != "" && Trimmed(v, Unicode)
    requires AllSpace(a, Unicode) && AllSpace(b, Unicode) && AllSpace(c, Unicode) && AllSpace(d, Unicode)
    ensures var line := a + (k + b + "=" + (c + v)) + d;
            LineKey(line) == Some(k) && LineValue(line) == Unquote(v)
  {
    var left, right := k + b, c + v;
    var t := left + "=" + right;
    PaddedEnds(k, b, c, v);
    TrimPadded(a, t, d, Unicode);
    CutAt(left, '=', right);
    TrimSides("", k, b, Unicode);
    TrimSides(c, v, "", Unicode);
  }

  /** A value in single or double quotes loses them, and its backslash-quote, backslash-n and backslash-r pairs are
      decoded; without a backslash it is read as it stands between the quotes. */
  lemma QuotedValueParses(a: string, k: string, b: string, c: string, quote: char, v: string, d: string)
    requires WellFormedKey(k) && (quote == '"' || quote == '\'')
    requires AllSpace(a, Unicode) && AllSpace(b, Unicode) && AllSpace(c, Unicode) && AllSpace(d, Unicode)
    ensures var line := a + (k + b + "=" + (c + ([quote] + v + [quote]))) + d;
            var quotes := ReplacePair(v, '\\', '"', '"');
            && LineKey(line) == Some(k)
            && LineValue(line) == ReplacePair(ReplacePair(quotes, '\\', 'n', '\n'), '\\', 'r', '\r')
            && ('\\' !in v ==> LineValue(line) == v)
  {
    var val := [quote] + v + [quote];
    assert val[1..|val| - 1] == v;
    PaddedAssignmentParses(a, k, b, c, val, d);
    if '\\' !in v {
      ReplacePairLength(v, '\\', '"', '"');
      ReplacePairLength(v, '\\', 'n', '\n');
      ReplacePairLength(v, '\\', 'r', '\r');
    }
  }

  /** Any other value is read as it stands, backslashes and single quotes inside it included. */
  lemma BareValueParses(a: string, k: string, b: string, c: string, v: string, d: string)
    requires WellFormedKey(k) && v != "" && Trimmed(v, Unicode)
    requires !(2 <= |v| && ((v[0] == '"' && v[|v| - 1] == '"') || (v[0] == '\'' && v[|v| - 1] == '\'')))
    requires AllSpace(a, Unicode) && AllSpace(b, Unicode) && AllSpace(c, Unicode) && AllSpace(d, Unicode)
    ensures var line := a + (k + b + "=" + (c + v)) + d;
            LineKey(line) == Some(k) && LineValue(line) == v
  {
    PaddedAssignmentParses(a, k, b, c, v, d);
  }

  lemma PaddedEnds(k: string, b: string, c: string, v: string)
    requires k != "" && v != "" && k[0] != '#' && Trimmed(k, Unicode) && Trimmed(v, Unicode)
    ensures var t := k + b + "=" + (c + v); t != "" && t[0] != '#' && Trimmed(t, Unicode)
  {
    var t := k + b + "=" + (c + v);
    assert t[0] == k[0] && t[|t| - 1] == v[|v| - 1];
  }

  lemma AssignmentTrims(k: string, e: string) returns (rest: string)
    requires WellFormedKey(k)
    ensures Trim(k + "=" + e, Unicode) == k + "=" + rest
    ensures Trim(rest, Unicode) == Trim(e, Unicode)
  {
    var m := Trim(e, Unicode);
    var a, b := TrimPadding(e, Unicode);
    if m == "" {
      rest := "";
      assert AllSpace(a + b, Unicode);
      assert k + "=" + e == "" + (k + "=") + (a + b);
      TrimPadded("", k + "=", a + b, Unicode);
    } else {
      rest := a + m;
      assert k + "=" + e == "" + (k + "=" + rest) + b;
      assert (k + "=" + rest)[|k| + |rest|] == m[|m| - 1];
      TrimPadded("", k + "=" + rest, b, Unicode);
      assert rest == a + m + "";
      TrimPadded(a, m, "", Unicode);
    }
  }

  /** A written line parses to its key and to the value the codec reads back. */
  lemma AssignmentParses(k: string, v: string)
    requires WellFormedKey(k)
    ensures LineKey(Assignment(k, v)) == Some(k)
    ensures LineValue(Assignment(k, v)) == ReadBack(v)
  {
    var rest := AssignmentTrims(k, EscapeEnvValue(v));
    SplitsAtEquals(Assignment(k, v), k, rest);
  }

  lemma AssignmentIsOneLine(k: string, v: string)
    requires WellFormedKey(k)
    ensures '\n' !in Assignment(k, v) && DropCR(Assignment(k, v)) == Assignment(k, v)
  {
    EscapeIsOneLine(v);
    var line := Assignment(k, v);
    var e := EscapeEnvValue(v);
    assert line[|line| - 1] == if e == "" then '=' else e[|e| - 1];
    assert e != "" ==> e[|e| - 1] in e;
  }

  // ---------- reading ----------

  function ParseLine(env: Env, line: string): Env {
    match LineKey(line)
    case None => env
    case Some(k) => env[k := LineValue(line)]
  }

  function ParseLines(lines: seq<string>): Env {
    if lines == [] then map[]
    else ParseLine(ParseLines(lines[..|lines| - 1]), lines[|lines| - 1])
  }

  function Read(data: string): Env {
    ParseLines(ScanLines(data))
  }

  lemma ParseLinesNext(lines: seq<string>, i: nat)
    requires i < |lines|
    ensures ParseLines(lines[..i + 1]) == ParseLine(ParseLines(lines[..i]), lines[i])
  {
    assert lines[..i + 1][..i] == lines[..i];
  }

  method ReadEnvFile(data: string) returns (out: Env)
    ensures out == Read(data)
  {
    var lines := ScanLines(data);
    out := map[];
    var i := 0;
    while i < |lines|
      invariant i <= |lines| && out == ParseLines(lines[..i])
    {
      ParseLinesNext(lines, i);
      out := ReadLine(out, lines[i]);
      i := i + 1;
    }
    assert lines[..i] == lines;
  }

  /** The reader's loop body. */
  method ReadLine(before: Env, text: string) returns (out: Env)
    ensures out == ParseLine(before, text)
  {
    var line := Trim(text, Unicode);
    if line == "" || line[0] == '#' {
      return before;
    }
    var idx := IndexOfChar(line, '=');
    if idx <= 0 {
      return before;
    }
    var key := Trim(line[..idx], Unicode);
    var val := Trim(line[idx + 1..], Unicode);
    KeyIsNotEmpty(text);
    out := before[key := Unquote(val)];
  }

  // ---------- writing ----------

  function RewriteLine(line: string, updates: Env): string {
    var k := LineKey(line);
    if k.Some? && k.value in updates then Assignment(k.value, updates[k.value]) else line
  }

  function Rewrite(lines: seq<string>, updates: Env): (r: seq<string>)
    ensures |r| == |lines|
    ensures forall i :: 0 <= i < |lines| ==> r[i] == RewriteLine(lines[i], updates)
  {
    seq(|lines|, i requires 0 <= i < |lines| => RewriteLine(lines[i], updates))
  }

  ghost predicate Assigns(lines: seq<string>, k: string) {
    exists i :: 0 <= i < |lines| && LineKey(lines[i]) == Some(k)
  }

  function Updated(lines: seq<string>, updates: Env): set<string> {
    if lines == [] then {}
    else
      var n := |lines| - 1;
      Updated(lines[..n], updates) + UpdatedKey(LineKey(lines[n]), updates)
  }

  function UpdatedKey(k: Option<string>, updates: Env): set<string> {
    if k.Some? && k.value in updates then {k.value} else {}
  }

  lemma UpdatedOneMore(lines: seq<string>, i: nat, updates: Env)
    requires i < |lines|
    ensures Updated(lines[..i + 1], updates) == Updated(lines[..i], updates) + UpdatedKey(LineKey(lines[i]), updates)
  {
    assert lines[..i + 1][..i] == lines[..i];
  }

  lemma {:induction false} UpdatedAreAssigned(lines: seq<string>, updates: Env, k: string)
    ensures k in Updated(lines, updates) <==> k in updates && Assigns(lines, k)
  {
    if lines != [] {
      var n := |lines| - 1;
      UpdatedAreAssigned(lines[..n], updates, k);
      assert forall i :: 0 <= i < n ==> lines[..n][i] == lines[i];
    }
  }

  predicate KeysOf(order: seq<string>, updates: Env) {
    forall i :: 0 <= i < |order| ==> order[i] in updates
  }

  /** The lines appended for keys no line assigned, in the order the map iteration
      happens to visit them. */
  function Appended(order: seq<string>, updates: Env, done: set<string>): seq<string>
    requires KeysOf(order, updates)
  {
    if order == [] then []
    else
      var n := |order| - 1;
      var rest := Appended(order[..n], updates, done);
      if order[n] in done then rest else rest + [Assignment(order[n], updates[order[n]])]
  }

  /** `order` lists every key of `updates` once: one possible map iteration. */
  ghost predicate Enumerates(order: seq<string>, updates: Env) {
    KeysOf(order, updates) && (forall k :: k in updates ==> k in order) &&
    (forall i, j :: 0 <= i < j < |order| ==> order[i] != order[j])
  }

  function OutputLines(lines: seq<string>, updates: Env, order: seq<string>): seq<string>
    requires KeysOf(order, updates)
  {
    Rewrite(lines, updates) + Appended(order, updates, Updated(lines, updates))
  }

  function Write(data: string, updates: Env, order: seq<string>): string
    requires KeysOf(order, updates)
  {
    Unlines(OutputLines(ScanLines(data), updates, order))
  }

  lemma RewriteOneMore(lines: seq<string>, i: nat, updates: Env)
    requires i < |lines|
    ensures Unlines(Rewrite(lines[..i + 1], updates))
         == Unlines(Rewrite(lines[..i], updates)) + RewriteLine(lines[i], updates) + "\n"
  {
    assert Rewrite(lines[..i + 1], updates) == Rewrite(lines[..i], updates) + [RewriteLine(lines[i], updates)];
    UnlinesSnoc(Rewrite(lines[..i], updates), RewriteLine(lines[i], updates));
  }

  lemma AppendOneMore(kept: seq<string>, order: seq<string>, i: nat, updates: Env, done: set<string>)
    requires i < |order| && KeysOf(order, updates)
    ensures Unlines(kept + Appended(order[..i + 1], updates, done))
         == Unlines(kept + Appended(order[..i], updates, done))
            + if order[i] in done then "" else Assignment(order[i], updates[order[i]]) + "\n"
  {
    assert order[..i + 1][..i] == order[..i];
    var before := kept + Appended(order[..i], updates, done);
    if order[i] !in done {
      var line := Assignment(order[i], updates[order[i]]);
      assert kept + Appended(order[..i + 1], updates, done) == before + [line];
      UnlinesSnoc(before, line);
      assert Unlines(before) + line + "\n" == Unlines(before) + (line + "\n");
    }
  }

  /** One pass of the writer's scanner loop: the text written for a line, and the
      updated key it assigns, if any. */
  method WriteLine(line: string, updates: Env) returns (text: string, updated: set<string>)
    ensures text == RewriteLine(line, updates)
    ensures updated == UpdatedKey(LineKey(line), updates)
  {
    var trimmed := Trim(line, Unicode);
    if trimmed == "" || trimmed[0] == '#' {
      return line, {};
    }
    var idx := IndexOfChar(trimmed, '=');
    if idx <= 0 {
      return line, {};
    }
    var key := Trim(trimmed[..idx], Unicode);
    if key in updates {
      text, updated := key + "=" + EscapeEnvValue(updates[key]), {key};
    } else {
      text, updated := line, {};
    }
  }

  method WriteEnvFile(data: string, updates: Env, order: seq<string>) returns (out: string)
    requires Enumerates(order, updates)
    ensures out == Write(data, updates, order)
  {
    var lines := ScanLines(data);
    var updated: set<string> := {};
    out := "";
    var i := 0;
    while i < |lines|
      invariant i <= |lines|
      invariant out == Unlines(Rewrite(lines[..i], updates))
      invariant updated == Updated(lines[..i], updates)
    {
      var line := lines[i];
      var text, key := WriteLine(line, updates);
      updated := updated + key;
      UpdatedOneMore(lines, i, updates);
      RewriteOneMore(lines, i, updates);
      out := out + text + "\n";
      i := i + 1;
    }
    assert lines[..i] == lines;
    ghost var kept := Rewrite(lines, updates);
    i := 0;
    assert kept + Appended(order[..0], updates, updated) == kept;
    while i < |order|
      invariant i <= |order|
      invariant out == Unlines(kept + Appended(order[..i], updates, updated))
    {
      var k := order[i];
      AppendOneMore(kept, order, i, updates, updated);
      if k !in updated {
        out := out + (k + "=" + EscapeEnvValue(updates[k]) + "\n");
      }
      i := i + 1;
    }
    assert order[..i] == order;
  }

  // ---------- reading back what was written ----------

  ghost predicate WellFormedKeys(updates: Env) {
    forall k :: k in updates ==> WellFormedKey(k)
  }

  function ReadBacks(updates: Env): Env {
    map k | k in updates :: ReadBack(updates[k])
  }

  /** The old settings overridden by the updates, each as the codec returns it. */
  function Overridden(env: Env, updates: Env): Env {
    env + ReadBacks(updates)
  }

  lemma {:induction false} ParseLinesConcat(a: seq<string>, b: seq<string>)
    ensures ParseLines(a + b) == ParseLines(a) + ParseLines(b)
  {
    if b == [] {
      assert a + b == a;
    } else {
      var n := |b| - 1;
      assert (a + b)[..|a + b| - 1] == a + b[..n];
      ParseLinesConcat(a, b[..n]);
    }
  }

  lemma {:induction false} ParseLinesIgnoresCR(lines: seq<string>)
    ensures ParseLines(DropCRs(lines)) == ParseLines(lines)
  {
    if lines != [] {
      var n := |lines| - 1;
      assert DropCRs(lines)[..n] == DropCRs(lines[..n]);
      ParseLinesIgnoresCR(lines[..n]);
      LineIgnoresCR(lines[n]);
    }
  }

  lemma {:induction false} ParseLinesKeys(lines: seq<string>, k: string)
    ensures k in ParseLines(lines) <==> Assigns(lines, k)
  {
    if lines != [] {
      var n := |lines| - 1;
      ParseLinesKeys(lines[..n], k);
      assert forall i :: 0 <= i < n ==> lines[..n][i] == lines[i];
    }
  }

  /** Rewriting every assignment of an updated key, duplicates included, changes
      the parsed value of that key and of no other. */
  lemma {:induction false} RewriteParses(lines: seq<string>, updates: Env, k: string)
    requires WellFormedKeys(updates)
    ensures k in ParseLines(Rewrite(lines, updates)) <==> k in ParseLines(lines)
    ensures k in ParseLines(lines) ==>
              ParseLines(Rewrite(lines, updates))[k] == if k in updates then ReadBack(updates[k])
                else ParseLines(lines)[k]
  {
    if lines != [] {
      var n := |lines| - 1;
      var line := lines[n];
      assert Rewrite(lines, updates)[..n] == Rewrite(lines[..n], updates);
      RewriteParses(lines[..n], updates, k);
      var key := LineKey(line);
      if key.Some? && key.value in updates {
        AssignmentParses(key.value, updates[key.value]);
      }
    }
  }

  lemma {:induction false} AppendedParses(order: seq<string>, updates: Env, done: set<string>, k: string)
    requires WellFormedKeys(updates)
    requires KeysOf(order, updates)
    ensures k in ParseLines(Appended(order, updates, done)) <==> k in order && k !in done
    ensures k in order && k !in done ==> ParseLines(Appended(order, updates, done))[k] == ReadBack(updates[k])
  {
    if order != [] {
      var n := |order| - 1;
      assert order == order[..n] + [order[n]];
      AppendedParses(order[..n], updates, done, k);
      if order[n] !in done {
        AssignmentParses(order[n], updates[order[n]]);
        var rest := Appended(order[..n], updates, done);
        assert (rest + [Assignment(order[n], updates[order[n]])])[..|rest|] == rest;
      }
    }
  }

  /** A line that a further write with the same updates reproduces byte for byte. */
  predicate Settled(line: string, updates: Env) {
    '\n' !in line && DropCR(line) == line && RewriteLine(line, updates) == line
  }

  lemma AssignmentIsSettled(k: string, updates: Env)
    requires WellFormedKey(k) && k in updates
    ensures Settled(Assignment(k, updates[k]), updates)
  {
    AssignmentIsOneLine(k, updates[k]);
    AssignmentParses(k, updates[k]);
  }

  predicate AllSettled(lines: seq<string>, updates: Env) {
    forall l :: l in lines ==> Settled(l, updates)
  }

  lemma {:induction false} AppendedAreSettled(order: seq<string>, updates: Env, done: set<string>)
    requires WellFormedKeys(updates) && KeysOf(order, updates)
    ensures AllSettled(Appended(order, updates, done), updates)
  {
    if order != [] {
      var n := |order| - 1;
      AppendedAreSettled(order[..n], updates, done);
      AssignmentIsSettled(order[n], updates);
    }
  }

  lemma OutputHasNoBreaks(lines: seq<string>, updates: Env, order: seq<string>)
    requires WellFormedKeys(updates) && KeysOf(order, updates)
    requires forall l :: l in lines ==> '\n' !in l
    ensures forall l :: l in OutputLines(lines, updates, order) ==> '\n' !in l
  {
    var rew := Rewrite(lines, updates);
    AppendedAreSettled(order, updates, Updated(lines, updates));
    forall l | l in rew
      ensures '\n' !in l
    {
      var i :| 0 <= i < |lines| && rew[i] == l;
      assert lines[i] in lines;
      var k := LineKey(lines[i]);
      if k.Some? && k.value in updates {
        AssignmentIsOneLine(k.value, updates[k.value]);
      }
    }
  }

  lemma OutputParses(lines: seq<string>, updates: Env, order: seq<string>, k: string)
    requires WellFormedKeys(updates) && Enumerates(order, updates)
    ensures var got, want := ParseLines(OutputLines(lines, updates, order)), Overridden(ParseLines(lines), updates);
            (k in got <==> k in want) && (k in got ==> got[k] == want[k])
  {
    var done := Updated(lines, updates);
    ParseLinesConcat(Rewrite(lines, updates), Appended(order, updates, done));
    UpdatedAreAssigned(lines, updates, k);
    ParseLinesKeys(lines, k);
    RewriteParses(lines, updates, k);
    AppendedParses(order, updates, done, k);
  }

  /** Read after write: for every file, every set of updates with well-formed keys and
      every iteration order, the reader then finds the old map overridden. */
  lemma ReadAfterWrite(data: string, updates: Env, order: seq<string>)
    requires WellFormedKeys(updates) && Enumerates(order, updates)
    ensures Read(Write(data, updates, order)) == Overridden(Read(data), updates)
  {
    var lines := ScanLines(data);
    var out := OutputLines(lines, updates, order);
    OutputHasNoBreaks(lines, updates, order);
    ScanOfUnlines(out);
    ParseLinesIgnoresCR(out);
    var got, want := ParseLines(out), Overridden(ParseLines(lines), updates);
    forall k
      ensures k in got <==> k in want
      ensures k in got ==> got[k] == want[k]
    {
      OutputParses(lines, updates, order, k);
    }
    assert got == want;
  }

  lemma OverrideDetermines(env: Env, a: Env, b: Env)
    requires a.Keys == b.Keys
    requires env + a == env + b
    ensures a == b
  {
    forall k | k in a
      ensures a[k] == b[k]
    {
      assert (env + a)[k] == a[k] && (env + b)[k] == b[k];
    }
  }

  lemma ReadBacksIff(updates: Env)
    ensures ReadBacks(updates) == updates <==> forall k :: k in updates ==> Survives(updates[k])
  {
    forall k | k in updates
      ensures ReadBacks(updates)[k] == updates[k] <==> Survives(updates[k])
    {
      RoundTripIff(updates[k]);
    }
  }

  /** The file then says exactly what was asked for, if and only if every value survives the codec. */
  lemma ReadAfterWriteExact(data: string, updates: Env, order: seq<string>)
    requires WellFormedKeys(updates) && Enumerates(order, updates)
    ensures Read(Write(data, updates, order)) == Read(data) + updates
       <==> forall k :: k in updates ==> Survives(updates[k])
  {
    ReadAfterWrite(data, updates, order);
    ReadBacksIff(updates);
    if Overridden(Read(data), updates) == Read(data) + updates {
      OverrideDetermines(Read(data), ReadBacks(updates), updates);
    }
  }

  // ---------- what a write leaves alone ----------

  predicate Touched(line: string, updates: Env) {
    var k := LineKey(line);
    k.Some? && k.value in updates
  }

  /** Comments, blank lines and assignments of other keys keep their text and place;
      only a carriage return before the line feed is lost, as the scanner drops it. */
  lemma UntouchedLinesStay(data: string, updates: Env, order: seq<string>)
    requires WellFormedKeys(updates) && Enumerates(order, updates)
    ensures var before, after := ScanLines(data), ScanLines(Write(data, updates, order));
            |before| <= |after| &&
            forall i :: 0 <= i < |before| && !Touched(before[i], updates) ==> after[i] == DropCR(before[i])
  {
    var lines := ScanLines(data);
    OutputHasNoBreaks(lines, updates, order);
    ScanOfUnlines(OutputLines(lines, updates, order));
  }

  lemma RewriteTwice(line: string, updates: Env)
    requires WellFormedKeys(updates)
    ensures RewriteLine(DropCR(RewriteLine(line, updates)), updates)
         == if Touched(line, updates) then RewriteLine(line, updates) else DropCR(line)
  {
    var k := LineKey(line);
    LineIgnoresCR(line);
    if Touched(line, updates) {
      AssignmentIsOneLine(k.value, updates[k.value]);
      AssignmentParses(k.value, updates[k.value]);
    }
  }

  lemma {:induction false} NothingToAppend(order: seq<string>, updates: Env, done: set<string>)
    requires KeysOf(order, updates) && forall i :: 0 <= i < |order| ==> order[i] in done
    ensures Appended(order, updates, done) == []
  {
    if order != [] {
      NothingToAppend(order[..|order| - 1], updates, done);
    }
  }

  /** After a write every updated key is assigned on some line. */
  lemma EveryUpdateIsAssigned(lines: seq<string>, updates: Env, order: seq<string>, k: string)
    requires WellFormedKeys(updates) && Enumerates(order, updates) && k in updates
    ensures Assigns(DropCRs(OutputLines(lines, updates, order)), k)
  {
    var done := Updated(lines, updates);
    var rew, app := Rewrite(lines, updates), Appended(order, updates, done);
    UpdatedAreAssigned(lines, updates, k);
    ParseLinesKeys(lines, k);
    RewriteParses(lines, updates, k);
    AppendedParses(order, updates, done, k);
    ParseLinesConcat(rew, app);
    ParseLinesIgnoresCR(rew + app);
    ParseLinesKeys(DropCRs(rew + app), k);
  }

  lemma SecondWriteLines(data: string, updates: Env, order: seq<string>, order': seq<string>)
    requires WellFormedKeys(updates) && Enumerates(order, updates) && Enumerates(order', updates)
    ensures var first := Write(data, updates, order);
            Write(first, updates, order')
              == Unlines(Rewrite(DropCRs(OutputLines(ScanLines(data), updates, order)), updates))
  {
    var lines := ScanLines(data);
    var out := OutputLines(lines, updates, order);
    OutputHasNoBreaks(lines, updates, order);
    ScanOfUnlines(out);
    forall k | k in updates
      ensures k in Updated(DropCRs(out), updates)
    {
      EveryUpdateIsAssigned(lines, updates, order, k);
      UpdatedAreAssigned(DropCRs(out), updates, k);
    }
    NothingToAppend(order', updates, Updated(DropCRs(out), updates));
    assert Rewrite(DropCRs(out), updates) + [] == Rewrite(DropCRs(out), updates);
  }

  lemma {:induction false} UnlinesInjective(a: seq<string>, b: seq<string>)
    requires forall l :: l in a ==> '\n' !in l
    requires forall l :: l in b ==> '\n' !in l
    requires Unlines(a) == Unlines(b)
    ensures a == b
  {
    if a != [] && b != [] {
      var s := Unlines(a);
      IndexAfterPrefix(a[0], '\n', Unlines(a[1..]));
      IndexAfterPrefix(b[0], '\n', Unlines(b[1..]));
      assert s == a[0] + ['\n'] + Unlines(a[1..]) && s == b[0] + ['\n'] + Unlines(b[1..]);
      assert |a[0]| == |b[0]|;
      assert s[..|a[0]|] == a[0] && s[..|a[0]|] == b[0];
      assert s[|a[0]| + 1..] == Unlines(a[1..]) && s[|a[0]| + 1..] == Unlines(b[1..]);
      UnlinesInjective(a[1..], b[1..]);
      assert a == [a[0]] + a[1..] && b == [b[0]] + b[1..];
    }
  }

  ghost predicate NoUntouchedCR(lines: seq<string>, updates: Env) {
    forall i :: 0 <= i < |lines| && !Touched(lines[i], updates) ==> DropCR(lines[i]) == lines[i]
  }

  lemma SecondRewrite(lines: seq<string>, updates: Env, order: seq<string>)
    requires WellFormedKeys(updates) && Enumerates(order, updates)
    ensures var out := OutputLines(lines, updates, order);
            Rewrite(DropCRs(out), updates) == out <==> NoUntouchedCR(lines, updates)
  {
    var done := Updated(lines, updates);
    var out := OutputLines(lines, updates, order);
    var again := Rewrite(DropCRs(out), updates);
    AppendedAreSettled(order, updates, done);
    forall i | 0 <= i < |out|
      ensures i < |lines| ==> (again[i] == out[i] <==> Touched(lines[i], updates) || DropCR(lines[i]) == lines[i])
      ensures |lines| <= i ==> again[i] == out[i]
    {
      if i < |lines| {
        RewriteTwice(lines[i], updates);
      } else {
        assert out[i] in Appended(order, updates, done);
      }
    }
  }

  /** Repeating a write changes nothing, exactly when no line the updates leave alone
      still ends in a carriage return after the scanner has dropped one. */
  lemma SecondWriteIff(data: string, updates: Env, order: seq<string>, order': seq<string>)
    requires WellFormedKeys(updates) && Enumerates(order, updates) && Enumerates(order', updates)
    ensures var first := Write(data, updates, order);
            Write(first, updates, order') == first <==> NoUntouchedCR(ScanLines(data), updates)
  {
    var lines := ScanLines(data);
    var out := OutputLines(lines, updates, order);
    var again := Rewrite(DropCRs(out), updates);
    SecondWriteLines(data, updates, order, order');
    SecondRewrite(lines, updates, order);
    if Unlines(again) == Unlines(out) {
      OutputHasNoBreaks(lines, updates, order);
      ScanOfUnlines(out);
      OutputHasNoBreaks(DropCRs(out), updates, order);
      assert forall l :: l in again ==> l in OutputLines(DropCRs(out), updates, order);
      UnlinesInjective(again, out);
    }
  }
}
