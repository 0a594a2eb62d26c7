/** The per-endpoint limits as the configuration gives them: "prefix=limit;prefix=limit". */
module EndpointConfig {
  import opened Wrappers
  import opened Text
  import opened Decimal

  datatype EndpointLimit = EndpointLimit(prefix: string, limit: int)

  // ---------- the hand-written string helpers ----------

  predicate OccursAt(s: string, sub: string, i: nat) {
    i + |sub| <= |s| && s[i..i + |sub|] == sub
  }

  ghost predicate NoneBefore(s: string, sub: string, n: nat) {
    forall i: nat :: i < n ==> !OccursAt(s, sub, i)
  }

  ghost predicate Occurs(s: string, sub: string) {
    exists i: nat :: OccursAt(s, sub, i)
  }

  method IndexOf(s: string, sub: string) returns (r: int)
    ensures r < 0 <==> !Occurs(s, sub)
    ensures -1 <= r && (0 <= r ==> OccursAt(s, sub, r) && NoneBefore(s, sub, r))
  {
    var i := 0;
    while i <= |s| - |sub|
      invariant NoneBefore(s, sub, i)
    {
      if s[i..i + |sub|] == sub {
        assert OccursAt(s, sub, i);
        return i;
      }
      i := i + 1;
    }
    return -1;
  }

  ghost predicate FreeOf(parts: seq<string>, sep: string) {
    forall i :: 0 <= i < |parts| ==> !Occurs(parts[i], sep)
  }

  lemma FirstPartIsFree(s: string, sep: string, i: nat)
    requires sep != "" && OccursAt(s, sep, i) && NoneBefore(s, sep, i)
    ensures !Occurs(s[..i], sep)
  {
    forall k: nat
      ensures !OccursAt(s[..i], sep, k)
    {
      if OccursAt(s[..i], sep, k) {
        assert s[..i][k..k + |sep|] == s[k..k + |sep|];
        assert OccursAt(s, sep, k);
      }
    }
  }

  /** Splitting rejoins to the input, and no part contains the separator. */
  method SplitString(s: string, sep: string) returns (parts: seq<string>)
    requires sep != ""
    ensures parts != [] && Join(parts, sep) == s && FreeOf(parts, sep)
  {
    parts := [];
    var rest := s;
    while true
      invariant FreeOf(parts, sep)
      invariant Join(parts + [rest], sep) == s
      decreases |rest|
    {
      var i := IndexOf(rest, sep);
      if i < 0 {
        parts := parts + [rest];
        return;
      }
      FirstPartIsFree(rest, sep, i);
      SplitStep(parts, rest, sep, i);
      parts := parts + [rest[..i]];
      rest := rest[i + |sep|..];
    }
  }

  lemma SplitStep(parts: seq<string>, rest: string, sep: string, i: nat)
    requires OccursAt(rest, sep, i)
    ensures Join(parts + [rest[..i]] + [rest[i + |sep|..]], sep) == Join(parts + [rest], sep)
  {
    var first, last := rest[..i], rest[i + |sep|..];
    assert rest == first + sep + last;
    JoinSnoc(parts, rest, sep);
    JoinSnoc(parts, first, sep);
    JoinSnoc(parts + [first], last, sep);
    if parts != [] {
      Regroup(Join(parts, sep), sep, first, last);
    }
  }

  lemma Regroup(before: string, sep: string, first: string, last: string)
    ensures before + sep + (first + sep + last) == (before + sep + first) + sep + last
  {
  }

  lemma OccursChar(s: string, c: char)
    ensures Occurs(s, [c]) <==> c in s
  {
    if c in s {
      var i :| 0 <= i < |s| && s[i] == c;
      assert OccursAt(s, [c], i);
    }
    if Occurs(s, [c]) {
      var i: nat :| OccursAt(s, [c], i);
      assert s[i..i + 1][0] == c;
    }
  }

  /** For a one-character separator there is only one way to split. */
  lemma SplitIsUnique(s: string, c: char, parts: seq<string>)
    requires parts != [] && Join(parts, [c]) == s && FreeOf(parts, [c])
    ensures parts == Split(s, c)
  {
    forall p | p in parts
      ensures c !in p
    {
      OccursChar(p, c);
    }
    SplitOfJoin(parts, c);
  }

  lemma ThreeParts(s: string, i: nat, j: nat)
    requires i <= j <= |s|
    ensures s == s[..i] + s[i..j] + s[j..]
  {
  }

  method TrimSpace(s: string) returns (r: string)
    ensures r == Trim(s, Basic)
  {
    var start := 0;
    while start < |s| && (s[start] == ' ' || s[start] == '\t' || s[start] == '\n' || s[start] == '\r')
      invariant start <= |s| && AllSpace(s[..start], Basic)
    {
      start := start + 1;
    }
    var end := |s|;
    while end > start && (s[end - 1] == ' ' || s[end - 1] == '\t' || s[end - 1] == '\n' || s[end - 1] == '\r')
      invariant start <= end <= |s| && AllSpace(s[end..], Basic)
    {
      end := end - 1;
    }
    r := s[start..end];
    ThreeParts(s, start, end);
    TrimPadded(s[..start], r, s[end..], Basic);
  }

  function TrimmedParts(parts: seq<string>): seq<string> {
    if parts == [] then []
    else
      var t := Trim(parts[|parts| - 1], Basic);
      TrimmedParts(parts[..|parts| - 1]) + if t != "" then [t] else []
  }

  lemma TrimmedPartsNext(parts: seq<string>, i: nat)
    requires i < |parts|
    ensures TrimmedParts(parts[..i + 1])
         == TrimmedParts(parts[..i]) + if Trim(parts[i], Basic) != "" then [Trim(parts[i], Basic)] else []
  {
    assert parts[..i + 1][..i] == parts[..i];
  }

  method SplitAndTrim(s: string, sep: char) returns (result: seq<string>)
    ensures result == TrimmedParts(Split(s, sep))
  {
    var parts := SplitString(s, [sep]);
    SplitIsUnique(s, sep, parts);
    result := TrimAll(parts);
  }

  /** splitAndTrim's loop. */
  method TrimAll(parts: seq<string>) returns (result: seq<string>)
    ensures result == TrimmedParts(parts)
  {
    result := [];
    var i := 0;
    while i < |parts|
      invariant i <= |parts| && result == TrimmedParts(parts[..i])
    {
      var trimmed := TrimSpace(parts[i]);
      TrimmedPartsNext(parts, i);
      if trimmed != "" {
        result := result + [trimmed];
      }
      i := i + 1;
    }
    assert parts[..i] == parts;
  }

  // ---------- parsing the limits ----------

  /** One entry, None when it is empty or malformed. */
  function ParsePart(raw: string): Option<EndpointLimit> {
    var part := Trim(raw, Basic);
    var eq := IndexOfChar(part, '=');
    if eq < 1 then None
    else
      var prefix := Trim(part[..eq], Basic);
      var n := ParseInt64(Trim(part[eq + 1..], Basic));
      if n.None? || n.value < 1 || prefix == "" then None else Some(EndpointLimit(prefix, n.value))
  }

  function Appended(limits: seq<EndpointLimit>, e: Option<EndpointLimit>): seq<EndpointLimit> {
    if e.Some? then limits + [e.value] else limits
  }

  function ParseParts(parts: seq<string>): seq<EndpointLimit> {
    if parts == [] then [] else Appended(ParseParts(parts[..|parts| - 1]), ParsePart(parts[|parts| - 1]))
  }

  /** The entries in the order of the text. */
  function Parsed(raw: string): seq<EndpointLimit> {
    ParseParts(Split(raw, ';'))
  }

  lemma ParsePartsNext(parts: seq<string>, i: nat)
    requires i < |parts|
    ensures ParseParts(parts[..i + 1]) == Appended(ParseParts(parts[..i]), ParsePart(parts[i]))
  {
    assert parts[..i + 1][..i] == parts[..i];
  }

  lemma ParsedEmpty()
    ensures Parsed("") == []
  {
    assert Split("", ';') == [""];
    ParsePartsNext([""], 0);
    assert [""][..1] == [""];
  }

  method ParseLimits(raw: string) returns (limits: seq<EndpointLimit>)
    ensures limits == Parsed(raw)
  {
    if raw == "" {
      ParsedEmpty();
      return [];
    }
    var parts := SplitString(raw, ";");
    SplitIsUnique(raw, ';', parts);
    limits := ParseEntries(parts);
  }

  /** The loop over the entries. */
  method ParseEntries(parts: seq<string>) returns (limits: seq<EndpointLimit>)
    ensures limits == ParseParts(parts)
  {
    limits := [];
    var i := 0;
    while i < |parts|
      invariant i <= |parts| && limits == ParseParts(parts[..i])
    {
      ParsePartsNext(parts, i);
      var e := ParseEntry(parts[i]);
      if e.Some? {
        limits := limits + [e.value];
      }
      i := i + 1;
    }
    assert parts[..i] == parts;
  }

  method ParseEntry(raw: string) returns (e: Option<EndpointLimit>)
    ensures e == ParsePart(raw)
  {
    var part := TrimSpace(raw);
    if part == "" {
      return None;
    }
    var eq := IndexOf(part, "=");
    SameIndex(part, '=', eq);
    if eq < 1 {
      return None;
    }
    var prefix := TrimSpace(part[..eq]);
    var limitStr := TrimSpace(part[eq + 1..]);
    var n := ParseInt64(limitStr);
    if n.None? || n.value < 1 || prefix == "" {
      return None;
    }
    e := Some(EndpointLimit(prefix, n.value));
  }

  lemma SameIndex(s: string, c: char, r: int)
    requires r < 0 <==> !Occurs(s, [c])
    requires -1 <= r && (0 <= r ==> OccursAt(s, [c], r) && NoneBefore(s, [c], r))
    ensures r == IndexOfChar(s, c)
  {
    OccursChar(s, c);
    if 0 <= r {
      assert s[r..r + 1][0] == c;
      var first := IndexOfChar(s, c);
      assert s[first..first + 1] == [c];
      assert OccursAt(s, [c], first);
    }
  }

  // ---------- printing and parsing undo each other ----------

  predicate WellFormed(e: EndpointLimit) {
    && e.prefix != "" && Trimmed(e.prefix, Basic) && '=' !in e.prefix && ';' !in e.prefix
    && 1 <= e.limit <= INT64_MAX
  }

  ghost predicate AllWellFormed(limits: seq<EndpointLimit>) {
    forall i :: 0 <= i < |limits| ==> WellFormed(limits[i])
  }

  function RenderPart(e: EndpointLimit): string {
    e.prefix + "=" + Print(e.limit)
  }

  function RenderParts(limits: seq<EndpointLimit>): seq<string> {
    seq(|limits|, i requires 0 <= i < |limits| => RenderPart(limits[i]))
  }

  function Render(limits: seq<EndpointLimit>): string {
    Join(RenderParts(limits), ";")
  }

  lemma PrintIsPlain(n: int)
    requires 0 <= n
    ensures Trimmed(Print(n), Basic) && ';' !in Print(n) && '=' !in Print(n)
  {
  }

  lemma ParseOfRenderPart(e: EndpointLimit)
    requires WellFormed(e)
    ensures ParsePart(RenderPart(e)) == Some(e) && ';' !in RenderPart(e)
  {
    PrintIsPlain(e.limit);
    ParseOfPadded(e, "", "", "", "");
    NoPadding(e.prefix, Print(e.limit));
  }

  lemma NoPadding(prefix: string, number: string)
    ensures "" + (prefix + "" + "=" + ("" + number)) + "" == prefix + "=" + number
  {
  }

  /** Blanks around an entry, its prefix and its number do not matter. */
  lemma ParseOfPadded(e: EndpointLimit, a: string, b: string, c: string, d: string)
    requires WellFormed(e) && AllSpace(a, Basic) && AllSpace(b, Basic) && AllSpace(c, Basic) && AllSpace(d, Basic)
    ensures ParsePart(a + (e.prefix + b + "=" + (c + Print(e.limit))) + d) == Some(e)
  {
    var left, right := e.prefix + b, c + Print(e.limit);
    PrintIsPlain(e.limit);
    PaddedEnds(e.prefix, b, c, Print(e.limit));
    TrimPadded(a, left + "=" + right, d, Basic);
    CutAt(left, '=', right);
    TrimSides("", e.prefix, b, Basic);
    TrimSides(c, Print(e.limit), "", Basic);
    ParseOfPrint(e.limit);
  }

  lemma PaddedEnds(prefix: string, b: string, c: string, number: string)
    requires prefix != "" && number != "" && Trimmed(prefix, Basic) && Trimmed(number, Basic)
    ensures Trimmed(prefix + b + "=" + (c + number), Basic)
  {
    var part := prefix + b + "=" + (c + number);
    assert part[0] == prefix[0] && part[|part| - 1] == number[|number| - 1];
  }

  lemma ParsePartsSnoc(parts: seq<string>, part: string, e: EndpointLimit)
    requires ParsePart(part) == Some(e)
    ensures ParseParts(parts + [part]) == ParseParts(parts) + [e]
  {
    assert (parts + [part])[..|parts|] == parts;
  }

  lemma RenderPartsSnoc(limits: seq<EndpointLimit>, e: EndpointLimit)
    ensures RenderParts(limits + [e]) == RenderParts(limits) + [RenderPart(e)]
  {
  }

  lemma {:induction false} ParseOfRenderParts(limits: seq<EndpointLimit>)
    requires AllWellFormed(limits)
    ensures ParseParts(RenderParts(limits)) == limits
  {
    if limits != [] {
      var n := |limits| - 1;
      var init, last := limits[..n], limits[n];
      assert limits == init + [last];
      ParseOfRenderParts(init);
      ParseOfRenderPart(last);
      RenderPartsSnoc(init, last);
      ParsePartsSnoc(RenderParts(init), RenderPart(last), last);
    }
  }

  // ---------- exactly which entries are accepted ----------

  /** An entry in the text: blanks anywhere around the prefix, the equals sign and the number. */
  ghost predicate EntryText(raw: string, e: EndpointLimit, a: string, b: string, c: string, n: string, d: string) {
    && AllSpace(a, Basic) && AllSpace(b, Basic) && AllSpace(c, Basic) && AllSpace(d, Basic)
    && raw == a + (e.prefix + b + "=" + (c + n)) + d
    && e.prefix != "" && Trimmed(e.prefix, Basic) && '=' !in e.prefix
    && n != "" && Trimmed(n, Basic) && ParseInt64(n) == Some(e.limit) && 1 <= e.limit
  }

  ghost predicate IsEntry(raw: string, e: EndpointLimit) {
    exists a, b, c, n, d :: EntryText(raw, e, a, b, c, n, d)
  }

  lemma EntryTextParses(raw: string, e: EndpointLimit, a: string, b: string, c: string, n: string, d: string)
    requires EntryText(raw, e, a, b, c, n, d)
    ensures ParsePart(raw) == Some(e)
  {
    var left, right := e.prefix + b, c + n;
    PaddedEnds(e.prefix, b, c, n);
    TrimPadded(a, left + "=" + right, d, Basic);
    CutAt(left, '=', right);
    TrimSides("", e.prefix, b, Basic);
    TrimSides(c, n, "", Basic);
  }

  lemma LeftOf(left: string) returns (prefix: string, b: string)
    requires left != "" && !IsSpace(Basic, left[0])
    ensures prefix == Trim(left, Basic) && prefix != "" && AllSpace(b, Basic) && left == prefix + b
    ensures Trimmed(prefix, Basic)
  {
    var a;
    a, b := TrimPadding(left, Basic);
    prefix := Trim(left, Basic);
    assert left == prefix + b;
  }

  lemma RightOf(right: string) returns (c: string, n: string)
    requires right != "" && !IsSpace(Basic, right[|right| - 1])
    ensures n == Trim(right, Basic) && AllSpace(c, Basic) && right == c + n && Trimmed(n, Basic)
  {
    var d;
    c, d := TrimPadding(right, Basic);
    n := Trim(right, Basic);
    assert right == c + n;
  }

  lemma PartSplits(part: string, eq: nat) returns (prefix: string, b: string, c: string, n: string)
    requires 1 <= eq < |part| - 1 && part[eq] == '=' && '=' !in part[..eq] && Trimmed(part, Basic)
    ensures AllSpace(b, Basic) && AllSpace(c, Basic) && part == prefix + b + "=" + (c + n)
    ensures prefix == Trim(part[..eq], Basic) && n == Trim(part[eq + 1..], Basic)
    ensures prefix != "" && Trimmed(prefix, Basic) && '=' !in prefix && Trimmed(n, Basic)
  {
    var left, right := part[..eq], part[eq + 1..];
    prefix, b := LeftOf(left);
    c, n := RightOf(right);
    assert part == left + "=" + right;
    assert forall x :: x in prefix ==> x in left;
  }

  lemma ParsedIsEntry(raw: string)
    requires ParsePart(raw).Some?
    ensures IsEntry(raw, ParsePart(raw).value)
  {
    var e := ParsePart(raw).value;
    var part := Trim(raw, Basic);
    var a, d := TrimPadding(raw, Basic);
    var eq := IndexOfChar(part, '=');
    var right := part[eq + 1..];
    assert |right| == 0 ==> right == "";
    NoNumber();
    var prefix, b, c, n := PartSplits(part, eq);
    assert EntryText(raw, e, a, b, c, n, d);
  }

  lemma NoNumber()
    ensures ParseInt64(Trim("", Basic)) == None
  {
  }

  /** An entry is accepted if and only if it is a prefix, an equals sign and a positive number, with nothing but blanks
      around them, and then with that prefix and number. */
  lemma ParsePartIff(raw: string, e: EndpointLimit)
    ensures ParsePart(raw) == Some(e) <==> IsEntry(raw, e)
  {
    if ParsePart(raw) == Some(e) {
      ParsedIsEntry(raw);
    }
    if IsEntry(raw, e) {
      var a, b, c, n, d :| EntryText(raw, e, a, b, c, n, d);
      EntryTextParses(raw, e, a, b, c, n, d);
    }
  }

  lemma OneMorePart(parts: seq<string>, raw: string)
    ensures ParseParts(parts + [raw]) == Appended(ParseParts(parts), ParsePart(raw))
  {
    assert (parts + [raw])[..|parts|] == parts;
  }

  lemma AppendedConcat(a: seq<EndpointLimit>, b: seq<EndpointLimit>, e: Option<EndpointLimit>)
    ensures Appended(a + b, e) == a + Appended(b, e)
  {
  }

  lemma {:induction false} ParsePartsConcat(a: seq<string>, b: seq<string>)
    ensures ParseParts(a + b) == ParseParts(a) + ParseParts(b)
  {
    if b == [] {
      assert a + b == a;
    } else {
      var init, raw := b[..|b| - 1], b[|b| - 1];
      assert a + b == (a + init) + [raw] && b == init + [raw];
      ParsePartsConcat(a, init);
      OneMorePart(a + init, raw);
      OneMorePart(init, raw);
      AppendedConcat(ParseParts(a), ParseParts(init), ParsePart(raw));
    }
  }

  /** One more entry in the middle of the text adds its limit there if it is accepted; a malformed one changes nothing
      about the entries before and after it. */
  lemma EntryInContext(before: seq<string>, raw: string, after: seq<string>)
    ensures ParsePart(raw).None? ==> ParseParts(before + [raw] + after) == ParseParts(before) + ParseParts(after)
    ensures ParsePart(raw).Some? ==>
              ParseParts(before + [raw] + after) == ParseParts(before) + [ParsePart(raw).value] + ParseParts(after)
  {
    ParsePartsConcat(before + [raw], after);
    OneMorePart(before, raw);
  }

  /** Whatever the parser accepts is well formed. */
  lemma PartIsWellFormed(raw: string)
    requires ';' !in raw && ParsePart(raw).Some?
    ensures WellFormed(ParsePart(raw).value)
  {
    var part := Trim(raw, Basic);
    var eq := IndexOfChar(part, '=');
    var prefix := Trim(part[..eq], Basic);
    var a, b := TrimPadding(raw, Basic);
    var c, d := TrimPadding(part[..eq], Basic);
    forall x | x in prefix
      ensures x in part[..eq] && x in raw
    {
      assert x in c + prefix + d;
      assert x in a + part + b;
    }
  }

  lemma {:induction false} PartsAreWellFormed(parts: seq<string>)
    requires forall p :: p in parts ==> ';' !in p
    ensures AllWellFormed(ParseParts(parts))
  {
    if parts != [] {
      var n := |parts| - 1;
      PartsAreWellFormed(parts[..n]);
      assert parts[n] in parts;
      if ParsePart(parts[n]).Some? {
        PartIsWellFormed(parts[n]);
      }
    }
  }

  /** A list of limits survives being written down and parsed again exactly when its entries are well formed. */
  lemma RenderRoundTripIff(limits: seq<EndpointLimit>)
    ensures Parsed(Render(limits)) == limits <==> AllWellFormed(limits)
  {
    if AllWellFormed(limits) {
      ParseOfRenderParts(limits);
      if limits == [] {
        ParsedEmpty();
      } else {
        forall p | p in RenderParts(limits)
          ensures ';' !in p
        {
          var i :| 0 <= i < |limits| && p == RenderParts(limits)[i];
          ParseOfRenderPart(limits[i]);
        }
        SplitOfJoin(RenderParts(limits), ';');
      }
    }
    PartsAreWellFormed(Split(Render(limits), ';'));
  }
}
