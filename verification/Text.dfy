/** The string operations the source takes from Go's strings and bufio packages,
    together with the laws its parsers and printers rely on. */
module Text {

  function IndexOfChar(s: string, c: char): (r: int)
    ensures -1 <= r < |s|
    ensures r < 0 <==> c !in s
    ensures 0 <= r ==> s[r] == c && c !in s[..r]
  {
    if s == "" then -1
    else if s[0] == c then 0
    else
      var r := IndexOfChar(s[1..], c);
      if r < 0 then -1 else r + 1
  }

  lemma {:induction false} IndexAfterPrefix(a: string, c: char, b: string)
    requires c !in a
    ensures IndexOfChar(a + [c] + b, c) == |a|
  {
    if a == "" {
      assert a + [c] + b == [c] + b;
    } else {
      IndexAfterPrefix(a[1..], c, b);
      assert (a + [c] + b)[1..] == a[1..] + [c] + b;
      assert a[0] in a;
    }
  }

  /** Cutting at the first separator takes apart what was put together around it. */
  lemma CutAt(a: string, c: char, b: string)
    requires c !in a
    ensures var m := a + [c] + b;
            var i := IndexOfChar(m, c);
            i == |a| && m[..i] == a && m[i + 1..] == b
  {
    IndexAfterPrefix(a, c, b);
  }

  // ---------- trimming ----------

  /** The two notions of white space in the source: the four bytes the gateway's
      own trimSpace knows, and Unicode's White_Space used by strings.TrimSpace. */
  datatype Spaces = Basic | Unicode

  predicate IsSpace(cs: Spaces, c: char) {
    c == ' ' || c == '\t' || c == '\n' || c == '\r' || (cs.Unicode? && IsOtherSpace(c as int))
  }

  predicate IsOtherSpace(c: int) {
    c == 0x0B || c == 0x0C || c == 0x85 || c == 0xA0 || c == 0x1680 || 0x2000 <= c <= 0x200A ||
    c == 0x2028 || c == 0x2029 || c == 0x202F || c == 0x205F || c == 0x3000
  }

  predicate AllSpace(s: string, cs: Spaces) {
    forall i :: 0 <= i < |s| ==> IsSpace(cs, s[i])
  }

  function TrimLeft(s: string, cs: Spaces): string {
    if s != "" && IsSpace(cs, s[0]) then TrimLeft(s[1..], cs) else s
  }

  function TrimRight(s: string, cs: Spaces): string {
    if s != "" && IsSpace(cs, s[|s| - 1]) then TrimRight(s[..|s| - 1], cs) else s
  }

  function Trim(s: string, cs: Spaces): string {
    TrimRight(TrimLeft(s, cs), cs)
  }

  predicate Trimmed(s: string, cs: Spaces) {
    s == "" || (!IsSpace(cs, s[0]) && !IsSpace(cs, s[|s| - 1]))
  }

  lemma {:induction false} TrimLeftPadded(a: string, s: string, cs: Spaces)
    requires AllSpace(a, cs)
    requires s == "" || !IsSpace(cs, s[0])
    ensures TrimLeft(a + s, cs) == s
  {
    if a == "" {
      assert a + s == s;
    } else {
      TrimLeftPadded(a[1..], s, cs);
      assert (a + s)[1..] == a[1..] + s;
    }
  }

  lemma {:induction false} TrimRightPadded(s: string, b: string, cs: Spaces)
    requires AllSpace(b, cs)
    requires s == "" || !IsSpace(cs, s[|s| - 1])
    ensures TrimRight(s + b, cs) == s
  {
    if b == "" {
      assert s + b == s;
    } else {
      var last := |b| - 1;
      TrimRightPadded(s, b[..last], cs);
      assert (s + b)[..|s + b| - 1] == s + b[..last];
    }
  }

  /** Trimming strips exactly the outer spaces: whatever is padded with spaces on
      either side comes back, and nothing else is removed. */
  lemma TrimPadded(a: string, s: string, b: string, cs: Spaces)
    requires AllSpace(a, cs) && AllSpace(b, cs)
    requires Trimmed(s, cs)
    ensures Trim(a + s + b, cs) == s
  {
    if s == "" {
      assert AllSpace(a + s + b, cs);
      assert a + s + b == (a + b) + "";
      TrimLeftPadded(a + b, "", cs);
    } else {
      assert a + s + b == a + (s + b);
      TrimLeftPadded(a, s + b, cs);
      TrimRightPadded(s, b, cs);
    }
  }

  lemma TrimSides(a: string, s: string, b: string, cs: Spaces)
    requires AllSpace(a, cs) && AllSpace(b, cs) && Trimmed(s, cs)
    ensures Trim(a + s, cs) == s && Trim(s + b, cs) == s
  {
    TrimPadded(a, s, "", cs);
    TrimPadded("", s, b, cs);
    assert a + s + "" == a + s && "" + s + b == s + b;
  }

  lemma {:induction false} TrimLeftPadding(s: string, cs: Spaces) returns (a: string)
    ensures AllSpace(a, cs) && s == a + TrimLeft(s, cs)
    ensures TrimLeft(s, cs) != "" ==> !IsSpace(cs, TrimLeft(s, cs)[0])
  {
    a := "";
    if s != "" && IsSpace(cs, s[0]) {
      var rest := TrimLeftPadding(s[1..], cs);
      a := [s[0]] + rest;
    }
  }

  lemma {:induction false} TrimRightPadding(s: string, cs: Spaces) returns (b: string)
    ensures AllSpace(b, cs) && s == TrimRight(s, cs) + b
    ensures TrimRight(s, cs) != "" ==> !IsSpace(cs, TrimRight(s, cs)[|TrimRight(s, cs)| - 1])
  {
    b := "";
    if s != "" && IsSpace(cs, s[|s| - 1]) {
      var rest := TrimRightPadding(s[..|s| - 1], cs);
      b := rest + [s[|s| - 1]];
      assert s == s[..|s| - 1] + [s[|s| - 1]];
    }
  }

  /** The padding that trimming took away. */
  lemma TrimPadding(s: string, cs: Spaces) returns (a: string, b: string)
    ensures AllSpace(a, cs) && AllSpace(b, cs)
    ensures s == a + Trim(s, cs) + b
    ensures Trimmed(Trim(s, cs), cs)
  {
    a := TrimLeftPadding(s, cs);
    b := TrimRightPadding(TrimLeft(s, cs), cs);
    var l, r := TrimLeft(s, cs), Trim(s, cs);
    assert r != "" ==> r[0] == l[0];
    assert a + r + b == a + l;
  }

  lemma TrimIsTrimmed(s: string, cs: Spaces)
    ensures Trimmed(Trim(s, cs), cs)
  {
    var a, b := TrimPadding(s, cs);
  }

  lemma TrimFixesTrimmed(s: string, cs: Spaces)
    ensures Trimmed(s, cs) ==> Trim(s, cs) == s
    ensures !Trimmed(s, cs) ==> Trim(s, cs) != s
  {
    if Trimmed(s, cs) {
      assert TrimLeft(s, cs) == s;
    } else {
      TrimIsTrimmed(s, cs);
    }
  }

  /** A trailing space never matters to a trimming reader. */
  lemma TrimDropsTrailing(s: string, c: char, cs: Spaces)
    requires IsSpace(cs, c)
    ensures Trim(s + [c], cs) == Trim(s, cs)
  {
    var a, b := TrimPadding(s, cs);
    TrimIsTrimmed(s, cs);
    var t := Trim(s, cs);
    assert s + [c] == a + t + (b + [c]);
    assert AllSpace(b + [c], cs);
    TrimPadded(a, t, b + [c], cs);
  }

  // ---------- splitting at a separator character ----------

  function Join(parts: seq<string>, sep: string): string {
    if parts == [] then ""
    else if |parts| == 1 then parts[0]
    else parts[0] + sep + Join(parts[1..], sep)
  }

  function Split(s: string, sep: char): (parts: seq<string>)
    ensures 0 < |parts|
    ensures Join(parts, [sep]) == s
    ensures forall p :: p in parts ==> sep !in p
    decreases |s|
  {
    var i := IndexOfChar(s, sep);
    if i < 0 then [s]
    else
      var rest := Split(s[i + 1..], sep);
      assert s == s[..i] + [sep] + s[i + 1..];
      assert ([s[..i]] + rest)[1..] == rest;
      [s[..i]] + rest
  }

  lemma {:induction false} JoinSnoc(parts: seq<string>, last: string, sep: string)
    ensures Join(parts + [last], sep) == if parts == [] then last else Join(parts, sep) + sep + last
  {
    if parts != [] {
      assert (parts + [last])[1..] == parts[1..] + [last];
      JoinSnoc(parts[1..], last, sep);
    }
  }

  lemma SplitAtFirst(first: string, sep: char, rest: string)
    requires sep !in first
    ensures Split(first + [sep] + rest, sep) == [first] + Split(rest, sep)
  {
    var s := first + [sep] + rest;
    IndexAfterPrefix(first, sep, rest);
    assert s[..|first|] == first && s[|first| + 1..] == rest;
  }

  /** Splitting is the only inverse of joining separator-free parts. */
  lemma {:induction false} SplitOfJoin(parts: seq<string>, sep: char)
    requires 0 < |parts|
    requires forall p :: p in parts ==> sep !in p
    ensures Split(Join(parts, [sep]), sep) == parts
  {
    if |parts| == 1 {
      assert Split(parts[0], sep) == [parts[0]];
    } else {
      SplitOfJoin(parts[1..], sep);
      SplitAtFirst(parts[0], sep, Join(parts[1..], [sep]));
      assert [parts[0]] + parts[1..] == parts;
    }
  }

  // ---------- lines ----------

  function DropCR(line: string): string {
    if line != "" && line[|line| - 1] == '\r' then line[..|line| - 1] else line
  }

  /** What a bufio.Scanner with the default ScanLines split yields, line by line. */
  function ScanLines(data: string): (lines: seq<string>)
    ensures forall l :: l in lines ==> '\n' !in l
    decreases |data|
  {
    if data == "" then []
    else
      var i := IndexOfChar(data, '\n');
      if i < 0 then [DropCR(data)]
      else [DropCR(data[..i])] + ScanLines(data[i + 1..])
  }

  function Unlines(lines: seq<string>): string {
    if lines == [] then "" else lines[0] + "\n" + Unlines(lines[1..])
  }

  function DropCRs(lines: seq<string>): (r: seq<string>)
    ensures |r| == |lines|
    ensures forall i :: 0 <= i < |lines| ==> r[i] == DropCR(lines[i])
  {
    seq(|lines|, i requires 0 <= i < |lines| => DropCR(lines[i]))
  }

  lemma {:induction false} ScanOfUnlines(lines: seq<string>)
    requires forall l :: l in lines ==> '\n' !in l
    ensures ScanLines(Unlines(lines)) == DropCRs(lines)
  {
    if lines != [] {
      var rest := Unlines(lines[1..]);
      var s := lines[0] + "\n" + rest;
      IndexAfterPrefix(lines[0], '\n', rest);
      assert s[..|lines[0]|] == lines[0] && s[|lines[0]| + 1..] == rest;
      ScanOfUnlines(lines[1..]);
      assert DropCRs(lines) == [DropCR(lines[0])] + DropCRs(lines[1..]);
    }
  }

  lemma {:induction false} UnlinesConcat(a: seq<string>, b: seq<string>)
    ensures Unlines(a + b) == Unlines(a) + Unlines(b)
  {
    if a == [] {
      assert a + b == b;
    } else {
      assert (a + b)[1..] == a[1..] + b;
      UnlinesConcat(a[1..], b);
    }
  }

  lemma UnlinesSnoc(a: seq<string>, l: string)
    ensures Unlines(a + [l]) == Unlines(a) + l + "\n"
  {
    UnlinesConcat(a, [l]);
    assert Unlines([l]) == l + "\n" + Unlines([]);
  }
}
