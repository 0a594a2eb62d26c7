/** How envfile.go prints a value into a .env line and reads it back. Both directions
    are chains of strings.ReplaceAll passes: a byte by a pair, or a pair by a byte. */
module EnvCodec {
  import opened Text

  /** strings.ReplaceAll(s, [c], [a, b]). */
  function ReplaceChar(s: string, c: char, a: char, b: char): string {
    if s == "" then ""
    else if s[0] == c then [a] + ([b] + ReplaceChar(s[1..], c, a, b))
    else [s[0]] + ReplaceChar(s[1..], c, a, b)
  }

  /** strings.ReplaceAll(s, [a, b], [c]): matches are taken left to right and do not overlap. */
  function ReplacePair(s: string, a: char, b: char, c: char): string
    decreases |s|
  {
    if s == "" then ""
    else if |s| >= 2 && s[0] == a && s[1] == b then [c] + ReplacePair(s[2..], a, b, c)
    else [s[0]] + ReplacePair(s[1..], a, b, c)
  }

  predicate NeedsQuotes(v: string) {
    exists i :: 0 <= i < |v| && IsSpecial(v[i])
  }

  predicate IsSpecial(c: char) {
    c == ' ' || c == '\t' || c == '\n' || c == '\r' || c == '"' || c == '#' || c == '\''
  }

  function EscapePasses(v: string): string {
    ReplaceChar(ReplaceChar(ReplaceChar(v, '"', '\\', '"'), '\n', '\\', 'n'), '\r', '\\', 'r')
  }

  function EscapeEnvValue(v: string): string {
    if NeedsQuotes(v) then "\"" + EscapePasses(v) + "\"" else v
  }

  function UnescapeBreaks(u: string): string {
    ReplacePair(ReplacePair(u, '\\', 'n', '\n'), '\\', 'r', '\r')
  }

  predicate IsQuoted(val: string) {
    |val| >= 2 && val[0] == val[|val| - 1] && (val[0] == '"' || val[0] == '\'')
  }

  /** The quote removal inside ReadEnvFile, applied to an already trimmed value. */
  function Unquote(val: string): string {
    if IsQuoted(val) then UnescapeBreaks(ReplacePair(val[1..|val| - 1], '\\', '"', '"')) else val
  }

  /** What a reader sees after `v` has been written: escaped, trimmed and unquoted. */
  function ReadBack(v: string): string {
    Unquote(Trim(EscapeEnvValue(v), Unicode))
  }

  // ---------- the escaper as one pass ----------

  function EscapeAll(s: string): string {
    if s == "" then ""
    else if s[0] == '"' then ['\\'] + (['"'] + EscapeAll(s[1..]))
    else if s[0] == '\n' then ['\\'] + (['n'] + EscapeAll(s[1..]))
    else if s[0] == '\r' then ['\\'] + (['r'] + EscapeAll(s[1..]))
    else [s[0]] + EscapeAll(s[1..])
  }

  function EscapeBreaks(s: string): string {
    if s == "" then ""
    else if s[0] == '\n' then ['\\'] + (['n'] + EscapeBreaks(s[1..]))
    else if s[0] == '\r' then ['\\'] + (['r'] + EscapeBreaks(s[1..]))
    else [s[0]] + EscapeBreaks(s[1..])
  }

  lemma CharCons(x: char, t: string, c: char, a: char, b: char)
    ensures ReplaceChar([x] + t, c, a, b)
         == if x == c then [a] + ([b] + ReplaceChar(t, c, a, b)) else [x] + ReplaceChar(t, c, a, b)
  {
    assert ([x] + t)[1..] == t;
  }

  lemma PairCons(x: char, t: string, a: char, b: char, c: char)
    ensures ReplacePair([x] + t, a, b, c)
         == if x == a && t != "" && t[0] == b then [c] + ReplacePair(t[1..], a, b, c) else [x] + ReplacePair(t, a, b, c)
  {
    var w := [x] + t;
    assert w[1..] == t;
    assert t != "" ==> w[1] == t[0] && w[2..] == t[1..];
  }

  lemma PairHit(t: string, a: char, b: char, c: char)
    ensures ReplacePair([a] + ([b] + t), a, b, c) == [c] + ReplacePair(t, a, b, c)
  {
    PairCons(a, [b] + t, a, b, c);
    assert ([b] + t)[1..] == t;
  }

  lemma {:induction false} EscapeIsOnePass(s: string)
    ensures EscapePasses(s) == EscapeAll(s)
  {
    if s != "" {
      var c, t := s[0], s[1..];
      EscapeIsOnePass(t);
      var q := ReplaceChar(t, '"', '\\', '"');
      var n := ReplaceChar(q, '\n', '\\', 'n');
      if c == '"' {
        CharCons('"', q, '\n', '\\', 'n');
        CharCons('\\', ['"'] + q, '\n', '\\', 'n');
        CharCons('"', n, '\r', '\\', 'r');
        CharCons('\\', ['"'] + n, '\r', '\\', 'r');
      } else {
        CharCons(c, q, '\n', '\\', 'n');
        if c == '\n' {
          CharCons('n', n, '\r', '\\', 'r');
          CharCons('\\', ['n'] + n, '\r', '\\', 'r');
        } else {
          CharCons(c, n, '\r', '\\', 'r');
        }
      }
    }
  }

  // ---------- undoing the passes ----------

  /** The first unescape pass removes exactly the backslashes put before quotes. */
  lemma {:induction false} UnescapeQuotes(s: string)
    ensures ReplacePair(EscapeAll(s), '\\', '"', '"') == EscapeBreaks(s)
    ensures EscapeAll(s) != "" ==> EscapeAll(s)[0] != '"'
  {
    if s != "" {
      var c, g := s[0], EscapeAll(s[1..]);
      UnescapeQuotes(s[1..]);
      if c == '"' {
        PairHit(g, '\\', '"', '"');
      } else if c == '\n' || c == '\r' {
        var x := if c == '\n' then 'n' else 'r';
        PairCons(x, g, '\\', '"', '"');
        PairCons('\\', [x] + g, '\\', '"', '"');
      } else {
        PairCons(c, g, '\\', '"', '"');
      }
    }
  }

  function EscapeReturns(s: string): string {
    ReplaceChar(s, '\r', '\\', 'r')
  }

  /** The second pass restores line feeds; a literal backslash-n in the value is
      swallowed by it as well. */
  lemma {:induction false} UnescapeLineFeeds(s: string)
    ensures ReplacePair(EscapeBreaks(s), '\\', 'n', '\n') == EscapeReturns(ReplacePair(s, '\\', 'n', '\n'))
    decreases |s|
  {
    if s != "" {
      var c, t := s[0], s[1..];
      var g := EscapeBreaks(t);
      if c == '\\' && t != "" && t[0] == 'n' {
        UnescapeLineFeeds(t[1..]);
        PairHit(EscapeBreaks(t[1..]), '\\', 'n', '\n');
        assert s[2..] == t[1..];
        CharCons('\n', ReplacePair(t[1..], '\\', 'n', '\n'), '\r', '\\', 'r');
      } else {
        UnescapeLineFeeds(t);
        assert ReplacePair(s, '\\', 'n', '\n') == [c] + ReplacePair(t, '\\', 'n', '\n');
        CharCons(c, ReplacePair(t, '\\', 'n', '\n'), '\r', '\\', 'r');
        if c == '\n' {
          PairHit(g, '\\', 'n', '\n');
        } else if c == '\r' {
          PairCons('r', g, '\\', 'n', '\n');
          PairCons('\\', ['r'] + g, '\\', 'n', '\n');
        } else {
          PairCons(c, g, '\\', 'n', '\n');
        }
      }
    }
  }

  /** The third pass restores carriage returns in the same way. */
  lemma {:induction false} UnescapeReturns(s: string)
    ensures ReplacePair(EscapeReturns(s), '\\', 'r', '\r') == ReplacePair(s, '\\', 'r', '\r')
    decreases |s|
  {
    if s != "" {
      var c, t := s[0], s[1..];
      var g := EscapeReturns(t);
      if c == '\\' && t != "" && t[0] == 'r' {
        UnescapeReturns(t[1..]);
        PairHit(EscapeReturns(t[1..]), '\\', 'r', '\r');
        assert s[2..] == t[1..];
      } else {
        UnescapeReturns(t);
        if c == '\r' {
          PairHit(g, '\\', 'r', '\r');
        } else {
          PairCons(c, g, '\\', 'r', '\r');
        }
      }
    }
  }

  /** Unquoting an escaped value undoes the quote and line-break escapes and
      additionally decodes every literal backslash-n and backslash-r in it. */
  lemma UnquoteOfEscape(v: string)
    requires NeedsQuotes(v)
    ensures Unquote(EscapeEnvValue(v)) == UnescapeBreaks(v)
  {
    var e := EscapePasses(v);
    var q := EscapeEnvValue(v);
    assert q[0] == '"' && q[|q| - 1] == '"' && q[1..|q| - 1] == e;
    EscapeIsOnePass(v);
    UnescapeQuotes(v);
    UnescapeLineFeeds(v);
    UnescapeReturns(ReplacePair(v, '\\', 'n', '\n'));
  }

  /** A value is written bare unless it holds a blank, a line break, a quote of either kind or a hash sign; otherwise it
      is written in double quotes. */
  lemma WrittenForm(v: string)
    ensures var special := exists i :: 0 <= i < |v| && v[i] in {' ', '\t', '\n', '\r', '"', '#', '\''};
            && (!special ==> EscapeEnvValue(v) == v)
            && (special ==> EscapeEnvValue(v) == "\"" + EscapeAll(v) + "\"")
  {
    EscapeIsOnePass(v);
  }

  // ---------- exactly which values survive ----------

  predicate HasPair(s: string, a: char, b: char) {
    exists i :: 0 <= i < |s| - 1 && s[i] == a && s[i + 1] == b
  }

  lemma {:induction false} ReplacePairLength(s: string, a: char, b: char, c: char)
    ensures var r := ReplacePair(s, a, b, c);
            |r| <= |s| && (|r| == |s| ==> r == s) && (|r| == |s| <==> !HasPair(s, a, b))
    decreases |s|
  {
    if s != "" {
      if |s| >= 2 && s[0] == a && s[1] == b {
        ReplacePairLength(s[2..], a, b, c);
      } else {
        ReplacePairLength(s[1..], a, b, c);
        HasPairTail(s, a, b);
      }
    }
  }

  lemma HasPairTail(s: string, a: char, b: char)
    requires s != "" && !(|s| >= 2 && s[0] == a && s[1] == b)
    ensures HasPair(s, a, b) <==> HasPair(s[1..], a, b)
  {
    var t := s[1..];
    assert forall i :: 0 <= i < |t| ==> t[i] == s[i + 1];
    if HasPair(s, a, b) {
      var i :| 0 <= i < |s| - 1 && s[i] == a && s[i + 1] == b;
      assert t[i - 1] == a && t[i] == b;
    }
  }

  /** A guard a caller could check before writing a value. */
  predicate Survives(v: string) {
    if NeedsQuotes(v) then !HasPair(v, '\\', 'n') && !HasPair(v, '\\', 'r')
    else Trimmed(v, Unicode)
  }

  lemma ReadBackQuoted(v: string)
    requires NeedsQuotes(v)
    ensures ReadBack(v) == UnescapeBreaks(v)
  {
    var q := EscapeEnvValue(v);
    assert q[0] == '"' && q[|q| - 1] == '"';
    TrimFixesTrimmed(q, Unicode);
    UnquoteOfEscape(v);
  }

  lemma ReadBackPlain(v: string)
    requires !NeedsQuotes(v)
    ensures ReadBack(v) == Trim(v, Unicode)
  {
    var t := Trim(v, Unicode);
    var a, b := TrimPadding(v, Unicode);
    assert t != "" ==> v[|a|] == t[0];
  }

  /** A value comes back unchanged exactly when it survives. */
  lemma RoundTripIff(v: string)
    ensures ReadBack(v) == v <==> Survives(v)
  {
    if NeedsQuotes(v) {
      ReadBackQuoted(v);
      ReplacePairLength(v, '\\', 'n', '\n');
      ReplacePairLength(ReplacePair(v, '\\', 'n', '\n'), '\\', 'r', '\r');
    } else {
      ReadBackPlain(v);
      TrimFixesTrimmed(v, Unicode);
    }
  }

  lemma {:induction false} EscapeAllIsOneLine(s: string)
    ensures '\n' !in EscapeAll(s) && '\r' !in EscapeAll(s)
  {
    if s != "" {
      EscapeAllIsOneLine(s[1..]);
    }
  }

  /** A written value never spans two lines and never ends in a carriage return. */
  lemma EscapeIsOneLine(v: string)
    ensures '\n' !in EscapeEnvValue(v) && '\r' !in EscapeEnvValue(v)
  {
    if NeedsQuotes(v) {
      EscapeIsOnePass(v);
      EscapeAllIsOneLine(v);
    }
  }
}
