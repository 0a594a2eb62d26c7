/** The patterns that recognise a typed JSON object in a byte stream: the key "type", a colon and a word in
    quotes, with blanks allowed around the colon. */
module TypeTags {

  const TYPE_KEY := "\"type\""

  /** The five characters of the regular expression class \s. */
  predicate IsBlank(c: char) {
    c == ' ' || c == '\t' || c == '\n' || c == '\r' || c as int == 12
  }

  function SkipBlanks(s: string): string {
    if s != "" && IsBlank(s[0]) then SkipBlanks(s[1..]) else s
  }

  function Quoted(word: string): string {
    "\"" + word + "\""
  }

  /** The pattern matches at the start of the string. */
  predicate TagAtStart(word: string, s: string) {
    TYPE_KEY <= s && AfterKey(word, SkipBlanks(s[|TYPE_KEY|..]))
  }

  predicate AfterKey(word: string, s: string) {
    s != "" && s[0] == ':' && Quoted(word) <= SkipBlanks(s[1..])
  }

  /** The pattern matches somewhere. */
  predicate HasTag(word: string, s: string) {
    s != "" && (TagAtStart(word, s) || HasTag(word, s[1..]))
  }

  lemma {:induction false} SkipBlanksExtends(s: string, b: string)
    requires SkipBlanks(s) != ""
    ensures SkipBlanks(s + b) == SkipBlanks(s) + b
  {
    if IsBlank(s[0]) {
      SkipBlanksExtends(s[1..], b);
      assert (s + b)[1..] == s[1..] + b;
    }
  }

  lemma AfterKeyExtends(word: string, s: string, b: string)
    requires AfterKey(word, s)
    ensures AfterKey(word, s + b)
  {
    assert (s + b)[1..] == s[1..] + b;
    SkipBlanksExtends(s[1..], b);
  }

  lemma TagAtStartExtends(word: string, s: string, b: string)
    requires TagAtStart(word, s)
    ensures TagAtStart(word, s + b)
  {
    var rest := s[|TYPE_KEY|..];
    assert (s + b)[|TYPE_KEY|..] == rest + b;
    SkipBlanksExtends(rest, b);
    AfterKeyExtends(word, SkipBlanks(rest), b);
  }

  /** What is found in a string is found in every longer one. */
  lemma {:induction false} TagInContext(word: string, a: string, s: string, b: string)
    requires HasTag(word, s)
    ensures HasTag(word, a + s + b)
    decreases |a| + |s|
  {
    if a != "" {
      TagInContext(word, a[1..], s, b);
      assert (a + s + b)[1..] == a[1..] + s + b;
    } else if TagAtStart(word, s) {
      TagAtStartExtends(word, s, b);
      assert a + s + b == s + b;
    } else {
      TagInContext(word, "", s[1..], b);
      assert (a + s + b)[1..] == "" + s[1..] + b;
    }
  }

  // ---------- what the pattern means ----------

  /** Spaces, tabs, line feeds, carriage returns and form feeds only. */
  predicate Blanks(s: string) {
    forall i :: 0 <= i < |s| ==> s[i] in {' ', '\t', '\n', '\r', 12 as char}
  }

  lemma {:induction false} SkipBlanksSplits(s: string) returns (a: string)
    ensures Blanks(a) && s == a + SkipBlanks(s)
    ensures SkipBlanks(s) != "" ==> !IsBlank(SkipBlanks(s)[0])
  {
    a := "";
    if s != "" && IsBlank(s[0]) {
      var rest := SkipBlanksSplits(s[1..]);
      a := [s[0]] + rest;
    }
  }

  lemma {:induction false} SkipBlanksSkips(a: string, s: string)
    requires Blanks(a) && (s != "" ==> !IsBlank(s[0]))
    ensures SkipBlanks(a + s) == s
  {
    if a != "" {
      assert (a + s)[1..] == a[1..] + s;
      SkipBlanksSkips(a[1..], s);
    } else {
      assert a + s == s;
    }
  }

  /** The tagged text from the key to the word, with blanks x and y around the colon. */
  function Tag(x: string, y: string, word: string): string {
    "\"type\"" + (x + AfterColon(y, word))
  }

  /** The colon and what follows it. */
  function AfterColon(y: string, word: string): string {
    ":" + (y + ("\"" + word + "\""))
  }

  lemma ColonMatches(y: string, word: string, b: string)
    requires Blanks(y)
    ensures AfterKey(word, AfterColon(y, word) + b)
  {
    var quoted := "\"" + word + "\"";
    var s := AfterColon(y, word) + b;
    SkipBlanksSkips(y, quoted + b);
    assert s[1..] == y + (quoted + b);
  }

  lemma TagMatches(x: string, y: string, word: string, b: string)
    requires Blanks(x) && Blanks(y)
    ensures TagAtStart(word, Tag(x, y, word) + b)
  {
    var colon := AfterColon(y, word) + b;
    var s := Tag(x, y, word) + b;
    ColonMatches(y, word, b);
    SkipBlanksSkips(x, colon);
    assert s[|TYPE_KEY|..] == x + colon;
  }

  lemma MatchIsTag(word: string, s: string) returns (x: string, y: string, b: string)
    requires TagAtStart(word, s)
    ensures Blanks(x) && Blanks(y) && s == Tag(x, y, word) + b
  {
    var rest := s[|TYPE_KEY|..];
    x := SkipBlanksSplits(rest);
    var colon := SkipBlanks(rest);
    y := SkipBlanksSplits(colon[1..]);
    var quoted := SkipBlanks(colon[1..]);
    b := quoted[|Quoted(word)|..];
    assert quoted == Quoted(word) + b;
    assert colon == AfterColon(y, word) + b;
    assert s == TYPE_KEY + (x + colon);
  }

  ghost predicate TagOccurs(word: string, s: string, a: string, x: string, y: string, b: string) {
    Blanks(x) && Blanks(y) && s == a + Tag(x, y, word) + b
  }

  ghost predicate SomeTag(word: string, s: string) {
    exists a, x, y, b :: TagOccurs(word, s, a, x, y, b)
  }

  lemma TagOccursLater(word: string, s: string)
    requires s != "" && SomeTag(word, s[1..])
    ensures SomeTag(word, s)
  {
    var a, x, y, b :| TagOccurs(word, s[1..], a, x, y, b);
    assert s == [s[0]] + s[1..];
    assert TagOccurs(word, s, [s[0]] + a, x, y, b);
  }

  lemma OccurringMatches(word: string, s: string)
    requires SomeTag(word, s)
    ensures HasTag(word, s)
  {
    var a, x, y, b :| TagOccurs(word, s, a, x, y, b);
    TagMatches(x, y, word, b);
    var tagged := Tag(x, y, word) + b;
    assert s == a + tagged + "";
    TagInContext(word, a, tagged, "");
  }

  /** A tag is the key "type", a colon and the word in quotes, anywhere, with any blanks around the colon and nothing
      else between. */
  lemma {:induction false} HasTagIff(word: string, s: string)
    ensures HasTag(word, s) <==> SomeTag(word, s)
  {
    if SomeTag(word, s) {
      OccurringMatches(word, s);
    } else if s != "" && TagAtStart(word, s) {
      var x, y, b := MatchIsTag(word, s);
      assert TagOccurs(word, s, "", x, y, b);
    } else if HasTag(word, s) {
      HasTagIff(word, s[1..]);
      TagOccursLater(word, s);
    }
  }

  /** What any pattern without anchors obeys: it matches no empty string, and a match stays one in context. */
  ghost predicate Unanchored(p: string -> bool) {
    !p("") && forall a: string, s: string, b: string :: p(s) ==> p(a + s + b)
  }

  lemma TagIsUnanchored(word: string)
    ensures Unanchored(s => HasTag(word, s))
  {
    forall a: string, s: string, b: string | HasTag(word, s)
      ensures HasTag(word, a + s + b)
    {
      TagInContext(word, a, s, b);
    }
  }

  lemma EitherIsUnanchored(p: string -> bool, q: string -> bool)
    requires Unanchored(p) && Unanchored(q)
    ensures Unanchored(s => p(s) || q(s))
  {
  }
}
