/** The signature header the gateway puts on requests to the backend: t=<unix seconds>,sig=<base64url mac>. */
module ProxySigner {
  import opened Wrappers
  import opened Text
  import opened Decimal
  import opened Clock

  /** HMAC-SHA256 under the shared secret and base64url (section 5 of RFC 4648), uninterpreted. */
  datatype Signer = Signer(mac: string -> string, encode: string -> string, decode: string -> Option<string>)

  predicate IsBase64Url(c: char) {
    'A' <= c <= 'Z' || 'a' <= c <= 'z' || '0' <= c <= '9' || c == '-' || c == '_'
  }

  predicate PlainText(s: string) {
    s != "" && forall c :: c in s ==> IsBase64Url(c)
  }

  predicate LawfulBytes(g: Signer, b: string) {
    g.decode(g.encode(b)) == Some(b) && (b != "" ==> PlainText(g.encode(b))) && g.mac(b) != ""
  }

  ghost predicate Lawful(g: Signer) {
    forall b :: LawfulBytes(g, b)
  }

  const WINDOW := 300 * SECOND

  function Message(ts: int, identity: string): string {
    Print(ts) + ":" + identity
  }

  function Signature(g: Signer, ts: int, identity: string): string {
    g.encode(g.mac(Message(ts, identity)))
  }

  function SignAt(g: Signer, identity: string, now: int): string {
    "t=" + Print(Unix(now)) + ",sig=" + Signature(g, Unix(now), identity)
  }

  // ---------- parsing the header ----------

  /** The two values seen so far. */
  datatype Fields = Fields(ts: string, sig: string)

  function WithField(f: Fields, key: string, value: string): Fields {
    if key == "t" then f.(ts := value) else if key == "sig" then f.(sig := value) else f
  }

  /** One more part; None when it has no equals sign. */
  function AddPart(f: Fields, part: string): Option<Fields> {
    var i := IndexOfChar(part, '=');
    if i < 0 then None else Some(WithField(f, Trim(part[..i], Unicode), Trim(part[i + 1..], Unicode)))
  }

  function FieldsOf(parts: seq<string>): Option<Fields> {
    if parts == [] then Some(Fields("", ""))
    else
      var before := FieldsOf(parts[..|parts| - 1]);
      if before.None? then None else AddPart(before.value, parts[|parts| - 1])
  }

  function Finished(f: Option<Fields>): Option<(int, string)> {
    if f.None? || f.value.ts == "" || f.value.sig == "" || ParseInt64(f.value.ts).None? then None
    else Some((ParseInt64(f.value.ts).value, f.value.sig))
  }

  function ParseHeader(header: string): Option<(int, string)> {
    Finished(FieldsOf(Split(header, ',')))
  }

  lemma FieldsNext(parts: seq<string>, i: nat)
    requires i < |parts|
    ensures FieldsOf(parts[..i + 1]) == if FieldsOf(parts[..i]).None? then None
            else AddPart(FieldsOf(parts[..i]).value, parts[i])
  {
    assert parts[..i + 1][..i] == parts[..i];
  }

  lemma {:induction false} MalformedStays(parts: seq<string>, i: nat)
    requires i <= |parts| && FieldsOf(parts[..i]).None?
    ensures FieldsOf(parts).None?
  {
    if i < |parts| {
      var n := |parts| - 1;
      assert parts[..n][..i] == parts[..i];
      MalformedStays(parts[..n], i);
    } else {
      assert parts[..i] == parts;
    }
  }

  method ParseSignatureHeader(header: string) returns (r: Option<(int, string)>)
    ensures r == ParseHeader(header)
  {
    var parts := Split(header, ',');
    var fields := CollectFields(parts);
    if fields.None? || fields.value.ts == "" || fields.value.sig == "" {
      return None;
    }
    var ts := ParseInt64(fields.value.ts);
    if ts.None? {
      return None;
    }
    r := Some((ts.value, fields.value.sig));
  }

  /** The loop over the parts. */
  method CollectFields(parts: seq<string>) returns (r: Option<Fields>)
    ensures r == FieldsOf(parts)
  {
    var tsStr, sig := "", "";
    var i := 0;
    while i < |parts|
      invariant i <= |parts| && FieldsOf(parts[..i]) == Some(Fields(tsStr, sig))
    {
      FieldsNext(parts, i);
      var eq := IndexOfChar(parts[i], '=');
      if eq < 0 {
        MalformedStays(parts, i + 1);
        return None;
      }
      var key, value := Trim(parts[i][..eq], Unicode), Trim(parts[i][eq + 1..], Unicode);
      if key == "t" {
        tsStr := value;
      } else if key == "sig" {
        sig := value;
      }
      i := i + 1;
    }
    assert parts[..i] == parts;
    r := Some(Fields(tsStr, sig));
  }

  // ---------- the round trip ----------

  /** No separator of the header and no outer space. */
  predicate Embeds(s: string) {
    s != "" && ',' !in s && Trimmed(s, Unicode)
  }

  lemma PrintEmbeds(n: int)
    ensures Embeds(Print(n)) && ':' !in Print(n)
  {
  }

  lemma PlainEmbeds(s: string)
    requires PlainText(s)
    ensures Embeds(s)
  {
    assert s[0] in s && s[|s| - 1] in s;
  }

  lemma AddPlain(f: Fields, key: string, value: string)
    requires '=' !in key && Trimmed(key, Unicode) && Embeds(value)
    ensures AddPart(f, key + "=" + value) == Some(WithField(f, key, value))
  {
    CutAt(key, '=', value);
    assert key + "=" + value == key + ['='] + value;
    TrimFixesTrimmed(key, Unicode);
    TrimFixesTrimmed(value, Unicode);
  }

  lemma SplitTwo(a: string, b: string)
    requires ',' !in a && ',' !in b
    ensures Split(a + "," + b, ',') == [a, b]
  {
    assert [a, b][1..] == [b] && Join([b], ",") == b;
    assert Join([a, b], ",") == a + "," + b;
    SplitOfJoin([a, b], ',');
  }

  lemma FieldsOfTwo(a: string, b: string)
    ensures FieldsOf([a, b]) ==
            var first := AddPart(Fields("", ""), a); if first.None? then None else AddPart(first.value, b)
  {
    FieldsNext([a, b], 0);
    FieldsNext([a, b], 1);
    assert [a, b][..2] == [a, b] && [a, b][..0] == [];
  }

  lemma ParseOfTwo(a: string, b: string, first: Fields, both: Fields)
    requires ',' !in a && ',' !in b
    requires AddPart(Fields("", ""), a) == Some(first) && AddPart(first, b) == Some(both)
    ensures ParseHeader(a + "," + b) == Finished(Some(both))
  {
    SplitTwo(a, b);
    FieldsOfTwo(a, b);
  }

  lemma HeaderIsTwoParts(ts: string, sig: string)
    ensures "t=" + ts + ",sig=" + sig == ("t" + "=" + ts) + "," + ("sig" + "=" + sig)
  {
    assert "t=" == "t" + "=" && ",sig=" == "," + ("sig" + "=");
  }

  lemma ParseOfFields(ts: string, sig: string)
    requires Embeds(ts) && Embeds(sig)
    ensures ParseHeader("t=" + ts + ",sig=" + sig) == Finished(Some(Fields(ts, sig)))
  {
    HeaderIsTwoParts(ts, sig);
    AddPlain(Fields("", ""), "t", ts);
    AddPlain(Fields(ts, ""), "sig", sig);
    ParseOfTwo("t" + "=" + ts, "sig" + "=" + sig, Fields(ts, ""), Fields(ts, sig));
  }

  // ---------- every header ----------

  /** A field as the header holds it: a key and a value with blanks before and after each. */
  datatype Pair = Pair(a: string, key: string, b: string, c: string, value: string, d: string)

  predicate PlainPair(p: Pair) {
    && AllSpace(p.a, Unicode) && AllSpace(p.b, Unicode) && AllSpace(p.c, Unicode) && AllSpace(p.d, Unicode)
    && '=' !in p.key && ',' !in p.key && Trimmed(p.key, Unicode) && ',' !in p.value && Trimmed(p.value, Unicode)
  }

  function Render(p: Pair): string {
    (p.a + p.key + p.b) + "=" + (p.c + p.value + p.d)
  }

  function Rendered(pairs: seq<Pair>): seq<string> {
    seq(|pairs|, i requires 0 <= i < |pairs| => Render(pairs[i]))
  }

  /** The value of the last field with the key, empty if there is none. */
  function LastOf(pairs: seq<Pair>, key: string): string {
    if pairs == [] then ""
    else if pairs[|pairs| - 1].key == key then pairs[|pairs| - 1].value
    else LastOf(pairs[..|pairs| - 1], key)
  }

  lemma BlanksAreNoSeparators(s: string)
    requires AllSpace(s, Unicode)
    ensures '=' !in s && ',' !in s
  {
  }

  lemma AddPair(f: Fields, p: Pair)
    requires PlainPair(p)
    ensures AddPart(f, Render(p)) == Some(WithField(f, p.key, p.value)) && ',' !in Render(p)
  {
    BlanksAreNoSeparators(p.a);
    BlanksAreNoSeparators(p.b);
    BlanksAreNoSeparators(p.c);
    BlanksAreNoSeparators(p.d);
    var left, right := p.a + p.key + p.b, p.c + p.value + p.d;
    CutAt(left, '=', right);
    assert Render(p) == left + ['='] + right;
    TrimPadded(p.a, p.key, p.b, Unicode);
    TrimPadded(p.c, p.value, p.d, Unicode);
  }

  lemma {:induction false} FieldsOfPairs(pairs: seq<Pair>)
    requires forall i :: 0 <= i < |pairs| ==> PlainPair(pairs[i])
    ensures FieldsOf(Rendered(pairs)) == Some(Fields(LastOf(pairs, "t"), LastOf(pairs, "sig")))
  {
    if pairs != [] {
      var n := |pairs| - 1;
      FieldsOfPairs(pairs[..n]);
      FieldsNext(Rendered(pairs), n);
      assert Rendered(pairs)[..n] == Rendered(pairs[..n]) && Rendered(pairs)[..n + 1] == Rendered(pairs);
      AddPair(Fields(LastOf(pairs[..n], "t"), LastOf(pairs[..n], "sig")), pairs[n]);
    }
  }

  lemma RenderedIsPlain(pairs: seq<Pair>)
    requires forall i :: 0 <= i < |pairs| ==> PlainPair(pairs[i])
    ensures forall part :: part in Rendered(pairs) ==> ',' !in part
  {
    forall i | 0 <= i < |pairs|
      ensures ',' !in Rendered(pairs)[i]
    {
      AddPair(Fields("", ""), pairs[i]);
    }
  }

  /** A header counts if and only if its last field t is a number and its last field sig is not empty; all other fields
      and all blanks around keys and values are ignored. */
  lemma HeaderOfPairs(pairs: seq<Pair>)
    requires pairs != [] && forall i :: 0 <= i < |pairs| ==> PlainPair(pairs[i])
    ensures var ts, sig := LastOf(pairs, "t"), LastOf(pairs, "sig");
            ParseHeader(Join(Rendered(pairs), ",")) ==
            if ts != "" && sig != "" && ParseInt64(ts).Some? then Some((ParseInt64(ts).value, sig)) else None
  {
    RenderedIsPlain(pairs);
    SplitOfJoin(Rendered(pairs), ',');
    FieldsOfPairs(pairs);
  }

  /** And a part without an equals sign spoils the header. */
  lemma {:induction false} SpoiledHeader(header: string, k: nat)
    requires k < |Split(header, ',')| && '=' !in Split(header, ',')[k]
    ensures ParseHeader(header) == None
  {
    FieldsNext(Split(header, ','), k);
    MalformedStays(Split(header, ','), k + 1);
  }

  /** Parsing a signed header gives back its second and its signature, for every identity and time. */
  lemma ParseOfSigned(g: Signer, identity: string, now: int)
    requires Lawful(g) && INT64_MIN <= Unix(now) <= INT64_MAX
    ensures ParseHeader(SignAt(g, identity, now)) == Some((Unix(now), Signature(g, Unix(now), identity)))
  {
    var m := g.mac(Message(Unix(now), identity));
    assert LawfulBytes(g, Message(Unix(now), identity)) && LawfulBytes(g, m);
    PlainEmbeds(g.encode(m));
    PrintEmbeds(Unix(now));
    ParseOfFields(Print(Unix(now)), g.encode(m));
    ParseOfPrint(Unix(now));
  }

  /** The signed text determines the second and the identity. */
  lemma MessageInjective(ts: int, identity: string, ts': int, identity': string)
    ensures Message(ts, identity) == Message(ts', identity') <==> ts == ts' && identity == identity'
  {
    if Message(ts, identity) == Message(ts', identity') {
      PrintEmbeds(ts);
      PrintEmbeds(ts');
      CutAt(Print(ts), ':', identity);
      CutAt(Print(ts'), ':', identity');
      assert Message(ts, identity) == Print(ts) + [':'] + identity;
      assert Message(ts', identity') == Print(ts') + [':'] + identity';
      PrintInjective(ts, ts');
    }
  }

  // ---------- verification ----------

  /** Seconds from the year 1 to 1970, which time.Unix adds in int64. */
  const UNIX_TO_INTERNAL := 62_135_596_800

  /** The instant that time.Unix(ts, 0) stands for, in nanoseconds since 1970. */
  function InstantOf(ts: int): int {
    (Wrap64(ts + UNIX_TO_INTERNAL) - UNIX_TO_INTERNAL) * SECOND
  }

  /** time.Time.Sub saturates. */
  function Sub(a: int, b: int): int {
    if a - b < INT64_MIN then INT64_MIN else if a - b > INT64_MAX then INT64_MAX else a - b
  }

  function Drift(now: int, ts: int): int {
    var d := Sub(now, InstantOf(ts));
    if d < 0 then Wrap64(-d) else d
  }

  function VerifyAt(g: Signer, identity: string, header: string, now: int): bool {
    var parsed := ParseHeader(header);
    && parsed.Some?
    && Drift(now, parsed.value.0) <= WINDOW
    && g.decode(parsed.value.1) == Some(g.mac(Message(parsed.value.0, identity)))
  }

  /** Seconds that time.Unix can represent. */
  predicate Representable(ts: int) {
    INT64_MIN <= ts && ts + UNIX_TO_INTERNAL <= INT64_MAX
  }

  lemma SmallWrap(n: int)
    ensures INT64_MIN <= n <= INT64_MAX ==> Wrap64(n) == n
    ensures Wrap64(-INT64_MIN) == INT64_MIN
  {
  }

  /** The clock check passes within the window, and also when the signature lies so far in the future that the
      difference saturates at the one number without a positive counterpart. */
  lemma ClockCheckIff(now: int, ts: int)
    requires Representable(ts)
    ensures Drift(now, ts) <= WINDOW
       <==> ts * SECOND - WINDOW <= now <= ts * SECOND + WINDOW || now <= ts * SECOND - 0x8000_0000_0000_0000
  {
    SmallWrap(ts + UNIX_TO_INTERNAL);
    SmallWrap(-Sub(now, ts * SECOND));
  }

  /** A second so large that its instant leaves the int64 range is taken for one in the remote past and rejected. */
  lemma BeyondRangeIsRejected(now: Instant, ts: int)
    requires INT64_MIN <= ts <= INT64_MAX && !Representable(ts)
    ensures Drift(now, ts) > 300 * SECOND
  {
    WrapsOnce(ts + UNIX_TO_INTERNAL);
    SmallWrap(-Sub(now, InstantOf(ts)));
  }

  lemma WrapsOnce(n: int)
    requires INT64_MAX < n <= INT64_MAX + 0x1_0000_0000_0000_0000
    ensures Wrap64(n) == n - 0x1_0000_0000_0000_0000
  {
  }

  /** The gateway's own header is accepted exactly when the clock check passes. */
  lemma OwnHeaderAcceptedIff(g: Signer, identity: string, signed: int, now: int)
    requires Lawful(g) && Representable(Unix(signed))
    ensures var second := Unix(signed) * SECOND;
            VerifyAt(g, identity, SignAt(g, identity, signed), now) <==>
            (second - WINDOW <= now <= second + WINDOW || now <= second - 0x8000_0000_0000_0000)
  {
    ParseOfSigned(g, identity, signed);
    assert LawfulBytes(g, g.mac(Message(Unix(signed), identity)));
    ClockCheckIff(now, Unix(signed));
  }

  /** As long as both clocks read a time that fits an int64 of nanoseconds, that is five minutes either way. */
  lemma OwnHeaderWithinFiveMinutes(g: Signer, identity: string, signed: Instant, now: Instant)
    requires Lawful(g)
    ensures VerifyAt(g, identity, SignAt(g, identity, signed), now) <==>
            (Unix(signed) - 300) * SECOND <= now <= (Unix(signed) + 300) * SECOND
  {
    UnixMonotone(0, signed);
    OwnHeaderAcceptedIff(g, identity, signed, now);
  }

  /** A header signed for one identity is accepted for another only if two different messages have one mac. */
  lemma OtherIdentityNeedsCollision(g: Signer, identity: string, other: string, signed: int, now: int)
    requires Lawful(g) && INT64_MIN <= Unix(signed) <= INT64_MAX && identity != other
    requires VerifyAt(g, other, SignAt(g, identity, signed), now)
    ensures var a, b := Message(Unix(signed), identity), Message(Unix(signed), other); a != b && g.mac(a) == g.mac(b)
  {
    ParseOfSigned(g, identity, signed);
    assert LawfulBytes(g, g.mac(Message(Unix(signed), identity)));
    MessageInjective(Unix(signed), identity, Unix(signed), other);
  }
}
