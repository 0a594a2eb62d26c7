/** Gateway auth tokens: <payload>.<signature>. */
module Token {
  import opened Wrappers
  import opened Text
  import opened Clock

  datatype Claims = Claims(sub: string, iat: int, exp: int, scope: string)

  /** JSON, base64url (section 5 of RFC 4648) and HMAC-SHA256 under the gateway's secret, uninterpreted. */
  datatype Scheme = Scheme(
    marshal: Claims -> string,
    unmarshal: string -> Option<Claims>,
    encode: string -> string,
    decode: string -> Option<string>,
    mac: string -> string)

  predicate LawfulClaims(s: Scheme, c: Claims) {
    s.unmarshal(s.marshal(c)) == Some(c) && s.marshal(c) != ""
  }

  predicate LawfulBytes(s: Scheme, b: string) {
    s.decode(s.encode(b)) == Some(b) && '.' !in s.encode(b) && (b != "" ==> s.encode(b) != "") && s.mac(b) != ""
  }

  ghost predicate Lawful(s: Scheme) {
    (forall c :: LawfulClaims(s, c)) && (forall b :: LawfulBytes(s, b))
  }

  const CLOCK_SKEW := 30

  // ---------- splitting ----------

  function SplitToken(token: string): Option<(string, string)> {
    var i := IndexOfChar(token, '.');
    if i <= 0 || i >= |token| - 1 || '.' in token[i + 1..] then None
    else Some((token[..i], token[i + 1..]))
  }

  /** Progress of the loop: the first separator, if seen, and no second one so far. */
  predicate Scanned(token: string, i: nat, dotIdx: int)
    requires i <= |token|
  {
    if dotIdx < 0 then dotIdx == -1 && '.' !in token[..i]
    else dotIdx < i && token[dotIdx] == '.' && '.' !in token[..dotIdx] && '.' !in token[dotIdx + 1..i]
  }

  lemma ScanStep(token: string, i: nat, dotIdx: int)
    requires i < |token| && Scanned(token, i, dotIdx) && (token[i] == '.' ==> dotIdx < 0)
    ensures Scanned(token, i + 1, if token[i] == '.' then i else dotIdx)
  {
    assert token[..i + 1] == token[..i] + [token[i]];
    if 0 <= dotIdx {
      assert token[dotIdx + 1..i + 1] == token[dotIdx + 1..i] + [token[i]];
    }
  }

  lemma FirstDot(token: string, dotIdx: nat)
    requires dotIdx < |token| && token[dotIdx] == '.' && '.' !in token[..dotIdx]
    ensures IndexOfChar(token, '.') == dotIdx
  {
    var before, after := token[..dotIdx], token[dotIdx + 1..];
    assert token == before + ['.'] + after;
    IndexAfterPrefix(before, '.', after);
  }

  lemma SecondDot(token: string, i: nat, dotIdx: nat)
    requires i < |token| && Scanned(token, i, dotIdx) && token[i] == '.'
    ensures SplitToken(token) == None
  {
    FirstDot(token, dotIdx);
    assert token[dotIdx + 1..][i - dotIdx - 1] == '.';
  }

  lemma ScanDone(token: string, dotIdx: int)
    requires Scanned(token, |token|, dotIdx)
    ensures SplitToken(token)
         == if dotIdx <= 0 || dotIdx >= |token| - 1 then None else Some((token[..dotIdx], token[dotIdx + 1..]))
  {
    if 0 <= dotIdx {
      FirstDot(token, dotIdx);
      assert token[dotIdx + 1..|token|] == token[dotIdx + 1..];
    } else {
      assert token[..|token|] == token;
    }
  }

  method SplitTokenLoop(token: string) returns (r: Option<(string, string)>)
    ensures r == SplitToken(token)
  {
    var dotIdx := -1;
    var i := 0;
    while i < |token|
      invariant i <= |token| && Scanned(token, i, dotIdx)
    {
      if token[i] == '.' && dotIdx >= 0 {
        SecondDot(token, i, dotIdx);
        return None;
      }
      ScanStep(token, i, dotIdx);
      if token[i] == '.' {
        dotIdx := i;
      }
      i := i + 1;
    }
    ScanDone(token, dotIdx);
    if dotIdx <= 0 || dotIdx >= |token| - 1 {
      return None;
    }
    r := Some((token[..dotIdx], token[dotIdx + 1..]));
  }

  /** Exactly the tokens with one separator and something on both sides. */
  lemma SplitTokenIff(token: string, payload: string, signature: string)
    ensures SplitToken(token) == Some((payload, signature))
       <==> (token == payload + "." + signature && payload != "" && signature != ""
             && '.' !in payload && '.' !in signature)
  {
    if token == payload + "." + signature && '.' !in payload {
      IndexAfterPrefix(payload, '.', signature);
      assert token == payload + ['.'] + signature;
      assert token[..|payload|] == payload && token[|payload| + 1..] == signature;
    }
  }

  // ---------- creation and validation ----------

  datatype Error = EmptySubject | TtlTooLong

  datatype Created = Issued(token: string) | Refused(error: Error)

  function Signed(s: Scheme, c: Claims): string {
    s.encode(s.marshal(c)) + "." + s.encode(s.mac(s.marshal(c)))
  }

  function ClaimsFor(subject: string, scope: string, ttl: nat, now: Instant): Claims {
    Claims(subject, Unix(now), Unix(now) + WholeSeconds(ttl), if scope == "" then "ws" else scope)
  }

  function CreateWithTTL(s: Scheme, maxTTL: nat, subject: string, scope: string, ttl: nat, now: Instant): Created {
    if subject == "" then Refused(EmptySubject)
    else if ttl > maxTTL then Refused(TtlTooLong)
    else Issued(Signed(s, ClaimsFor(subject, scope, ttl, now)))
  }

  function Validate(s: Scheme, token: string, now: Instant): Option<Claims> {
    var parts := SplitToken(token);
    if parts.None? then None
    else
      var payload, sig := s.decode(parts.value.0), s.decode(parts.value.1);
      if payload.None? || sig.None? || sig.value != s.mac(payload.value) then None
      else
        var claims := s.unmarshal(payload.value);
        if claims.None? || Unix(now) - CLOCK_SKEW > claims.value.exp
           || claims.value.sub == "" || claims.value.scope == "" then None
        else claims
  }

  /** What a new token claims: its subject, the current second, an expiry the whole seconds of its lifetime later, and
      its scope, "ws" where none is given. It is refused without a subject or for longer than the maximum. */
  lemma CreatedClaims(s: Scheme, maxTTL: nat, subject: string, scope: string, ttl: nat, now: Instant)
    requires Lawful(s)
    ensures var made := CreateWithTTL(s, maxTTL, subject, scope, ttl, now);
            && (subject == "" ==> made == Refused(EmptySubject))
            && (subject != "" && maxTTL < ttl ==> made == Refused(TtlTooLong))
            && (subject != "" && ttl <= maxTTL ==>
                  && made.Issued? && Validate(s, made.token, now).Some?
                  && var c := Validate(s, made.token, now).value;
                     && c.sub == subject && c.iat == Unix(now) && c.exp == Unix(now) + WholeSeconds(ttl)
                     && (scope == "" ==> c.scope == "ws") && (scope != "" ==> c.scope == scope))
  {
    if subject != "" {
      ValidateOfSigned(s, ClaimsFor(subject, scope, ttl, now), now);
    }
  }

  /** A signed token is accepted, with the claims it was created with, until half a minute after its expiry, unless
      it names no subject or no scope. */
  lemma ValidateOfSigned(s: Scheme, c: Claims, now: Instant)
    requires Lawful(s)
    ensures Validate(s, Signed(s, c), now)
            == if Unix(now) <= c.exp + 30 && c.sub != "" && c.scope != "" then Some(c) else None
  {
    var payload := s.marshal(c);
    assert LawfulClaims(s, c) && LawfulBytes(s, payload) && LawfulBytes(s, s.mac(payload));
    SplitTokenIff(Signed(s, c), s.encode(payload), s.encode(s.mac(payload)));
  }

  predicate Carries(s: Scheme, token: string, payload: string) {
    var parts := SplitToken(token);
    parts.Some? && s.decode(parts.value.0) == Some(payload) && s.decode(parts.value.1) == Some(s.mac(payload))
  }

  /** Acceptance always rests on a payload carrying its own mac. */
  lemma AcceptedIsSigned(s: Scheme, token: string, now: Instant)
    requires Validate(s, token, now).Some?
    ensures exists payload :: Carries(s, token, payload) && s.unmarshal(payload) == Validate(s, token, now)
  {
    var payload := s.decode(SplitToken(token).value.0).value;
    assert Carries(s, token, payload);
  }
}
