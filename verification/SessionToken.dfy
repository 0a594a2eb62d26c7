/** The wizard's session tokens: <payload>.<signature>, bound to a generation and a role. */
module SessionToken {
  import opened Wrappers
  import opened Text
  import opened Clock

  datatype Claims = Claims(sub: string, iat: int, exp: int, jti: string, gen: int, role: string)

  /** JSON, base64url (section 5 of RFC 4648) and HMAC-SHA256 of a secret and a payload, uninterpreted. */
  datatype Scheme = Scheme(
    marshal: Claims -> string,
    unmarshal: string -> Option<Claims>,
    encode: string -> string,
    decode: string -> Option<string>,
    mac: (string, string) -> string)

  predicate LawfulClaims(s: Scheme, c: Claims) {
    s.unmarshal(s.marshal(c)) == Some(c)
  }

  predicate LawfulBytes(s: Scheme, b: string) {
    s.decode(s.encode(b)) == Some(b) && '.' !in s.encode(b)
  }

  ghost predicate Lawful(s: Scheme) {
    (forall c :: LawfulClaims(s, c)) && (forall b :: LawfulBytes(s, b))
  }

  datatype Error = InvalidFormat | InvalidEncoding | InvalidSign | Expired | Invalidated

  datatype Verdict = Valid(claims: Claims) | Invalid(error: Error)

  function Signed(s: Scheme, secret: string, c: Claims): string {
    s.encode(s.marshal(c)) + "." + s.encode(s.mac(secret, s.marshal(c)))
  }

  function ClaimsFor(ttl: nat, gen: int, role: string, nonce: string, now: Instant): Claims {
    Claims("admin", Unix(now), Unix(now + ttl), nonce, gen, role)
  }

  function Create(s: Scheme, secret: string, ttl: nat, gen: int, role: string, nonce: string, now: Instant): string {
    Signed(s, secret, ClaimsFor(ttl, gen, role, nonce, now))
  }

  /** The checks after decoding, in the source's order. */
  function Check(s: Scheme, payload: string, sig: string, secret: string, currentGen: int, now: Instant): Verdict {
    if sig != s.mac(secret, payload) then Invalid(InvalidSign)
    else
      var claims := s.unmarshal(payload);
      if claims.None? then Invalid(InvalidFormat)
      else if currentGen > 0 && claims.value.gen < currentGen then Invalid(Invalidated)
      else if Unix(now) > claims.value.exp then Invalid(Expired)
      else Valid(claims.value)
  }

  function Validate(s: Scheme, token: string, secret: string, currentGen: int, now: Instant): Verdict {
    var i := IndexOfChar(token, '.');
    if i < 0 then Invalid(InvalidFormat)
    else
      var payload, sig := s.decode(token[..i]), s.decode(token[i + 1..]);
      if payload.None? || sig.None? then Invalid(InvalidEncoding)
      else Check(s, payload.value, sig.value, secret, currentGen, now)
  }

  function EffectiveRole(c: Claims): string {
    if c.role == "" then "admin" else c.role
  }

  /** What a login's token says, read back at once under the same key and generation: the subject "admin", the second
      of the login, the expiry, the nonce, the generation and the role, and a token without a role counts as admin's. */
  lemma CreatedClaims(s: Scheme, secret: string, ttl: nat, gen: int, role: string, nonce: string, now: Instant)
    requires Lawful(s)
    ensures var got := Validate(s, Create(s, secret, ttl, gen, role, nonce, now), secret, gen, now);
            && got.Valid?
            && got.claims.sub == "admin" && got.claims.iat == Unix(now) && got.claims.exp == Unix(now + ttl)
            && got.claims.jti == nonce && got.claims.gen == gen && got.claims.role == role
            && EffectiveRole(got.claims) == (if role == "" then "admin" else role)
  {
    UnixMonotone(now, now + ttl);
    ValidateOfSigned(s, secret, ClaimsFor(ttl, gen, role, nonce, now), secret, gen, now);
  }

  /** A created token comes back with its own claims, unless the key, the generation or the clock has moved on. */
  lemma ValidateOfSigned(s: Scheme, secret: string, c: Claims, key: string, currentGen: int, now: Instant)
    requires Lawful(s)
    ensures Validate(s, Signed(s, secret, c), key, currentGen, now) ==
            if s.mac(secret, s.marshal(c)) != s.mac(key, s.marshal(c)) then Invalid(InvalidSign)
            else if currentGen > 0 && c.gen < currentGen then Invalid(Invalidated)
            else if Unix(now) > c.exp then Invalid(Expired)
            else Valid(c)
  {
    var payload := s.marshal(c);
    var sig := s.mac(secret, payload);
    var token := Signed(s, secret, c);
    assert LawfulClaims(s, c) && LawfulBytes(s, payload) && LawfulBytes(s, sig);
    IndexAfterPrefix(s.encode(payload), '.', s.encode(sig));
    assert token == s.encode(payload) + ['.'] + s.encode(sig);
    assert token[..|s.encode(payload)|] == s.encode(payload) && token[|s.encode(payload)| + 1..] == s.encode(sig);
  }
}
