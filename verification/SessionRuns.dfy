/** Sessions over whole runs of configuration updates, edits of the .env file and restarts. */
module SessionRuns {
  import opened Wrappers
  import opened Text
  import opened Decimal
  import opened Clock
  import opened EnvCodec
  import opened EnvFile
  import opened SessionToken
  import opened Session

  datatype Event =
    | Put(body: Env, order: seq<string>)
    | Edit(env: Option<string>)
    | Restart(creds: Creds, secret: string)

  /** A request body may hold anything; the updates that pass are walked in some order. */
  ghost predicate Allowed(e: Event) {
    e.Put? ==> Walks(e.order, e.body)
  }

  ghost predicate AllAllowed(events: seq<Event>) {
    forall i :: 0 <= i < |events| ==> Allowed(events[i])
  }

  function Step(p: Primitives, s: Server, e: Event): Server
    requires Allowed(e)
  {
    match e
    case Put(body, order) => PutStep(p, s, body, order)
    case Edit(env) => s.(env := env)
    case Restart(creds, secret) => StartStep(p, s, creds, secret)
  }

  function Run(p: Primitives, s: Server, events: seq<Event>): Server
    requires AllAllowed(events)
  {
    if events == [] then s
    else Step(p, Run(p, s, events[..|events| - 1]), events[|events| - 1])
  }

  /** The request reaches the file and names a credential. */
  predicate Accepted(s: Server, body: Env) {
    s.env.Some? && Screened(body).Some? && TouchesCreds(body)
  }

  lemma AcceptedTouches(body: Env)
    requires Screened(body).Some?
    ensures TouchesCreds(Screened(body).value) <==> TouchesCreds(body)
  {
    ScreenedKeepsCreds(body, ADMIN);
    ScreenedKeepsCreds(body, TOTP);
    ScreenedKeepsCreds(body, OPERATOR);
    ScreenedKeepsCreds(body, VIEWER);
  }

  /** The events that make every earlier session invalid: an update that names a credential, and a restart
      that finds the hash of other credentials. */
  predicate Bumps(p: Primitives, s: Server, e: Event) {
    match e
    case Put(body, _) => Accepted(s, body)
    case Edit(_) => false
    case Restart(creds, _) => CredentialHash(p, creds) != CredentialHash(p, s.creds)
  }

  function BumpCount(p: Primitives, s: Server, events: seq<Event>): nat
    requires AllAllowed(events)
  {
    if events == [] then 0
    else
      var n := |events| - 1;
      BumpCount(p, s, events[..n]) + (if Bumps(p, Run(p, s, events[..n]), events[n]) then 1 else 0)
  }

  /** The file says what the memory says. */
  predicate Consistent(p: Primitives, s: Server) {
    s.genFile == Some(GenFileText(s.gen, CredentialHash(p, s.creds)))
  }

  lemma AdoptedIsConsistent(gen: nat, stored: string, hash: string)
    requires PlainHash(stored) && gen + 1 < UINT64
    ensures var next := gen + if stored != hash then 1 else 0;
            Adopted(gen, stored, hash, Some(GenFileText(gen, stored))) == (next, Some(GenFileText(next, hash)))
  {
  }

  /** Starting over a generation file that an earlier process wrote makes memory and file agree, and the
      generation goes up exactly when the file names other credentials. */
  lemma StartOverFile(p: Primitives, s: Server, creds: Creds, secret: string, gen: nat, stored: string)
    requires s.genFile == Some(GenFileText(gen, stored)) && PlainHash(stored) && gen + 1 < UINT64
    ensures var s' := StartStep(p, s, creds, secret);
            && Consistent(p, s') && s'.creds == creds && s'.secret == secret && s'.env == s.env
            && s'.gen == gen + if stored != CredentialHash(p, creds) then 1 else 0
  {
    GenFileRoundTrip(gen, stored);
    AdoptedIsConsistent(gen, stored, CredentialHash(p, creds));
  }

  /** The first start writes the file and begins at generation zero. */
  lemma FirstStart(p: Primitives, s: Server, creds: Creds, secret: string)
    requires s.genFile == None
    ensures var s' := StartStep(p, s, creds, secret);
            Consistent(p, s') && s'.gen == 0 && s'.creds == creds && s'.secret == secret && s'.env == s.env
  {
  }

  /** A file that names the present credentials is left as it is, and its generation is taken over. */
  lemma StartOverOwnFile(p: Primitives, s: Server, creds: Creds, secret: string)
    requires ParseGenFile(s.genFile).1 == CredentialHash(p, creds) != ""
    ensures var s' := StartStep(p, s, creds, secret);
            s'.genFile == s.genFile && s'.gen == ParseGenFile(s.genFile).0 && s'.env == s.env && s'.creds == creds
  {
  }

  /** A file without a second line, or whose first is no number, counts as generation zero and no hash, and the start
      writes it anew. */
  lemma StartOverMalformed(p: Primitives, s: Server, creds: Creds, secret: string, text: string)
    requires s.genFile == Some(text)
    requires var t := Trim(text, Unicode);
             '\n' !in t
             || forall first, rest :: t == first + "\n" + rest && '\n' !in first ==> !IsNumber(Trim(first, Unicode))
    ensures var s' := StartStep(p, s, creds, secret);
            Consistent(p, s') && s'.gen == 0 && s'.creds == creds && s'.env == s.env
  {
    var t := Trim(text, Unicode);
    var lines := Split(t, '\n');
    if |lines| >= 2 {
      FirstLine(t);
    }
  }

  /** The decimal digits of a number below 2^64. */
  predicate IsNumber(t: string) {
    ParseUint64(t).Some?
  }

  lemma FirstLine(t: string)
    requires |Split(t, '\n')| >= 2
    ensures '\n' in t && exists rest :: t == Split(t, '\n')[0] + "\n" + rest && '\n' !in Split(t, '\n')[0]
  {
    var lines := Split(t, '\n');
    assert lines[0] in lines;
    var rest := Join(lines[1..], "\n");
    assert t == lines[0] + "\n" + rest;
    assert t[|lines[0]|] == '\n';
  }

  lemma BumpIsConsistent(p: Primitives, s: Server)
    requires s.gen + 1 < UINT64
    ensures Consistent(p, BumpStep(p, s)) && BumpStep(p, s).gen == s.gen + 1
  {
  }

  lemma PutKeeps(p: Primitives, s: Server, body: Env, order: seq<string>)
    requires Consistent(p, s) && s.gen + 1 < UINT64 && Walks(order, body)
    ensures Consistent(p, PutStep(p, s, body, order))
    ensures PutStep(p, s, body, order).gen == s.gen + if Accepted(s, body) then 1 else 0
  {
    if Screened(body).Some? {
      AcceptedTouches(body);
      if Accepted(s, body) {
        BumpIsConsistent(p, ReloadStep(s.(env := Some(Write(s.env.value, Screened(body).value, order)))));
      }
    }
  }

  /** Every step keeps memory and file in agreement, and moves the generation exactly when it should. */
  lemma StepKeeps(p: Primitives, s: Server, e: Event)
    requires LawfulPrimitives(p) && Consistent(p, s) && s.gen + 1 < UINT64 && Allowed(e)
    ensures Consistent(p, Step(p, s, e))
    ensures Step(p, s, e).gen == s.gen + if Bumps(p, s, e) then 1 else 0
  {
    match e
    case Put(body, order) => PutKeeps(p, s, body, order);
    case Edit(_) =>
    case Restart(creds, secret) =>
      assert PlainHash(CredentialHash(p, s.creds));
      StartOverFile(p, s, creds, secret, s.gen, CredentialHash(p, s.creds));
  }

  /** Over every run the generation is the starting one plus the number of bumps, so it never decreases, and
      the file agrees with it. */
  lemma {:induction false} GenerationCountsBumps(p: Primitives, s: Server, events: seq<Event>)
    requires LawfulPrimitives(p) && Consistent(p, s) && AllAllowed(events) && s.gen + |events| < UINT64
    ensures Consistent(p, Run(p, s, events))
    ensures Run(p, s, events).gen == s.gen + BumpCount(p, s, events)
    ensures BumpCount(p, s, events) <= |events|
  {
    if events != [] {
      var n := |events| - 1;
      GenerationCountsBumps(p, s, events[..n]);
      StepKeeps(p, Run(p, s, events[..n]), events[n]);
    }
  }

  lemma {:induction false} BumpCountGrows(p: Primitives, s: Server, events: seq<Event>, i: nat)
    requires AllAllowed(events) && i <= |events|
    ensures AllAllowed(events[..i]) && BumpCount(p, s, events[..i]) <= BumpCount(p, s, events)
  {
    if i < |events| {
      BumpCountGrows(p, s, events[..|events| - 1], i);
      assert events[..|events| - 1][..i] == events[..i];
    } else {
      assert events[..i] == events;
    }
  }

  lemma GenerationNeverDecreases(p: Primitives, s: Server, events: seq<Event>, i: nat)
    requires LawfulPrimitives(p) && Consistent(p, s) && AllAllowed(events) && s.gen + |events| < UINT64 && i <= |events|
    ensures AllAllowed(events[..i]) && Run(p, s, events[..i]).gen <= Run(p, s, events).gen
  {
    BumpCountGrows(p, s, events, i);
    GenerationCountsBumps(p, s, events[..i]);
    GenerationCountsBumps(p, s, events);
  }

  // ---------- which tokens are accepted ----------

  /** A token from a login is admitted later exactly while no bump has happened since, its signature still
      verifies and it has not expired; and then with the role it was created with. */
  lemma TokenAdmittedIff(p: Primitives, s: Server, password: string, code: string, nonce: string, issued: Instant,
                         events: seq<Event>, now: Instant)
    requires LawfulPrimitives(p) && Consistent(p, s) && AllAllowed(events) && s.gen + |events| < INT_MAX
    requires LoginResult(p, s, password, code, nonce, issued).Some?
    ensures var token := LoginResult(p, s, password, code, nonce, issued).value;
            var role := RoleOf(s.creds, password);
            var payload := p.scheme.marshal(ClaimsFor(DAY, TokenGen(s.gen), role, nonce, issued));
            var s' := Run(p, s, events);
            Admitted(p, s', token, now) ==
            if p.scheme.mac(s.secret, payload) == p.scheme.mac(s'.secret, payload) && BumpCount(p, s, events) == 0
               && Unix(now) <= Unix(issued) + 86_400
            then Some(role) else None
  {
    var role := RoleOf(s.creds, password);
    var claims := ClaimsFor(DAY, TokenGen(s.gen), role, nonce, issued);
    var s' := Run(p, s, events);
    GenerationCountsBumps(p, s, events);
    SmallGen(s.gen);
    SmallGen(s'.gen);
    ValidateOfSigned(p.scheme, s.secret, claims, s'.secret, TokenGen(s'.gen), now);
  }

  lemma SmallGen(gen: nat)
    requires gen < INT_MAX
    ensures TokenGen(gen) == gen
  {
  }

  /** Beyond every bound on the number of bumps: a signed, unexpired token is admitted if and only if the
      generation's remainder by 2^63-1 is zero or not above the token's. So at generation 2^63-1 the check is
      off, and after it tokens of small generations come back. */
  lemma AdmittedAtAnyGeneration(p: Primitives, s: Server, c: Claims, now: Instant)
    requires LawfulPrimitives(p)
    ensures var remainder := s.gen % 0x7FFF_FFFF_FFFF_FFFF;
            Admitted(p, s, Signed(p.scheme, s.secret, c), now) ==
            if (remainder == 0 || remainder <= c.gen) && Unix(now) <= c.exp
            then Some(if c.role == "" then "admin" else c.role) else None
  {
    ValidateOfSigned(p.scheme, s.secret, c, s.secret, TokenGen(s.gen), now);
  }

  // ---------- what a credential change does ----------

  /** A restart with another admin password or one-time secret bumps, unless SHA-256 collides or the two
      concatenations around the NUL byte coincide. */
  lemma ChangedCredentialsBump(p: Primitives, s: Server, creds: Creds, secret: string)
    ensures Bumps(p, s, Restart(creds, secret))
       || HashInput(creds) == HashInput(s.creds)
       || (HashInput(creds) != HashInput(s.creds) && p.sha256Hex(HashInput(creds)) == p.sha256Hex(HashInput(s.creds)))
    ensures 0 as char !in creds.admin && 0 as char !in s.creds.admin && HashInput(creds) == HashInput(s.creds) ==>
              creds.admin == s.creds.admin && creds.totp == s.creds.totp
  {
    if NUL !in creds.admin && NUL !in s.creds.admin && HashInput(creds) == HashInput(s.creds) {
      CutAt(creds.admin, NUL, creds.totp);
      CutAt(s.creds.admin, NUL, s.creds.totp);
    }
  }

  /** What the reader finds under a key once the body is written, and otherwise what is in memory. */
  function Followed(body: Env, before: Env, key: string, current: string): string {
    if key in body then ReadBack(body[key]) else if key in before then before[key] else current
  }

  lemma WrittenThenRead(s: Server, body: Env, order: seq<string>, key: string, current: string)
    requires Walks(order, body) && s.env.Some? && Screened(body).Some? && CredKey(key)
    ensures Override(Read(Write(s.env.value, Screened(body).value, order)), key, current)
            == Followed(body, Read(s.env.value), key, current)
  {
    var updates := Screened(body).value;
    ScreenedIsWellFormed(body);
    ScreenedKeepsCreds(body, key);
    ReadAfterWrite(s.env.value, updates, order);
    assert key in body ==> ReadBacks(updates)[key] == ReadBack(body[key]);
  }

  /** What a request that reaches the file and names a credential makes of the four credentials: each follows its
      own key. */
  lemma PutSetsCreds(p: Primitives, s: Server, body: Env, order: seq<string>)
    requires Walks(order, body) && Accepted(s, body)
    ensures var before, after := Read(s.env.value), PutStep(p, s, body, order).creds;
            && after.admin == Followed(body, before, "WIZARD_ADMIN_PASSWORD", s.creds.admin)
            && after.totp == Followed(body, before, "WIZARD_TOTP_SECRET", s.creds.totp)
            && after.operator == Followed(body, before, "WIZARD_OPERATOR_PASSWORD", s.creds.operator)
            && after.viewer == Followed(body, before, "WIZARD_VIEWER_PASSWORD", s.creds.viewer)
  {
    AcceptedTouches(body);
    WrittenThenRead(s, body, order, ADMIN, s.creds.admin);
    WrittenThenRead(s, body, order, TOTP, s.creds.totp);
    WrittenThenRead(s, body, order, OPERATOR, s.creds.operator);
    WrittenThenRead(s, body, order, VIEWER, s.creds.viewer);
  }

  // ---------- what a request does to the file and the sessions ----------

  /** An accepted request starts a new generation, and so ends every session, exactly when it names one of the four
      credentials. */
  lemma BumpsIffCredentialNamed(p: Primitives, s: Server, body: Env, order: seq<string>)
    requires Consistent(p, s) && s.gen + 1 < UINT64 && Walks(order, body) && s.env.Some? && Screened(body).Some?
    ensures PutStep(p, s, body, order).gen == s.gen + 1 <==>
            || "WIZARD_ADMIN_PASSWORD" in body || "WIZARD_OPERATOR_PASSWORD" in body
            || "WIZARD_VIEWER_PASSWORD" in body || "WIZARD_TOTP_SECRET" in body
  {
    PutKeeps(p, s, body, order);
  }

  /** The answer to a request: rejected ones get 400, others 500 if they hold something to write and there is no file to
      write it to, and 200 otherwise; a rejected or failed request, or one with nothing to write, changes nothing. */
  lemma StatusIff(p: Primitives, s: Server, body: Env, order: seq<string>)
    requires Walks(order, body)
    ensures var status := PutStatus(s, Some(body));
            && (status == 400 <==> Screened(body).None?)
            && (status == 500 <==> Screened(body).Some? && s.env.None? && exists k :: k in body && AllowedKey(k))
            && (status == 400 || status == 500 || status == 200)
            && (status != 200 || !(exists k :: k in body && AllowedKey(k)) ==> PutStep(p, s, body, order) == s)
            && PutStatus(s, None) == 400
  {
    if exists k :: k in body && AllowedKey(k) {
      var k :| k in body && AllowedKey(k);
      assert k in Kept(body);
      assert Screened(body).Some? ==> k in Screened(body).value;
    } else {
      assert Kept(body) == map[] && PROFILE !in Kept(body);
    }
  }

  /** What a profile writes: the limits of the wizard, the gateway, OpenClaw, Redis and Postgres in this order. */
  predicate Sized(env: Env, wizard: string, gateway: string, openclaw: string, redis: string, redisMax: string,
                  postgres: string, buffers: string, cache: string) {
    && env.Keys >= LIMIT_KEYS && env["WIZARD_MEM_LIMIT"] == wizard && env["GATEWAY_MEM_LIMIT"] == gateway
    && env["OPENCLAW_MEM_LIMIT"] == openclaw && env["REDIS_MEM_LIMIT"] == redis && env["REDIS_MAXMEMORY"] == redisMax
    && env["POSTGRES_MEM_LIMIT"] == postgres && env["POSTGRES_SHARED_BUFFERS"] == buffers
    && env["POSTGRES_CACHE_SIZE"] == cache
  }

  predicate PlainValue(v: string) {
    v != "" && forall i :: 0 <= i < |v| ==> '0' <= v[i] <= '9' || 'A' <= v[i] <= 'Z' || 'a' <= v[i] <= 'z'
  }

  lemma PlainValueSurvives(v: string)
    requires PlainValue(v)
    ensures ReadBack(v) == v
  {
    RoundTripIff(v);
  }

  lemma LimitsArePlain(wizard: string, gateway: string, openclaw: string, redis: string, redisMax: string,
                       postgres: string, buffers: string, cache: string, k: string)
    requires PlainValue(wizard) && PlainValue(gateway) && PlainValue(openclaw) && PlainValue(redis)
    requires PlainValue(redisMax) && PlainValue(postgres) && PlainValue(buffers) && PlainValue(cache)
    requires k in LIMIT_KEYS
    ensures var env := Limits(wizard, gateway, openclaw, redis, redisMax, postgres, buffers, cache);
            k in env && PlainValue(env[k])
  {
  }

  lemma SmallerIsPlain(profile: string, k: string)
    requires (profile == "small" || profile == "medium") && k in LIMIT_KEYS
    ensures k in Derived(profile).value && PlainValue(Derived(profile).value[k])
  {
    if profile == "small" {
      LimitsArePlain("128M", "256M", "2G", "256M", "128mb", "256M", "128MB", "256MB", k);
    } else {
      LimitsArePlain("128M", "512M", "8G", "512M", "256mb", "1G", "512MB", "1GB", k);
    }
  }

  lemma LargerIsPlain(profile: string, k: string)
    requires (profile == "large" || profile == "very-large") && k in LIMIT_KEYS
    ensures k in Derived(profile).value && PlainValue(Derived(profile).value[k])
  {
    if profile == "large" {
      LimitsArePlain("256M", "1G", "32G", "2G", "1gb", "4G", "2GB", "4GB", k);
    } else {
      LimitsArePlain("256M", "2G", "96G", "4G", "2gb", "8G", "4GB", "8GB", k);
    }
  }

  lemma LimitIsPlain(profile: string, k: string)
    requires Derived(profile).Some? && k in LIMIT_KEYS
    ensures k in Derived(profile).value && PlainValue(Derived(profile).value[k])
  {
    if profile == "small" || profile == "medium" {
      SmallerIsPlain(profile, k);
    } else {
      LargerIsPlain(profile, k);
    }
  }

  lemma ExpandedUpdates(body: Env, k: string)
    requires Screened(body).Some? && PROFILE in body && k in LIMIT_KEYS
    ensures Derived(body[PROFILE]).Some? && k in Derived(body[PROFILE]).value
    ensures k in Screened(body).value && Screened(body).value[k] == Derived(body[PROFILE]).value[k]
  {
    assert AllowedKey(PROFILE) && PROFILE in Kept(body);
    DerivedKeys(body[PROFILE]);
  }

  lemma ProfileTable(profile: string)
    requires Derived(profile).Some?
    ensures var env := Derived(profile).value;
            && (profile == "small" ==> Sized(env, "128M", "256M", "2G", "256M", "128mb", "256M", "128MB", "256MB"))
            && (profile == "medium" ==> Sized(env, "128M", "512M", "8G", "512M", "256mb", "1G", "512MB", "1GB"))
            && (profile == "large" ==> Sized(env, "256M", "1G", "32G", "2G", "1gb", "4G", "2GB", "4GB"))
            && (profile == "very-large" ==> Sized(env, "256M", "2G", "96G", "4G", "2gb", "8G", "4GB", "8GB"))
  {
    DerivedKeys(profile);
  }

  /** A profile's settings all reach the file and are read back from it as they are, whatever the request and the file
      said of them. */
  lemma ProfileReachesFile(p: Primitives, s: Server, body: Env, order: seq<string>, k: string)
    requires Walks(order, body) && s.env.Some? && Screened(body).Some? && "SYSTEM_PROFILE" in body && k in LIMIT_KEYS
    ensures var written := PutStep(p, s, body, order).env;
            && Derived(body["SYSTEM_PROFILE"]).Some? && k in Derived(body["SYSTEM_PROFILE"]).value
            && written.Some? && k in Read(written.value)
            && Read(written.value)[k] == Derived(body["SYSTEM_PROFILE"]).value[k]
  {
    ExpandedUpdates(body, k);
    LimitIsPlain(body[PROFILE], k);
    PlainValueSurvives(Derived(body[PROFILE]).value[k]);
    WrittenKey(p, s, body, order, k);
  }

  lemma WrittenKey(p: Primitives, s: Server, body: Env, order: seq<string>, k: string)
    requires Walks(order, body) && s.env.Some? && Screened(body).Some? && k in Screened(body).value
    ensures var written := PutStep(p, s, body, order).env;
            written.Some? && k in Read(written.value) && Read(written.value)[k] == ReadBack(Screened(body).value[k])
  {
    ScreenedIsWellFormed(body);
    UpdateIsRead(s.env.value, Screened(body).value, order, k);
    PutWrites(p, s, body, order);
  }

  lemma PutWrites(p: Primitives, s: Server, body: Env, order: seq<string>)
    requires Walks(order, body) && s.env.Some? && Screened(body).Some? && Screened(body).value != map[]
    ensures PutStep(p, s, body, order).env == Some(Write(s.env.value, Screened(body).value, order))
  {
  }

  lemma UpdateIsRead(data: string, updates: Env, order: seq<string>, k: string)
    requires WellFormedKeys(updates) && Enumerates(order, updates) && k in updates
    ensures k in Read(Write(data, updates, order)) && Read(Write(data, updates, order))[k] == ReadBack(updates[k])
  {
    ReadAfterWrite(data, updates, order);
    assert k in ReadBacks(updates) && ReadBacks(updates)[k] == ReadBack(updates[k]);
  }

  // ---------- what a request does to the credentials ----------

  /** The value a credential's key gets: sent, or already in the file. */
  predicate Named(body: Env, before: Env, key: string, v: string) {
    if key in body then body[key] == v else key in before && before[key] == v
  }

  /** A value taken from the file comes as it is; one that is sent must survive the codec. */
  predicate Arrives(body: Env, key: string, v: string) {
    key in body ==> Survives(v)
  }

  lemma NamedIsFollowed(body: Env, before: Env, key: string, v: string, current: string)
    requires Named(body, before, key, v)
    ensures Followed(body, before, key, current) == v <==> Arrives(body, key, v)
  {
    if key in body {
      RoundTripIff(v);
    }
  }

  /** After an accepted request the operator password that was sent, or else the one in the file, opens exactly the
      operator role if and only if the codec gives it back, unless it is the admin password too. */
  lemma OperatorPasswordIff(p: Primitives, s: Server, body: Env, order: seq<string>, v: string)
    requires Walks(order, body) && Accepted(s, body) && v != ""
    requires Named(body, Read(s.env.value), "WIZARD_OPERATOR_PASSWORD", v)
    ensures var after := PutStep(p, s, body, order).creds;
            v != after.admin ==>
              (RoleOf(after, v) == "operator" <==> Arrives(body, "WIZARD_OPERATOR_PASSWORD", v))
  {
    PutSetsCreds(p, s, body, order);
    NamedIsFollowed(body, Read(s.env.value), "WIZARD_OPERATOR_PASSWORD", v, s.creds.operator);
  }

  /** The same for the viewer, unless the password is one of a higher role too. */
  lemma ViewerPasswordIff(p: Primitives, s: Server, body: Env, order: seq<string>, v: string)
    requires Walks(order, body) && Accepted(s, body) && v != ""
    requires Named(body, Read(s.env.value), "WIZARD_VIEWER_PASSWORD", v)
    ensures var after := PutStep(p, s, body, order).creds;
            v != after.admin && v != after.operator ==>
              (RoleOf(after, v) == "viewer" <==> Arrives(body, "WIZARD_VIEWER_PASSWORD", v))
  {
    PutSetsCreds(p, s, body, order);
    NamedIsFollowed(body, Read(s.env.value), "WIZARD_VIEWER_PASSWORD", v, s.creds.viewer);
  }

  /** And the one-time secret that was sent, or else the one in the file, is the one in force if and only if the
      codec gives it back: unless it is empty, admin and operator then need a code that is valid for it. */
  lemma OneTimeSecretIff(p: Primitives, s: Server, body: Env, order: seq<string>, v: string)
    requires Walks(order, body) && Accepted(s, body) && Named(body, Read(s.env.value), "WIZARD_TOTP_SECRET", v)
    ensures var s' := PutStep(p, s, body, order);
            && (s'.creds.totp == v <==> Arrives(body, "WIZARD_TOTP_SECRET", v))
            && (Arrives(body, "WIZARD_TOTP_SECRET", v) ==>
                  forall password, code, nonce, now :: RoleOf(s'.creds, password) in {"admin", "operator"} ==>
                    (LoginResult(p, s', password, code, nonce, now).Some?
                     <==> v == "" || (code != "" && p.totpValid(v, code))))
  {
    PutSetsCreds(p, s, body, order);
    NamedIsFollowed(body, Read(s.env.value), "WIZARD_TOTP_SECRET", v, s.creds.totp);
  }

  /** What a request that reaches the file and names a credential makes of the admin password. */
  lemma PutSetsAdmin(p: Primitives, s: Server, body: Env, order: seq<string>)
    requires Walks(order, body) && Accepted(s, body)
    ensures PutStep(p, s, body, order).creds.admin == Followed(body, Read(s.env.value), ADMIN, s.creds.admin)
  {
    PutSetsCreds(p, s, body, order);
  }

  /** After an update of the admin password the new password is the one that was sent if and only if the .env
      codec gives it back. */
  lemma NewPasswordIff(p: Primitives, s: Server, body: Env, order: seq<string>)
    requires Walks(order, body) && Screened(body).Some? && s.env.Some? && ADMIN in body
    ensures var s' := PutStep(p, s, body, order);
            && (s'.creds.admin == body[ADMIN] <==> Survives(body[ADMIN]))
            && (Survives(body[ADMIN]) ==> RoleOf(s'.creds, body[ADMIN]) == "admin")
  {
    PutSetsAdmin(p, s, body, order);
    RoundTripIff(body[ADMIN]);
  }

  /** An edit of the file shows at the next accepted request that leaves the admin password alone, and not before. */
  lemma EditTakesEffect(p: Primitives, s: Server, text: string, body: Env, order: seq<string>)
    requires Walks(order, body) && Accepted(s.(env := Some(text)), body)
    requires ADMIN in Read(text) && ADMIN !in body
    ensures Run(p, s, [Edit(Some(text))]).creds == s.creds && Run(p, s, [Edit(Some(text))]).env == Some(text)
    ensures AllAllowed([Edit(Some(text)), Put(body, order)])
    ensures Run(p, s, [Edit(Some(text)), Put(body, order)]).creds.admin == Read(text)[ADMIN]
  {
    var edit, both := [Edit(Some(text))], [Edit(Some(text)), Put(body, order)];
    assert edit[..0] == [] && both[..1] == edit;
    assert Run(p, s, edit) == s.(env := Some(text));
    PutSetsAdmin(p, s.(env := Some(text)), body, order);
  }

  // ---------- when the empty password logs in ----------

  /** A value that is written bare and consists of nothing but what a reader trims. */
  predicate Blank(v: string) {
    !NeedsQuotes(v) && AllSpace(v, Unicode)
  }

  lemma PairStays(s: string, a: char, b: char, c: char)
    requires s != ""
    ensures ReplacePair(s, a, b, c) != ""
  {
  }

  lemma ReadsBackEmptyIff(v: string)
    ensures ReadBack(v) == "" <==> Blank(v)
  {
    if NeedsQuotes(v) {
      ReadBackQuoted(v);
      PairStays(v, '\\', 'n', '\n');
      PairStays(ReplacePair(v, '\\', 'n', '\n'), '\\', 'r', '\r');
    } else {
      ReadBackPlain(v);
      var a, b := TrimPadding(v, Unicode);
      if AllSpace(v, Unicode) {
        TrimSides(v, "", "", Unicode);
        assert v + "" == v;
      }
    }
  }

  /** An accepted update of the admin password lets the empty password in if and only if its value is blank, and
      such values, the empty one excepted, pass the check of critical keys. */
  lemma BlankPasswordIff(p: Primitives, s: Server, body: Env, order: seq<string>)
    requires Walks(order, body) && Screened(body).Some? && s.env.Some? && ADMIN in body
    ensures RoleOf(PutStep(p, s, body, order).creds, "") == "admin" <==> Blank(body[ADMIN])
    ensures body[ADMIN] != ""
  {
    PutSetsAdmin(p, s, body, order);
    ReadsBackEmptyIff(body[ADMIN]);
    assert CredKey(ADMIN) && ADMIN in CRITICAL_KEYS;
    assert ADMIN in Kept(body);
  }

  const NO_BREAK_SPACE := [0xA0 as char]

  /** A no-break space is such a value. */
  lemma NoBreakSpaceIsAccepted(p: Primitives, s: Server)
    requires s.env.Some?
    ensures var body := map[ADMIN := NO_BREAK_SPACE];
            Screened(body) == Some(body) && Walks([ADMIN], body)
              && RoleOf(PutStep(p, s, body, [ADMIN]).creds, "") == "admin"
  {
    var body := map[ADMIN := NO_BREAK_SPACE];
    assert CredKey(ADMIN) && Kept(body) == body;
    assert PROFILE != ADMIN by {
      assert |PROFILE| != |ADMIN|;
    }
    assert Screened(body) == Some(body);
    BlankPasswordIff(p, s, body, [ADMIN]);
  }

  predicate SetsAdmin(s: Server, e: Event) {
    match e
    case Put(body, _) => Accepted(s, body) && (ADMIN in body || ADMIN in Read(s.env.value))
    case Edit(_) => false
    case Restart(_, _) => true
  }

  /** The events that make the admin password empty: a blank new one, an update of another credential over a file
      that has an empty one, and a start with an empty one. */
  predicate EmptiesAdmin(s: Server, e: Event) {
    match e
    case Put(body, _) =>
      && Accepted(s, body)
      && if ADMIN in body then Blank(body[ADMIN]) else ADMIN in Read(s.env.value) && Read(s.env.value)[ADMIN] == ""
    case Edit(_) => false
    case Restart(creds, _) => creds.admin == ""
  }

  lemma StepEmpties(p: Primitives, s: Server, e: Event)
    requires Allowed(e)
    ensures Step(p, s, e).creds.admin == "" <==> EmptiesAdmin(s, e) || (s.creds.admin == "" && !SetsAdmin(s, e))
  {
    if e.Put? && Screened(e.body).Some? {
      AcceptedTouches(e.body);
      if Accepted(s, e.body) {
        PutSetsAdmin(p, s, e.body, e.order);
        if ADMIN in e.body {
          ReadsBackEmptyIff(e.body[ADMIN]);
        }
      }
    }
  }

  /** What an event does to the admin password. */
  datatype Effect = Empties | Fills | Leaves

  function EffectOf(s: Server, e: Event): Effect {
    if EmptiesAdmin(s, e) then Empties else if SetsAdmin(s, e) then Fills else Leaves
  }

  function Effects(p: Primitives, s: Server, events: seq<Event>): (r: seq<Effect>)
    requires AllAllowed(events)
    ensures |r| == |events|
  {
    if events == [] then []
    else
      var n := |events| - 1;
      Effects(p, s, events[..n]) + [EffectOf(Run(p, s, events[..n]), events[n])]
  }

  /** Effect i empties, and all after it leave the password alone. */
  ghost predicate LastEmpties(effects: seq<Effect>, i: nat) {
    i < |effects| && effects[i].Empties? && forall j :: i < j < |effects| ==> effects[j].Leaves?
  }

  ghost predicate EndsEmpty(effects: seq<Effect>) {
    exists i: nat :: LastEmpties(effects, i)
  }

  lemma EndsEmptySnoc(effects: seq<Effect>, x: Effect)
    ensures EndsEmpty(effects + [x]) <==> x.Empties? || (x.Leaves? && EndsEmpty(effects))
  {
    var all, n := effects + [x], |effects|;
    assert x.Empties? ==> LastEmpties(all, n);
    if EndsEmpty(all) && !x.Empties? {
      var i: nat :| LastEmpties(all, i);
      assert all[n] == x && forall j :: 0 <= j < n ==> effects[j] == all[j];
      assert LastEmpties(effects, i);
    }
    if EndsEmpty(effects) && x.Leaves? {
      var i: nat :| LastEmpties(effects, i);
      assert LastEmpties(all, i);
    }
  }

  /** Over every run from a non-empty admin password, the empty password logs in if and only if the last event that
      set the admin password is one of those that empty it; and it then logs in as admin. */
  lemma {:induction false} EmptyPasswordLogsInIff(p: Primitives, s: Server, events: seq<Event>)
    requires AllAllowed(events) && s.creds.admin != ""
    ensures RoleOf(Run(p, s, events).creds, "") != "" <==> EndsEmpty(Effects(p, s, events))
    ensures RoleOf(Run(p, s, events).creds, "") != "" ==> RoleOf(Run(p, s, events).creds, "") == "admin"
  {
    if events != [] {
      var n := |events| - 1;
      var init, e := Run(p, s, events[..n]), events[n];
      EmptyPasswordLogsInIff(p, s, events[..n]);
      StepEmpties(p, init, e);
      EndsEmptySnoc(Effects(p, s, events[..n]), EffectOf(init, e));
    }
  }

  // ---------- who gets which token ----------

  /** The password is the one configured for the role; operator and viewer need not be configured at all. */
  predicate Opens(c: Creds, password: string, role: string) {
    || (role == "admin" && password == c.admin)
    || (role == "operator" && c.operator != "" && password == c.operator)
    || (role == "viewer" && c.viewer != "" && password == c.viewer)
  }

  function Rank(role: string): nat {
    if role == "admin" then 3 else if role == "operator" then 2 else if role == "viewer" then 1 else 0
  }

  /** Who gets a token: whoever gives the password of some role, with a valid code when a one-time secret is set and
      the password opens a role above the viewer's. */
  lemma LoginIff(p: Primitives, s: Server, password: string, code: string, nonce: string, now: Instant)
    ensures LoginResult(p, s, password, code, nonce, now).Some? <==>
            && (exists role :: Opens(s.creds, password, role))
            && (s.creds.totp == "" || (code != "" && p.totpValid(s.creds.totp, code))
                || (!Opens(s.creds, password, "admin") && !Opens(s.creds, password, "operator")))
  {
    var role := RoleOf(s.creds, password);
    assert role != "" ==> Opens(s.creds, password, role);
  }

  /** With a one-time secret set, nobody but a viewer logs in without a valid code; a token is given only for a
      password of some role, and admits its holder at once with the highest role that password opens. */
  lemma LoginNeedsCode(p: Primitives, s: Server, password: string, code: string, nonce: string, now: Instant)
    requires LawfulPrimitives(p) && s.gen < INT_MAX
    ensures var token := LoginResult(p, s, password, code, nonce, now);
            && (token.Some? && s.creds.totp != "" && !p.totpValid(s.creds.totp, code) ==>
              RoleOf(s.creds, password) == "viewer")
            && (token.Some? ==>
                  var role := Admitted(p, s, token.value, now);
                  role.Some? && Opens(s.creds, password, role.value)
                  && forall other :: Opens(s.creds, password, other) ==> Rank(other) <= Rank(role.value))
  {
    var role := RoleOf(s.creds, password);
    SmallGen(s.gen);
    UnixMonotone(now, now + DAY);
    ValidateOfSigned(p.scheme, s.secret, ClaimsFor(DAY, TokenGen(s.gen), role, nonce, now), s.secret, TokenGen(s.gen),
      now);
  }
}
