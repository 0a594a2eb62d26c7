/** The wizard's credentials and session generation: kept in memory, persisted beside the .env file, and bumped
    when credentials change. */
module Session {
  import opened Wrappers
  import opened Text
  import opened Decimal
  import opened Clock
  import opened EnvCodec
  import opened EnvFile
  import opened SessionToken

  // ---------- the generation file ----------

  const UINT64 := 0x1_0000_0000_0000_0000

  function GenFileText(gen: nat, hash: string): string {
    Print(gen) + "\n" + hash + "\n"
  }

  /** What the file says; zero and no hash when it is missing or malformed. */
  function ParseGenFile(text: Option<string>): (nat, string) {
    if text.None? then (0, "")
    else
      var lines := Split(Trim(text.value, Unicode), '\n');
      if |lines| < 2 then (0, "")
      else
        var g := ParseUint64(Trim(lines[0], Unicode));
        if g.None? then (0, "") else (g.value, Trim(lines[1], Unicode))
  }

  /** What a hash in hexadecimal looks like. */
  predicate PlainHash(hash: string) {
    hash != "" && Trimmed(hash, Unicode) && '\n' !in hash
  }

  lemma PrintIsPlain(n: nat)
    ensures Print(n) != "" && Trimmed(Print(n), Unicode) && '\n' !in Print(n)
  {
  }

  lemma TrimTwoLines(a: string, b: string)
    requires a != "" && Trimmed(a, Unicode) && b != "" && Trimmed(b, Unicode)
    ensures Trim(a + "\n" + b + "\n", Unicode) == a + "\n" + b
  {
    var s := a + "\n" + b;
    assert s[0] == a[0] && s[|s| - 1] == b[|b| - 1];
    assert "" + s + "\n" == a + "\n" + b + "\n";
    TrimPadded("", s, "\n", Unicode);
  }

  /** The generation file gives back what was written to it. */
  lemma GenFileRoundTrip(gen: nat, hash: string)
    requires gen < UINT64 && PlainHash(hash)
    ensures ParseGenFile(Some(GenFileText(gen, hash))) == (gen, hash)
  {
    PrintIsPlain(gen);
    TrimTwoLines(Print(gen), hash);
    assert Join([hash], "\n") == hash && [Print(gen), hash][1..] == [hash];
    assert Join([Print(gen), hash], "\n") == Print(gen) + "\n" + hash;
    SplitOfJoin([Print(gen), hash], '\n');
    ParseUintOfPrint(gen);
    TrimFixesTrimmed(Print(gen), Unicode);
    TrimFixesTrimmed(hash, Unicode);
  }

  lemma TwoPaddedLines(a: string, x: string, b: string, c: string, y: string, d: string)
    requires x != "" && Trimmed(x, Unicode) && y != "" && Trimmed(y, Unicode)
    requires AllSpace(a, Unicode) && AllSpace(d, Unicode)
    ensures Trim((a + x + b) + "\n" + (c + y + d), Unicode) == (x + b) + "\n" + (c + y)
  {
    var s := (x + b) + "\n" + (c + y);
    assert s[0] == x[0] && s[|s| - 1] == y[|y| - 1];
    assert a + s + d == (a + x + b) + "\n" + (c + y + d);
    TrimPadded(a, s, d, Unicode);
  }

  /** Blanks around its two lines do not matter. */
  lemma GenFilePadded(gen: nat, hash: string, a: string, b: string, c: string, d: string)
    requires gen < UINT64 && PlainHash(hash) && '\n' !in b && '\n' !in c
    requires AllSpace(a, Unicode) && AllSpace(b, Unicode) && AllSpace(c, Unicode) && AllSpace(d, Unicode)
    ensures ParseGenFile(Some((a + Print(gen) + b) + "\n" + (c + hash + d))) == (gen, hash)
  {
    PrintIsPlain(gen);
    TwoPaddedLines(a, Print(gen), b, c, hash, d);
    var first, second := Print(gen) + b, c + hash;
    assert Join([second], "\n") == second && [first, second][1..] == [second];
    assert Join([first, second], "\n") == first + "\n" + second;
    SplitOfJoin([first, second], '\n');
    ParseUintOfPrint(gen);
    TrimSides("", Print(gen), b, Unicode);
    TrimSides(c, hash, "", Unicode);
  }

  // ---------- the server's state ----------

  datatype Creds = Creds(admin: string, totp: string, operator: string, viewer: string)

  datatype Server = Server(creds: Creds, secret: string, gen: nat, genFile: Option<string>, env: Option<string>)

  /** SHA-256 in hexadecimal and the check of one-time codes, uninterpreted. */
  datatype Primitives = Primitives(scheme: Scheme, sha256Hex: string -> string, totpValid: (string, string) -> bool)

  ghost predicate LawfulPrimitives(p: Primitives) {
    Lawful(p.scheme) && forall x: string :: PlainHash(p.sha256Hex(x))
  }

  const NUL := 0 as char

  function HashInput(c: Creds): string {
    c.admin + [NUL] + c.totp
  }

  function CredentialHash(p: Primitives, c: Creds): string {
    p.sha256Hex(HashInput(c))
  }

  function Override(env: Env, key: string, old_: string): string {
    if key in env then env[key] else old_
  }

  const ADMIN := "WIZARD_ADMIN_PASSWORD"
  const TOTP := "WIZARD_TOTP_SECRET"
  const OPERATOR := "WIZARD_OPERATOR_PASSWORD"
  const VIEWER := "WIZARD_VIEWER_PASSWORD"

  function Reloaded(c: Creds, env: Env): Creds {
    Creds(Override(env, ADMIN, c.admin), Override(env, TOTP, c.totp),
      Override(env, OPERATOR, c.operator), Override(env, VIEWER, c.viewer))
  }

  predicate TouchesCreds(updates: Env) {
    ADMIN in updates || TOTP in updates || OPERATOR in updates || VIEWER in updates
  }

  // ---------- what an update may contain ----------

  const PROFILE := "SYSTEM_PROFILE"
  const CRITICAL_KEYS := {"AUTH_SECRET", ADMIN}
  const AUTH_KEYS := {
    "OWNER_NAME", "USE_CASE", "AUTH_ENABLED", "AUTH_SECRET", "AUTH_DEFAULT_TTL_HOURS", "AUTH_MAX_TTL_HOURS"}
  const SERVICE_KEYS := {
    "TLS_ENABLED", "TLS_CERT_FILE", "TLS_KEY_FILE", "TLS_PORT", "RATE_LIMIT", "RATE_LIMIT_WINDOW_SEC", PROFILE}
  const ACCOUNT_KEYS := {
    "ANTHROPIC_API_KEY", "OPENAI_API_KEY", "DISCORD_BOT_TOKEN", "TELEGRAM_BOT_TOKEN", "SLACK_BOT_TOKEN",
    "SLACK_APP_TOKEN", "SIGNAL_CLI_PATH"}

  predicate CredKey(k: string) {
    k == ADMIN || k == TOTP || k == OPERATOR || k == VIEWER
  }

  predicate AllowedKey(k: string) {
    CredKey(k) || k in AUTH_KEYS || k in SERVICE_KEYS || k in ACCOUNT_KEYS
  }

  function Limits(wizard: string, gateway: string, openclaw: string, redis: string, redisMax: string,
                  postgres: string, buffers: string, cache: string): Env {
    map["WIZARD_MEM_LIMIT" := wizard, "GATEWAY_MEM_LIMIT" := gateway, "OPENCLAW_MEM_LIMIT" := openclaw,
      "REDIS_MEM_LIMIT" := redis, "REDIS_MAXMEMORY" := redisMax, "POSTGRES_MEM_LIMIT" := postgres,
      "POSTGRES_SHARED_BUFFERS" := buffers, "POSTGRES_CACHE_SIZE" := cache]
  }

  /** The settings a system profile stands for. */
  function Derived(profile: string): Option<Env> {
    if profile == "small" then Some(Limits("128M", "256M", "2G", "256M", "128mb", "256M", "128MB", "256MB"))
    else if profile == "medium" then Some(Limits("128M", "512M", "8G", "512M", "256mb", "1G", "512MB", "1GB"))
    else if profile == "large" then Some(Limits("256M", "1G", "32G", "2G", "1gb", "4G", "2GB", "4GB"))
    else if profile == "very-large" then Some(Limits("256M", "2G", "96G", "4G", "2gb", "8G", "4GB", "8GB"))
    else None
  }

  function Kept(body: Env): Env {
    map k | k in body && AllowedKey(k) :: body[k]
  }

  predicate BlanksCritical(env: Env) {
    exists k :: k in CRITICAL_KEYS && k in env && env[k] == ""
  }

  /** The updates a request body asks for: unknown keys are skipped, an empty critical value or an unknown profile
      rejects the whole request, and a profile is expanded. */
  function Screened(body: Env): Option<Env> {
    var kept := Kept(body);
    if BlanksCritical(kept) then None
    else if PROFILE !in kept then Some(kept)
    else
      var limits := Derived(kept[PROFILE]);
      if limits.None? then None else Some(kept + limits.value)
  }

  function KeptOf(body: Env, keys: seq<string>): Env {
    map k | k in keys && k in body && AllowedKey(k) :: body[k]
  }

  lemma KeptOneMore(body: Env, order: seq<string>, i: nat)
    requires i < |order| && KeysOf(order, body)
    ensures var before, k := KeptOf(body, order[..i]), order[i];
            KeptOf(body, order[..i + 1]) == if AllowedKey(k) then before[k := body[k]] else before
  {
    assert order[..i + 1] == order[..i] + [order[i]];
  }

  lemma AllKept(body: Env, order: seq<string>)
    requires Enumerates(order, body)
    ensures KeptOf(body, order[..|order|]) == Kept(body)
  {
    assert order[..|order|] == order;
  }

  /** A name made of capitals and underscores. */
  predicate PlainName(k: string) {
    k != "" && forall i :: 0 <= i < |k| ==> 'A' <= k[i] <= 'Z' || k[i] == '_'
  }

  lemma PlainNameIsWellFormed(k: string)
    requires PlainName(k)
    ensures WellFormedKey(k)
  {
  }

  lemma CredKeyIsPlain(k: string)
    requires CredKey(k)
    ensures PlainName(k)
  {
  }

  lemma AuthKeyIsPlain(k: string)
    requires k in AUTH_KEYS
    ensures PlainName(k)
  {
  }

  lemma ServiceKeyIsPlain(k: string)
    requires k in SERVICE_KEYS
    ensures PlainName(k)
  {
  }

  lemma AccountKeyIsPlain(k: string)
    requires k in ACCOUNT_KEYS
    ensures PlainName(k)
  {
  }

  lemma AllowedKeyIsPlain(k: string)
    requires AllowedKey(k)
    ensures PlainName(k)
  {
    if CredKey(k) {
      CredKeyIsPlain(k);
    } else if k in AUTH_KEYS {
      AuthKeyIsPlain(k);
    } else if k in SERVICE_KEYS {
      ServiceKeyIsPlain(k);
    } else {
      AccountKeyIsPlain(k);
    }
  }

  const LIMIT_KEYS := {
    "WIZARD_MEM_LIMIT", "GATEWAY_MEM_LIMIT", "OPENCLAW_MEM_LIMIT", "REDIS_MEM_LIMIT", "REDIS_MAXMEMORY",
    "POSTGRES_MEM_LIMIT", "POSTGRES_SHARED_BUFFERS", "POSTGRES_CACHE_SIZE"}

  lemma DerivedKeys(profile: string)
    requires Derived(profile).Some?
    ensures Derived(profile).value.Keys == LIMIT_KEYS
  {
  }

  lemma LimitKeyIsPlain(k: string)
    requires k in LIMIT_KEYS
    ensures PlainName(k)
  {
  }

  lemma LimitIsNoCred(k: string)
    requires k in LIMIT_KEYS
    ensures !CredKey(k)
  {
  }

  /** Whatever the request body, the writer only ever sees keys the .env format can hold. */
  lemma ScreenedIsWellFormed(body: Env)
    requires Screened(body).Some?
    ensures WellFormedKeys(Screened(body).value)
  {
    forall k | k in Screened(body).value
      ensures WellFormedKey(k)
    {
      if k in Kept(body) {
        AllowedKeyIsPlain(k);
      } else {
        DerivedKeys(body[PROFILE]);
        LimitKeyIsPlain(k);
      }
      PlainNameIsWellFormed(k);
    }
  }

  /** A request is rejected for an empty AUTH_SECRET or admin password and for a profile nobody defined, and for
      nothing else. */
  lemma RejectedIff(body: Env)
    ensures Screened(body).None? <==>
            || ("AUTH_SECRET" in body && body["AUTH_SECRET"] == "")
            || ("WIZARD_ADMIN_PASSWORD" in body && body["WIZARD_ADMIN_PASSWORD"] == "")
            || ("SYSTEM_PROFILE" in body && body["SYSTEM_PROFILE"] !in {"small", "medium", "large", "very-large"})
  {
    assert AllowedKey("AUTH_SECRET") && AllowedKey(ADMIN) && AllowedKey(PROFILE);
    assert "AUTH_SECRET" in CRITICAL_KEYS && ADMIN in CRITICAL_KEYS;
    assert "AUTH_SECRET" in Kept(body) <==> "AUTH_SECRET" in body;
    assert ADMIN in Kept(body) <==> ADMIN in body;
    assert PROFILE in Kept(body) <==> PROFILE in body;
  }

  /** The other passwords of the stack cannot be changed: of the keys that begin with REDIS or POSTGRES only the limits
      of a profile are ever written. */
  lemma OtherPasswordsStay(body: Env, k: string)
    requires Screened(body).Some? && k in Screened(body).value && ("REDIS" <= k || "POSTGRES" <= k)
    ensures k in LIMIT_KEYS && PROFILE in body && k !in Kept(body)
  {
    assert 2 <= |k| && (k[0] == 'P' || (k[0] == 'R' && k[1] == 'E'));
    if k in Kept(body) {
      AllowedKeyStarts(k);
    } else {
      DerivedKeys(body[PROFILE]);
    }
  }

  lemma AllowedKeyStarts(k: string)
    requires AllowedKey(k)
    ensures 2 <= |k| && !(k[0] == 'R' && k[1] == 'E') && k[0] != 'P'
  {
  }

  /** Screening passes a credential on as it was sent. */
  lemma ScreenedKeepsCreds(body: Env, k: string)
    requires Screened(body).Some? && CredKey(k)
    ensures k in Screened(body).value <==> k in body
    ensures k in body ==> Screened(body).value[k] == body[k]
  {
    if PROFILE in Kept(body) && k in Derived(body[PROFILE]).value {
      DerivedKeys(body[PROFILE]);
      LimitIsNoCred(k);
    }
  }

  // ---------- the steps ----------

  function NextGen(gen: nat): (r: nat)
    ensures gen + 1 < UINT64 ==> r == gen + 1
  {
    (gen + 1) % UINT64
  }

  function ReloadStep(s: Server): Server {
    if s.env.None? then s else s.(creds := Reloaded(s.creds, Read(s.env.value)))
  }

  function BumpStep(p: Primitives, s: Server): Server {
    var gen := NextGen(s.gen);
    s.(gen := gen, genFile := Some(GenFileText(gen, CredentialHash(p, s.creds))))
  }

  /** The write of an update; `order` is the order in which the map of updates is walked. No updates, no write. */
  function UpdateStep(p: Primitives, s: Server, updates: Env, order: seq<string>): Server
    requires KeysOf(order, updates)
  {
    if updates == map[] || s.env.None? then s
    else
      var written := s.(env := Some(Write(s.env.value, updates, order)));
      if TouchesCreds(updates) then BumpStep(p, ReloadStep(written)) else written
  }

  /** The order walks the map of the updates, if there are any to write. */
  ghost predicate Walks(order: seq<string>, body: Env) {
    Screened(body).Some? ==> Enumerates(order, Screened(body).value)
  }

  /** A configuration request with the given body. */
  function PutStep(p: Primitives, s: Server, body: Env, order: seq<string>): Server
    requires Walks(order, body)
  {
    var updates := Screened(body);
    if updates.None? then s else UpdateStep(p, s, updates.value, order)
  }

  const OK := 200
  const BAD_REQUEST := 400
  const INTERNAL_ERROR := 500

  /** The HTTP status of a configuration request; a body that is not a map of strings is None. */
  function PutStatus(s: Server, body: Option<Env>): nat {
    if body.None? || Screened(body.value).None? then BAD_REQUEST
    else if Screened(body.value).value != map[] && s.env.None? then INTERNAL_ERROR
    else OK
  }

  /** The generation to start from, and the file afterwards. */
  function Adopted(gen: nat, stored: string, hash: string, genFile: Option<string>): (nat, Option<string>) {
    if stored != "" && stored != hash then (NextGen(gen), Some(GenFileText(NextGen(gen), hash)))
    else if stored == "" then (gen, Some(GenFileText(gen, hash)))
    else (gen, genFile)
  }

  /** A new process with credentials and a signing key of its own, and the files it finds. */
  function StartStep(p: Primitives, s: Server, creds: Creds, secret: string): Server {
    var found := ParseGenFile(s.genFile);
    var adopted := Adopted(found.0, found.1, CredentialHash(p, creds), s.genFile);
    Server(creds, secret, adopted.0, adopted.1, s.env)
  }

  function RoleOf(c: Creds, password: string): string {
    if password == c.admin then "admin"
    else if c.operator != "" && password == c.operator then "operator"
    else if c.viewer != "" && password == c.viewer then "viewer"
    else ""
  }

  const INT_MAX := 0x7FFF_FFFF_FFFF_FFFF

  /** The generation as the tokens carry it. */
  function TokenGen(gen: nat): int {
    gen % INT_MAX
  }

  const DAY := 86_400 * SECOND

  /** The token of a login, None when it is refused. */
  function LoginResult(
      p: Primitives, s: Server, password: string, code: string, nonce: string, now: Instant): Option<string> {
    var role := RoleOf(s.creds, password);
    if role == "" then None
    else if s.creds.totp != "" && role != "viewer" && (code == "" || !p.totpValid(s.creds.totp, code)) then None
    else Some(Create(p.scheme, s.secret, DAY, TokenGen(s.gen), role, nonce, now))
  }

  /** The role a token is admitted with, None when it is refused. */
  function Admitted(p: Primitives, s: Server, token: string, now: Instant): Option<string> {
    match Validate(p.scheme, token, s.secret, TokenGen(s.gen), now)
    case Valid(claims) => Some(EffectiveRole(claims))
    case Invalid(_) => None
  }

  // ---------- the object ----------

  /** The two files the wizard keeps, which outlive the process. */
  class Files {
    var env: Option<string>
    var genFile: Option<string>

    constructor (env: Option<string>, genFile: Option<string>)
      ensures this.env == env && this.genFile == genFile
    {
      this.env, this.genFile := env, genFile;
    }
  }

  class Handler {
    const p: Primitives
    const files: Files
    const secret: string
    var adminPassword: string
    var totpSecret: string
    var operatorPassword: string
    var viewerPassword: string
    var sessionGen: nat

    function View(): Server
      reads this, files
    {
      Server(Creds(adminPassword, totpSecret, operatorPassword, viewerPassword), secret, sessionGen, files.genFile,
        files.env)
    }

    constructor (p: Primitives, files: Files, creds: Creds, secret: string)
      ensures this.p == p && this.files == files
      ensures View() == Server(creds, secret, 0, files.genFile, files.env)
    {
      this.p, this.files, this.secret := p, files, secret;
      adminPassword, totpSecret := creds.admin, creds.totp;
      operatorPassword, viewerPassword := creds.operator, creds.viewer;
      sessionGen := 0;
    }

    method ReadSessionGenFile() returns (gen: nat, storedHash: string)
      ensures (gen, storedHash) == ParseGenFile(files.genFile)
    {
      if files.genFile.None? {
        return 0, "";
      }
      var lines := Split(Trim(files.genFile.value, Unicode), '\n');
      if |lines| < 2 {
        return 0, "";
      }
      var g := ParseUint64(Trim(lines[0], Unicode));
      if g.None? {
        return 0, "";
      }
      return g.value, Trim(lines[1], Unicode);
    }

    method WriteSessionGenFile(gen: nat, hash: string)
      modifies files`genFile
      ensures files.genFile == Some(GenFileText(gen, hash))
    {
      files.genFile := Some(Print(gen) + "\n" + hash + "\n");
    }

    method InitSessionGenFromFile()
      modifies this, files`genFile
      ensures View() == StartStep(p, old(View()), old(View().creds), secret)
    {
      var currentHash := p.sha256Hex(adminPassword + [NUL] + totpSecret);
      var gen, storedHash := ReadSessionGenFile();
      Adopt(gen, storedHash, currentHash);
    }

    /** The decision at the end of InitSessionGenFromFile. */
    method Adopt(found: nat, storedHash: string, currentHash: string)
      modifies `sessionGen, files`genFile
      ensures (sessionGen, files.genFile) == Adopted(found, storedHash, currentHash, old(files.genFile))
    {
      var gen := found;
      if storedHash != "" && storedHash != currentHash {
        gen := NextGen(gen);
        WriteSessionGenFile(gen, currentHash);
      } else if storedHash == "" {
        WriteSessionGenFile(gen, currentHash);
      }
      sessionGen := gen;
    }

    method BumpSessionGen()
      modifies this, files`genFile
      ensures View() == BumpStep(p, old(View()))
    {
      sessionGen := NextGen(sessionGen);
      var hash := p.sha256Hex(adminPassword + [NUL] + totpSecret);
      WriteSessionGenFile(sessionGen, hash);
    }

    method ReloadCredsFromEnv()
      modifies this
      ensures View() == ReloadStep(old(View()))
    {
      if files.env.None? {
        return;
      }
      var env := ReadEnvFile(files.env.value);
      if ADMIN in env {
        adminPassword := env[ADMIN];
      }
      if TOTP in env {
        totpSecret := env[TOTP];
      }
      if OPERATOR in env {
        operatorPassword := env[OPERATOR];
      }
      if VIEWER in env {
        viewerPassword := env[VIEWER];
      }
    }

    /** The loop over the request body and the expansion of the profile; `order` walks the body. */
    method Screen(body: Env, order: seq<string>) returns (updates: Option<Env>)
      requires Enumerates(order, body)
      ensures updates == Screened(body)
    {
      var kept: Env := map[];
      var i := 0;
      while i < |order|
        invariant i <= |order| && kept == KeptOf(body, order[..i])
        invariant forall j :: 0 <= j < i ==> !(order[j] in CRITICAL_KEYS && body[order[j]] == "")
      {
        var k := order[i];
        KeptOneMore(body, order, i);
        if AllowedKey(k) {
          if body[k] == "" && k in CRITICAL_KEYS {
            assert k in Kept(body);
            return None;
          }
          kept := kept[k := body[k]];
        }
        i := i + 1;
      }
      AllKept(body, order);
      if PROFILE in kept {
        var derived := Derived(kept[PROFILE]);
        if derived.None? {
          return None;
        }
        return Some(kept + derived.value);
      }
      return Some(kept);
    }

    /** `bodyOrder` and `order` are the orders in which the two maps happen to be walked. */
    method PutConfig(body: Option<Env>, bodyOrder: seq<string>, order: seq<string>) returns (status: nat)
      requires body.Some? ==> Enumerates(bodyOrder, body.value) && Walks(order, body.value)
      modifies this, files
      ensures View() == if body.None? then old(View()) else PutStep(p, old(View()), body.value, order)
      ensures status == PutStatus(old(View()), body)
    {
      if body.None? {
        return BAD_REQUEST;
      }
      var screened := Screen(body.value, bodyOrder);
      if screened.None? {
        return BAD_REQUEST;
      }
      var updates := screened.value;
      if |updates| == 0 {
        assert updates == map[];
        return OK;
      }
      if files.env.None? {
        return INTERNAL_ERROR;
      }
      var text := WriteEnvFile(files.env.value, updates, order);
      files.env := Some(text);
      if ADMIN in updates || TOTP in updates || OPERATOR in updates || VIEWER in updates {
        ReloadCredsFromEnv();
        BumpSessionGen();
      }
      return OK;
    }
  }
}
