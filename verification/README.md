# SafePaw: the gateway's and wizard's stateful logic

This project models the stateful middleware of the SafePaw gateway and the configuration and session state of
its setup wizard, and proves what that code keeps, step by step and over whole runs.

- **Receipt ledger** (`Receipts`, `ReceiptLedger`, `Paging`, `HashChain`, `LedgerFile`, `LedgerRuns`,
  `ConcurrentAppend`): a ring buffer that stands for the tail of an unbounded log, written through to a
  hash-chained file that is rotated, reopened and verified, with appends of many threads interleaving.
- **`.env` reader and writer** (`EnvCodec`, `EnvFile`): a parser and a printer built on sequential replacements.
- **Revocation and bans** (`Token`, `Revocation`, `RevocationRuns`, `BruteForce`, `BanRuns`, `BanGap`): caches in front of an
  expiring Redis store (`Redis`), with cleanups and restarts.
- **Limiters** (`KeyedTable`, `RequestRuns`, `Windows`, `GatewayLimiter`, `WizardLimiter`, `LoginGuard`): per-address tables with
  different window disciplines over one generic table.
- **Stream wrappers** (`TypeTags`, `LedgerReader`, `CaptureWriter`): results that must not depend on how bytes are cut.
- **Routing, sessions, metrics, signatures** (`EndpointConfig`, `EndpointRouting`, `SessionToken`, `Session`,
  `SessionRuns`, `CounterModel`, `ProxySigner`).

`Wrappers`, `Sequences`, `Text`, `Decimal` and `Clock` hold what the components share: Go's string, number and time
operations with their laws. Objects whose methods update their fields are classes whose contracts give the whole
new state as a function of the old one; the lemmas then speak about those functions over all runs. HMAC, SHA-256,
JSON, base64url (section 5 of RFC 4648), risk scanning and one-time codes are function-valued parameters with the
laws used stated as predicates named `Lawful`. Time is an argument of every step.

Verify with `dafny verify dfyconfig.toml`.

## What the code does not keep

Where a promise fails, the code is modelled as it is, a run or an input that shows it is given or follows, and the
condition under which the promise holds is proved; it is exact wherever the member's name ends in Iff.

- A ledger file that is reopened while the current file is missing or empty restarts at the genesis hash although
  rotated segments exist; the chain is intact exactly when nothing is written after such an opening
  (`LedgerRuns.ChainIntactIff`; `LedgerRuns.FailedRotationBreaksChain` breaks any full ledger,
  `LedgerRuns.OrdinaryWritesCanBreak` is a whole run). The comment on `VerifyLedgerFile` speaks of any ledger file,
  but after a rotation the current file alone is rejected (`LedgerRuns.CurrentFileAloneIff`).
- An `.env` value that holds a literal backslash-n or backslash-r pair and needs quotes comes back changed
  (`EnvCodec.RoundTripIff`), and carriage returns of untouched lines are lost (`EnvFile.SecondWriteIff`).
- A revocation is forgotten once the whole seconds of maxTTL have passed, while the validator accepts a token until
  30 seconds after its expiry. A token of full lifetime revoked in the second of its issue comes back at its very
  expiry (`RevocationRuns.ExpiryOutlivesRevocation`); the exact instants are in `RevocationRuns.AlwaysRefusedIff` and
  `RevocationRuns.NeverAdmittedIff`.
- A ban's Redis record outlives the reloaded ban by up to a second, and a success in this gap is forgotten when the
  record is reloaded again (`BanGap.SuccessesInGapAreForgotten`). `BanRuns.StrikesAreExact` says by how much the
  strikes then exceed failures minus successes, and `BanGap.BanIsEarnedByFailures` exactly when they do.
- The header of `bruteforce.go` announces 1, 3, 12 and 48 base lengths for the first, second, third and later bans.
  The code divides strikes, not bans: with a threshold of 5, a ban that runs out and one more failure give 6 strikes
  and the base length again. The announcement holds exactly with a threshold of one (`BruteForce.AsAnnouncedIff`), an
  n-th ban is longer than the first exactly for n above the threshold (`BruteForce.LongerThanFirstIff`), and the sweep
  takes the strikes with the ban (`BruteForce.SweepForgetsStrikes`).
- Cleanup of the login guard shows when the lockout is shorter than the window (`LoginGuard.CleanupUnobservableIff`).
- The wizard's fixed window admits up to 2*limit-1 requests in an interval of one window, not limit
  (`WizardLimiter.BoundIsReached`).
- When appends race, the ring's order may differ from the order of numbers, and then paging by the last number seen
  skips entries (`Paging.PagingCompleteIff`, `ConcurrentAppend.RingOrderMayDiffer`).
- The comment on the ledger promises numbers that are never reset. Each process begins again at 1, so in the file they
  are unique exactly when no second process has appended anything (`ConcurrentAppend.NumbersAreUniqueIff`); one append,
  a restart and one append more write number 1 twice (`ConcurrentAppend.NumberOneTwice`).
- A comment in `WriteEntry` promises to go on with the current file when a rotation fails rather than lose data. The
  line is kept exactly when the new file, or after a failed rename the old one, can be opened; otherwise it is lost with
  every later one until the ledger is opened again (`LedgerRuns.RotationLosesLinesIff`).
- A tool event spread over more than 4097 bytes can be missed (`LedgerReader.DetectionIsChunkProof`).
- The response scanner never sends the handler's status for an empty text body (`CaptureWriter.StatusArrivesIff`).
- A signature more than about 292 years in the future passes the clock check, because the saturated difference has
  no positive counterpart (`ProxySigner.ClockCheckIff`).
- From session generation 2^63-1 on tokens are compared with the generation's remainder by 2^63-1, so older tokens are
  admitted again (`SessionRuns.AdmittedAtAnyGeneration`).
- The check that keeps the admin password from being emptied compares with the empty text only. A password that is
  written bare and trimmed away on reading, such as a single no-break space, passes it, and from then on the empty
  password logs in as admin (`SessionRuns.BlankPasswordIff`, `SessionRuns.NoBreakSpaceIsAccepted`). So does an update of
  another credential over an `.env` file edited to an empty one; `SessionRuns.EmptyPasswordLogsInIff` has every run.

## Model

| member | source | states |
|---|---|---|
| HashChain.VerifyLedgerFile | services/gateway/middleware/receipt_persist.go:187-230 | The verifier counts the longest intact prefix of the non-empty lines and succeeds exactly when that is all of them; its verdict is the unique one `VerdictIsExact` describes |
| HashChain.VerdictIsExact | services/gateway/middleware/receipt_persist.go:187-230 | A verdict of success means the whole file is one chain from genesis; the count is the largest number of leading entries that form a chain, whatever comes after them |
| HashChain.ChainedPointwise | services/gateway/middleware/receipt_persist.go:205-226 | The loop-carried check is the same as: every line decodes and names the hash of the line before it, the first one genesis |
| HashChain.ChainedConcat | services/gateway/middleware/receipt_persist.go:187-230 | Two files read one after the other form a chain exactly when each does, the second from the first one's head hash |
| HashChain.ReadLastHash | services/gateway/middleware/receipt_persist.go:233-257 | Returns the hash of the last non-empty line, genesis when there is none, for every file content |
| HashChain.EmptyLineIsNoEntry | services/gateway/middleware/receipt_persist.go:188-250 | An empty line anywhere in a ledger file is no entry and changes nothing about the others |
| HashChain.Compare | services/gateway/middleware/receipt_persist.go:187-230 | Given two chains that end in the same hash, hands over a proof that they are equal, or two different lines with one hash, or a line hashing to genesis |
| HashChain.TamperEvidence | services/gateway/middleware/receipt_persist.go:187-230 | Two files that verify and end in the same hash hold the same entries, or exhibit a collision or a preimage of genesis |
| LedgerFile.LedgerFile.OpenLedgerFile | services/gateway/middleware/receipt_persist.go:60-92 | Opening recovers the head hash and size from the file found, and creates a missing file; whole new state |
| LedgerFile.LedgerFile.WriteEntry | services/gateway/middleware/receipt_persist.go:96-130 | One write in all outcomes: rotation or its three failures, closed file, marshal or disk failure; hash returned exactly when a line was added |
| LedgerFile.LedgerFile.RotateLocked | services/gateway/middleware/receipt_persist.go:151-183 | Rotation moves the current contents to the rotated segments or leaves them in place, per failing system call |
| LedgerFile.LedgerFile.Close | services/gateway/middleware/receipt_persist.go:133-140 | Closing changes nothing on disk |
| LedgerRuns.DiskHoldsWritten | services/gateway/middleware/receipt_persist.go:96-183 | After every run of writes, closes, reopens, rotations and failures the segments and the current file hold exactly the lines whose writes reported success, in order |
| LedgerRuns.ChainOverRuns | services/gateway/middleware/receipt_persist.go:60-183 | If no opening finds a bare current file while entries exist, the segments and current file are one chain from genesis and the in-memory hash is that of the last line on disk |
| LedgerRuns.ChainIntactIff | services/gateway/middleware/receipt_persist.go:60-183 | For every run the written lines are one chain from genesis if and only if nothing was written after an opening that found the current file missing or empty behind earlier entries (no line hashing to genesis) |
| LedgerRuns.WholeLedgerVerifies | services/gateway/middleware/receipt_persist.go:187-230 | The verifier accepts the concatenated segments and current file and counts exactly the entries written |
| LedgerRuns.CurrentFileAloneIff | services/gateway/middleware/receipt_persist.go:187-230 | In a run without such an opening the verifier accepts the current file alone if and only if it is empty or nothing was rotated away before it (up to a preimage of genesis) |
| LedgerRuns.FailedRotationBreaksChain | services/gateway/middleware/receipt_persist.go:151-183 | Whatever was written before: with the file full, a rotation that fails after the rename, a restart and one more write leave lines that do not verify |
| LedgerRuns.WritesFillFile | services/gateway/middleware/receipt_persist.go:96-130 | Ordinary writes of any receipt reach the rotation size with the file open and every line on disk |
| LedgerRuns.OrdinaryWritesCanBreak | services/gateway/middleware/receipt_persist.go:60-183 | So a complete run from an empty directory, with receipts of any size, ends with a ledger that does not verify |
| LedgerRuns.RotationLosesLinesIff | services/gateway/middleware/receipt_persist.go:100-183 | When a full file is rotated its line is kept if and only if the new file, or after a failed rename the old one, is opened; otherwise it and every later line are lost until the next opening |
| LedgerRuns.SmallFileStays | services/gateway/middleware/receipt_persist.go:96-130 | Below 100 MiB no write rotates, however a rotation would turn out |
| LedgerRuns.FreshAfterRotation | services/gateway/middleware/receipt_persist.go:151-183 | After a successful rotation the full file is the newest segment and the current file holds the new line alone |
| LedgerRuns.OnlyFullFilesRotate | services/gateway/middleware/receipt_persist.go:96-183 | Over every run no file is rotated before it has reached 100 MiB |
| LedgerRuns.CloseLosesEverything | services/gateway/middleware/receipt_persist.go:133-140 | A closed ledger adds no line until it is opened again |
| LedgerRuns.FailedWriteLeaves | services/gateway/middleware/receipt_persist.go:107-125 | A write that fails on the disk, or cannot be marshalled, leaves lines and hash alone |
| LedgerRuns.WrittenLine | services/gateway/middleware/receipt_persist.go:107-130 | A write that reports success has added one line with the receipt's number and the hash of the line before |
| LedgerRuns.LosesEverythingIff | services/gateway/middleware/receipt_persist.go:96-144 | No sequence of operations before the next opening adds a line, if and only if the file is closed |
| LedgerRuns.RotateKeeps | services/gateway/middleware/receipt_persist.go:151-183 | Rotation, successful or not, loses and reorders no line |
| LedgerRuns.LinkedStep | services/gateway/middleware/receipt_persist.go:60-183 | Every operation keeps the chain and the agreement of the in-memory hash with the disk, except an opening over a bare file |
| LedgerRuns.OrphanedStep | services/gateway/middleware/receipt_persist.go:60-130 | After such an opening the next successful write breaks the chain for good |
| ReceiptLedger.Ledger.constructor | services/gateway/middleware/receipt.go:83-91 | A new ledger stands for the empty log; a size that is not positive becomes 10000 |
| ReceiptLedger.Ledger.Append | services/gateway/middleware/receipt.go:118-143 | Appends the stamped receipt (next number, time and cut summary) to the unbounded log the ring stands for, and to the file; numbers are 1, 2, 3 and so on |
| Receipts.StampFits | services/gateway/middleware/receipt.go:119-125 | A stamped receipt has its number, a time and a summary of at most 200 characters that begins as the caller's did; stamping again changes nothing |
| ReceiptLedger.Ledger.PutLocked | services/gateway/middleware/receipt.go:126-132 | The write at the head position adds the entry to the log and keeps the ring its tail |
| ReceiptLedger.PutKeepsTail | services/gateway/middleware/receipt.go:126-132 | A ring holding the last min(n, size) entries of a log holds the last min(n+1, size) of the extended log after one write at the head |
| ReceiptLedger.Ledger.Query | services/gateway/middleware/receipt.go:170-217 | The result is the first `limit` matches, oldest first, of the log's tail |
| ReceiptLedger.MatchingIsFilter | services/gateway/middleware/receipt.go:170-217 | The entries found are exactly those of the tail that satisfy every filter |
| ReceiptLedger.QueryFilters | services/gateway/middleware/receipt.go:158-217 | Filter by filter: every result is newer than the number, no older than the time, and has the request, session, subject and action asked for; without a limit every such entry is returned |
| ReceiptLedger.Ledger.Recent | services/gateway/middleware/receipt.go:220-244 | The result is the last n entries of the log's tail, all of it when n is not positive or too large |
| ReceiptLedger.NewestAt | services/gateway/middleware/receipt.go:228-243 | Counting k back from the head with wrap-around reaches the k newest entries in order |
| ReceiptLedger.RingAdvances | services/gateway/middleware/receipt.go:126-132 | Advancing head and count maps every older index to the slot it was read from before |
| Paging.PagingVisitsAll | services/gateway/middleware/receipt.go:158-217 | Asking again from the last number returned visits every match of an increasing tail exactly once and terminates, for every filter and limit |
| Paging.LivePaging | services/gateway/middleware/receipt.go:118-217 | Paging while sequential appends add and evict: nothing comes twice or out of order, everything returned matches, and once a page is not full, what the reads returned without what has been evicted since is exactly the matches still retained |
| Paging.LedgerTailIsIncreasing | services/gateway/middleware/receipt.go:118-143 | The tail of a sequentially appended ledger is increasing, so paging over it is complete |
| Paging.PagingCompleteIff | services/gateway/middleware/receipt.go:158-217 | Paging without filters is complete for every page size if and only if the ring is in the order of numbers |
| ConcurrentAppend.EveryNumberOnce | services/gateway/middleware/receipt.go:97-143 | In every interleaving of a process that opens whatever earlier runs left, each number up to its last is in exactly one place on each leg of its way: held by a thread or stored in the ring once; then on its way to the file, one line more in it than the earlier lines have, or lost to a failed write. The ring is the last stores, as many as fit, in the order they were made, and the whole file is one chain if no opening was bare |
| ConcurrentAppend.QuiescentLedger | services/gateway/middleware/receipt.go:97-143 | At rest and without failed writes each of 1..LastSeq was stored exactly once and has exactly one line more in the file than earlier runs gave it, the whole file is one chain from genesis if no opening was bare, and the ring holds the last min(LastSeq, size) stores |
| ConcurrentAppend.OnceInFileIff | services/gateway/middleware/receipt.go:97-143 | A number given out is in the file exactly once if and only if no earlier line carries it |
| ConcurrentAppend.NumbersRestart | services/gateway/middleware/receipt.go:59-143 | Over any number of processes on one file, each come to rest without a failed write, a number is in the file once for every process that got as far |
| ConcurrentAppend.NumbersAreUniqueIff | services/gateway/middleware/receipt.go:59-143 | The numbers in the file are unique if and only if at most one of the processes appended anything |
| ConcurrentAppend.NumberOneTwice | services/gateway/middleware/receipt.go:97-143 | Two processes that append one receipt each leave number 1 in the file twice |
| ConcurrentAppend.RingOrderMayDiffer | services/gateway/middleware/receipt.go:118-143 | Two threads can leave a ring of any size from two on out of numerical order, and then paging is incomplete |
| EnvCodec.UnquoteOfEscape | services/wizard/internal/api/envfile.go:49-55 | Reading back a quoted value gives the value with its literal backslash-n and backslash-r pairs turned into line breaks, and nothing else changed |
| EnvCodec.EscapeIsOnePass | services/wizard/internal/api/envfile.go:140-151 | The writer's three passes over the value are one simultaneous substitution |
| EnvCodec.UnescapeQuotes | services/wizard/internal/api/envfile.go:51-53 | The first unescaping pass undoes exactly the quote escapes of any escaped value |
| EnvCodec.UnescapeLineFeeds | services/wizard/internal/api/envfile.go:51-54 | The second pass undoes the line-feed escapes, and also rewrites pairs that were literal |
| EnvCodec.UnescapeReturns | services/wizard/internal/api/envfile.go:51-55 | The third pass does the same for carriage returns |
| EnvCodec.RoundTripIff | services/wizard/internal/api/envfile.go:49-55 | A value survives writing and reading if and only if: quoted, it holds no literal backslash-n or backslash-r pair; unquoted, it has no outer white space and no pair of quotes of its own |
| EnvCodec.EscapeIsOneLine | services/wizard/internal/api/envfile.go:140-151 | A written value never contains a line break |
| EnvCodec.WrittenForm | services/wizard/internal/api/envfile.go:140-151 | A value is written in double quotes if and only if it holds a blank, a line break, a quote or a hash sign, and bare otherwise |
| EnvFile.ReadEnvFile | services/wizard/internal/api/envfile.go:28-59 | The loop computes the map `Read`, of which the lemmas below speak |
| EnvFile.WriteEnvFile | services/wizard/internal/api/envfile.go:101-138 | The loops compute the text `Write` for any iteration order of the update map |
| EnvFile.AssignmentParses | services/wizard/internal/api/envfile.go:28-59 | A written assignment line parses to its key and the value read back |
| EnvFile.PaddedAssignmentParses | services/wizard/internal/api/envfile.go:28-59 | Space around an assignment, its key and its value does not matter, and one pair of quotes is taken off |
| EnvFile.QuotedValueParses | services/wizard/internal/api/envfile.go:28-60 | A value in single or double quotes loses them and has its backslash pairs decoded; without a backslash it is read as it stands between them |
| EnvFile.BareValueParses | services/wizard/internal/api/envfile.go:28-60 | A value without a matching pair of quotes around it is read as it stands |
| EnvFile.DefinesNothingIff | services/wizard/internal/api/envfile.go:35-46 | A line defines nothing if and only if, trimmed, it is empty, a comment, or without a key before its equals sign |
| EnvFile.ReadAfterWrite | services/wizard/internal/api/envfile.go:101-138 | For every file, updates with well-formed keys and iteration order, reading the written file gives the old map overridden by the updates as the codec returns them |
| EnvFile.ReadAfterWriteExact | services/wizard/internal/api/envfile.go:101-138 | The written file says exactly what was asked if and only if every value survives the codec |
| EnvFile.UntouchedLinesStay | services/wizard/internal/api/envfile.go:101-138 | Comments, blank and malformed lines and other assignments keep their text and place, up to a trailing carriage return |
| EnvFile.SecondWriteIff | services/wizard/internal/api/envfile.go:101-138 | Writing the same updates again changes nothing if and only if no untouched line ends in a carriage return, for any two iteration orders |
| Token.SplitTokenLoop | services/gateway/middleware/auth.go:445-460 | The index loop accepts exactly what `SplitTokenIff` describes |
| Token.SplitTokenIff | services/gateway/middleware/auth.go:445-460 | A token splits if and only if it has one dot with something on both sides, and then into those two parts |
| Token.ValidateOfSigned | services/gateway/middleware/auth.go:128-226 | A signed token is accepted, with its own claims, if and only if it names a subject and a scope and at most 30 seconds have passed since its expiry |
| Token.CreatedClaims | services/gateway/middleware/auth.go:123-177 | A created token claims its subject, the current second, the whole seconds of its lifetime and its scope or "ws"; without a subject or beyond the maximum lifetime none is created |
| Token.AcceptedIsSigned | services/gateway/middleware/auth.go:179-226 | Whatever is accepted carries the mac of its own payload |
| Revocation.RevocationList.constructor | services/gateway/middleware/revocation.go:65-91 | A new list is empty in front of the Redis store it finds |
| Revocation.RevocationList.Revoke | services/gateway/middleware/revocation.go:94-118 | Whole new state of memory and Redis, a later revocation standing |
| Revocation.RevocationList.IsRevoked | services/gateway/middleware/revocation.go:122-141 | Verdict and cache after a lookup in memory, then Redis |
| Revocation.RevocationList.CheckRedis | services/gateway/middleware/revocation.go:143-174 | A Redis answer is cached with the expiry computed from its own revocation second |
| Revocation.RevocationList.CleanUp | services/gateway/middleware/revocation.go:183-194 | The sweep removes exactly the entries past their expiry |
| Revocation.DecodeOfEncode | services/gateway/middleware/revocation.go:111-113 | The value stored in Redis decodes to the revocation second and the whole reason, bars included |
| Revocation.RevokedFor | services/gateway/middleware/revocation.go:94-141 | The later of two revocations stands in whatever order they arrive, and its reason is the one answered; without Redis nothing is written to it |
| Revocation.ReasonOutlivesRestart | services/gateway/middleware/revocation.go:94-174 | With Redis the reason is answered after a restart as long as the record lasts |
| Revocation.CheckRemembers | services/gateway/middleware/revocation.go:122-174 | What a check has found stays in memory when Redis drops the record |
| Revocation.SweptIff | services/gateway/middleware/revocation.go:183-194 | A sweep drops exactly the entries past their expiry |
| RevocationRuns.RevokedStaysRefused | services/gateway/middleware/revocation.go:94-194 | A token issued no later than the revocation second with ttl at most maxTTL is refused at every instant until its expiry, in every run of revocations, checks, cleanups and restarts (with Redis, or without restarts) |
| RevocationRuns.RefusedHasReason | services/gateway/middleware/revocation.go:94-194 | Every refusal traces to a revocation of that subject in the run at or after the token's second, so later tokens are never refused by earlier revocations |
| RevocationRuns.RevokedTokenNotAdmitted | services/gateway/middleware/auth.go:263-364 | The same at the middleware: a validly signed, unexpired token of a revoked subject is answered with the revocation error |
| RevocationRuns.AuthenticateOfSigned | services/gateway/middleware/auth.go:297-333 | A signed token is rejected as invalid, as revoked or for its scope, in this order, or let through, each exactly under its condition: a route that asks for no scope takes every one, and admin is enough for every route |
| RevocationRuns.AllowedIsSigned | services/gateway/middleware/auth.go:297-333 | Whatever token is let through carries its own mac, and its payload meets the same conditions |
| RevocationRuns.AlwaysRefusedIff | services/gateway/middleware/revocation.go:94-194 | With Redis, a token issued no later than the revocation is refused in every continuation of the run if and only if the whole seconds of maxTTL since the revocation have not passed |
| RevocationRuns.AlwaysRefusedInMemoryIff | services/gateway/middleware/revocation.go:94-194 | Without Redis, such a token is refused in every continuation without restarts if and only if maxTTL since the revocation has not passed |
| RevocationRuns.CheckBringsBack | services/gateway/middleware/revocation.go:94-194 | A check after a restart brings the revocation back into memory, which then refuses also after the record has lapsed |
| RevocationRuns.NeverAdmittedIff | services/gateway/middleware/auth.go:206-364 | At the middleware: such a token is kept out of every continuation if and only if that record has not lapsed or the 30-second skew after the token's expiry is over |
| RevocationRuns.ExpiryOutlivesRevocation | services/gateway/middleware/auth.go:211-216 | A run without a restart in which a revoked token of full lifetime is admitted again at its very expiry, before any skew |
| GatewayLimiter.RateLimiter.Allow | services/gateway/middleware/security.go:184-207 | Decision and new table for the global limiter |
| GatewayLimiter.RateLimiter.CleanUp | services/gateway/middleware/security.go:209-219 | The sweep as the table step the lemmas are about |
| GatewayLimiter.EndpointBucket.Allow | services/gateway/middleware/security.go:244-264 | Decision, Retry-After and new table for an endpoint bucket |
| GatewayLimiter.EndpointBucket.CleanUp | services/gateway/middleware/security.go:266-274 | The sweep as the table step the lemmas are about |
| GatewayLimiter.SweepExpired | services/gateway/middleware/security.go:212-218 | The loop over the map keeps exactly the records seen within the window |
| KeyedTable.AnswersAreSolo | services/gateway/middleware/security.go:184-274 | In a table of any lawful discipline each address gets the answers it would get alone, without cleanups |
| KeyedTable.CleanupIsInvisible | services/gateway/middleware/security.go:209-274 | Two runs with the same calls of an address give it the same answers, wherever cleanups and other addresses come in |
| GatewayLimiter.EndpointIsLawful | services/gateway/middleware/security.go:244-274 | The endpoint bucket's sweep only removes records whose absence no later call can tell |
| GatewayLimiter.GlobalIsLawful | services/gateway/middleware/security.go:184-219 | The same for the global limiter |
| GatewayLimiter.SweptIff | services/gateway/middleware/security.go:209-274 | A sweep drops exactly the records whose quiet window is over |
| GatewayLimiter.AtMostLimitPerWindow | services/gateway/middleware/security.go:184-264 | For any calls in order, at most max(limit, 1) are admitted in every closed interval of one window length |
| RequestRuns.SharedIsAlone | services/gateway/middleware/security.go:184-274 | In a table of any lawful discipline a client is admitted at exactly the times it would be admitted alone, whatever other clients and cleanups come in |
| GatewayLimiter.SharedRunBound | services/gateway/middleware/security.go:184-219 | The same bound inside any shared run of the global limiter with other addresses and cleanups |
| GatewayLimiter.BucketRunBound | services/gateway/middleware/security.go:244-274 | The same bound inside any shared run of an endpoint bucket |
| GatewayLimiter.RefusedIffBlocked | services/gateway/middleware/security.go:184-264 | A request is refused if and only if the last `limit` admissions form an unbroken chain of gaps within the window that still reaches now |
| GatewayLimiter.RetryAfterSuffices | services/gateway/middleware/security.go:253-264 | A refused client that waits the advertised seconds is admitted next, and the wait overshoots the quiet period by at most one second |
| GatewayLimiter.AdviceOnAdmission | services/gateway/middleware/security.go:244-264 | An admission comes with the window in whole seconds |
| EndpointRouting.SortByLength | services/gateway/middleware/security.go:296-303 | The in-place exchange sort ends in descending prefix length with every entry occurring as often as before |
| EndpointRouting.EndpointRateLimiter.constructor | services/gateway/middleware/security.go:291-335 | The buckets stand for the sorted permutation of the configured limits |
| EndpointRouting.EndpointRateLimiter.Match | services/gateway/middleware/security.go:343-350 | The loop finds the bucket of the first matching entry, none exactly when there is no match |
| EndpointRouting.FirstMatchIsLongest | services/gateway/middleware/security.go:343-350 | In a sorted list the first match is a longest match |
| EndpointRouting.RoutingIsLongestPrefix | services/gateway/middleware/security.go:291-350 | Whatever order the limits are configured in, a path goes to a configured prefix that no other matching prefix exceeds, and to none if and only if none matches |
| EndpointRouting.SwapIsPermutation | services/gateway/middleware/security.go:299-301 | An exchange keeps the number of occurrences of every entry |
| EndpointRouting.SwapKeepsSorted | services/gateway/middleware/security.go:297-303 | An exchange inside a pass keeps the sorted front and makes the current entry the longest seen |
| EndpointConfig.IndexOf | services/gateway/config/config.go:260-267 | The first occurrence of a substring, negative exactly when there is none |
| EndpointConfig.SplitString | services/gateway/config/config.go:246-258 | The parts rejoin to the input and none contains the separator, for any non-empty separator |
| EndpointConfig.SplitIsUnique | services/gateway/config/config.go:246-258 | For a one-character separator there is only one such splitting |
| EndpointConfig.TrimSpace | services/gateway/config/config.go:269-279 | The two index loops strip exactly the outer spaces, tabs and line breaks |
| EndpointConfig.SplitAndTrim | services/gateway/config/config.go:234-243 | The trimmed non-empty parts, in order |
| EndpointConfig.ParseLimits | services/gateway/config/config.go:174-196 | The entries of the text in order, malformed ones skipped |
| EndpointConfig.RenderRoundTripIff | services/gateway/config/config.go:174-196 | A list of limits survives being written as prefix=limit;... and parsed if and only if every prefix is non-empty, trimmed and free of = and ; and every limit is positive and fits an int64 |
| EndpointConfig.PartIsWellFormed | services/gateway/config/config.go:180-195 | Whatever entry the parser accepts is well formed in that sense |
| EndpointConfig.ParsePartIff | services/gateway/config/config.go:174-206 | An entry is accepted if and only if it is a prefix, an equals sign and a positive number with nothing but blanks around them |
| EndpointConfig.EntryInContext | services/gateway/config/config.go:174-206 | An accepted entry adds its limit in its place, and a malformed one leaves the entries before and after it alone |
| EndpointConfig.ParseOfPadded | services/gateway/config/config.go:180-195 | Blanks around an entry, its prefix and its number do not matter |
| EndpointRouting.ParseEndpointLimits | services/gateway/config/config.go:174-205 | The parsed entries sorted by descending prefix length, none lost or added |
| WizardLimiter.RateLimiter.Allow | services/wizard/internal/middleware/middleware.go:261-274 | Decision and new table for the fixed-window limiter |
| WizardLimiter.RateLimiter.CleanUp | services/wizard/internal/middleware/middleware.go:276-286 | The sweep as the table step the lemmas are about |
| WizardLimiter.FixedIsLawful | services/wizard/internal/middleware/middleware.go:261-286 | Cleanup of the wizard limiter is invisible to every address |
| WizardLimiter.SweptIff | services/wizard/internal/middleware/middleware.go:276-286 | A sweep drops exactly the records whose window is over |
| WizardLimiter.RecordMeaning | services/wizard/internal/middleware/middleware.go:261-274 | The record counts every call of the window it starts, refused ones included |
| WizardLimiter.RefusedIff | services/wizard/internal/middleware/middleware.go:261-274 | A call is refused if and only if the window begun at the recorded call is still running and has seen limit calls |
| WizardLimiter.FewerThanTwiceLimit | services/wizard/internal/middleware/middleware.go:261-274 | At most 2*max(limit,1)-1 calls are admitted in any closed interval of one window length |
| WizardLimiter.SharedRunBound | services/wizard/internal/middleware/middleware.go:261-286 | The same bound inside any shared run with other addresses and cleanups |
| WizardLimiter.BoundIsReached | services/wizard/internal/middleware/middleware.go:261-274 | For every limit and window a run admits that many |
| LoginGuard.LoginGuard.RecordFailure | services/wizard/internal/middleware/middleware.go:348-365 | Lock decision and new table after a failed login |
| LoginGuard.LoginGuard.IsLockedOut | services/wizard/internal/middleware/middleware.go:373-387 | Answer and remaining time, and the record dropped when a lock has passed |
| LoginGuard.LoginGuard.ResetIP | services/wizard/internal/middleware/middleware.go:390-394 | A success forgets the address and no other |
| LoginGuard.LoginGuard.CleanUp | services/wizard/internal/middleware/middleware.go:396-409 | The sweep as the table step the lemmas are about |
| LoginGuard.LockLasts | services/wizard/internal/middleware/middleware.go:348-409 | A lock lasts exactly lockoutDuration from the failure that set it, through any number of checks, cleanups and calls of other addresses |
| LoginGuard.RecordMeaning | services/wizard/internal/middleware/middleware.go:348-394 | The record counts exactly the failures since the one that opened its window, none of them later than the window allows and no reset between |
| LoginGuard.LocksIff | services/wizard/internal/middleware/middleware.go:348-365 | A failure locks if and only if it is at least the maxAttempts-th since the failure that opened its window |
| LoginGuard.GuardIsLawful | services/wizard/internal/middleware/middleware.go:348-409 | With lockoutDuration at least the window the sweep is invisible |
| LoginGuard.SweptIff | services/wizard/internal/middleware/middleware.go:396-409 | A sweep drops exactly the records of locks that are over and, of addresses not locked, those whose window is over |
| LoginGuard.CleanupUnobservableIff | services/wizard/internal/middleware/middleware.go:396-409 | Cleanups can never be noticed if and only if lockoutDuration is at least the window (for two or more attempts) |
| BruteForce.BruteForceGuard.constructor | services/gateway/middleware/bruteforce.go:56-85 | A new guard has no strikes in front of the Redis store it finds |
| BruteForce.BruteForceGuard.RecordFailure | services/gateway/middleware/bruteforce.go:88-111 | New strikes, ban and Redis record after a failure; banned exactly from the threshold on |
| BruteForce.BruteForceGuard.IsBanned | services/gateway/middleware/bruteforce.go:114-141 | Answer, reason and remaining time, with a ban found in Redis cached |
| BruteForce.BruteForceGuard.Decrement | services/gateway/middleware/bruteforce.go:154-166 | A success takes one strike; at zero the entry and its record go |
| BruteForce.BruteForceGuard.Reset | services/gateway/middleware/bruteforce.go:144-149 | The address is forgotten in memory and Redis |
| BruteForce.BruteForceGuard.CleanUp | services/gateway/middleware/bruteforce.go:182-192 | Exactly the entries whose ban has run out are removed |
| BruteForce.BruteForceGuard.LoadBan | services/gateway/middleware/bruteforce.go:273-294 | The entry in Redis, none when absent, expired, empty or malformed |
| BruteForce.EscalationIsMonotone | services/gateway/middleware/bruteforce.go:168-180 | More strikes never shorten a ban, which stays between one and 48 base lengths |
| BruteForce.EscalationRanges | services/gateway/middleware/bruteforce.go:168-180 | Strikes below twice the threshold give the base length, below three times three of it, below four times twelve, and from there on 48 |
| BruteForce.NthBan | services/gateway/middleware/bruteforce.go:88-111 | With nothing taking strikes away the failure number threshold + n - 1 bans for the n-th time, for the length of that many strikes |
| BruteForce.LongerThanFirstIff | services/gateway/middleware/bruteforce.go:168-180 | That n-th ban is longer than the first if and only if n exceeds the threshold |
| BruteForce.AsAnnouncedIff | services/gateway/middleware/bruteforce.go:12-16 | The announced lengths of the first, second, third and later bans are kept if and only if the threshold is one |
| BruteForce.SweepForgetsStrikes | services/gateway/middleware/bruteforce.go:182-192 | The sweep of a ban that has run out takes the strikes with it, so the next failure is the first again |
| BruteForce.BanAnswer | services/gateway/middleware/bruteforce.go:88-141 | A failure that reaches the threshold bans for the length its strikes call for: until then the answer is yes with its reason and the time left, and no from then on |
| BruteForce.SweptIff | services/gateway/middleware/bruteforce.go:182-192 | A sweep removes exactly the entries whose ban has ended before |
| BruteForce.WithoutRedis | services/gateway/middleware/bruteforce.go:88-170 | Without Redis no operation touches it |
| BruteForce.SuccessUndoesFailure | services/gateway/middleware/bruteforce.go:88-166 | A success undoes a failure that did not ban |
| BruteForce.ResetForgets | services/gateway/middleware/bruteforce.go:144-149 | After a reset nothing is known about the address in memory or Redis |
| BruteForce.ResetSparesOthers | services/gateway/middleware/bruteforce.go:144-149 | A reset changes nothing that is known about any other address |
| BruteForce.DecodeOfEncode | services/gateway/middleware/bruteforce.go:262-294 | A stored ban comes back with strikes and reason intact and its times cut to whole seconds |
| BanRuns.BanEndsExactly | services/gateway/middleware/bruteforce.go:114-141 | Through any events but restarts an active ban's entry is untouched, every non-exempt request of the address is refused, and it is banned at a later instant if and only if that lies before bannedAt + duration |
| BanRuns.BanIsPersisted | services/gateway/middleware/bruteforce.go:262-270 | With a base ban of at least a second every ban is in Redis with a life of its whole seconds |
| BanRuns.BanSurvivesRestarts | services/gateway/middleware/bruteforce.go:114-294 | A ban written to Redis holds through any mix of requests, cleanups and restarts: every request of the address before its end is refused, and it is banned at a later instant if and only if the end is not reached; after a restart that end is earlier by less than two seconds, by less than one for whole-second lengths |
| BanRuns.CleanUpForgets | services/gateway/middleware/bruteforce.go:182-192 | In the course of a run a cleanup takes exactly the entries whose ban has ended before |
| BanRuns.StrikesAreExact | services/gateway/middleware/bruteforce.go:88-294 | In every run the strikes of an address are its failures minus its successes since its record was created, plus the successes that reloads from Redis have forgotten; the creation is the lookup that found neither entry nor live record, and every later lookup found one |
| BanGap.BanIsEarnedByFailures | services/gateway/middleware/bruteforce.go:114-141 | Whenever an address is banned its strikes reach the threshold and satisfy that equation, and something was forgotten if and only if a success slipped past the live Redis record and the next event to touch the record reloaded it |
| BanGap.MarksTrack | services/gateway/middleware/bruteforce.go:88-294 | In every run the successes a live Redis record has not seen, and those that reloads have forgotten, are positive exactly when the order of creations, reloads, writes and late successes says so |
| BanGap.BanIsEarnedSinceCreation | services/gateway/middleware/bruteforce.go:88-294 | Without a success in the gap nothing is forgotten: the failures of a banned address exceed its successes since its record was created by exactly its strikes, at least the threshold |
| BanGap.NoRestartNoGap | services/gateway/middleware/bruteforce.go:88-192 | Without restarts no success ever falls into the gap |
| BanGap.SuccessesInGapAreForgotten | services/gateway/middleware/bruteforce.go:273-294 | A run with restarts that ends banned although since no moment of it, the creation of the record included, failures exceeded successes by the threshold |
| TypeTags.TagInContext | services/gateway/middleware/tool_parser.go:44-50 | A tag found in a piece of the stream is found in every longer piece |
| TypeTags.HasTagIff | services/gateway/middleware/tool_parser.go:44-50 | A tag is found exactly where the key type, a colon and the word in quotes stand with only blanks around the colon |
| LedgerReader.LedgerReader.Read | services/gateway/middleware/tool_parser.go:80-86 | The bytes come through unchanged, the carryover is the last min(4096, total) bytes of the whole stream, and the ledger gets the receipts of the window |
| LedgerReader.LedgerReader.ProcessChunk | services/gateway/middleware/tool_parser.go:91-157 | The carryover afterwards and the receipts appended, in order, with the ledger's file |
| LedgerReader.CarriedAdvances | services/gateway/middleware/tool_parser.go:94-109 | Keeping the last 4096 bytes of carryover and chunk is keeping the last 4096 of the stream |
| LedgerReader.DetectedIsInStream | services/gateway/middleware/tool_parser.go:111-157 | Nothing is recorded about a stream that has no match as a whole |
| LedgerReader.ShortMatchIsDetected | services/gateway/middleware/tool_parser.go:91-157 | Every match of at most 4097 bytes is seen by some read, for every way of cutting the stream |
| LedgerReader.DetectionIsChunkProof | services/gateway/middleware/tool_parser.go:78-157 | A match is noticed for every way of cutting the stream if and only if the stream has one of at most 4097 bytes |
| LedgerReader.TraceHasAction | services/gateway/middleware/tool_parser.go:111-157 | A stream gets a tool_call, tool_result or agent_text receipt if and only if some window calls for it |
| LedgerReader.TraceStream | services/gateway/middleware/tool_parser.go:80-157 | Reading a whole stream passes every chunk on unchanged and leaves the ledger and its file as the receipts of all windows in order make them |
| LedgerReader.StreamLeavesAction | services/gateway/middleware/tool_parser.go:78-157 | After a whole stream the ledger has gained a receipt of an action if and only if some window calls for one; a match of at most 4097 bytes is enough, however the stream was cut |
| LedgerReader.SourcePatternsAreUnanchored | services/gateway/middleware/tool_parser.go:43-50 | The source's type patterns satisfy the law the other lemmas use |
| LedgerReader.SourceWindow | services/gateway/middleware/tool_parser.go:38-157 | Which receipts a window yields under the source's patterns and in which order, that each belongs to the stream's request, session and subject, and what it says of the tool |
| CaptureWriter.CapturingWriter.WriteHeader | services/gateway/middleware/output_scanner.go:250-259 | Whole new state of writer and client after a status |
| CaptureWriter.CapturingWriter.Write | services/gateway/middleware/output_scanner.go:261-285 | The same after a write: buffered, flushed with the buffer, or passed through |
| CaptureWriter.CapturingWriter.Finish | services/gateway/middleware/output_scanner.go:206-236 | What the scanner sends once the handler has returned |
| CaptureWriter.OutputScanner | services/gateway/middleware/output_scanner.go:195-238 | The whole exchange for a handler with at most one status and any writes |
| CaptureWriter.WrittenIsAfter | services/gateway/middleware/output_scanner.go:250-285 | Where the writer stands depends only on the concatenation of the writes, not on their boundaries |
| CaptureWriter.ResponseIsChunkProof | services/gateway/middleware/output_scanner.go:195-285 | For every cutting of a non-empty body the client gets one header with the handler's status and exactly the body, or its sanitised form when scanned with high risk; it is scanned if and only if the type is scannable and the total within the limit |
| CaptureWriter.ScannedResponse | services/gateway/middleware/output_scanner.go:195-284 | A text response within the limit, however it is written, reaches the client sanitized at high risk and as it is at every lower one, under the handler's status, with its risk and length announced and every other header unchanged |
| CaptureWriter.UnscannedResponse | services/gateway/middleware/output_scanner.go:195-284 | Any other response reaches the client as the handler wrote it |
| CaptureWriter.BufferIsBounded | services/gateway/middleware/output_scanner.go:271-284 | The buffer never holds more than maxScan bytes |
| CaptureWriter.ContentLengthIsBody | services/gateway/middleware/output_scanner.go:231-236 | The length announced with a scanned body is that of the body sent, cleaned or not |
| CaptureWriter.ScannableIff | services/gateway/middleware/output_scanner.go:287-297 | A content type is scannable if and only if it mentions json or text/ and not html, in any case of letters |
| CaptureWriter.StatusArrivesIff | services/gateway/middleware/output_scanner.go:250-301 | The client gets the handler's status if and only if it is 200, the body is non-empty, the type is not scannable, or an empty write meets a negative limit |
| SessionToken.ValidateOfSigned | services/wizard/internal/session/session.go:59-131 | A created token is judged by key, generation and clock in this order, and valid it returns its own claims |
| SessionToken.CreatedClaims | services/wizard/internal/session/session.go:59-131 | A new token says subject admin, its second, expiry, nonce, generation and role, and one without a role counts as admin's |
| Session.GenFileRoundTrip | services/wizard/internal/api/handler.go:171-204 | The generation file gives back the generation and hash written to it |
| Session.GenFilePadded | services/wizard/internal/api/handler.go:171-188 | Blanks around the two lines of the generation file do not matter |
| Session.Handler.constructor | services/wizard/internal/api/handler.go:73-81 | A new process starts from its own credentials and key and the files it finds |
| Session.Handler.ReadSessionGenFile | services/wizard/internal/api/handler.go:171-188 | Generation and hash, zero and empty when missing or malformed |
| Session.Handler.WriteSessionGenFile | services/wizard/internal/api/handler.go:191-204 | The file holds the two lines |
| Session.Handler.InitSessionGenFromFile | services/wizard/internal/api/handler.go:208-228 | Memory and file after a start, for every file content |
| Session.Handler.BumpSessionGen | services/wizard/internal/api/handler.go:232-242 | One more generation, persisted with the hash of the credentials now in memory |
| Session.Handler.ReloadCredsFromEnv | services/wizard/internal/api/handler.go:131-151 | Each credential follows the .env file if it is there and stays otherwise |
| Session.Handler.Screen | services/wizard/internal/api/handler_config.go:87-118 | The loop over the body and the expansion: in any order unknown keys are skipped, an empty critical value or an unknown profile rejects the request, and a profile adds its eight settings |
| Session.Handler.PutConfig | services/wizard/internal/api/handler_config.go:80-148 | A whole configuration request: status 400 and nothing changed for a malformed or rejected body, 200 and nothing changed without updates, 500 when the file cannot be written, else the file written, then reloaded and bumped when the updates name a credential |
| Session.ScreenedIsWellFormed | services/wizard/internal/api/envfile.go:84-97 | Whatever the request body, the writer only sees keys that the .env format can hold |
| Session.ScreenedKeepsCreds | services/wizard/internal/api/handler_config.go:87-118 | Neither the filter nor a profile adds, drops or changes a credential |
| Session.RejectedIff | services/wizard/internal/api/handler_config.go:87-118 | A request is rejected exactly for an empty AUTH_SECRET or admin password or an unknown profile |
| Session.OtherPasswordsStay | services/wizard/internal/api/envfile.go:82-97 | No request writes a key that begins with REDIS or POSTGRES except the limits of a profile |
| SessionRuns.StartOverFile | services/wizard/internal/api/handler.go:208-228 | A start over a file an earlier process wrote makes memory and file agree; the generation goes up exactly when the file names other credentials |
| SessionRuns.StartOverMalformed | services/wizard/internal/api/handler.go:171-228 | A start over a file without two lines or without a number begins at generation zero and writes the file anew |
| SessionRuns.FirstStart | services/wizard/internal/api/handler.go:208-228 | The first start writes the file and begins at zero |
| SessionRuns.StartOverOwnFile | services/wizard/internal/api/handler.go:208-228 | A file that names the present credentials is left as it is and its generation taken over |
| SessionRuns.GenerationCountsBumps | services/wizard/internal/api/handler.go:208-242 | Over every run of updates, .env edits and restarts the generation is the starting one plus the number of bumps, and the file says the same |
| SessionRuns.GenerationNeverDecreases | services/wizard/internal/api/handler.go:208-242 | At no moment of a run is the generation above the one at its end |
| SessionRuns.TokenAdmittedIff | services/wizard/internal/api/handler.go:119-127 | A token from a login is admitted later if and only if its mac still verifies, no bump has happened since and it has not expired, and then with the role its password gave |
| SessionRuns.AdmittedAtAnyGeneration | services/wizard/internal/api/handler.go:119-127 | At every generation a signed, unexpired token is admitted if and only if the generation's remainder by 2^63-1 is zero or not above the token's |
| SessionRuns.ChangedCredentialsBump | services/wizard/internal/api/handler.go:165-168 | A restart with another admin password or one-time secret bumps, unless the hashed texts coincide or collide; they cannot coincide without a NUL in a password |
| SessionRuns.NewPasswordIff | services/wizard/internal/api/handler_config.go:116-125 | After an update of the admin password the new one logs in as admin exactly as sent if and only if the .env codec gives it back |
| SessionRuns.PutSetsCreds | services/wizard/internal/api/handler.go:131-151 | After an accepted request each of the four credentials is what its own key says: the value sent as the codec returns it, else the value in the file, else what was in memory |
| SessionRuns.EditTakesEffect | services/wizard/internal/api/handler.go:131-151 | An edit of the .env file shows at the next accepted request that leaves the admin password alone, and not before |
| SessionRuns.OperatorPasswordIff | services/wizard/internal/api/handler_config.go:120-141 | The operator password that was sent, or else the one in the file, opens exactly the operator role if and only if the codec gives it back, unless it is the admin password too |
| SessionRuns.ViewerPasswordIff | services/wizard/internal/api/handler_config.go:120-141 | The same for the viewer password, unless it opens a higher role |
| SessionRuns.OneTimeSecretIff | services/wizard/internal/api/handler_config.go:120-141 | The one-time secret that was sent, or else the one in the file, is in force if and only if the codec gives it back; admin and operator then log in exactly with a code that is valid for it |
| SessionRuns.BumpsIffCredentialNamed | services/wizard/internal/api/handler_config.go:126-138 | An accepted request starts a new generation if and only if it names one of the four credentials |
| SessionRuns.StatusIff | services/wizard/internal/api/handler_config.go:80-148 | Status 400 exactly for rejected requests, 500 exactly for others with an allowed key and no file, 200 otherwise, and nothing changes on an error |
| SessionRuns.ProfileReachesFile | services/wizard/internal/api/handler_config.go:109-118 | Every setting of a profile is in the file afterwards and is read back as it is |
| SessionRuns.ProfileTable | services/wizard/internal/api/handler_config.go:22-63 | Which eight limits each of the four profiles stands for |
| SessionRuns.BlankPasswordIff | services/wizard/internal/api/handler_config.go:87-141 | An accepted update of the admin password lets the empty password in as admin if and only if the new value needs no quotes and is all blanks; it is never the empty text itself |
| SessionRuns.NoBreakSpaceIsAccepted | services/wizard/internal/api/handler_config.go:87-141 | A single no-break space is accepted as admin password and has that effect |
| SessionRuns.EmptyPasswordLogsInIff | services/wizard/internal/api/handler.go:131-151 | Over every run from a non-empty admin password, the empty password logs in, and then as admin, if and only if the last event that set the admin password is a blank new one, an update of another credential over a file with an empty one, or a start with an empty one |
| SessionRuns.LoginNeedsCode | services/wizard/internal/api/handler.go:344-485 | With a one-time secret set only a viewer logs in without a valid code, and every token issued admits its holder at once with the highest role whose configured password was given |
| SessionRuns.LoginIff | services/wizard/internal/api/handler.go:344-485 | A login succeeds if and only if the password opens some role and, when a one-time secret is set and the role is above the viewer's, the code is valid |
| CounterModel.NoLostUpdates | services/gateway/middleware/metrics.go:102-119 | In every interleaving, races that create a key included, a counter's value is the number of calls for that key that have finished |
| CounterModel.QuietValue | services/gateway/middleware/metrics.go:102-119 | Once all calls have returned it is the number of calls made |
| CounterModel.AddingCanAdd | services/gateway/middleware/metrics.go:109-117 | A thread about to add always holds a pointer to an existing cell |
| CounterModel.CallFinishes | services/gateway/middleware/metrics.go:102-119 | An undisturbed call takes two steps, leaves its thread free and adds one to its own counter only, created or not |
| CounterModel.LostRaceAdds | services/gateway/middleware/metrics.go:102-119 | A thread that finds its counter created in the meantime adds to that one |
| CounterModel.CreateKeeps | services/gateway/middleware/metrics.go:113-118 | Creating a counter under the write lock starts it at the finished call and disturbs no other |
| CounterModel.Histogram.Observe | services/gateway/middleware/metrics.go:79-89 | Sum, count and every bucket equal those of the durations observed |
| CounterModel.Histogram.Increment | services/gateway/middleware/metrics.go:84-88 | The loop adds one to exactly the buckets whose bound is not below the duration |
| CounterModel.BucketsAreCumulative | services/gateway/middleware/metrics.go:79-89 | A bucket with a larger bound holds at least as much, none more than the count |
| ProxySigner.ParseSignatureHeader | services/gateway/middleware/proxy_signer.go:114-136 | The loop computes the parser of which the lemmas below speak: last value wins, one part without = rejects |
| ProxySigner.ParseOfSigned | services/gateway/middleware/proxy_signer.go:62-136 | Parsing the printed header gives back the second and the signature, for every identity and time |
| ProxySigner.HeaderOfPairs | services/gateway/middleware/proxy_signer.go:114-136 | A header counts if and only if its last t is a number and its last sig is not empty; other fields and blanks around keys and values are ignored |
| ProxySigner.SpoiledHeader | services/gateway/middleware/proxy_signer.go:114-136 | A part without an equals sign spoils the header |
| ProxySigner.MessageInjective | services/gateway/middleware/proxy_signer.go:64-65 | The signed text determines the second and the identity, colons in it included |
| ProxySigner.ClockCheckIff | services/gateway/middleware/proxy_signer.go:86-94 | With int64 saturation written out, the clock check passes within five minutes, and also from 2^63 nanoseconds before the signing second on |
| ProxySigner.BeyondRangeIsRejected | services/gateway/middleware/proxy_signer.go:86-94 | A second whose instant leaves the int64 range is rejected |
| ProxySigner.OwnHeaderAcceptedIff | services/gateway/middleware/proxy_signer.go:62-110 | The gateway's own header is accepted if and only if that clock check passes |
| ProxySigner.OwnHeaderWithinFiveMinutes | services/gateway/middleware/proxy_signer.go:62-110 | For times that fit an int64 of nanoseconds: if and only if now is within five minutes of the signing second |
| ProxySigner.OtherIdentityNeedsCollision | services/gateway/middleware/proxy_signer.go:80-110 | Accepting the header for another identity takes two different messages with one mac |

## Left out

- The risk pattern tables, base64 and Unicode normalisation and entropy heuristics: `risk` and `sanitize` are parameters of `CaptureWriter`.
- HTTP and WebSocket plumbing, TLS, Docker, Postgres, cost polling, usage collection, logging, the audit log and the user interface: network clients and library calls.
- Redis sockets, reconnects and failing commands: Redis is a map with expiry times and every command succeeds.
- Cryptographic strength, forgery, timing of comparisons and random generation: mac, hash and encodings are parameters with laws.
- The scanner's line-length limit and partial disk writes: lines fit, and a write happens entirely or not at all.
- Invalid UTF-8 and characters beyond one code unit: strings are sequences of characters, and content types are lowered as ASCII.
- Names and identifiers extracted from the stream for receipts: `toolName` and `toolID` are functions of the window.
- The background goroutines' schedules: a cleanup may come at any moment of a run.
- Session.Handler.PutConfig: does not model the size limit of the request body, the audit entry, or a failure of the write that leaves the file half written.
- The login guard inside a login: it has a module of its own, and `SessionRuns` treats a login as one step that succeeds or not.
- LedgerFile.LedgerFile.RotateLocked: does not model two rotations within one second, whose segment names collide so that the second rename overwrites the first segment.
- LedgerFile.LedgerFile.OpenLedgerFile: does not model failures of stat, of reading the last hash or of opening, after which there is no ledger file and the disk is as before.
- The wrap-around of receipt numbers after 2^64 appends.
- Overflow of durations beyond an int64 of nanoseconds outside `ProxySigner`.
- CounterModel.Histogram.Observe: durations and their sum are reals, so floating-point rounding of the sum is not modelled.
- ConcurrentAppend.NumbersAreUniqueIff: speaks of processes whose file writes all succeeded; with failed writes `ConcurrentAppend.EveryNumberOnce` has the count.
- BanRuns.StrikesAreExact: with Redis it assumes that 48 base lengths and the number of events fit an int64.
- BanRuns.BanSurvivesRestarts: less than two seconds rather than one when the ban's length is not whole seconds, because both the moment and the length are cut.
- RevocationRuns.RevokedStaysRefused: without Redis it holds only for runs without restarts, to which `RevocationRuns.AlwaysRefusedInMemoryIff` is confined as well.
- CaptureWriter.ResponseIsChunkProof: informational (1xx) statuses, a second status after the first, and statuses that forbid a body are not modelled.
- SessionRuns.TokenAdmittedIff: speaks of tokens that a login issued, and of fewer than 2^63-1 bumps; `SessionRuns.AdmittedAtAnyGeneration` covers every generation at one moment.
- SessionRuns.StartOverFile: a generation file edited by hand is covered by `Session.Handler.InitSessionGenFromFile` but not by the statements about runs.
- ConcurrentAppend.QuiescentLedger: threads share one ledger and one open file; a second process on the same file, or an opening while appends are under way, is not modelled.
