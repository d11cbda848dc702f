# Verified model of vault-kubernetes-kms

The program is a Kubernetes KMS provider in front of Vault's transit engine. This project models the parts
of it that hold state or do arithmetic, and proves what they are for:

- **The token lease protocol.** Options configure and log in a client; the first login is captured so that it
  can be repeated; a refresher looks the token up at every tick, renews it, or logs in again
  (`TokenVault`, `Client`, `ClientProofs`, `Lease`, `TickFacts`, `LeaseSafety`, `LeaseRuns`, `RenewalRate`,
  `JwtRuns`, `Startup`).
- **Transit operations under key rotation.** Encryption, decryption, status and health against a key ring that
  others rotate between any two Vault calls, the shared metrics, and the health endpoint
  (`Transit`, `Kms`, `Probes`).
- **Text formats.** Base64, the splitter for combined PEM files with its temporary files, and the compact JWT
  printer (`Base64`, `PemSplit`, `PemText`, `TempFiles`, `NewPlugin`, `CompactJwt`).

## How to read it

The environment is a schedule: a function from call number to a turn. A turn says what others do before that
call (let time pass, revoke tokens, rotate keys, rewrite token files) and how the call goes: it may fail, and
a failing renewal or login may have been served all the same, its answer lost. Every theorem
holds for all schedules, so for all failures and histories, and for every way in which what others do falls
between the calls of the program. Requests and ticks themselves are taken one at a time. The world behind the calls
is a value (`TokenVault.World`, `Transit.World`).

Each step of the program is a function on values (`Client.Apply`, `Lease.Tick`, `Transit.Encrypt`,
`Kms.Seal`, ...). Objects that the program updates in place are classes whose methods are proved equal to
those functions; the theorems are about the functions and about runs of them. Options and stored login
closures are data (`Client.ClientOption`). Times are whole seconds, and the renewal threshold "less than half
of the lifetime" is `2 * ttl < creation`. Texts are sequences of characters; in `PemText` each stands for a byte.

The main results, hardest first:

1. `LeaseSafety.BoundIsExact`: with ticks at most `interval` apart that take at most `slack`, at most
   `badTicks` unrefreshed ticks in a row, lifetimes of at least `creation` and renewals of at least `grant`,
   the token in use never expires in any run **if and only if** `(badTicks + 1) * interval + slack` is below
   both `creation / 2` and `grant`; otherwise there is a run in which it expires within a tick. The lookup, renewal and login of one tick may be spread over time, tokens
   may be revoked, and answers may be lost. `Startup.StartedProgramNeverLapses` carries this from valid flags
   through `NewClient` to the end of any run.
2. `LeaseRuns.RecoveryIsBounded` and `LeaseRuns.TokenAuthNeverRecovers`: after a revocation or an expiry at
   any moment of a run a different, confirmed token is in use after at most one tick more than fail; with token
   auth, never.
   `LeaseRuns.RecoveryHappens` shows that the case arises.
3. `RenewalRate.RenewalRateIsBounded` and `RenewalRate.WholeGrantsCountExactly`: n renewals need more than
   `(n - 1) * (min(grant, creation) - creation / 2)` seconds in every run, and exactly when whole grants may be
   counted instead of the minimum.
4. `JwtRuns.RunSendsWhatIsHeld`, `LeaseRuns.RunFrame`, `LeaseRuns.RenewalsAreCounted`, `LeaseRuns.AccountsAreTrue`:
   what whole runs send, leave alone and count.
5. `Kms.Sandwich`, `Transit.EncryptMeaning`, `Transit.EncryptDecrypt`: key identifiers bracket the version in
   a ciphertext; a ciphertext decrypts to the original bytes exactly while its version is accepted.
   `Kms.ServedDataComesBack` says so of what the services answer. `Transit.SoundCipherExists` and
   `Kms.SandwichHappens` show that the assumptions can be met.
6. `PemText.CodecIsLawful`, `PemText.SplitOfText`, `PemSplit.AnyInterleavingSplitsTheSame`: what the splitter
   keeps, for real PEM text between other text, and that its output is a fixed point in every interleaving.
7. `NewPlugin.NewPlugin`: which ways out of NewPlugin leave a split private key on disk.
8. `ClientProofs.FoldTokenIsLast`, `ClientProofs.LoginUsesNamespaceInForce`, `ClientProofs.SettingsCommute`,
   `Startup.StartedClientIsReady`: the fold that leads from flags to a running client.
9. `TickFacts.TickOutcomes`, `TickFacts.RefusalOutcomes`, `ClientProofs.ConstructOutcome`,
   `Kms.ServedEncryption`, `NewPlugin.EndingMeaning`: the complete outcome of each operation, in terms of the
   calls it makes.

## Where the code and expectations differ

- A fatal log line after the combined PEM file was split ends the process without the deferred clean-up, so
  the certificate and the key stay on disk. `NewPlugin.NewPlugin` states exactly when, by the guards of those
  log lines, and `NewPlugin.RefusedLoginLeavesFiles` gives a run, for every certificate and key, in which
  Vault refuses the login.
- `HealthZ` leaves the response untouched at a nil prober, which is sent as 200; later probers do not run.
  `Probes.HealthZ` states exactly when a 200 means that every prober passes, and `Probes.NilProberSends200`
  gives the lists on which it does not.
- `WithTokenAuth` "logs in" by installing its text again, so a failed renewal followed by such a login is
  counted as a bad tick, and a dead token stays in use.
- `WithCertAuth` logs in through a client that takes over the address but not the namespace option; its
  namespace is that of the process environment. `ClientProofs.LoginUsesNamespaceInForce` states exactly when
  that is the configured one, and `ClientProofs.CertLoginLosesNamespace` gives a client for which it is not.
- Counting whole grants, renewals can follow faster than the remaining time suggests: a new login replaces a
  long grant by a shorter lifetime. `RenewalRate.LoginsCutGrantsShort` gives the runs,
  `RenewalRate.WholeGrantsCountExactly` the exact condition.
- The key identifier that `Encrypt` reports can be newer than the version inside the ciphertext, exactly when
  a rotation falls between its two calls. `Transit.EncryptMeaning` states this, and
  `Transit.IdentifierCanBeNewer` gives the case.

## Model

| member | source | states |
|---|---|---|
| Base64.RoundTrip | pkg/vault/transit.go:15-17 | every byte string survives encoding and decoding, in both alphabets, with and without padding (sections 4 and 5 of RFC 4648) |
| Base64.RoundTripBroken | pkg/vault/pem.go:71-81 | the decoder reads an encoding through any line breaks put into it |
| Base64.Alphabets | pkg/vault/transit.go:15-17 | the 64 symbols of both alphabets, letter by letter (tables 1 and 2 of RFC 4648) |
| Base64.ThreeBytes | pkg/vault/transit.go:15-17 | three bytes are the four base-64 digits of the number they make, most significant first |
| Base64.LastBytes | pkg/vault/transit.go:15-17 | one and two last bytes are filled up with zero bits and padded to four characters |
| Base64.GroupsAppend | pkg/vault/transit.go:15-17 | groups of three bytes are encoded one behind the other |
| Base64.StripsLineBreaksOnly | pkg/vault/transit.go:54-57 | the decoder skips line breaks and nothing else |
| Base64.ReadsEncodingsOnly | pkg/vault/transit.go:54-57 | what decodes to some bytes has the length and the characters of their encoding, and is that encoding if it ends with a whole group |
| Transit.DecimalReads | pkg/vault/transit.go:77-82 | a key version and its decimal identifier determine each other |
| Transit.DecimalLength | pkg/vault/transit.go:77-82 | a key identifier has no leading zeros |
| Transit.DecimalDigits | pkg/vault/transit.go:77-82 | each of its digits is that of its power of ten |
| Transit.EncryptMeaning | pkg/vault/transit.go:12-35 | the ciphertext holds exactly the data under the version latest when it was sealed; the reported identifier is at least that, and equal exactly when nobody rotates between the two calls |
| Transit.KeyVersionOutcome | pkg/vault/transit.go:65-83 | which error a version read returns, or that it names the latest version, for every way in which the call can go, in the order of the program's checks |
| Transit.IdentifierCanBeNewer | pkg/vault/transit.go:19-34 | with a rotation before every call, every encryption reports an identifier newer than the version inside |
| Transit.EncryptOutcome | pkg/vault/transit.go:12-35 | an encryption succeeds exactly if both calls go well and the key can be read; a failed first call is the only one made |
| Transit.DecryptOutcome | pkg/vault/transit.go:38-61 | a decryption makes one call and succeeds exactly if that goes well on a ciphertext whose version is accepted; what Vault answers is never unreadable base64 |
| Transit.EncryptDecrypt | pkg/vault/transit.go:12-61 | a returned ciphertext decrypts later to the original bytes exactly if its version is still accepted, whatever identifier was reported |
| Transit.RotationsNeverLoseData | pkg/vault/transit.go:37-61 | after any number of rotations every ciphertext still decrypts to its data |
| Transit.OperationsMoveForward | pkg/vault/transit.go:12-83 | no operation sees the key ring move backwards |
| Kms.KmsV1.EncryptWith | pkg/plugin/plugin_v1.go:79-102 | result and counters of one v1 encryption, with recording on or off |
| Kms.KmsV1.DecryptWith | pkg/plugin/plugin_v1.go:105-128 | result and counters of one v1 decryption |
| Kms.KmsV1.Encrypt | pkg/plugin/plugin_v1.go:62-70 | serving an encryption request is one recorded encryption, answered with the ciphertext |
| Kms.KmsV1.Decrypt | pkg/plugin/plugin_v1.go:62-70 | serving a decryption request is one recorded decryption |
| Kms.KmsV1.HealthCheck | pkg/plugin/plugin_v1.go:38-58 | the v1 probe encrypts, decrypts and compares, in that order, stopping at the first failure |
| Kms.KmsV2.EncryptWith | pkg/plugin/plugin_v2.go:102-126 | result and counters of one v2 encryption |
| Kms.KmsV2.DecryptWith | pkg/plugin/plugin_v2.go:128-151 | result and counters of one v2 decryption |
| Kms.KmsV2.Encrypt | pkg/plugin/plugin_v2.go:90-96 | serving an encryption request is one recorded encryption, answered with ciphertext and key identifier |
| Kms.KmsV2.Decrypt | pkg/plugin/plugin_v2.go:90-96 | serving a decryption request is one recorded decryption |
| Kms.KmsV2.HealthCheck | pkg/plugin/plugin_v2.go:66-88 | the v2 probe, as for v1 |
| Kms.KmsV2.StatusCheck | pkg/plugin/plugin_v2.go:36-63 | the status fails only with its version read; otherwise it reports that version and the probe's verdict |
| Kms.HealthRecordsNothing | pkg/plugin/plugin_v2.go:66-88 | probes and status requests move no counter |
| Kms.ServeCounts | pkg/plugin/plugin_v1.go:79-128 | one request moves each counter by what its kind and its response say |
| Kms.ServedEncryption | pkg/plugin/plugin_v2.go:90-126 | what an encryption request of either version answers, for every way in which the two calls go: a ciphertext that opens to exactly the data, for v2 with the identifier of the version latest at the second call, or the first error |
| Kms.ServedDecryption | pkg/plugin/plugin_v2.go:94-151 | what a decryption request of either version answers for any text: what it holds, exactly if the call goes well and the version inside is accepted |
| Kms.ServedDataComesBack | pkg/plugin/plugin_v1.go:62-128 | what a service of either version answered to an encryption decrypts, by either version and after any further requests and rotations, to exactly the data while its version is accepted |
| Kms.HealthOutcome | pkg/plugin/plugin_v1.go:38-58 | with which error a probe fails: that of its encryption, of its decryption, or the mismatch |
| Kms.ServedProbes | pkg/plugin/plugin_v2.go:36-88 | health and status requests answer what the probe finds; the status names version "v2" and returns the error of its version read |
| Kms.RunServesAll | pkg/plugin/plugin_v2.go:36-96 | each request of a run is served in the state that those in front of it have left |
| Kms.MetricsAreConserved | pkg/plugin/plugin_v2.go:102-151 | over every mixed run of v1 and v2 requests each histogram counts the requests of its kind and each error counter the failed ones |
| Kms.StatusMeaning | pkg/plugin/plugin_v2.go:36-63 | a status fails exactly if its version read fails, and then makes no other call; otherwise it reports the version that was the latest at that read, before the probe, and "ok" exactly if the probe passes |
| Kms.HealthIsHonest | pkg/plugin/plugin_v2.go:66-88 | a probe passes if and only if its encryption succeeds and the following decryption returns exactly the bytes that were sealed, for any cipher |
| Kms.RunMovesForward | pkg/plugin/plugin_v2.go:36-96 | no run of requests sees the key ring move backwards |
| Kms.Sandwich | pkg/plugin/plugin_v2.go:36-92 | status, encryption, status, with other requests and rotations anywhere between: first identifier <= version inside the ciphertext <= reported identifier <= second identifier |
| Kms.HealthMeaning | pkg/plugin/plugin_v2.go:66-88 | when no call fails, the probe passes exactly if the version it sealed under is still accepted when it opens |
| Kms.RotationsKeepHealthy | pkg/plugin/plugin_v1.go:38-58 | rotations alone never make a probe fail |
| Kms.RotationsKeepEndpointHealthy | pkg/probes/probes.go:17-39 | with any KMS probers registered, rotations alone never make the health endpoint fail, and it records nothing |
| Probes.HealthZ | pkg/probes/probes.go:17-40 | exactly the probers up to the first obstacle run; 500 with the first failure's text, nothing written at a nil prober; a sent 200 means that every prober passes if and only if the handler does not stop at a nil prober |
| Probes.RunsInOrder | pkg/probes/probes.go:19-31 | the first prober runs in the given state, and each other one in what those in front of it leave |
| Probes.NilProberSends200 | pkg/probes/probes.go:20-25 | with a nil prober in front, 200 is sent and no prober runs |
| PemSplit.ParseCombinedPem | pkg/vault/pem.go:58-93 | the accumulation loop computes the split of all decoded blocks, for every codec that consumes text |
| PemSplit.ReadsLayout | pkg/vault/pem.go:68-74 | the loop sees exactly the blocks of a file, in order, whatever text stands between them |
| PemSplit.SplitMeaning | pkg/vault/pem.go:64-92 | exactly the blocks of type CERTIFICATE go to the certificate output and exactly those of type EC, RSA or plain PRIVATE KEY to the key output, in file order; it succeeds if and only if both kinds occur, and names the missing one |
| PemSplit.AnyInterleavingSplitsTheSame | pkg/vault/pem.go:66-82 | printing the kept blocks in any order that keeps each kind's own order, and splitting again, changes nothing |
| PemSplit.OutputIsFixedPoint | pkg/vault/pem_test.go:59-75 | the two outputs, in either order, split into themselves |
| PemText.DecodesPrinted | pkg/vault/pem.go:71-81 | a printed header-free block is read back with exactly the text that follows it (sections 2 and 3 of RFC 7468) |
| PemText.DecodesAnyLayout | pkg/vault/pem.go:71-74 | a header-free block is read back however its base64 is broken into lines and spaced out, with blanks behind its BEGIN and END lines, and with line feeds or carriage returns and line feeds |
| PemText.DropsBlanksOnly | pkg/vault/pem.go:71-74 | spaces and tabs, and nothing else, are dropped from a body |
| PemText.PrintedText | pkg/vault/pem.go:78-81 | the printed text, letter by letter: BEGIN line, base64 in lines of 64, END line |
| PemText.BadBeginLineIsSkipped | pkg/vault/pem.go:71-74 | a BEGIN line that does not end in five dashes is looked past |
| PemText.UnclosedBlockIsSkipped | pkg/vault/pem.go:71-74 | so is a block without an END line |
| PemText.MismatchedEndIsSkipped | pkg/vault/pem.go:71-74 | and one that is closed with another type |
| PemText.LinesAreFull | pkg/vault/pem.go:78-81 | a printed body is broken behind every 64 characters and at its very end, nowhere else (section 2 of RFC 7468) |
| PemText.CodecIsLawful | pkg/vault/pem.go:71-81 | the concrete codec satisfies the contract of the splitter |
| PemText.MarklessTextIsSilent | pkg/vault/pem.go:71-74 | text without a BEGIN mark at a line start is looked past |
| PemText.SplitOfText | pkg/vault/pem.go:64-92 | the meaning of the split for concrete PEM text with other text between blocks |
| TempFiles.Disk.ParseCombinedPemFile | pkg/vault/pem.go:12-55 | for every schedule of read, create and write failures: an error leaves no file behind but those that could not be removed; success adds exactly two files with the split texts |
| TempFiles.PlanMeaning | pkg/vault/pem.go:12-55 | which failure is reported, and which names come out |
| TempFiles.FirstFreeIsFirst | pkg/vault/pem.go:18-36 | a temporary file gets the first name tried that is free |
| TempFiles.Disk.RunCleanup | pkg/vault/pem.go:51-54 | the clean-up removes exactly the two files |
| NewPlugin.NewPlugin | cmd/plugin.go:229-374 | how NewPlugin ends; when files can be removed, the files on disk differ afterwards if and only if a combined file was split and the client could not be made, or the socket, the listener or one of the two servers failed, and then by exactly the two files with the split texts |
| NewPlugin.Launch | cmd/plugin.go:269-359 | the first fatal log line reached, in program order, if any |
| NewPlugin.EndingMeaning | cmd/plugin.go:175-374 | each way in which NewPlugin ends, and when |
| NewPlugin.RefusedLoginLeavesFiles | cmd/plugin.go:253-278 | for every certificate and key, a run in which Vault refuses the login and the two files stay |
| CompactJwt.FillBytes | pkg/testutils/testutils_jwt.go:75-78 | a slice of the buffer is overwritten by the fixed-width big-endian number, the rest is kept |
| CompactJwt.FillSignature | pkg/testutils/testutils_jwt.go:75-78 | the 64-byte buffer ends up holding R and then S, each big-endian in 32 bytes |
| CompactJwt.NumberOfBigEndian | pkg/testutils/testutils_jwt.go:75-78 | fixed-width bytes read back as the number (section 3.4 of RFC 7518) |
| CompactJwt.BigEndianOfNumber | pkg/testutils/testutils_jwt.go:75-78 | and the other way round: the bytes of a given width are unique |
| CompactJwt.BigEndianAt | pkg/testutils/testutils_jwt.go:75-78 | the most significant byte comes first |
| CompactJwt.SignTestJwt | pkg/testutils/testutils_jwt.go:43-81 | the token or the first error, from header, payload and signature |
| CompactJwt.TokenText | pkg/testutils/testutils_jwt.go:52-80 | the token, letter by letter: three base64url texts with dots between, the last one of R and S, 32 bytes each |
| CompactJwt.TokenReads | pkg/testutils/testutils_jwt.go:52-80 | the token splits at dots into three parts that decode to header, payload and 64 bytes whose halves are R and S |
| CompactJwt.TokenIsUnique | pkg/testutils/testutils_jwt.go:52-80 | equal tokens carry equal header, payload, R and S |
| TokenVault.LookupMeaning | pkg/vault/lease.go:44-62 | a lookup is answered exactly if the call does not fail and the token is alive, with that token's numbers; a dead one is refused with status 403 |
| TokenVault.RenewMeaning | pkg/vault/lease.go:100-101 | a renewal succeeds exactly if the call does not fail and the token is alive, and extends exactly that token; one that fails changes nothing, or did just that if its answer was lost |
| TokenVault.LoginCallMeaning | pkg/vault/client.go:141-146 | a granted login delivers a new token with a full lifetime; any other delivers none, and changes no token unless its answer was lost |
| Client.NewClient | pkg/vault/client.go:45-73 | the constructor makes a client of the SDK, folds the options up to the first error and then verifies the token |
| ClientProofs.ConstructOutcome | pkg/vault/client.go:45-73 | a client comes out exactly if the SDK can make one, every option succeeds, and the verifying lookup does not fail and finds the token alive; it is the folded client; otherwise the first of these that goes wrong gives the error |
| ClientProofs.FoldOutcome | pkg/vault/client.go:59-64 | the fold succeeds exactly if every option does, and otherwise ends with the first that fails |
| Client.VaultClient.Use | pkg/vault/client.go:76-127 | calling an option does to the client object what the option means |
| Client.VaultClient.Configure | pkg/vault/client.go:76-127 | the options that are no logins (address, namespace, transit, renewal time) do to the object what they mean |
| Client.VaultClient.UseToken | pkg/vault/client.go:104-118 | token auth: field, token if not empty, captured login if none |
| Client.VaultClient.LoginAppRole | pkg/vault/client.go:130-154 | AppRole login, its fields, call and effects, also when it fails |
| Client.VaultClient.LoginUserPass | pkg/vault/client.go:157-183 | the same for username and password |
| Client.VaultClient.LoginCert | pkg/vault/client.go:189-231 | the same for a client certificate, through a temporary client |
| Client.VaultClient.LoginJwt | pkg/vault/jwt.go:90-120 | the same for a JWT from a source, with the guard against an empty answer |
| ClientProofs.LoginReproducesItself | pkg/vault/jwt.go:75-117 | the stored login behaves like the option itself on every client and world; for SPIFFE it holds the parsed subject instead of the text |
| ClientProofs.FoldCapturesFirst | pkg/vault/client.go:59-64 | the captured login is that of the first auth option |
| ClientProofs.FoldTokenIsLast | pkg/vault/client.go:59-64 | the token is that of the last option that set one: the configured text, or the token issued to that login |
| ClientProofs.LoginOutcome | pkg/vault/client.go:130-231 | a login succeeds exactly if it reaches Vault and Vault grants it; otherwise token, captured login and settings stay, and the error says at which step it failed |
| ClientProofs.LoginMeaning | pkg/vault/client.go:130-231 | a login that succeeds installs the token it was delivered, new and with a full lifetime; one that fails keeps the client's token, even if Vault issued another |
| ClientProofs.AuthOutcome | pkg/vault/client.go:104-231 | an auth option remembers its parameters, also when it fails later, captures itself if nothing is captured, and leaves all settings alone; token auth never fails |
| ClientProofs.SettingOutcome | pkg/vault/client.go:76-127 | a setting fails exactly if it is an address that does not parse; it never calls Vault, and sets what it names and nothing else |
| ClientProofs.LoginUsesAddressInForce | pkg/vault/client.go:76-80 | a login goes to the address that was set last before it |
| ClientProofs.LoginUsesNamespaceInForce | pkg/vault/client.go:83-91 | a login carries the namespace set last before it if and only if it is no certificate login or the process environment sets the same one |
| ClientProofs.CertLoginLosesNamespace | pkg/vault/client.go:198-220 | with a namespace option and none in the environment, a certificate login goes to the root namespace |
| ClientProofs.LoginFromEnvironment | pkg/vault/client.go:45-53 | without a namespace option every login goes to the namespace of the process environment |
| ClientProofs.SettingsCommute | cmd/plugin.go:269-275 | a transit or renewal setting may stand anywhere in the list, as long as it does not pass another of its kind |
| ClientProofs.TrimSpaceMeaning | pkg/vault/jwt.go:32 | trimming cuts all white space at both ends and nothing else |
| ClientProofs.SpaceIsWhite | pkg/vault/jwt.go:32 | white space is exactly these 25 characters |
| ClientProofs.JwtIsFresh | pkg/vault/jwt.go:90-112 | a JWT login asks its source once, sends what it holds at that moment, and does not call Vault when the source fails |
| ClientProofs.JwtFileIsSentTrimmed | pkg/vault/jwt.go:26-33 | a JWT login from a file sends the text of the file at that moment without the white space around it |
| Lease.Refresher.Login | pkg/vault/lease.go:104 | the captured login, on the object |
| Lease.Refresher.AuthenticateAndVerify | pkg/vault/lease.go:22-31 | login and verification; the new token stays even when it cannot be verified |
| Lease.Refresher.RenewToken | pkg/vault/lease.go:97-114 | renewal, or login when it fails; counted either way |
| Lease.Refresher.OnTick | pkg/vault/lease.go:43-117 | one tick with its outcomes |
| Lease.Refresher.LeaseRefresher | pkg/vault/lease.go:37-125 | exactly the ticks before the first shutdown are served |
| Lease.ServedTicks | pkg/vault/lease.go:41-43 | which ticks these are |
| TickFacts.ReloginMeaning | pkg/vault/lease.go:104-109 | what a repeated login does to the token in use |
| TickFacts.TickMeaning | pkg/vault/lease.go:43-117 | the only ways in which a tick changes the lease in use, and when it tries a renewal |
| TickFacts.TickOutcomes | pkg/vault/lease.go:59-117 | what a tick with an answered lookup does, in terms of the calls it makes: it renews exactly if less than half is left, and any failed renewal runs the captured login, whose client and world are those after the tick |
| TickFacts.FailedRenewalLogsIn | pkg/vault/lease.go:101-109 | after a renewal that failed for whatever reason, the token in use is the one a granted login delivers, or the old one |
| LeaseSafety.SafeRunsNeverLapse | pkg/vault/lease.go:37-125 | under the bound no admissible run of any length lapses |
| LeaseSafety.UnsafeBoundsLapse | pkg/vault/lease.go:37-125 | without the bound there is an admissible run in which the token in use expires before its last tick has ended |
| LeaseSafety.BoundIsExact | pkg/vault/lease.go:33-37 | the bound holds if and only if no admissible run lapses, within its ticks or also until the next one |
| LeaseRuns.TickKeepsDead | pkg/vault/lease.go:44-57 | a token that a tick finds dead stays dead and is not the one it confirms |
| TickFacts.RefusalOutcomes | pkg/vault/lease.go:22-57 | what a tick with a refused or failed lookup does: it fails exactly when the lookup fails otherwise than by refusal, or the token is refused and the login fails, or the new token cannot be verified; with the client and the world left behind |
| LeaseRuns.RecoveryIsBounded | pkg/vault/lease.go:22-57 | from any tick of a run that is the first to find the token in use dead, with f failing ticks a different, confirmed token is in use at most f + 1 intervals and one tick after the tick before |
| LeaseRuns.TokenAuthNeverRecovers | pkg/vault/client.go:104-118 | with token auth, from the first tick that finds the token dead on every tick fails |
| RenewalRate.RenewalRateIsBounded | pkg/vault/lease.go:97-114 | with lifetimes of creation seconds and grants of more than half of that, n >= 2 renewals need more than (n - 1) * (min(grant, creation) - creation / 2) seconds, in every run |
| RenewalRate.RenewalRateWithoutLogins | pkg/vault/lease.go:97-114 | in runs without new logins they need more than (n - 1) * (grant - creation / 2) seconds |
| RenewalRate.LoginsCutGrantsShort | pkg/vault/lease.go:44-57 | for all grants longer than a lifetime of at least 3 seconds, a run with a new login in which two renewals follow faster than that |
| RenewalRate.WholeGrantsCountExactly | pkg/vault/lease.go:97-114 | the bound with whole grants holds in all runs if and only if grants are no longer than lifetimes, or lifetimes are at most 2 seconds, on a clock of whole seconds |
| RenewalRate.ShortTokensAreNotRenewed | pkg/vault/lease.go:97 | on a clock of whole seconds, tokens with lifetimes of at most 2 seconds are never renewed |
| LeaseRuns.TickCountsRenewals | pkg/vault/lease.go:97-114 | a tick counts exactly the renewal requests it sends |
| LeaseRuns.RenewalsAreCounted | pkg/vault/lease.go:100-114 | over any run the counter equals the renewal requests that reached Vault, each for the configured seconds |
| LeaseRuns.AccountsAreTrue | pkg/vault/lease.go:64-117 | over any run the gauge is the last remaining time read, and the counter the ticks that found less than half left |
| LeaseRuns.ReportsAreTrue | pkg/vault/lease.go:64-92 | the numbers a tick reads are those of the token in use at that moment |
| LeaseRuns.NonExpiringTokenIsNotRenewed | pkg/vault/lease.go:97 | a token with lifetime 0 never triggers a renewal |
| LeaseRuns.RunFrame | pkg/vault/lease.go:37-125 | no run changes the client but for its token, which is the initial one or that delivered to the most recent successful login |
| JwtRuns.RunSendsWhatIsHeld | pkg/vault/jwt.go:69-112 | over any run, an answered question to the source leads to a login directly behind it with exactly what the source holds at that moment by the schedule, an unanswered one to none, and there are no other logins |
| Startup.ValidFlagsSelectUsableAuth | cmd/plugin.go:379-470 | flags are valid if and only if there is an address, they select an auth option with all that it needs, a service is enabled and the interval parses |
| Startup.ComplaintsAreTrue | cmd/plugin.go:379-470 | each complaint about the flags is made exactly when it is true and none in front of it is |
| Startup.ValidFlagsSelectOneMethod | cmd/plugin.go:229-265 | valid flags make the switch of NewPlugin produce one auth option, a login unless the method is token |
| Startup.StartedClientIsReady | cmd/plugin.go:229-278 | a client built from valid flags holds the configured settings and login parameters, has captured the configured login only, and has a token that Vault just confirmed, a new one with a full lifetime if it logged in |
| Startup.StartedProgramNeverLapses | cmd/plugin.go:229-291 | valid flags, a client made within half of the least lifetime (or a given token with enough time left) and the bound imply that no run of the refresher lapses |

## Left out

- gRPC, HTTP and metrics servers, sockets, signals, TLS, logging, and the parsing of flags and environment variables.
- The inside of the Vault SDK, go-spiffe, ECDSA, x509, JSON and Prometheus: a login yields a token or an error, transit is a sealing and opening pair with versions, addresses and SPIFFE IDs are judged and parsed by given functions, counters are integers.
- Lease.Refresher.LeaseRefresher: requires a captured login, as NewPlugin always provides one; without any auth option the program would call a nil function. The ticker needs a positive interval, which flag validation does not check; dropped ticks appear as a larger distance between ticks, and which of two ready channels select picks is left open.
- Client.VaultClient.LoginAppRole, LoginUserPass and LoginCert: an answer without an auth section is an error here, while the program would fail on a nil pointer; only the JWT login guards against it.
- Transit.EncryptMeaning: Vault answers write requests with a body; the program would fail on a nil pointer otherwise. The case is modelled for key reads, where the program checks it.
- RenewalRate.ShortTokensAreNotRenewed and WholeGrantsCountExactly: with fractions of seconds, a live token can be reported with a remaining time of 0, and then tokens of 1 or 2 seconds are renewed too.
- Concurrent requests: gRPC serves them side by side, and the refresher runs beside them; Kms.Run serves one request after the other, with the environment acting between their calls.
- Lease.Refresher.OnTick: times are whole seconds and the two numbers are exact integers; rounding of floating-point numbers is not modelled.
- PemText.DecodesPrinted: blocks with headers are covered by the contract of PemSplit, not by the concrete codec.
- NewPlugin.NewPlugin and Launch: that the certificate login reads the two files is not connected to the disk; the two servers run beside the main path, so which of two that break is named, and whether one that breaks while NewPlugin returns is still fatal, is left to a race in the program: here a server that breaks does so before the return, and the gRPC server is named first.
- TempFiles.Disk.ParseCombinedPemFile: other processes that change the same directory meanwhile.
- Startup.ValidFlagsSelectUsableAuth: takes the auth method after its conversion to lower case.
- A new login is not undone when its verification fails, a certificate split from a combined file at start-up is used for all later logins, and Vault namespaces only appear as part of a login request: modelled as they are, nothing stronger is claimed.
- The static answers of the KMS v1 Version call, and the fields of KMS v2 requests that only end up in log lines.
- pkg/socket, pkg/utils, pkg/http, cmd/v2_client and the container helpers of pkg/testutils.
