# Verified model of the Supadupa control plane

Supadupa is a control plane for self-hosted projects: an API server, a Docker proxy and a web
frontend. This project models the parts of it that carry state, arithmetic, parsing or
compensation, and proves what they promise over all inputs and over whole runs.
`dafny verify dfyconfig.toml` checks everything.

| files | subject |
|---|---|
| `LockoutLimiter`, `LoginRuns`, `LoginAccounts`, `LoginBound`, `LoginRaces`, `LoginOverlap`, `LockoutPruning` | the login lockout limiter and the login handler that drives it; who is locked out, by address and account |
| `FixedWindow`, `FixedWindowRuns`, `FixedWindowBound`, `FixedWindowKeys`, `FixedWindowShared`, `FixedWindowPruning` | the multi-key fixed-window limiter; which requests it counts together |
| `AssertionSignature`, `SignatureText`, `AssertionReplay`, `AssertionReplayRuns`, `StudioSessions` | one-shot credentials: SSO assertions and Studio codes |
| `LogServer`, `EventStream`, `EventLaws`, `LogDelivery`, `ErrorText`, `QuotedText` | the project log stream: server, browser parser, and both end to end |
| `SqlText`, `SqlWords`, `SqlForms` | generated SQL: quoting against a lexer, phrases and the forms of statements |
| `DatabaseRoles`, `RoleFailures`, `RoleSql`, `RoleReader`, `RoleMeaning`, `RoleCreated` | database roles: statements and catalog, their text, and reading the text back |
| `WebhookSql`, `WebhookCreateSql`, `WebhookReader`, `WebhookWords`, `WebhookMeaning`, `WebhookScripts`, `WebhookCatalog` | database webhooks: the text, reading it back, and what it does to the catalog |
| `LexicalPath`, `PathLaws`, `ProjectScope`, `ScopeLaws` | Go's lexical path cleaning, bind sources, volumes, function entrypoints |
| `StackVersions`, `VersionMeaning`, `UpgradeSaga`, `UpgradeMeaning`, `UpgradeOverlaps` | version order, the upgrade protocol, and requests that overlap |
| `RestoreReconcile` | bringing the runtime in line after a platform restore |
| `Traffic`, `TrafficP95` | attribution and aggregation of router traffic |
| `ProjectAccess`, `AccessByName` | who may use and who may see a project |
| `PersistentEncryption`, `EncryptionByEnvironment` | encrypted payloads across changes of key provider |
| `Text`, `TextLaws`, `Timeline`, `Wrappers` | Go string functions and what they mean; instants counted over intervals; optional values |

Code that updates state is modelled as classes and methods with loops. Each method is proved
equal to a specification function, and the theorems are about those functions. What such a
function means is pinned by statements that do not use it: on strings for path cleaning, by the
names of roles for the gate, by numbers for versions, by addresses and accounts for the lockout, on
the environment for encryption, and for SQL by a reader of its own that turns the scripts back into
the statements they were made from. Instants and durations are integers, with 0 for Go's zero time.

## Results that a reader of the code may not expect

* Neither limiter has the sliding bound that its numbers suggest. Since its last success, a key
  can collect 8, not 5, recorded failures in a closed ten-minute interval; since its last reset,
  a quota of `limit` admits up to `2 * limit - 1` charges in a half-open interval as long as the
  window. Both bounds are proved for every run (`LoginRuns.FailureBound`,
  `FixedWindowRuns.ChargeBound`) and reached by one: eight failures in `LoginBound.BoundReached`,
  `2 * limit - 1` charges for every limit and every window of at least two instants in
  `FixedWindowBound.BoundReached`.
* The first bound is for logins one after another. Logins that overlap exceed it: of k logins that
  are all checked before any is recorded, all are recorded (`LoginOverlap.OverlapReached`, k + 4
  failures). With at most k in flight, an interval holds at most `(e + 1) * (2k + 6) + k`, where e
  are in flight when it begins, in whatever order logins are checked and recorded
  (`LoginRaces.FailureBound`).
* The second bound needs key lists without repetitions, and the handlers' lists have none. A list
  that names a key stays within its limit exactly if it names it no more often than there is room
  (`FixedWindowKeys.WithinLimitIff`; `RepeatedKeyOverdraws` is an instance).
* Failures are counted against the address and against the account. Five failures of an account in one
  window, from whatever addresses, shut it for every address until fifteen minutes after the fifth
  (`LoginAccounts.FiveFailuresLock`).
* The replay cache makes an SSO assertion single-use only in part. It is keyed by the text of the
  signature. After any run, a text is accepted exactly if nobody has entered it, a failed request
  has forgotten it since, or some `Use` since, this one included, has read the clock at or after
  the expiry presented by the request that entered it last (`AssertionReplay.AcceptedIff`). The
  third kind of `Use` is late; until the first late one, a text has one holder
  (`AssertionReplay.TwoHoldIffLate`). So an assertion can succeed twice in three ways, and
  for all inputs of each kind `AssertionReplayRuns` gives a run:
  * The signed text drops fractions of a second (`internal/control/sso.go:149-160`), but
    validation and the cache compare the instant as it is presented. A second request that
    presents a later instant of the same second is accepted once the first instant has passed
    (`LaterExpiryReplays`). For one text and without stalls this is the only way
    (`AssertionReplay.InOrderReplay`).
  * The clock is read before the lock is taken. A request that stalls in between is accepted
    once another request's `Use` has pruned the entry (`StalledRequestReplays`).
  * One signature has many texts: line breaks and padding are ignored when it is decoded
    (`AssertionSignature.LineBreakIgnored`, `PaddingIgnored`), and every text succeeds once
    (`OtherTextReplays`). Two successes of one signature without a late `Use` take two texts
    (`AssertionReplay.TextsOfOneSignature`).
* A Studio code is consumed at most once for each time it is issued, in whatever order the
  requests' clock readings come. A cleanup with a later reading can make a consume fail whose own
  reading is still in time (`StudioSessions.ConsumeExactly`).
* The log stream loses nothing exactly if at most 100 entries arrive between any two polls, when
  every entry marshals (`LogServer.GapsIff`), and in general exactly if every entry that a poll's
  window has passed over fails to marshal (`LogServer.MissedNothingIff`).
* Deleting a database role undoes a successful creation exactly if the name was free before. A
  create that fails half way leaves the role, unless it failed at once because no role can have
  the name (`RoleFailures.CreateLeaves`), while the handler deletes its record. The declaration
  can still delete the role exactly if every schema with a grant and every role in its membership
  list exists, and every grant list can be granted (`RoleFailures.DeleteCleansUpIff`). SQL takes
  `ALL PRIVILEGES` or a list of privileges, so a list that the store admits can be granted exactly
  if `all` stands alone in it (`RoleFailures.AllAloneIff`): with `all,select` the role is created,
  its grant fails, and its declaration cannot delete it (`RoleFailures.AllBesideSelect`). Nor can
  it if a missing schema or role is what the create failed on. The names `public` and `none` pass
  the store's checks, but no role can have them.
* The role scripts and the scripts that drop a webhook are read as intended exactly if no name
  contains their dollar tag. The store's patterns for names (`internal/control/store.go:33-38`)
  admit no dollar sign, so these scripts are sound (`RoleSql.StoredRoleScriptsLex`,
  `WebhookSql.StoredDeleteTextLexes`). The store does not keep `$function$` out of a webhook's
  endpoint or headers, and with it the create script is not read as intended
  (`WebhookCreateSql.CreateTextLexesIff`).
* The role and webhook scripts say what they should: read as SQL and run, they create the role with
  exactly its declared attributes, grants and memberships (`RoleCreated.TextCreates`), and install a
  webhook's function and triggers and remove them again (`WebhookCatalog.TextsRun`).
* PostgreSQL keeps 63 characters of a name, and the store admits webhook names of up to 64. A
  webhook's triggers are told apart by the event at the end of their names. After it has been
  installed, each of its events fires exactly if its name has at most 44 characters or it has only one
  event: with a longer name each trigger replaces the one before
  (`WebhookCatalog.EveryEventFiresIff`). Two webhooks whose names start with the same 55 characters
  have one function, so installing the second redirects the first
  (`WebhookCatalog.SharedFunctionIff`, `RedirectedIff`).
* Only relative bind sources can be shared by two projects.
* Store and runtime agree after any run of upgrades one after another exactly if the last request
  that got to the provisioner met neither a failed rollback into another version nor a failed
  final write (`UpgradeSaga.RunAgreesIff`). But the handler takes no lock. Requests that overlap
  can split store and runtime and lower the stored version without any failure
  (`UpgradeOverlaps.CrossingSplits`), and a rollback can take another request's version off the
  runtime (`UpgradeOverlaps.OverwritingSplits`). At any moment they agree exactly if the last call of
  the provisioner left what its request would find in the store now
  (`UpgradeOverlaps.RaceAgreesIff`), and the stored version goes down exactly at a write that comes
  after another request's write of a higher version (`UpgradeOverlaps.NeverLowersIff`).
* When a poll of the log stream fails, the browser throws the error's text as Go's `%q` escapes
  it. That is the text itself exactly if nothing in it is escaped (`ErrorText.ErrorDelivered`); in
  every case it reads back as the error (`QuotedText.ErrorReadsBack`).
* A second reconciliation after a restore retries failed creations, but leaves every runtime that
  the first failed to stop (`RestoreReconcile.SecondPass`).
* A router `<ref>` and a router `<ref>-root` are attributed alike. The 95th percentile of the
  total is the same in every order of the routes exactly if no route has traffic, or none
  without traffic has a value above all routes with some (`TrafficP95.P95OrderIff`).
* A platform administrator lists every project, but the per-project gate knows no such role. A
  project that only its org opens to the caller is missing from the list if its org is not
  listed.

## Assumptions

* Operations on one limiter, cache or store run one at a time under its lock. In `LoginRuns` a
  login is one step, and in `UpgradeSaga` requests run one after another; `LoginRaces` and
  `UpgradeOverlaps` drop that, and the interleavings of SSO callbacks are modelled, too, with one step
  for each locked operation, call or write.
* The theorems about the limiters need a clock that does not run backwards, and those about the
  login limiter fewer than 10000 live keys; `ValidRun` and `ClockedFrom` say so. `LoginRaces` needs
  it only where logins read it, and the theorems about SSO assertions and Studio codes not at all.
* A signature verifies for the expiries of one second, which the decoded signature determines.
* The project log is append-only with unique ids, and a poll returns its newest 100 entries,
  newest first. Marshalled entries are JSON objects on one line. Which characters beyond ASCII Go
  prints unescaped is an input.
* The catalog's `GRANT`, `REVOKE` and `DROP ROLE` work on sets of grants; `ALL TABLES` are the
  tables that exist. `ALL PRIVILEGES` beside other privileges is not valid, and no role is called
  `public` or `none`. Names that begin with `pg_`, which the store refuses, are not treated
  specially. A script stops at the first statement that fails and keeps what the ones before it
  did. The lexer follows sections 5.2 and 5.3 of ISO/IEC 9075-2, with dollar quotes; the readers
  follow the statements' syntax in the PostgreSQL manual.
* Names of webhook objects are cut to 63 characters, `to_regclass` finds a table by a name that needs
  no quotes, the extension `pg_net` can be created, and a function that a trigger calls cannot be
  dropped.
* `sort.Slice` leaves the refs in order of descending length, with ties in any order.
* Opening inverts sealing, nothing sealed with one key opens with another, and decrypting with
  a KMS command inverts encrypting with it.

## Model

| member | source | states |
|---|---|---|
| TextLaws.TrimSpaceIff | internal/api/auth_handlers.go:210-216 | trimming gives the one text that neither starts nor ends in white space and has only white space around it |
| TextLaws.ToLowerIs | internal/api/auth_handlers.go:210-216 | lower case puts each capital's small letter in its place and keeps every other character |
| TextLaws.SplitIff | internal/api/project_database_role_handlers.go:186-190 | the parts of a text are the one list without the separator that joins to it |
| LockoutLimiter.AuthAttemptLimiter.AllowAll | internal/api/rate_limiters.go:67-76 | all keys are admitted exactly if the longest remaining lock is zero, and otherwise that is the delay returned; the map is only pruned |
| LockoutLimiter.AuthAttemptLimiter.RecordFailure | internal/api/rate_limiters.go:78-95 | the new map is the old one pruned, with one more failure on the key, cut down to the cap by dropping oldest entries |
| LockoutLimiter.AuthAttemptLimiter.EnforceLimitLocked | internal/api/rate_limiters.go:132-155 | at most 10000 keys stay, and no key that goes is younger than one that stays, whatever the map's iteration order |
| LoginRuns.HandleLogin | internal/api/auth_handlers.go:151-197 | a locked key refuses the login, a wrong password or second factor charges every key, and a success clears them; past the cap of keys, the failures are recorded before the oldest entries go |
| LoginRuns.KeysAreDistinct | internal/api/auth_handlers.go:210-216 | the keys of one login are different and not blank; which logins share one is the subject of `LoginAccounts.SharedKeyIff` |
| LoginRuns.EntryMatchesHistory | internal/api/rate_limiters.go:78-130 | after any run, a key's entry is the one that its recorded failures since the last success call for |
| LoginRuns.VerdictFromHistory | internal/api/rate_limiters.go:53-95 | a key makes its caller wait exactly until fifteen minutes after the fifth failure of a window |
| LoginRuns.FailureBound | internal/api/rate_limiters.go:53-130 | over any run, a closed ten-minute interval holds at most 8 of the failures recorded for a key since its last success |
| LoginBound.BoundReached | internal/api/rate_limiters.go:78-130 | a valid run of nine logins records eight failures of a key in such an interval, so the bound is exact |
| LoginRuns.LockPersists | internal/api/auth_handlers.go:158-182 | from the failure that locks a key until the lock ends, every login with the key is refused and records nothing |
| LoginAccounts.SharedKeyIff | internal/api/auth_handlers.go:210-216 | two logins are counted together exactly if they come from one address or name one account: the same trimmed text up to case, not blank |
| LoginAccounts.RefusedIff | internal/api/auth_handlers.go:151-197 | over any run, a login is refused exactly while a lock of its address or of its account lasts, as counted from the replies to earlier logins alone, and waits for the later of the two |
| LoginAccounts.LockedParty | internal/api/auth_handlers.go:158-182 | once an address or an account has locked, each of its logins is refused until the lock ends and counts nothing |
| LoginAccounts.FiveFailuresLock | internal/api/auth_handlers.go:151-216 | five failures of an account in one ten-minute window, from any addresses, refuse every login for it from any address until fifteen minutes after the fifth |
| LoginAccounts.SixthRefusedIff | internal/api/auth_handlers.go:151-216 | five wrong passwords for an account within ten minutes are each let through, and the sixth login is refused, from any address, exactly if less than fifteen minutes have passed |
| LoginAccounts.ShortRunsAreValid | internal/api/rate_limiters.go:132-155 | runs of up to 5000 logins in clock order never reach the cap |
| LoginRaces.OperationsOnOneKey | internal/api/rate_limiters.go:53-116 | a check prunes a key's entry, a recorded failure prunes it and charges its own key, a success removes its own key |
| LoginRaces.FailureBound | internal/api/auth_handlers.go:151-185 | over every interleaving of logins that read the clock, are checked and are recorded as steps of their own, at most k of them in flight, a closed ten-minute interval holds at most (e + 1) * (2k + 6) + k failures of a key since its last success, where e are in flight when it begins |
| LoginOverlap.OverlapReached | internal/api/auth_handlers.go:157-168 | for every k, a run with at most k logins in flight, none at the start, records k + 4 failures at one instant |
| LockoutPruning.PruningUnobservableFromStart | internal/api/rate_limiters.go:118-130 | with a forward clock, every sequence of calls gets the same answers and delays as from a limiter that never prunes |
| FixedWindow.FixedWindowLimiter.TakeAll | internal/api/rate_limiters.go:181-226 | either every trimmed key is charged once for each time it is named, or none is and the longest wait is returned |
| FixedWindow.FixedWindowLimiter.CheckAll | internal/api/rate_limiters.go:228-257 | the verdict and delay of TakeAll, with no charge |
| FixedWindowRuns.CheckPredictsTake | internal/api/rate_limiters.go:239-256 | checking gives the verdict that taking would, and changes no later wait |
| FixedWindowRuns.RefusalIsFree | internal/api/rate_limiters.go:192-208 | a refused call changes neither the later wait nor the next charge of any key |
| FixedWindowRuns.DelayIsEarliest | internal/api/rate_limiters.go:192-208 | after a refusal with delay r, the same keys are admitted at a later time exactly from r on |
| FixedWindowRuns.EntryMatchesHistory | internal/api/rate_limiters.go:181-226 | a key's entry is the one its admitted charges call for, over any run of takes and checks |
| FixedWindowRuns.VerdictFromHistory | internal/api/rate_limiters.go:192-208 | a key's wait can be read off its charges alone |
| FixedWindowRuns.ChargeBound | internal/api/rate_limiters.go:181-226 | a half-open interval as long as the window holds at most 2 * limit - 1 of a key's charges since its last reset |
| FixedWindowBound.BoundReached | internal/api/rate_limiters.go:181-226 | for every limit and every window of two instants or more, a valid run charges a key 2 * limit - 1 times in such an interval, so the bound is exact |
| FixedWindowKeys.SecretAccessKeysDistinct | internal/api/rate_limiters.go:286-298 | the two keys stay different when trimmed, whatever the request says |
| FixedWindowKeys.SSOCallbackFailureKeysDistinct | internal/api/auth_handlers.go:218-230 | no two of the up to four keys are the same when trimmed |
| FixedWindowShared.NormalizedIff | internal/api/rate_limiters.go:188-224 | the keys acted on are the listed ones without the white space around them, blank ones left out |
| FixedWindowShared.SecretAccessSharedIff | internal/api/rate_limiters.go:286-298 | two readings of secrets are counted together exactly if they ask for the same and come from one account or one address; fields hold no bar |
| FixedWindowShared.CallbackSharedIff | internal/api/auth_handlers.go:218-230 | two failed callbacks are counted together exactly if they share the address, or a non-blank email, name id or issuer up to case and white space |
| FixedWindowKeys.WithinLimitIff | internal/api/rate_limiters.go:211-224 | an admitted take leaves a key that it names within its limit exactly if it names it no more often than there is room |
| FixedWindowPruning.PruningUnobservable | internal/api/rate_limiters.go:163-172 | with a forward clock, every sequence of calls and resets gets the same answers as without pruning |
| AssertionReplay.SSOAssertionReplayCache.Use | internal/api/auth_handlers.go:61-80 | a signature is accepted exactly if it is not blank and not among the unexpired entries, and then it is entered with its expiry |
| AssertionReplay.Perform | internal/api/auth_handlers.go:61-90 | the steps of the callback protocol are the cache's own: a request enters with its text trimmed, and its Use and Forget move the cache and answer as the protocol says |
| AssertionReplay.AcceptedIff | internal/api/auth_handlers.go:61-90 | after any run of callbacks, a text is accepted exactly if nobody has entered it, a Forget of it has come since, or some Use since, this one included, has read the clock at or after the expiry of the request that entered it last |
| AssertionReplay.SingleUse | internal/api/auth_handlers.go:286-321 | over all interleavings of callbacks, at most one callback of a signature text succeeds, if no Use of that text comes after a Use since has read the clock at the holder's expiry or later |
| AssertionReplay.ForgetRemovesOwnEntry | internal/api/auth_handlers.go:82-90 | under the same condition, a failed request only ever removes the entry that it inserted itself |
| AssertionReplay.ReplayAcceptedIffLate | internal/api/auth_handlers.go:61-80 | until some Use of it has been late, a held text is accepted again exactly if a Use since, this one included, has read the clock at or after the expiry that the holder presented |
| AssertionReplay.TwoHoldIffLate | internal/api/auth_handlers.go:61-80 | some moment of a run has two requests holding one text exactly if some Use of that text comes late; other texts do not matter |
| AssertionReplay.FirstUseAccepted | internal/api/auth_handlers.go:61-90 | after any run, a text that no request holds is accepted, so a failed request can be retried |
| AssertionReplay.InOrderReplay | internal/api/auth_handlers.go:286-321 | when Uses read the clock in order, a held text is accepted again exactly if the clock has passed the holder's expiry; that takes a later expiry within the signed second |
| AssertionReplay.TextsOfOneSignature | internal/control/sso.go:225-238 | two successes of one decoded signature without a late Use come from different texts |
| AssertionReplayRuns.LaterExpiryReplays | internal/control/sso.go:149-184 | for any two instants of the signed second, a signature that has succeeded with the first succeeds with the second once the clock has passed the first |
| AssertionReplayRuns.OtherTextReplays | internal/control/sso.go:225-238 | for any two texts of one signature both succeed, one right after the other, and no Use is late |
| AssertionReplayRuns.StalledRequestReplays | internal/api/auth_handlers.go:286-321 | for any text, expiry and stall, requests that arrive in order, in which a stalled callback succeeds with a text that has succeeded |
| AssertionSignature.LineBreakIgnored | internal/control/sso.go:225-238 | a line break anywhere inside a signature gives another text that decodes to the same |
| AssertionSignature.PaddingIgnored | internal/control/sso.go:225-238 | a text that lacks its padding decodes to the same as the padded one |
| SignatureText.SignatureRoundTrip | internal/control/sso.go:225-238 | a signature written in base64 as section 4 of RFC 4648 has it, padded or not, decodes to itself |
| SignatureText.TextsDiffer | internal/control/sso.go:225-238 | no two signatures have one text |
| AssertionSignature.CoveredWithinSecond | internal/control/sso.go:149-160 | a signature that covers an expiry covers exactly the instants of the same second, in whichever text |
| StudioSessions.StudioSessionStore.Consume | internal/api/auth_handlers.go:490-513 | what the code's session, the project and the clock call for; the code is gone afterwards, expired ones too |
| StudioSessions.StoreMatchesHistory | internal/api/auth_handlers.go:469-521 | the store holds a code exactly if its last issue is pending and no cleanup since has read the clock at or after its expiry |
| StudioSessions.ConsumeExactly | internal/api/auth_handlers.go:469-521 | a consume is granted exactly if the code was issued and not consumed since, no cleanup since has read the clock at or after its expiry, and it is for the project; it returns the claims given at Create. Clock readings may come in any order |
| StudioSessions.ConsumeAnswer | internal/api/auth_handlers.go:490-513 | what a consume is told, from the history of the code alone: required, invalid, wrong project or the claims; never that the code has expired |
| StudioSessions.ConsumedOncePerCreate | internal/api/auth_handlers.go:490-513 | between two consumes of a code, the second of them granted, it was issued again, whatever the clock readings |
| LogServer.ProjectLogStream.WriteProjectLogEvents | internal/api/project_log_activity_handlers.go:93-107 | the entries not yet emitted are written once each, oldest first, and their ids remembered |
| LogServer.NeverRepeats | internal/api/project_log_activity_handlers.go:51-107 | the stream never repeats an id, whatever the polls return |
| LogServer.StreamIsLog | internal/api/project_log_activity_handlers.go:51-107 | with at most 100 new entries a poll, the stream is the first window and then every later entry in order |
| LogServer.StreamLength | internal/api/project_log_activity_handlers.go:51-107 | what the stream holds and what the polls' windows have passed over add up to the marshalable entries from the first window on |
| LogServer.MissedNothingIff | internal/api/project_log_activity_handlers.go:51-107 | the emitted stream is the first window and then every later entry that marshals exactly if no poll's window passes over one |
| LogServer.GapsIff | internal/api/project_log_activity_handlers.go:51-107 | when every entry marshals, exactly if at most 100 arrive between any two polls |
| EventStream.ParseServerSentEvent | frontend/src/api.ts:1258-1267 | the event name and data lines of a block |
| EventStream.LogStreamReader.Receive | frontend/src/api.ts:1235-1256 | a chunk delivers what draining the whole buffer delivers, and leaves a buffer without a complete separator; the inner loop terminates |
| EventStream.DrainSplit | frontend/src/api.ts:1235-1256 | draining a text in two parts comes to the same as draining it once |
| EventStream.ChunkingIrrelevant | frontend/src/api.ts:1235-1256 | deliveries, error and rest do not depend on how the text is cut into chunks |
| EventStream.DeliveredPrefix | frontend/src/api.ts:1235-1256 | what part of the text delivers is the beginning of what the whole delivers |
| EventLaws.EitherLineEnding | frontend/src/api.ts:1258-1267 | lines ended by a newline, or by a carriage return and a newline, are read as the same lines |
| EventLaws.OtherLinesIgnored | frontend/src/api.ts:1258-1267 | a comment or a field of another name changes nothing, wherever it stands |
| EventLaws.LastEventCounts | frontend/src/api.ts:1258-1267 | the last event field gives the name, trimmed |
| EventLaws.NameDecides | frontend/src/api.ts:1243-1252 | a block with data is a log entry or an error by its name, one without is neither |
| EventLaws.DataOverLines | frontend/src/api.ts:1258-1267 | data that goes over several lines comes back line by line, each without the white space it starts with, and so unchanged exactly if it starts with none |
| LogDelivery.StreamProjectLogs | internal/api/project_log_activity_handlers.go:40-91 | the response is the printed frames of the polls, keepalives and errors; an error ends it |
| LogDelivery.DrainOfRender | frontend/src/api.ts:1235-1267 | parsing inverts printing: log payloads in order, keepalives ignored, an error frame thrown with its quoted text less the outer quotes |
| LogDelivery.PrintParse | frontend/src/api.ts:1235-1267 | the same for every chunking |
| LogDelivery.ExactlyOnceDelivery | internal/api/project_log_activity_handlers.go:40-107 | end to end, the browser's callback gets the first window and then every later entry, once each and in order, for every chunking |
| ErrorText.ErrorDelivered | internal/api/project_log_activity_handlers.go:74-83 | end to end, a failed poll delivers what the polls before emitted and throws the error's text as %q escapes it, which is the text itself exactly if it holds no quote, backslash, control or unprintable character |
| QuotedText.EscapedReadsBack | internal/api/project_log_activity_handlers.go:74-83 | what %q prints between its quotes reads back, by the escape sequences of the Go specification, as the text |
| QuotedText.ErrorReadsBack | internal/api/project_log_activity_handlers.go:74-83 | end to end, the text that the browser throws reads back as the error of the failed poll |
| SqlText.QuoteRoundTrip | internal/api/project_database_runtime_helpers.go:124-130 | quoted text is read back as the value, ending where it should, exactly if the next character is not the same quote |
| SqlText.LexRender | internal/api/project_database_runtime_helpers.go:124-130 | fixed text and quoted values side by side lex to their own tokens, whatever the values |
| SqlText.ContainsQuoted | internal/api/project_database_runtime_helpers.go:124-130 | quoting neither makes nor breaks an occurrence of a text without quotes |
| SqlText.LexRenderIff | internal/api/project_database_webhook_handlers.go:130-181 | text with any number of dollar-quoted bodies lexes to its own tokens exactly if no body contains its delimiter |
| DatabaseRoles.DatabaseRoleGrantPrivileges | internal/api/project_database_role_handlers.go:186-209 | exactly the privileges that the comma-separated list names come out, in whatever case and spacing, schema privileges and table privileges apart; an unknown name gives none |
| DatabaseRoles.CreateExtends | internal/api/project_database_role_handlers.go:113-163 | a create that succeeds adds the role with at most its declared grants and memberships, and changes nothing else |
| DatabaseRoles.DeleteUndoesCreate | internal/api/project_database_role_handlers.go:165-184 | for a free name and any two iteration orders of the grants, deleting restores the catalog, and nothing depends on the role when it is dropped |
| DatabaseRoles.DeleteUndoesCreateIff | internal/api/project_database_role_handlers.go:113-184 | it restores the catalog exactly if the name was free |
| RoleFailures.CreateLeaves | internal/api/project_database_role_handlers.go:44-51 | for a free name, a create script leaves nothing if no role can have the name, and otherwise, complete or not, the catalog as it was plus the role with at most its declared grants and memberships |
| RoleFailures.DeleteCleansUpIff | internal/api/project_database_role_handlers.go:165-184 | deleting by the declaration restores the catalog after such a create exactly if a role can have the name, every grant list can be granted, every schema with a grant exists, and every role in the membership list exists or is the role itself |
| RoleFailures.AllAloneIff | internal/control/store.go:10054-10086 | a grant list as the store keeps it can be granted exactly if all stands alone in it |
| RoleFailures.AllBesideSelect | internal/api/project_database_role_handlers.go:147-159 | with the list all,select on public, the role stays in the catalog and its declaration cannot delete it |
| RoleSql.ApplyProjectDatabaseRoleCreate | internal/api/project_database_role_handlers.go:113-163 | the loops build the text of the create statements, in the order in which the grants are visited |
| RoleSql.ApplyProjectDatabaseRoleDelete | internal/api/project_database_role_handlers.go:165-184 | the loops build the text of the delete statements |
| RoleSql.EnsureBodyLexes | internal/api/project_database_role_handlers.go:125-129 | the guard block names the role as a literal and as an identifier, both read back exactly |
| RoleSql.RoleScriptsLex | internal/api/project_database_role_handlers.go:113-184 | the create script lexes to its statements exactly if the name does not contain `$$`, the delete script always |
| RoleSql.StoredRoleScriptsLex | internal/api/project_database_role_handlers.go:113-184 | both scripts lex to their statements for every role name that the store admits |
| RoleReader.ReadBack | internal/api/project_database_role_handlers.go:113-184 | the tokens of a statement are read as that statement, whatever follows: verb, direction, names, privileges and attributes |
| RoleMeaning.ScriptMeans | internal/api/project_database_role_handlers.go:113-184 | a script, lexed and read, is the statements it was made from |
| RoleMeaning.RoleScriptsMean | internal/api/project_database_role_handlers.go:113-184 | both scripts of a role whose name has no double dollar are read as the statements that its declaration calls for |
| RoleCreated.CreatedExactly | internal/api/project_database_role_handlers.go:113-163 | after a successful create, the role's password, inheritance, row-level security and connection limit are the declared ones, and the catalog holds exactly what it held, the declared memberships, and on every schema and table the privileges that the lists name |
| RoleCreated.TextCreates | internal/api/project_database_role_handlers.go:113-184 | reading and running the create text does so, and for a free name the delete text then restores the catalog |
| WebhookSql.ApplyProjectDatabaseWebhookDelete | internal/api/project_database_webhook_handlers.go:167-184 | an inactive webhook is left alone, and otherwise the text is one block for each event and then the drop of the function |
| WebhookSql.BlockLexesIff | internal/api/project_database_webhook_handlers.go:173-181 | a drop block lexes to its body and no more exactly if no name contains the tag |
| WebhookSql.InnerLevelsLex | internal/api/project_database_webhook_handlers.go:173-181 | the body holds the statement as one literal, and the statement the trigger, schema and table as identifiers |
| WebhookSql.DeleteTextLexesIff | internal/api/project_database_webhook_handlers.go:167-184 | the whole delete text lexes to one block for each event and the drop of the function exactly if no name contains the tag |
| WebhookSql.StoredDeleteTextLexes | internal/api/project_database_webhook_handlers.go:167-184 | it does so for every webhook that the store admits |
| WebhookCreateSql.ApplyProjectDatabaseWebhookCreate | internal/api/project_database_webhook_handlers.go:114-165 | an inactive webhook does nothing, a method other than POST or unresolved headers fail, and otherwise the text is the function and a trigger for each event |
| WebhookCreateSql.BodyLexes | internal/api/project_database_webhook_handlers.go:131-157 | inside the function body, the headers and the endpoint are read back exactly |
| WebhookCreateSql.CreateTextLexesIff | internal/api/project_database_webhook_handlers.go:131-163 | the create text lexes as intended exactly if neither the headers nor the endpoint contain `$function$` |
| WebhookScripts.DeliveryReads | internal/api/project_database_webhook_handlers.go:131-157 | the body of the function posts the described payload to the endpoint, with the headers, and waits the given seconds |
| WebhookScripts.GuardReads | internal/api/project_database_webhook_handlers.go:171-181 | the block drops the trigger from the table if to_regclass finds the table |
| WebhookScripts.CreateMeans | internal/api/project_database_webhook_handlers.go:131-163 | read as SQL, the create script makes sure of schema and extension, replaces the function, and for each event drops and creates a trigger that fires after the event on the table and calls the function |
| WebhookScripts.DeleteMeans | internal/api/project_database_webhook_handlers.go:167-184 | read as SQL, the delete script drops each event's trigger from the table and then the function |
| WebhookCatalog.InstallationRuns | internal/api/project_database_webhook_handlers.go:114-165 | installing succeeds exactly if the table is there or there are no events, and leaves the function and, under each name that is left of the triggers', the trigger created last |
| WebhookCatalog.EveryEventFiresIff | internal/api/project_database_webhook_handlers.go:203-209 | after that each event fires exactly if the webhook's name has at most 44 characters or it has only one event |
| WebhookCatalog.RemovalRuns | internal/api/project_database_webhook_handlers.go:167-184 | removing succeeds exactly if no trigger but the webhook's own calls its function, and leaves neither |
| WebhookCatalog.RemovalUndoes | internal/api/project_database_webhook_handlers.go:114-184 | removing restores a catalog in which the webhook's names were free |
| WebhookCatalog.SharedFunctionIff | internal/api/project_database_webhook_handlers.go:203-205 | two webhooks have one function exactly if they have one name, or names of at least 55 characters that start with the same 55 |
| WebhookCatalog.RedirectedIff | internal/api/project_database_webhook_handlers.go:131-157 | installing one webhook makes another's function deliver as its own exactly then, or if they deliver alike |
| WebhookCatalog.TextsRun | internal/api/project_database_webhook_handlers.go:114-184 | reading and running the texts installs a stored webhook and removes it again |
| LexicalPath.CleanStack | cmd/supadupa-docker-proxy/main.go:1018-1030 | cleaning keeps the component stack and spells it out |
| PathLaws.ParentUndone | cmd/supadupa-docker-proxy/main.go:1018-1030 | a name and then a parent component is nothing: cleaning p/c/.. and p gives the same |
| PathLaws.DotIgnored | cmd/supadupa-docker-proxy/main.go:1018-1030 | a trailing dot component or slash makes no difference |
| PathLaws.CleanFirst | cmd/supadupa-docker-proxy/main.go:1018-1030 | cleaning a path before a component is appended makes no difference |
| PathLaws.NameAppended | cmd/supadupa-docker-proxy/main.go:1018-1030 | a name is appended as it is |
| PathLaws.ShortPaths | cmd/supadupa-docker-proxy/main.go:1018-1030 | what one component, a root, or a parent of the root clean to |
| PathLaws.RootHasNoParent | cmd/supadupa-docker-proxy/main.go:1018-1030 | the parent of a path that cleans to the root is the root |
| PathLaws.ParentsKept | cmd/supadupa-docker-proxy/main.go:1018-1030 | a relative path of parent components only keeps them |
| PathLaws.ParentOfParents | cmd/supadupa-docker-proxy/main.go:1018-1030 | and takes one more |
| LexicalPath.UnderIff | cmd/supadupa-docker-proxy/main.go:1018-1030 | equal or prefix-with-slash on cleaned paths is prefix on component stacks |
| ProjectScope.BindPathIff | cmd/supadupa-docker-proxy/main.go:1018-1030 | an absolute source is allowed exactly if its components begin with those of the project's directory |
| PathLaws.BackInIff | cmd/supadupa-docker-proxy/main.go:1018-1030 | for plain names, root/ref/../x/c is allowed for ref exactly if x is ref |
| PathLaws.BelowRootIff | cmd/supadupa-docker-proxy/main.go:1018-1030 | and so is root/x/c |
| ProjectScope.AbsoluteBindHasNoParent | cmd/supadupa-docker-proxy/main.go:972-984 | no allowed absolute source has a parent component |
| ProjectScope.RelativeBindIff | cmd/supadupa-docker-proxy/main.go:997-1004 | a relative source is allowed exactly if it is spelled as one and has no parent component |
| ProjectScope.BindPathsDisjoint | cmd/supadupa-docker-proxy/main.go:1018-1030 | no absolute source is allowed for two projects |
| ProjectScope.VolumesDisjoint | cmd/supadupa-docker-proxy/main.go:1006-1016 | no named volume is allowed for two projects |
| ProjectScope.SharedBindsAreRelative | cmd/supadupa-docker-proxy/main.go:972-984 | a source allowed for one project is allowed for another exactly if it is relative |
| ProjectScope.ValidateDockerHostConfig | cmd/supadupa-docker-proxy/main.go:912-957 | a container is accepted exactly if no privilege, host namespace, bind or mount is refused |
| ScopeLaws.MountAllowedIff | cmd/supadupa-docker-proxy/main.go:912-1030 | of the kinds of mount a tmpfs is allowed, a bind if its components begin with those of the project's directory or it is relative and has no parent component, a volume if it has no name or the ref and an underscore start it, and nothing else |
| ScopeLaws.BindSourceIs | cmd/supadupa-docker-proxy/main.go:912-984 | the source of a bind is what stands before its first colon, trimmed |
| ScopeLaws.HostNamespaceIff | cmd/supadupa-docker-proxy/main.go:912-957 | the host namespace is asked for by its name in any case, with white space around it or not |
| ScopeLaws.VolumeAllowedIff | cmd/supadupa-docker-proxy/main.go:1006-1016 | a named volume is allowed exactly if it is the ref, an underscore and more |
| ProjectScope.EntrypointIff | internal/control/functions.go:182-192 | an entrypoint is accepted exactly if it is relative, names something and has no parent component; the last condition never decides |
| ProjectScope.EntrypointInside | internal/control/functions.go:182-192 | an accepted entrypoint lies under the directory it is joined to |
| ScopeLaws.SmallEntrypoints | internal/control/functions.go:182-192 | a file is taken as it is, in the directory or below; leaving a subdirectory is undone; leaving the directory, the directory itself and paths from the root are refused |
| ScopeLaws.BlankEntrypoint | internal/control/functions.go:182-192 | a blank entrypoint is index.ts |
| ScopeLaws.EitherSlash | internal/control/functions.go:182-192 | either slash separates directories |
| StackVersions.StackVersionParts | internal/api/project_lifecycle_handlers.go:359-376 | the numeric parts are the leading digits of the fields |
| StackVersions.CompareStackVersions | internal/api/project_lifecycle_handlers.go:333-357 | the loops compute the comparison that the next rows are about |
| StackVersions.CompareAntisymmetric | internal/api/project_lifecycle_handlers.go:333-357 | exchanging the versions changes the sign |
| StackVersions.CompareZero | internal/api/project_lifecycle_handlers.go:333-357 | zero exactly if the trimmed versions are equal, despite padding |
| StackVersions.CompareTransitive | internal/api/project_lifecycle_handlers.go:333-357 | transitive, despite the tie-break on text |
| VersionMeaning.NewerIff | internal/api/project_lifecycle_handlers.go:333-357 | the left version is newer exactly if it has the larger number at the first index where the numbers differ, missing ones counting as 0, or, when none differ, the trimmed text with the larger character at the first difference or the longer text |
| VersionMeaning.VersionParts | internal/api/project_lifecycle_handlers.go:359-376 | the version spelled by the decimals of two numbers has these as its numbers |
| VersionMeaning.TwoNumbersIff | internal/api/project_lifecycle_handlers.go:333-376 | of two such versions the newer is the one with the larger first number or, for the same one, the larger second |
| StackVersions.ValidateUpgradeTarget | internal/api/project_lifecycle_handlers.go:311-327 | a target is accepted exactly if it is supported and newer |
| VersionMeaning.UpgradableIff | internal/api/project_lifecycle_handlers.go:311-327 | an upgrade between such versions is accepted exactly if the target is supported and its numbers are the larger ones |
| UpgradeSaga.ProjectStack.Upgrade | internal/api/project_lifecycle_handlers.go:118-235 | the protocol's effects in order, and the versions and answer they leave |
| UpgradeMeaning.ProceedsIff | internal/api/project_lifecycle_handlers.go:118-160 | a request gets to the provisioner exactly if its version is supported, newer and not installed, its backup is at hand and may be relied on, and, where required, the first target of the backup's id is off the host and ready |
| UpgradeMeaning.EffectsInOrder | internal/api/project_lifecycle_handlers.go:135-224 | what a request touches, in order: backup, the one call for the new version, and then either the store write, last and only after that call succeeded, or a call for the version found and, last, a restore of this request's own backup |
| UpgradeMeaning.AnswerIff | internal/api/project_lifecycle_handlers.go:118-235 | each answer exactly if the first thing to go wrong is the one it tells of |
| UpgradeSaga.AgreementIff | internal/api/project_lifecycle_handlers.go:135-224 | store and runtime agree after a request exactly if it got past validation, backup and durability and met neither a rollback that fails into another version nor a failed final write, or did not get there and they agreed before |
| UpgradeSaga.RunAgreesIff | internal/api/project_lifecycle_handlers.go:135-224 | after any run they agree exactly if the last request that got to the provisioner met neither failure, or, if none got there, if they agreed at the start |
| UpgradeSaga.AnswersTellTheVersion | internal/api/project_lifecycle_handlers.go:135-224 | from agreement, each answer tells the stored version and, unless the rollback failed, the running one |
| UpgradeSaga.AgreementAlways | internal/api/project_lifecycle_handlers.go:135-224 | a run that starts in agreement and in which rollbacks and final writes succeed ends in agreement |
| UpgradeSaga.AlwaysBackedUp | internal/api/project_lifecycle_handlers.go:251-277 | no provisioner call comes before a backup of the same request; a supplied one is completed, logical, verified and has its artifact |
| UpgradeSaga.UpgradesFormChain | internal/api/project_lifecycle_handlers.go:135-224 | the stored versions of any run only go up, within the supported ones |
| UpgradeSaga.UpgradesBounded | internal/api/project_lifecycle_handlers.go:311-331 | a run changes the stored version at most as often as there are supported versions |
| UpgradeOverlaps.RaceAgreesIff | internal/api/project_lifecycle_handlers.go:118-235 | at any moment of any interleaving of requests, store and runtime agree exactly if the last provisioner call left what its request would find in the store now |
| UpgradeOverlaps.UndisturbedAgreesIff | internal/api/project_lifecycle_handlers.go:118-235 | if no other request has written since the last caller read, they agree exactly if its write has succeeded or its last call brought back what it had read |
| UpgradeOverlaps.DisturbedAgreesIff | internal/api/project_lifecycle_handlers.go:118-235 | if another one has, exactly if it wrote what the last call left |
| UpgradeOverlaps.WriteRaisesIff | internal/api/project_lifecycle_handlers.go:220-224 | a write raises the stored version exactly if no other has come since its request read, or the last that has was of a lower version |
| UpgradeOverlaps.NeverLowersIff | internal/api/project_lifecycle_handlers.go:220-224 | the stored version never goes down in a run exactly if no write comes after another request's write of a higher version |
| UpgradeOverlaps.OneByOneIsAfter | internal/api/project_lifecycle_handlers.go:118-235 | requests that do not overlap leave the versions that the runs of the upgrade protocol do |
| UpgradeOverlaps.CrossingSplits | internal/api/project_lifecycle_handlers.go:118-235 | any two requests for different versions can cross, without any failure, so that the stored version goes down and the runtime is ahead of it |
| UpgradeOverlaps.OverwritingSplits | internal/api/project_lifecycle_handlers.go:160-224 | a rollback can take a version that another request has installed and stored off the runtime |
| RestoreReconcile.ReconcilePlatformRestoreRuntime | internal/api/platform_backup_handlers.go:119-175 | each restored project is created once, each ref that is gone destroyed once, and both counted |
| RestoreReconcile.RunningIff | internal/api/platform_backup_handlers.go:119-175 | a runtime runs afterwards exactly if it ran before or was wanted and could be created, unless its project is gone and its runtime could be stopped, even if the cleanup then failed |
| RestoreReconcile.InListOrder | internal/api/platform_backup_handlers.go:119-175 | creations are called in the order of the list, once for each project that is not being destroyed |
| RestoreReconcile.EverythingIsAccounted | internal/api/platform_backup_handlers.go:119-175 | each project to create and each ref that is gone is counted once, as reconciled, as destroyed or as an error; no error exactly if every call succeeds |
| RestoreReconcile.ConvergesWithoutErrors | internal/api/platform_backup_handlers.go:119-175 | without errors exactly the restored projects were started and the stale ones stopped; no other ref is touched |
| RestoreReconcile.SecondPass | internal/api/platform_backup_handlers.go:119-175 | a second pass retries the creations but no destruction; if it creates everything, exactly the runtimes that the first pass failed to stop are left over |
| Traffic.SplitRouterRef | internal/api/project_traffic_handlers.go:60-70 | the loop finds the first owning ref |
| Traffic.LongestOwner | internal/api/project_traffic_handlers.go:60-79 | over refs of descending length it is the unique longest owner, and there is none exactly if no ref owns the router |
| Traffic.OwnerByName | internal/api/project_traffic_handlers.go:60-79 | a router has no owner exactly if it is no ref and starts with no ref and a hyphen; otherwise its owner is the longest such ref, and its route is what follows, or "root" |
| Traffic.TieOrderIrrelevant | internal/api/project_traffic_handlers.go:72-79 | the order of refs of equal length does not matter |
| Traffic.RouterFromOwner | internal/api/project_traffic_handlers.go:60-70 | the router is the ref, a hyphen and the route, or the bare ref with the route "root" |
| Traffic.SameOwnerIff | internal/api/project_traffic_handlers.go:60-70 | two routers get one answer exactly if they are equal, or the bare ref and its "root" route |
| Traffic.ViewAgreesIff | internal/api/project_traffic_handlers.go:103-164 | a view over some of the refs attributes routers as the view over all does exactly if no hidden ref extends a visible one with a hyphen |
| Traffic.ProjectViewAgreesIff | internal/api/project_traffic_handlers.go:103-126 | so a project's own view agrees with the fleet's exactly if no other ref extends its ref with a hyphen |
| Traffic.TrafficTotals.Accumulate | internal/api/project_traffic_handlers.go:81-101 | one route's traffic is added to the totals |
| Traffic.TotalConserves | internal/api/project_traffic_handlers.go:81-101 | with nonnegative rates, the counters and the rate-weighted error rate and latency are the sums over the routes |
| Traffic.TotalOrderIrrelevant | internal/api/project_traffic_handlers.go:81-101 | these do not depend on the order of the routes |
| TrafficP95.P95OrderIff | internal/api/project_traffic_handlers.go:92-100 | the 95th percentile is the same in every order of the routes exactly if no route has traffic, or none without traffic exceeds all routes with some |
| TrafficP95.P95IsBusyMax | internal/api/project_traffic_handlers.go:92-100 | then, if there is traffic, it is the largest of the routes with traffic |
| TrafficP95.P95Differs | internal/api/project_traffic_handlers.go:92-100 | otherwise it is smaller with the routes without traffic first than with them last |
| Traffic.FleetTraffic | internal/api/project_traffic_handlers.go:128-164 | each ref that owns a router gets the total of its routers, and the fleet's total is the sum of the projects' |
| Traffic.AttributedIff | internal/api/project_traffic_handlers.go:128-164 | a router counts for a ref exactly if the ref is the longest that it is, or that starts it with a hyphen after |
| Traffic.SummaryIff | internal/api/project_traffic_handlers.go:142-159 | each summary is the total of its own ref's routers, and each listed ref that has one gets a summary |
| Traffic.ProjectTraffic | internal/api/project_traffic_handlers.go:103-126 | the project's routes with their names, and their total |
| Traffic.FleetIsSumOfProjects | internal/api/project_traffic_handlers.go:142-159 | for distinct refs, every attributed router is counted for exactly one project |
| ProjectAccess.OrgRoleForEmail | internal/api/authz_helpers.go:361-373 | the role of the first member with the address, or none |
| ProjectAccess.ProjectsVisibleToRequest | internal/api/authz_helpers.go:279-327 | the listed projects in order, or the first failure of the store |
| ProjectAccess.AdmissionIsDownwardClosed | internal/api/authz_helpers.go:241-277 | who is admitted at a role is admitted at every lower one |
| ProjectAccess.AdmittedIff | internal/api/authz_helpers.go:241-277 | current claims are admitted exactly if the org's members can be read and the org or the project role reaches the minimum |
| AccessByName.GateByName | internal/api/authz_helpers.go:55-68 | with current claims and readable members, the gate admits at owner, admin, developer or viewer exactly if the first member with the user's address, or the project's grant, has one of the roles that reach it, by name, trimmed and in any case |
| AccessByName.CurrentIff | internal/api/authz_helpers.go:175-214 | claims are current exactly if they name a subject that the store has, at its token version, versions below one counting as one |
| AccessByName.Refusals | internal/api/authz_helpers.go:175-277 | without current claims the gate answers with the store's failure, a missing, invalid or stale token, or, without claims and with the bypass, admission |
| AccessByName.RefusalOfCurrent | internal/api/authz_helpers.go:241-277 | current claims that are not admitted are refused as forbidden or with the store's failure |
| ProjectAccess.ListedIffAdmitted | internal/api/authz_helpers.go:279-327 | a listed project is admitted, and an admitted one is missing exactly if only its unlisted org admits the caller |
| AccessByName.ListByName | internal/api/authz_helpers.go:279-327 | the list of a caller who is no administrator has exactly the projects whose org is listed and has the address as a member with a role by name, or that grant the address one |
| AccessByName.ListWithoutRoles | internal/api/authz_helpers.go:279-293 | without claims the list is everything with the bypass and nothing otherwise; a platform administrator's is everything |
| ProjectAccess.ListEqualsGateIff | internal/api/authz_helpers.go:241-327 | the list is, in order, what the gate admits at viewer, exactly if every project that only its org opens has its org listed |
| ProjectAccess.AdminListEqualsGateIff | internal/api/authz_helpers.go:291-293 | an administrator's list agrees with the gate exactly if an ordinary role admits the administrator everywhere |
| PersistentEncryption.PersistentEncryptionFromEnv | internal/control/persistent_encryption.go:37-84 | assigning the fields step by step selects the command before the vault file before the local key, unless a provider is named |
| EncryptionByEnvironment.RefusedIff | internal/control/persistent_encryption.go:37-84 | an environment is refused exactly if its vault file is named and gives no key, or its provider is unknown or lacks its variable, each with its own error |
| EncryptionByEnvironment.WritesOneWay | internal/control/persistent_encryption.go:37-84 | every other environment writes in exactly one way: locally, with the vault key or by the command |
| EncryptionByEnvironment.PayloadOf | internal/control/persistent_encryption.go:37-203 | byte by byte: the marker of the way, the nonce, and the text sealed with the hash of the trimmed secret, of the development secret if that is blank, or of the trimmed vault file; or the marker and the command's answer |
| EncryptionByEnvironment.LocalReadIff | internal/control/persistent_encryption.go:119-126 | what one environment wrote locally another reads exactly if the two secrets hash alike, and otherwise refuses as not authentic |
| EncryptionByEnvironment.SecretsApart | internal/control/persistent_encryption.go:119-126 | equal trimmed secrets read each other, a blank secret is the development secret, and secrets that the hash keeps apart do not read each other |
| EncryptionByEnvironment.VaultReadIff | internal/control/persistent_encryption.go:128-142 | what one wrote with its vault key another reads exactly if it has a vault file whose trimmed text hashes alike |
| EncryptionByEnvironment.CommandRead | internal/control/persistent_encryption.go:94-117 | what one wrote by its command another reads with the same trimmed command, hands to its own if that is another, and refuses without one |
| PersistentEncryption.PersistentEncryptionRouter.Decrypt | internal/control/persistent_encryption.go:94-117 | a payload that a provided cipher wrote gives its plaintext back, one that a key wrote which is not provided fails, and so does a command's payload without a command |
| PersistentEncryption.EncryptWith | internal/control/persistent_encryption.go:145-203 | what comes out decrypts to the plaintext with the same cipher, and with no other key under its prefix |
| PersistentEncryption.FramingUndone | internal/control/persistent_encryption.go:145-209 | a payload starts with the cipher's prefix, and taking off prefix and nonce and opening the rest gives the plaintext |
| PersistentEncryption.OtherKeyFails | internal/control/persistent_encryption.go:166-194 | another key under the same prefix refuses it as not authentic |
| PersistentEncryption.PrefixesApart | internal/control/persistent_encryption.go:16-18 | no payload starts with two of the prefixes |
| PersistentEncryption.ReadableIff | internal/control/persistent_encryption.go:94-217 | what one cipher wrote a configuration reads if it provides that cipher, for a key only then, and never without the provider |
| PersistentEncryption.LegacyPassesThrough | internal/control/persistent_encryption.go:114-116 | payloads without a prefix come back unchanged under every configuration |
| PersistentEncryption.ReadableAfterRun | internal/control/persistent_encryption.go:37-217 | after any run of configurations and writes, every stored payload is readable under a later configuration that provides the cipher used; one that a key wrote, under no other |
| PersistentEncryption.SwitchingProvidersLosesNothing | internal/control/persistent_encryption.go:37-117 | a run that only switches between providers that stay configured loses no payload |

## Left out

- LoginRuns.FailureBound: does not cover runs that reach the cap of 10000 keys, because an evicted key starts afresh by design.
- LoginRaces.FailureBound: does not cover them either; and it is not proved that every value of its bound is reached.
- LockoutPruning.PruningUnobservableFromStart: does not cover eviction, which is a matter of memory and not of time.
- PersistentEncryption.ReadableIff: says nothing of a different KMS command, which may or may not be able to decrypt.
- FixedWindowShared.SecretAccessSharedIff: does not cover fields with a bar in them, which can run into each other.
- WebhookCatalog.RemovalRuns: does not cover a table that is gone, with which its triggers went.
- VersionMeaning.UpgradableIff: is about versions of two numbers; `VersionMeaning.NewerIff` is about all.
- What the trigger function's expressions evaluate to: their text is pinned, not their evaluation.
- UpgradeOverlaps.RaceAgreesIff: takes each call of the provisioner as one step, because what overlapping calls do inside it is not part of this model.
- UpgradeSaga.AgreementIff: takes the runtime's version after a failed call as arbitrary, because the provisioner's internals are not part of this model.
- Locking itself: each locked operation is one step. The nil receivers of the limiters and caches, which admit everything, have no state.
- Letters outside ASCII in case mapping, digits outside ASCII in version parts, and numbers beyond 64 bits in them.
- The Retry-After header, which truncates delays to whole seconds: the delays are stated as durations.
- The saturation of Go durations, and rounding of floating-point numbers.
- Error texts that are not valid UTF-8. Decoding of UTF-8 in the browser, the fetch call, and the JSON of the log payloads.
- Escape strings, Unicode escapes and non-standard settings of string literals in the SQL lexer; comments, which no generated text contains.
- What REVOKE FROM "public" takes from everybody, before the DROP ROLE that fails.
- Grant options, grantors and default privileges in the catalog model of roles.
- The order in which a Go map is visited: loops over grants and entries are proved for every order.
- The final sorting of the traffic answers by route or rate, and the fields that are only copied.
- The masking of webhook headers and the resolution of secret handles, which are an input.
- The environment switch that turns off applying changes to project databases.
- Restoring a backup after a failed upgrade, beyond the answer it gives.
- The restore of the platform's own store before reconciliation, and the cleanup of files of a destroyed project.
- Request plumbing: handlers that check a role, call the store, audit and write JSON.
- The store, the provisioner, Docker, psql and the KMS process: their answers are inputs.
