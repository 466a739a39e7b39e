# Identity service: a verified model

This project models the core of the identity service in Dafny: the tables and SQL
statements of its repository, the transactions its calls run, calls in flight whose reads
and commits interleave in any order, and the text formats it prints and parses. It proves
what the service promises over every run of that model. `dafny verify dfyconfig.toml`
checks all of it.

## How it is built

- **Tables** (`Users`, `Sessions`, `Mfa`, `Resets`, `Accounts`, `Outbox`). Each table has its
  row type, its statements, and a function that says what a statement does: the new table
  and the affected-row count, or the error. Primary keys, unique indexes and foreign keys of
  the migrations are part of these functions.
- **Transactions** (`Database`, `Transactions`). A transaction is a plan of statements;
  `Exec` runs all of them or none. `PlanOf` gives the plan of each of the service's 29
  transactions and autocommitted statements.
- **Repository** (`Sql`, `Repository`, `Replay`, `Cleaner`, `Retention`). The same tables as
  fields of a class, one method per SQL statement, with a transaction that restores them on
  error. Every UPDATE is one counting scan of its table; that it changes at most one row, and
  when it reports staleness, follows from its WHERE clause. The class is proved to do what the
  statements and `Exec` say, and, driven by any schedule, to hold the tables of the state
  machine below. The single statements have no rows of their own below: their contracts say
  that they are the statement functions, and what those mean is what the theorems say.
- **Calls and runs** (`Rows`, `Calls`, `World`). A call is the list of its interactions so
  far: rows read, clock readings, transactions run. `Permits` is the service code: after
  these interactions the call runs this transaction. A run is any sequence of clock ticks,
  reads, clock readings and commits of any number of calls.
- **Theorems over all runs**, in every interleaving. What the columns hold, as a function of
  the log of committed transactions: `Columns`, `SessionColumns`, `Integrity`, `AuditTrail`,
  `LoggedInputs`. What a call had seen and when before it commits: `Moments`, `Grounds`,
  `MfaGrounds`, `PasswordGrounds`. What follows: `Locking`, `Refresh`, `Owners`, `MfaHistory`,
  `CodeHistory`, `MfaLedger`, `OutboxHistory`, `PasswordLedger`, `EventTruth`, `EventReads`,
  `ResetHistory`, `Bearer`, `Retained`, `InactiveOwners` and `Lockout`. `WholeCalls`,
  `LiveOwners` and `Guessing` are about runs in which each call is one atomic step.
- **Where a promise fails**. Three natural promises are false of the interleaved service or of
  the parser, and each has its failing input and its exact condition. Users who are not active
  can have live sessions: `LateLogin` and `InactiveOwners`. Events can quote an outdated status
  or tenant: `StaleRuns` and `EventReads`. Printing does not undo parsing of password hashes:
  `Passwords.ParserIsLenient` and `Passwords.PrintUndoesParseExactly`.
- **Texts** (`Radix`, `BaseN`, `Decimals`, `Texts`, `Passwords`, `OneTimeCodes`, `Totp`,
  `RecoveryTexts`, `Utf8`). The codecs, with their loops as methods.

## What is taken for granted

- Identifiers, tokens and free text are atoms. A token and its SHA-256 or HMAC hash are one
  atom, so the hashes are taken to be injective.
- Random identifiers and tokens are new: a transaction that generates one already used, or
  one of the service's own actor names, is not a step of the model.
- All calls read one clock, which never goes back. Statements of one transaction take effect
  at one instant; an error at commit itself is a rollback.
- In the state machine an Argon2id hash determines its password. In `Passwords` it is an
  arbitrary function of its inputs that returns a key of the length asked for. HMAC-SHA1 is
  an arbitrary function that returns 20 bytes.
- A failed login counts when its record is stored. The service ignores an error of that write,
  and a password check that fails elsewhere (a password change, MFA set-up) records nothing.
- `UpperChar` leaves every character alone whose capital is not an ASCII letter; none of
  them can occur in a secret or recovery code.

## Model

| member | source | states |
|---|---|---|
| `Owners.RefreshOwnerActive` | internal/identity/service.go:229-260 | In every interleaving, when a refresh commits its owner is active at that instant or the session has already expired, and the owner, tenant and membership signed into the token are those of the row at that instant |
| `Owners.StatusChangeRevokes` | internal/identity/service.go:409-426 | A committed change to a status other than active leaves no session of that user live, which is what the refresh guarantee rests on |
| `Grounds.SecondFactorDecides` | internal/identity/service.go:121-157 | In every interleaving a login opens a session only after the password last set for the user's credential was given, the user seen active and unlocked, the pass recorded, and then the enrollment read not enabled at that moment; it opens a challenge exactly when it was read enabled |
| `Grounds.LoginRecordedRightly` | internal/identity/service.go:130-141 | A login is recorded as passed exactly when the password given was the one last set for the credential at the moment it was read, and otherwise as failed; the user was active and not locked |
| `Grounds.RefreshedInTime` | internal/identity/service.go:229-247 | In every interleaving a refreshing call read the session unrevoked and with the token it presents, then the clock less than thirty days after the session was opened, then the owner active |
| `Grounds.RefreshedRowInTime` | internal/identity/repository.go:311-317 | The row a refresh commits to expires after a clock reading of the call, although the UPDATE does not test the expiry |
| `Grounds.ScopedInTime` | internal/identity/repository.go:319-325 | A session is scoped to a tenant only while it is the user's and unrevoked, and unexpired by the clock of the call |
| `WholeCalls.NoFactorSkipped` | internal/identity/service.go:142-152 | With each call one atomic step, no login opens a session for a user whose MFA is enabled, and none opens a challenge for any other |
| `WholeCalls.RefreshAccepted` | internal/identity/service.go:229-260 | With each call one atomic step, a refresh comes to its commit only when the session accepts the token at that moment and its owner is active |
| `WholeCalls.VerifiedNow` | internal/identity/mfa_service.go:60-117 | With each call one atomic step, a verification comes to its commit only while the challenge is open, unexpired and the user's, the user active and MFA enabled |
| `WholeCalls.ResetNow` | internal/identity/password_reset_service.go:73-111 | With each call one atomic step, a reset comes to its commit only while the token is open, unexpired and the user's, and the user active |
| `WholeCalls.StepAcceptedNow` | internal/identity/mfa_crypto.go:121-138 | With each call one atomic step, an accepted time step is within one of the present one |
| `MfaGrounds.StepsAcceptedInTime` | internal/identity/mfa_service.go:300-384 | In every interleaving an accepted time step was within one of floor(now / 30 s) at a clock reading of the call, as section 5.2 of RFC 6238 has it, and newer than the last step on record when the enrollment was read; a set-up was confirmed within ten minutes of being started |
| `MfaGrounds.VerifiedInTime` | internal/identity/mfa_service.go:60-117 | In every interleaving a verification answers a challenge that the log issued to its user and client, unanswered when read and unexpired by the clock of the call, for a user seen active with MFA enabled |
| `PasswordGrounds.RightPasswordGiven` | internal/identity/mfa_service.go:629-639 | In every interleaving a password change and every change of the second factor by its user followed a read at which the password given was the one last set for that user's credential |
| `PasswordGrounds.NewPasswordCounts` | internal/identity/repository.go:83-101 | Right after a password change or reset commits the new password verifies and the one in force until then does not, which for a change is the one the user gave |
| `PasswordGrounds.ResetInTime` | internal/identity/password_reset_service.go:73-111 | In every interleaving a password is reset with a token the log issued to its user, unused when read and less than thirty minutes old by the clock of the call, for a user seen active |
| `PasswordGrounds.IssuedToActive` | internal/identity/password_reset_service.go:21-71 | A reset token is issued only to a user seen active |
| `Moments.Chronicled` | internal/identity/service.go:229-247 | Every interaction of a call is a step of the run at which what it saw was so, in order |
| `Columns.AccountsFollowLog` | internal/identity/repository.go:29-42 | In every run a user's name, profile and status, a credential's owner and secret, and a service account's secret, status and origin are the last ones the log wrote |
| `Columns.MfaFollowsLog` | internal/identity/mfa_repository.go:27-291 | In every run an enrollment's secret, status, last step and enabling time, and a user's recovery codes and when each was used, are what the log last wrote |
| `Columns.TokensFollowLog` | internal/identity/password_reset_repository.go:27-89 | In every run the owner, client, reason and expiry of a login challenge or reset token are those it was issued with (a reset token lives thirty minutes), and it was used up when the log says |
| `SessionColumns.SessionsFollowLog` | internal/identity/repository.go:203-433 | In every run every column of a session is what the log says: owner, client and thirty days from its opening; the last token, use, tenant and membership since; if revoked, time and reason of the first transaction since that ends it, and unrevoked if there is none |
| `LoggedInputs.LogSensible` | internal/identity/service.go:683-706 | In every run lifetimes and cutoffs are the configured ones, a tenant scope names tenant and membership, recovery codes come in tens, and what asks for a version, reason or session has one |
| `LoggedInputs.AccountsActiveOrDisabled` | internal/identity/service.go:865-888 | In every run a service account is active or disabled, never locked or closed |
| `LoggedInputs.ChallengeLifetime` | internal/identity/mfa_service.go:22-58 | A login challenge expires the configured lifetime after it was opened |
| `Integrity.ConstraintsHold` | migrations/postgres/000002_identity_domain.up.sql:9-48 | In every run user names, e-mail addresses, refresh tokens and client ids are unique, each user has at most one password, and nothing belongs to a user who does not exist |
| `Integrity.ConstraintsKept` | migrations/postgres/000002_identity_domain.up.sql:9-48 | Every transaction that commits, whatever its statements, keeps these constraints |
| `Integrity.RegistrationFails` | internal/identity/service.go:87-119 | In a run a registration fails exactly when the name or e-mail address is taken, and then with a conflict |
| `AuditTrail.EveryRowStamped` | internal/identity/repository.go:141-163 | Whatever commits, every row it touches bears its actor and time with the version one higher and the origin kept, every row it makes bears them at version one, and no other audit columns change |
| `MfaHistory.StepsAcceptedOnce` | internal/identity/mfa_service.go:60-159 | In every interleaving the TOTP steps accepted since the secret was last written are non-negative and strictly increasing, and the stored secret is the one written then |
| `MfaHistory.EpochRun` | internal/identity/mfa_repository.go:27-171 | Pending means no step accepted and last step -1; enabled means the last accepted step is on record |
| `Refresh.TokenSpentOnce` | internal/identity/service.go:229-260 | Of all refreshes presenting one token at most one ever commits, it presented the last token issued for its session, and afterwards no session carries that token |
| `Refresh.SpentTokenRefused` | internal/identity/service.go:229-243 | A spent token is refused by every session at every later moment |
| `Refresh.LiveSessionToken` | internal/identity/service.go:178-217 | A live session accepts exactly the last token issued for it, no other session accepts that token, and no chain of refreshes takes it past thirty days from creation |
| `OutboxHistory.OutboxFaithful` | internal/identity/mfa_service.go:359-379 | At every reachable state, folding the outbox in commit order gives each user's MFA state, status and profile, and each service account's status |
| `EventTruth.EventsAreTrue` | internal/identity/service.go:941-956 | Whatever commits on whatever database, the one event it appends is true in all the commit itself decides: new status, new profile and audit columns, the one session revoked and why, the count of sessions revoked, the recovery codes left, and the kind of password or MFA change |
| `EventReads.EventTrueExactly` | internal/identity/service.go:262-288 | In every interleaving, an event that quotes an earlier read (previous status, the user shown with a profile, owner and tenant of a revoked session) is wholly true if and only if the last status change or tenant scope committed between that read and the commit, if any, wrote what is quoted |
| `EventReads.OtherEventsTrue` | internal/identity/service.go:332-365 | Every other event is wholly true over every run; a password event names the owner of the one credential changed and of every session revoked, and after a recovery the reason its token was issued for |
| `EventReads.TrueAtVersionRead` | internal/identity/service.go:558-663 | A call that passes the version it read always writes a wholly true event |
| `EventReads.QuoteMoment` | internal/identity/service.go:270-278 | The row an event quotes was read by that call at a step of the run at which it stood as quoted |
| `StaleRuns.StaleTenant` | internal/identity/service.go:262-288 | A run in which a logout, read before the session was scoped to a tenant, commits and names the old tenant |
| `StaleRuns.StalePreviousStatus` | internal/identity/service.go:392-431 | A run in which a status event names a previous status that was not the one replaced |
| `StaleRuns.StaleShownStatus` | internal/identity/service.go:454-479 | A run in which a profile event shows an active user whose row is disabled |
| `StaleRuns.StaleAccountStatus` | internal/identity/service.go:865-888 | The same for the previous status of a service account |
| `Writes.ColumnsSince` | internal/identity/repository.go:157-163 | Between any two moments of any run a status is the last one written in between, a tenant the last one scoped to, and a session's owner and a user's name and origin never change |
| `PasswordLedger.VersionCountsPasswordEvents` | internal/identity/repository.go:83-101 | At every reachable state a credential's version is one plus the password events of its user |
| `MfaLedger.VerificationsConserved` | internal/identity/mfa_service.go:118-151 | Over every run: challenges ever consumed = sessions created by verification = steps advanced by verification + recovery codes ever consumed, counted by comparing the tables around every step |
| `CodeHistory.TenCodesWhileEnabled` | internal/identity/mfa_repository.go:173-223 | A user has exactly ten recovery rows when enabled and none otherwise, and the unused ones are ten minus the recovery logins since the last replacement |
| `CodeHistory.VerifiedWhileEnabled` | internal/identity/mfa_service.go:118-151 | Every verification commits while MFA is enabled, also one by recovery code, whose statements never look at the enrollment |
| `Retained.NothingRemovedEarly` | internal/identity/repository.go:212-227 | In every run, with any commits between SELECT and DELETE, a session, challenge or reset row that is gone was removed by a step at whose moment a whole retention period had passed since, by the log, it was revoked, or, if never, expired thirty days from its opening or at the end of its issued lifetime |
| `Cleaner.SessionCleaner.Clean` | internal/identity/session_cleanup.go:57-98 | With no other writer the three batched loops end, and each table is left as one filter at the cutoff of its last batch would leave it, although the cutoff moves |
| `Cleaner.SessionCleaner.constructor` | internal/identity/session_cleanup.go:36-55 | Retention and batch size come out positive for every configuration, thirty days and 500 by default, which is what makes the loops end |
| `Retention.Clean` | internal/identity/session_cleanup.go:57-69 | One batched loop over any table: termination, and equality with the one-shot filter |
| `Retention.Select` | internal/identity/repository.go:212-217 | The due rows in order of end time and id, cut at the limit |
| `Retention.Delete` | internal/identity/repository.go:218-227 | Removes exactly the listed rows that are still due, and counts them |
| `Bearer.IssuedTokenGated` | internal/auth/jwt.go:33-49 | Every user token ever issued is accepted exactly while its session is there, unrevoked and unexpired; the principal is then a user, the owner of that session, with the tenant and membership of the refresh or scoping that issued it, or none after a login |
| `Bearer.AnyTokenGated` | internal/auth/jwt.go:33-55 | For any claims: a user token with a session is accepted exactly while that session is the subject's, unrevoked and unexpired, any other that parses always; the principal repeats the claims field by field, and without an identity store is a service account |
| `Bearer.RefusedForever` | internal/identity/service.go:508-517 | A user token whose session has been revoked, has expired or is gone is refused at every later moment, whether or not the cleaner deletes the row |
| `Bearer.EndedIsOver` | internal/identity/service.go:508-517 | A session that is present and refused satisfies the condition under which refusal is permanent |
| `Bearer.RevokedOnce` | internal/identity/repository.go:327-433 | Revocation time and reason are those of a logged transaction that ends sessions like this one, written once; no later update changes any field of a revoked row |
| `Locking.VersionCountsUpdates` | internal/identity/repository.go:141-186 | In every reachable state a row's version is one plus the number of updates committed to it |
| `Locking.SameVersionSameRow` | internal/identity/repository.go:311-433 | No ABA: at any two moments of any run, a row with the same version is the same row |
| `Locking.OneWriterPerVersion` | internal/identity/repository.go:550-559 | Of all writers guarding on one version of one row at most one ever commits |
| `Locking.NoLostUpdate` | internal/identity/repository.go:83-101 | A writer that guards on the version it read commits only if the whole row is still what it read |
| `Locking.ReadAtVersionIsCurrent` | internal/identity/repository.go:525-559 | What a call has read is still the whole row as long as the version is still there |
| `Lockout.LockedExactlyAtThreshold` | internal/identity/repository.go:141-163 | In every interleaving the counter is the number of failures since it was last cleared, and the account carries a lock, until fifteen minutes after the last failure, exactly from the fifth on |
| `Guessing.GuessesBounded` | internal/identity/service.go:121-141 | With each call one atomic step, a stretch of time T with no successful password and no status change has at most 5 + floor(T / 15 min) recorded failed logins |
| `Guessing.GuardedTurns` | internal/identity/service.go:130-141 | From the fifth failure of a streak on, counted failures are at least fifteen minutes apart |
| `ResetHistory.OneOpenReset` | internal/identity/password_reset_service.go:62-69 | In every interleaving each user has at most one unconsumed reset challenge |
| `ResetHistory.ResetSucceedsOnce` | internal/identity/password_reset_service.go:112-162 | A reset token succeeds at most once, and a superseded one never does |
| `ResetHistory.PasswordChangeRevokes` | internal/identity/password_reset_service.go:112-162 | The moment a reset or a password change commits no session of the user is live, save the one that changed the password, and the event's count is the number of sessions that commit revoked |
| `LiveOwners.InactiveUsersHaveNoLiveSession` | internal/identity/service.go:392-431 | With each call one atomic step, a user who is not active never has a live session, although session validation never looks at the user |
| `InactiveOwners.InactiveOwnerExactly` | internal/identity/service.go:159-176 | In every interleaving, the owner of a live session is inactive if and only if the last status change before the session was opened made the owner inactive and no status change was committed since |
| `InactiveOwners.OwnersActiveExactly` | internal/identity/service.go:392-431 | In every interleaving, all live sessions have active owners if and only if none of them was opened after its owner was made inactive with no status change since |
| `InactiveOwners.EverySessionOpened` | internal/identity/service.go:159-176 | Every session there is was opened by a logged login or verification |
| `LiveOwners.OwnersStayActive` | internal/identity/service.go:392-431 | Any commit that opens no session for an inactive user keeps the property, in any interleaving |
| `LateLogin.LateLoginEscapes` | internal/identity/service.go:121-157 | A concrete interleaving in which a login past its reads opens a session for a user disabled meanwhile |
| `Passwords.ParsePrint` | internal/identity/password.go:65-92 | Parsing undoes printing for every accepted parameter set and every salt and key of the stated lengths |
| `Passwords.PrintUndoesParseExactly` | internal/identity/password.go:65-92 | Of the texts the parser accepts, printing gives back exactly the plain ones: nothing before the first dollar sign, version as printed, costs without blanks, leading zeros or trailing text, no line breaks in salt and key |
| `Passwords.ParserIsLenient` | internal/identity/password.go:70-77 | For all parameters, salts and keys, a text that is not plain (a signed version) and is read like the printed one |
| `Passwords.JoinSplit` | internal/identity/password.go:66-69 | Joining the fields with dollar signs undoes splitting, for every text |
| `Decimals.DecimalOfValue` | internal/identity/password.go:44 | A numeral without leading zeros is how its value is printed |
| `Passwords.ParseIsCanonical` | internal/identity/password.go:65-92 | What the parser accepts, printed again, parses to the same values |
| `Passwords.VerifyHash` | internal/identity/password.go:35-56 | A hash made by any accepted hasher: another password passes exactly when Argon2id maps both to one key, and a rehash is asked for exactly when it passes and the parameters differ |
| `Passwords.HashVerifies` | internal/identity/password.go:35-56 | The password a hash was made from verifies, with no rehash needed for the same hasher |
| `Passwords.PrintedAcceptedExactly` | internal/identity/password.go:28-33 | A printed hash is read back exactly when memory is at least 8192, iterations and parallelism at least 1, and salt and key at least 16 bytes |
| `Passwords.HashedExactly` | internal/identity/password.go:58-63 | Exactly the passwords of 12 to 1024 bytes are hashed |
| `Passwords.DefaultHash` | internal/identity/password.go:22-45 | The text of a hash with the default parameters, field by field |
| `Passwords.SplitField` | internal/identity/password.go:66-69 | Splitting at dollar signs undoes joining with them |
| `Decimals.ScanDecimal` | internal/identity/password.go:71-75 | A printed number scans back as signed and as bounded unsigned integer, whatever non-digit follows |
| `Decimals.PaddedExactly` | internal/identity/mfa_crypto.go:152 | A number below ten to the width prints as exactly that many digits denoting it |
| `BaseN.DecodeEncode` | internal/identity/password.go:78-85 | Decoding undoes encoding for bytes of every length, in unpadded base64 and base32 |
| `BaseN.EncodeDecode` | internal/identity/password.go:78-85 | Strict base64 accepts, line breaks aside, only what the encoder writes |
| `BaseN.DigitsDenoteBytes` | internal/identity/password.go:44 | For bytes of every length the base-64 or base-32 digits denote the number the bytes denote in base 256, with zero bits appended to a whole digit |
| `OneTimeCodes.Hotp` | internal/identity/mfa_crypto.go:140-153 | For every 20-byte MAC and 1 to 9 digits: the slice stays in bounds, the modulus within 32 bits, and the code is that many decimal digits denoting the 31-bit truncation modulo the power of ten |
| `OneTimeCodes.Truncate` | internal/identity/mfa_crypto.go:146-147 | The masked big-endian word is the dynamic truncation of section 5.3 of RFC 4226, byte by byte |
| `OneTimeCodes.PowerOfTen` | internal/identity/mfa_crypto.go:148-151 | The modulus loop computes ten to the digits without 32-bit overflow |
| `OneTimeCodes.ValidateTotp` | internal/identity/mfa_crypto.go:121-138 | Accepts exactly when some step of the window produces the six-character code for a decodable non-empty secret, and returns the least such step |
| `OneTimeCodes.Search` | internal/identity/mfa_crypto.go:126-137 | The offset loop finds the first step of the window that produces the code, if there is one |
| `OneTimeCodes.WindowAfterEpoch` | internal/identity/mfa_crypto.go:126-131 | At or after the epoch the window is floor(now / 30) and its two neighbours, negative steps excluded |
| `OneTimeCodes.GeneratedSecret` | internal/identity/mfa_crypto.go:80-96 | A generated secret, in any case and with white space around it, is read back as its random bytes |
| `RecoveryTexts.SameCode` | internal/identity/mfa_crypto.go:171-176 | A text normalises to a code exactly when, white space around it removed, it spells the code in any case with dashes anywhere |
| `RecoveryTexts.DashedShape` | internal/identity/mfa_crypto.go:163-164 | For all 10-byte values the code is 19 characters in four dashed groups of four, and spells itself |
| `RecoveryTexts.DistinctCodes` | internal/identity/mfa_crypto.go:163-175 | Distinct random values never share a normal form |
| `RecoveryTexts.GenerateRecoveryCodes` | internal/identity/mfa_crypto.go:155-169 | One code and one hash per random value, the hash being that of the code's normal form |
| `RecoveryTexts.HashesDistinct` | internal/identity/mfa_crypto.go:155-175 | Distinct random values give distinct stored hashes, as the unique key of the table asks |
| `Utf8.TruncateUtf8` | internal/identity/service.go:219-227 | The input when it fits, otherwise the longest valid UTF-8 prefix within the limit; valid input is cut to its first few characters, at most three bytes short |
| `Utf8.ValidExactly` | internal/identity/service.go:223 | The valid texts are exactly the UTF-8 encodings of sequences of Unicode scalar values |
| `Utf8.BoundaryNear` | internal/identity/service.go:219-227 | A valid text has a character boundary within three bytes below any limit |
| `Replay.Drive` | internal/database/transaction.go:17-35 | Driven by any schedule of calls, the repository's tables are those of the state machine, so what is proved of every run holds of the tables |
| `Replay.RunTransaction` | internal/database/transaction.go:17-35 | One transaction on the repository is one step of the state machine |
| `Repositories.Repository.Within` | internal/database/transaction.go:17-35 | A transaction leaves the database as the atomic step says, or, rolled back, exactly as it was, outbox included, with the first error |
| `Repositories.Repository.RunStatements` | internal/database/transaction.go:25-30 | The statements in order until one fails, as the atomic step evaluates them |
| `Sql.Update` | internal/identity/repository.go:359-380 | An UPDATE as a scan in any order, each row tested as it stands when the scan reaches it, is the set-wise update, and its count is the number of rows its WHERE clause selects |
| `Sql.UpdateOne` | internal/identity/repository.go:550-559 | An update whose WHERE clause pins the primary key changes that one row and reports one, or changes nothing and reports none, which requireAffected takes for staleness |
| `Repositories.Repository.ReplaceRecoveryCodes` | internal/identity/mfa_repository.go:173-206 | On success exactly the new codes, all unused; refused when empty; on a repeated hash the old codes are gone and exactly the new ones before the first repetition are in place |

## Left out

- HTTP and gRPC handlers, middleware, metrics, tracing, logging, health and the scheduler: plumbing around the modelled calls.
- Listing, searching and batch-get queries, and configuration loading: they change nothing and would only add easy members.
- The outbox dispatcher, idempotency, cache and rate-limit packages: thin wrappers over code outside the repository.
- `internal/user`: not wired into the application.
- AES-GCM sealing of secrets, JWT signing and parsing, Ed25519: the parsed claims and the sealed secret are taken as given. A stored secret is one atom.
- The service account token call (internal/identity/service.go:889-899): it reads one row and signs; nothing interleaves with it.
- Service calls are modelled as their reads and commits with the guard between them, not as methods with local variables; input validation that ends a call before its first read is not modelled.
- A call that gives up, or whose connection fails before commit, is a call that takes no further step; partial failures inside the database server are not modelled.
- Statement-level interleaving inside one transaction is not modelled: each transaction is one atomic step. OneOpenReset and the results about bulk revocation rest on that atomicity, because the default isolation lets a concurrent insert slip past a bulk update.
- That a verification's code was checked against the current secret: AdvanceMFAStep has no version guard, and the interleaved service does not promise it.
- OneTimeCodes.Hotp: digit counts above nine, for which the 32-bit modulus wraps, are excluded; the service only asks for six.
- Retained.NothingRemovedEarly: says what may be removed while others write; that everything due is removed then is not claimed, because rows can become due behind a finished batch.
- Utf8.TruncateUtf8: a negative limit, which would panic, is excluded by the type; the service only passes constants.
- EventTruth.EventsAreTrue: says nothing about the free-text reasons an event carries besides the reason of a revocation; no table keeps them.
- Passwords.ParseIsCanonical: salts and keys of 2^32 bytes and more, whose recorded length wraps, are excluded.
