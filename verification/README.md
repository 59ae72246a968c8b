# kalke-auth, verified

kalke-auth is a Go backend-for-frontend that stands between a browser, Keycloak, a bank API, Redis and Postgres. Most of what it must get right is not in any one handler. It is in small protocols that many handlers run at once over shared Redis keys and table rows: e-mailed one-time codes, rate counters, one-shot OAuth states, sessions and tokens, migrations. This project models those protocols in Dafny and proves what every run of them keeps.

`dafny verify dfyconfig.toml` checks everything.

## How it is organised

| file | what it models |
|---|---|
| `Text.dfy`, `Lists.dfy`, `Wrappers.dfy` | `strings.TrimSpace`, `strings.ToLower` and their laws; ordered filters and first occurrences; the option type |
| `Security.dfy` | hashes, seals, the text of personal access tokens, password strength |
| `Otp.dfy` | the e-mailed challenge shared by login, reset, e-mail change, password change, transfer and signup, with handlers run one at a time |
| `Requests.dfy` | what each request must do, by the history alone: when it acts, when it refuses, and that it leaves other records alone |
| `Handlers.dfy` | the same handlers as code over one mutable Redis, proved against `Otp.dfy` |
| `Interleaved.dfy` | the same handlers cut into single Redis commands, mails and upstream calls, failing and interleaving freely |
| `Transfer.dfy`, `EmailChange.dfy`, `Passwords.dfy` | what the flows make of it: bank transfers, e-mail ownership, passwords |
| `RateLimit.dfy` | `allowRate`, with INCR and EXPIRE as separate fallible commands |
| `Keyspace.dfy` | one flat Redis map as thirty separate ones |
| `Permissions.dfy` | the permission filter, its declarative specification and its algebra |
| `Credentials.dfy`, `AuthServer.dfy` | sessions, personal access tokens and the privileges they carry, as a state machine and as code |
| `Lifecycle.dfy` | sessions and tokens from the statement that makes them to the one that ends them |
| `OAuth.dfy`, `M2M.dfy` | one-shot OAuth state with PKCE; the client-credentials token cache |
| `Migrate.dfy` | concurrent, restartable, transactional migrations |
| `Secrets.dfy` | the two ways of loading secrets, one of them through a POSIX shell |
| `DisplayName.dfy` | profile names split and put back together |

The source's step-by-step code is modelled as methods and classes. Each such method is proved equal to a function on the state, and the properties of whole runs are lemmas about that function. A run is any sequence of events, so a lemma about `Run(...)` speaks of every reachable state.

For each protocol there are results of two kinds: what no run ever does, and what a run must do when nothing fails. The second kind is written in the source's own constants, addresses and user names, so that a handler that refuses everything, or uses another record, does not meet it.

### Handlers at two levels

In `Otp.dfy` a handler is one step. There the counting properties hold: guesses for a code, uses of a code, rotations of a challenge. In `Interleaved.dfy` every command is a step of its own, any command may fail, any handler may stop for good after any step, and a record read long ago may be written back after it was deleted. The provenance properties survive that: what is sent to the bank, which password reaches Keycloak, whose record it was. Single use of a code does not (`Interleaved.OverlapCallsTwice`), which is what a transfer's idempotency key is for (`Transfer.OverlapSendsTwice`, `Transfer.EachChallengeExecutedOnce`). `Interleaved.AtomicIsASchedule` ties the two: the one-step handler is the uninterrupted schedule of the same steps.

A flow is described by a small record of functions (`Otp.Flow`): how its record is named, what its start handler checks, who may use the record, and whether the record is deleted before or after the call behind the code. The five stores of the source differ in nothing else.

### What is taken as ideal

- Time is an integer number of nanoseconds that does not go backwards; a single Redis command or SQL statement is atomic.
- A hash matches exactly the secret it was made from; `Open` inverts `Seal`; no two verifiers share an S256 challenge.
- `uuid.NewString`, `uuid.New` and `RandomToken` do not repeat where a lemma says so (`Transfer.FreshKeys`, `OAuth.FreshState`, `Credentials.Possible`).
- `uuid.Parse` and `unicode.IsLetter` are parameters: the properties hold whatever they accept.
- Keycloak, the bank and the mail server answer anything; their answers are part of the events.
- Redis commands may fail or lose their reply in `Interleaved.dfy`, `RateLimit.dfy` and `OAuth.dfy`. In `Otp.dfy` they succeed, because the handlers ignore their errors when they reject a code.

### Where the code and its documentation differ

- The comment on `LoadIntoEnv` (`internal/secrets/secrets.go:100-101`) and the entrypoint suggest that the shell path and the in-process path are interchangeable. They are not, in three ways. Once `KALKE_SECRETS_LOADED` is set the in-process load does nothing, while `loadsecret` and the entrypoint never look at it (`Secrets.LoadedPathsPart`). For an empty secret the printed file still sets the sentinel, the in-process load does not (`Secrets.EmptyPathsPart`). And a key that is not a shell name makes the file mean something else than what was printed (`Secrets.FileSources` says exactly when). `Secrets.PathsAgree` gives the exact condition for the two environments to be equal, for every secret whose missing keys are names and whose values are texts.
- Two rate-limit prefixes, `login:` and `signup:`, begin record prefixes (`login:otp:`, `signup:pending:`). The keyspaces are disjoint because the rest of a rate key is an IP literal; `Keyspace.LoginCollision` and `Keyspace.SignupCollision` say exactly which other strings would collide.
- `login` lower-cases before it trims, every other handler trims first; `Text.TrimLowerByCommute` shows that the orders agree.

## Model

| member | source | states |
|---|---|---|
| Otp.CodeBounds | internal/otp/challenge.go:120-157 | In every run of one-at-a-time handlers, each issued code sees at most 5 wrong comparisons and is used at most once, for every flow. |
| Otp.ChallengeBounds | internal/otp/challenge.go:120-157 | A challenge started at t0 has been rotated at most floor((t - t0) / 2min) times by time t, and all its codes together have seen at most 5 * (1 + floor((t - t0) / 2min)) wrong comparisons. |
| Otp.PassedIsCurrent | internal/httpapi/email_auth.go:90-126 | A code passes only if its trimmed text is the most recent one issued for that record and at most 15 minutes old; the call that follows carries the payload of the latest start and is made by an owner of the record. |
| Otp.TtlCoversCode | internal/otp/challenge.go:72-78 | A record is found exactly when, by the history, it was written less than 30 minutes ago and not removed since; so the Redis TTL never drops one whose code, issued at most 15 minutes ago, is in date. |
| Requests.StartActs | internal/httpapi/email_auth.go:49-65 | A start that passes its checks leaves, under the normalised name, a record with its payload, a fresh code for 15 minutes and no attempts, or none when the mail did not go out; one that does not pass them does nothing; no other record changes. |
| Requests.ConfirmActs | internal/httpapi/email_auth.go:90-104 | In every reachable state a complete confirmation by an owner of a record written less than 30 minutes ago is refused, and the record removed, after 5 wrong comparisons or 15 minutes; accepted, with one call carrying the latest start's payload, when the trimmed code is the latest; counted as wrong otherwise. Any other confirmation does nothing, and no other record changes. |
| Otp.RunInv | internal/otp/challenge.go:72-157 | Every reachable record agrees with the history: hash, payload, sending time, expiry, attempt count, no use yet; every key's counters are in bounds. |
| Requests.ResendActs | internal/otp/challenge.go:120-143 | In every reachable state a resend sends a new code, with all its tries, for the same payload, exactly when an owner asks at least 2 minutes after the last sending for a record written less than 30 minutes ago; otherwise it does nothing. |
| Requests.OthersKept | internal/otp/challenge.go:59-61 | No start, resend or confirmation for one name changes what is found under another. |
| Requests.StartThenConfirm | internal/httpapi/email_auth.go:43-126 | A mailed start and its code entered within 15 minutes lead to exactly one call, with what was started, whatever the store held before. |
| Otp.ConfirmInv | internal/httpapi/email_auth.go:69-126 | So does verifying, in all four outcomes: accepted, wrong, out of tries, expired. |
| Handlers.Server.Set | internal/otp/challenge.go:72-78 | A stored record is found under its normalised name at every time of the next 30 minutes and at none after; what is found under every other name is unchanged. |
| Handlers.Server.Fetch | internal/otp/challenge.go:80-93 | Get finds exactly what was stored under the normalised name and has not expired. |
| Handlers.Server.Del | internal/otp/challenge.go:95-97 | Nothing is found under that name any more; what is found under every other name is unchanged. |
| Handlers.Server.Check | internal/otp/challenge.go:145-157 | Verify accepts iff fewer than 5 attempts were counted, the code is not past its expiry and the trimmed guess is the secret; an accepted or wrong guess counts, a refused one does not. |
| Handlers.Server.StartHandler | internal/httpapi/email_auth.go:49-65 | Put, mail and the undoing Delete together do what the one-step start does. |
| Handlers.Server.ResendHandler | internal/httpapi/email_auth.go:152-177 | Get, cooldown, rotate and Put do what the one-step resend does, owner check included. |
| Handlers.Server.ConfirmHandler | internal/httpapi/email_auth.go:90-104 | Get, Verify, Put, Delete and the call behind the code do what the one-step confirmation does, for flows that delete before the call and for those that delete after it. |
| Interleaved.Provenance | internal/httpapi/bank_transfer.go:215-258 | In every interleaving, with commands failing and handlers stopping anywhere, each call carries the payload of one earlier start for the same record, as the start handler checked it, and is made by an owner; before it a code was passed whose trimmed text had been issued, by a start or a resend, for that record and that very payload, at most 15 minutes before. |
| Interleaved.Stored | internal/otp/transfer_challenge.go:48-54 | In every interleaving each record in Redis, a stale one written back included, is one start's payload under its own key and is found as long as its code is in date. |
| Interleaved.AtomicIsASchedule | internal/httpapi/email_auth.go:43-66 | Running a handler's single commands without interruption is exactly the one-step handler, for start, resend and confirmation. |
| Interleaved.OverlapCallsTwice | internal/httpapi/bank_transfer.go:215-233 | Single use is a property of handlers that do not overlap: in any flow and state, two confirmations that both read the record before either removes it both pass, and the call is made twice. |
| Interleaved.UnremovedCallsTwice | internal/httpapi/bank_transfer.go:231-258 | It needs the removal to take effect, too: a failed Delete is ignored, the call is made, and the code makes it again. |
| Transfer.BuildIntent | internal/httpapi/bank_transfer.go:47-109 | The start handler refuses in this order: no account e-mail, no amount, not exactly one destination, unresolved recipient; otherwise the record holds the trimmed request, the recipient shown to the user and the fresh idempotency key. |
| Transfer.BuildPayload | internal/httpapi/bank_transfer.go:233-249 | The JSON body names exactly the fields the record fixed that are not empty. |
| Transfer.PayloadReadsBack | internal/httpapi/bank_transfer.go:233-249 | Amount, memo, source and destination can be read back from the body, and exactly one destination field is in it. |
| Transfer.TransferFlowTransfers | internal/otp/transfer_challenge.go:40-145 | The transfer store and its handlers are a flow of the kind the results below are about: records named by the trimmed sub, deleted before the call, started only with a valid request. |
| Transfer.CallIsFixed | internal/httpapi/bank_transfer.go:215-258 | In every interleaving, each call to /v1/me/transfer has the sub, amount, memo, source, single destination and idempotency key of one earlier challenge start. |
| Transfer.CallIsItsUsers | internal/httpapi/bank_transfer.go:215-258 | In every interleaving a call is made for the user, by trimmed sub, whose own earlier valid start has the same payload. |
| Transfer.OtherUsersKept | internal/otp/transfer_challenge.go:44-46 | No start, resend or confirmation of one user changes what is found for a user with another trimmed sub. |
| Transfer.StartIsKept | internal/httpapi/bank_transfer.go:97-119 | A valid start whose mail went out leaves its intent under the trimmed sub, for 15 minutes. |
| Transfer.StartIsSent | internal/httpapi/bank_transfer.go:209-258 | When that user enters the code within 15 minutes, exactly that transfer is sent, once, and the record is gone. |
| Transfer.EffectIsSent | internal/httpapi/bank_transfer.go:251-258 | Every confirmation reaches the bank, with its user, key and fields. |
| Transfer.CallWasConfirmed | internal/httpapi/bank_transfer.go:166-258 | In every interleaving, each such call follows the entry of a code that had been issued, at most 15 minutes before, with exactly this transfer: same key, same body, same user. What was mailed is what is sent. |
| Transfer.KeyNamesOneChallenge | internal/httpapi/bank_transfer.go:96-109 | Two calls have the same idempotency key iff one challenge fixed both, and then they have the same body and user. |
| Transfer.EachChallengeExecutedOnce | internal/httpapi/bank_transfer.go:251-258 | A bank that deduplicates on the key executes each challenge at most once, even when interleaved confirmations send it several times. |
| Transfer.ExecutedIsFixed | internal/httpapi/bank_transfer.go:251-258 | What such a bank executes is always what some start fixed. |
| Transfer.ExecutedOnce | internal/httpapi/bank_transfer.go:425-453 | Deduplication executes no key twice and nothing it was not sent. |
| Transfer.EveryKeyAnswered | internal/httpapi/bank_transfer.go:425-453 | It loses nothing: every key sent is executed. |
| Transfer.OneCallPerCode | internal/httpapi/bank_transfer.go:215-258 | With handlers run one at a time a code leads to at most one transfer call. |
| Transfer.OverlapSendsTwice | internal/httpapi/bank_transfer.go:215-258 | Every valid transfer has a run that sends it twice, in two equal calls; a bank that deduplicates on the key executes it once. |
| EmailChange.EmailFlowChangesEmail | internal/httpapi/profile.go:105-172 | The e-mail change handlers are a flow of the kind the results below are about: the record names its owner, only the owner may use it, and it is deleted before the update. |
| EmailChange.UpdateIsOwners | internal/httpapi/profile.go:158-178 | UpdateUserEmail(sub, e) is reached only when the latest start for e was made by that sub, with the code sent last to e, at most 15 minutes after it was sent. |
| EmailChange.UpdateIsStarters | internal/httpapi/profile.go:158-178 | The update of an address is made by the user of the latest start for that address, addresses normalised. |
| EmailChange.StartIsUpdated | internal/httpapi/profile.go:91-178 | A user who starts for an acceptable address and enters the code within 15 minutes changes to it, once, and the record is gone. |
| EmailChange.OtherAddressesKept | internal/httpapi/profile.go:158-177 | No request for one address changes what is found for another. |
| EmailChange.OneUpdatePerCode | internal/httpapi/profile.go:163-178 | One code, at most one update. |
| EmailChange.LaterStartTakesOver | internal/httpapi/profile.go:158-178 | In every state of every run in which the latest start for an address is another user's, a user's confirmations and resends for it change nothing, whatever code is offered and whatever became of the other's mail. |
| EmailChange.ResendKeepsOwner | internal/httpapi/profile.go:224-245 | Resending changes no record's owner and is possible only for the owner. |
| Security.PasswordStrengthError | internal/security/password.go:12-32 | The loop reports a password as fine iff it has 10 runes, a letter and an ASCII digit, and otherwise the first of the three that is missing. |
| Security.StrengthMeans | internal/security/password.go:8-32 | Strength, wherever the results use it, is those three requirements. |
| Passwords.ValidateChange | internal/httpapi/server.go:391-402 | A change is valid iff the current password is given, the new one is strong and they differ; otherwise the error is, in this order, a missing password, the first strength requirement the new one fails, or that they are equal. |
| Passwords.SignupHandsOverItsStart | internal/httpapi/signup.go:118-136 | In every interleaving CreateUser gets the name and password of one start for that e-mail; the password is strong and the e-mail is not allowlisted. |
| Passwords.SignupStoresStrong | internal/signup/pending.go:93-118 | Every sealed signup password in Redis is strong, under an address with an @ that is not allowlisted, with a trimmed name of 2 to 80 characters. |
| Passwords.ChangeHandsOverItsStart | internal/httpapi/server.go:315-338 | In every interleaving a password change sets exactly the password of one start by that user, and it is strong. |
| Passwords.ChangeStoresStrong | internal/otp/password_challenge.go:67-92 | Every sealed password waiting for a change is strong. |
| Passwords.ResetSetsStrong | internal/httpapi/email_auth.go:255-281 | A reset sets only strong passwords, only for an address with an @ that a code was asked for. |
| Passwords.OneEffectPerCode | internal/httpapi/signup.go:118-146 | With handlers run one at a time a code yields at most one session, one password change, one accepted reset, one created user. |
| Passwords.LoginNeedsItsCode | internal/httpapi/email_auth.go:90-126 | In every interleaving a passwordless login follows the entry of a code issued for that very address at most 15 minutes before. |
| Passwords.SignupGoesThrough | internal/httpapi/signup.go:37-146 | A signup that meets the written-out checks, mailed and confirmed within 15 minutes, hands over the trimmed name and the password given; the record stays only when Keycloak failed. |
| Passwords.ChangeGoesThrough | internal/httpapi/server.go:258-338 | A password change with a strong password, confirmed in time, sets it once, and the record is gone. |
| Passwords.ResetGoesThrough | internal/httpapi/email_auth.go:194-286 | A reset with a strong password and the code in time sets that password; the record stays only when Keycloak failed. |
| Passwords.LoginGoesThrough | internal/httpapi/email_auth.go:28-126 | A passwordless login confirmed in time issues one session, and the record is gone. |
| Passwords.OtherSignupsKept | internal/signup/pending.go:53-55 | A signup request for one address changes what is found for no other. |
| Passwords.OtherChangesKept | internal/otp/password_challenge.go:36-38 | A password change request of one user changes what is found for no other. |
| Passwords.OtherResetsKept | internal/httpapi/email_auth.go:234-286 | A reset request for one address changes what is found for no other. |
| Passwords.OtherLoginsKept | internal/httpapi/email_auth.go:69-104 | A login request for one address changes what is found for no other. |
| RateLimit.CallsInWindow | internal/httpapi/server.go:641-655 | When every command works, a call is admitted exactly when fewer than the limit came before it in its window, a window ending its length after the call that opened it; so always when the last window was opened that long ago. |
| RateLimit.AdmissionBound | internal/httpapi/server.go:641-655 | For one key with limit max and window W, every closed interval of length L sees at most max * (ceil(L / W) + 1) admissions, and at most 2 * max when L <= W, for every interleaving of INCR and EXPIRE and every pattern of lost and failed commands. |
| RateLimit.ExactBound | internal/httpapi/server.go:641-655 | When W does not divide L it is one fewer: a window open at the interval's beginning had its first call before it. |
| RateLimit.BoundIsReached | internal/httpapi/server.go:641-655 | ExactBound cannot be improved: for every length some interval of some run reaches it. |
| RateLimit.WindowIsFixed | internal/httpapi/server.go:646-653 | Once a window's end is set no call moves it, denied calls included. |
| RateLimit.StuckFailsClosed | internal/httpapi/server.go:651-653 | A counter whose EXPIRE failed lets through what was left of its first window and then denies every call for good. |
| RateLimit.InvRun | internal/httpapi/server.go:641-655 | In every run at most one call is about to set the deadline, only while there is none, and a deadline is never further than one window away. |
| RateLimit.Limiter.AllowRate | internal/httpapi/server.go:641-655 | A call is admitted iff Redis, key and limit are there and its INCR was answered with a count within the limit; a counter in force is counted up and keeps its deadline, any other begins at 1 with a deadline one window after EXPIRE ran, if it did and took effect; no other key changes. |
| RateLimit.Limiter.AllowSignup | internal/httpapi/signup.go:23-27 | A signup start passes iff both windows admit it, each by commands with times and failures of their own; a call the minute refuses leaves the hour's counter alone; no other key changes. |
| Keyspace.FamiliesDisjoint | internal/otp/challenge.go:48-61 | No key belongs to two of the thirty families of records and rate counters, for all strings; only the two families `login:`+ip and `signup:`+ip need ip to be an IP literal. |
| Keyspace.KeyInjective | internal/otp/challenge.go:59-61 | Within a family two names share a key iff they agree after trimming (and lower-casing, for e-mails); a record is found by the name it is stored under. |
| Keyspace.LoginCollision | internal/httpapi/server.go:153-158 | A rate key `login:`+x is some e-mail's login record key iff x is `otp:` followed by a normalised address. |
| Keyspace.SignupCollision | internal/signup/pending.go:53-55 | A rate key `signup:`+x is some e-mail's pending-signup key iff x is `pending:` followed by a normalised address. |
| Keyspace.StoreKeys | internal/otp/challenge.go:59-61 | Login, reset and e-mail records are kept under `login:otp:`, `reset:otp:` and `email:otp:` and the trimmed, lower-cased address. |
| Keyspace.UserKeys | internal/otp/transfer_challenge.go:40-46 | Transfer and password records are kept under `xfer:otp:` and `pwd:otp:` and the trimmed sub. |
| Keyspace.PendingKeys | internal/signup/pending.go:53-55 | Signup records are kept under `signup:pending:` and the trimmed, lower-cased address, OAuth states under `oauth:state:` as they are. |
| Keyspace.StorePrefixes | internal/httpapi/server.go:76-81 | The clean-up in NewStore leaves the three prefixes the server passes as they are. |
| Keyspace.Redis.Set | internal/otp/challenge.go:72-78 | Setting an entry changes that entry of its own family's map, value and expiry, and no other family's map. |
| Keyspace.Redis.Get | internal/otp/challenge.go:80-93 | Reading the flat map is reading the family's own map, where an entry past its expiry is missing. |
| Keyspace.Redis.Del | internal/otp/challenge.go:95-97 | Deleting removes that entry of its own family's map and changes no other family's map. |
| Keyspace.Redis.Expire | internal/httpapi/server.go:651-653 | EXPIRE moves the expiry of one entry in force of its own family's map, keeps its value, and changes no other family's map. |
| Permissions.IsAdminEmail | internal/httpapi/permissions.go:20-31 | The search answers whether the normalised e-mail is not empty and is one of the normalised allowlisted ones. |
| Permissions.EffectivePermissions | internal/httpapi/permissions.go:36-61 | The loop returns what the specification function says. |
| Permissions.EffectiveMeetsSpec | internal/httpapi/permissions.go:36-61 | The answer holds exactly the trimmed permitted claims and bank:demo, each once, in the order of their first claim, an unclaimed bank:demo last. |
| Permissions.EffectiveHolds | internal/httpapi/permissions.go:5-61 | The answer holds bank:demo and exactly the trimmed claims that are not empty, not a default role, none of Keycloak's five own, and, for admin and bank:write, only when the e-mail is allowlisted. |
| Permissions.SpecIsUnique | internal/httpapi/permissions.go:36-61 | That specification has no other answer, order included. |
| Permissions.EffectiveTwice | internal/httpapi/permissions.go:36-61 | Filtering the answer again is filtering once with both allowlist decisions. |
| Permissions.EffectiveLaws | internal/httpapi/permissions.go:36-61 | Under one e-mail the filter is idempotent, under two it commutes as lists, and its answer always passes hasBankPermission. |
| Permissions.PrivilegeNeedsAllowlist | internal/httpapi/permissions.go:5-9 | admin and bank:write are in the answer iff they were claimed and the e-mail is allowlisted. |
| Permissions.HasPermission | internal/httpapi/upstream.go:215-222 | True iff the wanted permission or admin is held. |
| Permissions.HasBankPermission | internal/httpapi/upstream.go:224-231 | True iff bank:write, bank:demo or admin is held. |
| Security.PatRoundTrip | internal/security/token.go:44-77 | For every hexadecimal prefix and base64url secret, underscores included, the prefix is read back from the token, which trimming leaves as it is. |
| Credentials.PrivilegesComeFromLogin | internal/httpapi/server.go:206-233 | In every run whatever a session, a handler's principal, a token or an introspection answer carries was yielded by one login of that user; no chain of e-mail changes, token creations and introspections adds to it. |
| Credentials.YieldedPrivileges | internal/httpapi/permissions.go:36-61 | What a login yielded holds admin or bank:write only if its claims held it and its e-mail was allowlisted then, and holds nothing unclaimed but bank:demo. |
| Credentials.CookieSound | internal/httpapi/server.go:613-639 | In every run a cookie authenticates iff it names a login and bears its secret, that session was not logged out and its first expiry has not passed; the principal is that login's user. |
| Credentials.IssuedCookie | internal/httpapi/server.go:219-231 | The cookie a login sets names that login with that secret and no other pair. |
| Credentials.TokenSound | internal/httpapi/server.go:559-580 | In every run a token introspects as active iff its trimmed text was issued and not revoked, and the answer names the user it was issued to. |
| Credentials.RunSound | internal/store/store.go:44-141 | In every run the session rows are the logins not logged out, with their first user, secret and expiry, and token rows keep what they were minted with, under unique prefixes. |
| Lifecycle.LoginOpens | internal/httpapi/server.go:206-233 | From any point of any run, a login's cookie authenticates as its user, with what its claims yield, until its lifetime is over and not after. |
| Lifecycle.EmailChangeMoves | internal/store/store.go:71-85 | Changing the e-mail of a session in force changes just that of just that session. |
| Lifecycle.LogoutIsFinal | internal/store/store.go:66-69 | Once a logout took effect, in no later state of any run does a cookie that names the session authenticate. |
| Lifecycle.TokenOpens | internal/httpapi/server.go:470-489 | A token made under a free prefix introspects, by its text, as its maker, with what the maker's permissions yield. |
| Lifecycle.RevokeIsFinal | internal/store/store.go:117-128 | Once its owner revoked it, in no later state of any run does a token's text introspect as active. |
| AuthServer.Server.CreateSession | internal/httpapi/server.go:206-233 | A login whose INSERT took effect adds one row with the filtered permissions of the user's e-mail, or of the fallback when it is empty; one whose INSERT failed adds none; the cookie is set only when the handler knows of the row. |
| AuthServer.Server.PrincipalFromRequest | internal/httpapi/server.go:613-639 | Returns a principal iff the cookie authenticates, with the row's user, e-mail and permissions. |
| AuthServer.Server.Logout | internal/httpapi/server.go:404-410 | When the cookie authenticates and the DELETE takes effect, that session is gone, the cookie authenticates at no time any more, and every other session is as it was; otherwise no session changes. |
| AuthServer.Server.UpdateSessionEmail | internal/store/store.go:71-85 | Changes the e-mail of one session in force, its permissions and expiry untouched; fails on an empty e-mail and on a session gone or expired. |
| AuthServer.Server.CreateApiToken | internal/httpapi/server.go:470-489 | A token carries the filtered permissions of its creator; the plain text is returned only when the row was inserted. |
| AuthServer.Server.RevokeApiToken | internal/store/store.go:117-128 | Succeeds iff the token is the caller's and not yet revoked, and then revokes that one. |
| AuthServer.Server.Introspect | internal/httpapi/server.go:559-580 | Answers from the one unrevoked row with the token's prefix and only if the whole token matches its hash; permissions are filtered again. |
| AuthServer.Server.Serve | internal/httpapi/server.go:404-545 | The methods are the state machine's steps: served by them, every possible event takes tables, history and clock where the machine takes them, so what holds of all its runs holds of the code's. |
| OAuth.LoginGoesThrough | internal/httpapi/oauth.go:44-101 | From any point of any run, a login that meets no failure sends out its state with its verifier's challenge and, brought back within ten minutes, exchanges the verifier; the state is then gone. |
| OAuth.OneExchange | internal/httpapi/oauth.go:90-101 | In every interleaving of callbacks each state leads to at most one code exchange. |
| OAuth.VerifierMatches | internal/httpapi/oauth.go:44-68 | An exchange sends the verifier whose S256 challenge was in that state's authorization URL. |
| OAuth.RunInv | internal/httpapi/oauth.go:44-147 | In every run a state is in one place only: with the handler that will store it, in Redis, with the callback that took it, or spent. |
| OAuth.Server.PutPending | internal/httpapi/oauth.go:128-134 | SET is the storing step of the protocol: if it took effect the record can be taken until its lifetime is over and not after, and no other state's record is touched; if not, nothing is. |
| OAuth.Server.TakePending | internal/httpapi/oauth.go:136-147 | GETDEL is the first step of a callback: it finds the record in force, if any, and at no later time is one found under that state; no other state's record is touched. |
| M2M.CacheSound | internal/keycloak/client.go:243-247 | Over every sequence of calls and failures a token served from the cache is the last one fetched and younger than its lifetime, Keycloak's expires_in in seconds or one minute, counted from the end of the fetch, with more than 30s left when that was over 60s; Keycloak is asked only when no token is in force. |
| M2M.Source.CachedClientToken | internal/httpapi/upstream.go:196-213 | The code is the step function: it fails iff no token is in force and Keycloak gives none, serves the one in force unchanged, keeps the one it fetches, and leaves the cache as it was when it fails. |
| Migrate.CollectNames | internal/migrate/migrate.go:25-35 | The names are sorted and are those of the directory's files that end in .sql, as often as they stand there, no directory's. |
| Migrate.LeIsByteOrder | internal/migrate/migrate.go:35-35 | The order is the lexicographic one: a beginning comes first, else the first differing character decides. |
| Migrate.SortSorts | internal/migrate/migrate.go:35-35 | Sorting gives an ordered permutation. |
| Migrate.SortedIsUnique | internal/migrate/migrate.go:35-35 | A collection of names has one ordered list. |
| Migrate.SameFilesSameNames | internal/migrate/migrate.go:25-35 | So processes with the same files work through the same list, whatever order the directory is read in. |
| Migrate.MigrationsSound | internal/migrate/migrate.go:37-65 | In every run from an empty schema, with any number of processes, failures, lost replies and crashes at every command: a file's effects are committed iff its name is recorded, none twice, always a prefix of the sorted names; a nil return means all of them. |
| Migrate.RerunChangesNothing | internal/migrate/migrate.go:38-44 | Once all files are applied no further run commits or records anything. |
| Migrate.Recovers | internal/migrate/migrate.go:37-65 | From every reachable state, once the processes with an insert open have crashed, a fresh process whose commands all succeed leaves every file applied and recorded and returns nil, in at most 5 commands a file. |
| Migrate.RunInv | internal/migrate/migrate.go:49-63 | In every run an open insert of a name excludes every other one, and no process works beyond the applied prefix. |
| Migrate.Migrator.Apply | internal/migrate/migrate.go:49-63 | One file's transaction sends its commands in order until one fails and succeeds iff all four do; body and name are committed together, by a COMMIT that took effect, or not at all. |
| Migrate.Migrator.Up | internal/migrate/migrate.go:16-66 | Up is the run of one process of the protocol that meets the given fates of its commands in order, and returns nil iff every command it sent succeeded; from a database that migrations left behind, nil means every file is applied and recorded; when CREATE TABLE never happened nothing changed. |
| Migrate.NilMeansAll | internal/migrate/migrate.go:65-65 | A process alone that returns nil leaves every file applied, in order, and recorded. |
| Secrets.QuoteRoundTrip | cmd/loadsecret/main.go:50-51 | A value, with any quotes, newlines, dollars and backslashes, is read back by the shell's quoting rules (sections 2.2.1 to 2.2.3 of the POSIX Shell Command Language) as it was, exactly when it holds no NUL, which no text file does. |
| Secrets.PrintFile | cmd/loadsecret/main.go:49-54 | The file has one line for each missing key, in some order of the map, then the sentinel's line. |
| Secrets.FileSources | scripts/entrypoint.sh:12-15 | For every secret and every order of its keys the file reads back as the assignments printed iff the missing keys are shell names and their values NUL-free; then sourcing it gives the environment ApplyMap gives, plus the sentinel. |
| Secrets.PathsAgree | internal/secrets/secrets.go:102-116 | For such a secret and every environment, the shell path and the in-process path give the same environment iff, with the sentinel not yet set, the secret is not empty, or, with it set, it is set to 1 and the file only sets empty variables to nothing. |
| Secrets.LoadedPathsPart | scripts/entrypoint.sh:9-15 | With the sentinel already set and something to load, the two paths part: only the shell path loads it. |
| Secrets.EmptyPathsPart | cmd/loadsecret/main.go:53-54 | For an empty secret they part too: only the shell path sets the sentinel. |
| Secrets.LaterLoadIsNoOp | internal/secrets/secrets.go:102-105 | After the shell path, when its file means what was printed, and after an in-process load of any secret that is not empty, a later LoadIntoEnv changes nothing, whatever it would fetch. |
| Secrets.AppliedMeans | internal/secrets/secrets.go:77-98 | Applying a secret fills each settable name that has no value or an empty one, except the sentinel's, keeps every name that has a value, and changes nothing else. |
| Secrets.AfterLoadMeans | internal/secrets/secrets.go:102-116 | Loading does nothing when KALKE_SECRETS_LOADED is set to anything visible, when the fetch fails and for an empty secret; otherwise it applies the secret and sets the sentinel to 1. |
| Secrets.CopyWithoutExisting | internal/secrets/secrets.go:79-91 | The copy has exactly the keys that are not the sentinel and have no value yet. |
| Secrets.Process.ApplyMap | internal/secrets/secrets.go:94-98 | Every missing key that the system accepts is set, no value is overwritten, nothing else changes. |
| Secrets.Process.LoadIntoEnv | internal/secrets/secrets.go:102-116 | Does nothing when already loaded, when the fetch fails or brings nothing; otherwise applies the map and sets the sentinel. |
| DisplayName.DisplayOfSplit | internal/keycloak/admin.go:180-204 | For every string, splitting it and displaying the parts gives it with white-space runs collapsed and ends trimmed, by a one-pass definition that knows no words. |
| DisplayName.SplitParts | internal/keycloak/admin.go:194-204 | The first name is the first word, without white space, the last name the other words with single blanks between them. |
| DisplayName.DisplayShows | internal/keycloak/admin.go:180-192 | Whatever is stored, the displayed name is trimmed and shows both parts' characters in order. |
| DisplayName.CollapsedShape | internal/keycloak/admin.go:194-204 | Collapsing leaves no white space at the ends, single blanks only, and every other character in order. |
| DisplayName.SplitOfDisplay | internal/keycloak/admin.go:180-204 | Splitting the displayed name gives the same first and last name again. |
| DisplayName.FieldsOfJoin | internal/keycloak/admin.go:196-203 | Words joined by blanks split into the same words. |
| Text.TrimIsWindow | internal/otp/challenge.go:59-61 | Trimming removes exactly a run of white space at each end. |
| Text.NormalizeByIdempotent | internal/mail/mailer.go:347-349 | For every rune-wise lower-casing that is idempotent and keeps white space, a normalised e-mail is its own normal form, so a record is found under the name it was stored by. |
| Text.TrimLowerByCommute | internal/httpapi/server.go:167-167 | For every such lower-casing, lower-casing before trimming, as login does, gives the same address as trimming first. |

## Left out

- HTTP routing, JSON decoding and encoding, CORS, access logs, proxies, mail texts, configuration: library-driven, with little state of their own.
- Keycloak, the bank, the mail server and their HTTP calls: nondeterministic answers; existence and password checks that a start makes against Keycloak appear only as starts that happen or not.
- bcrypt, SHA-256, AES-GCM, base64 and UUID parsing: ideal functions, as listed above; a failing `Open` is not modelled.
- Otp.CodeBounds: holds for handlers run one at a time; under interleaved confirmations single use is false, as `Interleaved.OverlapCallsTwice` and `Interleaved.UnremovedCallsTwice` show, and the guess bound is not claimed, because Get, Verify and Put are separate commands.
- Requests.ConfirmActs: the handlers' Redis commands succeed, as in the whole of `Otp.dfy`.
- Transfer.CallIsFixed: the user's sub is fixed up to surrounding white space, and the X-Kalke-User-Email header, which comes from the confirming session, is not part of the call.
- Transfer.BuildPayload: JSON field names are an enumeration; the encoding of the object is not modelled.
- Text.NormalizeByIdempotent: that `unicode.ToLower` is such a lower-casing is taken from its definition. `Keyspace.dfy`, `Permissions.dfy` and the concrete flows lower-case ASCII letters only; of a flow's naming the results need only that it is idempotent.
- Credentials.CookieSound: the tables answer every query; a query that fails, which the source treats as no session or an inactive token, is not modelled. TouchAPIToken and the token list change or decide nothing here.
- M2M.CacheSound: durations are unbounded integers; an overflow of `expires_in` is not modelled.
- RateLimit.AdmissionBound: the limit and window of a key do not change during a run, and INCR does not overflow; a command retried by the Redis client counts as one.
- Keyspace.FamiliesDisjoint: that clientIP yields an IP literal is assumed of the network library.
- Secrets.PathsAgree: what an unquoted key that is not a name makes the shell do is not modelled; such a file may read as other assignments or as none.
- Secrets.FileSources: the shell reader covers files of assignments; expansions and operators outside quotes read as no script, and the printed file holds them only in keys that are not names. How FetchMap turns JSON values into strings is not modelled.
- Migrate.MigrationsSound: a file's body is one unit of effects; what its SQL does is not modelled, and files are read from the binary without error.
- `safeReturnURL`, `appendQuery`, `joinBankProxyPath`, `isPublicOIDCPath`: one-branch checks on URLs.
- `SecondsUntil`, error texts and status codes, transfer receipts, profile name updates: they decide nothing that is proved here.
