# Verified model of the migration platform's core

A Dafny 4.11 model of the stateful and algorithmic core of a VM migration platform (FastAPI, SQLAlchemy
on PostgreSQL, Redis, Celery, a React frontend), with proofs. `dafny verify dfyconfig.toml` checks all of
it. The code is followed branch by branch; where it and its own documentation disagree, the code is
modelled, and the difference is listed under "What the proofs show".

| file | models |
|---|---|
| `Options.dfy`, `Digits.dfy` | `Option`; decimal digits |
| `CanonicalJson.dfy` | the canonical JSON encoder of the audit hash, read back by a decoder for RFC 8259 |
| `AuditChain.dfy` | the hash chain of one migration's audit log, its verification, and what tampering it exposes |
| `AuditLog.dfy` | any number of concurrent transactions writing audit events (row lock, savepoints, READ COMMITTED) |
| `AuditEmission.dfy` | where the committed rows come from, and what a rollback to a savepoint gives back |
| `AuditPaging.dfy` | a reader that pages through one log while writers keep committing |
| `MigrationCrud.dfy` | status writes together with their audit events, on a session with commit and rollback |
| `MigrationEffects.dfy` | the row and the one event that each of these writes leaves, column by column |
| `Conversion.dfy` | the aggregate status of a conversion group |
| `Orchestrator.dfy` | deliveries of the migration message, crashes, failure handling, the polling loop |
| `RefreshTokens.dfy` | refresh-token rotation as interleaved Redis steps (section 4.14.2 of RFC 9700) |
| `RefreshTokenReuse.dfy` | what reuse detection guarantees over every run |
| `RefreshTokenLifetime.dfy` | how long a careful client's session lasts |
| `RefreshTokenStore.dfy` | the same functions as imperative code on one store |
| `LoginThrottle.dfy` | the two failure counters and every trace of attempts against them |
| `DiscoverySync.dfy` | the three-pass discovery sync with unflushed edits and SQL's three-valued `NOT IN` |
| `DiscoveryEffects.dfy` | the columns that inserts and updates write, and those they leave alone |
| `DiscoveryConvergence.dfy` | what a sync reaches, and what a second identical one does |
| `Csv.dfy` | the CSV printer, read back by a parser for section 2 of RFC 4180 |
| `Compatibility.dfy` | the seven compatibility rules, score, grades, strategy |

How the parts are modelled:

- **Audit log.** A transaction takes the parent migration's row lock, reads the highest sequence id, reads
  the last hash, inserts, and commits or aborts; each of these is a step of its own and the steps of all
  transactions interleave, from any table of verified logs, legacy rows without a hash included. A
  rollback to a savepoint drops the rows and the locks taken since. SHA-256 is
  any function into 64 hexadecimal digits. No such function is injective, so freedom from collisions is
  assumed of the finitely many texts hashed in the two logs under comparison and of nothing else.
- **Sessions.** `MigrationCrud.Session` holds a committed and a working database; `DiscoverySync.Session`
  holds what queries see (`flushed`) and what the session's objects hold (`cur`), because the session
  factory switches autoflush off.
- **Redis.** Every command and every MULTI/EXEC block is one step; keys expire with a clock that any step
  may advance. New uuids are parameters and count as unused. SCAN may return stale keys and repeat keys; it
  is only bound to return every key that is there from its beginning to its end.
- **Queries without ORDER BY** return any of the selected rows: which one is a parameter, free for every
  entry, clause and table.
- **Time, answers of the database, and what the broker, the model and the conversions do** are parameters,
  so the theorems hold for all of them.

## What the proofs show

Beyond the properties in the table below, these results differ from the documentation or were not obvious:

- The docstring of `verify_event_chain` promises to expose any edit or deletion. The exact statement is
  `AuditChain.TamperEvident`; a cut-off tail or a rewritten last row verifies (`TailIsNotProtected`).
- `safe_emit_stage_event` says that a failure discards only the audit row. The code rolls the whole session
  back, so the caller's uncommitted work is lost too (`MigrationCrud.Session.SafeEmit`).
- Log and row of a migration come apart exactly when the start endpoint resets it to PENDING after an
  unreachable broker, because that write has no event (`MigrationCrud.StepTold`); `BrokerFailureIsUntold`
  is such a run. Other migrations are not concerned.
- Since `create_migration` always writes an event and the foreign key refuses to orphan it,
  `delete_migration` never succeeds on a migration made that way (`NothingIsDeleted`).
- A second conversion group for one migration arises exactly when a redelivery misses the first one because
  50 newer groups of the VM exist (`Orchestrator.OneGroupUnlessPushedOut`; `SecondGroupArises` is such a run).
- A cancel that arrives during a delivery is overwritten by the delivery's next status write
  (`Orchestrator.CancelDuringDelivery`); between deliveries it is final (`TerminalIsAbsorbing`).
- `unchanged_vms` is always 0: the update always refreshes the time of the last sighting and counts that as
  a change (`DiscoverySync.CountsAddUp`). An entry without a name is counted twice, as updated and as an
  error, exactly if its uuid is already in the tenant or on the hypervisor (`DiscoverySync.CountedTwiceIff`).
- A sync loses a reported machine exactly when an entry is matched by name to a row that got another uuid
  earlier in the same run (`DiscoveryConvergence.EveryReportedMachineHasOneRow`). Distinct names exclude it.
- A row without a uuid is archived only when no entry supplied a uuid at all; a single null uuid in the
  report stops all archiving (`DiscoverySync.ArchivedExactly`).
- The minimum version 15 listed for openSUSE is never applied: "suse" comes first in the list and also occurs
  in "opensuse", so 12 counts (`Compatibility.OpensuseIsSuse`).
- The CSV round trip fails exactly for no columns, or one column and one row whose cell is empty
  (`Csv.RoundTripIff`).

## Model

| member | source | states |
|---|---|---|
| CanonicalJson.CharRoundTrip | backend/app/crud/migration_event.py:35-70 | the escape written for a character, surrogate pairs included, reads back as that character whatever follows |
| CanonicalJson.NatRoundTrip | backend/app/crud/migration_event.py:35-70 | decimal digits read back as the number, and no other digits are consumed |
| CanonicalJson.SignMeansNegative | backend/app/crud/migration_event.py:35-70 | an integer has a minus sign if and only if it is negative |
| CanonicalJson.KeysAreSorted | backend/app/crud/migration_event.py:35-70 | object keys are written once each, in strictly increasing order, whatever the order they were inserted in |
| CanonicalJson.LessIsCodePointOrder | backend/app/crud/migration_event.py:35-70 | the order of the keys is code-point order: at the first difference the smaller character, or the shorter key |
| CanonicalJson.MembersAreSorted | backend/app/crud/migration_event.py:35-70 | read off the text, the keys of every object stand in strictly increasing code-point order |
| CanonicalJson.ShortText | backend/app/crud/migration_event.py:35-70 | printable ASCII stands for itself, except the quote and the backslash; those and five control characters have two-character escapes |
| CanonicalJson.LongText | backend/app/crud/migration_event.py:35-70 | every other character is one lower-case `\u` escape, or two behind U+FFFF |
| CanonicalJson.ValueRoundTrip | backend/app/crud/migration_event.py:35-70 | every nested value reads back from the front of any text that continues legally |
| CanonicalJson.RoundTrip | backend/app/crud/migration_event.py:35-70 | decoding the canonical text gives the value |
| CanonicalJson.EncodeInjective | backend/app/crud/migration_event.py:35-70 | two values have one canonical text exactly if they are equal (objects as maps, so up to key order) |
| CanonicalJson.EncodePrintable | backend/app/crud/migration_event.py:35-77 | the text is printable ASCII, so its UTF-8 bytes are its characters |
| AuditChain.CanonicalDeterminesEvent | backend/app/crud/migration_event.py:35-70 | the canonical text determines exactly the ten chained columns |
| AuditChain.CanonicalColumns | backend/app/crud/migration_event.py:35-70 | a JSON reader of the text finds an object with exactly the ten named keys, each with its own column |
| AuditChain.CodeChainIsSound | backend/app/crud/migration_event.py:35-77 | the code's text with any 64-digit hash meets what the chain theorems need |
| AuditChain.HashInputDecodes | backend/app/crud/migration_event.py:73-95 | previous hash and payload can be told apart in the hashed text: equal texts mean equal link and equal event |
| AuditChain.VerifyEventChain | backend/app/crud/migration_event.py:236-283 | the loop accepts exactly the verified logs and otherwise names the sequence id of the first broken row |
| AuditChain.VerifiedMeans | backend/app/crud/migration_event.py:236-283 | a log is verified if and only if each chained row carries the hash of its text, preceded by the hash of the row before if that has one |
| AuditChain.EqualHashEqualRow | backend/app/crud/migration_event.py:73-95 | without a collision, equal hashes on two chained rows mean equal rows behind equal links |
| AuditChain.SuffixAgrees | backend/app/crud/migration_event.py:236-283 | two verified logs with the same last row agree backwards as long as the chained one lasts |
| AuditChain.TamperEvident | backend/app/crud/migration_event.py:236-283 | a log with the same last row verifies if and only if it is the original behind rows that verify alone and end unchained |
| AuditChain.ChangesBeforeLastRowAreFlagged | backend/app/crud/migration_event.py:236-283 | edits, deletions, reorderings and NULLed hashes before the last row are flagged, and so is any rewrite that keeps all rows chained |
| AuditChain.TailIsNotProtected | backend/app/crud/migration_event.py:236-283 | a truncated log, and one with a freshly sealed last row, verify |
| AuditChain.AppendVerified | backend/app/crud/migration_event.py:211-233 | the row that record_event adds keeps a verified log verified, behind unchained rows too |
| AuditLog.QueriesSeeTheEnd | backend/app/crud/migration_event.py:80-126 | on any table of verified logs the two queries give the next number and the hash of the last row, or the genesis behind a row without one |
| AuditLog.InsertOk | backend/app/crud/migration_event.py:164-233 | inserting under the lock keeps every log the transaction sees numbered and verified, legacy rows included |
| AuditLog.RollbackOk | backend/app/services/audit_log.py:196-242 | a rollback to a savepoint, which drops rows and locks, keeps the transaction sound |
| AuditLog.OthersCommitOk | backend/app/crud/migration_event.py:103-126 | a commit elsewhere changes nothing that a transaction has locked |
| AuditLog.StepKeepsInv | backend/app/crud/migration_event.py:164-233 | every step of every transaction keeps the invariant and only appends chained rows with an allowed actor type to the committed table |
| AuditLog.ConcurrentLogsAreIntact | backend/app/crud/migration_event.py:80-283 | from any table of verified logs and under every interleaving, each committed log is numbered 1..n, verifies, and is the log it started from with chained rows behind it; a longer run only extends it |
| AuditLog.NewLogsAreFullyChained | backend/app/crud/migration_event.py:164-233 | from the empty table every row of every log is chained |
| AuditLog.OfMeans | backend/app/crud/migration_event.py:80-126 | the query selects exactly the rows of the migration |
| AuditEmission.CommittedRowsWereAskedFor | backend/app/crud/migration_event.py:164-233 | under every interleaving, each newly committed row carries, column by column, what an emitter passed |
| AuditEmission.EmitterAlone | backend/app/crud/migration_event.py:164-233 | undisturbed, a commit leaves exactly the emitter's row, numbered and hashed behind the log, and an abort leaves nothing |
| AuditEmission.SettingStandsBehind | backend/app/services/audit_log.py:196-242 | a savepoint that was just set stands, with the rows and locks of that moment |
| AuditEmission.StatementStaysBehind | backend/app/services/audit_log.py:196-242 | no statement inside a savepoint touches what lies before it |
| AuditEmission.RollbackRestores | backend/app/services/audit_log.py:196-242 | a rollback gives back exactly the rows and locks of the moment the savepoint was set |
| AuditPaging.CursorCuts | backend/app/crud/migration_event.py:129-161 | on a numbered log the cursor cuts off exactly the rows up to it |
| AuditPaging.PageIs | backend/app/api/v1/migrations.py:648-722 | a page is the next `limit` matching rows behind the cursor, and `has_more` says whether more match |
| AuditPaging.PageHolds | backend/app/api/v1/migrations.py:648-722 | a page holds only rows of the migration behind the cursor with the asked tenant and event type, in order; all of them if `has_more` is false, exactly `limit` if it is true |
| AuditPaging.PollKeepsReader | backend/app/api/v1/migrations.py:648-722 | one poll keeps the reader exact, makes progress if anything is left, and completes it when `has_more` is false |
| AuditPaging.ReaderReceivesEveryEventOnce | backend/app/schemas/migration.py:196-229 | from any table of verified logs and while writers commit, a paging reader has received every matching event up to its cursor once, in order, and nothing else |
| AuditPaging.ReaderHasWhatWasAsked | backend/app/schemas/migration.py:196-229 | the reader has exactly those events up to its cursor that have the asked tenant and event type |
| MigrationCrud.Session.RecordEvent | backend/app/crud/migration_event.py:164-233 | an event with an allowed actor type is appended with the next number and its hash, or nothing is written |
| MigrationCrud.Session.CreateMigration | backend/app/crud/migration.py:128-171 | row and creation event are committed together or not at all |
| MigrationCrud.Session.SetMigrationStatus | backend/app/crud/migration.py:264-328 | status, times and result are committed with the event of the transition; a no-op re-set commits no event; an error commits nothing |
| MigrationCrud.Session.FailMigration | backend/app/crud/migration.py:389-405 | the error is stamped and committed by itself |
| MigrationCrud.Session.SafeEmit | backend/app/services/audit_log.py:196-270 | a success commits exactly one more event; a failure leaves the last committed database and drops all pending work |
| MigrationCrud.Session.DeleteMigration | backend/app/crud/migration.py:214-256 | an active migration is refused, one with an audit trail is refused and nothing is lost |
| MigrationCrud.Session.Perform | backend/app/crud/migration.py:128-405 | each operation on a clean session leaves the committed database that the runs below step to |
| MigrationEffects.StatusReadsBack | backend/app/models/migration.py:16-29 | every status has the spelling of the API, and no two share one |
| MigrationEffects.CreationEffect | backend/app/crud/migration.py:128-171 | creation leaves a PENDING row without times, result or error, and one event, column by column |
| MigrationEffects.StatusWriteEffect | backend/app/crud/migration.py:264-328 | times and result of the row; no event without a change; otherwise one, a classified error if and only if FAILED, with the stored message and code or their defaults, else a transition from the old status |
| MigrationEffects.StampEffect | backend/app/crud/migration.py:389-405 | only the two error columns change |
| MigrationEffects.NoteEffect | backend/app/services/audit_log.py:54-171 | the row stays, and one event repeats its status |
| MigrationEffects.FailureIsTold | backend/app/crud/migration.py:295-328 | stamping an error and then failing is told with that code and that message |
| MigrationCrud.RecordedOk | backend/app/services/audit_log.py:54-171 | an event that starts from the status told so far carries the log on, for any row with its result stamped, and no other migration is concerned |
| MigrationCrud.StepTold | backend/app/crud/migration.py:264-328 | for each migration: an operation keeps its log telling its status if and only if it is not its own unlogged reset |
| MigrationCrud.OperationsAreLocal | backend/app/crud/migration.py:128-405 | an operation leaves every other migration and its log alone, and the start time is written once |
| MigrationCrud.LogReplaysToRow | backend/app/crud/migration.py:128-328 | for each migration that is told at the start and not reset itself: after any run replaying its log gives its row's status, through failures, no-op re-sets, aborted emits and resets of others |
| MigrationCrud.BrokerFailureIsUntold | backend/app/api/v1/migrations.py:498-534 | created, started, broker unreachable: the row says PENDING and the log VALIDATING |
| MigrationCrud.RunKeepsTrail | backend/app/crud/migration.py:128-171 | every operation leaves every migration with an audit trail |
| MigrationCrud.NothingIsDeleted | backend/app/crud/migration.py:214-256 | after any run, resets included, every delete leaves the database as it is |
| Conversion.AggregateExact | backend/app/crud/conversion.py:160-205 | each aggregate status holds exactly under its condition on the jobs, for every non-empty group |
| Conversion.OrderDoesNotMatter | backend/app/crud/conversion.py:160-205 | the order of the jobs does not matter |
| Conversion.Group.SetGroupStatus | backend/app/crud/conversion.py:132-157 | the start is stamped once, the end at every terminal write |
| Conversion.Group.RecomputeGroupStatus | backend/app/crud/conversion.py:160-205 | the loop over the jobs writes the aggregate status; an empty group is left alone |
| Orchestrator.WaitForConversions | backend/app/tasks/migration.py:275-332 | success only on READY, an error on every failed or vanished group and at the deadline, after at most ceil(T/5)+1 polls |
| Orchestrator.FindExistingGroup | backend/app/tasks/migration.py:222-239 | finds the newest group with the migration's id if and only if one is among the newest 50 |
| Orchestrator.StepKeepsInv | backend/app/tasks/migration.py:75-177 | where a delivery can be for each status, and that no step changes a row in a terminal status |
| Orchestrator.TerminalIsAbsorbing | backend/app/tasks/migration.py:47-177 | over any deliveries, crashes and failures, and cancels between deliveries, a row in a terminal status never changes again |
| Orchestrator.CancelDuringDelivery | backend/app/tasks/migration.py:337-379 | a cancel that arrives during a delivery is overwritten exactly by a stage's next status write or by a failure handler past its guard |
| Orchestrator.OneGroupUnlessPushedOut | backend/app/tasks/migration.py:222-272 | at most one group carries the migration's id if and only if no search missed an existing one |
| Orchestrator.SecondGroupArises | backend/app/tasks/migration.py:222-272 | deliver, make the group, die, 50 other groups, deliver again: two groups carry the migration's id |
| Orchestrator.OneGroup | backend/app/tasks/migration.py:222-272 | with at most 50 groups for the VM and tenant there is at most one |
| Orchestrator.DeliveriesAreTold | backend/app/tasks/migration.py:75-177 | deliveries, however interrupted, keep the audit log of every migration in step with its row |
| Orchestrator.StagesInOrder | backend/app/tasks/migration.py:75-177 | an undisturbed delivery commits the stages in their order, has its group from the third commit on, and ends COMPLETED |
| Orchestrator.ThrowingStageFails | backend/app/tasks/migration.py:354-379 | a throwing stage ends the delivery; the row ends FAILED with code and message unless it is completed, cancelled or rolled back |
| Orchestrator.Fail | backend/app/tasks/migration.py:354-379 | a protected row is left alone; otherwise the error is committed first and the status after it, so a raise in between leaves only the error |
| RefreshTokens.QuietKeepsInv | backend/app/core/refresh_token_store.py:91-132 | a step that only deletes and consumes no token keeps the invariant |
| RefreshTokens.CreateWrites | backend/app/core/refresh_token_store.py:72-88 | token and meta key of a new family both expire one lifetime from now; no other key changes |
| RefreshTokens.ReissueWrites | backend/app/core/refresh_token_store.py:111-115 | the new token and a living meta key both get a whole lifetime from now; a missing meta key is not made again; no other key changes |
| RefreshTokens.StepKeepsInv | backend/app/core/refresh_token_store.py:72-132 | every Redis step of every call, and every clock tick, keeps the invariant |
| RefreshTokens.OneTokenPerFamily | backend/app/core/refresh_token_store.py:91-123 | in every reachable state live tokens plus rotations between DEL and SET number at most one per family |
| RefreshTokens.TokenRotatesOnce | backend/app/core/refresh_token_store.py:91-123 | over any run at most one call with a given token gets RotateOk, and it is the creator's |
| RefreshTokens.GoneForGood | backend/app/core/refresh_token_store.py:91-132 | once the meta key is gone it stays gone, and no call that checks afterwards succeeds, whatever tokens are written late |
| RefreshTokens.WipedForGood | backend/app/core/refresh_token_store.py:126-132 | when a scan that was only bound to return what stayed there, and its DELs, have ended, the family is dead for good, whatever ran in between |
| RefreshTokenReuse.RunKeepsUsedUp | backend/app/core/refresh_token_store.py:91-123 | over every run, a call answered RotateUnknown while its family lives has used up its token itself, and no other call wins it |
| RefreshTokenReuse.ReuseKillsTheFamily | backend/app/core/refresh_token_store.py:91-132 | if one call got RotateOk for a token and another call that presented it has been answered, the family is dead and stays so |
| RefreshTokens.CarefulClientIsNeverAccused | backend/app/core/refresh_token_store.py:91-123 | a client that waits for each reply and presents its latest token never gets RotateReuseDetected |
| RefreshTokenLifetime.IssuingOpensSession | backend/app/core/refresh_token_store.py:72-123 | whenever a careful client is given a token, token and family live one whole lifetime |
| RefreshTokenLifetime.RotatingInTimeSucceeds | backend/app/core/refresh_token_store.py:91-123 | over every run, a careful client that does not log out gets RotateOk from every rotation within one lifetime of its last token |
| RefreshTokens.IdlingEndsTheFamily | backend/app/core/refresh_token_store.py:77-123 | if such a client idles past the lifetime, everything it starts ends in RotateUnknown |
| RefreshTokenStore.TokenStore.CreateFamily | backend/app/core/refresh_token_store.py:72-88 | token and meta key belong to the user and live for exactly the lifetime; nothing else changes |
| RefreshTokenStore.TokenStore.RevokeFamily | backend/app/core/refresh_token_store.py:126-132 | the loop over any scan leaves no live key of the family and returns the number of keys it removed |
| RefreshTokenStore.TokenStore.Rotate | backend/app/core/refresh_token_store.py:91-123 | which result for which entries; after RotateOk the new token and the meta key are the owner's and live exactly one lifetime from now; after a detected reuse the family is dead; all else is untouched |
| RefreshTokenStore.SoloRotation | backend/app/core/refresh_token_store.py:91-132 | the interleavable steps, run without interference, are the rotation of the imperative form, the wipe included |
| RefreshTokenStore.SoloRevoke | backend/app/core/refresh_token_store.py:126-132 | the interleavable steps of a logout, run without interference, are RevokeFamily |
| LoginThrottle.Throttle.CheckLockout | backend/app/core/login_throttle.py:112-160 | locked if and only if a counter has reached the limit; the reported seconds end exactly when the last locking counter does |
| LoginThrottle.Throttle.RecordFailure | backend/app/core/login_throttle.py:163-194 | both counters go up by one, the email's running window is not prolonged, the address's always is, and no other counter changes |
| LoginThrottle.Throttle.CheckIpLockout | backend/app/core/login_throttle.py:197-219 | locked if and only if the address's counter has reached the limit, for exactly as long as it lives |
| LoginThrottle.Throttle.RecordIpFailure | backend/app/core/login_throttle.py:222-230 | the address's counter goes up by one and its window starts again; no other counter changes |
| LoginThrottle.Throttle.ResetIp | backend/app/core/login_throttle.py:233-237 | until something is counted again the address is not locked at any time, and no other counter changes |
| LoginThrottle.Throttle.ResetBoth | backend/app/core/login_throttle.py:240-253 | until something is counted again neither email nor address is locked at any time, and no other counter changes |
| LoginThrottle.Throttle.Serve | backend/app/api/v1/auth.py:193-284 | a request is answered and counted as the traces of the rate bounds say; a locked one changes nothing |
| LoginThrottle.AlwaysArmed | backend/app/core/login_throttle.py:163-194 | no counter is ever without an expiry |
| LoginThrottle.BucketStep | backend/app/core/login_throttle.py:112-230 | what one attempt does to one counter: counted and armed, or untouched |
| LoginThrottle.SuccessClears | backend/app/core/login_throttle.py:233-253 | a successful login clears exactly its own two counters, so neither check locks it out afterwards |
| LoginThrottle.RefreshClears | backend/app/api/v1/auth.py:246-284 | a successful refresh clears exactly the counter of its address |
| LoginThrottle.FailureCounts | backend/app/core/login_throttle.py:163-230 | a failure counts once for its email and once for its address, whose window starts again; nothing else changes |
| LoginThrottle.SwitchedOff | backend/app/core/login_throttle.py:112-230 | with a limit of zero or less nothing is locked or counted |
| LoginThrottle.EmailRateBound | backend/app/core/login_throttle.py:112-194 | any window-long interval admits at most 2*max-1 failures for an email that is not reset |
| LoginThrottle.IpRateBound | backend/app/core/login_throttle.py:112-230 | any window-long interval admits at most max failures for an address that is not reset |
| LoginThrottle.EmailBoundIsTight | backend/app/core/login_throttle.py:112-194 | a trace that reaches 2*max-1 |
| LoginThrottle.IpBoundIsTight | backend/app/core/login_throttle.py:197-230 | a trace that reaches max |
| LoginThrottle.EmailWindowIsFixed | backend/app/core/login_throttle.py:163-194 | a live email counter expires one window after the failure that opened it, whatever came since |
| LoginThrottle.EmailLockIsShort | backend/app/core/login_throttle.py:145-194 | an email lock ends within one window of the first failure of its window |
| LoginThrottle.RetryAfterIsExact | backend/app/core/login_throttle.py:145-160 | without new failures the request stays locked before the reported seconds and is let through from then on, for both kinds of lock |
| DiscoverySync.First | backend/app/services/discovery.py:2516-2543 | a query returns a row its clause selects, or none if there is none |
| DiscoverySync.AnyRowMayComeFirst | backend/app/services/discovery.py:2516-2543 | the model excludes none of the selected rows |
| DiscoverySync.Find | backend/app/services/discovery.py:2572-2660 | what is known of the row that each of the three passes finds |
| DiscoverySync.Session.ReattachByUuid | backend/app/services/discovery.py:2516-2543 | the tenant's row with the uuid moves to this hypervisor, unflushed |
| DiscoverySync.Session.UpdateFromDiscovery | backend/app/services/discovery.py:2765-2860 | the in-place edits add up to the refreshed row, and a change is always reported |
| DiscoverySync.Session.SyncEntry | backend/app/services/discovery.py:2545-2660 | one entry's matching, edit or insert, flush and counts, with a missing key stopping it where the code stops |
| DiscoverySync.Session.ArchiveMissing | backend/app/services/discovery.py:2662-2694 | the loop archives exactly the stale rows, chosen by their flushed values, and counts them |
| DiscoverySync.Session.SaveDiscoveredVms | backend/app/services/discovery.py:2572-2716 | the committed table, the counts, the archived rows and the live count after a whole sync |
| DiscoverySync.RowsAreKept | backend/app/services/discovery.py:2611-2860 | over any list: uuids, names and tenants are permanent, MIGRATING and MIGRATED keep their status, and rows of other tenants off this hypervisor are untouched |
| DiscoverySync.ArchivedExactly | backend/app/services/discovery.py:2662-2694 | when exactly a row is archived, NULL uuids on either side of NOT IN included |
| DiscoverySync.ArchivedAreThoseThatBecameSo | backend/app/services/discovery.py:2662-2694 | archived_vms counts exactly the rows that were not archived before and are afterwards |
| DiscoverySync.CountsAddUp | backend/app/services/discovery.py:2545-2660 | new + updated + unchanged + errors is the number of entries plus the nameless ones matched by uuid, and unchanged is 0 |
| DiscoverySync.NewRowsAreCounted | backend/app/services/discovery.py:2545-2570 | new_vms is the number of rows the table gained |
| DiscoverySync.NamedCountsAddUp | backend/app/services/discovery.py:2545-2660 | with every name there the counts sum to the number of entries; with every required key there, none is an error |
| DiscoverySync.CountedTwiceIff | backend/app/services/discovery.py:2545-2660 | with uuids of their own, an entry is counted twice if and only if its name is missing and its uuid was known before the sync |
| DiscoverySync.CountsFromInputs | backend/app/services/discovery.py:2545-2660 | the sum of the counts from table and entries alone |
| DiscoveryEffects.UnmatchedIsInserted | backend/app/services/discovery.py:2718-2763 | an unmatched complete entry adds exactly one DISCOVERED row with the reported values, or 1 processor, 1024 MB and no disk |
| DiscoveryEffects.UpdateEffect | backend/app/services/discovery.py:2765-2860 | each column is overwritten with what was reported or left alone |
| DiscoveryEffects.AddedRowsAreDiscovered | backend/app/services/discovery.py:2572-2763 | every row a sync adds is DISCOVERED, on the hypervisor, with a reported name and uuid |
| DiscoveryEffects.UnreportedMachine | backend/app/services/discovery.py:2662-2694 | an unreported machine keeps every column but its status, which becomes ARCHIVED exactly under the clause's condition |
| DiscoveryConvergence.RefreshedIsSettled | backend/app/services/discovery.py:2765-2860 | a refreshed row holds the entry, and refreshing it again changes nothing |
| DiscoveryConvergence.SettledCarries | backend/app/services/discovery.py:2765-2860 | a refreshed or settled row carries every reported value, except a non-positive disk and empty network addresses |
| DiscoveryConvergence.EveryReportedMachineHasOneRow | backend/app/services/discovery.py:2572-2716 | each reported uuid has exactly one row on the hypervisor, not archived and holding the report, if and only if no entry is disputed |
| DiscoveryConvergence.SyncedIsWellFormed | backend/app/services/discovery.py:2572-2716 | one row per tenant and uuid, and only the tenant's rows on the hypervisor, stay true |
| DiscoveryConvergence.WithoutHomonymsNoDispute | backend/app/services/discovery.py:2626-2655 | names that are distinct among legacy rows' names are never disputed |
| DiscoveryConvergence.DisputedLosesAMachine | backend/app/services/discovery.py:2626-2655 | a disputed run ends with a reported uuid that no row of the tenant has |
| DiscoveryConvergence.SecondSyncIsIdle | backend/app/services/discovery.py:2572-2716 | an identical second sync, whichever rows its queries pick, leaves the table as it is if and only if nothing was disputed; it then inserts and archives nothing |
| DiscoveryConvergence.HomonymsLoseAMachine | backend/app/services/discovery.py:2626-2655 | two machines of one name and one legacy row: the second gets no row |
| Csv.CellRoundTrip | frontend/src/lib/csv.ts:22-41 | an escaped cell reads back as the neutralised value, whatever follows |
| Csv.RecordRoundTrip | frontend/src/lib/csv.ts:43-50 | a printed record reads back cell by cell |
| Csv.FileRoundTrip | frontend/src/lib/csv.ts:43-50 | records that each end in CRLF read back as those records |
| Csv.RoundTripIff | frontend/src/lib/csv.ts:43-50 | parsing the printed text gives header and rows, neutralised, if and only if there is a column and not one empty single-column row |
| Csv.NoFormulas | frontend/src/lib/csv.ts:17-50 | no non-empty cell that is read back starts with a formula trigger |
| Csv.QuotedIff | frontend/src/lib/csv.ts:22-41 | a cell is quoted if and only if it holds a comma, a quote or a line break |
| Csv.CellsReadBack | frontend/src/lib/csv.ts:43-50 | a reader finds every header and every value in its place: nothing for a missing one, a quote in front of the six trigger characters, and any other as it is |
| Compatibility.CollectDigits | backend/app/services/compatibility_rules.py:147-170 | the loop collects the first run of digits |
| Compatibility.ExtractLinuxMajor | backend/app/services/compatibility_rules.py:147-170 | the version's first number, or else the name's |
| Compatibility.FirstDigitsMeans | backend/app/services/compatibility_rules.py:147-170 | digits that no digit precedes or follows are what the loop collects |
| Compatibility.MajorMeans | backend/app/services/compatibility_rules.py:147-170 | the number first written in the version is the major version; the name counts only if the version has none |
| Compatibility.FindDistroMeans | backend/app/services/compatibility_rules.py:52-89 | which oldest major version applies to which text |
| Compatibility.OpensuseIsSuse | backend/app/services/compatibility_rules.py:52-89 | the threshold listed for openSUSE is never applied |
| Compatibility.Aggregate | backend/app/services/compatibility_rules.py:519-555 | the loop's grade, score, blockers and warnings for any list of rules |
| Compatibility.ListedExactly | backend/app/services/compatibility_rules.py:519-555 | an id is listed if and only if a rule with that id failed with that severity |
| Compatibility.GradeMeaning | backend/app/services/compatibility_rules.py:519-555 | for any list of rules: INCOMPATIBLE if and only if a blocker failed, COMPATIBLE if and only if nothing but INFO failed, PARTIAL if and only if a warning but no blocker failed |
| Compatibility.RulesAnswer | backend/app/services/compatibility_rules.py:195-496 | the severities and weights each rule can answer with, and that a doubtful system and a driver injection exclude each other |
| Compatibility.GradeExactly | backend/app/services/compatibility_rules.py:195-555 | exactly which VMs are INCOMPATIBLE and which are COMPATIBLE |
| Compatibility.ScoreExactly | backend/app/services/compatibility_rules.py:195-555 | the score of every VM as 100 less the listed costs, and at least 0 |
| Compatibility.ScoreAndGrade | backend/app/services/compatibility_rules.py:195-555 | for every VM: COMPATIBLE if and only if the score is 100, PARTIAL only within 35 to 95, a blocker only up to 60 |
| Compatibility.LowestPartial | backend/app/services/compatibility_rules.py:195-555 | 35 is attained |
| Compatibility.HighestPartial | backend/app/services/compatibility_rules.py:195-555 | 95 is attained |
| Compatibility.MoreIsNotWorse | backend/app/services/compatibility_rules.py:309-390 | more processors, memory or disk never lower the score or worsen the grade |
| Compatibility.OnlyVirtioLinuxIsCompatible | backend/app/services/compatibility_rules.py:434-496 | only Linux guests of virtio-native sources are graded COMPATIBLE |
| Compatibility.DecideGrade | backend/app/services/analyzer.py:144-204 | when the model decides, and that it is overridden whenever it contradicts the blockers |
| Compatibility.Analyze | backend/app/services/analyzer.py:215-316 | whatever the model answers, the final grade is INCOMPATIBLE if and only if a blocker exists, if and only if no strategy is recommended; otherwise the score's band gives the strategy |

## Left out

- Discovery connectors, KubeVirt and oVirt clients, routing, Alembic, bootstrap, the credential vault: plumbing over libraries.
- The stages of a migration (converter, adapter, migrator): each succeeds, throws or dies at any point; what they do to the cluster is not modelled.
- `run_migration` as one method: it is a transition system, so that a delivery may die between any two commits; progress updates, metrics and transit cleanup are not part of it.
- Concurrent status writers: `set_migration_status` does not look at the old status again under the lock, so the replay and absorbing results are for one writer at a time; of a cancel during a delivery the model says only what overwrites it (`Orchestrator.CancelDuringDelivery`).
- `set_job_status` and the other conversion job setters: plain assignments to one row.
- `Orchestrator.WaitForConversions`: the group status and the clock are functions of the number of the poll, and a poll takes at least the five seconds slept.
- `AuditLog.Step`: the lock timeout is an abort that may come at any time; deadlocks are not detected, they are waits that end in such an abort.
- `MigrationCrud.Session.SafeEmit`: the message and kind are kept, the optional phase, payload and actor of the emitters are not.
- Payloads with floats, NaN or values that `default=str` would convert: payloads are strings, integers, booleans, null, arrays and objects with string keys, and strings hold Unicode scalar values only.
- Redis answers TTL in rounded seconds; the model's clock has whole seconds. Emails are compared in the normalised form of `_email_key`.
- A Redis outage, in which both stores let requests through or fail, is not modelled.
- Cursor pages and the COUNT hint of SCAN: only its guarantee is modelled, that every key present from start to end is returned at least once.
- `DiscoverySync.Entry`: values have their column's type, and a name, cpu or memory key that is present is not null; integrity errors of the database end the run in the code and are not modelled. Timestamps and the compatibility status are left out.
- `Compatibility.RuleOsSupported`: names arrive stripped and in lower case, messages are replaced by the ids of the rules, and only ASCII digits count as digits.
- The learned model is an arbitrary answer with an arbitrary confidence; confidences are reals.
- React UI, formatting helpers, RBAC lookups, cluster configuration, one-hot features: they would add only easy members.
