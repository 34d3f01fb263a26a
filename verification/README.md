# TeamTaler protocols in Dafny

TeamTaler keeps the books of clubs: members book drinks and fees, pay, and see what they owe. This
project models the parts of the server whose correctness depends on how steps interleave or on
exact arithmetic, and proves what they promise. `dafny verify dfyconfig.toml` (Dafny 4.11) checks
all of it.

## What is modelled

- **Data exports** (`Export*.dfy`). A durable job queue with expiring leases and ten attempts, whose
  archives live in a directory outside the database. `ExportMachine` is the protocol as a state
  machine over single transactions and single file operations; workers, cleanup passes, removals and
  callbacks interleave freely and may stop anywhere. `ExportInvariant` and `ExportSafety` prove that
  READY archives and live temporary files are never lost, `ExportLimits` and `ExportReach` show
  exactly when they are, and `ExportHistory`, `ExportLeases`, `ExportEffort` and `ExportAdmission`
  prove properties of whole runs. `ExportQueue` and `ExportDelivery` prove that no job is ever stuck
  and what can still be done from every reachable state. `ExportService` adds the processes around
  the protocol: callers that report finished jobs from records they hold (`ExportNotices`) and
  downloads that check first and open later (`ExportDownloads`). `ExportStore` has the service's
  methods in place.
- **E-mail outboxes** (`Outbox*.dfy`, `PublicJoinQueue.dfy`). One lease machine, instantiated for
  invitations, account security, notifications and public joins, with the writers outside it;
  `OutboxQueue` proves that interrupted messages are taken up again.
- **Account security and public joins** (`AccountSecurity*.dfy`, `PublicJoin.dfy`,
  `PublicJoinTable.dfy`). One-time actions and registrations and their mail.
- **Books and activity feed** (`Books*.dfy`, `Booking*.dfy`, `Feed*.dfy`, `AuditSort.dfy`,
  `SortKeys.dfy`, `Cursors.dfy`, `Paging.dfy`). Double-entry bookings and append-only reversals,
  idempotent commands, cart expansion, the derived feed, keyset and centred-window paging, the text
  of continuation cursors, and which walks over the feed and the audit log they carry to the end.
- **External accounts** (`AccountOrder.dfy`, `External*.dfy`). Balances, links, archival and the
  two-phase reorder.
- **Algorithms** (`Permissions.dfy`, `Barcodes.dfy`, `Backup*.dfy`, `Restore.dfy`).

Pure specifications are functions over values; what the source does by updating rows in place is a
class with the same tables as fields, and its methods are proved to compute those functions.

## Assumptions

- Each transaction body is one atomic step and each query one snapshot. Clock readings may be
  arbitrarily stale when a transaction commits; the clock itself never runs backwards.
- Times are integers in nanoseconds. Timestamps are assumed to compare as text like the times they
  stand for.
- Fresh identifiers and tokens are distinct, and SHA-256 is injective, so a digest is represented by
  what it digests; in the backup model it is a function with 64 hexadecimal digits.
- Authorization results, cipher and mail relay outcomes, and what a database file references are
  parameters that may take any value at any time. A booking request carries the answer of the
  authorization that some commands run before they look its key up.
- `ExportSafety.RunSafe` assumes that a completing transaction commits within one lease of the
  attempt's last write and that a removal which unlinked an archive commits. `ExportLimits` proves
  both to be necessary. Downloads and completion reports are proved under the same assumption.
- In the books, payments and member corrections are postings of the shape the finance service makes;
  the allocation rebuild is any function of a member's own claims and unreversed payments.
- Texts are sequences of Unicode characters. The names and identifiers of stored rows keep to the
  limits the tables and the server put on them.
- How many compressed bytes an archive takes is any function of the archive.

## Where code and documentation disagree

- `internal/email/public_join_outbox.go:25-27` promises at most five attempts, but the claim does not
  look at the attempt count. After five interrupted deliveries the claim selects the row a sixth
  time, the column constraint aborts it, and the row holds back younger interrupted ones until an
  outside writer touches it (`PublicJoinQueue`).
- `internal/backup/backup.go:368-373` speaks of exactly 64 hexadecimal digits, but the check also
  passes 60 digits with two extensions and, for attachments, 56 digits with three; the promise holds
  exactly for names whose first 64 bytes are hexadecimal digits (`Backup.ContentForms`,
  `Backup.DigestNameIff`). The later content-address check rejects the others.
- `internal/exporting/service.go:291-294` promises that a failed removal stays retryable, which is
  so, but a READY job then has lost its archive (`ExportLimits.AbortedRemoval`).
- `internal/tablequery/tablequery.go:253-254` calls what it makes a continuation cursor, but some of
  them are refused when they come back: the audit log sorts a missing actor name as empty text, and
  no cursor may carry an empty key (`AuditSort.AuditWalkCompletes`); the activity feed avoids this,
  but a long description that has to be escaped makes its cursor too long
  (`FeedSort.FeedWalkCompletes`).

## Model

| member | source | states |
|---|---|---|
| ExportJobs.NewConfig | internal/exporting/service.go:53-88 | Whatever options are passed, generation times out strictly before its lease ends and every limit is positive; valid options are kept. |
| ExportSafety.StepKeeps | internal/exporting/worker.go:23-112 | Every transaction, file operation or crash of live, stale and finished workers, `Cleanup` passes, removals and callbacks keeps the protocol invariant. |
| ExportSafety.RunSafe | internal/exporting/artifacts.go:71-130 | In every state of every run each READY row has its archive on disk with the recorded size and content, and no attempt inside its deadline has lost its temporary file. |
| ExportSafety.StaleAttemptHarmless | internal/exporting/worker.go:99-107 | An attempt that lost its job and cleans up after itself deletes no file of another attempt and no READY archive. |
| ExportInvariant.CleanersKept | internal/exporting/worker.go:236-272 | What a `Cleanup` pass has listed, read as retained or found stale stays safe to act on across every step of everybody else. |
| ExportSafety.StaleCondemned | internal/exporting/artifacts.go:112-122 | An unretained entry older than one lease can never again become a READY archive or belong to a live attempt. |
| ExportHistory.StepMoves | internal/exporting/worker.go:274-497 | Each step moves a row only QUEUED to RUNNING, RUNNING to READY, FAILED or CANCELLED, QUEUED to CANCELLED, READY to EXPIRED or CANCELLED; only terminal rows disappear; the recorded outcome of a job is permanent. |
| ExportHistory.ChainMoves | internal/exporting/service.go:186-203 | Over any stretch of a run a surviving job only moves forward, never loses attempts, and its request columns are immutable. |
| ExportHistory.CompletedOnce | internal/exporting/worker.go:424-444 | At most one step of a run, hence at most one lease token, ever writes READY for a job. |
| ExportHistory.ReadyRecordStable | internal/exporting/worker.go:424-444 | For as long as a job stays READY its row records the archive of the completing attempt with its size and digest, full progress, and an expiry exactly one retention after completion. |
| ExportLeases.LeaseRespected | internal/exporting/worker.go:282-353 | Nobody claims a job again or declares it exhausted before one lease has passed since its attempt claimed it or last reported progress. |
| ExportQueue.NeverStuck | internal/exporting/worker.go:282-392 | In every reachable state an active job is queued with all its attempts or runs under a lease; from the end of that lease on claims alone take it up as the next attempt under a full lease, or, after the tenth, exhaustion steps alone fail it. |
| ExportDelivery.CanBeDelivered | internal/exporting/worker.go:23-112 | From every reachable state a free job with attempts left can be delivered by one undisturbed attempt: the row ends READY for one retention, and its archive with the written content is on disk. |
| ExportDelivery.CanBeRetired | internal/exporting/worker.go:210-262 | From every reachable state a cleanup pass can retire an expired or revoked READY job: the row ends EXPIRED or CANCELLED without its archive, and the file is gone. |
| ExportDelivery.CanBeReclaimed | internal/exporting/artifacts.go:93-130 | From every state a pass can remove any file that no READY row names and that is older than one lease, and nothing else with it. |
| ExportDelivery.RemovalEffect | internal/exporting/service.go:295-337 | Removing a finished job takes exactly its archive and row; removing an active one cancels it and takes its lease, and nothing else changes. |
| ExportDelivery.LostCompletion | internal/exporting/worker.go:94-107 | A completion that lost its lease changes no row and no file, and goes on to delete its own archive exactly unless it finds the job READY. |
| ExportEffort.EffectiveDecreases | internal/exporting/worker.go:334-392 | The measure (claims left out of ten, datasets left in this attempt) strictly decreases on every worker write that changes the row. |
| ExportEffort.OthersNeverIncrease | internal/exporting/worker.go:191-272 | No other step of anyone ever raises that measure for a known job. |
| ExportEffort.WorkBounded | internal/exporting/worker.go:282-283 | Over every run, with any crashes and redeliveries, the effective worker writes on one job never exceed ten attempts with their datasets plus one final write. |
| ExportAdmission.RunAdmitted | internal/exporting/service.go:166-183 | In every reachable table at most one job per group, user and scope is active, one row exists per idempotency key, and every window of one hour ending at any time holds at most `hourlyStarts` retained rows per user and scope. |
| ExportAdmission.CreateKeepsHourly | internal/exporting/service.go:175-183 | The hourly bound holds for windows ending at any time although the deciding transaction may use a stale clock reading, because later starts are counted too. |
| ExportAdmission.CreateAnswers | internal/exporting/service.go:155-183 | Exactly when a request in a reachable state is replayed, refused as a conflict, rate limited or accepted; the fingerprint mismatch never occurs. |
| ExportAdmission.CreateEffect | internal/exporting/service.go:155-204 | An accepted request adds exactly its own row, queued with all attempts, and touches nothing else; a replayed or refused one changes nothing. |
| ExportAdmission.ReplayAnswersOriginal | internal/exporting/service.go:155-165 | While its row is retained, repeating a request at any later time answers that job and changes nothing. |
| ExportNotices.RunInformed | internal/exporting/worker.go:499-513 | In every reachable state each record in a caller's hands, however stale, and each report made from one carries its job's one outcome, and a row is acknowledged only after that outcome was reported. |
| ExportNotices.ReadBackReports | internal/exporting/worker.go:99-108 | What a completing, failing or exhausting worker reads back and reports is the recorded outcome, also when another attempt made it. |
| ExportNotices.FinisherCanReport | internal/exporting/worker.go:99-112 | A worker that finishes or fails its job holds the record at once and can report it. |
| ExportNotices.ListPending | internal/exporting/worker.go:160-179 | The list holds only READY or FAILED rows without acknowledgement, earliest first, and leaves one out only if the limit is filled by rows that finished before it. |
| ExportNotices.PendingCanBeReported | internal/exporting/worker.go:180-184 | A listed row can at once be reported and acknowledged, and is then listed no more. |
| ExportNotices.NotificationTable.ExportCompleted | internal/exportnotifications/listener.go:32-79 | A READY or FAILED callback for an active member leaves a notice under the derived identifier, addressed to that member of that group; nothing else is added, existing notices never change, and repeating the call changes nothing more. |
| ExportNotices.RecordedIff | internal/exportnotifications/listener.go:44-79 | After any sequence of callbacks a notice exists if and only if one of them was about its event while the member was active, and it is addressed as such a callback said. |
| ExportNotices.OneNotificationPerJob | internal/exportnotifications/listener.go:48-78 | However often, in whatever order and from however stale records the callbacks of a run are made, a job has at most one notification, and it tells the job's outcome. |
| ExportDownloads.CheckPassesIff | internal/exporting/service.go:249-271 | The check lets a download through if and only if the user owns the job and is authorized and the job is READY and unexpired; it then holds what the row records. |
| ExportDownloads.DownloadServedIff | internal/exporting/service.go:249-289 | A checked download is of an unexpired READY job of the asking user and serves exactly the content whose digest the row recorded, or is unavailable, and that if and only if a removal or a cleanup pass unlinked the archive between the check and the open. |
| ExportDownloads.ReadyDownloadServed | internal/exporting/service.go:274-288 | As long as the row is READY when the file is opened, the download is served. |
| ExportDownloads.LostDownloadReachable | internal/exporting/service.go:271-277 | For every configuration a run exists in which the archive is removed between check and open, so the download fails. |
| ExportDownloads.ActionKeepsArchive | internal/exporting/artifacts.go:71-73 | The archive of a completed attempt never changes under any action; it only disappears, exactly by a removal of its job or an unlink of a cleanup pass. |
| ExportLimits.CompletionSafeIff | internal/exporting/worker.go:424-444 | The completing write keeps the promise about READY archives if and only if the published archive is still on disk when it commits. |
| ExportLimits.ReconcilerWaits | internal/exporting/artifacts.go:112-122 | A published archive of a running job passes the staleness test exactly when it is unretained and was written more than a lease before the pass began. |
| ExportLimits.LateCompletion | internal/exporting/worker.go:99-103 | From any state with an archive published more than a lease ago a READY row without its archive is reachable. |
| ExportLimits.LateCompletionExists | internal/exporting/worker.go:99-103 | For every configuration a late completion that loses its archive is reachable from the empty service, so the timing assumption of `RunSafe` is needed. |
| ExportLimits.AbortedRemoval | internal/exporting/service.go:305-327 | If a removal unlinks the archive and its transaction then fails, the promise is broken if and only if the job was READY. |
| ExportLimits.RemovalRetryable | internal/exporting/service.go:291-294 | Repeating such a failed removal has exactly the effect of the removal that failed. |
| ExportNames.ValidArtifactName | internal/exporting/artifacts.go:162-172 | The name check accepts exactly the names the publisher can produce, although job identifiers may contain dashes. |
| ExportNames.DrawnIdsAreSafe | internal/platform/id.go:17-23 | The identifiers the service draws pass the name check. |
| ExportNames.ArtifactNameInjective | internal/exporting/artifacts.go:174-177 | Job and attempt digest are both recoverable from an archive name, so two attempts never share one. |
| ExportNames.TemporaryIsNoArtifact | internal/exporting/artifacts.go:103-111 | A temporary file is never mistaken for an archive. |
| ExportStore.SelectFirst | internal/exporting/worker.go:282-283 | Selection returns a row exactly if one qualifies, and then the oldest by request time and identifier. |
| ExportStore.JobTable.Create | internal/exporting/service.go:151-204 | The in-place transaction: for each answer what the old table must have held, and the one row it adds. |
| ExportStore.JobTable.ClaimNext | internal/exporting/worker.go:274-332 | If any row has attempts below ten and is queued or running under an ended lease, the oldest such row is rewritten and no other: as the next attempt under the new lease, or to CANCELLED when authorization is gone. |
| ExportStore.JobTable.FailExhaustedAttempt | internal/exporting/worker.go:355-392 | If any running row has used its ten attempts and its lease ended, the oldest such row fails as exhausted, and no other changes. |
| ExportStore.JobTable.UpdateProgress | internal/exporting/worker.go:334-353 | Succeeds exactly for the lease holder with a possible count; then the same attempt still holds the job, and for one lease nobody can claim it or declare it exhausted. |
| ExportStore.JobTable.CompleteClaim | internal/exporting/worker.go:394-454 | After an effective call no attempt can write the row again; READY rows are never touched; if the status returned is not READY, the archive the caller then deletes is no READY row's; the table constraints hold. |
| ExportStore.JobTable.FailClaim | internal/exporting/worker.go:456-497 | Whoever calls, the attempt cannot write the row again; rows that are not running are never touched; the table constraints hold. |
| ExportStore.ArtifactDirectory.Publish | internal/exporting/artifacts.go:74-88 | For the reconciler the archive is exactly as old as the temporary file was, and no entry of another attempt is judged differently than before. |
| ExportStore.ArtifactDirectory.Reconcile | internal/exporting/artifacts.go:93-130 | Entry by entry, leaves exactly the retained and the young files and counts what it removed. |
| ExportStore.Remove | internal/exporting/service.go:295-337 | A terminal job loses its archive and its row, an active one is cancelled, a foreign one is not found; nothing else changes. |
| ExportStore.Cleanup | internal/exporting/worker.go:191-272 | An undisturbed pass leaves an unexpired and authorized READY row and its archive as they are, ends an expired row EXPIRED and a revoked one CANCELLED, without their archives, touches no row it did not list, and reconciles the directory. |
| ExportStore.LimitedWriter.Write | internal/exporting/artifacts.go:179-192 | A write is refused exactly when it would pass the limit, and then leaves the output untouched. |
| Outbox.RetryDelay | internal/email/outbox.go:449-458 | The k-th failure waits the k-th entry of the table, one, five, thirty and 120 minutes; outside it the nearest entry. |
| Outbox.RetryDelaysGrow | internal/email/outbox.go:26-31 | Later failures never wait less, between one minute and two hours. |
| Outbox.StatementsKeepShape | internal/email/outbox.go:376-427 | Every statement of all four outboxes keeps SENDING with a lease, PENDING with a due time, and the sealed token until SENT or CANCELLED. |
| Outbox.SweptIsDueIff | internal/email/account_security_outbox.go:191-220 | What each outbox makes of a row when it sweeps, in columns; afterwards a message is due if and only if it waited until now or its delivery was interrupted, it has attempts left (public joins: in any case) and its action has not expired. |
| OutboxSafety.StepKeeps | internal/email/outbox.go:292-427 | Every dispatcher statement and outside writer of each of the four outboxes keeps row shape, lease ownership and the count of attempts. |
| OutboxSafety.RunSafe | internal/email/notification_outbox.go:202-330 | The invariant holds in every state of every run of every outbox. |
| OutboxSafety.AtMostFiveCopies | internal/email/outbox.go:292-340 | For each time a row was armed the relay accepts at most five copies, and the attempt count equals the claims since then that were neither released nor cancelled early. |
| OutboxSafety.LostStaysLost | internal/email/account_security_outbox.go:203-235 | No step of anyone gives a lost lease back to its worker. |
| OutboxSafety.LostForever | internal/email/public_join_outbox.go:256-307 | A worker whose lease expired, was requeued, cancelled or re-armed never changes the row again, for the rest of every run. |
| OutboxSafety.RetryDelayRespected | internal/email/outbox.go:398-412 | After the k-th recorded failure no claim of the row has a clock reading before the k-th retry delay has passed, unless the row was re-armed. |
| OutboxSafety.LeaseRespected | internal/email/outbox.go:313-324 | A claimed row is not claimed again before one lease has passed, unless its worker finished with it or it was armed anew. |
| OutboxQueue.NeverStuck | internal/email/account_security_outbox.go:203-235 | In every reachable state a message that is pending or in flight has a moment from which, with attempts left, claims alone take it up as the next attempt, and without, the next claim fails it; in the public-join outbox as long as no message without attempts lies in the queue. |
| OutboxQueue.TakenCanBeSent | internal/email/outbox.go:376-384 | A message in flight can be accepted by the relay and is then sent for good. |
| OutboxQueue.ArmingQueues | internal/auth/account_security.go:296-304 | A message armed for the first time or again waits at once with all its attempts. |
| OutboxQueue.OutsideCloses | internal/auth/account_security.go:389-414 | Closing messages from outside changes exactly the named unsent ones, and none of them is taken again. |
| OutboxTable.SelectFirstDue | internal/email/outbox.go:316-324 | Returns the earliest due row by due time and creation, or nothing exactly when none is due. |
| OutboxTable.Table.SweepInvitations | internal/email/outbox.go:303-311 | Exactly the waiting or interrupted rows whose attempts are used up change, to FAILED, and none of them is left waiting. |
| OutboxTable.Table.SweepAccountSecurity | internal/email/account_security_outbox.go:191-215 | After the three statements the mail of expired actions is cancelled, interrupted fifth attempts have failed, every other interrupted row is pending and due at once, and all else is as it was. |
| OutboxTable.Table.SweepNotifications | internal/email/notification_outbox.go:212-219 | After the reset and the failing statement every interrupted row is pending and due at once, unless its attempts are used up; those rows and waiting ones without attempts have failed. |
| OutboxTable.Table.SweepPublicJoins | internal/email/public_join_outbox.go:193-196 | Afterwards no lease has run out, running leases and all attempt counts are untouched, and every interrupted row is due at once, also one whose attempts are used up. |
| OutboxTable.Table.ClaimNext | internal/email/account_security_outbox.go:181-239 | Picks the message due first among those that wait or were interrupted and have attempts left, and none only if there is none; the picked row is in flight as the next attempt under a lease of two minutes, the others are swept, and it rolls back exactly when a public-join row has no attempts left. |
| OutboxTable.Table.MarkSent | internal/email/outbox.go:376-384 | Effective exactly for the lease holder; the lease is used up either way, and a sent row has lost its token and is never picked or swept again. |
| OutboxTable.Table.RecordFailure | internal/email/outbox.go:398-412 | Effective exactly for the lease holder; claims may pick the row again exactly from the delay of its attempt on, and after the fifth attempt never. |
| OutboxTable.Table.CancelClaim | internal/email/outbox.go:386-396 | Effective exactly for the lease holder; a cancelled row has lost its token and is never picked or swept again; the row shapes survive for all outboxes. |
| OutboxTable.Table.Release | internal/email/outbox.go:414-427 | Effective exactly for the lease holder; claims may pick the row at once, and the next one counts as the same attempt. |
| PublicJoinQueue.ClaimCommitsIff | internal/email/public_join_outbox.go:193-212 | A claim that picked a row fails if and only if the row is a public-join row whose five attempts are used up, and then nothing changes. |
| PublicJoinQueue.SixthAttemptSelected | internal/email/public_join_outbox.go:197 | An interrupted fifth attempt is selected for a sixth if and only if the outbox is the public-join one. |
| PublicJoinQueue.SixthAttemptReachable | internal/email/public_join_outbox.go:25-27 | Against the documented bound: a run leads to a row that the claim selects for its sixth attempt, where the column constraint aborts it. |
| PublicJoinQueue.StarvedBehindInterrupted | internal/email/public_join_outbox.go:193-197 | Any younger interrupted row is never first while such a row lies before it. |
| PublicJoinQueue.WedgedUntilTouched | internal/email/public_join_outbox.go:193-212 | No step of the dispatcher ever sends, fails or advances such a row; only an outside writer frees it. |
| AccountSecurity.RequestRefusedIff | internal/auth/account_security.go:258-305 | A request is refused exactly when the account changed meanwhile or another user holds an open, unexpired change to the same address. |
| AccountSecurity.RequestOpensOne | internal/auth/account_security.go:283-304 | An accepted request is the user's only open action of its kind, with the requested target and an hour to live, and its mail waits at once with no attempts; of other users only expired changes to the address are closed. |
| AccountSecurity.SensitiveChangeClosesAll | internal/auth/account_security.go:363-414 | After any sensitive change the user has no open action and no unsent mail, and everybody else's actions and mail are untouched. |
| AccountSecurity.CommandMailFollows | internal/auth/account_security.go:363-414 | Of the earlier messages a request, redemption or password change cancels exactly those whose action it closes; what was sent stays sent. |
| AccountSecurity.StepKeeps | internal/auth/account_security.go:258-321 | Every command, sweep and early cancellation keeps: unsent mail belongs to an open action, one open action per user and kind, one per target address, never both consumed and invalidated; actions only close. |
| AccountSecurity.RunInv | internal/email/account_security_outbox.go:191-235 | These invariants hold in every state of every run of commands and dispatcher steps. |
| AccountSecurity.RedeemedIff | internal/auth/account_security.go:331-361 | A redemption succeeds if and only if the action exists, is neither consumed nor invalidated, has the requested purpose, has not expired, and the account still carries its address. |
| AccountSecurity.RedeemedWithinHour | internal/auth/account_security.go:351-361 | A token redeemed in a run was issued by a request of that purpose for that account whose clock reading lies less than an hour before the redemption. |
| AccountSecurity.ConsumedOnce | internal/auth/account_security.go:331-372 | An action is redeemed at most once in every run. |
| AccountSecurity.SweepClosesExpired | internal/email/account_security_outbox.go:191-215 | The sweep closes exactly the expired actions and cancels their unsent mail; the mail of other open actions is only requeued or failed when interrupted. |
| AccountSecurity.CancelClosesOwn | internal/email/account_security_outbox.go:309-323 | The early cancellation closes its action and mail for the lease holder and changes nothing for anybody else. |
| AccountSecurity.DispatcherIsMailOnly | internal/email/account_security_outbox.go:287-333 | No dispatcher step brings sent or cancelled mail back, which links the outbox machine to the action store. |
| AccountSecurityTable.Tables.InvalidateAccountActions | internal/auth/account_security.go:389-414 | The two statements in place write exactly the modelled actions and mail. |
| AccountSecurityTable.Tables.InvalidateExpiredEmailTarget | internal/auth/account_security.go:307-321 | The two statements in place write exactly the modelled actions and mail. |
| AccountSecurityTable.Tables.PersistAction | internal/auth/account_security.go:258-305 | Accepted exactly as modelled; a refusal restores both tables. |
| AccountSecurityTable.Tables.FinishSensitiveChange | internal/auth/account_security.go:363-387 | Accepted exactly as modelled, with the consumed action spared from invalidation. |
| AccountSecurityTable.Tables.InvalidateExpired | internal/email/account_security_outbox.go:192-202 | Closes exactly the expired open actions and cancels the mail of all expired invalidated ones. |
| AccountSecurityTable.Tables.CancelClaim | internal/email/account_security_outbox.go:309-323 | Invalidates the action and cancels the mail for the lease holder; without the lease both stay as they were. |
| PublicJoin.StepKeeps | internal/auth/public_join.go:136-162 | Every registration command, link invalidation and delivery keeps: unsent mail belongs to an open registration, one pending registration per group and mailbox, distinct tokens; registrations only close. |
| PublicJoin.StartReplaces | internal/auth/public_join.go:136-162 | A new start leaves exactly one registration pending for the mailbox and no unsent mail but its own. |
| PublicJoin.StartAnswers | internal/auth/public_join.go:115-163 | Which answer a start gives, and that it registers exactly one mailbox under the current link version, for a day or as long as the link lasts, closing exactly the mailbox's earlier open registrations of the group. |
| PublicJoin.ResendTakesEffectIff | internal/auth/public_join.go:187-223 | A resend takes effect if and only if the link is valid and the registration is open, unexpired, of that mailbox and of the current version; then only its token, term and mail change. |
| PublicJoin.ConfirmAcceptedIff | internal/auth/public_join.go:245-296 | A confirmation is accepted if and only if the registration has not expired, its link exists in the same version, enabled and unexpired, and the mailbox has no account; then exactly the account is added and the registration used up. |
| PublicJoin.ConfirmedWithinDay | internal/auth/public_join.go:251-265 | An account created by a confirmation in a run was asked for with that token less than a day before, by a start or resend for the mailbox and group, under the link version the group still had. |
| PublicJoin.InvalidationClosesGroup | internal/groups/public_join_links.go:317-323 | A group's new link closes all of its open registrations and their unsent mail and touches no other group. |
| PublicJoin.CommandMailFollows | internal/auth/public_join.go:136-162 | Of the earlier messages a start, a confirmation or a new link cancels exactly those whose registration it closes; what was sent stays sent. |
| PublicJoin.ResendRotates | internal/auth/public_join.go:187-223 | After a resend only the new token opens the registration, and its mail is queued afresh with no attempts and no lease. |
| PublicJoin.RunCloses | internal/auth/public_join.go:231-304 | Over every run a closed registration stays exactly as it is. |
| PublicJoin.AccountStays | internal/auth/account_security.go:230-241 | Over every stretch of a run a mailbox that has an account keeps it, unless the account is moved to another mailbox. |
| PublicJoin.AccountCreatedOnce | internal/auth/public_join.go:266-280 | A mailbox becomes an account a second time only if its account moved to another mailbox in between. |
| PublicJoin.CreatedTwiceAfterMove | internal/auth/public_join.go:266-280 | Such a run exists, so the condition is needed. |
| PublicJoin.RegistrationConfirmedOnce | internal/auth/public_join.go:286-293 | A registration is turned into an account at most once in every run, whatever happens to accounts. |
| PublicJoin.AccountBlocksConfirm | internal/auth/public_join.go:266-272 | While a mailbox has an account, active or deactivated, no confirmation for it is accepted. |
| PublicJoin.StartedCanConfirm | internal/auth/public_join.go:136-162 | A registration started for a free mailbox is accepted with its token until it expires. |
| PublicJoin.DispatcherIsMailOnly | internal/email/public_join_outbox.go:183-307 | No dispatcher step brings sent or cancelled mail back, which links the outbox machine to the registrations. |
| PublicJoin.ResendIsRearm | internal/auth/public_join.go:218-222 | What a resend writes to the outbox is the machine's re-arming of that row. |
| PublicJoin.InvalidateKeeps | internal/groups/public_join_links.go:317-323 | Invalidating a group's registrations keeps the registration and mail invariants. |
| PublicJoinTable.Tables.StartRegistration | internal/auth/public_join.go:115-163 | The statements in place answer and write exactly as modelled. |
| PublicJoinTable.Tables.ResendVerification | internal/auth/public_join.go:187-223 | At most the found registration and its mail change, an old token never opens it again, and the invariants survive. |
| PublicJoinTable.Tables.ConfirmRegistration | internal/auth/public_join.go:238-302 | Accepted exactly when the mailbox becomes an account; then the token opens nothing any more and nothing of the registration is left to send; a refusal changes nothing; the invariants survive. |
| BooksSafety.RunInv | internal/bookings/service.go:712-717 | In every state of every run each booking and payment has exactly its two postings, plus one negation of each once voided or reversed, and entry identifiers are unique. |
| BooksSafety.BookingBalanced | internal/bookings/service.go:1241-1267 | A booking's rows sum to zero; an unvoided one has two, a voided one four with zero on each account and each original reversed by exactly one row. |
| BooksSafety.CommandCharges | internal/bookings/service.go:707-717 | Every command changes every member's receivable by exactly what it charges: a booking its target, a void the opposite, payments, their reversals and corrections their member, and nobody else. |
| BooksSafety.LedgerBalanced | internal/bookings/service.go:712-717 | In every reachable state the whole ledger sums to zero. |
| BooksSafety.VoidKeeps | internal/bookings/service.go:1228-1267 | The statement that selects the originals finds exactly the two postings, and voiding appends their negations to the open period. |
| BooksSafety.ClosedPeriodsFrozen | internal/bookings/service.go:1228-1267 | Over every run the ledger only grows, no entry is added to a closed period, and what it holds never changes again. |
| Feed.FeedMatchesLedger | internal/activities/service.go:274-383 | For every viewer the visible amounts that target the viewer sum to the viewer's receivable balance; with both permissions this holds for every member. |
| Feed.FeedIdsUnique | internal/activities/service.go:295-383 | No identifier occurs twice in any viewer's feed, over all five union arms. |
| Feed.TextInjective | internal/activities/service.go:296-368 | The prefixed textual identifier determines arm and source whatever characters the source identifier holds. |
| Feed.BookingShownWithReversal | internal/activities/service.go:295-348 | A booking is shown exactly to its target, its actor and those who may see all bookings, its reversal exactly with it once voided, with the opposite amount, and both point at each other. |
| Feed.PaymentShownWithReversal | internal/activities/service.go:314-364 | A payment is shown exactly to its member and to finance, its reversal exactly with it once reversed, with the opposite amount, and both point at each other. |
| Feed.CorrectionShownIff | internal/activities/service.go:365-383 | A correction is shown exactly to its member and to finance, under its receivable entry and with its amount. |
| BookingCart.LoadDetails | internal/bookings/service.go:652-694 | Each refusal exactly when its cause holds, otherwise price times quantity within bounds. |
| BookingCart.ExpandTotal | internal/bookings/service.go:488-503 | The guarded 64-bit accumulation accepts exactly when the exact total fits, and then returns it. |
| BookingCart.GuardsNeverFire | internal/bookings/service.go:437-503 | With the limits on price, quantity and cart size no accepted cart can reach the overflow guards. |
| BookingCart.CartAt | internal/bookings/service.go:513-521 | The expansion has items times targets lines, in item-major order. |
| BookingCart.CartCharges | internal/bookings/service.go:488-503 | The guarded total is the exact sum of all created charges. |
| BookingBulk.BulkIsOneByOne | internal/bookings/service.go:513-526 | Posting all lines and rebuilding each target once reaches exactly the bookings, ledger and allocations of booking line by line. |
| BookingBulk.ClaimsIff | internal/ledger/allocation.go:25-28 | The rebuild of a member's allocations sees exactly the member's receivable entries that no payment posted. |
| BookingBulk.PaymentsIff | internal/ledger/allocation.go:69 | It sees exactly the member's payments that were not reversed. |
| BookingBulk.BulkCreates | internal/bookings/service.go:513-521 | A cart creates exactly one booking per item and target, at its item-major position. |
| BookingBulk.BulkCharges | internal/bookings/service.go:488-526 | After a cart every target owes the whole cart once for each time it is listed, and nobody else anything. |
| BookingBulk.BatchIsBulkOfOne | internal/bookings/service.go:387-393 | The batch command is the bulk command with a one-line cart. |
| BookingBulk.Bookkeeper.CreateBooking | internal/bookings/service.go:700-722 | Adds the booking for the line's target with its total and its two postings: the target owes the total more and nobody else anything; allocations are rebuilt on request. |
| BookingBulk.Bookkeeper.CreateBulk | internal/bookings/service.go:471-528 | The nested loops and the rebuild loop reach the bulk state and report the created bookings in order. |
| BookingBulk.Bookkeeper.Void | internal/bookings/service.go:1176-1270 | Refused exactly for unknown or voided bookings; otherwise the row is voided, its reversals are appended, its target owes the total less and nobody else anything, and the target's allocations are rebuilt. |
| BookingDesk.Tables.Execute | internal/bookings/service.go:261-296 | A request is executed if and only if it is admitted, its key is new and its source is there and unreversed; then exactly the row it names is added or reversed, a booking for its target with the requested total, every receivable changes by exactly what the command charges, and the answer names that row; otherwise nothing changes; books stay sound and executed requests are answered from the store. |
| BookingDesk.RepeatsAreInvisible | internal/idempotency/idempotency.go:39-56 | Erasing every repetition from a history, and nothing else, leaves the same books and the same stored answers. |
| BookingDesk.ReplayReturnsOriginal | internal/bookings/service.go:246-273 | Repeating an executed request after any others changes nothing, and is answered if and only if it is the same request and its authorization, which single and batch bookings run before the lookup, still passes; the answer names the original booking, only the void state of which may differ, and shows its current row and whether the member may void it now. |
| BookingDesk.UnexecutedIsInvisible | internal/bookings/service.go:278-294 | A request that was not executed might as well never have been made: every later request is handled as without it. |
| Paging.KeysetTotal | internal/activities/service.go:581-592 | The comparison of key and identifier used by the queries orders rows totally, in both directions and for keys of any type. |
| Paging.KeysetOrders | internal/activities/service.go:581-592 | Ascending, smaller keys come first and the identifier decides between equal ones; descending is exactly the reverse. |
| Paging.QueryPage | internal/activities/service.go:592-684 | Reading at most one row beyond the limit yields the page and a cursor exactly when more follows. |
| Paging.PagesConcatenate | internal/activities/service.go:581-684 | Over a fixed table the pages concatenate to the whole sorted list if and only if the last row of every page but the final one decodes as a cursor. |
| Cursors.CursorRoundTrip | internal/tablequery/tablequery.go:253-287 | A cursor decodes to the very row it was made from, for the query it was made for and no other, if and only if it stays within the limits, and never with anything behind it. |
| Cursors.DecodesIff | internal/tablequery/tablequery.go:267-287 | A cursor stays within the limits if and only if key and identifier are not empty, have at most 1000 and 200 bytes, and the escaped texts together take at most 1494. |
| Cursors.CharCost | internal/tablequery/tablequery.go:255-261 | What each character takes in a cursor: two bytes, six bytes or its UTF-8. |
| Cursors.CursorFits | internal/tablequery/tablequery.go:271-274 | The encoded cursor stays within 2048 characters if and only if its escaped texts take at most 1494 bytes. |
| FeedSort.FeedCursorDecodes | internal/activities/service.go:198-217 | A cursor made from a feed row can be used to go on, missing names included, unless it is sorted by details that have more than 1000 bytes or, escaped, leave no room beside identifier and direction; details of all but corrections always fit. |
| FeedSort.AmountReadsBack | internal/activities/service.go:581-588 | The key of an amount is read back from the cursor as that amount. |
| SortKeys.LowerFolds | internal/activities/service.go:198-217 | Names are compared with the capital letters of ASCII folded and everything else as it is. |
| FeedSort.EscapedDetailStops | internal/tablequery/tablequery.go:255-273 | A correction described by 250 ampersands has a cursor that is refused, although its key is far below 1000 bytes. |
| FeedSort.FeedWalkCompletes | internal/activities/service.go:581-684 | A page walk over the feed completes for every column and page size, unless it is sorted by details and a page but the last ends on a row whose details take too much room; then it stops. |
| AuditSort.AuditCursorDecodes | internal/tablequery/tablequery.go:48-59 | A cursor made from an audit event can be used to go on if and only if the list is not sorted by actors or the event has one. |
| AuditSort.AuditWalkCompletes | internal/audit/audit.go:224-262 | A page walk over the audit log completes unless it is sorted by actors and a page but the last ends on an event without an actor; then it stops. |
| Paging.ChangingTable | internal/externalaccounts/transaction_query.go:141-233 | Walking a changing table delivers rows in order and never twice, and delivers every row that was present throughout with an unchanged key exactly once. |
| Paging.WindowAroundAnchor | internal/activities/service.go:504-519 | The anchor window contains the anchor, has min(limit, total) consecutive rows, half the limit of them before the anchor wherever both ends leave room and otherwise at that end, and its cursor continues exactly where it ends. |
| AccountOrder.CompleteRequest | internal/externalaccounts/accounts.go:344-353 | The length and membership checks accept exactly the permutations of the visible accounts. |
| AccountOrder.AccountRows.Reorder | internal/externalaccounts/accounts.go:328-366 | From the old table to the new one leads a trace of single row writes, two per account, with unique positions after each; the result is the requested order after every hidden account. |
| AccountOrder.AccountRows.Add | internal/externalaccounts/accounts.go:93-101 | A new account takes a free position after all others, hidden ones included. |
| AccountOrder.DirectWritesCollide | internal/externalaccounts/accounts.go:359-366 | Without the first phase even a swap of two rows violates the constraint. |
| ExternalAccounts.EnsureBalanceDelta | internal/externalaccounts/ledger.go:46-69 | Accepts exactly when the exact balance with the amount fits in 64 bits. |
| ExternalAccounts.Balances | internal/externalaccounts/ledger.go:71-103 | Fails exactly if some exact balance does not fit; otherwise gives every account its exact balance. |
| ExternalAccounts.LinkTable.ReplacePaymentMethodLinks | internal/externalaccounts/links.go:36-74 | Accepts exactly the complete mappings onto active accounts, and a refusal undoes the links already written. |
| ExternalSafety.StepKeeps | internal/externalaccounts/transactions.go:130-279 | Every command keeps balances in range, links on active accounts, references intact and deleted identities at zero. |
| ExternalSafety.BalancesAlwaysPublished | internal/externalaccounts/ledger.go:34-103 | In every reachable state the balance query succeeds, every linked account is usable and deleted identities hold nothing. |
| ExternalSafety.FlagsMatchCommands | internal/externalaccounts/accounts.go:439-443 | The existence tests behind the published flags equal the guards of the delete, archive and reactivate commands. |
| ExternalSafety.CountsAgree | internal/externalaccounts/accounts.go:262-281 | Counting links, transactions and legs, as the delete command does, decides as the existence queries of the list do. |
| ExternalTable.Tables.ListAccounts | internal/externalaccounts/accounts.go:379-446 | In a reachable state the list always succeeds for exactly the visible accounts, and each flag it computes from totals and grouped links is the answer its command would give. |
| ExternalSafety.ReversalUndoes | internal/externalaccounts/transactions.go:197-237 | A reversal takes back exactly what its transaction moved, marks it reversed, and revives a deleted identity exactly if its balance becomes non-zero. |
| ExternalTable.Tables.SetAccountArchived | internal/externalaccounts/accounts.go:200-243 | Detaches links before the status guard and undoes that when the guard refuses; otherwise writes exactly as modelled. |
| ExternalTable.Tables.DeleteAccount | internal/externalaccounts/accounts.go:252-313 | Counts and adds up in loops; accepted, the account is gone if unused and hidden if not, is linked to nothing and holds nothing, and the invariants survive. |
| ExternalTable.Tables.InsertExternalLedger | internal/externalaccounts/ledger.go:34-44 | A leg is inserted exactly if the balance stays in range. |
| ExternalTable.Tables.CreateManualTransaction | internal/externalaccounts/transactions.go:231-282 | Accepted if and only if the accounts are active and distinct, the amount is not zero and the new balances fit; then the primary account has the amount more, the counterparty of a transfer as much less, nobody else anything, and the transaction is recorded; refused, nothing changes. |
| ExternalSafety.InputMoves | internal/externalaccounts/validation.go:102-144 | Which requests are well-formed, and that an accepted one takes its amount from the source and brings it to the destination. |
| ExternalSafety.MovementIff | internal/externalaccounts/transactions.go:240-268 | When a movement is accepted, and which balances it changes by how much. |
| ExternalSafety.TransferConserves | internal/externalaccounts/transactions.go:262-268 | After a transfer the balances of all accounts add up to what they did before. |
| ExternalSafety.PostPaymentIff | internal/externalaccounts/transactions.go:130-164 | A payment by a linked method is accepted if and only if its account is active and can take it, and moves exactly its amount there; a method without a link moves nothing. |
| ExternalSafety.CreationIff | internal/externalaccounts/accounts.go:88-126 | A new account starts active with its opening balance, which must not be zero and must fit, or with nothing; no other account is touched. |
| ExternalSafety.RunJournals | internal/externalaccounts/transactions.go:239-279 | In every reachable state each transaction has exactly its legs, and every balance is the sum of what the recorded transactions moved. |
| ExternalSafety.RunReversesOnce | internal/externalaccounts/transactions.go:315-345 | In every run each transaction is reversed at most once and no reversal is reversed. |
| ExternalSafety.ReversalIff | internal/externalaccounts/transactions.go:315-383 | A reversal is accepted if and only if the new balances fit; it takes back exactly what the transaction moved, and a deleted identity comes back, archived, exactly when its balance becomes non-zero. |
| ExternalSafety.PaymentReversal | internal/externalaccounts/transactions.go:166-195 | Reversing a payment takes back exactly one unreversed transaction of that payment; if each can be taken back one is, and without any nothing changes. |
| ExternalSafety.ArchivingIff | internal/externalaccounts/accounts.go:200-243 | Archiving and reactivating are accepted exactly when they change something; archiving detaches exactly the methods linked to the account. |
| ExternalSafety.MappingIff | internal/externalaccounts/links.go:36-74 | A mapping is accepted if and only if it names every method once and only active accounts, and then each method is linked as it says. |
| ExternalTable.Tables.Reverse | internal/externalaccounts/transactions.go:315-383 | The negated legs are inserted all or none and deleted identities are revived as modelled. |
| Permissions.Expand | internal/authorization/policy.go:195-210 | The worklist terminates for every table, also a cyclic one, and returns the least superset closed under implication. |
| Permissions.ExpandPermissions | internal/authorization/policy.go:195-227 | The result lists that closure once, in catalogue order with unknown keys after it. |
| Permissions.ClosureIsReachability | internal/authorization/policy.go:202-210 | A key is in the closure exactly if some given key reaches it through implications. |
| Permissions.ClosureIdempotent | internal/authorization/policy.go:202-210 | Expanding an expanded set adds nothing. |
| Permissions.ClosureMonotone | internal/authorization/policy.go:202-210 | More permissions never imply fewer. |
| Permissions.ClosureDistributes | internal/authorization/policy.go:314-327 | Expanding roles separately and uniting equals expanding their union. |
| Permissions.ResultDetermined | internal/authorization/policy.go:211-226 | The list does not depend on order or repetitions of the input. |
| Permissions.EffectiveGrants | internal/authorization/policy.go:300-331 | Exactly the grants some direct grant of the same scope reaches. |
| Permissions.Can | internal/authorization/policy.go:368-403 | Granted exactly if a covering scope derives the permission; on a group resource exactly if a group-scoped direct grant reaches it. |
| Barcodes.CheckGTIN | internal/catalog/barcodes.go:106-117 | The loop accepts exactly the digit strings of the length whose weighted total is a multiple of ten. |
| Barcodes.ValidGTINIff | internal/catalog/barcodes.go:106-117 | A number is valid if and only if it has that many of the ten digits and its total, every second digit beginning beside the check digit counted three times, is a multiple of ten. |
| Barcodes.CheckDigitExists | internal/catalog/barcodes.go:106-117 | Whatever the other digits are, exactly one check digit completes them. |
| Barcodes.SingleErrorDetected | internal/catalog/barcodes.go:106-117 | Changing any one digit of a valid code is detected. |
| Barcodes.AdjacentSwapDetected | internal/catalog/barcodes.go:106-117 | Swapping neighbours is detected exactly unless they are equal or differ by five. |
| Barcodes.BarcodeKey | internal/catalog/barcodes.go:51-104 | The key of each format is the padded code it stands for, or a refusal. |
| Barcodes.KeysAreGTINs | internal/catalog/barcodes.go:54-90 | Every retail key is its prefix and fourteen digits with a valid check digit. |
| Barcodes.KeysAgreeIff | internal/catalog/barcodes.go:51-104 | Across all formats two keys are equal exactly for retail codes with the same zero-padded GTIN or for the same Code 128 text. |
| Barcodes.ExpandSuppress | internal/catalog/barcodes.go:75-85 | Expansion undoes zero suppression, whose results are canonical. |
| Barcodes.SuppressExpand | internal/catalog/barcodes.go:75-85 | Suppression undoes expansion exactly on canonical codes. |
| Barcodes.CanonicalFormSame | internal/catalog/barcodes.go:75-85 | The canonical code read off the digits has the same expansion, and a code is canonical exactly if it is its own. |
| Barcodes.CollisionsExactly | internal/catalog/barcodes.go:75-85 | Two codes expand alike exactly if their digits give the same canonical form; each code collides with exactly one canonical code. |
| Barcodes.EquivalentRepresentations | internal/catalog/barcodes.go:59-90 | A UPC-A, its EAN-13 with a leading zero and its zero-suppressed form stand for one padded GTIN. |
| Barcodes.NormalizeBarcodes | internal/catalog/barcodes.go:18-41 | Accepts at most fifty valid codes with distinct keys; otherwise names an offending index and why. |
| Barcodes.BarcodeTable.ReplaceProductBarcodes | internal/catalog/barcodes.go:132-153 | Refused exactly if a key belongs to another product, with nothing changed; otherwise the product owns exactly the given keys. |
| Backup.Extract | internal/backup/backup.go:264-308 | The loop accepts exactly the archives of regular, allowed, distinct entries within the size limit, and unpacks each. |
| Backup.ExtractValidated | internal/backup/backup.go:253-366 | The whole validation decides exactly the acceptance predicate, with the limits on expanded and on compressed bytes. |
| Backup.AcceptedIsExact | internal/backup/backup.go:323-364 | An accepted archive holds exactly the manifest, the database and the files the database references, each under its content address. |
| Backup.ContentNameAllowed | internal/backup/backup.go:374-402 | A digest with one allowed extension passes the allowlist and the content-address check. |
| Backup.ContentForms | internal/backup/backup.go:381-400 | The name check accepts exactly 68 bytes of hexadecimal digits before one of the listed tails: images up to two extensions, attachments up to three. |
| Backup.DigestNameIff | internal/backup/backup.go:368-371 | An allowed content name is one digest with one extension, as the comment promises, if and only if its first 64 bytes are hexadecimal digits. |
| Backup.SixtyDigitsAllowed | internal/backup/backup.go:374-402 | A family that breaks the comment: sixty digits with two extensions pass; the content-address check rejects them whatever the digest. |
| Backup.AddressedIsCanonical | internal/backup/backup.go:346-363 | Both checks together admit exactly one digest with one extension. |
| BackupCreate.Create | internal/backup/backup.go:67-147 | Refused exactly for an unsafe key or a missing file; otherwise every referenced file and the snapshot is written once, with the manifest last. |
| BackupCreate.WrittenAcceptedIff | internal/backup/backup.go:97-148 | A written archive is accepted if and only if the snapshot is sound, the payload keeps to both limits, expanded and compressed, and every referenced file still hashes to its name. |
| BackupCreate.BackupRestorable | internal/backup/backup.go:485-521 | From a content-addressed store a backup is always written, and always accepted within both limits. |
| Restore.Directory.Restore | internal/backup/backup.go:204-249 | A trace of single renames leads from the old directory to the one left, and in each state of it, also when the run stops half-way, each earlier file is at its path or in the recovery directory; a finished run installed exactly the archive. |

## Left out

- HTTP handlers, command line, configuration, web client, Web Push and the contents of mails: input and output around the modelled parts.
- SQLite locking, intermediate overflow in SQL sums, text precision of timestamps and unparsable stored times: see the assumptions.
- Passwords, reauthentication, sealing of tokens, sessions and audit rows: they do not influence the modelled state.
- CSV and ZIP projection of an export: an archive is any content within the size limit.
- `DispatchPendingCompletions` stopping at the first callback that fails: its list is modelled, its callbacks are steps that may or may not happen.
- The third sort key of the notification claim: rows due and created at the same instant may be picked in either order.
- Deletion of outbox and registration rows by cascading deletes of memberships, groups or actions.
- Joining with an existing account, invitation creation and renewal themselves: the outbox machine has them as arming, re-arming and cancelling steps.
- Booking reasons, permissions to book for others, temporary guests and notifications of bookings: decided before anything is posted.
- The categories and descriptions of ledger entries, and offset legs of external transactions that carry no account.
- UpdateAccount, account details, attachments and transaction corrections of external accounts: they move no money and no links.
- Collection versions of accounts and links: a stale version refuses a command before it reads anything else.
- Periods beyond opening and closing, settlement and the finance service.
- The computation of query fingerprints, and the base64 text of a cursor beyond its length.
- Cursors.CursorRoundTrip: a cursor payload is read in the member order it is written in, where the source also takes others, and escaped halves of surrogate pairs, which are never written, are not read.
- BookingDesk.ReplayReturnsOriginal: the reason-free window for voiding and the refreshed names, avatars and membership states are not modelled; bulk orders, which are replayed as stored, are not commands of the desk.
- The order of `EffectiveGrants`, and role seeding and validation.
- BackupCreate.Create: the payload may be written in any order, where the source sorts it by name; acceptance does not depend on it.
- Backup.ExtractValidated: compression itself and failing reads and writes are not modelled; the number of compressed bytes is a parameter.
- Restore.Directory.Restore: creation of the recovery directory and the refusal without `force` are not modelled.
