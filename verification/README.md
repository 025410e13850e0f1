# Verification of the device platform's protocols

A Dafny model of the parts of the device platform whose promises are about every run: the
Command and Attempt lease protocol, crash-safe installation, the Omni TCP stream, Webhook
delivery, the Omni session registry, the login limiter and Project management.
`dafny verify dfyconfig.toml` checks all of it.

## How the model is built

*Commands.* One Command with its Attempts, Results and Events is a `Cell`. Every transaction locks
the Command row first, so a transaction is one atomic step on one Cell (`CommandTransactions`,
functions on values), read at its own arbitrary clock. `CommandStore` holds the tables as they are
updated, row by row, and proves each repository method against its function;
`CommandWorker` and `CommandServices` do the same for the worker's transactions and for the callers,
with `CommandAdmission` for who may create which Command. `CommandEffects` says of every transaction, column
by column, when it commits and what it leaves. `CommandSystem` puts any number of workers
on top: between transactions a worker has only local state, which a crash drops. A failed commit is a
crash. `CommandChecked` is the same system with the database's constraints in force.

The worker's two loops (`CommandDispatch`, `CommandMaintenance`) work on the tables. Before each of
their transactions any other processes act, and `CommandSurroundings` keeps the trace of both: it is
a subset type, so the tables hold at every moment the rows of a run of `CommandSystem`, and what is
proved of all runs holds of what the loops do. Instants are microseconds.

*Installation.* Backup, journal, configuration, users and marker are separate durable writes. Every
write meets a fate: it succeeds, fails without effect, takes effect although it reports an error
(torn), or the process crashes before or after it. `EnvFile` is the configuration file, written with
shell quotes and read back by another rule. `Install` says what is left behind,
`InstallProcedure` runs it write by write, `InstallSafety` proves what holds over any sequence of
installations and recoveries.

*Omni.* `OmniCodec` and `OmniDecoder` model the frames and the stream decoder, `OmniSession` the
registry and the adapter, `OmniInterleaving` all its goroutines, lock by lock and write by write.

*Webhooks.* `WebhookDelivery` is one delivery under any sequence of transactions of workers with
different configurations, `WebhookSystem` all deliveries and workers, `WebhookWorker` the table and
the worker's loop, with other workers' transactions before each of its own.

*Logins and Projects.* `LoginLimiter` and `ProjectManagers`; the latter interleaves three
transactions statement by statement under row locks.

## Main results

- No Command reaches its Provider twice in any run, and every outcome that only a Provider can
  justify is backed by one call: `CommandSystem.AtMostOnceDispatch`,
  `CommandCalls.OutcomesAreBackedByOneCall`, both again with the constraints in force in
  `CommandChecked.CheckedAtMostOnceDispatch`; `CommandDispatch.Worker.DispatchNext` ties them to the loop.
- Lease windows never overlap and only the current holder writes: `CommandFencing.WindowsAreDisjoint`,
  `CommandFencing.OnlyTheCurrentHolderWrites`.
- Evidence, finality and Events over whole histories: `CommandHistory.HistoryAdvances`,
  `CommandEvents.HistoryKeepsLog`, `CommandProvenance.HistoryKeepsProven`, `CommandReplay.RecordedResultIsFoundAgain`.
- What maintenance ends, and what it cannot: `CommandProgress.StrandedIffEarlyResult`,
  `CommandMaintenance.Maintenance.Drain`.
- Installation is all or nothing, with the exact exceptions, for one installation and for whole
  sequences: `InstallSafety.PerformIsSafeIff`, `InstallSafety.AllOrNothingIff`; the configuration file
  gives back what was written exactly under a condition on the text: `EnvFile.RoundTripIff`.
- The Omni codec and decoder: `OmniCodec.ParseIsInverseOfRender`, `OmniDecoder.DecoderRefinesScanIff`; its
  sessions in every interleaving: `OmniInterleaving.BytesReachOnlyTheSoleSession`.
- Webhooks: `WebhookDelivery.HistoryOk`, `WebhookSystem.AtMostOnePostPerAttempt`.
- Logins and Projects: `LoginLimiter.WindowBound`, `LoginLimiter.RetryAfterSuffices`,
  `ProjectManagers.ManagersStayActive`, `ProjectManagers.Serializable`, `ProjectManagers.NoDeadlock`.

Rows below that begin with "supporting:" are steps or single-call facts which the results above build on.
Rows that begin with "effect:" fix what one operation computes, without reference to how it is composed, so
that the results above speak of the operations the repository has.

## What turned out to be false, and exactly when

- Maintenance does not end every Command. A Result that is accepted while the Attempt is still
  `dispatching` moves the Command out of `sent`, and recovery and completion both require `sent`, so
  the Attempt never completes; an acknowledged Command then never ends. This happens if and only
  if a Result arrives that early (`CommandProgress.StrandedIffEarlyResult`), and nothing else stands in the
  way of maintenance (`CommandProgress.ProgressUnlessStranded`, `CommandMaintenance.Maintenance.Drain`).
- `docs/domain-model-contract.md` (lines 124 and 164) lets a late Device final raise the evidence of a Command that timed
  out waiting for it. The code does so, but the constraint `chk_device_commands_reason_evidence`
  (migration 009) refuses the row, so the transaction rolls back and the Result is lost.
  `CommandProgress.LateFinalIsLost` is such a run from creation on, and
  `CommandSchema.RecordSchema` gives the exact condition under which a Result can be stored.
- The decoder searches each new chunk for the two-byte terminator, so a chunk boundary between the
  two bytes hides it. `OmniDecoder.DecoderRefinesScanIff`: it agrees with a scan of the whole stream exactly when no boundary
  falls there.
- A durable write that reports an error may have taken effect. Two of the installation's writes
  break it then: the first journal write, if the backup is then dropped, leaves a journal no
  recovery can ever finish; the marker write, if the rollback then deletes the administrator,
  leaves an installed platform without administrator.
- The configuration file is written with shell quotes (`setup.go`, lines 592-599) and read without undoing
  them (`config.go`, lines 224-255), so a database URL does not always come back as it was. It does if and
  only if it is trimmed, has no single quote and no newline, neither begins nor ends with a double
  quote, and no line of the file reaches 65536 bytes (`EnvFile.RoundTripIff`,
  `Install.SurvivingAddressReadsBack`). If it comes back as something that names another database or none,
  an installed platform names the wrong one, and a plain crash after the administrator was announced, which
  tears nothing, can leave a journal no recovery finishes: `InstallSafety.QuotedAddressExample` is such a run
  for `postgres://u:pa'ss@h/db`.
- `InstallSafety.PerformIsSafeIff`: these three cases break an installation and no others, and
  `InstallSafety.AllOrNothingIff`: what one of them broke, no later installation or recovery mends.
- Retry-After can exceed the window of 900 seconds by one: the stored instant is rounded to
  the microsecond and the clock is not. `LoginLimiter.RetryAfterSuffices` bounds it by 900 unless the clock was
  rounded up, and `LoginLimiter.RoundedUpExample` reaches 901.
- An HTTP status outside 100 to 599 makes the repository refuse the worker's own completion
  (`WebhookDelivery.RequestsAreAccepted`). The Attempt stays open, and only recovery closes it
  (`WebhookDelivery.OnlyAnswerOrRecoveryCloses`); `WebhookDelivery.RefusedStatusExample` shows status 600.
- The Webhook worker's constructor accepts every positive lease, but the repository grants none
  below a microsecond, so a worker with such a lease never claims anything
  (`WebhookDelivery.ProgressPossible`).

## Model

| member | source | states |
|---|---|---|
| Lifecycle.WalkNeverRepeats | backend/internal/domain/lifecycle.go:3-27 | the transition table has no cycle: no walk of it visits a status twice |
| Lifecycle.WalkIsShort | backend/internal/domain/lifecycle.go:3-27 | supporting: a walk has at most four statuses and only its last may be terminal |
| Lifecycle.TableRows | backend/internal/domain/lifecycle.go:3-27 | effect: the eleven transitions, and that the terminal statuses are those without one |
| Lifecycle.LevelRows | backend/internal/domain/lifecycle.go:29-55 | effect: the phases of an Attempt and the order of the five levels of confirmation |
| CommandInvariant.StepKeepsRows | backend/internal/storage/repository/postgres_command_event.go:174-809 | every transaction, at any clock, keeps the invariant: one Attempt at most, queued has no confirmation, a dispatching Attempt of a sent Command means no confirmation yet, acked means device_acked, finished_at exactly on terminal Commands, a claim ends by the dispatch deadline |
| CommandInvariant.PersistClosedForm | backend/internal/commandworker/worker.go:372-425 | supporting: once the completion is accepted the whole transaction commits, and these are the rows it leaves |
| CommandInvariant.FailClaimedClosedForm | backend/internal/commandworker/worker.go:274-341 | supporting: once a completion before dispatch is accepted the whole transaction commits: Attempt completed, Command failed for that reason without evidence, one Event |
| CommandEffects.ClaimEffect | backend/internal/storage/repository/postgres_command_event.go:174-285 | effect: a claim takes exactly a queued Command of the Provider before its deadline without a valid claim; the lease ends after its duration or at the dispatch deadline, whichever is first; a takeover changes token and lease end only, a new Attempt has the next number |
| CommandEffects.ReclaimEffect | backend/internal/storage/repository/postgres_command_event.go:287-327 | effect: an expired claim is taken over exactly under its old token; only token and lease end change |
| CommandEffects.MarkEffect | backend/internal/storage/repository/postgres_command_event.go:329-364 | effect: when marking succeeds, the dispatch lease and both instants it stores |
| CommandEffects.FailBeforeEffect | backend/internal/commandworker/worker.go:274-311 | effect: a refusal before dispatch commits exactly for one of five reasons under the held claim, and ends the Command with that reason |
| CommandEffects.PreparationReasons | backend/internal/commandworker/worker.go:274-311 | effect: the five reasons that end a Command before any Provider call |
| CommandEffects.CommitEffect | backend/internal/commandworker/worker.go:313-370 | effect: the commitment commits exactly under the held claim; an online-only Command of an offline Device fails, any other is sent |
| CommandEffects.StorableIff | backend/internal/storage/repository/postgres_command_event.go:882-952 | effect: the answers each of the three Providers may give, and the reason stored for each |
| CommandEffects.PersistEffect | backend/internal/commandworker/worker.go:372-425 | effect: such an answer is stored exactly under the dispatching lease of a sent Command, in these columns |
| CommandEffects.RecoverEffect | backend/internal/storage/repository/postgres_command_event.go:405-465 | effect: exactly an expired dispatch of a sent Command is recovered, as an unverified unknown delivery |
| CommandEffects.ExpireQueuedEffect | backend/internal/storage/repository/postgres_command_event.go:513-540 | effect: exactly a queued Command past its deadline without a valid claim times out, its Attempt with the same reason |
| CommandEffects.CancelEffect | backend/internal/storage/repository/postgres_command_event.go:740-790 | effect: exactly a queued Command without a valid claim is cancelled, its Attempt with the same reason |
| CommandEffects.ExpireObservationEffect | backend/internal/storage/repository/postgres_command_event.go:475-569 | effect: exactly a sent or acknowledged Command with its Attempt completed and its result deadline past times out |
| CommandEffects.VerifyEffect | backend/internal/storage/repository/postgres_command_event.go:610-677 | effect: unverified acceptance is verified exactly by the stored inbound answer to the Attempt itself from the bound Device |
| CommandEffects.RecordEffect | backend/internal/storage/repository/postgres_command_event.go:679-738 | effect: a wellformed Result is accepted exactly from sent, from acked unless an acknowledgement, and after the end; where it leads, and that a late one only raises the confirmation |
| CommandEffects.CreatedRow | backend/internal/commandservice/service.go:126-160 | effect: the columns of a new Command |
| CommandHistory.HistoryAdvances | backend/internal/storage/repository/postgres_command_event.go:405-432 | between any two moments of any history evidence did not regress, a terminal Command kept status, reason and finish time, a completed Attempt kept outcome and time, Results and Events were only appended |
| CommandHistory.StatusPathIsWalk | backend/internal/domain/lifecycle.go:3-27 | the statuses of every history are a walk of the declared table |
| CommandEvents.StepLogs | backend/internal/commandworker/worker.go:115-147 | every transaction that changes the status writes exactly one Event, which reports that change |
| CommandEvents.NewKeyIsFresh | backend/internal/commandworker/worker.go:448-496 | the Event a transaction writes has a deduplication key no stored Event has |
| CommandEvents.HistoryKeepsLog | backend/internal/commandresultservice/service.go:169-200 | in every history, replaying the Events in commit order gives the stored status, each `from` being the status before it, and all keys differ |
| CommandEvents.KeysMeaning | backend/internal/commandworker/worker.go:448-496 | effect: when two Events share a deduplication key |
| CommandProvenance.HistoryKeepsProven | backend/internal/storage/repository/postgres_command_event.go:882-952 | Device evidence and Device statuses exist only with a stored verified Result of that kind; without Results Omni stays at transport_sent and WWTIOT at unverified provider_accepted |
| CommandSchema.StepKeepsSchema | backend/internal/storage/migrations/008_platform_core_v4.up.sql:45-188 | apart from Record no transaction body produces rows the constraints refuse |
| CommandSchema.RecordSchema | backend/internal/storage/migrations/009_dual_provider_smart_lock.up.sql:63-153 | a Result can be stored exactly under a condition its caller can check |
| CommandSchema.LateFinalAfterTimeoutIsRefused | backend/internal/storage/migrations/009_dual_provider_smart_lock.up.sql:92-102 | supporting: a late Device final after a result timeout is refused although the body raises the evidence |
| CommandSchema.CheckedRunIsRun | backend/internal/storage/migrations/002_frozen_contract_alignment.up.sql:241-386 | supporting: with the constraints in force every history of one Command is one of the unchecked ones, and its rows satisfy them |
| CommandProgress.ProgressUnlessStranded | backend/internal/storage/repository/postgres_command_event.go:434-569 | past all deadlines a non-terminal Command has a maintenance step enabled if and only if it is not stranded |
| CommandProgress.StrandedIffEarlyResult | backend/internal/storage/repository/postgres_command_event.go:679-738 | a history strands a Command if and only if some Result was recorded while its Attempt was dispatching |
| CommandProgress.StrandedIsForever | backend/internal/storage/repository/postgres_command_event.go:366-432 | nothing but a further Result changes a stranded Command, and it stays stranded |
| CommandProgress.EarlyAckStrandsCommand | backend/internal/storage/repository/postgres_command_event.go:475-511 | a concrete Command that no maintenance ever ends |
| CommandProgress.LateFinalIsLost | backend/internal/storage/migrations/009_dual_provider_smart_lock.up.sql:92-102 | a concrete run from creation to a result timeout after which the promised late Device final is lost |
| CommandProgress.MaintenanceDecreases | backend/internal/commandworker/worker.go:107-147 | supporting: every maintenance transaction decreases incomplete Attempts plus non-terminal Commands |
| CommandSystem.AtMostOnceDispatch | backend/internal/commandworker/worker.go:237-370 | for any workers, crashes, reclaims, cancels and clocks: no Command is handed to its Provider twice or has two Attempts, and one that ended before dispatch never was |
| CommandSystem.RunsAdvance | backend/internal/storage/repository/postgres_command_event.go:571-738 | evidence, finality and append-only histories over whole runs of the system |
| CommandSystem.ExecuteKeepsSysOk | backend/internal/commandworker/worker.go:201-425 | the invariant of all Commands, workers and Provider calls in every run |
| CommandSystem.OneRound | backend/internal/commandworker/worker.go:237-425 | effect: a worker that holds a claim and meets nobody commits it, calls the Provider once and stores the answer |
| CommandSystem.UnattendedActs | backend/internal/storage/repository/postgres_command_event.go:434-809 | effect: every unattended transaction acts on its Command |
| CommandSystem.ReclaimActs | backend/internal/storage/repository/postgres_command_event.go:287-327 | effect: a worker that takes over an expired claim holds it |
| CommandFencing.SupersededTokenWritesNothing | backend/internal/storage/repository/postgres_command_event.go:287-403 | supporting: a transaction under any token but the stored one rolls back |
| CommandFencing.CompletedExactlyOnce | backend/internal/storage/repository/postgres_command_event.go:740-790 | exactly one transaction completes the Attempt, whichever of worker, recovery, cancel or expiry ran it |
| CommandFencing.WindowsAreDisjoint | backend/internal/storage/repository/postgres_command_event.go:202-233 | with fresh tokens and a monotone clock the validity windows of successive tokens never overlap |
| CommandFencing.OnlyTheCurrentHolderWrites | backend/internal/storage/repository/postgres_command_event.go:825-863 | a worker's transaction commits only inside the window of the last token granted, which no other worker holds |
| CommandCalls.OutcomesAreBackedByOneCall | backend/internal/commandworker/worker.go:266-271 | in every run an Attempt whose outcome only a Provider answer justifies was handed to its Provider exactly once; recovery never writes such an outcome |
| CommandChecked.CheckedExecuteIsExecute | backend/internal/storage/migrations/002_frozen_contract_alignment.up.sql:241-386 | a run of the whole system with all constraints in force is the unchecked run of what really happened, and its tables satisfy every constraint, request-key uniqueness included |
| CommandChecked.CheckedAtMostOnceDispatch | backend/internal/commandworker/worker.go:237-370 | at-most-once dispatch and backed outcomes when any transaction may also be refused by a constraint |
| CommandChecked.CheckedWindowsAreDisjoint | backend/internal/storage/repository/postgres_command_event.go:202-233 | lease windows stay disjoint when any transaction may also be refused by a constraint |
| CommandReplay.RecordedResultIsFoundAgain | backend/internal/commandresultservice/service.go:63-104 | a recorded Result is found by its key in every later state, agrees with the repeated report, and is the only one with that key |
| CommandReplay.ResultKeysNeverRepeat | backend/internal/commandresultservice/service.go:71-94 | no two stored Results share a source and deduplication key |
| CommandReplay.CreatedCommandIsFoundAgain | backend/internal/commandservice/service.go:184-210 | a created Command is found by its idempotency key in every later state, unchanged and alone |
| CommandReplay.SameResultMeaning | backend/internal/commandresultservice/service.go:154-167 | effect: a repeated report agrees exactly if it would store the same row but for instants and lateness |
| CommandAdapters.SimulatorResultsPersist | backend/internal/simulator/adapter.go:59-120 | every result the Simulator can return after a successful preparation can be stored |
| CommandAdapters.SimulatorAnswers | backend/internal/simulator/adapter.go:87-120 | effect: what the Simulator answers to each setting |
| CommandAdapters.SimulatorPrepares | backend/internal/simulator/adapter.go:59-81 | effect: exactly when the Simulator is prepared, and with what |
| CommandAdapters.ParseIntMeaning | backend/internal/simulator/adapter.go:146-163 | effect: which numbers a text setting stands for |
| CommandAdapters.OnlyNumbersParse | backend/internal/simulator/adapter.go:146-163 | effect: nothing but digits with or without a sign is read as a number |
| CommandAdapters.PersistFailsOnlyOnLostLease | backend/internal/storage/repository/postgres_command_event.go:366-403 | storing such a result commits if and only if the worker still holds the lease of a sent Command |
| CommandAdapters.FailBeforeFailsOnlyOnLostLease | backend/internal/commandworker/worker.go:274-311 | a preparation failure is stored if and only if the worker still holds the claim of a queued Command |
| CommandAdapters.CommitFailsOnlyOnLostLease | backend/internal/commandworker/worker.go:313-370 | the commitment commits exactly while the claim is held, and dispatches exactly if the Device need not be or is online |
| Prelude.First | backend/internal/storage/repository/postgres_command_event.go:178-194 | supporting: ORDER BY and LIMIT 1: the due row that comes first, if any is due |
| CommandStore.Tables.ClaimNext | backend/internal/storage/repository/postgres_command_event.go:174-285 | of the unlocked Commands that may be claimed the one queued first is claimed, as taken over or newly opened, under the smaller of lease and deadline; a taken request key is a conflict; none means that nothing may be claimed or the token is in use |
| CommandStore.Tables.ReclaimAttempt | backend/internal/storage/repository/postgres_command_event.go:287-327 | takes over an expired claim in place: its token and lease end, and nothing else |
| CommandStore.Tables.MarkDispatching | backend/internal/storage/repository/postgres_command_event.go:329-364 | moves the Attempt to dispatching under its new lease and the Command to sent with both instants, exactly under the valid token of a claim before the dispatch deadline |
| CommandStore.Tables.CompleteAttempt | backend/internal/storage/repository/postgres_command_event.go:366-403 | stores the outcome exactly if token, lease, phase, Command status and evidence fit; changes nothing else |
| CommandStore.Tables.FinishQueued | backend/internal/storage/repository/postgres_command_event.go:740-790 | ends a queued Command and its expired claim together, and refuses while a claim is valid or dispatches |
| CommandStore.Tables.TransitionFromAttempt | backend/internal/storage/repository/postgres_command_event.go:593-608 | moves the Command exactly by a declared transition that its completed Attempt justifies and that loses no evidence |
| CommandStore.Tables.UpdateProviderAcceptance | backend/internal/storage/repository/postgres_command_event.go:610-677 | turns unverified acceptance of a sent Simulator Command and its Attempt verified exactly if a stored raw message confirms that Attempt, or changes nothing |
| CommandStore.Tables.ApplyResult | backend/internal/storage/repository/postgres_command_event.go:679-738 | aggregates a Result: a late one touches only evidence and only upward, any other takes the transition of its outcome or is refused |
| CommandWorker.Transactions.CommitDispatch | backend/internal/commandworker/worker.go:313-370 | the transaction commits or leaves no trace, and reports dispatched only with a commit |
| CommandWorker.Transactions.PersistResult | backend/internal/commandworker/worker.go:372-425 | the outcome, the evidence or transition and the Event are stored together, or nothing is |
| CommandWorker.Transactions.RecoverNext | backend/internal/storage/repository/postgres_command_event.go:434-465 | recovers the dispatch whose lease expired first among the unlocked ones; none is due if it finds none |
| CommandMaintenance.Maintenance.Drain | backend/internal/commandworker/worker.go:162-199 | past all deadlines, whatever others do between its transactions, the inner loop of poll ends within the measure of the work left: at a failed transaction, or with every Command terminal except those an early Result had stranded and those whose rows others held locked at its last three looks |
| CommandMaintenance.ActionWinds | backend/internal/commandworker/worker.go:162-199 | past all deadlines no action of anybody queues a Command again, puts one in flight, revives one that ended or adds work |
| CommandDispatch.Worker.ClaimNext | backend/internal/commandworker/worker.go:201-235 | one to eight claim transactions with fresh identities, each but the first after a request-key conflict; a conflict is reported only after eight, a miss only if nothing was claimable |
| CommandDispatch.Worker.DispatchClaimed | backend/internal/commandworker/worker.go:237-272 | the claim is handled to its end: dropped only for a policy without timeouts, refused for the adapter's own reason, or committed under a lease that outlasts the Provider timeout by its margin; if that armed the worker, the Provider is called once with the claimed request and that answer is stored |
| CommandDispatch.Worker.DispatchNext | backend/internal/commandworker/worker.go:88-105 | all it and the others do is a run of CommandSystem; adapters are tried in rotation, the next only after a true miss; work means a claim handled to its end; no work means that all missed, an error that the last met eight conflicts; no Command is handed over twice |
| CommandDispatch.HandledMeans | backend/internal/commandworker/worker.go:237-272 | supporting: what it means that a claim was handled to its end |
| CommandServices.Services.Create | backend/internal/commandservice/service.go:52-182 | once the caller sees the addressed Project, a replay is answered before any check on the Device; a reused key for another request conflicts; otherwise a queued Command is created exactly if all ten checks pass, with the policy of the listed action, or refused for the first that fails |
| CommandAdmission.AdmitMeaning | backend/internal/commandservice/service.go:95-152 | effect: the ten checks on Device, type, action, payload, Provider, profile and connection, in their order |
| CommandAdmission.NotBoth | backend/internal/commandservice/service.go:95-152 | effect: nothing is both admitted and refused |
| CommandAdmission.ScopeMeaning | backend/internal/access/scope.go:70-85 | effect: which Project a caller addresses and which it may see |
| CommandServices.Services.Cancel | backend/internal/commandservice/service.go:276-320 | cancels exactly a queued Command without a valid lease whose Project the caller may see |
| CommandServices.Services.Record | backend/internal/commandresultservice/service.go:42-105 | a repeated report is answered with the stored Result, a different one under its key conflicts, a new one is stored and aggregated or refused without trace |
| CommandServices.Services.FindResult | backend/internal/commandresultservice/service.go:71-79 | finds the stored Result with a key if and only if there is one |
| InstallSafety.AllOrNothing | backend/cmd/server/setup_recovery.go:279-379 | after any failing and crashing installations and recoveries that met none of the three faults, a completed recovery leaves no journal and all of one installation or none of any |
| InstallSafety.AllOrNothingIff | backend/cmd/server/setup_recovery.go:279-379 | with fresh administrator identifiers, a faultless recovery after any such sequence settles the host if and only if no installation of the sequence met one of the three faults |
| InstallSafety.PerformIsSafeIff | backend/cmd/server/setup.go:427-497 | an installation keeps the host sound if and only if neither of two writes tears at its worst moment and no misread configuration matters; an installed platform is sound only if its configuration names its database |
| InstallSafety.PerformCommits | backend/cmd/server/setup.go:316-497 | without a fault before the marker the installation commits, exactly if its configuration is read back as its database |
| InstallSafety.SuccessMeansInstalled | backend/cmd/server/setup.go:427-497 | effect: success is reported only with marker, configuration and administrator in place and the journal gone |
| InstallSafety.RecoveryConverges | backend/cmd/server/setup_recovery.go:279-328 | a recovery broken off anywhere, then one without faults, ends where the latter alone would have |
| InstallSafety.PhasesOnlyAdvance | backend/cmd/server/setup_recovery.go:261-264 | supporting: no recovery takes the journal a phase back |
| InstallSafety.LostBackupIsForever | backend/cmd/server/setup_recovery.go:182-205 | supporting: a journal without its backup blocks recovery and installation for good |
| InstallSafety.TornMarkerExample | backend/cmd/server/setup.go:461-463 | a torn marker write alone does it, from a clean host |
| InstallSafety.TearingTheMarker | backend/cmd/server/setup.go:461-463 | every torn marker write whose rollback deletes the administrator ends with the marker and no administrator |
| InstallSafety.TornJournalExample | backend/cmd/server/setup_recovery.go:200-203 | a torn first journal write alone leaves a journal that a faultless recovery cannot finish |
| InstallSafety.QuotedAddressExample | backend/cmd/server/setup.go:592-599 | with a single quote in the password, a crash after the administrator was inserted leaves a host that no recovery changes |
| InstallSafety.MisreadingBlocks | backend/cmd/server/setup_recovery.go:290-294 | supporting: a configuration that names no database and a fault under the announcement leave a journal that recovery and installation refuse for good |
| EnvFile.RoundTripIff | backend/cmd/server/config.go:224-255 | the database URL written by the installer is read back unchanged if and only if it is trimmed, has no single quote and no newline, neither begins nor ends with a double quote, and no line of the file is too long |
| EnvFile.RestIsKept | backend/cmd/server/setup.go:549-570 | effect: every other setting of the written configuration is found as it was given |
| EnvFile.SettingForms | backend/cmd/server/config.go:224-255 | effect: how a plain line, an exported one and a comment are read |
| EnvFile.PlainChars | backend/cmd/server/setup.go:592-600 | effect: the characters that need no quotes |
| EnvFile.LineLimit | backend/cmd/server/config.go:231-253 | effect: from how many bytes on a line is too long |
| Prelude.SpacesAre | backend/cmd/server/config.go:233-246 | effect: the characters that are trimmed |
| EnvFile.CommentWithoutQuotes | backend/cmd/server/config.go:277-297 | effect: where a comment starts outside quotes |
| EnvFile.InnerQuoteIsMisread | backend/cmd/server/setup.go:592-599 | a URL with one inner single quote is read back with the shell escape in its place |
| EnvFile.ReadEnvValues | backend/cmd/server/config.go:224-255 | the loop yields for every key the first setting in the file, or nothing if a line is too long |
| EnvFile.DatabaseUrlFromRuntimeConfig | backend/cmd/server/setup_recovery.go:450-460 | supporting: reads the address that DatabaseAddress says |
| EnvFile.StripInlineEnvComment | backend/cmd/server/config.go:277-297 | supporting: the loop cuts at the first comment outside quotes |
| Install.SurvivingAddressReadsBack | backend/cmd/server/setup_recovery.go:450-460 | supporting: under the condition of RoundTripIff the written configuration names the installed database |
| InstallSafety.MarkerIsForever | backend/cmd/server/setup_recovery.go:287-289 | once the marker is there no recovery or installation changes marker, configuration or users |
| InstallProcedure.Machine.InstallPlatform | backend/cmd/server/setup.go:316-497 | the procedure, write by write, leaves exactly the specified state |
| InstallProcedure.Machine.RecoverInstallation | backend/cmd/server/setup_recovery.go:279-328 | recovery, write by write, leaves exactly the state Recover says and reports success exactly when it does |
| InstallProcedure.Machine.RollBackBeforeMarker | backend/cmd/server/setup_recovery.go:330-347 | the rollback of a running installation goes the same way back, from the phase it has in memory |
| InstallProcedure.Machine.CleanupArtifacts | backend/cmd/server/setup_recovery.go:364-379 | removes the backup and only then the journal |
| OmniCodec.ParseIsInverseOfRender | backend/internal/directdevice/omni/codec.go:99-174 | bytes parse to a frame exactly if the frame is valid and they are its rendering |
| OmniCodec.EncodedIsNeverAccepted | backend/internal/directdevice/omni/codec.go:80-97 | supporting: nothing the platform sends is accepted as a Device's frame |
| OmniCodec.EncodedBytes | backend/internal/directdevice/omni/codec.go:72-87 | effect: encoding succeeds exactly for a known profile and fifteen digits, and these bytes are sent |
| OmniCodec.EncodedParts | backend/internal/directdevice/omni/codec.go:78-86 | effect: they split into exactly the five or four parts of a status query |
| OmniCodec.FieldsMeaning | backend/internal/directdevice/omni/codec.go:205-258 | effect: the fields of each report against a table of ranges |
| OmniCodec.CommandsMeaning | backend/internal/directdevice/omni/codec.go:189-203 | effect: the known commands of each profile |
| OmniCodec.TimestampMeaning | backend/internal/directdevice/omni/codec.go:176-187 | effect: a timestamp against a calendar |
| OmniCodec.RenderedBytes | backend/internal/directdevice/omni/codec.go:99-158 | effect: a Device frame byte for byte |
| OmniCodec.RefusedWhole | backend/internal/directdevice/omni/codec.go:89-124 | effect: what a refusal of the bytes as a whole says of them |
| OmniCodec.RefusedParts | backend/internal/directdevice/omni/codec.go:125-158 | effect: what a refusal of the parts says of them |
| OmniCodec.SplitJoin | backend/internal/directdevice/omni/codec.go:125 | supporting: splitting on commas undoes joining parts that have none |
| OmniDecoder.DecoderRefinesScanIff | backend/internal/directdevice/omni/decoder.go:30-71 | reports and final state equal a whole-stream scan exactly when no chunk boundary cuts a terminator |
| OmniDecoder.FeedAppend | backend/internal/directdevice/omni/decoder.go:30-71 | feeding a concatenation is feeding its parts, unless the boundary cuts a terminator |
| OmniDecoder.CutTerminatorExample | backend/internal/directdevice/omni/decoder.go:43-52 | a cut terminator is missed |
| OmniDecoder.ScanConserves | backend/internal/directdevice/omni/decoder.go:30-71 | unless something was too large, the bytes reported and the bytes kept are the stream |
| OmniDecoder.ScanReportsWell | backend/internal/directdevice/omni/decoder.go:30-71 | each report ends with its first terminator, is within the limit and is parsed |
| OmniDecoder.TooLargeMeansTooLarge | backend/internal/directdevice/omni/decoder.go:53-66 | effect: a stream within the limit has nothing too large, an unterminated one beyond it has |
| OmniDecoder.Decoder.FeedChunk | backend/internal/directdevice/omni/decoder.go:30-71 | the loop computes the specified reports and keeps the buffer within its limit |
| OmniDecoder.Decoder.Close | backend/internal/directdevice/omni/decoder.go:73-84 | a partial frame is reported unless its overflow was |
| OmniDecoder.Decoder.Decode | backend/internal/directdevice/omni/decoder.go:30-71 | chunk after chunk, the updated decoder reports what the whole-stream scan does exactly when no boundary cuts a terminator |
| OmniDecoder.NewDecoder | backend/internal/directdevice/omni/decoder.go:20-28 | made exactly for a known profile and a buffer of three bytes or more |
| OmniSession.Registry.Register | backend/internal/directdevice/omni/session.go:65-83 | adds a session under a fresh generation and changes nothing else |
| OmniSession.Registry.Unregister | backend/internal/directdevice/omni/session.go:85-100 | removes exactly that session |
| OmniSession.Registry.LookupUnique | backend/internal/directdevice/omni/session.go:102-123 | answers the identity's sole session exactly if there is one |
| OmniSession.Registry.WriteUnique | backend/internal/directdevice/omni/session.go:131-177 | under any short writes the wire of the sole session, and no other, grows by the counted prefix of the frame; each error has its cause, and undisturbed the whole frame is written |
| OmniSession.Registry.Dispatch | backend/internal/directdevice/omni/adapter.go:125-153 | transport evidence is claimed exactly if a byte reached the wire, and the result can be stored |
| OmniSession.PreparedIsAStatusQuery | backend/internal/directdevice/omni/adapter.go:57-111 | supporting: only a status query to the owner's unique session is ever prepared, with these bytes; every refusal ends the Command before any write |
| OmniSession.RefusalMeaning | backend/internal/directdevice/omni/adapter.go:57-111 | effect: what each reason of a refusal says of the request and the session |
| OmniSession.WellFormedQueryIsPrepared | backend/internal/directdevice/omni/adapter.go:86-101 | with a unique session a well-formed query is prepared exactly if the session belongs to the Device and Project |
| OmniSession.SoleMeansOne | backend/internal/directdevice/omni/session.go:143-145 | supporting: the size test and the generation test together mean the sole session |
| OmniInterleaving.BytesReachOnlyTheSoleSession | backend/internal/directdevice/omni/session.go:131-177 | in every interleaving a byte reaches a wire only while its session is the identity's sole live one |
| OmniInterleaving.WiresAreWholePrefixes | backend/internal/directdevice/omni/session.go:146-177 | in every interleaving a wire is the counted prefixes of whole calls, never mixed |
| OmniInterleaving.AloneCallWritesAll | backend/internal/directdevice/omni/session.go:127-177 | effect: a call that meets nobody writes its whole frame and leaves |
| OmniInterleaving.RegistrationsAct | backend/internal/directdevice/omni/session.go:65-97 | effect: sessions come under a new generation and go while nobody reads their identity |
| WebhookDelivery.HistoryOk | backend/internal/storage/repository/postgres_webhook_simulator.go:213-426 | under any workers and configurations: sending exactly with a lease and one open Attempt numbered attempt_count, at most five Attempts, delivered only with a 2xx, terminal final, default spacing kept, at most eleven steps |
| WebhookDelivery.RequestsAreAccepted | backend/internal/webhookworker/worker.go:167-276 | the repository accepts exactly the worker's requests with a status from 100 to 599, and this is where they lead |
| WebhookDelivery.OnlyAnswerOrRecoveryCloses | backend/internal/storage/repository/postgres_webhook_simulator.go:305-392 | an open Attempt is closed only under the valid lease by an answer the repository accepts, or after it by recovery |
| WebhookDelivery.RefusedStatusExample | backend/internal/webhookworker/worker.go:167-186 | status 600 changes nothing for a claimed delivery, which recovery then closes |
| WebhookDelivery.ProgressPossible | backend/internal/webhookworker/worker.go:157-165 | which of recover, exhaust and claim is enabled for a delivery that waits for nothing: exactly one, unless the lease of the worker that claims is below a microsecond |
| WebhookDelivery.RetryIsSpaced | backend/internal/webhookworker/worker.go:271-276 | a retry starts no sooner than the configured delay after the failure was stored |
| WebhookDelivery.StepDecreases | backend/internal/storage/repository/postgres_webhook_simulator.go:305-426 | supporting: every transaction that takes effect brings a delivery nearer its end |
| WebhookDelivery.ClaimEffect | backend/internal/storage/repository/postgres_webhook_simulator.go:213-271 | effect: exactly when a delivery is claimed, with its lease to the microsecond and its new Attempt |
| WebhookDelivery.AnswerEffect | backend/internal/storage/repository/postgres_webhook_simulator.go:305-330 | effect: exactly when an answer is stored, the code stored for each, and the exact instant of a retry |
| WebhookDelivery.RecoverEffect | backend/internal/storage/repository/postgres_webhook_simulator.go:332-392 | effect: exactly when a delivery is recovered, with the exact instant of its retry |
| WebhookDelivery.DefaultDelays | backend/internal/webhookworker/worker.go:28-44 | effect: the four default delays |
| WebhookDelivery.ExhaustEffect | backend/internal/storage/repository/postgres_webhook_simulator.go:273-303 | effect: exactly when a delivery is given up |
| WebhookSystem.AtMostOnePostPerAttempt | backend/internal/webhookworker/worker.go:89-186 | no Attempt is sent twice, and a replay repeats the Event of a delivery that stays dead |
| WebhookSystem.AtMostFivePosts | backend/internal/webhookworker/worker.go:28 | one delivery is sent at most five times in any run |
| WebhookSystem.OneRound | backend/internal/webhookworker/worker.go:85-104 | effect: a worker alone claims, asks the endpoint and stores its answer |
| WebhookSystem.PostedUnlessFoundBefore | backend/internal/webhookworker/worker.go:167-186 | effect: which answers mean that a request was sent |
| WebhookSystem.OthersAct | backend/internal/webhookworker/worker.go:106-127 | effect: recovery, giving up and replay act |
| WebhookWorker.NewConfig | backend/internal/webhookworker/worker.go:46-83 | a worker is made exactly with a budget of one to five and no delay below its default, and with any positive lease to the nanosecond; absent settings get the defaults |
| WebhookWorker.Deliveries.ClaimDue | backend/internal/storage/repository/postgres_webhook_simulator.go:213-271 | the first due unlocked delivery, by due instant, creation and identifier, is claimed as specified, or none is due |
| WebhookWorker.Deliveries.CompleteAttempt | backend/internal/storage/repository/postgres_webhook_simulator.go:305-330 | stores the answer and the next status exactly under the valid lease of the one open Attempt, and changes nothing otherwise |
| WebhookWorker.Deliveries.RecoverNextExpired | backend/internal/storage/repository/postgres_webhook_simulator.go:332-392 | closes the open Attempt of the lease that expired first and schedules its retry or ends the delivery; none is expired if it finds none |
| WebhookWorker.Worker.RunNext | backend/internal/webhookworker/worker.go:157-165 | one round recovers, or else gives up, or else claims the delivery due first, sends it and stores the answer; no work means there was nothing to do at its three looks |
| WebhookWorker.Worker.Drain | backend/internal/webhookworker/worker.go:127-155 | whatever others do between its transactions, the inner loop of Run ends within the steps all deliveries have left: at a refused answer, or having found nothing expired, exhausted or due among the rows others did not hold locked |
| LoginLimiter.WindowBound | backend/cmd/server/auth.go:371-455 | in any order of instants every fifteen-minute window holds at most 5 and 20 stored failures |
| LoginLimiter.WindowBoundInNumbers | backend/cmd/server/auth.go:371-405 | effect: five and twenty |
| LoginLimiter.LogInMeaning | backend/cmd/server/auth.go:383-455 | effect: the fifth failure of an email at an address or the twentieth of the address limits; what each outcome leaves |
| LoginLimiter.RetryAfterSuffices | backend/cmd/server/auth.go:383-405 | waiting the returned seconds suffices, and they never exceed the window, or by one second if the clock was rounded up to the stored microsecond |
| LoginLimiter.RoundedUpExample | backend/cmd/server/auth.go:487-506 | five failures and a sixth login at 500 nanoseconds answer 901 seconds |
| LoginLimiter.FirstExpiryIsFirst | backend/cmd/server/auth.go:487-506 | effect: no active failure stops counting before the instant the delay is taken from |
| LoginLimiter.FailureTable.ActiveFailureCount | backend/cmd/server/auth.go:487-506 | one pass over the table gives the active failures and the rounded-up delay until the first of them expires |
| LoginLimiter.FailureTable.LoginUser | backend/cmd/server/auth.go:371-455 | limited before the credentials are looked at; logged in exactly below both limits with a nonempty email and password that are those of an active user, with only its own key cleared; refused and recorded under both keys otherwise; one audit each time |
| ProjectManagers.ManagersStayActive | backend/internal/projectservice/service.go:119-136 | in every interleaving every committed Project's manager is active |
| ProjectManagers.Serializable | backend/internal/projectservice/service.go:445-533 | every interleaving is equivalent to its committed transactions one after the other, in commit order |
| ProjectManagers.CommitIsAtomic | backend/internal/projectservice/service.go:470-520 | a committing transaction has at that moment exactly the effect it would have alone |
| ProjectManagers.TransferRuns | backend/internal/projectservice/service.go:468-531 | effect: a transfer that meets nobody takes its locks and moves the Project |
| ProjectManagers.NoDeadlock | backend/internal/projectservice/service.go:470-490 | in every interleaving some open transaction is not waiting for a lock |
| ProjectManagers.SuperAdminsAreImmutable | backend/internal/userservice/service.go:136-171 | no interleaving changes, makes or removes a super administrator |
| ProjectManagers.Platform.Transfer | backend/internal/projectservice/service.go:445-533 | up to four tries, each further one only after somebody else moved the Project; the state it leaves is what others committed meanwhile, with that one manager replaced if it succeeded and nothing else changed |
| ProjectManagers.AloneIsNotOvertaken | backend/internal/projectservice/service.go:468-531 | supporting: with nobody else about, nothing changes before a try and none is overtaken |
| ProjectManagers.Platform.UpdateStatus | backend/internal/userservice/service.go:124-176 | changes nobody but that user, and refuses super administrators and managers of Projects |

## Left out

- SQL text, JSON, HTTP, timers, UUIDs and all audits but those of logins; identifiers and lease tokens are numbers, supplied from outside.
- Webhook deliveries created beside Command Events, and the reason detail texts.
- Isolation levels: transactions on one Command are atomic because each locks its row first; failed commits count as crashes.
- The order of recovery among equal lease expiries is by Command, since Attempt identifiers are random.
- CommandServices.Services.Create: validation of identifiers and of the payload's text, errors of the lookups themselves, and the request hash, which no later step of the protocol reads; a payload is a number, with 0 for the empty object.
- CommandStore.Tables.UpdateProviderAcceptance: the stored raw message is passed in, since its table is not modelled.
- CommandDispatch.Worker.DispatchNext: the dispatch context's timeout appears only through the adapter's answer, and errors of the database in the worker's own transactions only as crashes in CommandSystem.
- CommandMaintenance.Maintenance.Drain: from the moment all deadlines have passed no clock is behind it and no new Command is created; a Command created later has deadlines of its own.
- WebhookWorker.Worker.Drain: deliveries created while it runs; they wait for the next round.
- ProjectManagers.NoDeadlock: the explicit row locks of the three transactions only, not those foreign keys and audits take.
- Trimming of deduplication keys and the UTF-8 length of texts; lengths are in characters.
- CommandAdapters.SimulatorResultsPersist: floating-point summary values are either integers or fractions.
- The WWTIOT HTTP client; its results enter the protocol as arbitrary adapter answers.
- InstallProcedure.Machine.InstallPlatform: temporary files, file and database lock calls, migrations and the runtime snapshot appear only as a check that may fail and as write errors.
- InstallSafety.PerformIsSafeIff: which database a misread URL names is a parameter, since parsing URLs is not modelled.
- InstallSafety.AllOrNothingIff: supposes that the identifiers drawn for administrators are fresh, as random UUIDs are.
- SHA-256 digests are taken as injective.
- Users that exist beside the administrator after an installation, and configuration edits between installations.
- OmniSession.Registry.WriteUnique: a connection that reports an impossible count is taken to have sent nothing in that write.
- OmniInterleaving.BytesReachOnlyTheSoleSession: the map of identities itself is not interleaved, since identities are never removed.
- ProjectManagers.Platform.Transfer: other transactions come whole between its tries, which Serializable justifies.
- LoginLimiter.FailureTable.LoginUser: emails come trimmed and in lower case; advisory locks make the transactions of a key sequential; a password matches if it equals the stored one.
- LoginLimiter.RetryAfterSuffices: a tie between two microseconds is rounded up.
- The HTTP router, pagination, the in-memory doubles, IP whitelists, cryptography and the frontend.
